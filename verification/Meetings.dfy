/**
 The video meeting the CRM keeps for an appointment, and the join link stored on it.

 A save may be refused; when it succeeds the service answers with the meeting's ID, the same one
 if it still exists and a new one if not, and a join link. What a meeting was last made from is
 its title and time.
 */
module Meetings {
  import opened Wrappers

  datatype Key = Key(service: nat, meeting: nat)

  /** What a meeting is made from, and what its fingerprint stands for. */
  datatype Made = Made(title: string, startsAt: int)

  datatype Item = Item(title: string, startsAt: Option<int>, assignee: Option<nat>, completed: bool, url: string)

  /** The CRM's links with what each meeting was made from, the meetings there are, and the next new ID. */
  datatype Tables = Tables(links: map<Key, Made>, live: map<Key, Made>, nextMeeting: nat)

  predicate IsWeb(url: string) {
    "https://" <= url
  }

  /** The one service an appointment is kept on: the oldest its staff member connected. */
  function ServiceFor(services: map<nat, seq<nat>>, item: Item): Option<nat> {
    if item.startsAt.Some? && item.assignee.Some? && item.assignee.value in services
       && services[item.assignee.value] != []
    then Some(services[item.assignee.value][0]) else None
  }

  /** At most one meeting is linked, and every meeting there is, is linked as it was last made. */
  ghost predicate Accounted(t: Tables) {
    && (forall a, b :: a in t.links && b in t.links ==> a == b)
    && (forall k :: k in t.live ==> k in t.links && t.live[k] == t.links[k])
    && (forall k :: k in t.links ==> k.meeting < t.nextMeeting)
  }

  predicate LinkedOn(t: Tables, service: Option<nat>) {
    exists k :: k in t.links && service == Some(k.service)
  }

  /** The linked meeting is on the right service and was made from the appointment as it is. */
  ghost predicate UpToDate(t: Tables, item: Item, service: Option<nat>) {
    exists k :: k in t.links && service == Some(k.service) && item.startsAt.Some?
                && t.links[k] == Made(item.title, item.startsAt.value)
  }

  /** A link stands that the CRM did not make a meeting for. */
  ghost predicate Pasted(t: Tables, item: Item) {
    item.url != "" && t.links == map[]
  }

  // ---- What one push does to the join link ----

  /** The link after the meeting of another service is removed. */
  function KeptUrl(t: Tables, item: Item, service: Option<nat>): string {
    if t.links != map[] && !LinkedOn(t, service) then "" else item.url
  }

  /** Whether a push asks the service to save a meeting. */
  predicate Asks(t: Tables, item: Item, service: Option<nat>) {
    && !item.completed && service.Some? && item.startsAt.Some?
    && if LinkedOn(t, service) then forall k :: k in t.links ==> t.links[k] != Made(item.title, item.startsAt.value)
       else KeptUrl(t, item, service) == ""
  }

  /** The join link after a push, given whether the service saves what it is asked and its answer. */
  function PushedUrl(t: Tables, item: Item, service: Option<nat>, accepted: bool, joinUrl: string): string {
    if Asks(t, item, service) && accepted && IsWeb(joinUrl) then joinUrl else KeptUrl(t, item, service)
  }

  /**
   A push leaves the stored join link alone whatever the service answers, exactly when it was pasted
   with no meeting of the CRM linked, or the meeting linked is on the service wanted and is either
   left as it was, the appointment being finished, or up to date.
   */
  lemma LinkStandsExactly(t: Tables, item: Item, service: Option<nat>)
    requires Accounted(t) && item.url != "" && (service.Some? ==> item.startsAt.Some?)
    ensures (forall accepted, joinUrl :: PushedUrl(t, item, service, accepted, joinUrl) == item.url)
       <==> Pasted(t, item) || (LinkedOn(t, service) && (item.completed || UpToDate(t, item, service)))
  {
    var other := if item.url == "https://a" then "https://b" else "https://a";
    assert IsWeb(other);
    assert PushedUrl(t, item, service, false, other) == KeptUrl(t, item, service);
    if Asks(t, item, service) { assert PushedUrl(t, item, service, true, other) == other; }
  }

  /** The link to the service's meeting was kept as it is, or there was none and every link is gone. */
  ghost predicate KeptOne(t: Tables, u: Tables, service: Option<nat>, ref: Option<Key>) {
    && (LinkedOn(t, service) ==> ref.Some?)
    && if ref.Some? then u == t && ref.value in t.links && service == Some(ref.value.service) else u.links == map[]
  }

  lemma KeepingIs(t: Tables, u: Tables, item: Item, service: Option<nat>, ref: Option<Key>)
    requires KeptOne(t, u, service, ref)
    ensures KeptUrl(t, item, service) == if u.links == t.links then item.url else ""
  {}

  lemma AskingIs(t: Tables, u: Tables, item: Item, kept: Item, service: Option<nat>, ref: Option<Key>)
    requires Accounted(t) && kept == item.(url := KeptUrl(t, item, service))
    requires KeptOne(t, u, service, ref)
    requires service.Some? ==> item.startsAt.Some?
    ensures Asks(t, item, service) <==>
            && !kept.completed && service.Some?
            && if ref.Some? then u.links[ref.value] != Made(kept.title, kept.startsAt.value) else kept.url == ""
  {
    if ref.Some? { assert LinkedOn(t, service); }
  }

  // ---- The same, said of the staff member's services and the appointment ----

  /** The service is the first its staff member connected, and the appointment has a time. */
  ghost predicate KeptOn(services: map<nat, seq<nat>>, item: Item, service: nat) {
    && item.startsAt.Some? && item.assignee.Some? && item.assignee.value in services
    && services[item.assignee.value] != [] && services[item.assignee.value][0] == service
  }

  ghost predicate LinkedWhereKept(services: map<nat, seq<nat>>, t: Tables, item: Item) {
    exists k :: k in t.links && KeptOn(services, item, k.service)
  }

  /** Some meeting is linked that was made from the appointment's title and time as they are. */
  ghost predicate MadeFrom(t: Tables, item: Item) {
    exists k :: k in t.links && item.startsAt.Some? && t.links[k] == Made(item.title, item.startsAt.value)
  }

  /**
   An open appointment with a service is saved there when its meeting was made from another title
   or time, or when it has no meeting there and no link staff pasted.
   */
  ghost predicate NeedsSave(services: map<nat, seq<nat>>, t: Tables, item: Item) {
    && !item.completed && (exists service :: KeptOn(services, item, service))
    && if LinkedWhereKept(services, t, item) then !MadeFrom(t, item) else item.url == "" || t.links != map[]
  }

  /** What becomes of the stored link: the saved meeting's, nothing if its meeting was removed, or itself. */
  ghost predicate LinkIs(
    services: map<nat, seq<nat>>, t: Tables, item: Item, accepted: bool, joinUrl: string, url: string)
  {
    if NeedsSave(services, t, item) && accepted && "https://" <= joinUrl then url == joinUrl
    else if t.links != map[] && !LinkedWhereKept(services, t, item) then url == ""
    else url == item.url
  }

  lemma PushedSaid(services: map<nat, seq<nat>>, t: Tables, item: Item, accepted: bool, joinUrl: string)
    requires Accounted(t)
    ensures var service := ServiceFor(services, item);
            && (Asks(t, item, service) <==> NeedsSave(services, t, item))
            && LinkIs(services, t, item, accepted, joinUrl, PushedUrl(t, item, service, accepted, joinUrl))
  {
    var service := ServiceFor(services, item);
    forall k: nat ensures service == Some(k) <==> KeptOn(services, item, k) {}
    assert LinkedOn(t, service) <==> LinkedWhereKept(services, t, item);
  }

  /** Staff paste a link over that of a meeting on a service no longer wanted: the push clears it. */
  lemma PastedOverIsCleared(pasted: string)
    requires pasted != ""
    ensures var t := Tables(map[Key(0, 0) := Made("Call", 9)], map[Key(0, 0) := Made("Call", 9)], 1);
            var item := Item("Call", Some(9), Some(7), false, pasted);
            Accounted(t) && PushedUrl(t, item, Some(1), false, "") == ""
  {
    assert Key(0, 0) in map[Key(0, 0) := Made("Call", 9)];
  }

  /** Staff paste a link over that of the wanted meeting and change the title: the next save replaces it. */
  lemma PastedOverIsReplaced(pasted: string, joinUrl: string)
    requires pasted != "" && IsWeb(joinUrl)
    ensures var t := Tables(map[Key(0, 0) := Made("Call", 9)], map[Key(0, 0) := Made("Call", 9)], 1);
            var item := Item("Intake", Some(9), Some(7), false, pasted);
            Accounted(t) && PushedUrl(t, item, Some(0), true, joinUrl) == joinUrl
  {
    var t := Tables(map[Key(0, 0) := Made("Call", 9)], map[Key(0, 0) := Made("Call", 9)], 1);
    assert Key(0, 0) in t.links;
  }

  /** Whatever can happen to one appointment's meeting, on either side. */
  datatype Happening =
    | Edited(item: Item)
    | PushRun(accepted: bool, joinUrl: string)
    | ErasedThere(key: Key)

  class Meeting {
    // Each staff member's video services, oldest first.
    const services: map<nat, seq<nat>>
    var item: Item
    var tables: Tables
    // Requests sent to a service to save a meeting.
    var saves: nat

    ghost predicate Valid()
      reads this
    {
      Accounted(tables)
    }

    function Service(): Option<nat>
      reads this
    {
      ServiceFor(services, item)
    }

    constructor (services: map<nat, seq<nat>>, item: Item)
      ensures Valid() && this.services == services && this.item == item && saves == 0
      ensures tables == Tables(map[], map[], 0)
    {
      this.services, this.item, saves := services, item, 0;
      tables := Tables(map[], map[], 0);
    }

    /** Keep the link to the service's meeting, if there is one; remove every other meeting. */
    method KeepOne(service: Option<nat>) returns (ref: Option<Key>)
      requires Valid()
      modifies this`tables, this`item
      ensures Valid()
      ensures ref.None? ==> tables.links == map[]
      ensures ref.Some? ==>
                service == Some(ref.value.service) && tables.links.Keys == {ref.value} && tables == old(tables)
      ensures LinkedOn(old(tables), service) ==> ref.Some? && tables == old(tables)
      ensures old(tables).links == map[] ==> tables == old(tables)
      ensures item == old(item).(url := KeptUrl(old(tables), old(item), service))
    {
      ref := None;
      var refs := tables.links.Keys;
      while refs != {}
        invariant refs <= tables.links.Keys <= old(tables).links.Keys
        invariant Accounted(tables)
        invariant ref.Some? ==>
                    && ref.value in tables.links && service == Some(ref.value.service)
                    && refs == {} && tables == old(tables)
        invariant ref.None? ==> tables.links.Keys == refs
        invariant refs != {} ==> tables == old(tables)
        invariant forall k :: k in old(tables).links && service == Some(k.service) ==> k in refs || ref.Some?
        invariant tables.links == map[] || tables == old(tables)
        invariant old(tables).links == map[] ==> tables == old(tables)
        invariant item == old(item).(url := if tables.links == old(tables).links then old(item).url else "")
        decreases refs
      {
        var k :| k in refs;
        assert refs == {k};
        refs := refs - {k};
        if service == Some(k.service) && ref.None? {
          ref := Some(k);
        } else {
          tables := tables.(live := tables.live - {k});
          tables := tables.(links := tables.links - {k});
          item := item.(url := "");
        }
      }
      KeepingIs(old(tables), tables, old(item), service, ref);
    }

    /** Make, move or remove the meeting. */
    method Push(accepted: bool, joinUrl: string)
      requires Valid()
      modifies this`tables, this`item, this`saves
      ensures Valid()
      // Whatever meeting is linked is on the assignee's oldest service.
      ensures forall k :: k in tables.links ==> KeptOn(services, item, k.service)
      // A link pasted while the CRM has no meeting stands, and nothing is sent.
      ensures old(Pasted(tables, item)) ==> item == old(item) && tables == old(tables) && saves == old(saves)
      // Otherwise an accepted save leaves a meeting made from the appointment as it is.
      ensures !old(Pasted(tables, item)) && !item.completed && accepted ==>
                forall service :: KeptOn(services, item, service) ==> MadeFrom(tables, item)
      // The meeting saved is there, and it is the only one.
      ensures accepted && saves > old(saves) ==> tables.live == tables.links && |tables.links| == 1
      // With the title and time unchanged, nothing is sent and nothing changes.
      ensures old(UpToDate(tables, item, Service())) ==>
                saves == old(saves) && tables == old(tables) && item == old(item)
      // Only the join link changes: to the meeting's own, or to nothing when its meeting was removed.
      ensures item == old(item).(url := PushedUrl(old(tables), old(item), Service(), accepted, joinUrl))
      ensures saves == old(saves) + if Asks(old(tables), old(item), Service()) then 1 else 0
      ensures saves == old(saves) + if NeedsSave(services, old(tables), old(item)) then 1 else 0
      ensures LinkIs(services, old(tables), old(item), accepted, joinUrl, item.url)
    {
      PushedSaid(services, tables, item, accepted, joinUrl);
      var service := Service();
      var ref := KeepOne(service);
      assert Service() == service;
      AskingIs(old(tables), tables, old(item), item, service, ref);
      if item.completed || service.None? {
        return;
      }
      if item.url != "" && ref.None? {
        return;
      }
      var made := Made(item.title, item.startsAt.value);
      if ref.Some? && tables.links[ref.value] == made {
        return;
      }
      saves := saves + 1;
      if !accepted {
        return;
      }
      var key := SaveMeeting(service.value, ref, made);
      if IsWeb(joinUrl) && joinUrl != item.url {
        item := item.(url := joinUrl);
      }
    }

    /** The service saves the meeting, and the link follows its ID and what it was made from. */
    method SaveMeeting(service: nat, ref: Option<Key>, made: Made) returns (key: Key)
      requires Valid() && tables.links.Keys == (if ref.Some? then {ref.value} else {})
      requires ref.Some? ==> ref.value.service == service
      modifies this`tables
      ensures Valid() && key.service == service && tables.links == map[key := made] && key in tables.live
    {
      if ref.Some? && ref.value in tables.live {
        key := ref.value;
      } else {
        key := Key(service, tables.nextMeeting);
        tables := tables.(nextMeeting := tables.nextMeeting + 1);
      }
      tables := tables.(live := tables.live[key := made]);
      if ref.Some? && ref.value != key {
        tables := tables.(links := tables.links - {ref.value});
      }
      tables := tables.(links := tables.links[key := made]);
    }

    /** Staff change anything about the appointment, the join link included. */
    method Save(changed: Item)
      requires Valid()
      modifies this`item
      ensures Valid() && item == changed
    {
      item := changed;
    }

    /** Someone deletes the meeting at the service. */
    method Erase(k: Key)
      requires Valid()
      modifies this`tables
      ensures Valid() && tables == old(tables).(live := old(tables).live - {k})
    {
      tables := tables.(live := tables.live - {k});
    }

    method Happen(h: Happening)
      requires Valid()
      modifies this`tables, this`item, this`saves
      ensures Valid()
      ensures old(Pasted(tables, item)) && (h.Edited? ==> h.item.url == old(item.url)) ==>
                item.url == old(item.url) && tables == old(tables) && saves == old(saves)
      ensures old(UpToDate(tables, item, Service()))
              && (h.Edited? ==> SameMeeting(h.item, old(item))) ==>
                && SameMeeting(item, old(item)) && UpToDate(tables, item, Service())
                && tables.links == old(tables).links && saves == old(saves)
    {
      match h
      case Edited(changed) => Save(changed);
      case PushRun(accepted, joinUrl) => Push(accepted, joinUrl);
      case ErasedThere(key) => Erase(key);
    }

    /**
     Over any run: a link pasted while the CRM has no meeting is never replaced, unless staff
     change it, and nothing is sent; and once the meeting is up to date nothing is sent again
     while the title, time and staff member stay the same.
     */
    method Live(run: seq<Happening>)
      requires Valid()
      modifies this`tables, this`item, this`saves
      ensures Valid() && forall a, b :: a in tables.live && b in tables.live ==> a == b
      ensures old(Pasted(tables, item)) && (forall h :: h in run && h.Edited? ==> h.item.url == old(item.url)) ==>
                item.url == old(item.url) && tables == old(tables) && saves == old(saves)
      ensures old(UpToDate(tables, item, Service()))
              && (forall h :: h in run && h.Edited? ==> SameMeeting(h.item, old(item))) ==>
                tables.links == old(tables).links && saves == old(saves)
    {
      ghost var start, first := item, tables;
      ghost var pasted := Pasted(tables, item) && forall h :: h in run && h.Edited? ==> h.item.url == item.url;
      ghost var settled := UpToDate(tables, item, Service())
                           && forall h :: h in run && h.Edited? ==> SameMeeting(h.item, item);
      for n := 0 to |run|
        invariant Valid()
        invariant pasted ==> item.url == start.url && tables == first && saves == old(saves)
        invariant settled ==>
                    UpToDate(tables, item, Service()) && SameMeeting(item, start)
                    && tables.links == first.links && saves == old(saves)
      {
        assert run[n] in run;
        Happen(run[n]);
      }
    }
  }

  predicate SameMeeting(a: Item, b: Item) {
    a.title == b.title && a.startsAt == b.startsAt && a.assignee == b.assignee
  }
}

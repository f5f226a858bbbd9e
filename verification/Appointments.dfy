/**
 One appointment mirrored onto its staff member's calendars.

 Sends succeed: a save writes the event it names, or makes one under a new ID when the event is
 gone or none was named; a delete of an event already gone counts as done. Links are keyed by
 calendar and event. Look-ups over links and connections come in no particular order.
 */
module Appointments {
  import opened Wrappers

  datatype Shown = Shown(title: string, startsAt: int)

  datatype Key = Key(calendar: nat, event: nat)

  datatype Item = Item(title: string, startsAt: Option<int>, assignee: Option<nat>, completed: bool)

  /** Links (true for events the CRM made), queued removals, and what is on the calendars. */
  datatype Tables = Tables(
    links: map<Key, bool>,
    removals: set<Key>,
    live: map<Key, Shown>,      // events the CRM made
    foreign: map<Key, Shown>,   // everyone else's
    erased: set<Key>,           // events of the CRM that calendar users erased themselves
    nextEvent: nat)

  // ---- What the tables must say ----

  predicate IsCrm(t: Tables, k: Key) {
    k in t.links && t.links[k]
  }

  predicate IsForeign(t: Tables, k: Key) {
    k in t.links && !t.links[k]
  }

  /** The CRM's live events are exactly those linked as such or queued for removal, less those erased. */
  ghost predicate Accounted(t: Tables) {
    && (forall k :: k in t.live <==> (IsCrm(t, k) || k in t.removals) && k !in t.erased)
    && (forall k :: k in t.removals ==> k !in t.links)
    && (forall k :: IsForeign(t, k) ==> k in t.foreign)
    && (forall k :: k in t.foreign ==> !IsCrm(t, k) && k !in t.removals && k !in t.erased && k.event < t.nextEvent)
    && (forall k :: IsCrm(t, k) || k in t.removals || k in t.erased ==> k.event < t.nextEvent)
  }

  /** At most one event the CRM made on each calendar. */
  ghost predicate OneEach(t: Tables) {
    && (forall a, b :: IsCrm(t, a) && IsCrm(t, b) && a.calendar == b.calendar ==> a == b)
    && (forall a, b :: a in t.removals && b in t.removals && a.calendar == b.calendar ==> a == b)
  }

  ghost predicate HasForeign(t: Tables, c: nat) {
    exists k :: IsForeign(t, k) && k.calendar == c
  }

  predicate Shows(t: Tables, item: Item, k: Key) {
    k in t.live && item.startsAt.Some? && t.live[k] == Shown(item.title, item.startsAt.value)
  }

  /** The calendar has an event of its own for the appointment, or the CRM's shows it as it is now. */
  ghost predicate Covered(t: Tables, item: Item, c: nat) {
    HasForeign(t, c) || exists k :: IsCrm(t, k) && k.calendar == c && Shows(t, item, k)
  }

  ghost predicate InStep(t: Tables, item: Item, wanted: set<nat>) {
    && (forall c :: c in wanted ==> Covered(t, item, c))
    && (forall k :: IsCrm(t, k) ==> k.calendar in wanted)
  }

  /** On a wanted calendar that has an event of its own, any event of the CRM shows the appointment as it is. */
  ghost predicate NoStalePair(t: Tables, item: Item, wanted: set<nat>) {
    forall k :: IsCrm(t, k) && k.calendar in wanted && HasForeign(t, k.calendar) ==> Shows(t, item, k)
  }

  ghost predicate SameOn(t: Tables, u: Tables, c: nat) {
    forall k: Key :: k.calendar == c ==>
      && (k in t.links <==> k in u.links) && (k in t.links ==> t.links[k] == u.links[k])
      && (k in t.live <==> k in u.live) && (k in t.live ==> t.live[k] == u.live[k])
  }

  lemma SameStaysCovered(t: Tables, u: Tables, item: Item, c: nat)
    requires SameOn(t, u, c) && Covered(t, item, c)
    ensures Covered(u, item, c)
  {
    if HasForeign(t, c) {
      var k :| IsForeign(t, k) && k.calendar == c;
      assert IsForeign(u, k);
    } else {
      var k :| IsCrm(t, k) && k.calendar == c && Shows(t, item, k);
      assert IsCrm(u, k) && Shows(u, item, k);
    }
  }

  // ---- The provider ----

  /** Write the event named, whoever made it, or make one under a new ID; no other event changes. */
  function SaveEvent(t: Tables, calendar: nat, named: Option<Key>, shown: Shown): (Tables, Key) {
    if named.Some? && named.value in t.live then (t.(live := t.live[named.value := shown]), named.value)
    else if named.Some? && named.value in t.foreign then
      (t.(foreign := t.foreign[named.value := shown]), named.value)
    else
      var key := Key(calendar, t.nextEvent);
      (t.(live := t.live[key := shown], nextEvent := t.nextEvent + 1), key)
  }

  /** Remove an event, whoever made it. */
  function DeleteEvent(t: Tables, k: Key): Tables {
    t.(live := t.live - {k}, foreign := t.foreign - {k})
  }

  // ---- The two steps of a push ----

  /** Links and events of the CRM dropped from calendars. */
  function Pruned(t: Tables, dropped: set<Key>): Tables {
    t.(live := t.live - dropped, foreign := t.foreign - dropped, links := t.links - dropped)
  }

  lemma PruningKeeps(t: Tables, dropped: set<Key>)
    requires Accounted(t) && OneEach(t) && forall k :: k in dropped ==> IsCrm(t, k)
    ensures var u := Pruned(t, dropped);
            && Accounted(u) && OneEach(u) && u.foreign == t.foreign
            && (forall k :: IsForeign(u, k) <==> IsForeign(t, k))
            && (forall k :: IsCrm(u, k) <==> IsCrm(t, k) && k !in dropped)
  {
    var u := Pruned(t, dropped);
    assert forall k :: k in t.foreign ==> k !in dropped;
    assert forall k :: IsCrm(u, k) <==> IsCrm(t, k) && k !in dropped;
    assert forall k :: IsForeign(u, k) <==> IsForeign(t, k);
  }

  /** The event for one wanted calendar, and the link to it: what came of what was linked there. */
  function PutOn(t: Tables, item: Item, c: nat, ref: Option<Key>): Tables
    requires item.startsAt.Some?
  {
    if ref.Some? && IsForeign(t, ref.value) then t
    else
      var (u, key) := SaveEvent(t, c, ref, Shown(item.title, item.startsAt.value));
      if ref == Some(key) then u
      else u.(links := (if ref.Some? then u.links - {ref.value} else u.links)[key := true])
  }

  /** What was linked on the calendar: one of its links, whichever came last, or nothing. */
  ghost predicate LinkOn(t: Tables, c: nat, ref: Option<Key>) {
    match ref
    case Some(k) => k in t.links && k.calendar == c
    case None => forall k :: k in t.links ==> k.calendar != c
  }

  /** The links and events after putting the appointment on a calendar, key by key. */
  lemma PutOnChanges(t: Tables, item: Item, c: nat, ref: Option<Key>)
    requires Accounted(t) && item.startsAt.Some? && LinkOn(t, c, ref) && !(ref.Some? && IsForeign(t, ref.value))
    ensures var u := PutOn(t, item, c, ref);
            var key := if ref.Some? && ref.value in t.live then ref.value else Key(c, t.nextEvent);
            && (forall x :: IsCrm(u, x) <==> x == key || (IsCrm(t, x) && ref != Some(x)))
            && (forall x :: IsForeign(u, x) <==> IsForeign(t, x))
            && (forall x :: x in u.live <==> x == key || x in t.live)
            && Shows(u, item, key) && u.nextEvent >= t.nextEvent && key.event < u.nextEvent
            && u.removals == t.removals && u.foreign == t.foreign && u.erased == t.erased
  {}

  lemma PuttingOnKeeps(t: Tables, item: Item, c: nat, ref: Option<Key>)
    requires Accounted(t) && t.removals == {} && item.startsAt.Some? && LinkOn(t, c, ref)
    ensures var u := PutOn(t, item, c, ref);
            Accounted(u) && u.removals == {} && u.foreign == t.foreign
  {
    if !(ref.Some? && IsForeign(t, ref.value)) { PutOnChanges(t, item, c, ref); }
  }

  lemma PuttingOnKeepsOneEach(t: Tables, item: Item, c: nat, ref: Option<Key>)
    requires Accounted(t) && OneEach(t) && item.startsAt.Some? && LinkOn(t, c, ref)
    ensures OneEach(PutOn(t, item, c, ref))
  {
    if !(ref.Some? && IsForeign(t, ref.value)) {
      PutOnChanges(t, item, c, ref);
      forall x | IsCrm(t, x) && x.calendar == c ensures ref == Some(x) {}
    }
  }

  lemma PuttingOnCovers(t: Tables, item: Item, c: nat, ref: Option<Key>)
    requires Accounted(t) && item.startsAt.Some? && LinkOn(t, c, ref)
    ensures Covered(PutOn(t, item, c, ref), item, c)
  {
    var u := PutOn(t, item, c, ref);
    if ref.Some? && IsForeign(t, ref.value) {
      assert HasForeign(u, c);
    } else {
      var key := SaveEvent(t, c, ref, Shown(item.title, item.startsAt.value)).1;
      assert IsCrm(u, key) && Shows(u, item, key);
    }
  }

  /** Other calendars keep their events and links, and nobody else's links change anywhere. */
  lemma PuttingOnLeavesOthers(t: Tables, item: Item, c: nat, ref: Option<Key>)
    requires Accounted(t) && item.startsAt.Some? && LinkOn(t, c, ref)
    ensures var u := PutOn(t, item, c, ref);
            && (forall d :: d != c ==> SameOn(t, u, d))
            && (forall k :: IsCrm(u, k) ==> IsCrm(t, k) || k.calendar == c)
            && (forall k :: IsForeign(u, k) <==> IsForeign(t, k))
  {
    if !(ref.Some? && IsForeign(t, ref.value)) { PutOnChanges(t, item, c, ref); }
  }

  lemma PuttingOnKeepsNoStalePair(t: Tables, item: Item, wanted: set<nat>, c: nat, ref: Option<Key>)
    requires Accounted(t) && NoStalePair(t, item, wanted) && item.startsAt.Some? && LinkOn(t, c, ref)
    ensures NoStalePair(PutOn(t, item, c, ref), item, wanted)
  {
    var u := PutOn(t, item, c, ref);
    if !(ref.Some? && IsForeign(t, ref.value)) {
      PutOnChanges(t, item, c, ref);
      forall k | IsCrm(u, k) && k.calendar in wanted && HasForeign(u, k.calendar) ensures Shows(u, item, k) {
        var f :| IsForeign(u, f) && f.calendar == k.calendar;
        assert IsForeign(t, f) && HasForeign(t, k.calendar);
      }
    }
  }

  /** On a calendar already covered, with no stale event beside its own, putting it on again changes nothing. */
  lemma PuttingOnAgain(t: Tables, item: Item, wanted: set<nat>, c: nat, ref: Option<Key>)
    requires OneEach(t) && InStep(t, item, wanted) && NoStalePair(t, item, wanted) && item.startsAt.Some?
    requires c in wanted && LinkOn(t, c, ref)
    ensures PutOn(t, item, c, ref) == t
  {
    if HasForeign(t, c) {
      var f :| IsForeign(t, f) && f.calendar == c;
      assert ref.Some?;
      if IsCrm(t, ref.value) {
        assert Shows(t, item, ref.value);
        assert t.live[ref.value := t.live[ref.value]] == t.live;
      }
    } else {
      var k :| IsCrm(t, k) && k.calendar == c && Shows(t, item, k);
      assert ref.Some?;
      assert IsCrm(t, ref.value);
      assert t.live[k := t.live[k]] == t.live;
    }
  }

  function Linked(linked: map<nat, Key>, c: nat): Option<Key> {
    if c in linked then Some(linked[c]) else None
  }

  /** Part way through the wanted calendars: those done are covered, those left are as they were. */
  ghost predicate PartWay(
    t: Tables, u: Tables, item: Item, wanted: set<nat>, rest: set<nat>, linked: map<nat, Key>)
  {
    && Accounted(u) && OneEach(u) && u.removals == {} && u.foreign == t.foreign
    && (forall c :: c in wanted && c !in rest ==> Covered(u, item, c))
    && (forall c :: c in rest ==> LinkOn(u, c, Linked(linked, c)))
    && (forall k :: IsCrm(u, k) ==> k.calendar in wanted)
    && (forall k :: IsForeign(u, k) <==> IsForeign(t, k))
    && (NoStalePair(t, item, wanted) ==> NoStalePair(u, item, wanted))
    && (InStep(t, item, wanted) && NoStalePair(t, item, wanted) ==> u == t)
  }

  lemma OneCalendarMore(
    t: Tables, u: Tables, item: Item, wanted: set<nat>, rest: set<nat>, linked: map<nat, Key>, c: nat)
    requires PartWay(t, u, item, wanted, rest, linked) && rest <= wanted && c in rest && item.startsAt.Some?
    ensures PartWay(t, PutOn(u, item, c, Linked(linked, c)), item, wanted, rest - {c}, linked)
  {
    var ref := Linked(linked, c);
    var v := PutOn(u, item, c, ref);
    PuttingOnKeeps(u, item, c, ref);
    PuttingOnKeepsOneEach(u, item, c, ref);
    PuttingOnCovers(u, item, c, ref);
    PuttingOnLeavesOthers(u, item, c, ref);
    forall d | d in wanted && d !in rest - {c} ensures Covered(v, item, d) {
      if d != c { SameStaysCovered(u, v, item, d); }
    }
    forall d | d in rest - {c} ensures LinkOn(v, d, Linked(linked, d)) {
      SameStaysLinked(u, v, d, Linked(linked, d));
    }
    if NoStalePair(t, item, wanted) {
      PuttingOnKeepsNoStalePair(u, item, wanted, c, ref);
      if InStep(t, item, wanted) { PuttingOnAgain(u, item, wanted, c, ref); }
    }
  }

  /** The CRM's links on calendars that are not wanted. */
  function Unwanted(t: Tables, wanted: set<nat>): set<Key> {
    set k | k in t.links && t.links[k] && k.calendar !in wanted
  }

  /** Of the links looked at, each wanted calendar's is remembered, whichever came last. */
  ghost predicate LinkedSoFar(t: Tables, wanted: set<nat>, refs: set<Key>, linked: map<nat, Key>) {
    && (forall c :: c in linked ==> linked[c] in t.links && linked[c].calendar == c && c in wanted)
    && (forall k :: k in t.links && k !in refs && k.calendar in wanted ==> k.calendar in linked)
  }

  lemma LinkedStays(t: Tables, wanted: set<nat>, linked: map<nat, Key>, c: nat)
    requires LinkedSoFar(t, wanted, {}, linked) && c in wanted
    ensures LinkOn(Pruned(t, Unwanted(t, wanted)), c, Linked(linked, c))
  {
    if c in linked { assert linked[c] !in Unwanted(t, wanted); }
  }

  /** Looking at one more link: it is still there, and goes if it is the CRM's and not wanted. */
  lemma LookedAt(t: Tables, wanted: set<nat>, refs: set<Key>, k: Key)
    requires k in refs && refs <= t.links.Keys
    ensures var p := Pruned(t, Unwanted(t, wanted) - refs);
            && k in p.links && p.links[k] == t.links[k]
            && Pruned(t, Unwanted(t, wanted) - (refs - {k}))
               == if k in Unwanted(t, wanted) then DeleteEvent(p, k).(links := p.links - {k}) else p
  {
    var more, dropped := Unwanted(t, wanted) - (refs - {k}), Unwanted(t, wanted) - refs;
    if k in Unwanted(t, wanted) {
      assert more == dropped + {k};
      assert t.live - dropped - {k} == t.live - more;
      assert t.foreign - dropped - {k} == t.foreign - more;
      assert t.links - dropped - {k} == t.links - more;
    } else {
      assert more == dropped;
    }
  }

  /**
   What a push does: no calendar that is not wanted keeps an event of the CRM, nobody else's event
   or link is touched, and an open appointment is shown as it is now. A finished one stays on its
   calendars as it was. Pushing an open appointment that is in step changes nothing.
   */
  ghost predicate Pushes(t: Tables, u: Tables, item: Item, wanted: set<nat>) {
    && (forall k :: IsCrm(u, k) ==> k.calendar in wanted)
    && u.foreign == t.foreign && (forall k :: IsForeign(u, k) <==> IsForeign(t, k))
    && (!item.completed ==> InStep(u, item, wanted))
    && (NoStalePair(t, item, wanted) ==> NoStalePair(u, item, wanted))
    && (item.completed ==> u == Pruned(t, Unwanted(t, wanted)) && forall c :: c in wanted ==> SameOn(t, u, c))
    && (InStep(t, item, wanted) && NoStalePair(t, item, wanted) ==> u == t)
  }

  lemma NothingUnwanted(t: Tables, item: Item, wanted: set<nat>)
    requires InStep(t, item, wanted)
    ensures Pruned(t, Unwanted(t, wanted)) == t
  {
    assert forall k :: k in Unwanted(t, wanted) ==> IsCrm(t, k);
    assert Unwanted(t, wanted) == {};
    assert t.live - {} == t.live && t.links - {} == t.links && t.foreign - {} == t.foreign;
  }

  /** Taking the event off unwanted calendars leaves the wanted ones as they were. */
  lemma PruningUnwanted(t: Tables, wanted: set<nat>)
    requires Accounted(t) && OneEach(t)
    ensures var p := Pruned(t, Unwanted(t, wanted));
            && Accounted(p) && OneEach(p) && p.foreign == t.foreign
            && (forall k :: IsCrm(p, k) <==> IsCrm(t, k) && k.calendar in wanted)
            && (forall k :: IsForeign(p, k) <==> IsForeign(t, k))
  {
    assert forall k :: k in Unwanted(t, wanted) <==> IsCrm(t, k) && k.calendar !in wanted;
    PruningKeeps(t, Unwanted(t, wanted));
  }

  lemma PruningKeepsNoStalePair(t: Tables, item: Item, wanted: set<nat>)
    requires Accounted(t) && OneEach(t)
    ensures NoStalePair(t, item, wanted) <==> NoStalePair(Pruned(t, Unwanted(t, wanted)), item, wanted)
  {
    var p := Pruned(t, Unwanted(t, wanted));
    PruningUnwanted(t, wanted);
    forall c ensures HasForeign(t, c) <==> HasForeign(p, c) {
      if f :| IsForeign(t, f) && f.calendar == c { assert IsForeign(p, f); }
      if f :| IsForeign(p, f) && f.calendar == c { assert IsForeign(t, f); }
    }
    assert forall k: Key :: k.calendar in wanted ==> (Shows(t, item, k) <==> Shows(p, item, k));
  }

  lemma FinishedIsPushed(t: Tables, item: Item, wanted: set<nat>)
    requires Accounted(t) && OneEach(t) && item.completed
    ensures Pushes(t, Pruned(t, Unwanted(t, wanted)), item, wanted)
  {
    PruningUnwanted(t, wanted);
    PruningKeepsNoStalePair(t, item, wanted);
    if InStep(t, item, wanted) { NothingUnwanted(t, item, wanted); }
    forall c | c in wanted ensures SameOn(t, Pruned(t, Unwanted(t, wanted)), c) {}
  }

  /** Both steps of a push together. */
  lemma PushIsDone(t: Tables, u: Tables, item: Item, wanted: set<nat>, linked: map<nat, Key>)
    requires Accounted(t) && OneEach(t) && !item.completed
    requires PartWay(Pruned(t, Unwanted(t, wanted)), u, item, wanted, {}, linked)
    ensures Pushes(t, u, item, wanted) && InStep(u, item, wanted)
    ensures Accounted(u) && OneEach(u) && u.removals == {}
  {
    PruningUnwanted(t, wanted);
    PruningKeepsNoStalePair(t, item, wanted);
    if InStep(t, item, wanted) { NothingUnwanted(t, item, wanted); }
  }

  lemma BeforePuttingOn(t: Tables, item: Item, wanted: set<nat>, linked: map<nat, Key>)
    requires Accounted(t) && OneEach(t) && t.removals == {}
    requires Chooses(Pruned(t, Unwanted(t, wanted)), wanted, linked)
    ensures var p := Pruned(t, Unwanted(t, wanted)); PartWay(p, p, item, wanted, wanted, linked)
  {
    PruningUnwanted(t, wanted);
  }

  // ---- Every push there may be, and when a second one changes nothing ----

  /** A link for each wanted calendar that has one; which, when it has more, is left open. */
  ghost predicate Chooses(t: Tables, wanted: set<nat>, linked: map<nat, Key>) {
    forall c :: c in wanted ==> LinkOn(t, c, Linked(linked, c))
  }

  /** What putting the appointment on some calendars, in some order, can come to. */
  ghost predicate PutsOn(t: Tables, u: Tables, item: Item, rest: set<nat>, linked: map<nat, Key>)
    requires rest != {} ==> item.startsAt.Some?
    decreases rest
  {
    if rest == {} then u == t
    else exists c :: c in rest && PutsOn(PutOn(t, item, c, Linked(linked, c)), u, item, rest - {c}, linked)
  }

  ghost predicate MayPush(t: Tables, u: Tables, item: Item, wanted: set<nat>)
    requires wanted != {} ==> item.startsAt.Some?
  {
    var p := Pruned(t, Unwanted(t, wanted));
    if item.completed then u == p
    else exists linked :: Chooses(p, wanted, linked) && PutsOn(p, u, item, wanted, linked)
  }

  lemma OpenPushMay(t: Tables, u: Tables, item: Item, wanted: set<nat>, linked: map<nat, Key>)
    requires !item.completed && (wanted != {} ==> item.startsAt.Some?)
    requires var p := Pruned(t, Unwanted(t, wanted));
             Chooses(p, wanted, linked) && PutsOn(p, u, item, wanted, linked)
    ensures MayPush(t, u, item, wanted)
  {}

  lemma {:induction false} PutsOnArrives(
    t: Tables, u: Tables, v: Tables, item: Item, wanted: set<nat>, rest: set<nat>, linked: map<nat, Key>)
    requires rest <= wanted && (wanted != {} ==> item.startsAt.Some?)
    requires PartWay(t, u, item, wanted, rest, linked) && PutsOn(u, v, item, rest, linked)
    ensures PartWay(t, v, item, wanted, {}, linked)
    decreases rest
  {
    if rest != {} {
      var c :| c in rest && PutsOn(PutOn(u, item, c, Linked(linked, c)), v, item, rest - {c}, linked);
      OneCalendarMore(t, u, item, wanted, rest, linked, c);
      PutsOnArrives(t, PutOn(u, item, c, Linked(linked, c)), v, item, wanted, rest - {c}, linked);
    }
  }

  /** Whichever links are looked at and in whatever order, a push does what a push promises. */
  lemma EveryPushPushes(t: Tables, u: Tables, item: Item, wanted: set<nat>)
    requires Accounted(t) && OneEach(t) && t.removals == {} && (wanted != {} ==> item.startsAt.Some?)
    requires MayPush(t, u, item, wanted)
    ensures Pushes(t, u, item, wanted) && Accounted(u) && OneEach(u) && u.removals == {}
  {
    if item.completed {
      FinishedIsPushed(t, item, wanted);
      PruningUnwanted(t, wanted);
    } else {
      var p := Pruned(t, Unwanted(t, wanted));
      var linked :| Chooses(p, wanted, linked) && PutsOn(p, u, item, wanted, linked);
      BeforePuttingOn(t, item, wanted, linked);
      PutsOnArrives(p, p, u, item, wanted, wanted, linked);
      PushIsDone(t, u, item, wanted, linked);
    }
  }

  predicate Assigned(owners: map<nat, nat>, item: Item, c: nat) {
    item.startsAt.Some? && item.assignee.Some? && c in owners && owners[c] == item.assignee.value
  }

  /**
   What a push promises, said of who connected the calendars and of the appointment. Only its staff
   member's calendars have the CRM's event, and none before it has a time and a staff member. Each
   of those has an event of its own or shows an open appointment; a finished one is left as it was.
   */
  ghost predicate Mirrored(owners: map<nat, nat>, item: Item, t: Tables, u: Tables) {
    && (forall k :: k in u.links && u.links[k] ==> Assigned(owners, item, k.calendar))
    && (forall k :: k in u.live ==> k in u.links && u.links[k])
    && u.foreign == t.foreign
    && (forall k :: k in u.links && !u.links[k] <==> k in t.links && !t.links[k])
    && (item.completed ==> forall k: Key :: Assigned(owners, item, k.calendar) ==>
          && (k in u.links <==> k in t.links) && (k in u.links ==> u.links[k] == t.links[k])
          && (k in u.live <==> k in t.live) && (k in u.live ==> u.live[k] == t.live[k]))
    && (!item.completed ==> forall c :: Assigned(owners, item, c) ==>
          exists k :: k in u.links && k.calendar == c
                      && (u.links[k] ==> k in u.live && u.live[k] == Shown(item.title, item.startsAt.value)))
  }

  lemma PushMirrors(owners: map<nat, nat>, item: Item, t: Tables, u: Tables, wanted: set<nat>)
    requires forall c :: c in wanted <==> Assigned(owners, item, c)
    requires Pushes(t, u, item, wanted) && Accounted(u) && u.removals == {}
    ensures Mirrored(owners, item, t, u)
  {
    forall k | k in u.links && u.links[k] ensures k.calendar in wanted { assert IsCrm(u, k); }
    forall k | k in u.live ensures k in u.links && u.links[k] { assert IsCrm(u, k); }
    forall k ensures k in u.links && !u.links[k] <==> k in t.links && !t.links[k] {
      assert IsForeign(u, k) <==> IsForeign(t, k);
    }
    if item.completed {
      forall k: Key | Assigned(owners, item, k.calendar)
        ensures (k in u.links <==> k in t.links) && (k in u.links ==> u.links[k] == t.links[k])
        ensures (k in u.live <==> k in t.live) && (k in u.live ==> u.live[k] == t.live[k])
      {
        assert SameOn(t, u, k.calendar);
      }
    } else {
      forall c | Assigned(owners, item, c)
        ensures exists k :: k in u.links && k.calendar == c
                            && (u.links[k] ==> k in u.live && u.live[k] == Shown(item.title, item.startsAt.value))
      {
        CoveredCalendarIsLinked(u, item, c);
      }
    }
  }

  lemma CoveredCalendarIsLinked(u: Tables, item: Item, c: nat)
    requires Covered(u, item, c) && item.startsAt.Some?
    ensures exists k :: k in u.links && k.calendar == c
                        && (u.links[k] ==> k in u.live && u.live[k] == Shown(item.title, item.startsAt.value))
  {
    if HasForeign(u, c) {
      var k :| IsForeign(u, k) && k.calendar == c;
      assert k in u.links;
    } else {
      var k :| IsCrm(u, k) && k.calendar == c && Shows(u, item, k);
      assert k in u.links;
    }
  }

  lemma PushedTwiceIsIdle(t: Tables, u: Tables, v: Tables, item: Item, wanted: set<nat>)
    requires item.completed || NoStalePair(t, item, wanted)
    requires Pushes(t, u, item, wanted) && Pushes(u, v, item, wanted)
    ensures v == u
  {
    if item.completed {
      assert forall k :: k in Unwanted(u, wanted) ==> IsCrm(u, k);
      assert Unwanted(u, wanted) == {};
      assert u.live - {} == u.live && u.links - {} == u.links && u.foreign - {} == u.foreign;
    }
  }

  lemma SecondPushIsIdle(t: Tables, u: Tables, v: Tables, item: Item, wanted: set<nat>)
    requires Accounted(t) && OneEach(t) && t.removals == {} && (wanted != {} ==> item.startsAt.Some?)
    requires item.completed || NoStalePair(t, item, wanted)
    requires MayPush(t, u, item, wanted) && MayPush(u, v, item, wanted)
    ensures v == u
  {
    EveryPushPushes(t, u, item, wanted);
    EveryPushPushes(u, v, item, wanted);
    PushedTwiceIsIdle(t, u, v, item, wanted);
  }

  lemma {:induction false} SomePutsOn(t: Tables, item: Item, rest: set<nat>, linked: map<nat, Key>) returns (u: Tables)
    requires rest != {} ==> item.startsAt.Some?
    ensures PutsOn(t, u, item, rest, linked)
    decreases rest
  {
    if rest == {} {
      u := t;
    } else {
      var c :| c in rest;
      u := SomePutsOn(PutOn(t, item, c, Linked(linked, c)), item, rest - {c}, linked);
    }
  }

  /** A choice of links that looks at a given one. */
  lemma SomeChoice(t: Tables, wanted: set<nat>, k: Key) returns (linked: map<nat, Key>)
    requires k in t.links && k.calendar in wanted
    ensures Chooses(t, wanted, linked) && Linked(linked, k.calendar) == Some(k)
  {
    linked := map c | c in wanted && LinkFor(t, c).Some? :: LinkFor(t, c).value;
    linked := linked[k.calendar := k];
  }

  ghost function LinkFor(t: Tables, c: nat): (ref: Option<Key>)
    ensures LinkOn(t, c, ref)
  {
    if exists k :: k in t.links && k.calendar == c then var k :| k in t.links && k.calendar == c; Some(k) else None
  }

  /** A calendar not put on, or whose own event is looked at, stays as it was. */
  lemma {:induction false} PutsOnLeaves(
    t: Tables, u: Tables, item: Item, rest: set<nat>, linked: map<nat, Key>, c: nat)
    requires Accounted(t) && t.removals == {} && (rest != {} ==> item.startsAt.Some?)
    requires Chooses(t, rest, linked) && PutsOn(t, u, item, rest, linked)
    requires c in rest ==> Linked(linked, c).Some? && IsForeign(t, Linked(linked, c).value)
    ensures SameOn(t, u, c)
    decreases rest
  {
    if rest != {} {
      var d :| d in rest && PutsOn(PutOn(t, item, d, Linked(linked, d)), u, item, rest - {d}, linked);
      var next := PutOn(t, item, d, Linked(linked, d));
      NextPutsOn(t, item, rest, linked, d);
      PutsOnLeaves(next, u, item, rest - {d}, linked, c);
      assert SameOn(t, next, c);
    }
  }

  lemma NextPutsOn(t: Tables, item: Item, rest: set<nat>, linked: map<nat, Key>, d: nat)
    requires Accounted(t) && t.removals == {} && item.startsAt.Some? && Chooses(t, rest, linked) && d in rest
    ensures var next := PutOn(t, item, d, Linked(linked, d));
            && Accounted(next) && next.removals == {} && Chooses(next, rest - {d}, linked)
            && (forall c :: c != d ==> SameOn(t, next, c)) && (forall k :: IsForeign(next, k) <==> IsForeign(t, k))
  {
    PuttingOnKeeps(t, item, d, Linked(linked, d));
    PuttingOnLeavesOthers(t, item, d, Linked(linked, d));
    forall c | c in rest - {d} ensures LinkOn(PutOn(t, item, d, Linked(linked, d)), c, Linked(linked, c)) {
      SameStaysLinked(t, PutOn(t, item, d, Linked(linked, d)), c, Linked(linked, c));
    }
  }

  /** A calendar whose event of the CRM is looked at shows the appointment afterwards. */
  lemma {:induction false} PutsOnShows(
    t: Tables, u: Tables, item: Item, rest: set<nat>, linked: map<nat, Key>, k: Key)
    requires Accounted(t) && t.removals == {} && item.startsAt.Some?
    requires Chooses(t, rest, linked) && PutsOn(t, u, item, rest, linked)
    requires k.calendar in rest && Linked(linked, k.calendar) == Some(k) && IsCrm(t, k)
    ensures exists x :: IsCrm(u, x) && x.calendar == k.calendar && Shows(u, item, x)
    decreases rest
  {
    var d :| d in rest && PutsOn(PutOn(t, item, d, Linked(linked, d)), u, item, rest - {d}, linked);
    var next := PutOn(t, item, d, Linked(linked, d));
    NextPutsOn(t, item, rest, linked, d);
    if d != k.calendar {
      PutsOnShows(next, u, item, rest - {d}, linked, k);
    } else {
      PutOnChanges(t, item, d, Some(k));
      var x := if k in t.live then k else Key(d, t.nextEvent);
      assert IsCrm(next, x) && Shows(next, item, x);
      PutsOnLeaves(next, u, item, rest - {d}, linked, d);
      assert IsCrm(u, x) && Shows(u, item, x);
    }
  }

  /** Beside a stale event, a first push may look at the calendar's own and a second at the CRM's. */
  lemma StalePairChanges(t: Tables, item: Item, wanted: set<nat>, k: Key, f: Key) returns (u: Tables, v: Tables)
    requires Accounted(t) && OneEach(t) && t.removals == {} && item.startsAt.Some? && !item.completed
    requires IsCrm(t, k) && IsForeign(t, f) && k.calendar == f.calendar && k.calendar in wanted && !Shows(t, item, k)
    ensures MayPush(t, u, item, wanted) && MayPush(u, v, item, wanted) && v != u
  {
    var p, c := Pruned(t, Unwanted(t, wanted)), k.calendar;
    PruningUnwanted(t, wanted);
    var first := SomeChoice(p, wanted, f);
    u := SomePutsOn(p, item, wanted, first);
    EveryPushPushes(t, u, item, wanted);
    PutsOnLeaves(p, u, item, wanted, first, c);
    assert IsCrm(u, k) && !Shows(u, item, k);
    var q := Pruned(u, Unwanted(u, wanted));
    PruningUnwanted(u, wanted);
    var second := SomeChoice(q, wanted, k);
    v := SomePutsOn(q, item, wanted, second);
    EveryPushPushes(u, v, item, wanted);
    PutsOnShows(q, v, item, wanted, second, k);
  }

  /**
   A second push of the same appointment never changes anything exactly when it is finished, or no
   wanted calendar has, beside an event of its own, one of the CRM's that does not show it as it is.
   */
  lemma SecondPushIsIdleExactly(t: Tables, item: Item, wanted: set<nat>)
    requires Accounted(t) && OneEach(t) && t.removals == {} && (wanted != {} ==> item.startsAt.Some?)
    ensures (forall u, v :: MayPush(t, u, item, wanted) && MayPush(u, v, item, wanted) ==> v == u)
       <==> item.completed || NoStalePair(t, item, wanted)
  {
    if item.completed || NoStalePair(t, item, wanted) {
      forall u, v | MayPush(t, u, item, wanted) && MayPush(u, v, item, wanted) ensures v == u {
        SecondPushIsIdle(t, u, v, item, wanted);
      }
    } else {
      var k :| IsCrm(t, k) && k.calendar in wanted && HasForeign(t, k.calendar) && !Shows(t, item, k);
      var f :| IsForeign(t, f) && f.calendar == k.calendar;
      var u, v := StalePairChanges(t, item, wanted, k, f);
    }
  }

  /** Such a calendar: the CRM's event was saved under an old title, and then the calendar's own came in. */
  lemma MixedCalendarExample()
    ensures var crm, own := Key(0, 0), Key(0, 1);
            var t := Tables(map[crm := true, own := false], {}, map[crm := Shown("Call", 9)],
                            map[own := Shown("Intake", 9)], {}, 2);
            var item := Item("Intake", Some(9), Some(7), false);
            && Accounted(t) && OneEach(t)
            && exists u, v :: MayPush(t, u, item, {0}) && MayPush(u, v, item, {0}) && v != u
  {
    var crm, own := Key(0, 0), Key(0, 1);
    var t := Tables(map[crm := true, own := false], {}, map[crm := Shown("Call", 9)],
                    map[own := Shown("Intake", 9)], {}, 2);
    var u, v := StalePairChanges(t, Item("Intake", Some(9), Some(7), false), {0}, crm, own);
  }

  /** Whether or not the appointment is still there, each calendar has at most one event of the CRM. */
  lemma OneLiveEach(t: Tables)
    requires Accounted(t) && OneEach(t) && (t.removals == {} || t.links == map[])
    ensures forall a, b :: a in t.live && b in t.live && a.calendar == b.calendar ==> a == b
  {
    forall a, b | a in t.live && b in t.live && a.calendar == b.calendar ensures a == b {
      assert IsCrm(t, a) || a in t.removals;
      assert IsCrm(t, b) || b in t.removals;
    }
  }

  /** Whatever can happen to one appointment, on either side. */
  datatype Happening =
    | Edited(item: Item)
    | Deleted
    | PushRun
    | RemovalRun(key: Key)
    | CameIn(key: Key, shown: Shown, assignee: Option<nat>)
    | ErasedThere(key: Key)

  class Mirror {
    // The calendars that take appointments, with the staff member who connected each.
    const owners: map<nat, nat>
    var present: bool
    var item: Item
    var tables: Tables
    var pushes: nat
    // Whether a calendar changed anything since the last push; such changes are not sent back.
    ghost var outside: bool

    function Wanted(): set<nat>
      reads this
    {
      if present && item.startsAt.Some? && item.assignee.Some?
      then set c | c in owners && owners[c] == item.assignee.value
      else {}
    }

    predicate Owns(member: Option<nat>) {
      member.Some? && exists c :: c in owners && owners[c] == member.value
    }

    ghost predicate Valid()
      reads this
    {
      && Accounted(tables) && OneEach(tables)
      && (if present then tables.removals == {} else tables.links == map[])
      && (present && !item.completed && pushes == 0 && !outside ==> InStep(tables, item, Wanted()))
    }

    constructor (owners: map<nat, nat>, item: Item)
      ensures Valid() && this.owners == owners && this.item == item && present && pushes == 1
      ensures tables == Tables(map[], {}, map[], map[], {}, 0)
    {
      this.owners, present, this.item, pushes := owners, true, item, 1;
      tables := Tables(map[], {}, map[], map[], {}, 0);
      outside := false;
    }

    // ---- The worker ----

    /** Put the appointment on its staff member's calendars, or take it off the others. */
    method Push()
      requires Valid()
      modifies this`tables, this`pushes, this`outside
      ensures Valid() && pushes == (if old(pushes) > 0 then old(pushes) - 1 else 0)
      ensures present ==> Pushes(old(tables), tables, item, Wanted()) && MayPush(old(tables), tables, item, Wanted())
      ensures present ==> Mirrored(owners, item, old(tables), tables)
      ensures !present ==> tables == old(tables)
    {
      pushes := if pushes > 0 then pushes - 1 else 0;
      if !present {
        return;
      }
      PushTo(Wanted());
      PushMirrors(owners, item, old(tables), tables, Wanted());
      outside := outside && item.completed;
    }

    method PushTo(wanted: set<nat>)
      requires Accounted(tables) && OneEach(tables) && tables.removals == {}
      requires wanted != {} ==> item.startsAt.Some?
      modifies this`tables
      ensures Accounted(tables) && OneEach(tables) && tables.removals == {}
      ensures Pushes(old(tables), tables, item, wanted) && MayPush(old(tables), tables, item, wanted)
    {
      var linked := RemoveUnwanted(wanted);
      if item.completed {
        FinishedIsPushed(old(tables), item, wanted);
        return;
      }
      BeforePuttingOn(old(tables), item, wanted, linked);
      PutOnWanted(wanted, linked);
      PushIsDone(old(tables), tables, item, wanted, linked);
      OpenPushMay(old(tables), tables, item, wanted, linked);
    }

    /** Take the event off each calendar that is not wanted; say which link each wanted one has. */
    method RemoveUnwanted(wanted: set<nat>) returns (linked: map<nat, Key>)
      requires Accounted(tables) && OneEach(tables)
      modifies this`tables
      ensures tables == Pruned(old(tables), Unwanted(old(tables), wanted))
      ensures Accounted(tables) && OneEach(tables)
      ensures Chooses(tables, wanted, linked)
    {
      linked := map[];
      var refs := tables.links.Keys;
      ghost var t := tables;
      assert Unwanted(t, wanted) - refs == {};
      assert t.live - {} == t.live && t.links - {} == t.links && t.foreign - {} == t.foreign;
      while refs != {}
        invariant refs <= t.links.Keys
        invariant tables == Pruned(t, Unwanted(t, wanted) - refs)
        invariant LinkedSoFar(t, wanted, refs, linked)
        decreases refs
      {
        var k :| k in refs;
        LookedAt(t, wanted, refs, k);
        refs := refs - {k};
        if k.calendar in wanted {
          linked := linked[k.calendar := k];
        } else if tables.links[k] {
          tables := DeleteEvent(tables, k);
          tables := tables.(links := tables.links - {k});
        }
      }
      assert Unwanted(t, wanted) - refs == Unwanted(t, wanted);
      PruningUnwanted(t, wanted);
      forall c | c in wanted ensures LinkOn(tables, c, Linked(linked, c)) {
        LinkedStays(t, wanted, linked, c);
      }
    }

    /** Save the event on each wanted calendar that has none of its own. */
    method PutOnWanted(wanted: set<nat>, linked: map<nat, Key>)
      requires wanted != {} ==> item.startsAt.Some?
      requires PartWay(tables, tables, item, wanted, wanted, linked)
      modifies this`tables
      ensures PartWay(old(tables), tables, item, wanted, {}, linked)
      ensures PutsOn(old(tables), tables, item, wanted, linked)
    {
      var rest := wanted;
      while rest != {}
        invariant rest <= wanted
        invariant forall u :: PutsOn(tables, u, item, rest, linked) ==> PutsOn(old(tables), u, item, wanted, linked)
        invariant PartWay(old(tables), tables, item, wanted, rest, linked)
        decreases rest
      {
        var c :| c in rest;
        OneCalendarMore(old(tables), tables, item, wanted, rest, linked, c);
        PutOnOne(c, Linked(linked, c));
        rest := rest - {c};
      }
    }

    method PutOnOne(c: nat, ref: Option<Key>)
      requires item.startsAt.Some? && LinkOn(tables, c, ref)
      modifies this`tables
      ensures tables == PutOn(old(tables), item, c, ref)
    {
      if ref.Some? && !tables.links[ref.value] {
        // The appointment came from this calendar, which already has it.
        return;
      }
      var (saved, key) := SaveEvent(tables, c, ref, Shown(item.title, item.startsAt.value));
      tables := saved;
      if ref.None? || ref.value != key {
        if ref.Some? {
          tables := tables.(links := tables.links - {ref.value});
        }
        tables := tables.(links := tables.links[key := true]);
      }
    }

    /** A queued removal: the event goes if it is still there. */
    method RunRemoval(k: Key)
      requires Valid() && k in tables.removals
      modifies this`tables
      ensures Valid()
      ensures tables == DeleteEvent(old(tables), k).(removals := old(tables).removals - {k})
      ensures !present && tables.removals == {} ==> tables.live == map[]
    {
      RemovingKeeps(tables, k);
      tables := DeleteEvent(tables, k);
      tables := tables.(removals := tables.removals - {k});
    }

    // ---- Staff ----

    /** Any edit by staff; a push is queued if the appointment is or should be on a calendar. */
    method Save(changed: Item)
      requires Valid() && present
      modifies this`item, this`pushes
      ensures Valid() && item == changed
      ensures pushes == old(pushes) + if tables.links != map[] || Owns(changed.assignee) then 1 else 0
    {
      item := changed;
      if (changed.assignee.Some? && exists c | c in owners :: owners[c] == changed.assignee.value)
         || tables.links.Keys != {} {
        pushes := pushes + 1;
      } else {
        assert Wanted() == {};
        assert forall k :: !IsCrm(tables, k);
      }
    }

    /** Deleting the appointment forgets its links and queues the CRM's events for removal. */
    method Delete()
      requires Valid() && present
      modifies this`present, this`tables
      ensures Valid() && !present
      ensures tables.links == map[] && tables.live == old(tables).live && tables.foreign == old(tables).foreign
      ensures forall k :: k in tables.removals <==> IsCrm(old(tables), k)
    {
      ghost var before := tables;
      var crm := set k | k in tables.links && tables.links[k];
      tables := tables.(removals := crm);
      tables := tables.(links := map[]);
      present := false;
      assert forall k :: k in tables.removals <==> IsCrm(before, k);
    }

    // ---- What happens on calendars ----

    /** A calendar's event comes in: it is linked, and the appointment takes its title and time. */
    method Receive(k: Key, shown: Shown, assignee: Option<nat>)
      requires Valid() && present && k !in tables.erased
      modifies this`tables, this`item, this`outside
      ensures Valid() && k in tables.links
      ensures IsCrm(tables, k) <==> IsCrm(old(tables), k)
      ensures if IsCrm(old(tables), k)
              then tables.live == old(tables).live[k := shown] && tables.foreign == old(tables).foreign
              else tables.foreign == old(tables).foreign[k := shown] && tables.live == old(tables).live
      ensures tables.links == old(tables).links[k := IsCrm(old(tables), k)]
      ensures item == Item(shown.title, Some(shown.startsAt), assignee, old(item.completed))
    {
      item := Item(shown.title, Some(shown.startsAt), assignee, item.completed);
      ReceivingKeeps(tables, k, shown);
      tables := Received(tables, k, shown);
      outside := true;
    }

    /** A calendar user erases an event the CRM made. */
    method Erase(k: Key)
      requires Valid() && k in tables.live
      modifies this`tables, this`outside
      ensures Valid() && k !in tables.live && tables.links == old(tables).links
      ensures tables.foreign == old(tables).foreign
    {
      ErasingKeeps(tables, k);
      tables := DeleteEvent(tables, k).(erased := tables.erased + {k});
      outside := true;
    }

    /**
     Over any run, what cannot happen at a moment being skipped: the CRM's live events are those
     its links name or it still has to remove, one a calendar at most, and nobody else's event is
     ever written.
     */
    method Live(run: seq<Happening>)
      requires Valid()
      modifies this
      ensures Valid()
      ensures forall k :: k in tables.live <==> (IsCrm(tables, k) || k in tables.removals) && k !in tables.erased
      ensures forall a, b :: a in tables.live && b in tables.live && a.calendar == b.calendar ==> a == b
      ensures (forall h :: h in run ==> !h.CameIn?) ==> tables.foreign == old(tables).foreign
    {
      for n := 0 to |run|
        invariant Valid()
        invariant (forall h :: h in run ==> !h.CameIn?) ==> tables.foreign == old(tables).foreign
      {
        assert run[n] in run;
        match run[n]
        case Edited(item) => if present { Save(item); }
        case Deleted => if present { Delete(); }
        case PushRun => Push();
        case RemovalRun(key) => if key in tables.removals { RunRemoval(key); }
        case CameIn(key, shown, assignee) =>
          if present && key !in tables.erased { Receive(key, shown, assignee); }
        case ErasedThere(key) => if key in tables.live { Erase(key); }
      }
      OneLiveEach(tables);
    }
  }

  lemma SameStaysLinked(t: Tables, u: Tables, c: nat, ref: Option<Key>)
    requires SameOn(t, u, c) && LinkOn(t, c, ref)
    ensures LinkOn(u, c, ref)
  {}

  lemma RemovingKeeps(t: Tables, k: Key)
    requires Accounted(t) && OneEach(t) && k in t.removals
    ensures var u := DeleteEvent(t, k).(removals := t.removals - {k});
            && Accounted(u) && OneEach(u)
            && (t.links == map[] && u.removals == {} ==> u.live == map[])
  {
    var u := DeleteEvent(t, k).(removals := t.removals - {k});
    assert forall x :: IsCrm(u, x) <==> IsCrm(t, x);
    assert forall x :: IsForeign(u, x) <==> IsForeign(t, x);
    if t.links == map[] && u.removals == {} { assert forall x :: x !in u.live; }
  }

  /** A calendar's own event is stored as such; the CRM's event coming back stays the CRM's. */
  function Received(t: Tables, k: Key, shown: Shown): Tables {
    if IsCrm(t, k) then t.(live := t.live[k := shown])
    else t.(foreign := t.foreign[k := shown], links := t.links[k := false],
            nextEvent := if k.event < t.nextEvent then t.nextEvent else k.event + 1)
  }

  lemma ReceivingKeeps(t: Tables, k: Key, shown: Shown)
    requires Accounted(t) && OneEach(t) && t.removals == {} && k !in t.erased
    ensures var u := Received(t, k, shown);
            Accounted(u) && OneEach(u) && (IsCrm(u, k) <==> IsCrm(t, k))
  {
    var u := Received(t, k, shown);
    assert forall x :: IsCrm(u, x) <==> IsCrm(t, x);
    assert forall x :: IsForeign(u, x) <==> IsForeign(t, x) || (x == k && !IsCrm(t, k));
  }

  lemma ErasingKeeps(t: Tables, k: Key)
    requires Accounted(t) && OneEach(t) && k in t.live
    ensures var u := DeleteEvent(t, k).(erased := t.erased + {k});
            Accounted(u) && OneEach(u)
  {
    var u := DeleteEvent(t, k).(erased := t.erased + {k});
    assert forall x :: IsCrm(u, x) <==> IsCrm(t, x);
    assert forall x :: IsForeign(u, x) <==> IsForeign(t, x);
  }
}

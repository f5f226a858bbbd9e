/**
 One folder of a mailbox: its messages by UID, the stored cursor, and what a sync fetches.

 UIDs only grow while the folder's UIDVALIDITY stays the same (section 2.3.1.1 of RFC 3501).
 */
module Mailbox {
  import opened Wrappers

  const MAIL_LIMIT := 2000

  datatype Cursor = Cursor(validity: nat, last: nat)

  ghost predicate Ascending(uids: seq<nat>) {
    forall i, j :: 0 <= i < j < |uids| ==> uids[i] < uids[j]
  }

  lemma AscendingAppend(uids: seq<nat>, u: nat)
    requires Ascending(uids) && (uids == [] || uids[|uids| - 1] < u)
    ensures Ascending(uids + [u])
    ensures forall x :: x in uids ==> x < u
  {
    forall i | 0 <= i < |uids| ensures uids[i] < u {}
  }

  /** A list is ascending when what is before its last is, and ends below it. */
  lemma AscendingBelow(uids: seq<nat>, before: seq<nat>)
    requires uids != [] && Ascending(uids) && Ascending(before)
    requires forall x :: x in before ==> x in uids[..|uids| - 1]
    ensures Ascending(before + [uids[|uids| - 1]])
  {
    var n := |uids| - 1;
    AscendingAppend(uids[..n], uids[n]);
    forall i | 0 <= i < |before| ensures before[i] < uids[n] { assert before[i] in before; }
  }

  /** The messages after the last one seen. */
  function NewerThan(uids: seq<nat>, last: nat): (newer: seq<nat>)
    ensures forall u :: u in newer <==> u in uids && u > last
    ensures |newer| <= |uids|
    ensures Ascending(uids) ==> Ascending(newer)
  {
    if uids == [] then [] else
      var n := |uids| - 1;
      var before := NewerThan(uids[..n], last);
      assert uids == uids[..n] + [uids[n]];
      if uids[n] > last then
        assert Ascending(uids) ==> Ascending(before + [uids[n]]) by {
          if Ascending(uids) { AscendingBelow(uids, before); }
        }
        before + [uids[n]]
      else before
  }

  function Newest(uids: seq<nat>): seq<nat> {
    if |uids| > MAIL_LIMIT then uids[|uids| - MAIL_LIMIT..] else uids
  }

  function LastOf(uids: seq<nat>, otherwise: nat): nat {
    if uids == [] then otherwise else uids[|uids| - 1]
  }

  /** The newest messages after a given one, up to the limit: one is left out only for newer ones. */
  ghost predicate NewestAfter(fetched: seq<nat>, uids: seq<nat>, after: int) {
    && Ascending(fetched) && |fetched| <= MAIL_LIMIT
    && (forall u :: u in fetched ==> u in uids && u > after)
    && (forall u :: u in uids && u > after && u !in fetched ==> |fetched| == MAIL_LIMIT && u < fetched[0])
  }

  // ---- A sync of one folder ----

  /**
   Fetch what came after the cursor, or a recent stretch when there is none to go by: on the first
   sync, after an empty one, or when the folder was renumbered. "UID n:*" always finds the highest
   message, so what is not after the cursor is dropped.
   */
  method SyncFolder(uids: seq<nat>, validity: nat, stored: Option<Cursor>, recent: seq<nat>)
    returns (fetched: seq<nat>, cursor: Cursor)
    requires Ascending(uids) && Ascending(recent)
    ensures fetched == Newest(if Usable(stored, validity) then NewerThan(uids, stored.value.last) else recent)
    ensures if stored.Some? && stored.value.validity == validity && stored.value.last != 0
            then NewestAfter(fetched, uids, stored.value.last) else NewestAfter(fetched, recent, -1)
    ensures cursor.validity == validity
    ensures cursor.last == if fetched != [] then fetched[|fetched| - 1]
                           else if stored.Some? then stored.value.last else 0
    // The cursor never goes back, and never stops short of what was fetched.
    ensures Usable(stored, validity) ==> cursor.last >= stored.value.last
    ensures forall u :: u in fetched ==> u <= cursor.last
  {
    var found := recent;
    if stored.Some? && stored.value.validity == validity && stored.value.last != 0 {
      found := SearchAfter(uids, stored.value.last);
    }
    NewestIsTheEnd(found);
    if |found| > MAIL_LIMIT {
      found := found[|found| - MAIL_LIMIT..];
    }
    var last;
    fetched, last := FetchAll(found, LastStored(stored));
    if Usable(stored, validity) && fetched != [] { assert fetched[|fetched| - 1] in fetched; }
    cursor := Cursor(validity, last);
  }

  function Larger(a: nat, b: nat): nat {
    if a < b then b else a
  }

  /** Fetch the messages one by one, keeping the highest UID. */
  method FetchAll(found: seq<nat>, otherwise: nat) returns (fetched: seq<nat>, last: nat)
    requires Ascending(found)
    ensures fetched == found && last == LastOf(found, otherwise)
    ensures forall u :: u in found ==> u <= last
  {
    fetched, last := [], otherwise;
    for n := 0 to |found|
      invariant fetched == found[..n]
      invariant last == LastOf(found[..n], otherwise)
    {
      fetched := fetched + [found[n]];
      last := if n == 0 then found[n] else Larger(last, found[n]);
      assert found[..n + 1] == found[..n] + [found[n]];
    }
    assert found[..|found|] == found;
    forall u | u in found ensures u <= last { LastIsTop(found, u); }
  }

  predicate Usable(stored: Option<Cursor>, validity: nat) {
    stored.Some? && stored.value.validity == validity && stored.value.last != 0
  }

  function LastStored(stored: Option<Cursor>): nat {
    if stored.Some? then stored.value.last else 0
  }

  method SearchAfter(uids: seq<nat>, last: nat) returns (found: seq<nat>)
    ensures found == NewerThan(uids, last)
  {
    found := [];
    for n := 0 to |uids|
      invariant found == NewerThan(uids[..n], last)
    {
      assert uids[..n + 1][..n] == uids[..n];
      if uids[n] > last {
        found := found + [uids[n]];
      }
    }
    assert uids[..|uids|] == uids;
  }

  // ---- Runs of arrivals, deletions and syncs under one UIDVALIDITY ----

  /** Live messages, the next UID the server gives out, the cursor, and every message fetched so far. */
  datatype Folder = Folder(uids: seq<nat>, next: nat, last: nat, fetched: seq<nat>)

  datatype Event = Arrive | Expunge(uid: nat) | Sync

  function Without(uids: seq<nat>, uid: nat): (left: seq<nat>)
    ensures forall u :: u in left <==> u in uids && u != uid
    ensures Ascending(uids) ==> Ascending(left)
    ensures |left| <= |uids|
  {
    if uids == [] then [] else
      var n := |uids| - 1;
      var before := Without(uids[..n], uid);
      assert uids == uids[..n] + [uids[n]];
      if uids[n] == uid then before else
        assert Ascending(uids) ==> Ascending(before + [uids[n]]) by {
          if Ascending(uids) { AscendingBelow(uids, before); }
        }
        before + [uids[n]]
  }

  function After(f: Folder, e: Event): Folder {
    match e
    case Arrive => f.(uids := f.uids + [f.next], next := f.next + 1)
    case Expunge(uid) => f.(uids := Without(f.uids, uid))
    case Sync =>
      var new_ := Newest(NewerThan(f.uids, f.last));
      f.(last := LastOf(new_, f.last), fetched := f.fetched + new_)
  }

  function Run(f: Folder, events: seq<Event>): Folder {
    if events == [] then f else After(Run(f, events[..|events| - 1]), events[|events| - 1])
  }

  /** The cursor is a UID of this numbering, so it lies before everything still to come. */
  ghost predicate Sound(f: Folder) {
    && Ascending(f.uids)
    && 0 < f.last < f.next
    && (forall u :: u in f.uids ==> u < f.next)
    && (forall u :: u in f.fetched ==> u <= f.last)
    && (forall i, j :: 0 <= i < j < |f.fetched| ==> f.fetched[i] != f.fetched[j])
  }

  lemma NewestIsTheEnd(uids: seq<nat>)
    requires Ascending(uids)
    ensures Ascending(Newest(uids))
    ensures forall u :: u in Newest(uids) ==> u in uids
    ensures forall u :: u in uids && u !in Newest(uids) ==> |uids| > MAIL_LIMIT && u < Newest(uids)[0]
  {}

  lemma LastIsTop(uids: seq<nat>, u: nat)
    requires Ascending(uids) && u in uids
    ensures u <= LastOf(uids, 0) && LastOf(uids, 0) in uids
  {}

  lemma SyncKeepsSound(f: Folder)
    requires Sound(f)
    ensures Sound(After(f, Sync)) && After(f, Sync).last >= f.last
  {
    var new_ := Newest(NewerThan(f.uids, f.last));
    NewestIsTheEnd(NewerThan(f.uids, f.last));
    if new_ != [] { LastIsTop(new_, new_[0]); }
    forall u | u in new_ ensures u <= LastOf(new_, f.last) { LastIsTop(new_, u); }
    var all := f.fetched + new_;
    forall i, j | 0 <= i < j < |all| ensures all[i] != all[j] {
      if j >= |f.fetched| > i { assert all[i] in f.fetched && all[j] in new_; }
    }
  }

  lemma EventKeepsSound(f: Folder, e: Event)
    requires Sound(f)
    ensures Sound(After(f, e)) && After(f, e).last >= f.last
  {
    match e
    case Sync => SyncKeepsSound(f);
    case Arrive =>
      if f.uids != [] { assert f.uids[|f.uids| - 1] in f.uids; }
      AscendingAppend(f.uids, f.next);
    case Expunge(_) =>
  }

  /** Over any run the cursor never goes back and no message is fetched twice. */
  lemma {:induction false} NeverFetchedTwice(f: Folder, events: seq<Event>)
    requires Sound(f)
    ensures var g := Run(f, events);
            && Sound(g) && g.last >= f.last && f.fetched <= g.fetched
            && (forall i, j :: 0 <= i < j < |g.fetched| ==> g.fetched[i] != g.fetched[j])
  {
    if events != [] {
      NeverFetchedTwice(f, events[..|events| - 1]);
      EventKeepsSound(Run(f, events[..|events| - 1]), events[|events| - 1]);
    }
  }

  /** How many messages came in after one of them and are still there. */
  function NewerCount(f: Folder, u: nat): nat {
    |NewerThan(f.uids, u)|
  }

  lemma {:induction false} NothingNewer(uids: seq<nat>, last: nat)
    requires forall u :: u in uids ==> u <= last
    ensures NewerThan(uids, last) == []
  {
    if uids != [] {
      var n := |uids| - 1;
      assert uids[n] in uids && forall u :: u in uids[..n] ==> u in uids;
      NothingNewer(uids[..n], last);
    }
  }

  /** In an ascending list the position from the end says how many are newer. */
  lemma {:induction false} NewerThanIsSuffix(uids: seq<nat>, i: nat)
    requires Ascending(uids) && i < |uids|
    ensures |NewerThan(uids, uids[i])| == |uids| - 1 - i
  {
    var n := |uids| - 1;
    if i < n {
      NewerThanIsSuffix(uids[..n], i);
    } else {
      AscendingAppend(uids[..n], uids[n]);
      NothingNewer(uids[..n], uids[n]);
    }
  }

  lemma {:induction false} NewerOfNewer(uids: seq<nat>, last: nat, u: nat)
    requires u >= last
    ensures NewerThan(NewerThan(uids, last), u) == NewerThan(uids, u)
  {
    if uids != [] {
      var n := |uids| - 1;
      NewerOfNewer(uids[..n], last, u);
      var before := NewerThan(uids[..n], last);
      if uids[n] > last { assert (before + [uids[n]])[..|before|] == before; }
    }
  }

  /**
   A sync fetches a waiting message exactly when fewer than the limit are newer; one it passes
   over is behind the cursor from then on.
   */
  lemma SyncFetchesNewest(f: Folder, u: nat)
    requires Sound(f) && u in f.uids && u > f.last
    ensures u in After(f, Sync).fetched <==> NewerCount(f, u) < MAIL_LIMIT
    ensures u <= After(f, Sync).last
  {
    var waiting := NewerThan(f.uids, f.last);
    var i :| 0 <= i < |waiting| && waiting[i] == u;
    NewerThanIsSuffix(waiting, i);
    NewerOfNewer(f.uids, f.last, u);
    assert u !in f.fetched;
    NewestHolds(waiting, i);
    var new_ := Newest(waiting);
    NewestIsTheEnd(waiting);
    LastIsTop(new_, new_[|new_| - 1]);
    if u in new_ { LastIsTop(new_, u); }
  }

  /** The newest are those with fewer than the limit after them. */
  lemma NewestHolds(uids: seq<nat>, i: nat)
    requires Ascending(uids) && i < |uids|
    ensures Newest(uids) != [] && Newest(uids)[|Newest(uids)| - 1] == uids[|uids| - 1]
    ensures uids[i] in Newest(uids) <==> |uids| - 1 - i < MAIL_LIMIT
    ensures uids[i] <= uids[|uids| - 1]
  {
    var skipped := if |uids| > MAIL_LIMIT then |uids| - MAIL_LIMIT else 0;
    assert Newest(uids) == uids[skipped..];
    if i >= skipped { assert uids[skipped..][i - skipped] == uids[i]; }
  }

  /** What is behind the cursor and not fetched is never fetched. */
  lemma {:induction false} PassedOverIsLost(f: Folder, events: seq<Event>, u: nat)
    requires Sound(f) && u <= f.last && u !in f.fetched
    ensures u !in Run(f, events).fetched
  {
    if events != [] {
      var n := |events| - 1;
      PassedOverIsLost(f, events[..n], u);
      NeverFetchedTwice(f, events[..n]);
      var g := Run(f, events[..n]);
      NewestIsTheEnd(NewerThan(g.uids, g.last));
    }
  }

  /** At some sync of the run the message is waiting with fewer than the limit newer ones. */
  ghost predicate Taken(f: Folder, events: seq<Event>, u: nat) {
    events != [] && (
      var n := |events| - 1;
      var g := Run(f, events[..n]);
      || Taken(f, events[..n], u)
      || (events[n] == Sync && u in g.uids && u > g.last && NewerCount(g, u) < MAIL_LIMIT))
  }

  /** Over any run, a message not fetched before is fetched exactly if it is so at some sync. */
  lemma {:induction false} FetchedExactly(f: Folder, events: seq<Event>, u: nat)
    requires Sound(f) && u !in f.fetched
    ensures u in Run(f, events).fetched <==> Taken(f, events, u)
  {
    if events != [] {
      var n := |events| - 1;
      var g := Run(f, events[..n]);
      FetchedExactly(f, events[..n], u);
      NeverFetchedTwice(f, events[..n]);
      if events[n] == Sync {
        if u in g.uids && u > g.last {
          SyncFetchesNewest(g, u);
          assert u !in g.fetched;
        } else {
          NewestIsTheEnd(NewerThan(g.uids, g.last));
        }
      }
    }
  }

  /** At every sync of the run no more than the limit is waiting. */
  ghost predicate KeepsUp(f: Folder, events: seq<Event>) {
    events == [] || (
      var n := |events| - 1;
      && KeepsUp(f, events[..n])
      && (events[n] == Sync ==> |NewerThan(Run(f, events[..n]).uids, Run(f, events[..n]).last)| <= MAIL_LIMIT))
  }

  lemma {:induction false} KeptUpBefore(f: Folder, events: seq<Event>, n: nat)
    requires KeepsUp(f, events) && n <= |events|
    ensures KeepsUp(f, events[..n])
  {
    if n < |events| {
      KeptUpBefore(f, events[..|events| - 1], n);
      assert events[..|events| - 1][..n] == events[..n];
    } else {
      assert events[..n] == events;
    }
  }

  lemma {:induction false} FetchedStays(f: Folder, events: seq<Event>, n: nat)
    requires n <= |events|
    ensures Run(f, events[..n]).fetched <= Run(f, events).fetched
  {
    if n < |events| {
      FetchedStays(f, events[..|events| - 1], n);
      assert events[..|events| - 1][..n] == events[..n];
    } else {
      assert events[..n] == events;
    }
  }

  /** Then the cursor leaves nothing behind that is still in the folder. */
  lemma {:induction false} NothingIsLeftBehind(f: Folder, events: seq<Event>)
    requires Sound(f) && KeepsUp(f, events)
    ensures Sound(Run(f, events))
    ensures forall u :: u in Run(f, events).uids && f.last < u <= Run(f, events).last ==> u in Run(f, events).fetched
  {
    if events != [] {
      var n := |events| - 1;
      var g := Run(f, events[..n]);
      NothingIsLeftBehind(f, events[..n]);
      NeverFetchedTwice(f, events);
      NeverFetchedTwice(f, events[..n]);
      if events[n] == Sync {
        var h := After(g, Sync);
        forall u | u in h.uids && f.last < u <= h.last ensures u in h.fetched {
          if u > g.last { assert u in NewerThan(g.uids, g.last); }
        }
      }
    }
  }

  /** And every message that was in the folder at some sync of the run was fetched, deleted since or not. */
  lemma EveryArrivalIsFetched(f: Folder, events: seq<Event>, n: nat, u: nat)
    requires Sound(f) && KeepsUp(f, events) && n < |events| && events[n] == Sync
    requires u in Run(f, events[..n]).uids && u > f.last
    ensures u in Run(f, events).fetched
  {
    var g := Run(f, events[..n]);
    KeptUpBefore(f, events, n);
    KeptUpBefore(f, events, n + 1);
    NothingIsLeftBehind(f, events[..n]);
    assert events[..n + 1][..n] == events[..n];
    assert Run(f, events[..n + 1]) == After(g, Sync);
    if u > g.last { assert u in NewerThan(g.uids, g.last); }
    FetchedStays(f, events, n + 1);
  }

  /**
   When a folder was renumbered and nothing recent is in it, the old cursor is kept under the new
   numbering. The next message to arrive is fetched by the next sync exactly when the new
   numbering is already past that cursor; messages up to it are never fetched at all.
   */
  lemma RenumberedCursorHidesMail(uids: seq<nat>, next: nat, old_: Cursor, events: seq<Event>, u: nat)
    requires Ascending(uids) && (forall x :: x in uids ==> 0 < x < next) && 0 < next && old_.last > 0
    ensures var kept := Folder(uids, next, old_.last, []);
            && (next in After(After(kept, Arrive), Sync).fetched <==> next > old_.last)
            && (u <= old_.last ==> u !in Run(kept, events).fetched)
  {
    var kept := Folder(uids, next, old_.last, []);
    NextArrivalIsFetched(kept);
    if u <= old_.last { BehindCursorStaysUnfetched(kept, events, u); }
  }

  lemma NextArrivalIsFetched(f: Folder)
    requires Ascending(f.uids) && (forall x :: x in f.uids ==> x < f.next) && f.fetched == []
    ensures f.next in After(After(f, Arrive), Sync).fetched <==> f.next > f.last
  {
    var waiting := NewerThan(f.uids + [f.next], f.last);
    assert (f.uids + [f.next])[..|f.uids|] == f.uids;
    if f.uids != [] { assert f.uids[|f.uids| - 1] in f.uids; }
    AscendingAppend(f.uids, f.next);
    NewestIsTheEnd(waiting);
    if f.next > f.last { NewestHolds(waiting, |waiting| - 1); }
  }

  ghost predicate Behind(f: Folder, u: nat) {
    && u <= f.last && u !in f.fetched
    && Ascending(f.uids) && forall x :: x in f.uids ==> x < f.next
  }

  lemma EventLeavesBehind(f: Folder, e: Event, u: nat)
    requires Behind(f, u)
    ensures Behind(After(f, e), u)
  {
    match e
    case Sync =>
      var new_ := Newest(NewerThan(f.uids, f.last));
      NewestIsTheEnd(NewerThan(f.uids, f.last));
      if new_ != [] { LastIsTop(new_, new_[0]); }
    case Arrive =>
      if f.uids != [] { assert f.uids[|f.uids| - 1] in f.uids; }
      AscendingAppend(f.uids, f.next);
    case Expunge(_) =>
  }

  lemma {:induction false} BehindCursorStaysUnfetched(f: Folder, events: seq<Event>, u: nat)
    requires Behind(f, u)
    ensures Behind(Run(f, events), u)
  {
    if events != [] {
      BehindCursorStaysUnfetched(f, events[..|events| - 1], u);
      EventLeavesBehind(Run(f, events[..|events| - 1]), events[|events| - 1], u);
    }
  }
}

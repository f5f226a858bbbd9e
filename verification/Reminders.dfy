/**
 Client email reminders: workers claim due installments, and queued tasks send or release them.

 Claims, reads, releases and sends of any number of workers interleave freely with payments,
 cancellations and settings changes. The claim mark is the only thing that keeps an installment
 from being emailed twice.
 */
module Reminders {

  /**
   Installments are known by their keys. A task that has read the plan is either about to send
   or about to release; what it read may change before it acts.
   */
  datatype State = State(
    due: set<nat>,            // plan active, reminders on and row unpaid, right now
    marked: set<nat>,         // claim mark set
    pending: multiset<nat>,   // queued tasks
    sending: multiset<nat>,   // tasks that read the installment as due
    releasing: multiset<nat>, // tasks that read it as no longer due
    attempts: multiset<nat>)  // emails tried

  datatype Event =
    | World(due: set<nat>)
    | Claim(key: nat)
    | Read(key: nat)
    | Release(key: nat)
    | Send(key: nat)

  function After(s: State, e: Event): State {
    match e
    case World(due) => s.(due := due)
    case Claim(key) =>
      // A conditional update: it claims only an unmarked installment, and queues what it claimed.
      if key in s.marked then s else s.(marked := s.marked + {key}, pending := s.pending + multiset{key})
    case Read(key) =>
      if key !in s.pending then s
      else if key in s.due then s.(pending := s.pending - multiset{key}, sending := s.sending + multiset{key})
      else s.(pending := s.pending - multiset{key}, releasing := s.releasing + multiset{key})
    case Release(key) =>
      if key !in s.releasing then s
      else s.(releasing := s.releasing - multiset{key}, marked := s.marked - {key})
    case Send(key) =>
      if key !in s.sending then s
      else s.(sending := s.sending - multiset{key}, attempts := s.attempts + multiset{key})
  }

  function Run(s: State, events: seq<Event>): State {
    if events == [] then s else After(Run(s, events[..|events| - 1]), events[|events| - 1])
  }

  const Quiet := State({}, {}, multiset{}, multiset{}, multiset{}, multiset{})

  /** Everything the mark of one installment can stand for. */
  ghost function Held(s: State, key: nat): nat {
    s.pending[key] + s.sending[key] + s.releasing[key] + s.attempts[key]
  }

  /** The mark stands for exactly one thing: a task not finished yet, or the one email tried. */
  ghost predicate OneClaim(s: State) {
    forall key :: Held(s, key) == if key in s.marked then 1 else 0
  }

  /** An event changes what is held for its own installment only, and only together with its mark. */
  lemma EventMovesOne(s: State, e: Event, key: nat)
    requires Held(s, key) == if key in s.marked then 1 else 0
    ensures Held(After(s, e), key) == if key in After(s, e).marked then 1 else 0
  {
    match e
    case World(_) =>
    case Claim(k) =>
      assert k !in s.marked ==> After(s, e).pending[key] == s.pending[key] + if k == key then 1 else 0;
    case Read(_) =>
    case Release(_) =>
    case Send(_) =>
  }

  lemma EventKeepsOneClaim(s: State, e: Event)
    requires OneClaim(s)
    ensures OneClaim(After(s, e))
  {
    forall key ensures Held(After(s, e), key) == if key in After(s, e).marked then 1 else 0 {
      assert Held(s, key) == if key in s.marked then 1 else 0;
      EventMovesOne(s, e, key);
    }
  }

  lemma {:induction false} OneClaimOverRuns(s: State, events: seq<Event>)
    requires OneClaim(s)
    ensures OneClaim(Run(s, events))
  {
    if events != [] {
      OneClaimOverRuns(s, events[..|events| - 1]);
      EventKeepsOneClaim(Run(s, events[..|events| - 1]), events[|events| - 1]);
    }
  }

  /** Under every interleaving, no installment's email is tried twice. */
  lemma NeverEmailedTwice(events: seq<Event>, key: nat)
    ensures Run(Quiet, events).attempts[key] <= 1
    ensures key in Run(Quiet, events).attempts ==>
              && key in Run(Quiet, events).marked
              && key !in Run(Quiet, events).pending
              && key !in Run(Quiet, events).sending
              && key !in Run(Quiet, events).releasing
  {
    OneClaimOverRuns(Quiet, events);
    assert OneClaim(Run(Quiet, events));
  }

  /** The email of this installment was tried, and that is all its mark stands for. */
  ghost predicate Tried(s: State, key: nat) {
    && key in s.marked && s.attempts[key] == 1
    && s.pending[key] == 0 && s.sending[key] == 0 && s.releasing[key] == 0
  }

  lemma EventLeavesTried(s: State, e: Event, key: nat)
    requires Tried(s, key)
    ensures Tried(After(s, e), key)
  {
    match e
    case World(_) =>
    case Claim(_) =>
    case Read(_) =>
    case Release(_) =>
    case Send(_) =>
  }

  /** After an email was tried, nothing that happens later touches that installment again. */
  lemma {:induction false} AttemptIsFinal(s: State, events: seq<Event>, key: nat)
    requires OneClaim(s) && key in s.attempts
    ensures Tried(Run(s, events), key)
  {
    if events == [] {
      assert Held(s, key) == if key in s.marked then 1 else 0;
    } else {
      var n := |events| - 1;
      AttemptIsFinal(s, events[..n], key);
      EventLeavesTried(Run(s, events[..n]), events[n], key);
    }
  }

  // ---- One worker's tick and one task, run without interruption ----

  /** An installment's row as a tick sees it; days are day numbers and moments are on the clock. */
  datatype Row = Row(key: nat, planActive: bool, emails: bool, dueDay: int, moment: int, paid: bool)

  const MAX_DAYS_BEFORE := 30

  predicate Ready(row: Row, today: int, now: int) {
    row.planActive && row.emails && today <= row.dueDay <= today + MAX_DAYS_BEFORE && row.moment <= now && !row.paid
  }

  /** What a tick claims: each row that is ready, in order. */
  function Claims(rows: seq<Row>, today: int, now: int): seq<Event> {
    if rows == [] then [] else
      var n := |rows| - 1;
      var before := Claims(rows[..n], today, now);
      if Ready(rows[n], today, now) then before + [Claim(rows[n].key)] else before
  }

  lemma RunAppend(s: State, events: seq<Event>, e: Event)
    ensures Run(s, events + [e]) == After(Run(s, events), e)
  {
    assert (events + [e])[..|events|] == events;
  }

  function ReadyKeys(rows: seq<Row>, today: int, now: int): set<nat> {
    set r | r in rows && Ready(r, today, now) :: r.key
  }

  lemma OneRowMore(rows: seq<Row>, today: int, now: int, n: nat)
    requires n + 1 == |rows|
    ensures ReadyKeys(rows, today, now)
         == ReadyKeys(rows[..n], today, now) + if Ready(rows[n], today, now) then {rows[n].key} else {}
  {
    assert rows == rows[..n] + [rows[n]];
  }

  /** Of an active plan with email reminders, due from today on within the limit, its moment come, unpaid. */
  ghost predicate ReadyIn(rows: seq<Row>, key: nat, today: int, now: int) {
    exists r :: r in rows && r.key == key && r.planActive && r.emails && today <= r.dueDay
                && r.dueDay - today <= MAX_DAYS_BEFORE && r.moment <= now && !r.paid
  }

  /** A task is queued for each installment newly marked, and nothing else changes. */
  ghost predicate Queued(s: State, t: State) {
    && s.marked <= t.marked && t.due == s.due
    && t.sending == s.sending && t.releasing == s.releasing && t.attempts == s.attempts
    && forall key :: t.pending[key] == s.pending[key] + if key in t.marked && key !in s.marked then 1 else 0
  }

  /** A tick marks exactly the ready installments, besides those already marked. */
  lemma TickMarksReady(s: State, rows: seq<Row>, today: int, now: int)
    ensures forall key :: key in Run(s, Claims(rows, today, now)).marked
                          <==> key in s.marked || ReadyIn(rows, key, today, now)
  {
    TickMarksKeys(s, rows, today, now);
    forall key ensures key in ReadyKeys(rows, today, now) <==> ReadyIn(rows, key, today, now) {}
  }

  lemma {:induction false} TickMarksKeys(s: State, rows: seq<Row>, today: int, now: int)
    ensures Run(s, Claims(rows, today, now)).marked == s.marked + ReadyKeys(rows, today, now)
  {
    if rows != [] {
      var n := |rows| - 1;
      TickMarksKeys(s, rows[..n], today, now);
      OneRowMore(rows, today, now, n);
      if Ready(rows[n], today, now) {
        RunAppend(s, Claims(rows[..n], today, now), Claim(rows[n].key));
      }
    }
  }

  lemma {:induction false} TickQueuesMarked(s: State, rows: seq<Row>, today: int, now: int)
    ensures Queued(s, Run(s, Claims(rows, today, now)))
  {
    if rows != [] {
      var n := |rows| - 1;
      TickQueuesMarked(s, rows[..n], today, now);
      if Ready(rows[n], today, now) {
        RunAppend(s, Claims(rows[..n], today, now), Claim(rows[n].key));
      }
    }
  }

  /** A task read and finished at once either emails a due installment or lets it be claimed again. */
  lemma TaskOutcome(s: State, key: nat)
    requires key in s.pending
    ensures key in s.due ==>
              After(After(s, Read(key)), Send(key))
              == s.(pending := s.pending - multiset{key}, attempts := s.attempts + multiset{key})
    ensures key !in s.due ==>
              After(After(s, Read(key)), Release(key))
              == s.(pending := s.pending - multiset{key}, marked := s.marked - {key})
  {
    if key in s.due {
      assert s.sending + multiset{key} - multiset{key} == s.sending;
    } else {
      assert s.releasing + multiset{key} - multiset{key} == s.releasing;
    }
  }

  class Queue {
    var state: State

    constructor ()
      ensures state == Quiet && OneClaim(state)
    {
      state := Quiet;
    }

    /** Claim each installment whose reminder is due and queue it; say how many. */
    method QueueDue(rows: seq<Row>, senderReady: bool, today: int, now: int) returns (queued: nat)
      requires OneClaim(state)
      modifies this
      ensures OneClaim(state)
      ensures state == if senderReady then Run(old(state), Claims(rows, today, now)) else old(state)
      ensures |state.pending| == |old(state).pending| + queued
      ensures forall key :: key in state.marked
                            <==> key in old(state).marked || (senderReady && ReadyIn(rows, key, today, now))
      ensures Queued(old(state), state)
    {
      queued := 0;
      if !senderReady {
        return;
      }
      for n := 0 to |rows|
        invariant state == Run(old(state), Claims(rows[..n], today, now))
        invariant |state.pending| == |old(state).pending| + queued
      {
        var row := rows[n];
        assert rows[..n + 1][..n] == rows[..n];
        if !(row.planActive && row.emails && today <= row.dueDay <= today + MAX_DAYS_BEFORE) {
          continue;
        }
        if row.moment > now {
          continue;
        }
        if row.paid {
          continue;
        }
        RunAppend(old(state), Claims(rows[..n], today, now), Claim(row.key));
        if row.key !in state.marked {
          state := state.(marked := state.marked + {row.key}, pending := state.pending + multiset{row.key});
          queued := queued + 1;
        }
      }
      assert rows[..|rows|] == rows;
      OneClaimOverRuns(old(state), Claims(rows, today, now));
      TickMarksReady(old(state), rows, today, now);
      TickQueuesMarked(old(state), rows, today, now);
    }

    /** Run one queued task: send if the installment is still due, release the claim if not. */
    method SendReminder(key: nat) returns (tried: bool)
      requires OneClaim(state) && key in state.pending
      modifies this
      ensures OneClaim(state)
      ensures state == After(After(old(state), Read(key)), if tried then Send(key) else Release(key))
      ensures state == old(state).(
                         pending := old(state).pending - multiset{key},
                         attempts := old(state).attempts + if tried then multiset{key} else multiset{},
                         marked := old(state).marked - if tried then {} else {key})
      ensures tried <==> key in old(state).due
      ensures tried ==> key in state.marked && state.attempts[key] == 1
      ensures !tried ==> key !in state.marked && state.attempts == old(state).attempts
    {
      TaskOutcome(state, key);
      EventKeepsOneClaim(state, Read(key));
      EventKeepsOneClaim(After(state, Read(key)), if key in state.due then Send(key) else Release(key));
      tried := key in state.due;
      state := state.(pending := state.pending - multiset{key});
      if tried {
        state := state.(attempts := state.attempts + multiset{key});
      } else {
        state := state.(marked := state.marked - {key});
      }
    }
  }
}

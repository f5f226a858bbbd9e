/**
 The second sign-in factor: authenticator codes (RFC 6238), recovery codes, and a lockout.

 The code of each time step comes from an uninterpreted function, and stored recovery codes are
 opaque hashes. Clock readings may jump; the lockout bound needs them not to go back.
 */
module TwoFactor {
  import opened Wrappers
  import Money

  const PERIOD_SECONDS := 30
  const DIGITS := 6
  const DRIFT_STEPS := 1
  const RECOVERY_CODE_COUNT := 10
  const RECOVERY_CODE_LENGTH := 10

  datatype Outcome = Accepted | AcceptedRecovery | Rejected | Locked

  /** A typed code: with spaces removed for the authenticator, and normalized and hashed for recovery. */
  datatype Typed = Typed(digits: string, recoveryLength: nat, recoveryHash: string)

  predicate WellFormed(code: string) {
    |code| == DIGITS && forall c :: c in code ==> '0' <= c <= '9'
  }

  // ---- Time steps ----

  predicate Matches(hotp: int -> string, code: string, after: int, counter: int, candidate: int) {
    && counter - DRIFT_STEPS <= candidate <= counter + DRIFT_STEPS
    && candidate > after
    && hotp(candidate) == code
  }

  /** The code belongs to some time step near now that is later than the last one used. */
  ghost predicate Fresh(hotp: int -> string, code: string, after: int, clock: int) {
    WellFormed(code) && exists c :: Matches(hotp, code, after, clock / PERIOD_SECONDS, c)
  }

  /** The first of the steps from one to another that the code belongs to. */
  function FirstFrom(hotp: int -> string, code: string, after: int, candidate: int, end: int): (step: Option<int>)
    ensures step.Some? ==>
              && candidate <= step.value < end && step.value > after && hotp(step.value) == code
              && forall c :: candidate <= c < step.value && c > after ==> hotp(c) != code
    ensures step.None? ==> forall c :: candidate <= c < end && c > after ==> hotp(c) != code
    decreases end - candidate
  {
    if candidate >= end then None
    else if candidate > after && hotp(candidate) == code then Some(candidate)
    else FirstFrom(hotp, code, after, candidate + 1, end)
  }

  function FirstMatch(hotp: int -> string, code: string, after: int, clock: int): Option<int> {
    var counter := clock / PERIOD_SECONDS;
    if WellFormed(code) then FirstFrom(hotp, code, after, counter - DRIFT_STEPS, counter + DRIFT_STEPS + 1) else None
  }

  /** The first time step near now that the code belongs to and that was not used yet. */
  method MatchCounter(hotp: int -> string, code: string, after: int, clock: int) returns (step: Option<int>)
    ensures step == FirstMatch(hotp, code, after, clock)
    ensures step.Some? <==> Fresh(hotp, code, after, clock)
    ensures step.Some? ==>
              && Matches(hotp, code, after, clock / PERIOD_SECONDS, step.value)
              && forall c :: Matches(hotp, code, after, clock / PERIOD_SECONDS, c) ==> step.value <= c
  {
    FirstMatchMeans(hotp, code, after, clock);
    if !(|code| == DIGITS && forall c | c in code :: '0' <= c <= '9') {
      return None;
    }
    var counter := clock / PERIOD_SECONDS;
    for candidate := counter - DRIFT_STEPS to counter + DRIFT_STEPS + 1
      invariant FirstMatch(hotp, code, after, clock)
             == FirstFrom(hotp, code, after, candidate, counter + DRIFT_STEPS + 1)
    {
      if candidate > after && hotp(candidate) == code {
        return Some(candidate);
      }
    }
    step := None;
  }

  lemma FirstMatchMeans(hotp: int -> string, code: string, after: int, clock: int)
    ensures var step := FirstMatch(hotp, code, after, clock);
            && (step.Some? <==> Fresh(hotp, code, after, clock))
            && (step.Some? ==>
                  && Matches(hotp, code, after, clock / PERIOD_SECONDS, step.value)
                  && forall c :: Matches(hotp, code, after, clock / PERIOD_SECONDS, c) ==> step.value <= c)
  {
    var step := FirstMatch(hotp, code, after, clock);
    if step.Some? { assert Matches(hotp, code, after, clock / PERIOD_SECONDS, step.value); }
  }

  /** A code is fresh in the half minute now, the one before and the one after, if that is past the last one used. */
  lemma FreshIsNearNow(hotp: int -> string, code: string, after: int, clock: int)
    ensures Fresh(hotp, code, after, clock) <==>
              && |code| == 6 && (forall c :: c in code ==> '0' <= c <= '9')
              && exists at :: clock - 30 <= at <= clock + 30 && at / 30 > after && hotp(at / 30) == code
  {
    var now := clock / PERIOD_SECONDS;
    if Fresh(hotp, code, after, clock) {
      var c :| Matches(hotp, code, after, now, c);
      var at := clock + 30 * (c - now);
      assert at / 30 == c;
    }
    if at :| clock - 30 <= at <= clock + 30 && at / 30 > after && hotp(at / 30) == code {
      assert now - 1 <= at / 30 <= now + 1;
      assert WellFormed(code) ==> Matches(hotp, code, after, now, at / 30);
    }
  }

  // ---- The device, as its rows are ----

  /** The device's row and its recovery codes; every accepted step and code is kept for the record. */
  datatype State = State(
    confirmed: bool,
    lastUsed: int,
    counter: Counter,
    unused: set<string>,
    steps: seq<int>,
    spent: seq<string>)

  datatype Event =
    | Setup(code: string, clock: int, codes: set<string>)
    | Attempt(typed: Typed, clock: int, now: int)
    | NewCodes(codes: set<string>)

  /** Only the row's code is looked at: a device confirmed since the page was opened is confirmed again. */
  function AfterSetup(hotp: int -> string, s: State, code: string, clock: int, codes: set<string>): State {
    match FirstMatch(hotp, code, 0, clock)
    case None => s
    case Some(step) =>
      s.(confirmed := true, lastUsed := step, steps := s.steps + [step], unused := codes, spent := [])
  }

  predicate RecoveryFits(s: State, typed: Typed) {
    typed.recoveryLength == RECOVERY_CODE_LENGTH && typed.recoveryHash in s.unused
  }

  function AfterAttempt(
    hotp: int -> string, limit: nat, cooloff: nat, s: State, typed: Typed, clock: int, now: int): State
  {
    var step := FirstMatch(hotp, typed.digits, s.lastUsed, clock);
    if !s.confirmed || LockedAt(s.counter.lockedUntil, now) then s
    else if step.Some? then s.(counter := Counter(0, None), lastUsed := step.value, steps := s.steps + [step.value])
    else if RecoveryFits(s, typed) then
      s.(counter := Counter(0, None),
         unused := s.unused - {typed.recoveryHash}, spent := s.spent + [typed.recoveryHash])
    else s.(counter := AfterWrong(s.counter, limit, cooloff, now))
  }

  function After(hotp: int -> string, limit: nat, cooloff: nat, s: State, e: Event): State {
    match e
    case Setup(code, clock, codes) => AfterSetup(hotp, s, code, clock, codes)
    case Attempt(typed, clock, now) => AfterAttempt(hotp, limit, cooloff, s, typed, clock, now)
    case NewCodes(codes) => s.(unused := codes, spent := [])
  }

  const NewDevice := State(false, 0, Counter(0, None), {}, [], [])

  function Run(hotp: int -> string, limit: nat, cooloff: nat, events: seq<Event>): State {
    if events == [] then NewDevice else
      var n := |events| - 1;
      After(hotp, limit, cooloff, Run(hotp, limit, cooloff, events[..n]), events[n])
  }

  ghost predicate Sound(s: State, limit: nat) {
    && s.counter.failed < limit
    && s.lastUsed == (if s.steps == [] then 0 else s.steps[|s.steps| - 1])
    && (forall step :: step in s.steps ==> step > 0)
    && (s.confirmed <==> s.steps != [])
    && (forall h :: h in s.spent ==> h !in s.unused)
    && (forall i, j :: 0 <= i < j < |s.spent| ==> s.spent[i] != s.spent[j])
    && (s.confirmed ==> |s.unused| + |s.spent| == RECOVERY_CODE_COUNT)
  }

  /** Codes are made ten at a time. */
  ghost predicate TenCodes(e: Event) {
    !e.Attempt? ==> |e.codes| == RECOVERY_CODE_COUNT
  }

  lemma EventKeepsSound(hotp: int -> string, limit: nat, cooloff: nat, s: State, e: Event)
    requires 0 < limit && Sound(s, limit) && TenCodes(e)
    ensures Sound(After(hotp, limit, cooloff, s, e), limit)
  {
    match e
    case Setup(code, clock, _) => FirstMatchMeans(hotp, code, 0, clock);
    case Attempt(typed, clock, _) =>
      FirstMatchMeans(hotp, typed.digits, s.lastUsed, clock);
      if s.steps != [] { assert s.lastUsed in s.steps; }
    case NewCodes(_) =>
  }

  /** Over any run each recovery code is spent at most once, and with those unused they are ten. */
  lemma {:induction false} EveryRunIsSound(hotp: int -> string, limit: nat, cooloff: nat, events: seq<Event>)
    requires 0 < limit && forall e :: e in events ==> TenCodes(e)
    ensures Sound(Run(hotp, limit, cooloff, events), limit)
  {
    if events != [] {
      var n := |events| - 1;
      EveryRunIsSound(hotp, limit, cooloff, events[..n]);
      EventKeepsSound(hotp, limit, cooloff, Run(hotp, limit, cooloff, events[..n]), events[n]);
    }
  }

  // ---- Replay ----

  ghost predicate Increasing(steps: seq<int>) {
    forall i, j :: 0 <= i < j < |steps| ==> steps[i] < steps[j]
  }

  /** A setup of a device already confirmed, by a code of a step that is not after the last one used. */
  predicate GoesBack(hotp: int -> string, s: State, e: Event) {
    e.Setup? && s.confirmed
    && FirstMatch(hotp, e.code, 0, e.clock).Some? && FirstMatch(hotp, e.code, 0, e.clock).value <= s.lastUsed
  }

  ghost predicate NeverGoesBack(hotp: int -> string, limit: nat, cooloff: nat, events: seq<Event>) {
    events == [] || (
      var n := |events| - 1;
      && NeverGoesBack(hotp, limit, cooloff, events[..n])
      && !GoesBack(hotp, Run(hotp, limit, cooloff, events[..n]), events[n]))
  }

  lemma StepAppended(steps: seq<int>, step: int)
    ensures Increasing(steps + [step]) <==> Increasing(steps) && (steps == [] || steps[|steps| - 1] < step)
  {
    var all, n := steps + [step], |steps|;
    if Increasing(all) {
      assert forall i :: 0 <= i < n ==> all[i] == steps[i];
      assert steps != [] ==> all[n - 1] < all[n];
    }
  }

  lemma EventKeepsIncreasing(hotp: int -> string, limit: nat, cooloff: nat, s: State, e: Event)
    requires Sound(s, limit)
    ensures Increasing(After(hotp, limit, cooloff, s, e).steps) <==> Increasing(s.steps) && !GoesBack(hotp, s, e)
  {
    var t := After(hotp, limit, cooloff, s, e);
    StepAppended(s.steps, t.lastUsed);
    match e
    case Setup(code, clock, _) => FirstMatchMeans(hotp, code, 0, clock);
    case Attempt(typed, clock, _) => FirstMatchMeans(hotp, typed.digits, s.lastUsed, clock);
    case NewCodes(_) =>
  }

  /**
   For any clock readings, the accepted steps of a device are strictly increasing, so no code is
   accepted twice, exactly when no setup of the run confirmed it again by a step already passed.
   */
  lemma {:induction false} StepsIncreaseExactly(hotp: int -> string, limit: nat, cooloff: nat, events: seq<Event>)
    requires 0 < limit && forall e :: e in events ==> TenCodes(e)
    ensures Increasing(Run(hotp, limit, cooloff, events).steps) <==> NeverGoesBack(hotp, limit, cooloff, events)
  {
    if events != [] {
      var n := |events| - 1;
      StepsIncreaseExactly(hotp, limit, cooloff, events[..n]);
      EveryRunIsSound(hotp, limit, cooloff, events[..n]);
      EventKeepsIncreasing(hotp, limit, cooloff, Run(hotp, limit, cooloff, events[..n]), events[n]);
    }
  }

  /**
   The run in which it fails: the same setup form posted twice. The same code is accepted both
   times, and the recovery codes shown first can no longer be used.
   */
  lemma SetupTwiceReplays(
    hotp: int -> string, limit: nat, cooloff: nat, code: string, clock: int, shown: set<string>, later: set<string>)
    requires Fresh(hotp, code, 0, clock)
    ensures var events := [Setup(code, clock, shown), Setup(code, clock, later)];
            var s := Run(hotp, limit, cooloff, events);
            && (exists step :: s.steps == [step, step])
            && !Increasing(s.steps)
            && s.unused == later
  {
    var one, two := Setup(code, clock, shown), Setup(code, clock, later);
    FirstMatchMeans(hotp, code, 0, clock);
    var step := FirstMatch(hotp, code, 0, clock).value;
    assert [one, two][..1] == [one] && [one][..0] == [];
    assert Run(hotp, limit, cooloff, [one][..0]) == NewDevice;
    var first, s := Run(hotp, limit, cooloff, [one]), Run(hotp, limit, cooloff, [one, two]);
    assert first == AfterSetup(hotp, NewDevice, code, clock, shown);
    assert s == AfterSetup(hotp, first, code, clock, later);
    assert s.steps == [step, step];
    assert s.steps[0] == s.steps[1];
  }

  // ---- The device, as its methods change it ----

  class Device {
    const hotp: int -> string
    const limit: nat
    const cooloff: nat
    var confirmed: bool
    var lastUsed: int
    var failedAttempts: nat
    var lockedUntil: Option<int>
    // Unused recovery codes, by hash; a used code's row stays, but can never be used again.
    var unused: set<string>
    // Every accepted time step and, since they were last replaced, every spent recovery code.
    ghost var steps: seq<int>
    ghost var spent: seq<string>

    ghost function View(): State
      reads this
    {
      State(confirmed, lastUsed, Counter(failedAttempts, lockedUntil), unused, steps, spent)
    }

    ghost predicate Valid()
      reads this
    {
      0 < limit && 0 < cooloff && Sound(View(), limit)
    }

    constructor (hotp: int -> string, limit: nat, cooloff: nat)
      requires 0 < limit && 0 < cooloff
      ensures Valid() && View() == NewDevice
      ensures this.hotp == hotp && this.limit == limit && this.cooloff == cooloff
    {
      this.hotp, this.limit, this.cooloff := hotp, limit, cooloff;
      confirmed, lastUsed, failedAttempts, lockedUntil := false, 0, 0, None;
      unused, steps, spent := {}, [], [];
    }

    /** Every earlier recovery code is invalidated; ten fresh ones take their place. */
    method ReplaceRecoveryCodes(codes: set<string>)
      requires |codes| == RECOVERY_CODE_COUNT
      modifies this`unused, this`spent
      ensures View() == After(hotp, limit, cooloff, old(View()), NewCodes(codes))
      ensures unused == codes && spent == []
      ensures old(Valid()) ==> Valid()
    {
      unused := {};
      unused := unused + codes;
      spent := [];
    }

    /** A matching code confirms the device, again if it already was, and hands out recovery codes. */
    method Confirm(code: string, clock: int, codes: set<string>) returns (confirmedNow: bool)
      requires Valid() && |codes| == RECOVERY_CODE_COUNT
      modifies this
      ensures Valid() && View() == After(hotp, limit, cooloff, old(View()), Setup(code, clock, codes))
      ensures confirmedNow <==> Fresh(hotp, code, 0, clock)
      ensures !confirmedNow ==> unchanged(this)
      ensures confirmedNow ==>
                && confirmed && unused == codes && spent == [] && steps == old(steps) + [lastUsed]
                && Matches(hotp, code, 0, clock / PERIOD_SECONDS, lastUsed)
                && (Increasing(steps) <==> Increasing(old(steps)) && lastUsed > old(lastUsed))
    {
      EventKeepsSound(hotp, limit, cooloff, View(), Setup(code, clock, codes));
      var counter := MatchCounter(hotp, code, 0, clock);
      if counter.None? {
        return false;
      }
      StepAppended(steps, counter.value);
      confirmed := true;
      lastUsed := counter.value;
      steps := steps + [counter.value];
      ReplaceRecoveryCodes(codes);
      confirmedNow := true;
    }

    /**
     One attempt. A step is accepted only once and only after every earlier one; a recovery code
     only while unused; a wrong code counts towards the lockout; a locked device does not look.
     */
    method Check(typed: Typed, clock: int, now: int) returns (outcome: Outcome)
      requires Valid()
      modifies this
      ensures Valid() && View() == After(hotp, limit, cooloff, old(View()), Attempt(typed, clock, now))
      // Which outcome it is, from what the rows say before the call.
      ensures var locked := old(lockedUntil).Some? && old(lockedUntil).value > now;
              var recovery := typed.recoveryLength == RECOVERY_CODE_LENGTH && typed.recoveryHash in old(unused);
              outcome == (if !old(confirmed) then Rejected
                          else if locked then Locked
                          else if Fresh(hotp, typed.digits, old(lastUsed), clock) then Accepted
                          else if recovery then AcceptedRecovery
                          else if old(failedAttempts) + 1 >= limit then Locked
                          else Rejected)
      // What it leaves behind.
      ensures outcome == Accepted ==>
                && steps == old(steps) + [lastUsed] && lastUsed > old(lastUsed)
                && Matches(hotp, typed.digits, old(lastUsed), clock / PERIOD_SECONDS, lastUsed)
                && unused == old(unused) && spent == old(spent)
                && failedAttempts == 0 && lockedUntil == None
      ensures outcome == AcceptedRecovery ==>
                && unused == old(unused) - {typed.recoveryHash}
                && spent == old(spent) + [typed.recoveryHash]
                && steps == old(steps) && lastUsed == old(lastUsed)
                && failedAttempts == 0 && lockedUntil == None
      ensures outcome in {Rejected, Locked} ==>
                steps == old(steps) && lastUsed == old(lastUsed) && unused == old(unused) && spent == old(spent)
      // A refusal while locked, or without a device, changes nothing at all.
      ensures !old(confirmed) || LockedAt(old(lockedUntil), now) ==> unchanged(this)
      // A wrong code that was looked at is counted, and the one that reaches the limit locks the device.
      ensures old(confirmed) && !LockedAt(old(lockedUntil), now) && outcome == Rejected ==>
                failedAttempts == old(failedAttempts) + 1 && lockedUntil == old(lockedUntil)
      ensures old(confirmed) && !LockedAt(old(lockedUntil), now) && outcome == Locked ==>
                failedAttempts == 0 && lockedUntil == Some(now + cooloff)
    {
      EventKeepsSound(hotp, limit, cooloff, View(), Attempt(typed, clock, now));
      if !confirmed {
        return Rejected;
      }
      if lockedUntil.Some? && lockedUntil.value > now {
        return Locked;
      }
      var counter := MatchCounter(hotp, typed.digits, lastUsed, clock);
      var recovery := None;
      if counter.None? && typed.recoveryLength == RECOVERY_CODE_LENGTH && typed.recoveryHash in unused {
        recovery := Some(typed.recoveryHash);
      }
      if counter.None? && recovery.None? {
        outcome := CountWrong(now);
        return;
      }
      failedAttempts := 0;
      lockedUntil := None;
      if counter.Some? {
        lastUsed := counter.value;
        steps := steps + [counter.value];
        return Accepted;
      }
      unused := unused - {recovery.value};
      spent := spent + [recovery.value];
      outcome := AcceptedRecovery;
    }

    method CountWrong(now: int) returns (outcome: Outcome)
      requires Valid()
      modifies this`failedAttempts, this`lockedUntil
      ensures Valid()
      ensures Counter(failedAttempts, lockedUntil)
           == AfterWrong(Counter(old(failedAttempts), old(lockedUntil)), limit, cooloff, now)
      ensures if old(failedAttempts) + 1 >= limit
              then outcome == Locked && failedAttempts == 0 && lockedUntil == Some(now + cooloff)
              else outcome == Rejected && failedAttempts == old(failedAttempts) + 1 && lockedUntil == old(lockedUntil)
    {
      failedAttempts := failedAttempts + 1;
      outcome := Rejected;
      if failedAttempts >= limit {
        failedAttempts := 0;
        lockedUntil := Some(now + cooloff);
        outcome := Locked;
      }
    }
  }

  // ---- How many wrong codes can be looked at ----

  predicate LockedAt(lockedUntil: Option<int>, now: int) {
    lockedUntil.Some? && lockedUntil.value > now
  }

  datatype Counter = Counter(failed: nat, lockedUntil: Option<int>)

  function AfterWrong(c: Counter, limit: nat, cooloff: nat, now: int): Counter {
    if c.failed + 1 >= limit then Counter(0, Some(now + cooloff)) else Counter(c.failed + 1, c.lockedUntil)
  }

  /** The counter after wrong codes typed at these moments; those typed while locked change nothing. */
  function AfterAttempts(c: Counter, limit: nat, cooloff: nat, times: seq<int>): Counter
    decreases |times|
  {
    if times == [] then c
    else if LockedAt(c.lockedUntil, times[0]) then AfterAttempts(c, limit, cooloff, times[1..])
    else AfterAttempts(AfterWrong(c, limit, cooloff, times[0]), limit, cooloff, times[1..])
  }

  /** How many of them were looked at rather than refused. */
  function Evaluated(c: Counter, limit: nat, cooloff: nat, times: seq<int>): nat
    decreases |times|
  {
    if times == [] then 0
    else if LockedAt(c.lockedUntil, times[0]) then Evaluated(c, limit, cooloff, times[1..])
    else 1 + Evaluated(AfterWrong(c, limit, cooloff, times[0]), limit, cooloff, times[1..])
  }

  ghost predicate InOrder(times: seq<int>, from: int, to: int) {
    && (forall i :: 0 <= i < |times| ==> from <= times[i] <= to)
    && (forall i, j :: 0 <= i < j < |times| ==> times[i] <= times[j])
  }

  /** The first moment from which the device looks at codes again. */
  function OpenFrom(c: Counter, from: int): int {
    if LockedAt(c.lockedUntil, from) then c.lockedUntil.value else from
  }

  /** The most wrong codes looked at in a span: a limit's worth at once, and again after each cooloff. */
  function Most(limit: nat, cooloff: nat, span: int): int
    requires cooloff > 0
  {
    limit * (span / cooloff + 1)
  }

  /** Room left for wrong codes up to a moment. */
  function Room(c: Counter, limit: nat, cooloff: nat, from: int, to: int): int
    requires cooloff > 0
  {
    var start := OpenFrom(c, from);
    if start > to then 0 else Most(limit, cooloff, to - start) - c.failed
  }

  lemma LongerSpanMoreRoom(limit: nat, a: int, b: int, cooloff: nat)
    requires cooloff > 0 && a <= b
    ensures Most(limit, cooloff, a) <= Most(limit, cooloff, b)
    ensures a >= 0 ==> Most(limit, cooloff, a) >= limit
  {
    var x, y := a / cooloff, b / cooloff;
    if a < b { Money.QuotientsOrder(a, b, cooloff); }
    Money.MulMonotone(x + 1, y + 1, limit);
    if a >= 0 {
      Money.QuotientPositive(a, cooloff);
      Money.MulMonotone(1, x + 1, limit);
    }
  }

  /** A lockout uses up a whole cooloff, and with it one limit's worth of attempts. */
  lemma LockUsesACooloff(limit: nat, span: int, cooloff: nat)
    requires cooloff > 0
    ensures Most(limit, cooloff, span - cooloff) == Most(limit, cooloff, span) - limit
  {
    var q, r := span / cooloff, span % cooloff;
    var whole := q * cooloff;
    assert span == whole + r && (q - 1) * cooloff == whole - cooloff;
    Money.DivModOf(span - cooloff, cooloff, q - 1, r);
    assert limit * (q - 1 + 1) == limit * (q + 1) - limit;
  }

  lemma RoomIsNotNegative(c: Counter, limit: nat, cooloff: nat, from: int, to: int)
    requires c.failed < limit && cooloff > 0
    ensures Room(c, limit, cooloff, from, to) >= 0
    ensures OpenFrom(c, from) <= to ==> Room(c, limit, cooloff, from, to) >= limit - c.failed
  {
    if OpenFrom(c, from) <= to { LongerSpanMoreRoom(limit, 0, to - OpenFrom(c, from), cooloff); }
  }

  lemma WaitingGivesNoRoom(c: Counter, limit: nat, cooloff: nat, from: int, later: int, to: int)
    requires c.failed < limit && cooloff > 0 && from <= later
    ensures Room(c, limit, cooloff, later, to) <= Room(c, limit, cooloff, from, to)
  {
    RoomIsNotNegative(c, limit, cooloff, from, to);
    var a, b := OpenFrom(c, from), OpenFrom(c, later);
    assert a <= b;
    if b <= to { LongerSpanMoreRoom(limit, to - b, to - a, cooloff); }
  }

  lemma WrongCodeUsesRoom(c: Counter, limit: nat, cooloff: nat, now: int, to: int)
    requires c.failed < limit && cooloff > 0 && !LockedAt(c.lockedUntil, now) && now <= to
    ensures Room(AfterWrong(c, limit, cooloff, now), limit, cooloff, now, to) + 1 <= Room(c, limit, cooloff, now, to)
  {
    RoomIsNotNegative(c, limit, cooloff, now, to);
    LockUsesACooloff(limit, to - now, cooloff);
    assert to - (now + cooloff) == to - now - cooloff;
  }

  lemma {:induction false} EvaluatedWithinRoom(
    c: Counter, limit: nat, cooloff: nat, times: seq<int>, from: int, to: int)
    requires c.failed < limit && cooloff > 0 && InOrder(times, from, to)
    ensures Evaluated(c, limit, cooloff, times) <= Room(c, limit, cooloff, from, to)
    ensures AfterAttempts(c, limit, cooloff, times).failed < limit
    decreases |times|
  {
    if times == [] {
      RoomIsNotNegative(c, limit, cooloff, from, to);
    } else {
      var t, rest := times[0], times[1..];
      assert InOrder(rest, t, to);
      WaitingGivesNoRoom(c, limit, cooloff, from, t, to);
      if LockedAt(c.lockedUntil, t) {
        EvaluatedWithinRoom(c, limit, cooloff, rest, t, to);
      } else {
        EvaluatedWithinRoom(AfterWrong(c, limit, cooloff, t), limit, cooloff, rest, t, to);
        WrongCodeUsesRoom(c, limit, cooloff, t, to);
      }
    }
  }

  lemma RoomAtMost(c: Counter, limit: nat, cooloff: nat, from: int, to: int)
    requires c.failed < limit && cooloff > 0 && from <= to
    ensures Room(c, limit, cooloff, from, to) <= Most(limit, cooloff, to - from)
  {
    LongerSpanMoreRoom(limit, 0, to - from, cooloff);
    var start := OpenFrom(c, from);
    if start <= to { LongerSpanMoreRoom(limit, to - start, to - from, cooloff); }
  }

  /**
   With a clock that does not go back and no accepted code, the wrong codes looked at within any
   span of time are at most limit * (span / cooloff + 1), whatever happened before the span.
   */
  lemma GuessesAreBounded(c: Counter, limit: nat, cooloff: nat, times: seq<int>, from: int, to: int)
    requires c.failed < limit && cooloff > 0 && from <= to && InOrder(times, from, to)
    ensures Evaluated(c, limit, cooloff, times) <= Most(limit, cooloff, to - from)
    ensures AfterAttempts(c, limit, cooloff, times).failed < limit
  {
    EvaluatedWithinRoom(c, limit, cooloff, times, from, to);
    RoomAtMost(c, limit, cooloff, from, to);
  }

  // ---- The bound cannot be lowered ----

  /** A limit's worth of wrong codes at once, each time the lockout ends. */
  function Bursts(limit: nat, cooloff: nat, from: int, more: nat): seq<int>
    decreases more
  {
    seq(limit, _ => from) + if more == 0 then [] else Bursts(limit, cooloff, from + cooloff, more - 1)
  }

  /** Wrong codes typed at one moment are all looked at until they reach the limit. */
  lemma {:induction false} SameMoment(c: Counter, limit: nat, cooloff: nat, t: int, n: nat, rest: seq<int>)
    requires cooloff > 0 && n > 0 && c.failed + n == limit && !LockedAt(c.lockedUntil, t)
    ensures Evaluated(c, limit, cooloff, seq(n, _ => t) + rest)
         == n + Evaluated(Counter(0, Some(t + cooloff)), limit, cooloff, rest)
    decreases n
  {
    var times := seq(n, _ => t) + rest;
    assert times[1..] == seq(n - 1, _ => t) + rest;
    if n > 1 {
      SameMoment(AfterWrong(c, limit, cooloff, t), limit, cooloff, t, n - 1, rest);
    } else {
      assert times[1..] == rest;
    }
  }

  lemma {:induction false} BurstsAreInOrder(limit: nat, cooloff: nat, from: int, more: nat, span: int)
    requires span == more * cooloff
    ensures InOrder(Bursts(limit, cooloff, from, more), from, from + span)
    decreases more
  {
    if more > 0 {
      assert (more - 1) * cooloff == span - cooloff;
      Money.MulMonotone(0, more - 1, cooloff);
      BurstsAreInOrder(limit, cooloff, from + cooloff, more - 1, span - cooloff);
    }
  }

  lemma {:induction false} BurstsAreEvaluated(limit: nat, cooloff: nat, from: int, more: nat, total: int)
    requires 0 < limit && 0 < cooloff && total == limit * (more + 1)
    ensures Evaluated(Counter(0, Some(from)), limit, cooloff, Bursts(limit, cooloff, from, more)) == total
    decreases more
  {
    var rest := if more == 0 then [] else Bursts(limit, cooloff, from + cooloff, more - 1);
    SameMoment(Counter(0, Some(from)), limit, cooloff, from, limit, rest);
    if more > 0 {
      assert limit * more == total - limit;
      BurstsAreEvaluated(limit, cooloff, from + cooloff, more - 1, total - limit);
    }
  }

  /** Bursts spread over exactly so many cooloffs reach the bound, so it is the best there is. */
  lemma BurstsReachTheBound(limit: nat, cooloff: nat, from: int, more: nat)
    requires 0 < limit && 0 < cooloff
    ensures var span, times := more * cooloff, Bursts(limit, cooloff, from, more);
            && InOrder(times, from, from + span)
            && Evaluated(Counter(0, Some(from)), limit, cooloff, times) == Most(limit, cooloff, span)
  {
    var span := more * cooloff;
    BurstsAreInOrder(limit, cooloff, from, more, span);
    BurstsAreEvaluated(limit, cooloff, from, more, limit * (more + 1));
    Money.DivModOf(span, cooloff, more, 0);
  }
}

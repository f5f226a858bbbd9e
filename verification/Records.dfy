/**
 Payments a provider reports: stored once per provider ID, voided when refunded.

 A record names an invoice by the number on its link; which invoice that is comes from a
 look-up over the stored numbers and is given here.
 */
module Records {
  import opened Wrappers
  import opened Money
  import opened Calendar
  import opened Ledger
  import opened Links
  import opened Books
  import opened Effects
  import BillingService

  datatype RecordStatus = Complete | Refunded | PartiallyRefunded | OtherStatus

  /** The amount is num/den cents, and the account is empty when the provider did not say. */
  datatype Record = Record(source: ProviderId, status: RecordStatus, num: int, den: int, account: Option<Account>)

  datatype Note = NoNote | PartlyRefunded | Unmatched | NeedsReview | NotRecorded

  // ---- Stripe's units ----

  /** Cents as the processor's smallest unit: whole units for currencies without cents. */
  function MinorUnits(cents: int, zeroDecimal: bool): int {
    if zeroDecimal then RoundHalfEven(cents, 100) else cents
  }

  function MajorUnits(minor: int, zeroDecimal: bool): int {
    if zeroDecimal then minor * 100 else minor
  }

  function RoundHalfEven(num: int, den: int): (n: int)
    requires den > 0
    ensures 2 * Abs(num - n * den) <= den
    ensures 2 * Abs(num - n * den) == den ==> n % 2 == 0
  {
    var q, r := num / den, num % den;
    assert num == q * den + r && (q + 1) * den == q * den + den;
    if 2 * r < den || (2 * r == den && q % 2 == 0) then q else q + 1
  }

  /** The processor is asked in its own units: the nearest whole unit where there are no cents. */
  lemma UnitsAreNearest(cents: int, zeroDecimal: bool)
    ensures var minor := MinorUnits(cents, zeroDecimal);
            if zeroDecimal then 2 * Abs(cents - 100 * minor) <= 100 && MajorUnits(minor, true) == 100 * minor
            else minor == cents && MajorUnits(minor, false) == minor
  {}

  /** An amount comes back as it was sent exactly when the currency can express it. */
  lemma UnitsRoundTrip(cents: int, zeroDecimal: bool)
    ensures MajorUnits(MinorUnits(cents, zeroDecimal), zeroDecimal) == cents
       <==> !zeroDecimal || cents % 100 == 0
  {}

  // ---- Storing one record ----

  /** Which account a payment goes to; unknown when it could be either and trust is involved. */
  function DepositAccount(record: Record, inv: Invoice): Option<Account> {
    if record.account.Some? then record.account
    else if exists l | l in inv.lines :: l.funds == Advance then None
    else Some(Operating)
  }

  /** The row that holds a provider's payment, if there is one. */
  ghost predicate StoredAt(s: Store, source: ProviderId, id: nat, i: nat) {
    SourceAt(s, id, i, source)
  }

  /** What storing a record should do: one ledger event, or nothing. */
  ghost predicate Stores(s: Store, record: Record, named: Option<nat>, t: Store)
    requires record.den > 0
  {
    match record.status
    case Complete =>
      if Recorded(s, record.source) || named.None? || named.value !in s.invoices
         || DepositAccount(record, s.invoices[named.value]).None?
      then t == s
      else t == After(s, Change(named.value, PayFor(record, s.invoices[named.value])))
    case Refunded =>
      && (Recorded(s, record.source) ==>
            exists id: nat, i: nat :: StoredAt(s, record.source, id, i)
                                      && t == After(s, Change(id, VoidPayment(i, true))))
      && (!Recorded(s, record.source) ==> t == s)
    case _ => t == s
  }

  function PayFor(record: Record, inv: Invoice): Op
    requires record.den > 0 && DepositAccount(record, inv).Some?
  {
    Pay(RoundHalfUp(record.num, record.den), DepositAccount(record, inv).value, Some(record.source))
  }

  /** A live payment is stored under the provider's ID. */
  ghost predicate LiveUnder(s: Store, source: ProviderId) {
    exists id: nat, i: nat :: StoredAt(s, source, id, i) && !s.invoices[id].payments[i].voided
  }

  /** The provider did not say where the money went, and some of it may belong in trust. */
  ghost predicate Unclear(record: Record, inv: Invoice) {
    record.account.None? && exists l :: l in inv.lines && l.funds == Advance
  }

  /** A payment goes where the provider says, and otherwise into operating if nothing belongs in trust. */
  lemma DepositIsClear(record: Record, inv: Invoice)
    ensures DepositAccount(record, inv).None? <==> Unclear(record, inv)
    ensures !Unclear(record, inv) ==>
              DepositAccount(record, inv) == Some(if record.account.Some? then record.account.value else Operating)
  {}

  /** The rows after a record, field by field: a payment taken, a payment voided, or nothing changed. */
  ghost predicate Kept(s: Store, record: Record, named: Option<nat>, t: Store)
    requires record.den > 0
  {
    if record.status == Complete && !Recorded(s, record.source) && named.Some? && named.value in s.invoices
       && !Unclear(record, s.invoices[named.value])
    then
      var inv, amount := s.invoices[named.value], RoundHalfUp(record.num, record.den);
      var account := if record.account.Some? then record.account.value else Operating;
      if (inv.status == Issued || inv.status == PartiallyPaid)
         && 0 < amount <= Subtotal(inv.lines) - AmountPaid(inv.payments)
      then
        && named.value in t.invoices && OthersSame(s.invoices, t.invoices, named.value)
        && PaymentTaken(inv, t.invoices[named.value], amount, account, Some(record.source))
      else t == s
    else if record.status == Refunded && LiveUnder(s, record.source) then
      exists id: nat, i: nat ::
        && StoredAt(s, record.source, id, i) && id in t.invoices && OthersSame(s.invoices, t.invoices, id)
        && PaymentVoided(s.invoices[id], t.invoices[id], i)
    else t == s
  }

  /** Storing a record does to the rows what it should, field by field. */
  lemma StoringKeeps(s: Store, record: Record, named: Option<nat>, t: Store)
    requires Sound(s) && record.den > 0 && Stores(s, record, named, t)
    ensures Kept(s, record, named, t)
  {
    if record.status == Refunded {
      if Recorded(s, record.source) {
        var id: nat, i: nat :| StoredAt(s, record.source, id, i) && t == After(s, Change(id, VoidPayment(i, true)));
        LiveIsAt(s, record.source, id, i);
        RefundKeeps(s, record, id, i, t);
      } else {
        RecordedMeans(s, record.source);
      }
    } else if record.status == Complete && !Recorded(s, record.source) && named.Some? && named.value in s.invoices {
      CompletionKeeps(s, record, named.value, t);
    }
  }

  lemma CompletionKeeps(s: Store, record: Record, named: nat, t: Store)
    requires Sound(s) && record.den > 0 && record.status == Complete && !Recorded(s, record.source)
    requires named in s.invoices && Stores(s, record, Some(named), t)
    ensures Kept(s, record, Some(named), t)
  {
    var inv := s.invoices[named];
    DepositIsClear(record, inv);
    if !Unclear(record, inv) && Allowed(inv, PayFor(record, inv)) {
      PayingTakes(inv, RoundHalfUp(record.num, record.den), DepositAccount(record, inv).value, Some(record.source));
    }
  }

  lemma RefundKeeps(s: Store, record: Record, id: nat, i: nat, t: Store)
    requires Sound(s) && record.den > 0 && record.status == Refunded
    requires StoredAt(s, record.source, id, i) && t == After(s, Change(id, VoidPayment(i, true)))
    requires LiveUnder(s, record.source) <==> !s.invoices[id].payments[i].voided
    ensures Kept(s, record, None, t)
  {
    if !s.invoices[id].payments[i].voided {
      VoidingVoids(s.invoices[id], i);
      assert StoredAt(s, record.source, id, i) && id in t.invoices && OthersSame(s.invoices, t.invoices, id)
             && PaymentVoided(s.invoices[id], t.invoices[id], i);
    }
  }

  /** What is left for staff to look at: a partial refund, or a payment that could not be recorded. */
  ghost predicate Leaves(s: Store, record: Record, named: Option<nat>, note: Note)
    requires record.den > 0
  {
    var new_ := record.status == Complete && !Recorded(s, record.source);
    var known := named.Some? && named.value in s.invoices;
    && (note == PartlyRefunded <==> record.status == PartiallyRefunded && LiveUnder(s, record.source))
    && (note == Unmatched <==> new_ && !known)
    && (note == NeedsReview <==> new_ && known && Unclear(record, s.invoices[named.value]))
    && (note == NotRecorded <==>
          && new_ && known && !Unclear(record, s.invoices[named.value])
          && var inv := s.invoices[named.value];
             !((inv.status == Issued || inv.status == PartiallyPaid)
               && 0 < RoundHalfUp(record.num, record.den) <= Subtotal(inv.lines) - AmountPaid(inv.payments)))
  }

  lemma LiveIsAt(s: Store, source: ProviderId, id: nat, i: nat)
    requires Sound(s) && StoredAt(s, source, id, i)
    ensures LiveUnder(s, source) <==> !s.invoices[id].payments[i].voided
  {}

  /** The payment stored for a provider's ID: where it is, if anywhere. */
  method FindPayment(firm: BillingService.Firm, source: ProviderId) returns (found: Option<(nat, nat)>)
    ensures found.None? <==> !Recorded(firm.View(), source)
    ensures found.Some? ==> StoredAt(firm.View(), source, found.value.0, found.value.1)
  {
    var s := firm.View();
    var ids := s.invoices.Keys;
    while ids != {}
      invariant ids <= s.invoices.Keys
      invariant forall id: nat, i :: id !in ids ==> !SourceAt(s, id, i, source)
      decreases ids
    {
      var id :| id in ids;
      var payments := s.invoices[id].payments;
      for n := 0 to |payments|
        invariant forall i :: 0 <= i < n ==> payments[i].source != Some(source)
      {
        if payments[n].source == Some(source) {
          assert SourceAt(s, id, n, source);
          RecordedMeans(s, source);
          return Some((id, n));
        }
      }
      ids := ids - {id};
    }
    RecordedMeans(s, source);
    found := None;
  }

  method StoreOne(firm: BillingService.Firm, record: Record, named: Option<nat>, today: Date) returns (note: Note)
    requires firm.Valid() && record.den > 0
    requires named.Some? ==> named.value in firm.invoices
    modifies firm`invoices
    ensures firm.Valid()
    ensures Stores(old(firm.View()), record, named, firm.View())
    ensures Leaves(old(firm.View()), record, named, note)
    ensures Kept(old(firm.View()), record, named, firm.View())
  {
    var existing := FindPayment(firm, record.source);
    RecordedMeans(firm.View(), record.source);
    if existing.Some? { LiveIsAt(firm.View(), record.source, existing.value.0, existing.value.1); }
    note := NoNote;
    if record.status == Refunded {
      if existing.Some? {
        var id, i := existing.value.0, existing.value.1;
        if !firm.invoices[id].payments[i].voided {
          var _ := firm.VoidPayment(id, i, true, today);
        } else {
          assert !Permitted(firm.View(), Change(id, VoidPayment(i, true)));
        }
        assert firm.View() == After(old(firm.View()), Change(id, VoidPayment(i, true)));
      }
      return;
    }
    if record.status == PartiallyRefunded {
      if existing.Some? && !firm.invoices[existing.value.0].payments[existing.value.1].voided {
        note := PartlyRefunded;
      }
      return;
    }
    if record.status != Complete || existing.Some? {
      return;
    }
    if named.None? {
      return Unmatched;
    }
    var account := DepositAccount(record, firm.invoices[named.value]);
    if account.None? {
      return NeedsReview;
    }
    var r := firm.RecordPayment(named.value, record.num, record.den, account.value, Some(record.source), today);
    if r.Failure? {
      note := NotRecorded;
    }
  }

  // ---- What a run of records keeps ----

  lemma StoringKeepsSound(s: Store, record: Record, named: Option<nat>, t: Store)
    requires Sound(s) && record.den > 0 && Stores(s, record, named, t)
    ensures Sound(t)
  {
    if record.status == Complete && !Recorded(s, record.source) && named.Some? && named.value in s.invoices
       && DepositAccount(record, s.invoices[named.value]).Some? {
      EventKeepsSound(s, Change(named.value, PayFor(record, s.invoices[named.value])));
    } else if record.status == Refunded && Recorded(s, record.source) {
      var id: nat, i: nat :| StoredAt(s, record.source, id, i) && t == After(s, Change(id, VoidPayment(i, true)));
      EventKeepsSound(s, Change(id, VoidPayment(i, true)));
    }
  }

  /** A run of records, each storing from where the last one left off. */
  ghost predicate StoresAll(states: seq<Store>, records: seq<Record>, named: seq<Option<nat>>) {
    && |states| == |records| + 1 && |named| == |records|
    && forall n :: 0 <= n < |records| ==>
         records[n].den > 0 && Stores(states[n], records[n], named[n], states[n + 1])
  }

  lemma {:induction false} SoundAlong(states: seq<Store>, records: seq<Record>, named: seq<Option<nat>>, n: nat)
    requires StoresAll(states, records, named) && Sound(states[0]) && n <= |records|
    ensures Sound(states[n])
  {
    if n > 0 {
      SoundAlong(states, records, named, n - 1);
      StoringKeepsSound(states[n - 1], records[n - 1], named[n - 1], states[n]);
    }
  }

  /** Over any sequence of records every provider ID has at most one payment. */
  lemma OnePaymentPerProviderId(states: seq<Store>, records: seq<Record>, named: seq<Option<nat>>, n: nat)
    requires StoresAll(states, records, named) && Sound(states[0]) && n <= |records|
    ensures forall a, i, b, j, source ::
              SourceAt(states[n], a, i, source) && SourceAt(states[n], b, j, source) ==> a == b && i == j
  {
    SoundAlong(states, records, named, n);
  }

  lemma StoringOnlyVoids(s: Store, record: Record, named: Option<nat>, t: Store, id: nat)
    requires record.den > 0 && Stores(s, record, named, t) && id in s.invoices
    ensures id in t.invoices && OnlyVoided(s.invoices[id].payments, t.invoices[id].payments)
  {
    forall op ensures OnlyVoided(s.invoices[id].payments, Step(s.invoices[id], op).payments) {
      RunOne(s.invoices[id], op);
      PaymentsAreKept(s.invoices[id], [op]);
    }
    if record.status == Refunded && Recorded(s, record.source) {
      var a: nat, i: nat :| StoredAt(s, record.source, a, i) && t == After(s, Change(a, VoidPayment(i, true)));
      assert t.invoices.Keys == s.invoices.Keys;
    }
  }

  /** A void payment stays void, and stays the same payment, whatever is stored later. */
  lemma {:induction false} VoidStaysVoid(
    states: seq<Store>, records: seq<Record>, named: seq<Option<nat>>, m: nat, n: nat, id: nat, i: nat)
    requires StoresAll(states, records, named) && m <= n <= |records|
    requires id in states[m].invoices && i < |states[m].invoices[id].payments|
    requires states[m].invoices[id].payments[i].voided
    ensures id in states[n].invoices && i < |states[n].invoices[id].payments|
    ensures states[n].invoices[id].payments[i] == states[m].invoices[id].payments[i]
  {
    if m < n {
      VoidStaysVoid(states, records, named, m, n - 1, id, i);
      StoringOnlyVoids(states[n - 1], records[n - 1], named[n - 1], states[n], id);
    }
  }

  lemma CompletingTwice(s: Store, record: Record, named: Option<nat>, t: Store)
    requires record.den > 0 && record.status == Complete && Stores(s, record, named, t) && t != s
    ensures Recorded(t, record.source)
  {
    var inv := s.invoices[named.value];
    PayingAddsSource(inv, PayFor(record, inv));
    assert SourceAt(t, named.value, |inv.payments|, record.source);
    RecordedMeans(t, record.source);
  }

  lemma RefundVoids(s: Store, source: ProviderId, id: nat, i: nat, t: Store)
    requires Sound(s) && StoredAt(s, source, id, i) && t == After(s, Change(id, VoidPayment(i, true)))
    ensures StoredAt(t, source, id, i) && t.invoices[id].payments[i].voided
  {}

  lemma RefundOfVoid(t: Store, record: Record, named: Option<nat>, id: nat, i: nat, u: Store)
    requires Sound(t) && record.den > 0 && record.status == Refunded && Stores(t, record, named, u)
    requires StoredAt(t, record.source, id, i) && t.invoices[id].payments[i].voided
    ensures u == t
  {
    RecordedMeans(t, record.source);
    var id': nat, i': nat :| StoredAt(t, record.source, id', i') && u == After(t, Change(id', VoidPayment(i', true)));
    assert id' == id && i' == i;
  }

  lemma RefundingTwice(s: Store, record: Record, named: Option<nat>, t: Store, u: Store)
    requires Sound(s) && Sound(t) && record.den > 0 && record.status == Refunded && Recorded(s, record.source)
    requires Stores(s, record, named, t) && Stores(t, record, named, u)
    ensures u == t
  {
    var id: nat, i: nat :| StoredAt(s, record.source, id, i) && t == After(s, Change(id, VoidPayment(i, true)));
    RefundVoids(s, record.source, id, i, t);
    RefundOfVoid(t, record, named, id, i, u);
  }

  /** Storing the same record twice in a row is the same as storing it once. */
  lemma StoringTwiceIsStoringOnce(s: Store, record: Record, named: Option<nat>, t: Store, u: Store)
    requires Sound(s) && record.den > 0
    requires Stores(s, record, named, t) && Stores(t, record, named, u)
    ensures u == t
  {
    StoringKeepsSound(s, record, named, t);
    if record.status == Complete && t != s { CompletingTwice(s, record, named, t); }
    if record.status == Refunded && Recorded(s, record.source) { RefundingTwice(s, record, named, t, u); }
  }

  ghost predicate VoidAt(s: Store, id: nat, i: nat) {
    id in s.invoices && i < |s.invoices[id].payments| && s.invoices[id].payments[i].voided
  }

  lemma StoringVoidsExactly(s: Store, record: Record, named: Option<nat>, t: Store, source: ProviderId, id: nat, i: nat)
    requires Sound(s) && record.den > 0 && Stores(s, record, named, t) && StoredAt(s, source, id, i)
    ensures StoredAt(t, source, id, i)
    ensures VoidAt(t, id, i) <==> VoidAt(s, id, i) || Refunds(record, source)
  {
    RecordedMeans(s, source);
    if record.status == Refunded && Recorded(s, record.source) {
      var a: nat, j: nat :| StoredAt(s, record.source, a, j) && t == After(s, Change(a, VoidPayment(j, true)));
      VoidingVoidsOne(s, a, j, id, i);
    } else if t != s {
      var inv := s.invoices[named.value];
      PayingAddsSource(inv, PayFor(record, inv));
    }
  }

  lemma VoidingVoidsOne(s: Store, a: nat, j: nat, id: nat, i: nat)
    requires a in s.invoices && j < |s.invoices[a].payments| && id in s.invoices && i < |s.invoices[id].payments|
    ensures var t := After(s, Change(a, VoidPayment(j, true)));
            && id in t.invoices && i < |t.invoices[id].payments|
            && t.invoices[id].payments[i] == s.invoices[id].payments[i].(voided :=
                 s.invoices[id].payments[i].voided || (id == a && i == j))
  {}

  predicate Refunds(record: Record, source: ProviderId) {
    record.status == Refunded && record.source == source
  }

  lemma StoringOneVoidsExactly(
    states: seq<Store>, records: seq<Record>, named: seq<Option<nat>>, n: nat, source: ProviderId, id: nat, i: nat)
    requires StoresAll(states, records, named) && Sound(states[0]) && n < |records|
    requires StoredAt(states[n], source, id, i)
    ensures StoredAt(states[n + 1], source, id, i)
    ensures VoidAt(states[n + 1], id, i) <==> VoidAt(states[n], id, i) || Refunds(records[n], source)
  {
    SoundAlong(states, records, named, n);
    StoringVoidsExactly(states[n], records[n], named[n], states[n + 1], source, id, i);
  }

  ghost predicate RefundedBetween(records: seq<Record>, source: ProviderId, m: nat, n: nat)
    requires m <= n <= |records|
  {
    exists k :: m <= k < n && Refunds(records[k], source)
  }

  lemma OneRecordMore(records: seq<Record>, source: ProviderId, m: nat, n: nat)
    requires m <= n < |records|
    ensures RefundedBetween(records, source, m, n + 1)
       <==> RefundedBetween(records, source, m, n) || Refunds(records[n], source)
  {}

  /**
   A stored payment is void after any later records exactly when it was before, or one of them was
   its refund: a refund takes effect when, and only when, it comes after its payment was stored.
   */
  lemma {:induction false} RefundedExactly(
    states: seq<Store>, records: seq<Record>, named: seq<Option<nat>>, m: nat, n: nat,
    source: ProviderId, id: nat, i: nat)
    requires StoresAll(states, records, named) && Sound(states[0]) && m <= n <= |records|
    requires StoredAt(states[m], source, id, i)
    ensures StoredAt(states[n], source, id, i)
    ensures VoidAt(states[n], id, i) <==> VoidAt(states[m], id, i) || RefundedBetween(records, source, m, n)
  {
    if m < n {
      RefundedExactly(states, records, named, m, n - 1, source, id, i);
      StoringOneVoidsExactly(states, records, named, n - 1, source, id, i);
      OneRecordMore(records, source, m, n - 1);
    }
  }

  /**
   Order matters between different records: a refund that arrives before its payment finds
   nothing to void, and the payment recorded afterwards stays live.
   */
  lemma EarlyRefundIsLost(s: Store, paid: Record, refund: Record, named: nat, t: Store, u: Store)
    requires Sound(s) && paid.den > 0 && refund.den > 0
    requires paid.status == Complete && refund.status == Refunded && refund.source == paid.source
    requires !Recorded(s, paid.source) && named in s.invoices
    requires DepositAccount(paid, s.invoices[named]).Some?
    requires Permitted(s, Change(named, PayFor(paid, s.invoices[named])))
    requires Stores(s, refund, Some(named), t) && Stores(t, paid, Some(named), u)
    ensures var last := |s.invoices[named].payments|;
            && SourceAt(u, named, last, paid.source)
            && !u.invoices[named].payments[last].voided
  {}

  /** Paying an account more or less than it asks for leaves that account or the other as it should not be. */
  lemma OnlyAskedSettles(inv: Invoice, account: Account, amount: int, source: Option<ProviderId>)
    requires Consistent(inv) && Asked(inv, account) > 0 && amount != Asked(inv, account)
    ensures var after := Step(inv, Pay(amount, account, source));
            !(Asked(after, account) == 0 && Asked(after, OtherAccount(account)) == Asked(inv, OtherAccount(account)))
  {
    UnpaidIsBalance(inv, account);
    if Allowed(inv, Pay(amount, account, source)) { PaymentArrives(inv, amount, account, source); }
  }

  /** A completed record for a link's amount, as it comes back through the processor's units. */
  function CompletedRecord(link: Link, zeroDecimal: bool, source: ProviderId): Record {
    Record(source, Complete, MajorUnits(MinorUnits(link.amount, zeroDecimal), zeroDecimal), 1, Some(link.account))
  }

  /**
   A link that is current when the record of its completed payment arrives: that account is settled
   and the other account's due does not move exactly when the currency can express the amount.
   */
  lemma CompletedLinkSettlesItsAccount(
    s: Store, link: Link, named: nat, zeroDecimal: bool, source: ProviderId, t: Store)
    requires Sound(s) && named in s.invoices && !Recorded(s, source)
    requires link.amount == Asked(s.invoices[named], link.account) > 0
    requires Stores(s, CompletedRecord(link, zeroDecimal, source), Some(named), t)
    ensures var before, after := s.invoices[named], t.invoices[named];
            (Asked(after, link.account) == 0
             && Asked(after, OtherAccount(link.account)) == Asked(before, OtherAccount(link.account)))
            <==> !zeroDecimal || link.amount % 100 == 0
  {
    var record, inv := CompletedRecord(link, zeroDecimal, source), s.invoices[named];
    UnitsRoundTrip(link.amount, zeroDecimal);
    WholeCents(record.num);
    StoringIsPaying(s, record, named, t);
    if record.num == link.amount {
      PayingOneLink(inv, link.account, Some(source));
    } else {
      OnlyAskedSettles(inv, link.account, record.num, Some(source));
    }
  }

  lemma StoringIsPaying(s: Store, record: Record, named: nat, t: Store)
    requires named in s.invoices && !Recorded(s, record.source) && record.status == Complete && record.den == 1
    requires record.account.Some? && Stores(s, record, Some(named), t)
    ensures t.invoices[named] == Step(s.invoices[named], Pay(record.num, record.account.value, Some(record.source)))
  {
    WholeCents(record.num);
  }
}

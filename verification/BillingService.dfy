/**
 The billing services, working on the firm's tables.

 Each method is one atomic step of the ledger: it reads an invoice's row, changes its fields
 one after another, and saves the row. It does exactly what the ledger's event says, and it
 refuses, with the state unchanged, exactly when the event is not permitted.
 */
module BillingService {
  import opened Wrappers
  import opened Money
  import opened Calendar
  import opened Ledger
  import opened Plans
  import opened Effects
  import Books

  datatype Refusal =
    | NotDraft | NothingToBill | NumberInUse
    | NotOpen | AmountNotPositive | MoreThanBalance | AlreadyRecorded
    | AlreadyVoid | ReasonNeeded | HasPayments
    | NoBalance | AlreadyPlanned | BadCount | PastDate | NoAddress | AlreadyCanceled | NotActive
    | NoRate | TimeAlreadyBilled

  datatype TimeEntry = TimeEntry(id: nat, microseconds: nat, user: nat)

  // ---- Billed time ----

  const TOLERANCE := 1_000_000_000

  function CeilingDiv(num: int, den: int): (n: int)
    requires den > 0
    ensures n * den >= num && (n - 1) * den < num
  {
    var q := -((-num) / den);
    assert -num == ((-num) / den) * den + (-num) % den;
    assert q * den == -(((-num) / den) * den);
    assert (q - 1) * den == q * den - den;
    q
  }

  /** Increments covering the time, all but a billionth of one; at least one. */
  function BilledIncrements(microseconds: nat, increment: int): (n: int)
    requires increment > 0
    ensures n >= 1
    ensures n * (60 * increment * TOLERANCE) >= microseconds * 1000 - 60 * increment
    ensures n > 1 ==> (n - 1) * (60 * increment * TOLERANCE) < microseconds * 1000 - 60 * increment
  {
    var den := 60 * increment * TOLERANCE;
    var n := CeilingDiv(microseconds * 1000 - 60 * increment, den);
    if n >= 1 then n else
      assert n * den <= 1 * den by { MulMonotone(n, 1, den); }
      1
  }

  /** The time in hundredths of an hour, rounded up to the billing increment. */
  function BillableHours(microseconds: nat, increment: int): (hundredths: int)
    requires increment > 0
    ensures hundredths >= 0
    // The nearest hundredth of an hour to the minutes billed; there is never a tie.
    ensures 2 * Abs(60 * hundredths - 100 * (BilledIncrements(microseconds, increment) * increment)) < 60
  {
    var minutes := BilledIncrements(microseconds, increment) * increment;
    assert minutes >= 0 by { MulMonotone(0, BilledIncrements(microseconds, increment), increment); }
    RoundHalfUp(minutes * 5, 3)
  }

  /** One of the entries is on some line of some invoice, or two of them are the same. */
  ghost predicate TimeIsBilled(invoices: map<nat, Invoice>, entries: seq<TimeEntry>) {
    || (exists id, l, e :: id in invoices && l in invoices[id].lines && e in entries && l.timeEntry == Some(e.id))
    || (exists i, j :: 0 <= i < j < |entries| && entries[i].id == entries[j].id)
  }

  lemma NewTimeMeans(s: Books.Store, entries: seq<TimeEntry>, lines: seq<Line>)
    requires |lines| == |entries| && forall i :: 0 <= i < |lines| ==> lines[i].timeEntry == Some(entries[i].id)
    ensures Books.NewTime(s, lines) <==> !TimeIsBilled(s.invoices, entries)
  {
    if Books.NewTime(s, lines) {
      forall id, l, e | id in s.invoices && l in s.invoices[id].lines && e in entries
        ensures l.timeEntry != Some(e.id)
      {
        var i :| 0 <= i < |entries| && entries[i] == e;
        assert lines[i] in lines;
      }
      forall i, j | 0 <= i < j < |entries| ensures entries[i].id != entries[j].id {
        assert lines[i].timeEntry != lines[j].timeEntry;
      }
    }
    if !TimeIsBilled(s.invoices, entries) {
      forall l | l in lines && l.timeEntry.Some? ensures !Books.Billed(s, l.timeEntry.value) {
        var i :| 0 <= i < |lines| && lines[i] == l;
        assert entries[i] in entries;
      }
    }
  }

  class Firm {
    var invoices: map<nat, Invoice>
    var prefix: string
    var year: nat
    var value: nat
    // Hourly rates in cents; a user without one is billed at the firm's default, if there is one.
    var rates: map<nat, int>
    var defaultRate: Option<int>
    var increment: int

    function View(): Books.Store
      reads this
    {
      Books.Store(invoices, prefix, year, value)
    }

    ghost predicate Valid()
      reads this
    {
      Books.Sound(View()) && increment > 0
    }

    constructor (prefix: string, increment: int)
      requires increment > 0
      ensures Valid() && View() == Books.Store(map[], prefix, 0, 0)
    {
      this.invoices, this.prefix, this.year, this.value := map[], prefix, 0, 0;
      this.rates, this.defaultRate, this.increment := map[], None, increment;
    }

    /** The row is saved as a permitted step left it; no other row is touched. */
    method Save(id: nat, inv: Invoice, ghost op: Op)
      requires Valid() && id in invoices && Books.Permitted(View(), Books.Change(id, op))
      requires inv == Step(invoices[id], op)
      modifies this`invoices
      ensures Valid() && View() == Books.After(old(View()), Books.Change(id, op))
      ensures invoices == old(invoices)[id := inv] && OthersSame(old(invoices), invoices, id)
    {
      Books.EventKeepsSound(View(), Books.Change(id, op));
      invoices := invoices[id := inv];
    }

    method CreateInvoice(id: nat)
      requires Valid() && id !in invoices
      modifies this`invoices
      ensures Valid() && View() == Books.After(old(View()), Books.NewDraft(id))
      ensures id in invoices && invoices[id] == NewInvoice
    {
      Books.EventKeepsSound(View(), Books.NewDraft(id));
      invoices := invoices[id := NewInvoice];
    }

    method DeleteDraft(id: nat) returns (r: Result<(), Refusal>)
      requires Valid() && id in invoices
      modifies this`invoices
      ensures Valid() && View() == Books.After(old(View()), Books.DeleteDraft(id))
      ensures r == (if old(invoices)[id].status == Draft then Success(()) else Failure(NotDraft))
      ensures invoices == if old(invoices)[id].status == Draft then old(invoices) - {id} else old(invoices)
    {
      if invoices[id].status != Draft {
        return Failure(NotDraft);
      }
      Books.EventKeepsSound(View(), Books.DeleteDraft(id));
      invoices := invoices - {id};
      r := Success(());
    }

    /** Rate of a staff member, or the firm's default. */
    function HourlyRate(user: nat): (rate: Option<int>)
      reads this
      ensures user in rates ==> rate == Some(rates[user])
      ensures user !in rates ==> rate == defaultRate
    {
      if user in rates then Some(rates[user]) else defaultRate
    }

    predicate AllRated(entries: seq<TimeEntry>)
      reads this
    {
      forall e :: e in entries ==> HourlyRate(e.user).Some?
    }

    /** The line is for this entry: its rounded hours, at its staff member's rate, as an earned fee. */
    ghost predicate Bills(line: Line, entry: TimeEntry)
      reads this
    {
      && increment > 0
      && line.quantity == BillableHours(entry.microseconds, increment)
      && Some(line.unitPrice) == (if entry.user in rates then Some(rates[entry.user]) else defaultRate)
      && line.funds == Earned && line.timeEntry == Some(entry.id)
    }

    method LinesFor(entries: seq<TimeEntry>) returns (lines: seq<Line>)
      requires increment > 0 && AllRated(entries)
      ensures |lines| == |entries| && forall i :: 0 <= i < |entries| ==> Bills(lines[i], entries[i])
    {
      lines := [];
      for n := 0 to |entries|
        invariant |lines| == n
        invariant forall i :: 0 <= i < n ==> Bills(lines[i], entries[i])
      {
        assert entries[n] in entries;
        var rate := HourlyRate(entries[n].user).value;
        lines := lines + [Line(BillableHours(entries[n].microseconds, increment), rate, Earned, Some(entries[n].id))];
      }
    }

    /** Each time entry becomes a line at its staff member's rate; all of them or none. */
    method AddTimeToInvoice(id: nat, entries: seq<TimeEntry>) returns (r: Result<seq<Line>, Refusal>)
      requires Valid() && id in invoices
      modifies this`invoices
      ensures Valid()
      ensures r.Success? ==>
                && OthersSame(old(invoices), invoices, id)
                && invoices[id] == old(invoices)[id].(lines := old(invoices)[id].lines + r.value)
                && |r.value| == |entries| && forall i :: 0 <= i < |entries| ==> Bills(r.value[i], entries[i])
      ensures r.Success? ==>
                && AllRated(entries)
                && Books.Permitted(old(View()), Books.Change(id, AddLines(r.value)))
                && View() == Books.After(old(View()), Books.Change(id, AddLines(r.value)))
      ensures r.Failure? ==> View() == old(View())
      // It is refused for exactly one of three reasons, and otherwise done.
      ensures r == Failure(NotDraft) <==> old(invoices)[id].status != Draft
      ensures r == Failure(NoRate) <==>
                old(invoices)[id].status == Draft && exists e :: e in entries && e.user !in rates && defaultRate.None?
      ensures r == Failure(TimeAlreadyBilled) <==>
                old(invoices)[id].status == Draft && AllRated(entries) && TimeIsBilled(old(invoices), entries)
      ensures r.Failure? ==> r.error in {NotDraft, NoRate, TimeAlreadyBilled}
    {
      var inv := invoices[id];
      if inv.status != Draft {
        return Failure(NotDraft);
      }
      if !AllRated(entries) {
        return Failure(NoRate);
      }
      var lines := LinesFor(entries);
      NewTimeMeans(View(), entries, lines);
      if !Books.NewTime(View(), lines) {
        return Failure(TimeAlreadyBilled);
      }
      Save(id, inv.(lines := inv.lines + lines), AddLines(lines));
      r := Success(lines);
    }

    /** A line without a time entry goes at the end of a draft. */
    method AddLine(id: nat, quantity: nat, unitPrice: int, funds: Funds) returns (r: Result<(), Refusal>)
      requires Valid() && id in invoices
      modifies this`invoices
      ensures Valid()
      ensures var e := Books.Change(id, AddLines([Line(quantity, unitPrice, funds, None)]));
              View() == Books.After(old(View()), e) && (r.Success? <==> Books.Permitted(old(View()), e))
      ensures r == (if old(invoices)[id].status == Draft then Success(()) else Failure(NotDraft))
      ensures r.Success? ==>
                && OthersSame(old(invoices), invoices, id)
                && invoices[id] == old(invoices)[id].(
                     lines := old(invoices)[id].lines + [Line(quantity, unitPrice, funds, None)])
      ensures r.Success? ==>
                Subtotal(invoices[id].lines)
                == Subtotal(old(invoices)[id].lines) + RoundHalfUp(quantity * unitPrice, 100)
    {
      var inv := invoices[id];
      if inv.status != Draft {
        return Failure(NotDraft);
      }
      var line := Line(quantity, unitPrice, funds, None);
      assert (inv.lines + [line])[..|inv.lines|] == inv.lines;
      Save(id, inv.(lines := inv.lines + [line]), AddLines([line]));
      r := Success(());
    }

    /** The issued row is saved with the sequence that its number came from. */
    method SaveIssued(id: nat, inv: Invoice, thisYear: nat, next: nat)
      requires Valid() && id in invoices && Books.Permitted(View(), Books.IssueIn(id, thisYear))
      requires next == Books.NextNumber(View(), thisYear).value
      requires inv == Step(invoices[id], Issue(Books.NextNumber(View(), thisYear)))
      modifies this`invoices, this`year, this`value
      ensures Valid() && View() == Books.After(old(View()), Books.IssueIn(id, thisYear))
      ensures invoices == old(invoices)[id := inv] && OthersSame(old(invoices), invoices, id)
      ensures year == thisYear && value == next
      ensures Books.IsNumbered(View(), thisYear, next)
    {
      Books.EventKeepsSound(View(), Books.IssueIn(id, thisYear));
      year, value := thisYear, next;
      invoices := invoices[id := inv];
      assert Books.Numbered(View(), id, thisYear, next);
    }

    /** The number after the last one of this year; numbering restarts each year. */
    function NumberNow(thisYear: nat): (number: Number)
      reads this
      ensures number == Number(prefix, thisYear, if year == thisYear then value + 1 else 1)
      ensures number == Books.NextNumber(View(), thisYear)
    {
      Number(prefix, thisYear, if year == thisYear then value + 1 else 1)
    }

    method IssueInvoice(id: nat, today: Date) returns (r: Result<Number, Refusal>)
      requires Valid() && id in invoices && today.year >= 0
      modifies this`invoices, this`year, this`value
      ensures Valid() && View() == Books.After(old(View()), Books.IssueIn(id, today.year))
      ensures r.Success? <==> Books.Permitted(old(View()), Books.IssueIn(id, today.year))
      ensures var inv := old(invoices)[id];
              r == (if inv.status != Draft then Failure(NotDraft)
                    else if inv.lines == [] || Subtotal(inv.lines) <= 0 then Failure(NothingToBill)
                    else if Books.NumberTaken(old(View()), old(NumberNow(today.year))) then Failure(NumberInUse)
                    else Success(old(NumberNow(today.year))))
      ensures r.Success? ==>
                && year == today.year && value == r.value.value
                && OthersSame(old(invoices), invoices, id)
                && invoices[id] == old(invoices)[id].(status := Issued, number := Some(r.value))
                && Books.IsNumbered(View(), r.value.year, r.value.value)
      ensures r.Failure? ==> View() == old(View())
    {
      var inv := invoices[id];
      if inv.status != Draft {
        return Failure(NotDraft);
      }
      if inv.lines == [] || Subtotal(inv.lines) <= 0 {
        return Failure(NothingToBill);
      }
      var next := value;
      if year != today.year {
        next := 0;
      }
      next := next + 1;
      var number := Number(prefix, today.year, next);
      assert number == NumberNow(today.year);
      if Books.NumberTaken(View(), number) {
        return Failure(NumberInUse);
      }
      inv := inv.(number := Some(number));
      inv := inv.(status := Issued);
      SaveIssued(id, inv, today.year, next);
      r := Success(number);
    }

    /** The stored status, made to follow from what has been paid. */
    method RefreshStatus(inv: Invoice) returns (after: Invoice)
      ensures after == inv.(status :=
                if inv.status == Draft || inv.status == Void then inv.status
                else if AmountPaid(inv.payments) >= Subtotal(inv.lines) then Paid
                else if AmountPaid(inv.payments) > 0 then PartiallyPaid
                else Issued)
    {
      after := inv;
      if !(IsOpen(inv.status) || inv.status == Paid) {
        return;
      }
      var paid := AmountPaid(inv.payments);
      if paid >= Subtotal(inv.lines) {
        after := after.(status := Paid);
      } else if paid > 0 {
        after := after.(status := PartiallyPaid);
      } else {
        after := after.(status := Issued);
      }
    }

    /** Reminders and the plan's status, matched row by row to what has been paid. */
    method SyncPlan(inv: Invoice, today: Date) returns (after: Invoice)
      ensures var k := InForce(inv.plans);
              after == if k < 0 then inv
                       else var plan := SyncedPlan(inv.plans[k], AmountPaid(inv.payments), inv.status);
                            inv.(plans := inv.plans[k := plan])
      ensures OneInForce(inv.plans) && AllShaped(inv.plans) && AmountPaid(inv.payments) >= 0 ==>
                PlansFollow(inv.plans, after.plans, inv.status, AmountPaid(inv.payments))
    {
      var k := InForce(inv.plans);
      if k < 0 {
        after := inv;
        return;
      }
      var plan := inv.plans[k];
      var paid := AmountPaid(inv.payments);
      var rows := Schedule(plan, paid, today);
      var installments := plan.installments;
      for n := 0 to |rows|
        invariant |installments| == |plan.installments|
        invariant forall i :: 0 <= i < n ==> installments[i] == SyncedRow(plan.installments, paid, i)
        invariant forall i :: n <= i < |rows| ==> installments[i] == plan.installments[i]
      {
        assert Describes(rows[n], plan.installments, paid, today, n);
        var done := rows[n].state == RowDone;
        if installments[n].reminder.Some? && installments[n].reminder.value != done {
          installments := installments[n := installments[n].(reminder := Some(done))];
        }
      }
      var status := if inv.status == Paid then Completed else Active;
      assert installments == SyncedPlan(plan, paid, inv.status).installments;
      after := inv.(plans := inv.plans[k := plan.(status := status, installments := installments)]);
      if OneInForce(inv.plans) && AllShaped(inv.plans) && paid >= 0 {
        SyncingFollows(inv.plans, after.plans, inv.status, paid);
      }
    }

    /** The row after payments changed: status first, then the plan from that status. */
    method Settle(inv: Invoice, today: Date) returns (after: Invoice)
      ensures after == Settled(inv)
    {
      after := RefreshStatus(inv);
      after := SyncPlan(after, today);
    }

    /** The row with one payment more, brought in line with it. */
    method TakePayment(inv: Invoice, amount: int, account: Account, source: Option<ProviderId>, today: Date)
      returns (after: Invoice)
      requires Allowed(inv, Pay(amount, account, source))
      ensures after == Step(inv, Pay(amount, account, source))
    {
      after := inv.(payments := inv.payments + [Payment(amount, account, source, false)]);
      after := Settle(after, today);
    }

    /** A payment is rounded to the cent, then recorded on an open invoice up to its balance. */
    method RecordPayment(id: nat, num: int, den: int, account: Account, source: Option<ProviderId>, today: Date)
      returns (r: Result<(), Refusal>)
      requires Valid() && id in invoices && den > 0
      modifies this`invoices
      ensures Valid()
      ensures var e := Books.Change(id, Pay(RoundHalfUp(num, den), account, source));
              View() == Books.After(old(View()), e) && (r.Success? <==> Books.Permitted(old(View()), e))
      ensures r.Success? ==>
                && OthersSame(old(invoices), invoices, id)
                && PaymentTaken(old(invoices)[id], invoices[id], RoundHalfUp(num, den), account, source)
      // Exactly why it is refused.
      ensures var inv, amount := old(invoices)[id], RoundHalfUp(num, den);
              r == (if inv.status !in {Issued, PartiallyPaid} then Failure(NotOpen)
                    else if amount <= 0 then Failure(AmountNotPositive)
                    else if amount > Subtotal(inv.lines) - AmountPaid(inv.payments) then Failure(MoreThanBalance)
                    else if source.Some? && Books.Recorded(old(View()), source.value) then Failure(AlreadyRecorded)
                    else Success(()))
      ensures r.Success? ==>
                && Balance(invoices[id]) == Balance(old(invoices)[id]) - RoundHalfUp(num, den) >= 0
                && (Balance(invoices[id]) == 0 <==> invoices[id].status == Paid)
                && RemindersMatch(invoices[id])
    {
      var inv := invoices[id];
      if !IsOpen(inv.status) {
        return Failure(NotOpen);
      }
      var amount := RoundHalfUp(num, den);
      if amount <= 0 {
        return Failure(AmountNotPositive);
      }
      if amount > Balance(inv) {
        return Failure(MoreThanBalance);
      }
      if source.Some? && Books.Recorded(View(), source.value) {
        return Failure(AlreadyRecorded);
      }
      PaymentIsTakenOff(inv, amount, account, source);
      PayingTakes(inv, amount, account, source);
      inv := TakePayment(inv, amount, account, source, today);
      Save(id, inv, Pay(amount, account, source));
      r := Success(());
    }

    /** A live payment becomes void; its amount is owed again and the plan follows. */
    method VoidPayment(id: nat, payment: nat, reasonGiven: bool, today: Date) returns (r: Result<(), Refusal>)
      requires Valid() && id in invoices && payment < |invoices[id].payments|
      modifies this`invoices
      ensures Valid()
      ensures var e := Books.Change(id, Ledger.VoidPayment(payment, reasonGiven));
              View() == Books.After(old(View()), e) && (r.Success? <==> Books.Permitted(old(View()), e))
      ensures r == (if old(invoices)[id].payments[payment].voided then Failure(AlreadyVoid)
                    else if !reasonGiven then Failure(ReasonNeeded) else Success(()))
      ensures r.Success? ==>
                OthersSame(old(invoices), invoices, id) && PaymentVoided(old(invoices)[id], invoices[id], payment)
      ensures r.Success? ==>
                && Balance(invoices[id]) == Balance(old(invoices)[id]) + old(invoices)[id].payments[payment].amount
                && IsOpen(invoices[id].status)
                && RemindersMatch(invoices[id])
    {
      var inv := invoices[id];
      if inv.payments[payment].voided {
        return Failure(AlreadyVoid);
      }
      if !reasonGiven {
        return Failure(ReasonNeeded);
      }
      VoidedPaymentIsOwedAgain(inv, payment);
      VoidingVoids(inv, payment);
      inv := inv.(payments := inv.payments[payment := inv.payments[payment].(voided := true)]);
      inv := Settle(inv, today);
      Save(id, inv, Ledger.VoidPayment(payment, reasonGiven));
      r := Success(());
    }

    /** A plan ends: its open reminders are deleted, its completed ones stay. */
    method EndPlan(plan: Plan) returns (ended: Plan)
      ensures ended == CanceledPlan(plan) && Ended(plan, ended)
    {
      var installments := plan.installments;
      for n := 0 to |installments|
        invariant |installments| == |plan.installments|
        invariant forall i :: 0 <= i < n ==> installments[i] == CanceledPlan(plan).installments[i]
        invariant forall i :: n <= i < |installments| ==> installments[i] == plan.installments[i]
      {
        if installments[n].reminder == Some(false) {
          installments := installments[n := installments[n].(reminder := None)];
        }
      }
      assert installments == CanceledPlan(plan).installments;
      ended := plan.(status := Canceled, installments := installments);
      CanceledIsEnded(plan);
    }

    method VoidInvoice(id: nat, reasonGiven: bool) returns (r: Result<(), Refusal>)
      requires Valid() && id in invoices
      modifies this`invoices
      ensures Valid()
      ensures var e := Books.Change(id, Ledger.VoidInvoice(reasonGiven));
              View() == Books.After(old(View()), e) && (r.Success? <==> Books.Permitted(old(View()), e))
      ensures var inv := old(invoices)[id];
              r == (if inv.status !in {Issued, PartiallyPaid} then Failure(NotOpen)
                    else if exists p :: p in inv.payments && !p.voided then Failure(HasPayments)
                    else if !reasonGiven then Failure(ReasonNeeded) else Success(()))
      ensures r.Success? ==>
                OthersSame(old(invoices), invoices, id) && InvoiceVoided(old(invoices)[id], invoices[id])
      ensures r.Success? ==>
                && invoices[id].status == Void && InForce(invoices[id].plans) < 0
                && forall i, entry: nat :: Books.EntryAt(old(View()), id, i, entry) ==> !Books.Billed(View(), entry)
    {
      var inv := invoices[id];
      if !IsOpen(inv.status) {
        return Failure(NotOpen);
      }
      if exists p | p in inv.payments :: !p.voided {
        return Failure(HasPayments);
      }
      if !reasonGiven {
        return Failure(ReasonNeeded);
      }
      ghost var before := View();
      var k := InForce(inv.plans);
      if k >= 0 {
        var ended := EndPlan(inv.plans[k]);
        inv := inv.(plans := inv.plans[k := ended]);
      }
      inv := inv.(lines := FreedLines(inv.lines));
      inv := inv.(status := Void);
      VoidingInvoiceVoids(invoices[id]);
      StepEndsClosed(invoices[id], Ledger.VoidInvoice(reasonGiven));
      Save(id, inv, Ledger.VoidInvoice(reasonGiven));
      forall i, entry: nat | Books.EntryAt(before, id, i, entry) ensures !Books.Billed(View(), entry) {
        Books.VoidingFreesTime(before, id, entry, i);
      }
      r := Success(());
    }

    /** An installment for each date and amount in turn, with an open reminder. */
    method MakeInstallments(balance: int, count: nat, first: Date, frequency: Frequency, emails: bool)
      returns (plan: Plan)
      requires count >= 2 && Calendar.Valid(first)
      ensures plan == NewPlan(balance, count, first, frequency, emails)
      ensures IsPlanFor(plan, balance, count, first, frequency, emails)
    {
      var dates, amounts := InstallmentDates(first, count, frequency), SplitAmount(balance, count);
      var installments := [];
      for n := 0 to count
        invariant |installments| == n
        invariant forall i :: 0 <= i < n ==> installments[i] == Installment(dates[i], amounts[i], Some(false))
      {
        installments := installments + [Installment(dates[n], amounts[n], Some(false))];
      }
      assert installments == NewPlan(balance, count, first, frequency, emails).installments;
      plan := Plan(Active, emails, installments);
      NewPlanIsFor(balance, count, first, frequency, emails);
    }

    /** The balance split into dated installments, each with an open staff reminder. */
    method CreatePlan(
      id: nat, count: int, first: Date, frequency: Frequency, emails: bool, reachable: bool, today: Date)
      returns (r: Result<(), Refusal>)
      requires Valid() && id in invoices && Calendar.Valid(first)
      modifies this`invoices
      ensures Valid()
      ensures var e := Books.Change(id, MakePlan(count, first, frequency, today, emails, reachable));
              View() == Books.After(old(View()), e) && (r.Success? <==> Books.Permitted(old(View()), e))
      ensures r.Success? ==>
                && OthersSame(old(invoices), invoices, id)
                && PlanMade(old(invoices)[id], invoices[id], count, first, frequency, emails)
      ensures var inv := old(invoices)[id];
              r == (if inv.status !in {Issued, PartiallyPaid} || Subtotal(inv.lines) - AmountPaid(inv.payments) <= 0
                    then Failure(NoBalance)
                    else if exists plan :: plan in inv.plans && plan.status != Canceled then Failure(AlreadyPlanned)
                    else if !(2 <= count <= MAX_INSTALLMENTS) then Failure(BadCount)
                    else if Before(first, today) then Failure(PastDate)
                    else if emails && !reachable then Failure(NoAddress) else Success(()))
    {
      var inv := invoices[id];
      if !IsOpen(inv.status) || Balance(inv) <= 0 {
        return Failure(NoBalance);
      }
      if InForce(inv.plans) >= 0 {
        assert inv.plans[InForce(inv.plans)] in inv.plans;
        return Failure(AlreadyPlanned);
      }
      if !(2 <= count <= MAX_INSTALLMENTS) {
        return Failure(BadCount);
      }
      if Before(first, today) {
        return Failure(PastDate);
      }
      if emails && !reachable {
        return Failure(NoAddress);
      }
      PlanningMakes(inv, MakePlan(count, first, frequency, today, emails, reachable));
      var plan := MakeInstallments(Balance(inv), count, first, frequency, emails);
      inv := inv.(plans := inv.plans + [plan]);
      Save(id, inv, MakePlan(count, first, frequency, today, emails, reachable));
      r := Success(());
    }

    method CancelPlan(id: nat, plan: nat) returns (r: Result<(), Refusal>)
      requires Valid() && id in invoices && plan < |invoices[id].plans|
      modifies this`invoices
      ensures Valid()
      ensures var e := Books.Change(id, Ledger.CancelPlan(plan));
              View() == Books.After(old(View()), e) && (r.Success? <==> Books.Permitted(old(View()), e))
      ensures r == (if old(invoices)[id].plans[plan].status == Canceled then Failure(AlreadyCanceled) else Success(()))
      ensures r.Success? ==>
                OthersSame(old(invoices), invoices, id) && PlanCanceled(old(invoices)[id], invoices[id], plan)
      ensures r.Success? ==> InForce(invoices[id].plans) < 0
    {
      var inv := invoices[id];
      if inv.plans[plan].status == Canceled {
        return Failure(AlreadyCanceled);
      }
      assert Consistent(inv);
      CancelingCancels(inv, plan);
      CancelingEndsPlan(inv, Ledger.CancelPlan(plan));
      var ended := EndPlan(inv.plans[plan]);
      inv := inv.(plans := inv.plans[plan := ended]);
      Save(id, inv, Ledger.CancelPlan(plan));
      r := Success(());
    }

    /** The client's email reminders turned on or off for an active plan. */
    method SetEmailReminders(id: nat, plan: nat, on: bool, reachable: bool) returns (r: Result<(), Refusal>)
      requires Valid() && id in invoices && plan < |invoices[id].plans|
      modifies this`invoices
      ensures Valid()
      ensures var e := Books.Change(id, Ledger.SetEmailReminders(plan, on, reachable));
              View() == Books.After(old(View()), e) && (r.Success? <==> Books.Permitted(old(View()), e))
      ensures r == (if old(invoices)[id].plans[plan].status != Active then Failure(NotActive)
                    else if on && !reachable then Failure(NoAddress) else Success(()))
      ensures r.Success? ==>
                && OthersSame(old(invoices), invoices, id)
                && var plans := old(invoices)[id].plans;
                   invoices[id] == old(invoices)[id].(plans := plans[plan := plans[plan].(emailReminders := on)])
    {
      var inv := invoices[id];
      if inv.plans[plan].status != Active {
        return Failure(NotActive);
      }
      if on && !reachable {
        return Failure(NoAddress);
      }
      inv := inv.(plans := inv.plans[plan := inv.plans[plan].(emailReminders := on)]);
      Save(id, inv, Ledger.SetEmailReminders(plan, on, reachable));
      r := Success(());
    }
  }
}

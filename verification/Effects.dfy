/**
 What each billing service leaves in an invoice's row, field by field, in terms of the row before:
 amounts added up, calendar dates, and which reminders are there and done.
 */
module Effects {
  import opened Wrappers
  import opened Money
  import opened Calendar
  import opened Ledger
  import opened Plans

  // ---- Reminders and what has been paid ----

  /** The payments reach this installment: it asks for nothing, or all up to and including it is paid. */
  predicate Covered(rows: seq<Installment>, paid: int, i: nat)
    requires i < |rows|
  {
    rows[i].amount <= 0 || PlannedBefore(rows, i + 1) <= paid
  }

  /** The same installments; each reminder is still there, and done exactly when the payments reach it. */
  ghost predicate RowsFollow(before: seq<Installment>, after: seq<Installment>, paid: int) {
    && |after| == |before|
    && forall i :: 0 <= i < |before| ==>
         && after[i].due == before[i].due && after[i].amount == before[i].amount
         && (after[i].reminder.Some? <==> before[i].reminder.Some?)
         && (after[i].reminder.Some? ==> (after[i].reminder.value <==> Covered(before, paid, i)))
  }

  /** Canceled plans stay as they are; any other follows what is paid, and is completed with the invoice. */
  ghost predicate PlansFollow(before: seq<Plan>, after: seq<Plan>, status: Status, paid: int) {
    && |after| == |before|
    && forall k :: 0 <= k < |before| ==>
         if before[k].status == Canceled then after[k] == before[k]
         else
           && after[k].status == (if status == Paid then Completed else Active)
           && after[k].emailReminders == before[k].emailReminders
           && RowsFollow(before[k].installments, after[k].installments, paid)
  }

  /** Every plan but the newest not canceled is canceled. */
  ghost predicate OneInForce(plans: seq<Plan>) {
    forall i :: 0 <= i < |plans| && plans[i].status != Canceled ==> i == InForce(plans)
  }

  lemma CoveredIsPaid(plan: Plan, paid: int, i: nat)
    requires Shaped(plan) && paid >= 0 && i < |plan.installments|
    ensures RowPaid(plan.installments, paid, i) <==> Covered(plan.installments, paid, i)
  {
    var rows := plan.installments;
    PrefixPlan(rows, rows[..i], paid, i);
    LeftIsPaidLessPlanned(rows[..i], paid, i);
  }

  lemma SyncedRowsFollow(plan: Plan, paid: int, status: Status)
    requires Shaped(plan) && paid >= 0
    ensures RowsFollow(plan.installments, SyncedPlan(plan, paid, status).installments, paid)
  {
    forall i | 0 <= i < |plan.installments|
      ensures RowPaid(plan.installments, paid, i) <==> Covered(plan.installments, paid, i)
    {
      CoveredIsPaid(plan, paid, i);
    }
  }

  /** After synchronizing, every plan but the canceled ones follows what is paid, and no reminder is lost. */
  lemma SyncingFollows(plans: seq<Plan>, after: seq<Plan>, status: Status, paid: int)
    requires OneInForce(plans) && AllShaped(plans) && paid >= 0
    requires var k := InForce(plans);
             after == if k < 0 then plans else plans[k := SyncedPlan(plans[k], paid, status)]
    ensures PlansFollow(plans, after, status, paid)
  {
    var k := InForce(plans);
    if k >= 0 {
      assert plans[k] in plans;
      SyncedRowsFollow(plans[k], paid, status);
    }
  }

  /** No row but one is touched. */
  ghost predicate OthersSame(before: map<nat, Invoice>, after: map<nat, Invoice>, id: nat) {
    after.Keys == before.Keys && forall other :: other in before && other != id ==> after[other] == before[other]
  }

  // ---- Payments ----

  ghost predicate PaymentTaken(
    before: Invoice, after: Invoice, amount: int, account: Account, source: Option<ProviderId>)
  {
    && after.lines == before.lines && after.number == before.number
    && after.payments == before.payments + [Payment(amount, account, source, false)]
    && after.status == (if Subtotal(before.lines) - AmountPaid(before.payments) == amount then Paid else PartiallyPaid)
    && PlansFollow(before.plans, after.plans, after.status, AmountPaid(before.payments) + amount)
  }

  lemma PayingTakes(inv: Invoice, amount: int, account: Account, source: Option<ProviderId>)
    requires Consistent(inv) && Allowed(inv, Pay(amount, account, source))
    ensures PaymentTaken(inv, Step(inv, Pay(amount, account, source)), amount, account, source)
  {
    var p := Payment(amount, account, source, false);
    var after := Step(inv, Pay(amount, account, source));
    PaidAppend(inv.payments, p);
    PaidIsNonNegative(inv.payments);
    SyncingFollows(inv.plans, after.plans, after.status, AmountPaid(after.payments));
  }

  ghost predicate PaymentVoided(before: Invoice, after: Invoice, i: nat)
    requires i < |before.payments|
  {
    var paid := AmountPaid(before.payments) - before.payments[i].amount;
    && after.lines == before.lines && after.number == before.number
    && after.payments == before.payments[i := before.payments[i].(voided := true)]
    && after.status == (if paid > 0 then PartiallyPaid else Issued)
    && PlansFollow(before.plans, after.plans, after.status, paid)
  }

  lemma VoidingVoids(inv: Invoice, i: nat)
    requires Consistent(inv) && Allowed(inv, VoidPayment(i, true))
    ensures PaymentVoided(inv, Step(inv, VoidPayment(i, true)), i)
  {
    var after := Step(inv, VoidPayment(i, true));
    assert inv.payments[i] in inv.payments;
    PaidAfterVoid(inv.payments, i);
    StepKeepsConsistent(inv, VoidPayment(i, true));
    PaidIsNonNegative(after.payments);
    SyncingFollows(inv.plans, after.plans, after.status, AmountPaid(after.payments));
  }

  // ---- Ending plans ----

  /** A plan ended: its open reminders are gone, its completed ones and everything else stay. */
  ghost predicate Ended(before: Plan, after: Plan) {
    && after.status == Canceled && after.emailReminders == before.emailReminders
    && |after.installments| == |before.installments|
    && forall i :: 0 <= i < |before.installments| ==>
         && after.installments[i].due == before.installments[i].due
         && after.installments[i].amount == before.installments[i].amount
         && after.installments[i].reminder
            == if before.installments[i].reminder == Some(true) then Some(true) else None
  }

  lemma CanceledIsEnded(plan: Plan)
    ensures Ended(plan, CanceledPlan(plan))
  {
    forall i | 0 <= i < |plan.installments|
      ensures CanceledPlan(plan).installments[i].reminder
           == if plan.installments[i].reminder == Some(true) then Some(true) else None
    {
      var r := plan.installments[i].reminder;
      if r.Some? { assert r == if r.value then Some(true) else Some(false); }
    }
  }

  ghost predicate PlanCanceled(before: Invoice, after: Invoice, k: nat)
    requires k < |before.plans|
  {
    && |after.plans| == |before.plans| && Ended(before.plans[k], after.plans[k])
    && after == before.(plans := before.plans[k := after.plans[k]])
  }

  lemma CancelingCancels(inv: Invoice, k: nat)
    requires Allowed(inv, CancelPlan(k))
    ensures PlanCanceled(inv, Step(inv, CancelPlan(k)), k)
  {
    CanceledIsEnded(inv.plans[k]);
  }

  /** Void: the lines bill what they did with no time entry, and every plan not canceled before is ended. */
  ghost predicate InvoiceVoided(before: Invoice, after: Invoice) {
    && after.status == Void && after.number == before.number && after.payments == before.payments
    && |after.lines| == |before.lines|
    && (forall i :: 0 <= i < |before.lines| ==> after.lines[i] == before.lines[i].(timeEntry := None))
    && |after.plans| == |before.plans|
    && forall k :: 0 <= k < |before.plans| ==>
         if before.plans[k].status == Canceled then after.plans[k] == before.plans[k]
         else Ended(before.plans[k], after.plans[k])
  }

  lemma VoidingInvoiceVoids(inv: Invoice)
    requires Consistent(inv) && Allowed(inv, VoidInvoice(true))
    ensures InvoiceVoided(inv, Step(inv, VoidInvoice(true)))
  {
    var k := InForce(inv.plans);
    if k >= 0 { CanceledIsEnded(inv.plans[k]); }
  }

  // ---- Making a plan ----

  /** The nth installment's date, on the calendar: so many months, fortnights or weeks after the first. */
  ghost predicate DueOn(due: Date, first: Date, n: nat, frequency: Frequency)
    requires Valid(first)
  {
    && Valid(due)
    && match frequency
       case Monthly =>
         && MonthNumber(due) == MonthNumber(first) + n
         && due.day == Min(first.day, MonthLength(due.year, due.month))
       case Biweekly => Ordinal(due) == Ordinal(first) + 14 * n
       case Weekly => Ordinal(due) == Ordinal(first) + 7 * n
  }

  /** Each installment falls due a period after the one before it, counted from the first. */
  ghost predicate FallsDue(rows: seq<Installment>, first: Date, frequency: Frequency)
    requires Valid(first)
  {
    && (rows != [] ==> rows[0].due == first)
    && (forall n :: 0 <= n < |rows| ==> DueOn(rows[n].due, first, n, frequency))
    && (forall m, n :: 0 <= m < n < |rows| ==> Before(rows[m].due, rows[n].due))
  }

  /**
   Equal amounts but for the last; they make the total. The last is within half a cent an installment
   of the others; these are rounded half up, so of something owed it never exceeds them by as much.
   */
  ghost predicate SplitsInto(rows: seq<Installment>, total: int) {
    && PlanTotal(rows) == total
    && (forall i, j :: 0 <= i < |rows| - 1 && 0 <= j < |rows| - 1 ==> rows[i].amount == rows[j].amount)
    && (forall i :: 0 <= i < |rows| - 1 ==> 2 * Abs(rows[|rows| - 1].amount - rows[i].amount) <= |rows|)
    && (total >= 0 ==>
          forall i :: 0 <= i < |rows| - 1 ==> 2 * (rows[|rows| - 1].amount - rows[i].amount) < |rows|)
  }

  ghost predicate IsPlanFor(plan: Plan, balance: int, count: int, first: Date, frequency: Frequency, emails: bool)
    requires Valid(first)
  {
    && plan.status == Active && plan.emailReminders == emails
    && |plan.installments| == count
    && (forall i :: 0 <= i < count ==> plan.installments[i].reminder == Some(false))
    && SplitsInto(plan.installments, balance)
    && FallsDue(plan.installments, first, frequency)
  }

  lemma NewPlanIsFor(balance: int, count: int, first: Date, frequency: Frequency, emails: bool)
    requires count >= 2 && Valid(first)
    ensures IsPlanFor(NewPlan(balance, count, first, frequency, emails), balance, count, first, frequency, emails)
  {
    var rows := NewPlan(balance, count, first, frequency, emails).installments;
    NewPlanAsksForBalance(balance, count, first, frequency, emails);
    SplitIsEven(balance, count);
    assert forall i :: 0 <= i < count ==> rows[i].amount == SplitAmount(balance, count)[i];
    NewPlanFallsDue(rows, first, frequency);
  }

  lemma NewPlanFallsDue(rows: seq<Installment>, first: Date, frequency: Frequency)
    requires Valid(first)
    requires forall n :: 0 <= n < |rows| ==> rows[n].due == InstallmentDates(first, |rows|, frequency)[n]
    ensures FallsDue(rows, first, frequency)
  {
    DatesAreIncreasing(first, |rows|, frequency);
    forall n | 0 <= n < |rows| ensures DueOn(rows[n].due, first, n, frequency) {
      DateIsExact(first, n, frequency);
    }
  }

  ghost predicate PlanMade(before: Invoice, after: Invoice, count: int, first: Date, frequency: Frequency, emails: bool)
    requires Valid(first)
  {
    && |after.plans| == |before.plans| + 1
    && after == before.(plans := before.plans + [after.plans[|before.plans|]])
    && IsPlanFor(after.plans[|before.plans|], Subtotal(before.lines) - AmountPaid(before.payments),
                 count, first, frequency, emails)
  }

  lemma PlanningMakes(inv: Invoice, op: Op)
    requires op.MakePlan? && Allowed(inv, op)
    ensures PlanMade(inv, Step(inv, op), op.count, op.first, op.frequency, op.emails)
  {
    NewPlanIsFor(Balance(inv), op.count, op.first, op.frequency, op.emails);
  }

  // ---- When a reminder goes ----

  /** The step ends this plan, alone or with its invoice. */
  predicate Ends(inv: Invoice, op: Op, k: nat) {
    && k < |inv.plans| && inv.plans[k].status != Canceled && Allowed(inv, op)
    && (op.VoidInvoice? || (op.CancelPlan? && op.plan == k))
  }

  /** The staff reminder of an installment, if there is one. */
  function ReminderOf(inv: Invoice, k: nat, i: nat): Option<bool> {
    if k < |inv.plans| && i < |inv.plans[k].installments| then inv.plans[k].installments[i].reminder else None
  }

  /** A step takes a reminder away exactly when it is open and its plan ends, and it never brings one back. */
  lemma StepKeepsReminder(inv: Invoice, op: Op, k: nat, i: nat)
    requires Consistent(inv) && k < |inv.plans| && i < |inv.plans[k].installments|
    ensures var after := Step(inv, op);
            && k < |after.plans| && i < |after.plans[k].installments|
            && (ReminderOf(after, k, i).Some? <==>
                  ReminderOf(inv, k, i).Some? && !(Ends(inv, op, k) && ReminderOf(inv, k, i) == Some(false)))
  {
    if Allowed(inv, op) {
      match op
      case Pay(amount, account, source) => PayingTakes(inv, amount, account, source);
      case VoidPayment(n, _) => VoidingVoids(inv, n);
      case VoidInvoice(_) => VoidingInvoiceVoids(inv);
      case CancelPlan(n) => CancelingCancels(inv, n);
      case _ =>
    }
  }

  /** At some step of the run the reminder is open and its plan ends. */
  ghost predicate LostDuring(inv: Invoice, ops: seq<Op>, k: nat, i: nat) {
    ops != [] && (
      var n := |ops| - 1;
      var before := Run(inv, ops[..n]);
      LostDuring(inv, ops[..n], k, i) || (Ends(before, ops[n], k) && ReminderOf(before, k, i) == Some(false)))
  }

  /** Over any run a reminder is still there exactly unless its plan ended while it was open. */
  lemma {:induction false} RemindersStay(inv: Invoice, ops: seq<Op>, k: nat, i: nat)
    requires Consistent(inv) && k < |inv.plans| && i < |inv.plans[k].installments|
    ensures var after := Run(inv, ops);
            && k < |after.plans| && i < |after.plans[k].installments|
            && (ReminderOf(after, k, i).Some? <==> ReminderOf(inv, k, i).Some? && !LostDuring(inv, ops, k, i))
  {
    if ops != [] {
      var n := |ops| - 1;
      RemindersStay(inv, ops[..n], k, i);
      EveryRunIsConsistent(inv, ops[..n]);
      StepKeepsReminder(Run(inv, ops[..n]), ops[n], k, i);
    }
  }
}

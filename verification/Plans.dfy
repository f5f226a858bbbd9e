/**
 Payment plans: how payments run down the installments, and how far the plan, its reminders
 and the invoice's balance agree over any run of the ledger.
 */
module Plans {
  import opened Wrappers
  import opened Money
  import opened Calendar
  import opened Ledger

  datatype RowState = RowDone | Overdue | Partial | NotStarted

  datatype ScheduleRow = ScheduleRow(applied: int, state: RowState)

  /** The installments' amounts, added up to but not including row n. */
  function PlannedBefore(rows: seq<Installment>, n: nat): int
    requires n <= |rows|
  {
    if n == 0 then 0 else PlannedBefore(rows, n - 1) + rows[n - 1].amount
  }

  function PlanTotal(rows: seq<Installment>): int {
    PlannedBefore(rows, |rows|)
  }

  function AppliedBefore(rows: seq<Installment>, paid: int, n: nat): int
    requires n <= |rows|
  {
    if n == 0 then 0 else AppliedBefore(rows, paid, n - 1) + Applied(rows, paid, n - 1)
  }

  function AppliedTotal(rows: seq<Installment>, paid: int): int {
    AppliedBefore(rows, paid, |rows|)
  }

  /** What the plan still asks for. */
  function Unapplied(rows: seq<Installment>, paid: int): int {
    PlanTotal(rows) - AppliedTotal(rows, paid)
  }

  ghost predicate NonNegative(rows: seq<Installment>) {
    forall i :: 0 <= i < |rows| ==> rows[i].amount >= 0
  }

  ghost predicate Positive(rows: seq<Installment>) {
    forall i :: 0 <= i < |rows| ==> rows[i].amount > 0
  }

  ghost predicate AllRowsPaid(rows: seq<Installment>, paid: int) {
    forall i :: 0 <= i < |rows| ==> RowPaid(rows, paid, i)
  }

  // ---- The schedule page ----

  /** The row shows what was applied to the installment and how far it is paid. */
  ghost predicate Describes(row: ScheduleRow, rows: seq<Installment>, paid: int, today: Date, i: nat)
    requires i < |rows|
  {
    && row.applied == Applied(rows, paid, i)
    && (row.state == RowDone <==> RowPaid(rows, paid, i))
    && (row.state == Overdue <==> !RowPaid(rows, paid, i) && Before(rows[i].due, today))
    && (row.state == Partial ==> 0 < row.applied < rows[i].amount)
    && (row.state == NotStarted ==> row.applied <= 0)
  }

  /** The same from the amounts alone: what was paid beyond the earlier installments, and the due date. */
  ghost predicate Shows(row: ScheduleRow, rows: seq<Installment>, paid: int, today: Date, i: nat)
    requires i < |rows|
  {
    var beyond := Max(paid - PlannedBefore(rows, i), 0);
    && row.applied == Min(beyond, rows[i].amount)
    && row.state == if beyond >= rows[i].amount then RowDone
                    else if Before(rows[i].due, today) then Overdue
                    else if beyond > 0 then Partial else NotStarted
  }

  lemma DescribingShows(row: ScheduleRow, plan: Plan, paid: int, today: Date, i: nat)
    requires Shaped(plan) && paid >= 0 && i < |plan.installments|
    requires Describes(row, plan.installments, paid, today, i)
    ensures Shows(row, plan.installments, paid, today, i)
  {
    var rows := plan.installments;
    PrefixPlan(rows, rows[..i], paid, i);
    LeftIsPaidLessPlanned(rows[..i], paid, i);
  }

  /** Installments with the amount applied to each and a display status. */
  method Schedule(plan: Plan, paid: int, today: Date) returns (rows: seq<ScheduleRow>)
    ensures |rows| == |plan.installments|
    ensures forall i :: 0 <= i < |rows| ==>
              Describes(rows[i], plan.installments, paid, today, i)
    ensures Shaped(plan) && paid >= 0 ==>
              forall i :: 0 <= i < |rows| ==> Shows(rows[i], plan.installments, paid, today, i)
  {
    rows := [];
    var remaining := paid;
    for n := 0 to |plan.installments|
      invariant |rows| == n
      invariant remaining == Left(plan.installments, paid, n)
      invariant forall i :: 0 <= i < n ==>
                  Describes(rows[i], plan.installments, paid, today, i)
    {
      var installment := plan.installments[n];
      var applied := Min(remaining, installment.amount);
      remaining := remaining - applied;
      var state;
      if applied >= installment.amount {
        state := RowDone;
      } else if Before(installment.due, today) {
        state := Overdue;
      } else if applied > 0 {
        state := Partial;
      } else {
        state := NotStarted;
      }
      rows := rows + [ScheduleRow(applied, state)];
    }
    if Shaped(plan) && paid >= 0 {
      forall i | 0 <= i < |rows| ensures Shows(rows[i], plan.installments, paid, today, i) {
        DescribingShows(rows[i], plan, paid, today, i);
      }
    }
  }

  /** The first installment that is not paid: every earlier one is. */
  method NextDue(plan: Plan, paid: int, today: Date) returns (next: Option<nat>)
    ensures next.None? <==> forall i :: 0 <= i < |plan.installments| ==> RowPaid(plan.installments, paid, i)
    ensures next.Some? ==>
              && next.value < |plan.installments|
              && !RowPaid(plan.installments, paid, next.value)
              && forall i :: 0 <= i < next.value ==> RowPaid(plan.installments, paid, i)
  {
    var rows := Schedule(plan, paid, today);
    for n := 0 to |rows|
      invariant forall i :: 0 <= i < n ==> RowPaid(plan.installments, paid, i)
    {
      if rows[n].state != RowDone {
        return Some(n);
      }
    }
    next := None;
  }

  // ---- The waterfall in closed form ----

  lemma {:induction false} LeftIsPaidLessPlanned(rows: seq<Installment>, paid: int, n: nat)
    requires NonNegative(rows) && paid >= 0 && n <= |rows|
    ensures Left(rows, paid, n) == Max(paid - PlannedBefore(rows, n), 0)
  {
    if n > 0 { LeftIsPaidLessPlanned(rows, paid, n - 1); }
  }

  /** Nothing is lost on the way down: what is applied and what is left make up what was paid. */
  lemma {:induction false} WaterfallConserves(rows: seq<Installment>, paid: int, n: nat)
    requires n <= |rows|
    ensures AppliedBefore(rows, paid, n) + Left(rows, paid, n) == paid
  {
    if n > 0 { WaterfallConserves(rows, paid, n - 1); }
  }

  lemma {:induction false} PlannedGrows(rows: seq<Installment>, m: nat, n: nat)
    requires NonNegative(rows) && m <= n <= |rows|
    ensures PlannedBefore(rows, m) <= PlannedBefore(rows, n)
  {
    if m < n { PlannedGrows(rows, m, n - 1); }
  }

  /** A row is paid exactly when everything planned up to and including it has been paid. */
  lemma RowPaidMeansPlannedIsPaid(rows: seq<Installment>, paid: int, i: nat)
    requires NonNegative(rows) && paid >= 0 && i < |rows|
    ensures Applied(rows, paid, i) == Max(0, Min(paid - PlannedBefore(rows, i), rows[i].amount))
    ensures RowPaid(rows, paid, i) <==> rows[i].amount == 0 || PlannedBefore(rows, i + 1) <= paid
  {
    LeftIsPaidLessPlanned(rows, paid, i);
  }

  lemma AppliedTotalIsCapped(rows: seq<Installment>, paid: int)
    requires NonNegative(rows) && paid >= 0
    ensures AppliedTotal(rows, paid) == Min(paid, PlanTotal(rows))
    ensures Unapplied(rows, paid) == Max(PlanTotal(rows) - paid, 0)
  {
    LeftIsPaidLessPlanned(rows, paid, |rows|);
    WaterfallConserves(rows, paid, |rows|);
  }

  lemma AllRowsPaidMeansPlanIsPaid(rows: seq<Installment>, paid: int)
    requires Positive(rows) && rows != [] && paid >= 0
    ensures AllRowsPaid(rows, paid) <==> paid >= PlanTotal(rows)
  {
    var n := |rows|;
    forall i | 0 <= i < n ensures RowPaid(rows, paid, i) <==> PlannedBefore(rows, i + 1) <= paid {
      RowPaidMeansPlannedIsPaid(rows, paid, i);
    }
    forall i {:trigger RowPaid(rows, paid, i)} | 0 <= i < n ensures PlannedBefore(rows, i + 1) <= PlanTotal(rows) {
      PlannedGrows(rows, i + 1, n);
    }
    assert PlannedBefore(rows, n - 1 + 1) == PlanTotal(rows);
    assert RowPaid(rows, paid, n - 1) <==> PlannedBefore(rows, n - 1 + 1) <= paid;
  }

  lemma {:induction false} PlannedIsSum(rows: seq<Installment>, amounts: seq<int>, n: nat)
    requires n <= |rows| == |amounts|
    requires forall i :: 0 <= i < |rows| ==> rows[i].amount == amounts[i]
    ensures PlannedBefore(rows, n) == Sum(amounts[..n])
  {
    if n > 0 {
      PlannedIsSum(rows, amounts, n - 1);
      assert amounts[..n] == amounts[..n - 1] + [amounts[n - 1]];
      SumAppend(amounts[..n - 1], amounts[n - 1]);
    }
  }

  /** A new plan asks for exactly the balance it was made for, whatever that balance is. */
  lemma NewPlanAsksForBalance(balance: int, count: nat, first: Date, frequency: Frequency, emails: bool)
    requires count >= 2 && Valid(first)
    ensures var rows := NewPlan(balance, count, first, frequency, emails).installments;
            && PlanTotal(rows) == balance
            && (Positive(rows) <==> Splittable(balance, count))
  {
    var rows := NewPlan(balance, count, first, frequency, emails).installments;
    var amounts := SplitAmount(balance, count);
    PlannedIsSum(rows, amounts, count);
    assert amounts[..count] == amounts;
    SplitSumsToTotal(balance, count);
    SplitPositiveExactly(balance, count);
    assert Positive(rows) <==> AllPositive(amounts) by {
      assert forall i :: 0 <= i < count ==> rows[i].amount == amounts[i];
    }
  }

  /**
   A balance too small to split can leave the last installment negative. The total applied is
   still min(paid, total) exactly when it did not, or when the equal installments are all paid.
   */
  lemma AppliedTotalOfSmallPlan(balance: int, count: nat, first: Date, frequency: Frequency, paid: int)
    requires count >= 2 && Valid(first) && balance > 0 && paid >= 0
    ensures var rows := NewPlan(balance, count, first, frequency, false).installments;
            AppliedTotal(rows, paid) == Min(paid, PlanTotal(rows))
            <==> rows[count - 1].amount >= 0 || paid >= PlannedBefore(rows, count - 1)
  {
    var rows := NewPlan(balance, count, first, frequency, false).installments;
    var last := rows[count - 1].amount;
    var others := rows[..count - 1];
    NewPlanAsksForBalance(balance, count, first, frequency, false);
    assert forall i :: 0 <= i < count - 1 ==> rows[i].amount == RoundHalfUp(balance, count) >= 0;
    assert NonNegative(others);
    PrefixPlan(rows, others, paid, count - 1);
    LeftIsPaidLessPlanned(others, paid, count - 1);
    WaterfallConserves(rows, paid, count);
    if last >= 0 {
      assert NonNegative(rows);
      AppliedTotalIsCapped(rows, paid);
    }
  }

  lemma {:induction false} PrefixPlan(rows: seq<Installment>, prefix: seq<Installment>, paid: int, n: nat)
    requires n <= |prefix| <= |rows| && prefix == rows[..|prefix|]
    ensures PlannedBefore(prefix, n) == PlannedBefore(rows, n)
    ensures Left(prefix, paid, n) == Left(rows, paid, n)
  {
    if n > 0 { PrefixPlan(rows, prefix, paid, n - 1); }
  }

  // ---- Reminders over a run ----

  /** Every reminder still there is completed exactly when its row is paid. */
  ghost predicate RemindersMatch(inv: Invoice) {
    var k := InForce(inv.plans);
    k >= 0 ==>
      var rows := inv.plans[k].installments;
      forall i :: 0 <= i < |rows| && rows[i].reminder.Some? ==>
        (rows[i].reminder.value <==> RowPaid(rows, AmountPaid(inv.payments), i))
  }

  lemma {:induction false} SameAmountsSameRows(a: seq<Installment>, b: seq<Installment>, paid: int, n: nat)
    requires n <= |a| == |b|
    requires forall i :: 0 <= i < |a| ==> a[i].amount == b[i].amount
    ensures Left(a, paid, n) == Left(b, paid, n)
  {
    if n > 0 { SameAmountsSameRows(a, b, paid, n - 1); }
  }

  lemma InForceAfterUpdate(plans: seq<Plan>, plan: Plan)
    requires InForce(plans) >= 0 && plan.status != Canceled
    ensures InForce(plans[InForce(plans) := plan]) == InForce(plans)
  {
    var k := InForce(plans);
    var next := plans[k := plan];
    assert next[k].status != Canceled;
    assert forall i :: k < i < |next| ==> next[i].status == Canceled;
  }

  /** The same installments, each with a reminder exactly if it had one. */
  ghost predicate KeepsReminders(before: seq<Installment>, after: seq<Installment>) {
    && |after| == |before|
    && forall i :: 0 <= i < |before| ==>
         && after[i].due == before[i].due && after[i].amount == before[i].amount
         && (after[i].reminder.Some? <==> before[i].reminder.Some?)
  }

  /** Settling loses no reminder, and makes them match whatever they said before. */
  lemma SettlingMatchesReminders(inv: Invoice)
    ensures RemindersMatch(Settled(inv))
    ensures var k := InForce(inv.plans);
            k >= 0 ==> KeepsReminders(inv.plans[k].installments, Settled(inv).plans[k].installments)
  {
    var k := InForce(inv.plans);
    if k >= 0 {
      var after := Settled(inv);
      var paid := AmountPaid(inv.payments);
      InForceAfterUpdate(inv.plans, after.plans[k]);
      var old_, new_ := inv.plans[k].installments, after.plans[k].installments;
      forall i | 0 <= i < |new_| && new_[i].reminder.Some?
        ensures new_[i].reminder.value <==> RowPaid(new_, paid, i)
      {
        assert new_[i] == SyncedRow(old_, paid, i);
        SameAmountsSameRows(old_, new_, paid, i);
      }
    }
  }

  /** A payment comes off the balance to the cent, and the invoice is paid when nothing is left. */
  lemma PaymentIsTakenOff(inv: Invoice, amount: int, account: Account, source: Option<ProviderId>)
    requires Consistent(inv) && Allowed(inv, Pay(amount, account, source))
    ensures var after := Step(inv, Pay(amount, account, source));
            && Balance(after) == Balance(inv) - amount >= 0
            && (Balance(after) == 0 <==> after.status == Paid)
            && RemindersMatch(after)
  {
    var p := Payment(amount, account, source, false);
    PaidAppend(inv.payments, p);
    PaidIsNonNegative(inv.payments);
    SettlingMatchesReminders(inv.(payments := inv.payments + [p]));
  }

  /** A voided payment is owed again in full, so the invoice is open again. */
  lemma VoidedPaymentIsOwedAgain(inv: Invoice, i: nat)
    requires Consistent(inv) && Allowed(inv, VoidPayment(i, true))
    ensures var after := Step(inv, VoidPayment(i, true));
            && Balance(after) == Balance(inv) + inv.payments[i].amount
            && IsOpen(after.status)
            && RemindersMatch(after)
  {
    assert inv.payments[i] in inv.payments;
    PaidAfterVoid(inv.payments, i);
    SettlingMatchesReminders(inv.(payments := inv.payments[i := inv.payments[i].(voided := true)]));
  }

  /** What must be checked before making a plan for its reminders to be right as they are made. */
  predicate StartsRight(inv: Invoice, count: int)
    requires count >= 2
  {
    Splittable(Balance(inv), count) && AmountPaid(inv.payments) < SplitAmount(Balance(inv), count)[0]
  }

  lemma NoRowIsPaid(rows: seq<Installment>, paid: int)
    requires Positive(rows) && rows != [] && 0 <= paid
    ensures (forall i :: 0 <= i < |rows| ==> !RowPaid(rows, paid, i)) <==> paid < rows[0].amount
  {
    forall i | 0 <= i < |rows|
      ensures RowPaid(rows, paid, i) <==> PlannedBefore(rows, i + 1) <= paid
      ensures PlannedBefore(rows, 1) <= PlannedBefore(rows, i + 1)
    {
      RowPaidMeansPlannedIsPaid(rows, paid, i);
      PlannedGrows(rows, 1, i + 1);
    }
    assert PlannedBefore(rows, 0 + 1) == PlannedBefore(rows, 0) + rows[0].amount;
    assert RowPaid(rows, paid, 0) <==> PlannedBefore(rows, 0 + 1) <= paid;
  }

  /** Of a split with an installment that asks for nothing or less, some row counts as paid whatever was. */
  lemma SomeRowIsPaid(rows: seq<Installment>, paid: int)
    requires !Positive(rows) && |rows| >= 2 && 0 <= paid
    requires forall i :: 0 <= i < |rows| - 1 ==> rows[i].amount == rows[0].amount >= 0
    ensures exists i :: 0 <= i < |rows| && RowPaid(rows, paid, i)
  {
    var n := |rows| - 1;
    var others := rows[..n];
    PrefixPlan(rows, others, paid, n);
    LeftIsPaidLessPlanned(others, paid, n);
    if rows[0].amount == 0 {
      assert RowPaid(rows, paid, 0);
    } else {
      assert rows[n].amount <= 0 <= Left(rows, paid, n);
      assert RowPaid(rows, paid, n);
    }
  }

  lemma NewPlanRows(balance: int, count: int, first: Date, frequency: Frequency, emails: bool)
    requires count >= 2 && Valid(first) && balance > 0
    ensures var rows := NewPlan(balance, count, first, frequency, emails).installments;
            && |rows| == count
            && (Positive(rows) <==> Splittable(balance, count))
            && rows[0].amount == SplitAmount(balance, count)[0]
            && (forall i :: 0 <= i < count - 1 ==> rows[i].amount == rows[0].amount >= 0)
            && (forall i :: 0 <= i < count ==> rows[i].reminder == Some(false))
  {
    NewPlanAsksForBalance(balance, count, first, frequency, emails);
    SplitAmountsAre(balance, count);
  }

  /** Made as it is, with every reminder open, a plan's reminders are right exactly when no row is paid. */
  lemma OpenRemindersMatch(inv: Invoice, k: nat, rows: seq<Installment>, paid: int)
    requires InForce(inv.plans) == k && inv.plans[k].installments == rows && AmountPaid(inv.payments) == paid
    requires forall i :: 0 <= i < |rows| ==> rows[i].reminder == Some(false)
    ensures RemindersMatch(inv) <==> forall i :: 0 <= i < |rows| ==> !RowPaid(rows, paid, i)
  {
    if RemindersMatch(inv) {
      forall i | 0 <= i < |rows| ensures !RowPaid(rows, paid, i) {
        assert rows[i].reminder.Some? && (rows[i].reminder.value <==> RowPaid(rows, paid, i));
      }
    }
  }

  /**
   Making a plan does not look at earlier payments or at what the split came to: its reminders are
   right at once exactly when the balance splits into positive installments and earlier payments
   do not already cover the first.
   */
  lemma NewPlanMatchesReminders(inv: Invoice, op: Op)
    requires op.MakePlan? && Allowed(inv, op) && AmountPaid(inv.payments) >= 0
    ensures RemindersMatch(Step(inv, op)) <==> StartsRight(inv, op.count)
  {
    var plan := NewPlan(Balance(inv), op.count, op.first, op.frequency, op.emails);
    var after, rows, paid := Step(inv, op), plan.installments, AmountPaid(inv.payments);
    AddingPlanAgrees(inv.plans, plan, inv.status);
    assert after.plans[|inv.plans|] == plan;
    NewPlanRows(Balance(inv), op.count, op.first, op.frequency, op.emails);
    OpenRemindersMatch(after, |inv.plans|, rows, paid);
    if Positive(rows) {
      NoRowIsPaid(rows, paid);
    } else {
      SomeRowIsPaid(rows, paid);
    }
  }

  /** One cent in two installments: the second asks for nothing and counts as paid, its reminder is open. */
  lemma OneCentPlanIsOff(number: Number, first: Date)
    requires Valid(first)
    ensures var inv := Invoice(Issued, Some(number), [Line(1, 100, Earned, None)], [], []);
            var op := MakePlan(2, first, Monthly, first, false, false);
            Consistent(inv) && Allowed(inv, op) && !RemindersMatch(Step(inv, op))
  {
    var line := Line(1, 100, Earned, None);
    var inv := Invoice(Issued, Some(number), [line], [], []);
    assert [line][..0] == [] && LineAmount(line) == 1;
    assert Subtotal([line]) == Subtotal([line][..0]) + LineAmount(line) == 1;
    NewPlanMatchesReminders(inv, MakePlan(2, first, Monthly, first, false, false));
  }

  /**
   What decides whether reminders are right after a run: nothing that changes payments came since the
   plan in force was made, and then it must have been made right; or a payment or void settled them.
   */
  ghost predicate RemindersAreRight(ops: seq<Op>) {
    ops == [] || (
      var n := |ops| - 1;
      var before, op := Run(NewInvoice, ops[..n]), ops[n];
      if !Allowed(before, op) then RemindersAreRight(ops[..n])
      else match op
        case MakePlan(count, _, _, _, _, _) => StartsRight(before, count)
        case SetEmailReminders(_, _, _) => RemindersAreRight(ops[..n])
        case _ => true)
  }

  lemma SettingEmailsKeepsReminders(inv: Invoice, op: Op)
    requires Consistent(inv) && op.SetEmailReminders? && Allowed(inv, op)
    ensures RemindersMatch(Step(inv, op)) <==> RemindersMatch(inv)
  {
    assert op.plan == InForce(inv.plans);
    InForceAfterUpdate(inv.plans, inv.plans[op.plan].(emailReminders := op.on));
  }

  lemma NoPlanNoReminders(inv: Invoice)
    requires InForce(inv.plans) < 0
    ensures RemindersMatch(inv)
  {}

  /** An invoice that is a draft or void has no plan in force. */
  lemma ClosedHasNoPlan(inv: Invoice)
    requires Consistent(inv) && (inv.status == Draft || inv.status == Void)
    ensures InForce(inv.plans) < 0
  {}

  lemma CancelingEndsPlan(inv: Invoice, op: Op)
    requires Consistent(inv) && op.CancelPlan? && Allowed(inv, op)
    ensures InForce(Step(inv, op).plans) < 0
  {
    StepKeepsConsistent(inv, op);
  }

  /** Payments and voids settle the reminders; where no plan is left in force there are none to be wrong. */
  lemma OtherStepsMatchReminders(inv: Invoice, op: Op)
    requires Consistent(inv) && Allowed(inv, op) && !op.MakePlan? && !op.SetEmailReminders?
    ensures RemindersMatch(Step(inv, op))
  {
    if op.Pay? {
      SettlingMatchesReminders(inv.(payments := inv.payments + [Payment(op.amount, op.account, op.source, false)]));
    } else if op.VoidPayment? {
      var voided := inv.payments[op.payment].(voided := true);
      SettlingMatchesReminders(inv.(payments := inv.payments[op.payment := voided]));
    } else if op.CancelPlan? {
      CancelingEndsPlan(inv, op);
      NoPlanNoReminders(Step(inv, op));
    } else {
      StepEndsClosed(inv, op);
      NoPlanNoReminders(Step(inv, op));
    }
  }

  lemma StepEndsClosed(inv: Invoice, op: Op)
    requires Consistent(inv) && Allowed(inv, op)
    requires op.AddLines? || op.RemoveLine? || op.Issue? || op.VoidInvoice?
    ensures InForce(Step(inv, op).plans) < 0
  {
    if op.VoidInvoice? {
      StepKeepsConsistent(inv, op);
      ClosedHasNoPlan(Step(inv, op));
    } else {
      ClosedHasNoPlan(inv);
      assert Step(inv, op).plans == inv.plans;
    }
  }

  /** Over any run, every surviving reminder of the plan in force is right exactly then. */
  lemma {:induction false} RemindersMatchOverRuns(ops: seq<Op>)
    ensures RemindersMatch(Run(NewInvoice, ops)) <==> RemindersAreRight(ops)
  {
    if ops != [] {
      var n := |ops| - 1;
      var before, op := Run(NewInvoice, ops[..n]), ops[n];
      RemindersMatchOverRuns(ops[..n]);
      EveryRunIsConsistent(NewInvoice, ops[..n]);
      PaidIsNonNegative(before.payments);
      if Allowed(before, op) {
        if op.MakePlan? { NewPlanMatchesReminders(before, op); }
        else if op.SetEmailReminders? { SettingEmailsKeepsReminders(before, op); }
        else { OtherStepsMatchReminders(before, op); }
      }
    }
  }

  // ---- Canceled plans ----

  /** A canceled plan asks staff for nothing: the reminders it still has are completed ones. */
  ghost predicate Quiet(plan: Plan) {
    plan.status == Canceled ==> forall row :: row in plan.installments ==> row.reminder != Some(false)
  }

  ghost predicate CanceledAreQuiet(plans: seq<Plan>) {
    forall plan :: plan in plans ==> Quiet(plan)
  }

  lemma ReplacingKeepsQuiet(plans: seq<Plan>, k: nat, plan: Plan)
    requires CanceledAreQuiet(plans) && k < |plans| && Quiet(plan)
    ensures CanceledAreQuiet(plans[k := plan])
  {
    assert forall p :: p in plans[k := plan] ==> p in plans || p == plan;
  }

  lemma StepKeepsQuiet(inv: Invoice, op: Op)
    requires CanceledAreQuiet(inv.plans)
    ensures CanceledAreQuiet(Step(inv, op).plans)
  {
    if Allowed(inv, op) {
      var after, k := Step(inv, op), InForce(inv.plans);
      match op
      case Pay(_, _, _) => if k >= 0 { ReplacingKeepsQuiet(inv.plans, k, after.plans[k]); }
      case VoidPayment(_, _) => if k >= 0 { ReplacingKeepsQuiet(inv.plans, k, after.plans[k]); }
      case VoidInvoice(_) => if k >= 0 { ReplacingKeepsQuiet(inv.plans, k, CanceledPlan(inv.plans[k])); }
      case CancelPlan(n) => ReplacingKeepsQuiet(inv.plans, n, CanceledPlan(inv.plans[n]));
      case SetEmailReminders(n, _, _) => ReplacingKeepsQuiet(inv.plans, n, after.plans[n]);
      case _ =>
    }
  }

  /** Over any run no canceled plan, of a void invoice or of an open one, has an open reminder. */
  lemma {:induction false} CanceledPlansAreQuiet(ops: seq<Op>)
    ensures CanceledAreQuiet(Run(NewInvoice, ops).plans)
  {
    if ops != [] {
      var n := |ops| - 1;
      CanceledPlansAreQuiet(ops[..n]);
      StepKeepsQuiet(Run(NewInvoice, ops[..n]), ops[n]);
    }
  }

  // ---- The plan against the balance over a run ----

  ghost predicate SameAmounts(a: seq<Installment>, b: seq<Installment>) {
    |a| == |b| && forall i :: 0 <= i < |a| ==> a[i].amount == b[i].amount && a[i].due == b[i].due
  }

  /** No step but a cancellation touches a plan's amounts or dates, and canceling is final. */
  lemma StepKeepsPlan(inv: Invoice, op: Op, k: nat)
    requires k < |inv.plans|
    ensures k < |Step(inv, op).plans|
    ensures SameAmounts(inv.plans[k].installments, Step(inv, op).plans[k].installments)
    ensures inv.plans[k].status == Canceled ==> Step(inv, op).plans[k] == inv.plans[k]
  {}

  lemma {:induction false} RunKeepsPlan(inv: Invoice, ops: seq<Op>, k: nat)
    requires k < |inv.plans|
    ensures k < |Run(inv, ops).plans|
    ensures SameAmounts(inv.plans[k].installments, Run(inv, ops).plans[k].installments)
    ensures inv.plans[k].status == Canceled ==> Run(inv, ops).plans[k] == inv.plans[k]
  {
    if ops != [] {
      RunKeepsPlan(inv, ops[..|ops| - 1], k);
      StepKeepsPlan(Run(inv, ops[..|ops| - 1]), ops[|ops| - 1], k);
    }
  }

  lemma {:induction false} SameAmountsSameTotal(a: seq<Installment>, b: seq<Installment>, n: nat)
    requires SameAmounts(a, b) && n <= |a|
    ensures PlannedBefore(a, n) == PlannedBefore(b, n)
  {
    if n > 0 { SameAmountsSameTotal(a, b, n - 1); }
  }

  /** What a plan asks for against what is unpaid, from amounts alone. */
  lemma PlanAgainstAmounts(rows: seq<Installment>, subtotal: int, earlier: int, paid: int)
    requires Positive(rows) && rows != [] && PlanTotal(rows) == subtotal - earlier && 0 <= paid && 0 <= earlier
    ensures Unapplied(rows, paid) == Max(subtotal - paid - earlier, 0)
    ensures AllRowsPaid(rows, paid) <==> subtotal - paid <= earlier
  {
    AppliedTotalIsCapped(rows, paid);
    AllRowsPaidMeansPlanIsPaid(rows, paid);
  }

  /** The plan asks for the balance less what had been paid before it, and its rows are paid when that is. */
  ghost predicate Tracks(inv: Invoice, k: nat, earlier: int)
    requires k < |inv.plans|
  {
    var rows, paid := inv.plans[k].installments, AmountPaid(inv.payments);
    && Unapplied(rows, paid) == Max(Balance(inv) - earlier, 0)
    && (AllRowsPaid(rows, paid) <==> Balance(inv) <= earlier)
  }

  /** The plan is in force, was made for the whole balance, and is made of positive installments. */
  ghost predicate FreshPlan(inv: Invoice, k: nat) {
    && Consistent(inv) && IsOpen(inv.status) && k < |inv.plans|
    && inv.plans[k].installments != [] && Positive(inv.plans[k].installments)
    && PlanTotal(inv.plans[k].installments) == Balance(inv)
  }

  lemma PlanStaysSame(inv: Invoice, ops: seq<Op>, k: nat)
    requires FreshPlan(inv, k)
    ensures var rows := Run(inv, ops).plans;
            && k < |rows| && rows[k].installments != []
            && Positive(rows[k].installments) && PlanTotal(rows[k].installments) == Balance(inv)
  {
    RunKeepsPlan(inv, ops, k);
    var planned, rows := inv.plans[k].installments, Run(inv, ops).plans[k].installments;
    SameAmountsSameTotal(planned, rows, |rows|);
  }

  lemma BalanceLater(inv: Invoice, ops: seq<Op>)
    requires Consistent(inv) && IsOpen(inv.status)
    ensures var after := Run(inv, ops);
            && AmountPaid(after.payments) >= 0
            && (InForce(after.plans) >= 0 ==>
                  && Balance(after) == Subtotal(inv.lines) - AmountPaid(after.payments)
                  && (after.status == Paid <==> Balance(after) <= 0))
  {
    EveryRunIsConsistent(inv, ops);
    PaidIsNonNegative(Run(inv, ops).payments);
    IssuedTotalIsFixed(inv, ops);
  }

  /**
   For as long as a plan is in force, whatever is paid or voided afterwards: it asks for less
   than the balance by exactly what had been paid before it was made (capped by the balance),
   and all its rows are paid exactly when the rest is. So plan and balance agree throughout,
   and all rows are paid exactly when the invoice is, when nothing had been paid before.
   */
  lemma PlanTracksBalance(made: Invoice, k: nat, ops: seq<Op>)
    requires FreshPlan(made, k) && InForce(Run(made, ops).plans) == k
    ensures Tracks(Run(made, ops), k, AmountPaid(made.payments))
    ensures AmountPaid(made.payments) == 0 ==>
              var inv := Run(made, ops);
              var rows, paid := inv.plans[k].installments, AmountPaid(inv.payments);
              Unapplied(rows, paid) == Balance(inv) && (AllRowsPaid(rows, paid) <==> inv.status == Paid)
  {
    var inv := Run(made, ops);
    PaidIsNonNegative(made.payments);
    PlanStaysSame(made, ops, k);
    BalanceLater(made, ops);
    EveryRunIsConsistent(made, ops);
    var earlier, paid := AmountPaid(made.payments), AmountPaid(inv.payments);
    PlanAgainstAmounts(inv.plans[k].installments, Subtotal(made.lines), earlier, paid);
  }

  /** Making a plan of a balance that can be split leaves such a plan, and the payments as they were. */
  lemma MakingLeavesFreshPlan(start: Invoice, make: Op)
    requires Consistent(start) && make.MakePlan? && Allowed(start, make)
    ensures Step(start, make).payments == start.payments
    ensures FreshPlan(Step(start, make), |start.plans|) <==> Splittable(Balance(start), make.count)
  {
    StepKeepsConsistent(start, make);
    NewPlanAsksForBalance(Balance(start), make.count, make.first, make.frequency, make.emails);
    assert Step(start, make).plans[|start.plans|]
        == NewPlan(Balance(start), make.count, make.first, make.frequency, make.emails);
  }

  /** So a plan and the balance are apart by what had been paid before the plan, at any later moment of any run. */
  lemma PlanAgainstBalance(start: Invoice, make: Op, ops: seq<Op>)
    requires Consistent(start) && make.MakePlan? && Allowed(start, make)
    ensures Splittable(Balance(start), make.count) && InForce(Run(Step(start, make), ops).plans) == |start.plans| ==>
              Tracks(Run(Step(start, make), ops), |start.plans|, AmountPaid(start.payments))
  {
    var made := Step(start, make);
    if Splittable(Balance(start), make.count) && InForce(Run(made, ops).plans) == |start.plans| {
      MakingLeavesFreshPlan(start, make);
      PlanTracksBalance(made, |start.plans|, ops);
    }
  }
}

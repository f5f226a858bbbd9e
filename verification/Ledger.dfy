/**
 One invoice: its lines, payments and payment plans, and what each billing service does to it.

 The stored status is a function of the lines and the live payments, and the plan in force
 follows it. Every service is one atomic step; a step that is not allowed changes nothing.
 */
module Ledger {
  import opened Wrappers
  import opened Money
  import opened Calendar

  datatype Status = Draft | Issued | PartiallyPaid | Paid | Void

  datatype Funds = Earned | Advance

  datatype Account = Operating | Trust

  /** Quantities are hundredths, prices are cents; a price may be negative, as for a discount. */
  datatype Line = Line(quantity: nat, unitPrice: int, funds: Funds, timeEntry: Option<nat>)

  datatype ProviderId = ProviderId(connection: nat, externalId: string)

  datatype Payment = Payment(amount: int, account: Account, source: Option<ProviderId>, voided: bool)

  datatype PlanStatus = Active | Completed | Canceled

  /** The staff reminder is completed or open; None once it was removed. */
  datatype Installment = Installment(due: Date, amount: int, reminder: Option<bool>)

  datatype Plan = Plan(status: PlanStatus, emailReminders: bool, installments: seq<Installment>)

  datatype Number = Number(prefix: string, year: nat, value: nat)

  /** Plans are in the order they were made. */
  datatype Invoice = Invoice(
    status: Status,
    number: Option<Number>,
    lines: seq<Line>,
    payments: seq<Payment>,
    plans: seq<Plan>)

  const MAX_INSTALLMENTS := 60

  const NewInvoice := Invoice(Draft, None, [], [], [])

  // ---- What the tables say ----

  function LineAmount(line: Line): int {
    RoundHalfUp(line.quantity * line.unitPrice, 100)
  }

  function Subtotal(lines: seq<Line>): int {
    if lines == [] then 0 else Subtotal(lines[..|lines| - 1]) + LineAmount(lines[|lines| - 1])
  }

  function SubtotalFor(lines: seq<Line>, funds: Funds): int {
    if lines == [] then 0 else
      var last := lines[|lines| - 1];
      SubtotalFor(lines[..|lines| - 1], funds) + if last.funds == funds then LineAmount(last) else 0
  }

  /** The total of the payments that are not void. */
  function AmountPaid(payments: seq<Payment>): int {
    if payments == [] then 0 else
      var last := payments[|payments| - 1];
      AmountPaid(payments[..|payments| - 1]) + if last.voided then 0 else last.amount
  }

  function PaidInto(payments: seq<Payment>, account: Account): int {
    if payments == [] then 0 else
      var last := payments[|payments| - 1];
      PaidInto(payments[..|payments| - 1], account)
      + if last.voided || last.account != account then 0 else last.amount
  }

  function Balance(inv: Invoice): int {
    if inv.status == Void then 0 else Subtotal(inv.lines) - AmountPaid(inv.payments)
  }

  predicate IsOpen(status: Status) {
    status in {Issued, PartiallyPaid}
  }

  /** The newest plan that was not canceled, or -1. */
  function InForce(plans: seq<Plan>): (k: int)
    ensures -1 <= k < |plans|
    ensures k >= 0 ==> plans[k].status != Canceled
    ensures forall i :: k < i < |plans| ==> plans[i].status == Canceled
  {
    if plans == [] then -1
    else if plans[|plans| - 1].status != Canceled then |plans| - 1
    else InForce(plans[..|plans| - 1])
  }

  function StatusFor(paid: int, subtotal: int): Status {
    if paid >= subtotal then Paid else if paid > 0 then PartiallyPaid else Issued
  }

  // ---- Applying payments to installments, oldest first ----

  /** What is left of a payment total after the first n installments took their part. */
  function Left(rows: seq<Installment>, paid: int, n: nat): int
    requires n <= |rows|
  {
    if n == 0 then paid else
      var before := Left(rows, paid, n - 1);
      before - Min(before, rows[n - 1].amount)
  }

  function Applied(rows: seq<Installment>, paid: int, i: nat): int
    requires i < |rows|
  {
    Min(Left(rows, paid, i), rows[i].amount)
  }

  predicate RowPaid(rows: seq<Installment>, paid: int, i: nat)
    requires i < |rows|
  {
    Applied(rows, paid, i) >= rows[i].amount
  }

  // ---- What each service changes ----

  function SyncedRow(rows: seq<Installment>, paid: int, i: nat): Installment
    requires i < |rows|
  {
    if rows[i].reminder.None? then rows[i] else rows[i].(reminder := Some(RowPaid(rows, paid, i)))
  }

  /** Reminders and plan status matched to what has been paid. */
  function SyncedPlan(plan: Plan, paid: int, status: Status): (synced: Plan)
    ensures |synced.installments| == |plan.installments|
  {
    var rows := plan.installments;
    plan.(status := if status == Paid then Completed else Active,
          installments := seq(|rows|, i requires 0 <= i < |rows| => SyncedRow(rows, paid, i)))
  }

  /** The stored status and plan, brought in line with the payments. */
  function Settled(inv: Invoice): Invoice {
    var paid := AmountPaid(inv.payments);
    var status := if IsOpen(inv.status) || inv.status == Paid then StatusFor(paid, Subtotal(inv.lines)) else inv.status;
    var k := InForce(inv.plans);
    inv.(status := status,
         plans := if k < 0 then inv.plans else inv.plans[k := SyncedPlan(inv.plans[k], paid, status)])
  }

  function NewPlan(balance: int, count: nat, first: Date, frequency: Frequency, emails: bool): (plan: Plan)
    requires count > 0 && Valid(first)
    ensures plan.status == Active && |plan.installments| == count
  {
    var dates, amounts := InstallmentDates(first, count, frequency), SplitAmount(balance, count);
    Plan(Active, emails, seq(count, i requires 0 <= i < count => Installment(dates[i], amounts[i], Some(false))))
  }

  /** A canceled plan keeps its completed reminders and loses its open ones. */
  function CanceledPlan(plan: Plan): Plan {
    var rows := plan.installments;
    plan.(status := Canceled,
          installments := seq(|rows|, i requires 0 <= i < |rows| =>
                                if rows[i].reminder == Some(false) then rows[i].(reminder := None) else rows[i]))
  }

  function FreeLine(line: Line): Line {
    line.(timeEntry := None)
  }

  function FreedLines(lines: seq<Line>): seq<Line> {
    seq(|lines|, i requires 0 <= i < |lines| => FreeLine(lines[i]))
  }

  datatype Op =
    | AddLines(lines: seq<Line>)
    | RemoveLine(line: nat)
    | Issue(number: Number)
    | Pay(amount: int, account: Account, source: Option<ProviderId>)
    | VoidPayment(payment: nat, reasonGiven: bool)
    | VoidInvoice(reasonGiven: bool)
    | MakePlan(count: int, first: Date, frequency: Frequency, today: Date, emails: bool, reachable: bool)
    | CancelPlan(plan: nat)
    | SetEmailReminders(plan: nat, on: bool, reachable: bool)

  predicate Allowed(inv: Invoice, op: Op) {
    match op
    case AddLines(_) => inv.status == Draft
    case RemoveLine(i) => inv.status == Draft && i < |inv.lines|
    case Issue(_) => inv.status == Draft && inv.lines != [] && Subtotal(inv.lines) > 0
    case Pay(amount, _, _) => IsOpen(inv.status) && 0 < amount <= Balance(inv)
    case VoidPayment(i, reason) => i < |inv.payments| && !inv.payments[i].voided && reason
    case VoidInvoice(reason) =>
      IsOpen(inv.status) && (forall p :: p in inv.payments ==> p.voided) && reason
    case MakePlan(count, first, _, today, emails, reachable) =>
      IsOpen(inv.status) && Balance(inv) > 0 && InForce(inv.plans) < 0
      && 2 <= count <= MAX_INSTALLMENTS
      && Valid(first) && !Before(first, today)
      && (emails ==> reachable)
    case CancelPlan(k) => k < |inv.plans| && inv.plans[k].status != Canceled
    case SetEmailReminders(k, on, reachable) =>
      k < |inv.plans| && inv.plans[k].status == Active && (on ==> reachable)
  }

  function Apply(inv: Invoice, op: Op): Invoice
    requires Allowed(inv, op)
  {
    match op
    case AddLines(lines) => inv.(lines := inv.lines + lines)
    case RemoveLine(i) => inv.(lines := inv.lines[..i] + inv.lines[i + 1..])
    case Issue(number) => inv.(status := Issued, number := Some(number))
    case Pay(amount, account, source) =>
      Settled(inv.(payments := inv.payments + [Payment(amount, account, source, false)]))
    case VoidPayment(i, _) =>
      Settled(inv.(payments := inv.payments[i := inv.payments[i].(voided := true)]))
    case VoidInvoice(_) =>
      var k := InForce(inv.plans);
      inv.(status := Void,
           lines := FreedLines(inv.lines),
           plans := if k < 0 then inv.plans else inv.plans[k := CanceledPlan(inv.plans[k])])
    case MakePlan(count, first, frequency, _, emails, _) =>
      inv.(plans := inv.plans + [NewPlan(Balance(inv), count, first, frequency, emails)])
    case CancelPlan(k) => inv.(plans := inv.plans[k := CanceledPlan(inv.plans[k])])
    case SetEmailReminders(k, on, _) => inv.(plans := inv.plans[k := inv.plans[k].(emailReminders := on)])
  }

  function Step(inv: Invoice, op: Op): Invoice {
    if Allowed(inv, op) then Apply(inv, op) else inv
  }

  function Run(inv: Invoice, ops: seq<Op>): Invoice {
    if ops == [] then inv else Step(Run(inv, ops[..|ops| - 1]), ops[|ops| - 1])
  }

  // ---- The ledger invariant ----

  ghost predicate PlansAgree(plans: seq<Plan>, status: Status) {
    forall i :: 0 <= i < |plans| && plans[i].status != Canceled ==>
      && i == InForce(plans)
      && (IsOpen(status) || status == Paid)
      && (plans[i].status == Completed <==> status == Paid)
  }

  /** Only the last installment of a plan can ask for less than nothing. */
  ghost predicate Shaped(plan: Plan) {
    forall i :: 0 <= i < |plan.installments| - 1 ==> plan.installments[i].amount >= 0
  }

  ghost predicate AllShaped(plans: seq<Plan>) {
    forall plan :: plan in plans ==> Shaped(plan)
  }

  ghost predicate Consistent(inv: Invoice) {
    && (inv.number.None? <==> inv.status == Draft)
    && (forall p :: p in inv.payments ==> p.amount > 0)
    && (inv.status == Draft ==> inv.payments == [] && inv.plans == [])
    && (inv.status == Void ==> forall p :: p in inv.payments ==> p.voided)
    && (inv.status == Void ==> forall l :: l in inv.lines ==> l.timeEntry.None?)
    && (IsOpen(inv.status) || inv.status == Paid ==>
          && 0 <= AmountPaid(inv.payments) <= Subtotal(inv.lines)
          && 0 < Subtotal(inv.lines)
          && inv.status == StatusFor(AmountPaid(inv.payments), Subtotal(inv.lines)))
    && PlansAgree(inv.plans, inv.status)
    && AllShaped(inv.plans)
  }

  lemma {:induction false} PaidIsNonNegative(payments: seq<Payment>)
    requires forall p :: p in payments ==> p.amount > 0
    ensures AmountPaid(payments) >= 0
    ensures AmountPaid(payments) == 0 <==> forall p :: p in payments ==> p.voided
  {
    if payments != [] {
      var n := |payments| - 1;
      var rest, last := payments[..n], payments[n];
      assert payments == rest + [last];
      PaidIsNonNegative(rest);
    }
  }

  lemma PaidAppend(payments: seq<Payment>, p: Payment)
    ensures AmountPaid(payments + [p]) == AmountPaid(payments) + if p.voided then 0 else p.amount
  {
    assert (payments + [p])[..|payments|] == payments;
  }

  lemma {:induction false} PaidAfterVoid(payments: seq<Payment>, i: nat)
    requires i < |payments| && !payments[i].voided
    ensures AmountPaid(payments[i := payments[i].(voided := true)]) == AmountPaid(payments) - payments[i].amount
  {
    var n := |payments| - 1;
    var after := payments[i := payments[i].(voided := true)];
    if i < n {
      assert after[..n] == payments[..n][i := payments[i].(voided := true)];
      PaidAfterVoid(payments[..n], i);
    } else {
      assert after[..n] == payments[..n];
    }
  }

  lemma {:induction false} FreeingKeepsSubtotal(lines: seq<Line>)
    ensures Subtotal(FreedLines(lines)) == Subtotal(lines)
  {
    if lines != [] {
      var n := |lines| - 1;
      assert FreedLines(lines)[..n] == FreedLines(lines[..n]);
      FreeingKeepsSubtotal(lines[..n]);
    }
  }

  /** What is billed: nothing without lines, and each line's quantity times its price, rounded, on top. */
  lemma {:induction false} SubtotalAdds(a: seq<Line>, b: seq<Line>)
    ensures Subtotal([]) == 0 && Subtotal(a + b) == Subtotal(a) + Subtotal(b)
    ensures forall l :: Subtotal([l]) == RoundHalfUp(l.quantity * l.unitPrice, 100)
  {
    forall l ensures Subtotal([l]) == RoundHalfUp(l.quantity * l.unitPrice, 100) { assert [l][..0] == []; }
    if b == [] {
      assert a + b == a;
    } else {
      var n := |b| - 1;
      assert (a + b)[..|a| + n] == a + b[..n];
      SubtotalAdds(a, b[..n]);
    }
  }

  /** A removed line comes off what is billed. */
  lemma RemovingTakesOff(inv: Invoice, i: nat)
    requires Allowed(inv, RemoveLine(i))
    ensures var l := inv.lines[i];
            Subtotal(Step(inv, RemoveLine(i)).lines)
            == Subtotal(inv.lines) - RoundHalfUp(l.quantity * l.unitPrice, 100)
  {
    var before, after := inv.lines[..i], inv.lines[i + 1..];
    assert inv.lines == before + [inv.lines[i]] + after;
    SubtotalAdds(before + [inv.lines[i]], after);
    SubtotalAdds(before, [inv.lines[i]]);
    SubtotalAdds(before, after);
  }

  /** Replacing the plan in force keeps it the only one. */
  lemma ReplacingPlanAgrees(plans: seq<Plan>, k: nat, plan: Plan, before: Status, after: Status)
    requires PlansAgree(plans, before) && k < |plans| && plans[k].status != Canceled
    requires plan.status != Canceled ==>
               (IsOpen(after) || after == Paid) && (plan.status == Completed <==> after == Paid)
    ensures PlansAgree(plans[k := plan], after)
  {
    var next := plans[k := plan];
    assert forall i :: 0 <= i < |plans| && i != k ==> plans[i].status == Canceled;
    forall i | 0 <= i < |next| && next[i].status != Canceled
      ensures i == k && i == InForce(next)
    {
    }
  }

  ghost predicate SameAmountsIn(a: Plan, b: Plan) {
    && |a.installments| == |b.installments|
    && forall i :: 0 <= i < |a.installments| ==> a.installments[i].amount == b.installments[i].amount
  }

  lemma ReplacingKeepsShaped(plans: seq<Plan>, k: nat, plan: Plan)
    requires AllShaped(plans) && k < |plans| && SameAmountsIn(plans[k], plan)
    ensures AllShaped(plans[k := plan])
  {
    assert plans[k] in plans;
    forall p | p in plans[k := plan] ensures Shaped(p) { assert p in plans || p == plan; }
  }

  lemma NewPlanIsShaped(balance: int, count: nat, first: Date, frequency: Frequency, emails: bool)
    requires count >= 2 && Valid(first) && balance > 0
    ensures Shaped(NewPlan(balance, count, first, frequency, emails))
  {
    SplitAmountsAre(balance, count);
    QuotientPositive(balance, count);
  }

  lemma NoPlanAgrees(plans: seq<Plan>, status: Status)
    requires InForce(plans) < 0
    ensures PlansAgree(plans, status)
  {}

  lemma SettledIsConsistent(inv: Invoice, before: Status)
    requires IsOpen(inv.status) || inv.status == Paid
    requires inv.number.Some? && PlansAgree(inv.plans, before) && AllShaped(inv.plans)
    requires forall p :: p in inv.payments ==> p.amount > 0
    requires 0 <= AmountPaid(inv.payments) <= Subtotal(inv.lines) && 0 < Subtotal(inv.lines)
    ensures Consistent(Settled(inv))
  {
    var k := InForce(inv.plans);
    var after := Settled(inv);
    if k >= 0 {
      ReplacingPlanAgrees(inv.plans, k, after.plans[k], before, after.status);
      ReplacingKeepsShaped(inv.plans, k, after.plans[k]);
    } else {
      NoPlanAgrees(inv.plans, after.status);
    }
  }

  lemma PayKeepsConsistent(inv: Invoice, amount: int, account: Account, source: Option<ProviderId>)
    requires Consistent(inv) && Allowed(inv, Pay(amount, account, source))
    ensures Consistent(Apply(inv, Pay(amount, account, source)))
  {
    var p := Payment(amount, account, source, false);
    PaidAppend(inv.payments, p);
    SettledIsConsistent(inv.(payments := inv.payments + [p]), inv.status);
  }

  lemma VoidPaymentKeepsConsistent(inv: Invoice, i: nat)
    requires Consistent(inv) && Allowed(inv, VoidPayment(i, true))
    ensures Consistent(Apply(inv, VoidPayment(i, true)))
  {
    assert inv.payments[i] in inv.payments;
    PaidAfterVoid(inv.payments, i);
    var payments := inv.payments[i := inv.payments[i].(voided := true)];
    forall p | p in payments ensures p.amount > 0 {
      var j :| 0 <= j < |payments| && payments[j] == p;
      assert inv.payments[j] in inv.payments;
    }
    PaidIsNonNegative(payments);
    SettledIsConsistent(inv.(payments := payments), inv.status);
  }

  lemma VoidInvoiceKeepsConsistent(inv: Invoice)
    requires Consistent(inv) && Allowed(inv, VoidInvoice(true))
    ensures Consistent(Apply(inv, VoidInvoice(true)))
  {
    var k := InForce(inv.plans);
    if k >= 0 {
      ReplacingPlanAgrees(inv.plans, k, CanceledPlan(inv.plans[k]), inv.status, Void);
      ReplacingKeepsShaped(inv.plans, k, CanceledPlan(inv.plans[k]));
    } else {
      NoPlanAgrees(inv.plans, Void);
    }
  }

  /** A new plan is the one in force when no other is. */
  lemma AddingPlanAgrees(plans: seq<Plan>, plan: Plan, status: Status)
    requires InForce(plans) < 0 && plan.status == Active && IsOpen(status)
    ensures PlansAgree(plans + [plan], status) && InForce(plans + [plan]) == |plans|
  {}

  lemma MakePlanKeepsConsistent(inv: Invoice, op: Op)
    requires Consistent(inv) && op.MakePlan? && Allowed(inv, op)
    ensures Consistent(Apply(inv, op))
  {
    var plan := NewPlan(Balance(inv), op.count, op.first, op.frequency, op.emails);
    AddingPlanAgrees(inv.plans, plan, inv.status);
    NewPlanIsShaped(Balance(inv), op.count, op.first, op.frequency, op.emails);
  }

  lemma CancelPlanKeepsConsistent(inv: Invoice, k: nat)
    requires Consistent(inv) && Allowed(inv, CancelPlan(k))
    ensures Consistent(Apply(inv, CancelPlan(k)))
  {
    ReplacingPlanAgrees(inv.plans, k, CanceledPlan(inv.plans[k]), inv.status, inv.status);
    ReplacingKeepsShaped(inv.plans, k, CanceledPlan(inv.plans[k]));
  }

  lemma SetEmailsKeepsConsistent(inv: Invoice, op: Op)
    requires Consistent(inv) && op.SetEmailReminders? && Allowed(inv, op)
    ensures Consistent(Apply(inv, op))
  {
    var plan := inv.plans[op.plan].(emailReminders := op.on);
    ReplacingPlanAgrees(inv.plans, op.plan, plan, inv.status, inv.status);
    ReplacingKeepsShaped(inv.plans, op.plan, plan);
  }

  lemma StepKeepsConsistent(inv: Invoice, op: Op)
    requires Consistent(inv)
    ensures Consistent(Step(inv, op))
  {
    if Allowed(inv, op) {
      match op
      case AddLines(_) =>
      case RemoveLine(_) =>
      case Issue(_) =>
      case Pay(amount, account, source) => PayKeepsConsistent(inv, amount, account, source);
      case VoidPayment(i, _) => VoidPaymentKeepsConsistent(inv, i);
      case VoidInvoice(_) => VoidInvoiceKeepsConsistent(inv);
      case MakePlan(_, _, _, _, _, _) => MakePlanKeepsConsistent(inv, op);
      case CancelPlan(k) => CancelPlanKeepsConsistent(inv, k);
      case SetEmailReminders(_, _, _) => SetEmailsKeepsConsistent(inv, op);
    }
  }

  /** In every reachable state the stored status, number, payments, lines and plans agree. */
  lemma {:induction false} EveryRunIsConsistent(inv: Invoice, ops: seq<Op>)
    requires Consistent(inv)
    ensures Consistent(Run(inv, ops))
  {
    if ops != [] {
      var n := |ops| - 1;
      EveryRunIsConsistent(inv, ops[..n]);
      StepKeepsConsistent(Run(inv, ops[..n]), ops[n]);
    }
  }

  /** What a reader of the tables may rely on, spelled out for a run from a new draft. */
  lemma LedgerFacts(ops: seq<Op>)
    ensures var inv := Run(NewInvoice, ops);
            var paid, subtotal, k := AmountPaid(inv.payments), Subtotal(inv.lines), InForce(inv.plans);
            && (inv.number.Some? <==> inv.status != Draft)
            && (inv.status in {Draft, Void} ==> paid == 0 && k == -1)
            && (inv.status == Issued ==> paid == 0 < subtotal)
            && (inv.status == PartiallyPaid ==> 0 < paid < subtotal)
            && (inv.status == Paid ==> 0 < paid == subtotal)
            && (forall i :: 0 <= i < |inv.plans| && inv.plans[i].status != Canceled ==> i == k)
            && (k >= 0 ==> (inv.plans[k].status == Completed <==> inv.status == Paid))
            && (inv.status == Void ==> forall l :: l in inv.lines ==> l.timeEntry.None?)
            && Balance(inv) == (if inv.status == Void then 0 else subtotal - paid)
  {
    EveryRunIsConsistent(NewInvoice, ops);
    PaidIsNonNegative(Run(NewInvoice, ops).payments);
  }

  // ---- Payments are only ever added or voided ----

  ghost predicate OnlyVoided(before: seq<Payment>, after: seq<Payment>) {
    && |before| <= |after|
    && forall i :: 0 <= i < |before| ==>
         after[i] == before[i] || after[i] == before[i].(voided := true)
  }

  /** No step deletes or changes a payment, or makes a void one live again. */
  lemma {:induction false} PaymentsAreKept(inv: Invoice, ops: seq<Op>)
    ensures OnlyVoided(inv.payments, Run(inv, ops).payments)
  {
    if ops != [] {
      PaymentsAreKept(inv, ops[..|ops| - 1]);
    }
  }

  lemma StepKeepsTotal(inv: Invoice, op: Op)
    requires inv.status != Draft
    ensures Step(inv, op).status != Draft && Subtotal(Step(inv, op).lines) == Subtotal(inv.lines)
  {
    FreeingKeepsSubtotal(inv.lines);
    assert Allowed(inv, op) ==> Step(inv, op).lines == inv.lines || Step(inv, op).lines == FreedLines(inv.lines);
  }

  /** Once an invoice is no longer a draft, no step changes what it bills. */
  lemma {:induction false} IssuedTotalIsFixed(inv: Invoice, ops: seq<Op>)
    requires inv.status != Draft
    ensures Run(inv, ops).status != Draft
    ensures Subtotal(Run(inv, ops).lines) == Subtotal(inv.lines)
  {
    if ops != [] {
      var n := |ops| - 1;
      IssuedTotalIsFixed(inv, ops[..n]);
      StepKeepsTotal(Run(inv, ops[..n]), ops[n]);
    }
  }
}

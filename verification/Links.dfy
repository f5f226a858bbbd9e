/** Payment links: what is still owed into trust and into operating, one link for each. */
module Links {
  import opened Wrappers
  import opened Money
  import opened Ledger

  datatype Link = Link(account: Account, amount: int)

  /** Advances belong in trust and earned fees in operating. */
  function FundsOf(account: Account): Funds {
    match account case Trust => Advance case Operating => Earned
  }

  const ACCOUNTS: seq<Account> := [Trust, Operating]

  /** An account's part of the invoice less what was paid into it; negative when too much was. */
  function Unpaid(inv: Invoice, account: Account): int {
    SubtotalFor(inv.lines, FundsOf(account)) - PaidInto(inv.payments, account)
  }

  /** What is still unpaid of an account's part, but never more than the whole balance. */
  function DueInto(inv: Invoice, account: Account): int {
    Min(Unpaid(inv, account), Balance(inv))
  }

  /** The amount a link into the account should ask for; nothing unless something is owed. */
  function Asked(inv: Invoice, account: Account): (due: int)
    ensures due >= 0
  {
    if IsOpen(inv.status) && DueInto(inv, account) > 0 then DueInto(inv, account) else 0
  }

  /** The map asks an account for this amount when it is positive, and for nothing otherwise. */
  predicate Asks(due: map<Account, int>, account: Account, amount: int) {
    if amount > 0 then account in due && due[account] == amount else account !in due
  }

  /** Trust is asked for unpaid advances, operating for unpaid earned fees, neither beyond the balance. */
  ghost predicate AsksByFunds(inv: Invoice, due: map<Account, int>) {
    var balance := Subtotal(inv.lines) - AmountPaid(inv.payments);
    if inv.status == Issued || inv.status == PartiallyPaid then
      && Asks(due, Trust, Min(SubtotalFor(inv.lines, Advance) - PaidInto(inv.payments, Trust), balance))
      && Asks(due, Operating, Min(SubtotalFor(inv.lines, Earned) - PaidInto(inv.payments, Operating), balance))
    else due == map[]
  }

  /** Before anything is paid, an invoice of advances alone asks for all in trust, one of fees for all in operating. */
  lemma OneKindOfFunds(inv: Invoice, due: map<Account, int>, funds: Funds)
    requires AsksByFunds(inv, due) && (inv.status == Issued || inv.status == PartiallyPaid)
    requires inv.payments == [] && Subtotal(inv.lines) > 0 && forall l :: l in inv.lines ==> l.funds == funds
    ensures due == map[(if funds == Advance then Trust else Operating) := Subtotal(inv.lines)]
  {
    AllOfOneFunds(inv.lines, funds);
    var account := if funds == Advance then Trust else Operating;
    assert due[account] == Subtotal(inv.lines);
    forall a | a in due ensures a == account { assert a == Trust || a == Operating; }
  }

  lemma {:induction false} AllOfOneFunds(lines: seq<Line>, funds: Funds)
    requires forall l :: l in lines ==> l.funds == funds
    ensures SubtotalFor(lines, funds) == Subtotal(lines)
    ensures forall other: Funds :: other != funds ==> SubtotalFor(lines, other) == 0
  {
    if lines != [] {
      var n := |lines| - 1;
      assert lines[n] in lines && forall l :: l in lines[..n] ==> l in lines;
      AllOfOneFunds(lines[..n], funds);
    }
  }

  method AmountsDue(inv: Invoice) returns (due: map<Account, int>)
    ensures forall account :: account in due <==> Asked(inv, account) > 0
    ensures forall account :: account in due ==> due[account] == Asked(inv, account)
    ensures AsksByFunds(inv, due)
  {
    due := map[];
    if !IsOpen(inv.status) {
      return;
    }
    for n := 0 to |ACCOUNTS|
      invariant forall account :: account in due <==> account in ACCOUNTS[..n] && DueInto(inv, account) > 0
      invariant forall account :: account in due ==> due[account] == DueInto(inv, account)
    {
      var account := ACCOUNTS[n];
      var paid := PaidInto(inv.payments, account);
      var amount := Min(SubtotalFor(inv.lines, FundsOf(account)) - paid, Balance(inv));
      if amount > 0 {
        due := due[account := amount];
      }
      assert ACCOUNTS[..n + 1] == ACCOUNTS[..n] + [account];
    }
    assert ACCOUNTS[..|ACCOUNTS|] == ACCOUNTS;
    AccountsAreAll();
  }

  /** The amounts owed that no existing link already asks for, to the cent. */
  method LinksNeeded(inv: Invoice, links: seq<Link>) returns (needed: map<Account, int>)
    ensures forall account ::
              account in needed <==> Asked(inv, account) > 0 && Link(account, Asked(inv, account)) !in links
    ensures forall account :: account in needed ==> needed[account] == Asked(inv, account)
  {
    var due := AmountsDue(inv);
    needed := map account | account in due && Link(account, due[account]) !in links :: due[account];
  }

  /** An account's part not paid into it, up to the balance; nothing when that is negative or nothing is open. */
  function PartAsked(inv: Invoice, part: int, into: int): int {
    if inv.status != Issued && inv.status != PartiallyPaid then 0
    else Max(0, Min(part - into, Subtotal(inv.lines) - AmountPaid(inv.payments)))
  }

  /** Trust asks for the advances not paid into it, operating for the earned fees. */
  lemma AskedByFunds(inv: Invoice)
    ensures Asked(inv, Trust) == PartAsked(inv, SubtotalFor(inv.lines, Advance), PaidInto(inv.payments, Trust))
    ensures Asked(inv, Operating) == PartAsked(inv, SubtotalFor(inv.lines, Earned), PaidInto(inv.payments, Operating))
  {}

  datatype LinkRefusal = NothingLeft | LinksExist | NotServed

  /** A link to the account is needed: it owes something that no link asks for. */
  predicate Needed(inv: Invoice, links: seq<Link>, account: Account) {
    Asked(inv, account) > 0 && Link(account, Asked(inv, account)) !in links
  }

  lemma AccountsAreAll()
    ensures forall account: Account :: account in ACCOUNTS
  {
    forall account: Account ensures account in ACCOUNTS {
      if account == Trust { assert ACCOUNTS[0] == account; } else { assert ACCOUNTS[1] == account; }
    }
  }

  /** A request for each account that needs a link and is served; each that goes through adds its link. */
  method SendLinks(
    inv: Invoice, links: seq<Link>, needed: map<Account, int>, served: set<Account>, sent: map<Account, bool>)
    returns (after: seq<Link>)
    requires forall account: Account :: account in sent
    requires forall account :: account in needed ==> needed[account] == Asked(inv, account)
    ensures |after| >= |links| && after[..|links|] == links
    ensures forall account ::
              Link(account, Asked(inv, account)) in after[|links|..]
              <==> account in needed && account in served && sent[account]
    ensures forall l :: l in after[|links|..] ==> l.amount == Asked(inv, l.account)
  {
    AccountsAreAll();
    after := links;
    for n := 0 to |ACCOUNTS|
      invariant |after| >= |links| && after[..|links|] == links
      invariant forall account ::
                  Link(account, Asked(inv, account)) in after[|links|..]
                  <==> account in ACCOUNTS[..n] && account in needed && account in served && sent[account]
      invariant forall l :: l in after[|links|..] ==> l.amount == Asked(inv, l.account)
    {
      var account := ACCOUNTS[n];
      if account in needed && account in served && sent[account] {
        var link := Link(account, needed[account]);
        assert (after + [link])[|links|..] == after[|links|..] + [link];
        after := after + [link];
      }
      assert ACCOUNTS[..n + 1] == ACCOUNTS[..n] + [account];
    }
    assert ACCOUNTS[..|ACCOUNTS|] == ACCOUNTS;
  }

  /**
   A link per account still owed that the connection serves; the new links join the old ones. It is
   refused when nothing is owed, when links for all of it exist, or when none of the rest is served.
   */
  method CreateLinks(inv: Invoice, links: seq<Link>, served: set<Account>, sent: map<Account, bool>)
    returns (r: Result<seq<Link>, LinkRefusal>)
    requires forall account: Account :: account in sent
    ensures r == Failure(NothingLeft) <==> forall account :: Asked(inv, account) == 0
    ensures r == Failure(LinksExist) <==>
              (exists account :: Asked(inv, account) > 0) && forall account :: !Needed(inv, links, account)
    ensures r == Failure(NotServed) <==>
              (exists account :: Needed(inv, links, account))
              && forall account :: Needed(inv, links, account) ==> account !in served
    ensures r.Success? ==>
              && |r.value| >= |links| && r.value[..|links|] == links
              && (forall account ::
                    Link(account, Asked(inv, account)) in r.value[|links|..]
                    <==> Needed(inv, links, account) && account in served && sent[account])
              && forall l :: l in r.value[|links|..] ==> l.amount == Asked(inv, l.account)
  {
    AccountsAreAll();
    var owed := AmountsDue(inv);
    if owed == map[] {
      assert forall account :: account !in owed;
      return Failure(NothingLeft);
    }
    assert exists account :: account in owed;
    var needed := LinksNeeded(inv, links);
    assert forall account :: account in needed <==> Needed(inv, links, account);
    if needed == map[] {
      assert forall account :: account !in needed;
      return Failure(LinksExist);
    }
    assert exists account :: account in needed;
    if !(exists account | account in needed :: account in served) {
      return Failure(NotServed);
    }
    var after := SendLinks(inv, links, needed, served, sent);
    r := Success(after);
  }

  // ---- The two parts and the whole ----

  lemma {:induction false} PartsMakeSubtotal(lines: seq<Line>)
    ensures SubtotalFor(lines, Earned) + SubtotalFor(lines, Advance) == Subtotal(lines)
  {
    if lines != [] { PartsMakeSubtotal(lines[..|lines| - 1]); }
  }

  lemma {:induction false} AccountsMakePaid(payments: seq<Payment>)
    ensures PaidInto(payments, Operating) + PaidInto(payments, Trust) == AmountPaid(payments)
  {
    if payments != [] { AccountsMakePaid(payments[..|payments| - 1]); }
  }

  /** Whatever account earlier payments went to, the links together ask for exactly the balance. */
  lemma AskedIsBalance(inv: Invoice)
    requires Consistent(inv) && IsOpen(inv.status)
    ensures Asked(inv, Trust) + Asked(inv, Operating) == Balance(inv) > 0
  {
    PartsMakeSubtotal(inv.lines);
    AccountsMakePaid(inv.payments);
  }

  lemma PaidIntoAppend(payments: seq<Payment>, p: Payment, account: Account)
    ensures PaidInto(payments + [p], account)
         == PaidInto(payments, account) + if p.voided || p.account != account then 0 else p.amount
  {
    assert (payments + [p])[..|payments|] == payments;
  }

  function OtherAccount(account: Account): Account {
    if account == Trust then Operating else Trust
  }

  lemma UnpaidIsBalance(inv: Invoice, account: Account)
    requires Consistent(inv) && IsOpen(inv.status)
    ensures Unpaid(inv, account) + Unpaid(inv, OtherAccount(account)) == Balance(inv) > 0
  {
    PartsMakeSubtotal(inv.lines);
    AccountsMakePaid(inv.payments);
  }

  /** A payment comes off its account's part and off the balance; the invoice is open while some is left. */
  lemma PaymentArrives(inv: Invoice, amount: int, account: Account, source: Option<ProviderId>)
    requires Consistent(inv) && IsOpen(inv.status) && 0 < amount <= Balance(inv)
    ensures var after := Step(inv, Pay(amount, account, source));
            && Unpaid(after, account) == Unpaid(inv, account) - amount
            && Unpaid(after, OtherAccount(account)) == Unpaid(inv, OtherAccount(account))
            && Balance(after) == Balance(inv) - amount
            && after.status == if amount < Balance(inv) then PartiallyPaid else Paid
  {
    var p := Payment(amount, account, source, false);
    PaidAppend(inv.payments, p);
    PaidIsNonNegative(inv.payments);
    PaidIntoAppend(inv.payments, p, Trust);
    PaidIntoAppend(inv.payments, p, Operating);
  }

  /** Paying what one account's link asks for is accepted, settles that account, and leaves the other's due. */
  lemma PayingOneLink(inv: Invoice, account: Account, source: Option<ProviderId>)
    requires Consistent(inv) && Asked(inv, account) > 0
    ensures var pay := Pay(Asked(inv, account), account, source);
            var after := Step(inv, pay);
            && Allowed(inv, pay)
            && Consistent(after)
            && Asked(after, account) == 0
            && Asked(after, OtherAccount(account)) == Asked(inv, OtherAccount(account))
            && (after.status == Paid <==> Asked(inv, OtherAccount(account)) == 0)
  {
    UnpaidIsBalance(inv, account);
    PaymentArrives(inv, Asked(inv, account), account, source);
    StepKeepsConsistent(inv, Pay(Asked(inv, account), account, source));
  }

  /** The payments of both links, the given account's first; nothing for an account that owes nothing. */
  function LinkPayments(inv: Invoice, first: Account): seq<Op> {
    var second := OtherAccount(first);
    (if Asked(inv, first) > 0 then [Pay(Asked(inv, first), first, None)] else [])
    + (if Asked(inv, second) > 0 then [Pay(Asked(inv, second), second, None)] else [])
  }

  ghost predicate AllAllowed(inv: Invoice, ops: seq<Op>) {
    forall n :: 0 <= n < |ops| ==> Allowed(Run(inv, ops[..n]), ops[n])
  }

  lemma SecondLinkFinishes(inv: Invoice, mid: Invoice, first: Account)
    requires Consistent(inv) && Asked(inv, first) > 0 && Asked(inv, OtherAccount(first)) > 0
    requires mid == Step(inv, Pay(Asked(inv, first), first, None))
    ensures var two := Pay(Asked(inv, OtherAccount(first)), OtherAccount(first), None);
            Allowed(mid, two) && Step(mid, two).status == Paid
  {
    PayingOneLink(inv, first, None);
    PayingOneLink(mid, OtherAccount(first), None);
  }

  /** Both links paid, in either order, are always accepted and leave the invoice paid. */
  lemma PayingBothLinks(inv: Invoice, first: Account)
    requires Consistent(inv) && IsOpen(inv.status)
    ensures AllAllowed(inv, LinkPayments(inv, first)) && Run(inv, LinkPayments(inv, first)).status == Paid
  {
    var second := OtherAccount(first);
    AskedIsBalance(inv);
    if Asked(inv, first) > 0 && Asked(inv, second) > 0 {
      var one, two := Pay(Asked(inv, first), first, None), Pay(Asked(inv, second), second, None);
      assert LinkPayments(inv, first) == [one, two];
      assert Allowed(inv, one) by { PayingOneLink(inv, first, None); }
      SecondLinkFinishes(inv, Step(inv, one), first);
      RunTwo(inv, one, two);
    } else {
      var only := if Asked(inv, first) > 0 then first else second;
      assert LinkPayments(inv, first) == [Pay(Asked(inv, only), only, None)];
      PayingOneLink(inv, only, None);
      RunOne(inv, Pay(Asked(inv, only), only, None));
    }
  }

  lemma RunTwo(inv: Invoice, one: Op, two: Op)
    requires Allowed(inv, one) && Allowed(Step(inv, one), two)
    ensures Run(inv, [one, two]) == Step(Step(inv, one), two) && AllAllowed(inv, [one, two])
  {
    RunOne(inv, one);
    assert [one, two][..1] == [one] && [one, two][..0] == [];
  }

  lemma RunOne(inv: Invoice, op: Op)
    ensures Run(inv, [op]) == Step(inv, op)
    ensures Allowed(inv, op) ==> AllAllowed(inv, [op])
  {
    assert [op][..0] == [];
  }
}

/**
 The firm's books: every invoice, and the sequence invoice numbers come from.

 Across invoices, a number names one invoice and leaves no gap, a time entry is billed on at
 most one line, and a provider's payment is recorded at most once.
 */
module Books {
  import opened Wrappers
  import opened Ledger

  datatype Store = Store(invoices: map<nat, Invoice>, prefix: string, year: nat, value: nat)

  datatype Event =
    | NewDraft(id: nat)
    | DeleteDraft(id: nat)
    | ChangePrefix(prefix: string)
    | IssueIn(id: nat, year: nat)
    | Change(id: nat, op: Op)

  // ---- One event ----

  /** The number after the last one of this year; numbering restarts each year. */
  function NextNumber(s: Store, year: nat): Number {
    Number(s.prefix, year, if s.year == year then s.value + 1 else 1)
  }

  predicate NumberTaken(s: Store, number: Number) {
    exists id :: id in s.invoices && s.invoices[id].number == Some(number)
  }

  predicate SourceAt(s: Store, id: nat, i: int, source: ProviderId) {
    id in s.invoices && 0 <= i < |s.invoices[id].payments| && s.invoices[id].payments[i].source == Some(source)
  }

  predicate Recorded(s: Store, source: ProviderId) {
    exists id | id in s.invoices :: exists p | p in s.invoices[id].payments :: p.source == Some(source)
  }

  predicate EntryAt(s: Store, id: nat, i: int, entry: nat) {
    id in s.invoices && 0 <= i < |s.invoices[id].lines| && s.invoices[id].lines[i].timeEntry == Some(entry)
  }

  predicate Billed(s: Store, entry: nat) {
    exists id | id in s.invoices :: exists l | l in s.invoices[id].lines :: l.timeEntry == Some(entry)
  }

  predicate NewTime(s: Store, lines: seq<Line>) {
    && (forall l :: l in lines && l.timeEntry.Some? ==> !Billed(s, l.timeEntry.value))
    && (forall i, j :: 0 <= i < j < |lines| && lines[i].timeEntry.Some? ==> lines[i].timeEntry != lines[j].timeEntry)
  }

  predicate Permitted(s: Store, e: Event) {
    match e
    case NewDraft(id) => id !in s.invoices
    case DeleteDraft(id) => id in s.invoices && s.invoices[id].status == Draft
    case ChangePrefix(_) => true
    case IssueIn(id, year) =>
      id in s.invoices && Allowed(s.invoices[id], Issue(NextNumber(s, year))) && !NumberTaken(s, NextNumber(s, year))
    case Change(id, op) =>
      && id in s.invoices
      && Allowed(s.invoices[id], op)
      && !op.Issue?
      && (op.AddLines? ==> NewTime(s, op.lines))
      && (op.Pay? && op.source.Some? ==> !Recorded(s, op.source.value))
  }

  /** What an event does; one that is not permitted changes nothing. */
  function After(s: Store, e: Event): Store {
    if !Permitted(s, e) then s else
    match e
    case NewDraft(id) => s.(invoices := s.invoices[id := NewInvoice])
    case DeleteDraft(id) => s.(invoices := s.invoices - {id})
    case ChangePrefix(prefix) => s.(prefix := prefix)
    case IssueIn(id, year) =>
      var number := NextNumber(s, year);
      s.(invoices := s.invoices[id := Step(s.invoices[id], Issue(number))], year := year, value := number.value)
    case Change(id, op) => s.(invoices := s.invoices[id := Step(s.invoices[id], op)])
  }

  function History(s: Store, events: seq<Event>): Store {
    if events == [] then s else After(History(s, events[..|events| - 1]), events[|events| - 1])
  }

  // ---- What holds across invoices ----

  ghost predicate Numbered(s: Store, id: nat, year: int, value: int) {
    && id in s.invoices && s.invoices[id].number.Some?
    && s.invoices[id].number.value.year == year && s.invoices[id].number.value.value == value
  }

  ghost predicate IsNumbered(s: Store, year: int, value: int) {
    exists id :: Numbered(s, id, year, value)
  }

  ghost predicate UniqueNumbers(s: Store) {
    forall a, b | a in s.invoices && b in s.invoices && s.invoices[a].number == s.invoices[b].number ::
      a == b || s.invoices[a].number.None?
  }

  ghost predicate NoGaps(s: Store) {
    && (s.value == 0 || IsNumbered(s, s.year, s.value))
    && (forall id, year, value :: Numbered(s, id, year, value) ==>
          value >= 1 && (value == 1 || IsNumbered(s, year, value - 1)))
  }

  ghost predicate UniqueSources(s: Store) {
    forall a, i, b, j, source :: SourceAt(s, a, i, source) && SourceAt(s, b, j, source) ==> a == b && i == j
  }

  ghost predicate UniqueTime(s: Store) {
    forall a, i, b, j, entry :: EntryAt(s, a, i, entry) && EntryAt(s, b, j, entry) ==> a == b && i == j
  }

  ghost predicate Sound(s: Store) {
    && (forall id :: id in s.invoices ==> Consistent(s.invoices[id]))
    && UniqueNumbers(s)
    && NoGaps(s)
    && UniqueSources(s)
    && UniqueTime(s)
  }

  lemma RecordedMeans(s: Store, source: ProviderId)
    ensures Recorded(s, source) <==> exists id, i :: SourceAt(s, id, i, source)
  {
    if Recorded(s, source) {
      var id :| id in s.invoices && exists p | p in s.invoices[id].payments :: p.source == Some(source);
      var p :| p in s.invoices[id].payments && p.source == Some(source);
      var i :| 0 <= i < |s.invoices[id].payments| && s.invoices[id].payments[i] == p;
      assert SourceAt(s, id, i, source);
    }
    if id, i :| SourceAt(s, id, i, source) {
      assert s.invoices[id].payments[i] in s.invoices[id].payments;
    }
  }

  lemma BilledMeans(s: Store, entry: nat)
    ensures Billed(s, entry) <==> exists id, i :: EntryAt(s, id, i, entry)
  {
    if Billed(s, entry) {
      var id :| id in s.invoices && exists l | l in s.invoices[id].lines :: l.timeEntry == Some(entry);
      var l :| l in s.invoices[id].lines && l.timeEntry == Some(entry);
      var i :| 0 <= i < |s.invoices[id].lines| && s.invoices[id].lines[i] == l;
      assert EntryAt(s, id, i, entry);
    }
    if id, i :| EntryAt(s, id, i, entry) {
      assert s.invoices[id].lines[i] in s.invoices[id].lines;
    }
  }

  /** No step but issuing gives an invoice a number, and nothing takes it away. */
  lemma OnlyIssuingNumbers(inv: Invoice, op: Op)
    requires !op.Issue?
    ensures Step(inv, op).number == inv.number
  {}

  /** Everything numbered stays numbered, and one invoice gets a new number. */
  ghost predicate NumbersOne(s: Store, t: Store, id: nat, n: Number) {
    && id in s.invoices && s.invoices[id].number.None?
    && t.invoices.Keys == s.invoices.Keys
    && (forall a :: a in t.invoices ==> t.invoices[a].number == if a == id then Some(n) else s.invoices[a].number)
  }

  lemma IssuingNumbersOne(s: Store, id: nat, year: nat)
    requires Sound(s) && Permitted(s, IssueIn(id, year))
    ensures NumbersOne(s, After(s, IssueIn(id, year)), id, NextNumber(s, year))
    ensures !NumberTaken(s, NextNumber(s, year))
  {
    assert Consistent(s.invoices[id]);
  }

  lemma NewNumberLeavesNoGap(s: Store, t: Store, id: nat, n: Number)
    requires NoGaps(s) && NumbersOne(s, t, id, n) && n.year >= 0
    requires n.value == (if s.year == n.year then s.value + 1 else 1) && t.year == n.year && t.value == n.value
    ensures NoGaps(t)
  {
    forall y, v | IsNumbered(s, y, v) ensures IsNumbered(t, y, v) {
      var a :| Numbered(s, a, y, v);
      assert Numbered(t, a, y, v);
    }
    assert Numbered(t, id, n.year, n.value);
    forall a, y, v | Numbered(t, a, y, v) ensures v >= 1 && (v == 1 || IsNumbered(t, y, v - 1)) {
      if a != id { assert Numbered(s, a, y, v); }
    }
  }

  lemma NewNumberIsUnique(s: Store, t: Store, id: nat, n: Number)
    requires UniqueNumbers(s) && NumbersOne(s, t, id, n) && !NumberTaken(s, n)
    ensures UniqueNumbers(t)
  {}

  lemma IssuingKeepsNumbers(s: Store, id: nat, year: nat)
    requires Sound(s) && Permitted(s, IssueIn(id, year))
    ensures UniqueNumbers(After(s, IssueIn(id, year))) && NoGaps(After(s, IssueIn(id, year)))
  {
    var t, n := After(s, IssueIn(id, year)), NextNumber(s, year);
    IssuingNumbersOne(s, id, year);
    NewNumberIsUnique(s, t, id, n);
    NewNumberLeavesNoGap(s, t, id, n);
  }

  lemma SameNumbers(s: Store, t: Store)
    requires UniqueNumbers(s) && NoGaps(s) && t.year == s.year && t.value == s.value
    requires forall a :: a in t.invoices && t.invoices[a].number.Some? ==>
                           a in s.invoices && t.invoices[a].number == s.invoices[a].number
    requires forall a :: a in s.invoices && s.invoices[a].number.Some? ==> a in t.invoices && t.invoices[a].number.Some?
    ensures UniqueNumbers(t) && NoGaps(t)
  {
    forall a, y, v ensures Numbered(s, a, y, v) <==> Numbered(t, a, y, v) {}
    forall y, v | IsNumbered(s, y, v) ensures IsNumbered(t, y, v) {
      var a :| Numbered(s, a, y, v);
      assert Numbered(t, a, y, v);
    }
  }

  /** Numbers stay unique, and each is one more than another of its year, or the first. */
  lemma EventKeepsNumbers(s: Store, e: Event)
    requires Sound(s)
    ensures UniqueNumbers(After(s, e)) && NoGaps(After(s, e))
  {
    if Permitted(s, e) {
      match e
      case IssueIn(id, year) => IssuingKeepsNumbers(s, id, year);
      case Change(id, op) =>
        OnlyIssuingNumbers(s.invoices[id], op);
        SameNumbers(s, After(s, e));
      case DeleteDraft(id) =>
        assert Consistent(s.invoices[id]);
        SameNumbers(s, After(s, e));
      case _ => SameNumbers(s, After(s, e));
    }
  }

  /** Steps other than paying keep each payment's source, row by row. */
  lemma OnlyPayingAddsSources(inv: Invoice, op: Op)
    requires !op.Pay?
    ensures |Step(inv, op).payments| == |inv.payments|
    ensures forall i :: 0 <= i < |inv.payments| ==> Step(inv, op).payments[i].source == inv.payments[i].source
  {}

  lemma PayingAddsSource(inv: Invoice, op: Op)
    requires op.Pay? && Allowed(inv, op)
    ensures Step(inv, op).payments == inv.payments + [Payment(op.amount, op.account, op.source, false)]
  {}

  lemma PayingKeepsSources(s: Store, id: nat, op: Op)
    requires UniqueSources(s) && op.Pay? && Permitted(s, Change(id, op))
    ensures UniqueSources(After(s, Change(id, op)))
  {
    var t, n := After(s, Change(id, op)), |s.invoices[id].payments|;
    PayingAddsSource(s.invoices[id], op);
    forall a, i, source | SourceAt(t, a, i, source)
      ensures SourceAt(s, a, i, source) || (a == id && i == n && op.source == Some(source))
    {
    }
    if op.source.Some? { RecordedMeans(s, op.source.value); }
  }

  lemma EventKeepsSources(s: Store, e: Event)
    requires UniqueSources(s)
    ensures UniqueSources(After(s, e))
  {
    if Permitted(s, e) {
      if e.Change? && e.op.Pay? {
        PayingKeepsSources(s, e.id, e.op);
      } else {
        if e.Change? { OnlyPayingAddsSources(s.invoices[e.id], e.op); }
        forall a, i, source | SourceAt(After(s, e), a, i, source) ensures SourceAt(s, a, i, source) {}
      }
    }
  }

  lemma AddingKeepsTime(s: Store, id: nat, lines: seq<Line>)
    requires UniqueTime(s) && Permitted(s, Change(id, AddLines(lines)))
    ensures UniqueTime(After(s, Change(id, AddLines(lines))))
  {
    var t, n := After(s, Change(id, AddLines(lines))), |s.invoices[id].lines|;
    assert t.invoices[id].lines == s.invoices[id].lines + lines;
    forall a, i, entry: nat | EntryAt(t, a, i, entry) && !(a == id && i >= n) ensures EntryAt(s, a, i, entry) {}
    forall a, i, entry: nat | EntryAt(t, a, i, entry) && a == id && i >= n
      ensures i - n < |lines| && lines[i - n].timeEntry == Some(entry)
      ensures forall b, j :: !EntryAt(s, b, j, entry)
    {
      assert lines[i - n] in lines;
      BilledMeans(s, entry);
    }
  }

  lemma RemovingKeepsTime(s: Store, id: nat, n: nat)
    requires UniqueTime(s) && Permitted(s, Change(id, RemoveLine(n)))
    ensures UniqueTime(After(s, Change(id, RemoveLine(n))))
  {
    var t := After(s, Change(id, RemoveLine(n)));
    assert t.invoices[id].lines == s.invoices[id].lines[..n] + s.invoices[id].lines[n + 1..];
    forall a, i, entry: nat | EntryAt(t, a, i, entry)
      ensures EntryAt(s, a, if a == id && i >= n then i + 1 else i, entry)
    {}
  }

  /** Steps other than adding and removing lines can only free time, line by line. */
  lemma OtherStepsFreeTime(inv: Invoice, op: Op)
    requires !op.AddLines? && !op.RemoveLine?
    ensures |Step(inv, op).lines| == |inv.lines|
    ensures forall i :: 0 <= i < |inv.lines| ==>
              Step(inv, op).lines[i].timeEntry in {None, inv.lines[i].timeEntry}
  {}

  lemma EventKeepsTime(s: Store, e: Event)
    requires UniqueTime(s)
    ensures UniqueTime(After(s, e))
  {
    if Permitted(s, e) {
      if e.Change? && e.op.AddLines? {
        AddingKeepsTime(s, e.id, e.op.lines);
      } else if e.Change? && e.op.RemoveLine? {
        RemovingKeepsTime(s, e.id, e.op.line);
      } else {
        if e.Change? { OtherStepsFreeTime(s.invoices[e.id], e.op); }
        forall a, i, entry: nat | EntryAt(After(s, e), a, i, entry) ensures EntryAt(s, a, i, entry) {}
      }
    }
  }

  lemma EventKeepsSound(s: Store, e: Event)
    requires Sound(s)
    ensures Sound(After(s, e))
  {
    EventKeepsNumbers(s, e);
    EventKeepsSources(s, e);
    EventKeepsTime(s, e);
    match e
    case IssueIn(id, year) =>
      if id in s.invoices { StepKeepsConsistent(s.invoices[id], Issue(NextNumber(s, year))); }
    case Change(id, op) =>
      if id in s.invoices { StepKeepsConsistent(s.invoices[id], op); }
    case _ =>
  }

  lemma {:induction false} EveryHistoryIsSound(s: Store, events: seq<Event>)
    requires Sound(s)
    ensures Sound(History(s, events))
  {
    if events != [] {
      EveryHistoryIsSound(s, events[..|events| - 1]);
      EventKeepsSound(History(s, events[..|events| - 1]), events[|events| - 1]);
    }
  }

  // ---- Numbers do not clash while the year does not go back ----

  /** No number is ahead of the sequence. */
  ghost predicate SequenceLeads(s: Store) {
    forall id, year, value :: Numbered(s, id, year, value) ==>
      year < s.year || (year == s.year && value <= s.value)
  }

  ghost predicate YearsAdvance(s: Store, events: seq<Event>) {
    events == [] || (
      var n := |events| - 1;
      && YearsAdvance(s, events[..n])
      && (events[n].IssueIn? ==> events[n].year >= History(s, events[..n]).year))
  }

  lemma SequenceStillLeads(s: Store, e: Event)
    requires Sound(s) && SequenceLeads(s) && (e.IssueIn? ==> e.year >= s.year)
    ensures SequenceLeads(After(s, e))
  {
    if Permitted(s, e) {
      if e.IssueIn? { IssuingNumbersOne(s, e.id, e.year); }
      if e.Change? { OnlyIssuingNumbers(s.invoices[e.id], e.op); }
      forall a, y, v | Numbered(After(s, e), a, y, v) ensures Numbered(s, a, y, v) || (e.IssueIn? && a == e.id) {}
    }
  }

  lemma {:induction false} SequenceLeadsOverHistory(s: Store, events: seq<Event>)
    requires Sound(s) && SequenceLeads(s) && YearsAdvance(s, events)
    ensures SequenceLeads(History(s, events))
  {
    if events != [] {
      var n := |events| - 1;
      SequenceLeadsOverHistory(s, events[..n]);
      EveryHistoryIsSound(s, events[..n]);
      SequenceStillLeads(History(s, events[..n]), events[n]);
    }
  }

  /** So a draft with something to bill can always be issued in a year that is not earlier. */
  lemma IssuingNeverClashes(s: Store, events: seq<Event>, id: nat, year: nat)
    requires Sound(s) && SequenceLeads(s) && YearsAdvance(s, events)
    requires var t := History(s, events);
             id in t.invoices && t.invoices[id].status == Draft && year >= t.year
    ensures var t := History(s, events);
            Permitted(t, IssueIn(id, year))
            <==> t.invoices[id].lines != [] && Subtotal(t.invoices[id].lines) > 0
  {
    var t := History(s, events);
    SequenceLeadsOverHistory(s, events);
    var number := NextNumber(t, year);
    if NumberTaken(t, number) {
      var other :| other in t.invoices && t.invoices[other].number == Some(number);
      assert Numbered(t, other, number.year, number.value);
      assert false;
    }
  }

  // ---- When the year goes back ----

  /** All numbers carry the firm's prefix, and none of the sequence's year is ahead of it. */
  ghost predicate OnePrefix(s: Store) {
    && (forall id :: id in s.invoices && s.invoices[id].number.Some? ==> s.invoices[id].number.value.prefix == s.prefix)
    && (forall id, value :: Numbered(s, id, s.year, value) ==> value <= s.value)
  }

  ghost predicate PrefixStays(events: seq<Event>) {
    forall e :: e in events ==> !e.ChangePrefix?
  }

  /** In another year numbering restarts at the first, which is taken exactly when that year has a number. */
  lemma {:induction false} FirstIsTaken(s: Store, id: nat, year: int, value: int)
    requires NoGaps(s) && Numbered(s, id, year, value)
    ensures IsNumbered(s, year, 1)
    decreases value
  {
    if value == 1 {
      assert Numbered(s, id, year, 1);
    } else {
      assert IsNumbered(s, year, value - 1);
      var other :| Numbered(s, other, year, value - 1);
      FirstIsTaken(s, other, year, value - 1);
    }
  }

  lemma NextIsTaken(s: Store, year: nat)
    requires NoGaps(s) && OnePrefix(s)
    ensures NumberTaken(s, NextNumber(s, year)) <==> year != s.year && exists value :: IsNumbered(s, year, value)
  {
    var next := NextNumber(s, year);
    if NumberTaken(s, next) {
      var id :| id in s.invoices && s.invoices[id].number == Some(next);
      assert Numbered(s, id, year, next.value);
      assert IsNumbered(s, year, next.value);
    }
    if year != s.year {
      if value :| IsNumbered(s, year, value) {
        var id :| Numbered(s, id, year, value);
        FirstIsTaken(s, id, year, value);
        var first :| Numbered(s, first, year, 1);
        assert s.invoices[first].number == Some(next);
      }
    }
  }

  lemma EventKeepsOnePrefix(s: Store, e: Event)
    requires Sound(s) && OnePrefix(s) && !e.ChangePrefix?
    ensures OnePrefix(After(s, e))
  {
    if Permitted(s, e) {
      var t := After(s, e);
      if e.IssueIn? {
        IssuingNumbersOne(s, e.id, e.year);
        NextIsTaken(s, e.year);
        forall id, value | Numbered(t, id, t.year, value) ensures value <= t.value {
          if id != e.id {
            assert Numbered(s, id, e.year, value);
            assert IsNumbered(s, e.year, value);
          }
        }
      } else {
        if e.Change? { OnlyIssuingNumbers(s.invoices[e.id], e.op); }
        forall id, year, value | Numbered(t, id, year, value) ensures Numbered(s, id, year, value) {}
      }
    }
  }

  lemma {:induction false} OnePrefixOverHistory(s: Store, events: seq<Event>)
    requires Sound(s) && OnePrefix(s) && PrefixStays(events)
    ensures OnePrefix(History(s, events))
  {
    if events != [] {
      var n := |events| - 1;
      assert events[n] in events && forall e :: e in events[..n] ==> e in events;
      OnePrefixOverHistory(s, events[..n]);
      EveryHistoryIsSound(s, events[..n]);
      EventKeepsOnePrefix(History(s, events[..n]), events[n]);
    }
  }

  /**
   Wherever the calendar's year went in the meantime: while the prefix stays, a draft can be issued
   exactly when it has something to bill, and its year is the sequence's own or has no number yet.
   */
  lemma IssuingClashesExactly(s: Store, events: seq<Event>, id: nat, year: nat)
    requires Sound(s) && OnePrefix(s) && PrefixStays(events)
    requires id in History(s, events).invoices
    ensures var t := History(s, events);
            Permitted(t, IssueIn(id, year))
            <==> && Allowed(t.invoices[id], Issue(NextNumber(t, year)))
                 && (year == t.year || forall value :: !IsNumbered(t, year, value))
  {
    OnePrefixOverHistory(s, events);
    EveryHistoryIsSound(s, events);
    NextIsTaken(History(s, events), year);
  }

  lemma EventKeepsYearClosed(s: Store, e: Event, year: nat, value: int)
    requires Sound(s) && OnePrefix(s) && !e.ChangePrefix?
    requires year != s.year && IsNumbered(s, year, value)
    ensures year != After(s, e).year && IsNumbered(After(s, e), year, value)
  {
    var id :| Numbered(s, id, year, value);
    assert Consistent(s.invoices[id]);
    if e.IssueIn? {
      NextIsTaken(s, e.year);
    } else if e.Change? && e.id in s.invoices && !e.op.Issue? {
      OnlyIssuingNumbers(s.invoices[e.id], e.op);
    }
    assert Numbered(After(s, e), id, year, value);
  }

  lemma {:induction false} YearStaysClosed(s: Store, events: seq<Event>, year: nat, value: int)
    requires Sound(s) && OnePrefix(s) && PrefixStays(events)
    requires year != s.year && IsNumbered(s, year, value)
    ensures year != History(s, events).year && IsNumbered(History(s, events), year, value)
  {
    if events != [] {
      var n := |events| - 1;
      assert events[n] in events && forall e :: e in events[..n] ==> e in events;
      YearStaysClosed(s, events[..n], year, value);
      OnePrefixOverHistory(s, events[..n]);
      EveryHistoryIsSound(s, events[..n]);
      EventKeepsYearClosed(History(s, events[..n]), events[n], year, value);
    }
  }

  /**
   Once one invoice was numbered in another year, a year that already has numbers is closed: numbering
   restarts at a number that is taken, the refusal takes the sequence back, and so it is every time.
   */
  lemma ClosedYearStaysClosed(s: Store, events: seq<Event>, year: nat, value: int)
    requires Sound(s) && OnePrefix(s) && PrefixStays(events)
    requires year != s.year && IsNumbered(s, year, value)
    ensures var t := History(s, events);
            && year != t.year && IsNumbered(t, year, value)
            && forall id :: !Permitted(t, IssueIn(id, year))
  {
    YearStaysClosed(s, events, year, value);
    OnePrefixOverHistory(s, events);
    EveryHistoryIsSound(s, events);
    NextIsTaken(History(s, events), year);
  }

  /** A new draft with these lines. */
  function Drafted(s: Store, id: nat, lines: seq<Line>): Store {
    After(After(s, NewDraft(id)), Change(id, AddLines(lines)))
  }

  ghost predicate Billable(lines: seq<Line>) {
    lines != [] && Subtotal(lines) > 0 && forall l :: l in lines ==> l.timeEntry.None?
  }

  lemma LinesCanBeAdded(s: Store, id: nat, lines: seq<Line>)
    requires id in s.invoices && s.invoices[id] == NewInvoice && Billable(lines)
    ensures Permitted(s, Change(id, AddLines(lines)))
    ensures Step(NewInvoice, AddLines(lines)) == NewInvoice.(lines := lines)
  {
    assert NewInvoice.lines + lines == lines;
    forall i | 0 <= i < |lines| ensures lines[i].timeEntry.None? { assert lines[i] in lines; }
  }

  lemma DraftingIs(s: Store, id: nat, lines: seq<Line>)
    requires id !in s.invoices && Billable(lines)
    ensures Drafted(s, id, lines) == s.(invoices := s.invoices[id := NewInvoice.(lines := lines)])
  {
    LinesCanBeAdded(After(s, NewDraft(id)), id, lines);
  }

  lemma DraftingKeeps(s: Store, id: nat, lines: seq<Line>)
    requires Sound(s) && OnePrefix(s) && id !in s.invoices && Billable(lines)
    ensures Sound(Drafted(s, id, lines)) && OnePrefix(Drafted(s, id, lines))
    ensures forall y, value :: IsNumbered(s, y, value) <==> IsNumbered(Drafted(s, id, lines), y, value)
  {
    var started, t := After(s, NewDraft(id)), Drafted(s, id, lines);
    EventKeepsSound(s, NewDraft(id));
    EventKeepsOnePrefix(s, NewDraft(id));
    EventKeepsSound(started, Change(id, AddLines(lines)));
    EventKeepsOnePrefix(started, Change(id, AddLines(lines)));
    DraftingIs(s, id, lines);
    forall a, y, value ensures Numbered(s, a, y, value) <==> Numbered(t, a, y, value) {}
  }

  /** The store after a new invoice was drafted and issued. */
  function Issuing(s: Store, id: nat, lines: seq<Line>, year: nat): Store {
    After(Drafted(s, id, lines), IssueIn(id, year))
  }

  lemma IssuingDrafted(s: Store, id: nat, lines: seq<Line>, year: nat)
    requires Sound(s) && OnePrefix(s) && id !in s.invoices && Billable(lines)
    requires year != s.year && forall value :: !IsNumbered(s, year, value)
    ensures var t := Issuing(s, id, lines, year);
            && Sound(t) && OnePrefix(t) && t.year == year && t.invoices.Keys == s.invoices.Keys + {id}
            && IsNumbered(t, year, 1)
            && forall y, value :: IsNumbered(t, y, value) <==> IsNumbered(s, y, value) || (y == year && value == 1)
  {
    var d := Drafted(s, id, lines);
    var t := Issuing(s, id, lines, year);
    DraftingIs(s, id, lines);
    DraftingKeeps(s, id, lines);
    NextIsTaken(d, year);
    EventKeepsSound(d, IssueIn(id, year));
    EventKeepsOnePrefix(d, IssueIn(id, year));
    IssuingNumbersOne(d, id, year);
    OneMoreNumbered(d, t, id, NextNumber(d, year));
  }

  lemma OneMoreNumbered(s: Store, t: Store, id: nat, n: Number)
    requires NumbersOne(s, t, id, n)
    ensures forall y, value :: IsNumbered(t, y, value) <==> IsNumbered(s, y, value) || (y == n.year && value == n.value)
  {
    assert Numbered(t, id, n.year, n.value);
    forall y, value ensures IsNumbered(t, y, value) <==> IsNumbered(s, y, value) || (y == n.year && value == n.value) {
      if a :| Numbered(s, a, y, value) { assert Numbered(t, a, y, value); }
      if a :| Numbered(t, a, y, value) { assert a != id ==> Numbered(s, a, y, value); }
    }
  }

  const EmptyBooks := Store(map[], "A", 0, 0)

  lemma EmptyIsSound()
    ensures Sound(EmptyBooks) && OnePrefix(EmptyBooks) && forall y, value :: !IsNumbered(EmptyBooks, y, value)
  {}

  /** The sequence is at this year, an invoice of the other year has its first number, and no other year has one. */
  ghost predicate Reached(s: Store, year: int, other: int, used: set<nat>) {
    && Sound(s) && OnePrefix(s) && s.year == year && s.invoices.Keys == used
    && IsNumbered(s, other, 1) && forall y, value :: IsNumbered(s, y, value) ==> y == year || y == other
  }

  lemma FirstYear(late: nat, lines: seq<Line>)
    requires 0 < late && Billable(lines)
    ensures Reached(Issuing(EmptyBooks, 0, lines, late), late, late, {0})
  {
    EmptyIsSound();
    IssuingDrafted(EmptyBooks, 0, lines, late);
  }

  lemma NextYear(s: Store, year: nat, other: nat, lines: seq<Line>)
    requires Reached(s, other, other, {0}) && year != other && Billable(lines)
    ensures Reached(Issuing(s, 1, lines, year), year, other, {0, 1})
  {
    assert forall value :: !IsNumbered(s, year, value);
    IssuingDrafted(s, 1, lines, year);
  }

  /**
   An invoice numbered in a later year, then one in an earlier year: a draft with something to bill
   can not be issued in the later year, then or ever after.
   */
  lemma YearGoneBackClashes(early: nat, late: nat, lines: seq<Line>, events: seq<Event>)
    returns (first: Store, second: Store, draft: Store)
    requires early < late && Billable(lines) && PrefixStays(events)
    ensures first == Issuing(EmptyBooks, 0, lines, late) && second == Issuing(first, 1, lines, early)
    ensures draft == Drafted(second, 2, lines)
    ensures 2 in draft.invoices && Allowed(draft.invoices[2], Issue(NextNumber(draft, late)))
    ensures !Permitted(draft, IssueIn(2, late)) && !Permitted(History(draft, events), IssueIn(2, late))
  {
    first := Issuing(EmptyBooks, 0, lines, late);
    FirstYear(late, lines);
    second := Issuing(first, 1, lines, early);
    NextYear(first, early, late, lines);
    draft := Drafted(second, 2, lines);
    ThirdIsRefused(second, early, late, lines, events);
  }

  lemma ThirdIsRefused(s: Store, early: nat, late: nat, lines: seq<Line>, events: seq<Event>)
    requires Reached(s, early, late, {0, 1}) && early != late && Billable(lines) && PrefixStays(events)
    ensures var draft := Drafted(s, 2, lines);
            && 2 in draft.invoices && Allowed(draft.invoices[2], Issue(NextNumber(draft, late)))
            && !Permitted(draft, IssueIn(2, late)) && !Permitted(History(draft, events), IssueIn(2, late))
  {
    var draft := Drafted(s, 2, lines);
    DraftingIs(s, 2, lines);
    DraftingKeeps(s, 2, lines);
    ClosedYearStaysClosed(draft, [], late, 1);
    ClosedYearStaysClosed(draft, events, late, 1);
  }

  /** After voiding, none of the invoice's time is billed anywhere: all of it can be billed again. */
  lemma VoidingFreesTime(s: Store, id: nat, entry: nat, i: nat)
    requires Sound(s) && EntryAt(s, id, i, entry) && Permitted(s, Change(id, VoidInvoice(true)))
    ensures !Billed(After(s, Change(id, VoidInvoice(true))), entry)
  {
    var t := After(s, Change(id, VoidInvoice(true)));
    BilledMeans(t, entry);
    forall a, j ensures !EntryAt(t, a, j, entry) {
      assert EntryAt(t, a, j, entry) ==> EntryAt(s, a, j, entry);
    }
  }
}

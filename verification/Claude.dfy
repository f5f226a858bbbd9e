/**
 The conversation as the Messages API takes it.

 Anthropic wants every tool_use block of an assistant message answered by a tool_result block
 in the very next message, and results for one turn together in one user message.
 */
module Claude {
  import opened Conversation

  datatype Role = UserRole | AssistantRole

  datatype Content = Plain(text: string) | Blocks(blocks: seq<Block>)

  datatype ClaudeMessage = ClaudeMessage(role: Role, content: Content)

  const ANTHROPIC := "anthropic"

  // ---- One message ----

  function UseBlocks(calls: seq<Call>): (blocks: seq<Block>)
    ensures |blocks| == |calls|
  {
    seq(|calls|, i requires 0 <= i < |calls| => ToolUse(calls[i].id, calls[i].name, calls[i].arguments))
  }

  /** A turn goes back as the provider's own copy when it was this provider's, else as stored. */
  function ToClaude(m: Message, connector: string): ClaudeMessage {
    match m
    case User(text) => ClaudeMessage(UserRole, Plain(text))
    case Answer(call, _, content) => ClaudeMessage(UserRole, Blocks([ToolResult(call.id, content)]))
    case Assistant(text, calls, raw, from) =>
      if from == connector && raw != [] then ClaudeMessage(AssistantRole, Blocks(raw))
      else if calls != [] then
        ClaudeMessage(AssistantRole, Blocks((if text != "" then [Text(text)] else []) + UseBlocks(calls)))
      else ClaudeMessage(AssistantRole, Plain(text))
  }

  function ToClaudeAll(messages: seq<Message>, connector: string): (translated: seq<ClaudeMessage>)
    ensures |translated| == |messages|
  {
    seq(|messages|, i requires 0 <= i < |messages| => ToClaude(messages[i], connector))
  }

  // ---- Merging ----

  predicate IsResults(m: ClaudeMessage) {
    m.role == UserRole && m.content.Blocks?
  }

  function Together(a: ClaudeMessage, b: ClaudeMessage): ClaudeMessage
    requires IsResults(a) && IsResults(b)
  {
    ClaudeMessage(UserRole, Blocks(a.content.blocks + b.content.blocks))
  }

  /** Add one message: results join a results message just before them. */
  function Joined(merged: seq<ClaudeMessage>, m: ClaudeMessage): seq<ClaudeMessage> {
    var n := |merged|;
    if n > 0 && IsResults(merged[n - 1]) && IsResults(m) then merged[..n - 1] + [Together(merged[n - 1], m)]
    else merged + [m]
  }

  function Merged(messages: seq<ClaudeMessage>): seq<ClaudeMessage> {
    if messages == [] then [] else Joined(Merged(messages[..|messages| - 1]), messages[|messages| - 1])
  }

  /** A conversation's content, message by message, in whatever parts a message is read as. */
  ghost function Flat<T>(messages: seq<ClaudeMessage>, parts: ClaudeMessage -> seq<T>): seq<T> {
    if messages == [] then [] else Flat(messages[..|messages| - 1], parts) + parts(messages[|messages| - 1])
  }

  /** Results put together read as the parts of the one and then those of the other. */
  ghost predicate Additive<T>(parts: ClaudeMessage -> seq<T>) {
    forall a, b :: IsResults(a) && IsResults(b) ==> parts(Together(a, b)) == parts(a) + parts(b)
  }

  /** The content piece by piece, each with its role: a text, or one block. */
  datatype Piece = PlainPiece(role: Role, text: string) | BlockPiece(role: Role, block: Block)

  ghost function PiecesOf(m: ClaudeMessage): seq<Piece> {
    match m.content
    case Plain(text) => [PlainPiece(m.role, text)]
    case Blocks(blocks) => seq(|blocks|, i requires 0 <= i < |blocks| => BlockPiece(m.role, blocks[i]))
  }

  lemma PiecesAreAdditive()
    ensures Additive(PiecesOf)
  {}

  ghost predicate NoAdjacentResults(messages: seq<ClaudeMessage>) {
    forall i :: 0 < i < |messages| ==> !(IsResults(messages[i - 1]) && IsResults(messages[i]))
  }

  /** Tool results answering one turn go together in a single user message. */
  method MergeTurns(messages: seq<ClaudeMessage>) returns (merged: seq<ClaudeMessage>)
    ensures merged == Merged(messages)
    ensures Flat(merged, PiecesOf) == Flat(messages, PiecesOf)
    ensures NoAdjacentResults(merged)
  {
    merged := [];
    for n := 0 to |messages|
      invariant merged == Merged(messages[..n])
    {
      var message := messages[n];
      assert messages[..n + 1][..n] == messages[..n];
      var last := |merged| - 1;
      if last >= 0 && message.role == UserRole && merged[last].role == UserRole
         && message.content.Blocks? && merged[last].content.Blocks? {
        var together := merged[last].(content := Blocks(merged[last].content.blocks + message.content.blocks));
        assert merged[last := together] == merged[..last] + [together];
        merged := merged[last := together];
      } else {
        merged := merged + [message];
      }
    }
    assert messages[..|messages|] == messages;
    PiecesAreAdditive();
    MergingKeepsContent(messages, PiecesOf);
    MergingKeepsApart(messages);
  }

  lemma FlatAppend<T>(messages: seq<ClaudeMessage>, m: ClaudeMessage, parts: ClaudeMessage -> seq<T>)
    ensures Flat(messages + [m], parts) == Flat(messages, parts) + parts(m)
  {
    assert (messages + [m])[..|messages|] == messages;
  }

  lemma Associates<T>(a: seq<T>, b: seq<T>, c: seq<T>)
    ensures a + (b + c) == a + b + c
  {}

  lemma Rejoined<T>(a: seq<T>, b: seq<T>, n: nat)
    requires n <= |b|
    ensures a + b[..n] + b[n..] == a + b
  {}

  lemma TogetherKeepsContent<T>(
    base: seq<ClaudeMessage>, a: ClaudeMessage, b: ClaudeMessage, parts: ClaudeMessage -> seq<T>)
    requires Additive(parts) && IsResults(a) && IsResults(b)
    ensures Flat(base + [Together(a, b)], parts) == Flat(base + [a], parts) + parts(b)
  {
    FlatAppend(base, a, parts);
    FlatAppend(base, Together(a, b), parts);
    assert parts(Together(a, b)) == parts(a) + parts(b);
    Associates(Flat(base, parts), parts(a), parts(b));
  }

  lemma JoiningKeepsContent<T>(merged: seq<ClaudeMessage>, m: ClaudeMessage, parts: ClaudeMessage -> seq<T>)
    requires Additive(parts)
    ensures Flat(Joined(merged, m), parts) == Flat(merged, parts) + parts(m)
  {
    var n := |merged|;
    if n > 0 && IsResults(merged[n - 1]) && IsResults(m) {
      assert merged == merged[..n - 1] + [merged[n - 1]];
      TogetherKeepsContent(merged[..n - 1], merged[n - 1], m, parts);
    } else {
      FlatAppend(merged, m, parts);
    }
  }

  /** Merging neither loses, adds nor reorders content, however its parts are read. */
  lemma {:induction false} MergingKeepsContent<T>(messages: seq<ClaudeMessage>, parts: ClaudeMessage -> seq<T>)
    requires Additive(parts)
    ensures Flat(Merged(messages), parts) == Flat(messages, parts)
  {
    if messages != [] {
      var k := |messages| - 1;
      MergingKeepsContent(messages[..k], parts);
      JoiningKeepsContent(Merged(messages[..k]), messages[k], parts);
    }
  }

  /** After merging no two results messages are left in a row. */
  lemma {:induction false} MergingKeepsApart(messages: seq<ClaudeMessage>)
    ensures NoAdjacentResults(Merged(messages))
  {
    if messages != [] {
      MergingKeepsApart(messages[..|messages| - 1]);
    }
  }

  // ---- What a message says, as stored and as sent ----

  /** A user's text, an assistant's turn with its calls, or a call's result; anything else is stray. */
  datatype Part =
    | Said(text: string)
    | Turned(text: string, calls: seq<Call>)
    | Resulted(callId: string, content: string)
    | Stray(block: Block)

  ghost function StoredPart(m: Message): Part {
    match m
    case User(text) => Said(text)
    case Assistant(text, calls, _, _) => Turned(text, calls)
    case Answer(call, _, content) => Resulted(call.id, content)
  }

  ghost function StoredContent(messages: seq<Message>): seq<Part> {
    seq(|messages|, i requires 0 <= i < |messages| => StoredPart(messages[i]))
  }

  function CallsIn(blocks: seq<Block>): seq<Call> {
    if blocks == [] then [] else
      var n := |blocks| - 1;
      CallsIn(blocks[..n])
      + if blocks[n].ToolUse? then [Call(blocks[n].id, blocks[n].name, blocks[n].arguments)] else []
  }

  function TextIn(blocks: seq<Block>): string {
    if blocks == [] then "" else
      var n := |blocks| - 1;
      TextIn(blocks[..n]) + if blocks[n].Text? then blocks[n].text else ""
  }

  ghost function ResultPart(block: Block): Part {
    if block.ToolResult? then Resulted(block.callId, block.result) else Stray(block)
  }

  /** What Claude reads a message as. */
  ghost function SentParts(m: ClaudeMessage): seq<Part> {
    match m.content
    case Plain(text) => [if m.role == UserRole then Said(text) else Turned(text, [])]
    case Blocks(blocks) =>
      if m.role == AssistantRole then [Turned(TextIn(blocks), CallsIn(blocks))]
      else seq(|blocks|, i requires 0 <= i < |blocks| => ResultPart(blocks[i]))
  }

  lemma SentPartsAreAdditive()
    ensures Additive(SentParts)
  {}

  // ---- Pairing, as the API demands it ----

  ghost function CallIds(calls: seq<Call>): seq<string> {
    seq(|calls|, i requires 0 <= i < |calls| => calls[i].id)
  }

  /** The ids of a message's tool_use blocks, in order. */
  ghost function Uses(m: ClaudeMessage): seq<string> {
    if m.role == AssistantRole && m.content.Blocks? then CallIds(CallsIn(m.content.blocks)) else []
  }

  /** A user message holding one result per id, in order, and nothing else. */
  ghost predicate AnswersExactly(m: ClaudeMessage, ids: seq<string>) {
    && IsResults(m)
    && |m.content.blocks| == |ids|
    && forall i :: 0 <= i < |ids| ==> m.content.blocks[i].ToolResult? && m.content.blocks[i].callId == ids[i]
  }

  /** Each assistant message that uses tools is followed at once by their results; no others exist. */
  ghost predicate WellPaired(messages: seq<ClaudeMessage>) {
    && (forall i :: 0 <= i < |messages| && Uses(messages[i]) != [] ==>
          i + 1 < |messages| && AnswersExactly(messages[i + 1], Uses(messages[i])))
    && (forall i :: 0 <= i < |messages| && IsResults(messages[i]) ==>
          i > 0 && Uses(messages[i - 1]) != [] && AnswersExactly(messages[i], Uses(messages[i - 1])))
  }

  /** An Anthropic turn as stored, its text and its calls, is what its own copy says. */
  ghost predicate FaithfulRaw(m: Message) {
    m.Assistant? && m.connector == ANTHROPIC && m.raw != [] ==> TextIn(m.raw) == m.text && CallsIn(m.raw) == m.calls
  }

  ghost predicate AllFaithful(messages: seq<Message>) {
    forall m :: m in messages ==> FaithfulRaw(m)
  }

  lemma BlockAppend(blocks: seq<Block>, block: Block)
    ensures CallsIn(blocks + [block])
         == CallsIn(blocks) + if block.ToolUse? then [Call(block.id, block.name, block.arguments)] else []
    ensures TextIn(blocks + [block]) == TextIn(blocks) + if block.Text? then block.text else ""
  {
    assert (blocks + [block])[..|blocks|] == blocks;
  }

  lemma LastUseBlock(lead: seq<Block>, calls: seq<Call>, n: nat)
    requires n + 1 == |calls|
    ensures lead + UseBlocks(calls)
         == lead + UseBlocks(calls[..n]) + [ToolUse(calls[n].id, calls[n].name, calls[n].arguments)]
  {
    assert UseBlocks(calls) == UseBlocks(calls[..n]) + [ToolUse(calls[n].id, calls[n].name, calls[n].arguments)];
  }

  lemma {:induction false} CallsComeBack(lead: seq<Block>, calls: seq<Call>)
    requires CallsIn(lead) == []
    ensures CallsIn(lead + UseBlocks(calls)) == calls && TextIn(lead + UseBlocks(calls)) == TextIn(lead)
  {
    if calls == [] {
      assert lead + UseBlocks(calls) == lead;
    } else {
      var n := |calls| - 1;
      CallsComeBack(lead, calls[..n]);
      var block := ToolUse(calls[n].id, calls[n].name, calls[n].arguments);
      LastUseBlock(lead, calls, n);
      BlockAppend(lead + UseBlocks(calls[..n]), block);
      assert calls[n] == Call(block.id, block.name, block.arguments);
      assert calls == calls[..n] + [calls[n]];
    }
  }

  /** Whichever way a turn goes back, as the provider's copy or from stored text, it says what is stored. */
  lemma TurnIsCarried(m: Message)
    requires m.Assistant? && FaithfulRaw(m)
    ensures SentParts(ToClaude(m, ANTHROPIC)) == [StoredPart(m)]
    ensures Uses(ToClaude(m, ANTHROPIC)) == CallIds(m.calls) && ToClaude(m, ANTHROPIC).role == AssistantRole
  {
    if !(m.connector == ANTHROPIC && m.raw != []) && m.calls != [] {
      var lead := if m.text != "" then [Text(m.text)] else [];
      BlockAppend([], Text(m.text));
      assert [] + [Text(m.text)] == [Text(m.text)];
      assert CallsIn(lead) == [] && TextIn(lead) == m.text;
      CallsComeBack(lead, m.calls);
    }
  }

  /**
   A turn goes back to the provider it came from block by block as the provider wrote it, thinking and
   all; any other turn is sent as nothing but its text and its calls.
   */
  lemma OwnCopyGoesBack(m: Message, connector: string)
    requires m.Assistant?
    ensures var sent := ToClaude(m, connector);
            && sent.role == AssistantRole
            && if m.connector == connector && m.raw != [] then
                 |PiecesOf(sent)| == |m.raw|
                 && forall i :: 0 <= i < |m.raw| ==> PiecesOf(sent)[i] == BlockPiece(AssistantRole, m.raw[i])
               else forall p :: p in PiecesOf(sent) ==>
                      p == PlainPiece(AssistantRole, m.text) || p == BlockPiece(AssistantRole, Text(m.text))
                      || exists c :: c in m.calls && p == BlockPiece(AssistantRole, ToolUse(c.id, c.name, c.arguments))
  {
    if !(m.connector == connector && m.raw != []) && m.calls != [] {
      var lead := if m.text != "" then [Text(m.text)] else [];
      var blocks := lead + UseBlocks(m.calls);
      forall p | p in PiecesOf(ToClaude(m, connector))
        ensures p == BlockPiece(AssistantRole, Text(m.text))
                || exists c :: c in m.calls && p == BlockPiece(AssistantRole, ToolUse(c.id, c.name, c.arguments))
      {
        var i :| 0 <= i < |blocks| && p == BlockPiece(AssistantRole, blocks[i]);
        if i >= |lead| { assert m.calls[i - |lead|] in m.calls; }
      }
    }
  }

  lemma MessageIsCarried(m: Message)
    requires FaithfulRaw(m)
    ensures SentParts(ToClaude(m, ANTHROPIC)) == [StoredPart(m)]
  {
    if m.Assistant? { TurnIsCarried(m); }
  }

  /** The translation carries every text, call with its name and arguments, and result, in order. */
  lemma {:induction false} PromptIsCarried(messages: seq<Message>)
    requires AllFaithful(messages)
    ensures Flat(ToClaudeAll(messages, ANTHROPIC), SentParts) == StoredContent(messages)
  {
    if messages != [] {
      var n := |messages| - 1;
      assert messages[n] in messages && forall m :: m in messages[..n] ==> m in messages;
      PromptIsCarried(messages[..n]);
      MessageIsCarried(messages[n]);
      assert ToClaudeAll(messages, ANTHROPIC)[..n] == ToClaudeAll(messages[..n], ANTHROPIC);
      assert StoredContent(messages) == StoredContent(messages[..n]) + [StoredPart(messages[n])];
    }
  }

  /** A message list is ready for results: its merged form ends with something that is not results. */
  ghost predicate TakesResults(messages: seq<ClaudeMessage>) {
    Merged(messages) != [] && !IsResults(Merged(messages)[|Merged(messages)| - 1])
  }

  /** A results message holding one answer a call, added after what was there. */
  ghost predicate ResultsAdded(base: seq<ClaudeMessage>, merged: seq<ClaudeMessage>, ids: seq<string>) {
    merged != [] && merged[..|merged| - 1] == base && AnswersExactly(merged[|merged| - 1], ids)
  }

  lemma FirstResultAdded(base: seq<ClaudeMessage>, id: string, content: string)
    requires base != [] && !IsResults(base[|base| - 1])
    ensures ResultsAdded(base, Joined(base, ClaudeMessage(UserRole, Blocks([ToolResult(id, content)]))), [id])
  {
    var result := ClaudeMessage(UserRole, Blocks([ToolResult(id, content)]));
    assert Joined(base, result)[..|base|] == base;
  }

  lemma NextResultAdded(
    base: seq<ClaudeMessage>, merged: seq<ClaudeMessage>, ids: seq<string>, id: string, content: string)
    requires ResultsAdded(base, merged, ids)
    ensures ResultsAdded(base, Joined(merged, ClaudeMessage(UserRole, Blocks([ToolResult(id, content)]))), ids + [id])
  {
    var after := Joined(merged, ClaudeMessage(UserRole, Blocks([ToolResult(id, content)])));
    assert after[..|after| - 1] == base;
    assert after[|after| - 1].content.blocks == merged[|merged| - 1].content.blocks + [ToolResult(id, content)];
  }

  lemma MergedAppend(messages: seq<ClaudeMessage>, m: ClaudeMessage)
    ensures Merged(messages + [m]) == Joined(Merged(messages), m)
  {
    assert (messages + [m])[..|messages|] == messages;
  }

  lemma LastAnswer(calls: seq<Call>, answers: seq<Message>, n: nat)
    requires n + 1 == |answers| == |calls| && AnsweredBy(calls, answers)
    ensures AnsweredBy(calls[..n], answers[..n])
    ensures ToClaude(answers[n], ANTHROPIC)
         == ClaudeMessage(UserRole, Blocks([ToolResult(calls[n].id, answers[n].content)]))
    ensures CallIds(calls) == CallIds(calls[..n]) + [calls[n].id]
  {}

  lemma TranslateLast(before: seq<ClaudeMessage>, answers: seq<Message>, n: nat)
    requires n + 1 == |answers|
    ensures before + ToClaudeAll(answers, ANTHROPIC)
         == before + ToClaudeAll(answers[..n], ANTHROPIC) + [ToClaude(answers[n], ANTHROPIC)]
  {
    assert ToClaudeAll(answers, ANTHROPIC) == ToClaudeAll(answers[..n], ANTHROPIC) + [ToClaude(answers[n], ANTHROPIC)];
  }

  /** The results of one turn, merged: one user message with a result per call, in order. */
  lemma {:induction false} AnswersMerge(before: seq<ClaudeMessage>, calls: seq<Call>, answers: seq<Message>)
    requires |answers| == |calls| > 0 && AnsweredBy(calls, answers)
    requires TakesResults(before)
    ensures ResultsAdded(Merged(before), Merged(before + ToClaudeAll(answers, ANTHROPIC)), CallIds(calls))
  {
    var n := |answers| - 1;
    var id, content := calls[n].id, answers[n].content;
    var earlier := before + ToClaudeAll(answers[..n], ANTHROPIC);
    LastAnswer(calls, answers, n);
    TranslateLast(before, answers, n);
    MergedAppend(earlier, ToClaude(answers[n], ANTHROPIC));
    if n == 0 {
      assert earlier == before && CallIds(calls) == [] + [id] == [id];
      FirstResultAdded(Merged(before), id, content);
    } else {
      AnswersMerge(before, calls[..n], answers[..n]);
      NextResultAdded(Merged(before), Merged(earlier), CallIds(calls[..n]), id, content);
    }
  }

  /** Translating one more turn adds it, merged, after what was there. */
  ghost predicate EndsClosed(messages: seq<ClaudeMessage>) {
    messages != [] ==> Uses(messages[|messages| - 1]) == []
  }

  lemma AppendPlain(merged: seq<ClaudeMessage>, m: ClaudeMessage)
    requires WellPaired(merged) && EndsClosed(merged) && !IsResults(m) && Uses(m) == []
    ensures WellPaired(merged + [m]) && EndsClosed(merged + [m])
  {}

  lemma AppendTurn(merged: seq<ClaudeMessage>, use: ClaudeMessage, results: ClaudeMessage)
    requires WellPaired(merged) && EndsClosed(merged)
    requires Uses(use) != [] && AnswersExactly(results, Uses(use))
    ensures WellPaired(merged + [use, results]) && EndsClosed(merged + [use, results])
  {}

  ghost predicate GoesWell(messages: seq<Message>) {
    var merged := Merged(ToClaudeAll(messages, ANTHROPIC));
    WellPaired(merged) && EndsClosed(merged)
  }

  lemma FirstOfTurn(done: seq<Message>, m: Message)
    requires !m.Answer? && FaithfulRaw(m)
    ensures var first := ToClaude(m, ANTHROPIC);
            && !IsResults(first)
            && Uses(first) == (if m.Assistant? then CallIds(m.calls) else [])
            && ToClaudeAll(done + [m], ANTHROPIC) == ToClaudeAll(done, ANTHROPIC) + [first]
            && Merged(ToClaudeAll(done + [m], ANTHROPIC)) == Merged(ToClaudeAll(done, ANTHROPIC)) + [first]
  {
    if m.Assistant? { TurnIsCarried(m); }
    var sent := ToClaudeAll(done + [m], ANTHROPIC);
    assert sent[..|done|] == ToClaudeAll(done, ANTHROPIC);
  }

  lemma TurnGoesWell(done: seq<Message>, m: Message, answers: seq<Message>)
    requires m.Assistant? && FaithfulRaw(m) && |answers| == |m.calls| > 0 && AnsweredBy(m.calls, answers)
    requires GoesWell(done)
    ensures GoesWell(done + [m] + answers)
  {
    var first, sent := ToClaude(m, ANTHROPIC), ToClaudeAll(done + [m], ANTHROPIC);
    var before := Merged(ToClaudeAll(done, ANTHROPIC));
    FirstOfTurn(done, m);
    AnswersMerge(sent, m.calls, answers);
    TranslateConcat(done + [m], answers);
    TurnAppended(before, first, Merged(sent + ToClaudeAll(answers, ANTHROPIC)), CallIds(m.calls));
  }

  lemma TurnAppended(before: seq<ClaudeMessage>, use: ClaudeMessage, merged: seq<ClaudeMessage>, ids: seq<string>)
    requires WellPaired(before) && EndsClosed(before) && ids != [] && Uses(use) == ids
    requires ResultsAdded(before + [use], merged, ids)
    ensures WellPaired(merged) && EndsClosed(merged)
  {
    var results := merged[|merged| - 1];
    AppendTurn(before, use, results);
    assert merged == merged[..|merged| - 1] + [results];
    assert before + [use] + [results] == before + [use, results];
  }

  lemma TranslateConcat(a: seq<Message>, b: seq<Message>)
    ensures ToClaudeAll(a + b, ANTHROPIC) == ToClaudeAll(a, ANTHROPIC) + ToClaudeAll(b, ANTHROPIC)
  {}

  lemma PlainGoesWell(done: seq<Message>, m: Message)
    requires FaithfulRaw(m) && (m.User? || (m.Assistant? && m.calls == [])) && GoesWell(done)
    ensures GoesWell(done + [m])
  {
    FirstOfTurn(done, m);
    AppendPlain(Merged(ToClaudeAll(done, ANTHROPIC)), ToClaude(m, ANTHROPIC));
  }

  /** How many messages the first turn takes: one, or one more than its calls. */
  lemma FirstTurn(messages: seq<Message>) returns (n: nat)
    requires messages != [] && Paired(messages) && AllFaithful(messages)
    ensures 1 <= n <= |messages| && FaithfulRaw(messages[0])
    ensures n == 1 ==> messages[0].User? || (messages[0].Assistant? && messages[0].calls == [])
    ensures n > 1 ==>
              && messages[0].Assistant? && n == 1 + |messages[0].calls|
              && AnsweredBy(messages[0].calls, messages[1..n])
    ensures Paired(messages[n..]) && AllFaithful(messages[n..])
  {
    n := if messages[0].User? then 1 else 1 + |messages[0].calls|;
    assert messages[0] in messages;
    assert forall m :: m in messages[n..] ==> m in messages;
  }

  lemma FirstTurnGoesWell(done: seq<Message>, rest: seq<Message>, n: nat)
    requires GoesWell(done) && 1 <= n <= |rest| && FaithfulRaw(rest[0])
    requires if n == 1 then rest[0].User? || (rest[0].Assistant? && rest[0].calls == [])
             else rest[0].Assistant? && n == 1 + |rest[0].calls| && AnsweredBy(rest[0].calls, rest[1..n])
    ensures GoesWell(done + rest[..n])
  {
    if n == 1 {
      PlainGoesWell(done, rest[0]);
      assert rest[..1] == [rest[0]];
    } else {
      TurnGoesWell(done, rest[0], rest[1..n]);
      assert done + rest[..n] == done + [rest[0]] + rest[1..n];
    }
  }

  /** The translation of what is done followed by the rest, given how what is done came out. */
  lemma {:induction false} TranslationIsPaired(done: seq<Message>, rest: seq<Message>)
    requires Paired(rest) && AllFaithful(rest)
    requires GoesWell(done)
    ensures GoesWell(done + rest)
    decreases |rest|
  {
    if |rest| == 0 {
      assert done + rest == done;
    } else {
      var n := FirstTurn(rest);
      FirstTurnGoesWell(done, rest, n);
      TranslationIsPaired(done + rest[..n], rest[n..]);
      Rejoined(done, rest, n);
    }
  }

  // ---- What the model answers, and every prompt made from it ----

  /** Claude's answer as a reply: its text, its tool calls in order, and the answer itself kept as it is. */
  function ReadAnswer(blocks: seq<Block>, results: seq<string>, offered: set<string>): Reply {
    Reply(TextIn(blocks), CallsIn(blocks), blocks, results, offered)
  }

  /** A reply kept as a turn of a conversation on some connection. */
  function Kept(reply: Reply, connector: string): Message
    requires reply.Reply?
  {
    Assistant(reply.text, reply.calls, reply.raw, connector)
  }

  /**
   Claude's answer, read, stored and sent again: as it was while the conversation is still on
   Anthropic, and with the same text and calls when it is not.
   */
  lemma AnswerComesBack(blocks: seq<Block>, results: seq<string>, offered: set<string>, connector: string)
    ensures var turn := Kept(ReadAnswer(blocks, results, offered), connector);
            && FaithfulRaw(turn)
            && SentParts(ToClaude(turn, ANTHROPIC)) == SentParts(ClaudeMessage(AssistantRole, Blocks(blocks)))
            && (connector == ANTHROPIC && blocks != [] ==>
                  ToClaude(turn, ANTHROPIC) == ClaudeMessage(AssistantRole, Blocks(blocks)))
  {
    TurnIsCarried(Kept(ReadAnswer(blocks, results, offered), connector));
  }

  ghost predicate ReadFromClaude(replies: seq<Reply>) {
    forall r :: r in replies && r.Reply? ==> r == ReadAnswer(r.raw, r.results, r.offered)
  }

  /** Whenever the conversation was on an Anthropic connection, its replies were read from Claude's answers. */
  ghost predicate ClaudeAnswered(s: State, events: seq<Event>) {
    events == [] || (
      var n := |events| - 1;
      && ClaudeAnswered(s, events[..n])
      && (events[n].WorkerAnswers? && Run(s, events[..n]).connector == ANTHROPIC ==> ReadFromClaude(events[n].replies)))
  }

  ghost predicate FaithfulState(s: State) {
    AllFaithful(s.messages) && forall prompt :: prompt in s.asked ==> AllFaithful(prompt)
  }

  lemma AskingKeepsFaithful(s: State, reply: Reply)
    requires FaithfulState(s)
    requires s.connector == ANTHROPIC && reply.Reply? ==> reply == ReadAnswer(reply.raw, reply.results, reply.offered)
    ensures FaithfulState(Asked(s, reply)) && Asked(s, reply).connector == s.connector
  {
    var t := Asked(s, reply);
    if reply.Reply? {
      forall m | m in Turn(reply, s.connector) ensures FaithfulRaw(m) {
        var i :| 0 <= i < |Turn(reply, s.connector)| && Turn(reply, s.connector)[i] == m;
        if i > 0 { assert m == AnswerTo(reply, i - 1); }
      }
      forall m | m in t.messages ensures m in s.messages || m in Turn(reply, s.connector) {}
    }
    forall prompt | prompt in t.asked ensures prompt in s.asked || prompt == s.messages {}
  }

  lemma {:induction false} RoundsKeepFaithful(s: State, replies: seq<Reply>, left: nat)
    requires FaithfulState(s) && (s.connector == ANTHROPIC ==> ReadFromClaude(replies))
    ensures FaithfulState(Rounds(s, replies, left))
    decreases left
  {
    if left > 0 {
      if replies != [] { assert replies[0] in replies; }
      AskingKeepsFaithful(s, NextReply(replies));
      assert forall r :: r in Rest(replies) ==> r in replies;
      RoundsKeepFaithful(Asked(s, NextReply(replies)), Rest(replies), left - 1);
    }
  }

  lemma ChangingOneStaysFaithful(before: seq<Message>, after: seq<Message>, p: nat)
    requires AllFaithful(before) && |before| <= |after| <= |before| + 1 && p < |after| && !after[p].Assistant?
    requires forall i :: 0 <= i < |after| && i != p ==> i < |before| && after[i] == before[i]
    ensures AllFaithful(after)
  {
    forall m | m in after ensures FaithfulRaw(m) {
      var i :| 0 <= i < |after| && after[i] == m;
      if i != p { assert before[i] in before; }
    }
  }

  lemma EventKeepsFaithful(s: State, e: Event)
    requires FaithfulState(s)
    requires e.WorkerAnswers? && s.connector == ANTHROPIC ==> ReadFromClaude(e.replies)
    ensures FaithfulState(After(s, e))
  {
    match e
    case Send(_, _, stale, usable) =>
      if TakesMessage(s, stale, usable) { ChangingOneStaysFaithful(s.messages, After(s, e).messages, |s.messages|); }
    case Decide(position, _, _, _, on) =>
      if on && position < |s.messages| && IsWaiting(s.messages[position]) {
        ChangingOneStaysFaithful(s.messages, After(s, e).messages, position);
      }
    case WorkerAnswers(replies) =>
      if s.tasks > 0 { RoundsKeepFaithful(s.(tasks := s.tasks - 1), replies, MAX_ROUNDS); }
  }

  lemma {:induction false} RunIsFaithful(text: string, connector: string, events: seq<Event>)
    requires ClaudeAnswered(Start(text, connector), events)
    ensures FaithfulState(Run(Start(text, connector), events))
  {
    if events != [] {
      var n := |events| - 1;
      RunIsFaithful(text, connector, events[..n]);
      EventKeepsFaithful(Run(Start(text, connector), events[..n]), events[n]);
    }
  }

  /**
   Whatever a conversation went through, changes of connection included, each prompt made for the
   model reaches Anthropic with every tool_use answered in the very next message, nothing else
   answered, and saying exactly what is stored: texts, calls and results, in order.
   */
  lemma PromptsReachClaudePaired(text: string, connector: string, events: seq<Event>, prompt: seq<Message>)
    requires ClaudeAnswered(Start(text, connector), events)
    requires prompt in Run(Start(text, connector), events).asked
    ensures var sent := ToClaudeAll(prompt, ANTHROPIC);
            && WellPaired(Merged(sent))
            && NoAdjacentResults(Merged(sent))
            && Flat(Merged(sent), SentParts) == StoredContent(prompt)
  {
    RunIsFaithful(text, connector, events);
    EveryRunKeepsInv(text, connector, events);
    TranslationIsPaired([], prompt);
    assert [] + prompt == prompt;
    SentPartsAreAdditive();
    MergingKeepsContent(ToClaudeAll(prompt, ANTHROPIC), SentParts);
    MergingKeepsApart(ToClaudeAll(prompt, ANTHROPIC));
    PromptIsCarried(prompt);
  }
}

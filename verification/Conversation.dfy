/**
 The assistant's conversation with a staff member.

 A turn asks the model, runs the look-ups it calls, and stops when it proposes changes; it goes
 on after the last proposal is confirmed or declined. Requests and answers take turns: each view
 and each worker task is one step.
 */
module Conversation {

  /** Arguments are kept as the text they were sent in. */
  datatype Call = Call(id: string, name: string, arguments: string)

  datatype Action = NoAction | Waiting | Confirmed | Declined

  datatype Block =
    | Text(text: string)
    | ToolUse(id: string, name: string, arguments: string)
    | ToolResult(callId: string, result: string)
    | Other(data: string)

  datatype Message =
    | User(text: string)
    | Assistant(text: string, calls: seq<Call>, raw: seq<Block>, connector: string)
    | Answer(call: Call, action: Action, content: string)

  datatype Status = Ready | Working | AwaitingDecision

  /**
   One request to the model: refused or failed, broken off by an unexpected error, or replied to.
   Each look-up's result is given too, and the tools the owner may use when the calls are run.
   */
  datatype Reply =
    | Unavailable
    | Broken
    | Reply(text: string, calls: seq<Call>, raw: seq<Block>, results: seq<string>, offered: set<string>)

  /** A tool that was run, and the position of the tool message it was run for. */
  datatype ToolRun = ToolRun(position: nat, name: string)

  datatype State = State(
    status: Status,
    connector: string,
    messages: seq<Message>,
    tasks: nat,                 // answer tasks queued for the worker
    asked: seq<seq<Message>>,   // every prompt made for the model, sent or refused
    runs: seq<ToolRun>)         // every tool run, look-ups and changes, in order

  const WRITE_TOOLS: set<string> := {"create_task", "add_note", "log_communication", "complete_work_item"}
  const DRAFT := "draft_message"
  const MAX_ROUNDS := 8
  const MAX_MESSAGES := 200

  predicate Proposes(call: Call) {
    call.name in WRITE_TOOLS
  }

  function ResultOf(results: seq<string>, i: nat): string {
    if i < |results| then results[i] else ""
  }

  /** The tool message for one call: a proposal waits with no content, a look-up is answered. */
  function AnswerTo(reply: Reply, i: nat): Message
    requires reply.Reply? && i < |reply.calls|
  {
    if Proposes(reply.calls[i]) then Answer(reply.calls[i], Waiting, "")
    else Answer(reply.calls[i], NoAction, ResultOf(reply.results, i))
  }

  function Answers(reply: Reply): (answers: seq<Message>)
    requires reply.Reply?
    ensures |answers| == |reply.calls|
  {
    seq(|reply.calls|, i requires 0 <= i < |reply.calls| => AnswerTo(reply, i))
  }

  predicate ProposesAny(reply: Reply)
    requires reply.Reply?
  {
    exists c :: c in reply.calls && Proposes(c)
  }

  predicate IsWaiting(m: Message) {
    m.Answer? && m.action == Waiting
  }

  predicate AnyWaiting(messages: seq<Message>) {
    exists m :: m in messages && IsWaiting(m)
  }

  function Turn(reply: Reply, connector: string): seq<Message>
    requires reply.Reply?
  {
    [Assistant(reply.text, reply.calls, reply.raw, connector)] + Answers(reply)
  }

  /** What running a tool by name comes to: drafts run nothing, and neither does a name not offered. */
  function RunTool(position: nat, name: string, offered: set<string>): seq<ToolRun> {
    if name == DRAFT || name !in offered then [] else [ToolRun(position, name)]
  }

  /** The tools run for the first n calls of a reply, whose answers begin at a position. */
  function LookUps(reply: Reply, from: nat, n: nat): seq<ToolRun>
    requires reply.Reply? && n <= |reply.calls|
  {
    if n == 0 then [] else
      LookUps(reply, from, n - 1)
      + if Proposes(reply.calls[n - 1]) then [] else RunTool(from + n - 1, reply.calls[n - 1].name, reply.offered)
  }

  /** A look-up is run exactly for the calls of offered tools that change nothing and are no draft. */
  lemma {:induction false} LookUpsAreRun(reply: Reply, from: nat, n: nat, run: ToolRun)
    requires reply.Reply? && n <= |reply.calls|
    ensures run in LookUps(reply, from, n)
            <==> from <= run.position < from + n && run.name == reply.calls[run.position - from].name
                 && run.name in reply.offered && run.name !in WRITE_TOOLS && run.name != DRAFT
  {
    if n > 0 {
      LookUpsAreRun(reply, from, n - 1, run);
      var name := reply.calls[n - 1].name;
      var last := if Proposes(reply.calls[n - 1]) then [] else RunTool(from + n - 1, name, reply.offered);
      assert run in last
          <==> run == ToolRun(from + n - 1, name) && name in reply.offered && name !in WRITE_TOOLS && name != DRAFT;
      assert LookUps(reply, from, n) == LookUps(reply, from, n - 1) + last;
    }
  }

  ghost predicate InOrder(runs: seq<ToolRun>, end: nat) {
    && (forall i :: 0 <= i < |runs| ==> runs[i].position < end)
    && (forall i, j :: 0 <= i < j < |runs| ==> runs[i].position < runs[j].position)
  }

  /** Look-ups are run in the order of their calls, each once. */
  lemma {:induction false} LookUpsAreInOrder(reply: Reply, from: nat, n: nat)
    requires reply.Reply? && n <= |reply.calls|
    ensures InOrder(LookUps(reply, from, n), from + n)
  {
    if n > 0 { LookUpsAreInOrder(reply, from, n - 1); }
  }

  /** One round: the model is asked, and its turn and the answers to its calls are stored. */
  function Asked(s: State, reply: Reply): State {
    var s := s.(asked := s.asked + [s.messages]);
    if !reply.Reply? then s.(status := Ready)
    else
      var s := s.(runs := s.runs + LookUps(reply, |s.messages| + 1, |reply.calls|),
                  messages := s.messages + Turn(reply, s.connector));
      if ProposesAny(reply) then s.(status := AwaitingDecision)
      else if reply.calls == [] then s.(status := Ready)
      else s
  }

  function NextReply(replies: seq<Reply>): Reply {
    if replies == [] then Unavailable else replies[0]
  }

  function Rest(replies: seq<Reply>): seq<Reply> {
    if replies == [] then [] else replies[1..]
  }

  /** Rounds until the model answers, proposes a change, fails, or has been asked often enough. */
  function Rounds(s: State, replies: seq<Reply>, left: nat): State
    decreases left, replies
  {
    if left == 0 then s.(status := Ready)
    else
      var t := Asked(s, NextReply(replies));
      if t.status != Working then t else Rounds(t, Rest(replies), left - 1)
  }

  // ---- When an answer stops, said of the replies alone ----

  function ReplyAt(replies: seq<Reply>, i: nat): Reply {
    if i < |replies| then replies[i] else Unavailable
  }

  /** A reply the model is not asked again after: it failed, has no calls, or proposes a change. */
  predicate Stops(reply: Reply) {
    reply.Reply? ==> reply.calls == [] || exists c :: c in reply.calls && c.name in WRITE_TOOLS
  }

  /** How many rounds of look-ups come before the reply an answer stops at, if it may ask that often. */
  function LookUpRounds(replies: seq<Reply>, left: nat): (n: nat)
    ensures n <= left && (n < left ==> Stops(ReplyAt(replies, n)))
    ensures forall i :: 0 <= i < n ==> !Stops(ReplyAt(replies, i))
    decreases left, replies
  {
    if left == 0 || Stops(NextReply(replies)) then 0 else
      assert forall i {:trigger ReplyAt(replies, i)} :: 0 < i ==> ReplyAt(replies, i) == ReplyAt(Rest(replies), i - 1);
      1 + LookUpRounds(Rest(replies), left - 1)
  }

  /** After one request: its turn follows, a tool message a call, or nothing when the request failed. */
  ghost predicate Extends(before: seq<Message>, after: seq<Message>, reply: Reply, connector: string) {
    if !reply.Reply? then after == before else
      && |after| == |before| + 1 + |reply.calls| && before <= after
      && after[|before|] == Message.Assistant(reply.text, reply.calls, reply.raw, connector)
      && forall i :: 0 <= i < |reply.calls| ==>
           after[|before| + 1 + i] == (if reply.calls[i].name in WRITE_TOOLS then Answer(reply.calls[i], Waiting, "")
                                       else Answer(reply.calls[i], NoAction, ResultOf(reply.results, i)))
  }

  /** Lists of messages where each goes on from the one before as the reply in between says. */
  ghost predicate Follow(lists: seq<seq<Message>>, replies: seq<Reply>, connector: string) {
    forall i {:trigger ReplyAt(replies, i)} :: 0 <= i < |lists| - 1 ==>
      Extends(lists[i], lists[i + 1], ReplyAt(replies, i), connector)
  }

  /**
   What an answer to some messages comes to. The model is asked once for each round of look-ups, each
   time with everything before, and once more for the reply it stops at; the last turn says the status.
   */
  ghost predicate Answered(s: State, replies: seq<Reply>, left: nat, t: State) {
    var n := LookUpRounds(replies, left);
    && s.asked <= t.asked && |t.asked| == |s.asked| + (if n < left then n + 1 else n)
    && var lists := t.asked[|s.asked|..] + [t.messages];
    && lists[0] == s.messages && Follow(lists, replies, s.connector)
    && t.connector == s.connector && t.tasks == s.tasks
    && t.status == if n < left && ReplyAt(replies, n).Reply? && ReplyAt(replies, n).calls != []
                   then AwaitingDecision else Ready
  }

  /** One request was made: what came of it follows what was there, and says whether to go on. */
  ghost predicate AskedOnce(s: State, u: State, reply: Reply) {
    && Extends(s.messages, u.messages, reply, s.connector) && u.asked == s.asked + [s.messages]
    && u.connector == s.connector && u.tasks == s.tasks
    && u.status == if !Stops(reply) then Working
                   else if reply.Reply? && reply.calls != [] then AwaitingDecision else Ready
  }

  lemma ProposingStops(reply: Reply)
    requires reply.Reply?
    ensures Stops(reply) <==> reply.calls == [] || ProposesAny(reply)
  {
    if c :| c in reply.calls && c.name in WRITE_TOOLS { assert Proposes(c); }
  }

  lemma TurnExtends(messages: seq<Message>, reply: Reply, connector: string)
    requires reply.Reply?
    ensures Extends(messages, messages + Turn(reply, connector), reply, connector)
  {
    var turn := Turn(reply, connector);
    assert forall i :: 0 <= i < |reply.calls| ==> turn[1 + i] == AnswerTo(reply, i);
  }

  lemma AskedIsOnce(s: State, reply: Reply)
    requires s.status == Working
    ensures AskedOnce(s, Asked(s, reply), reply)
  {
    if reply.Reply? {
      ProposingStops(reply);
      TurnExtends(s.messages, reply, s.connector);
    }
  }

  lemma FollowFrom(first: seq<Message>, lists: seq<seq<Message>>, replies: seq<Reply>, connector: string)
    requires lists != [] && Extends(first, lists[0], NextReply(replies), connector)
    requires Follow(lists, Rest(replies), connector)
    ensures Follow([first] + lists, replies, connector)
  {
    var all := [first] + lists;
    forall i {:trigger ReplyAt(replies, i)} | 0 <= i < |lists|
      ensures Extends(all[i], all[i + 1], ReplyAt(replies, i), connector)
    {
      if i > 0 { assert ReplyAt(replies, i) == ReplyAt(Rest(replies), i - 1); }
    }
  }

  /** A round of look-ups before the rest of an answer. */
  lemma AnsweredAfterLookUps(s: State, u: State, replies: seq<Reply>, left: nat, t: State)
    requires left > 0 && !Stops(NextReply(replies)) && Answered(u, Rest(replies), left - 1, t)
    requires AskedOnce(s, u, NextReply(replies))
    ensures Answered(s, replies, left, t)
  {
    var lists := t.asked[|u.asked|..] + [t.messages];
    FollowFrom(s.messages, lists, replies, s.connector);
    assert t.asked[|s.asked|] == t.asked[..|u.asked|][|s.asked|] == s.messages;
    assert t.asked[|s.asked|..] == [s.messages] + t.asked[|u.asked|..];
    assert t.asked[|s.asked|..] + [t.messages] == [s.messages] + lists;
    var n := LookUpRounds(Rest(replies), left - 1);
    assert ReplyAt(replies, n + 1) == ReplyAt(Rest(replies), n);
  }

  lemma AnsweredAtOnce(s: State, t: State, replies: seq<Reply>, left: nat)
    requires left > 0 && Stops(NextReply(replies)) && AskedOnce(s, t, NextReply(replies))
    ensures Answered(s, replies, left, t)
  {
    assert t.asked[|s.asked|..] + [t.messages] == [s.messages, t.messages];
    assert LookUpRounds(replies, left) == 0 && ReplyAt(replies, 0) == NextReply(replies);
  }

  lemma NotAskedIsAnswered(s: State, replies: seq<Reply>)
    ensures Answered(s, replies, 0, s.(status := Ready))
  {
    assert s.asked[|s.asked|..] + [s.messages] == [s.messages];
  }

  /** An answer goes on after its look-ups, and stops at the first reply that leaves nothing to look up. */
  lemma {:induction false} RoundsAnswer(s: State, replies: seq<Reply>, left: nat, t: State)
    requires s.status == Working && t == Rounds(s, replies, left)
    ensures Answered(s, replies, left, t)
    decreases left
  {
    if left == 0 {
      NotAskedIsAnswered(s, replies);
    } else {
      var reply := NextReply(replies);
      var u := Asked(s, reply);
      AskedIsOnce(s, reply);
      if Stops(reply) {
        AnsweredAtOnce(s, u, replies, left);
      } else {
        RoundsAnswer(u, Rest(replies), left - 1, t);
        AnsweredAfterLookUps(s, u, replies, left, t);
      }
    }
  }

  datatype Event =
    | Send(text: string, connector: string, stale: bool, usable: bool)
    | Decide(position: nat, confirm: bool, offered: set<string>, result: string, on: bool)
    | WorkerAnswers(replies: seq<Reply>)

  /** A message is taken unless an answer is running (and fresh), a proposal waits, or it is full. */
  predicate TakesMessage(s: State, stale: bool, usable: bool) {
    usable && (s.status == Working ==> stale) && !AnyWaiting(s.messages) && |s.messages| < MAX_MESSAGES
  }

  function StartAnswer(s: State): State {
    s.(status := Working, tasks := s.tasks + 1)
  }

  /** A decided proposal; a confirmed one is made through its tool, if the owner may use it. */
  function Decided(s: State, e: Event): State
    requires e.Decide? && e.position < |s.messages| && IsWaiting(s.messages[e.position])
  {
    var m := s.messages[e.position];
    var decided := m.(action := if e.confirm then Confirmed else Declined, content := e.result);
    s.(messages := s.messages[e.position := decided],
       runs := if e.confirm then s.runs + RunTool(e.position, m.call.name, e.offered) else s.runs)
  }

  function After(s: State, e: Event): State {
    match e
    case Send(text, connector, stale, usable) =>
      if !TakesMessage(s, stale, usable) then s
      else StartAnswer(s.(connector := connector, messages := s.messages + [User(text)]))
    case Decide(position, _, _, _, on) =>
      if !on || position >= |s.messages| || !IsWaiting(s.messages[position]) then s
      else
        var t := Decided(s, e);
        if AnyWaiting(t.messages) then t else StartAnswer(t)
    case WorkerAnswers(replies) =>
      if s.tasks == 0 then s
      else
        var t := s.(tasks := s.tasks - 1);
        if t.status != Working then t else Rounds(t, replies, MAX_ROUNDS)
  }

  function Start(text: string, connector: string): State {
    State(Working, connector, [User(text)], 1, [], [])
  }

  function Run(s: State, events: seq<Event>): State {
    if events == [] then s else After(Run(s, events[..|events| - 1]), events[|events| - 1])
  }

  // ---- Every call is answered, in order, before anything else ----

  ghost predicate AnsweredBy(calls: seq<Call>, messages: seq<Message>) {
    && |calls| <= |messages|
    && forall i :: 0 <= i < |calls| ==> messages[i].Answer? && messages[i].call == calls[i]
  }

  /** The messages are user messages and whole assistant turns, one after another. */
  ghost predicate Paired(messages: seq<Message>)
    decreases |messages|
  {
    messages == [] ||
    match messages[0]
    case User(_) => Paired(messages[1..])
    case Assistant(_, calls, _, _) => AnsweredBy(calls, messages[1..]) && Paired(messages[1 + |calls|..])
    case Answer(_, _, _) => false
  }

  /** After whole turns, messages are whole turns exactly when they are on their own. */
  lemma {:induction false} PairedAppend(a: seq<Message>, b: seq<Message>)
    requires Paired(a)
    ensures Paired(a + b) <==> Paired(b)
    decreases |a|
  {
    if a == [] {
      assert a + b == b;
    } else {
      var n := if a[0].User? then 1 else 1 + |a[0].calls|;
      RestAppend(a, b, n);
      if a[0].Assistant? { assert AnsweredBy(a[0].calls, (a + b)[1..]) by { RestAppend(a, b, 1); } }
      PairedAppend(a[n..], b);
    }
  }

  lemma RestAppend<T>(a: seq<T>, b: seq<T>, n: nat)
    requires n <= |a|
    ensures (a + b)[n..] == a[n..] + b
  {}

  lemma TurnIsPaired(reply: Reply, connector: string)
    requires reply.Reply?
    ensures Paired(Turn(reply, connector))
  {
    var turn := Turn(reply, connector);
    assert turn[1..] == Answers(reply) && turn[1 + |reply.calls|..] == [];
  }

  /**
   An answer that stops between two saves leaves its turn with the first k of its tool messages.
   Every call is then answered exactly when it stopped after the last one.
   */
  lemma InterruptedTurnIsPaired(messages: seq<Message>, reply: Reply, connector: string, k: nat)
    requires Paired(messages) && reply.Reply? && k <= |reply.calls|
    ensures Paired(messages + Turn(reply, connector)[..k + 1]) <==> k == |reply.calls|
  {
    var part := Turn(reply, connector)[..k + 1];
    PairedAppend(messages, part);
    assert part[0] == Assistant(reply.text, reply.calls, reply.raw, connector) && |part[1..]| == k;
    if k == |reply.calls| {
      TurnIsPaired(reply, connector);
      assert part == Turn(reply, connector);
    }
  }

  /** What a decision does to a tool message leaves every call answered where it was. */
  lemma {:induction false} DecisionKeepsPaired(messages: seq<Message>, p: nat, action: Action, content: string)
    requires Paired(messages) && p < |messages| && messages[p].Answer?
    ensures Paired(messages[p := messages[p].(action := action, content := content)])
    decreases |messages|
  {
    var after := messages[p := messages[p].(action := action, content := content)];
    var n := if messages[0].User? then 1 else 1 + |messages[0].calls|;
    if p < n {
      assert after[n..] == messages[n..];
    } else {
      DecisionKeepsPaired(messages[n..], p - n, action, content);
      assert after[n..] == messages[n..][p - n := messages[p].(action := action, content := content)];
    }
  }

  // ---- The invariant of the machine ----

  /** Of the tools run, those that make changes. */
  function ChangesIn(runs: seq<ToolRun>): seq<ToolRun> {
    if runs == [] then [] else
      var n := |runs| - 1;
      ChangesIn(runs[..n]) + if runs[n].name in WRITE_TOOLS then [runs[n]] else []
  }

  lemma {:induction false} ChangesAppend(a: seq<ToolRun>, b: seq<ToolRun>)
    ensures ChangesIn(a + b) == ChangesIn(a) + ChangesIn(b)
  {
    if b == [] {
      assert a + b == a;
    } else {
      var n := |b| - 1;
      assert (a + b)[..|a| + n] == a + b[..n];
      ChangesAppend(a, b[..n]);
    }
  }

  lemma {:induction false} LookUpsChangeNothing(reply: Reply, from: nat, n: nat)
    requires reply.Reply? && n <= |reply.calls|
    ensures ChangesIn(LookUps(reply, from, n)) == []
  {
    if n > 0 {
      LookUpsChangeNothing(reply, from, n - 1);
      var name := reply.calls[n - 1].name;
      var last := if Proposes(reply.calls[n - 1]) then [] else RunTool(from + n - 1, name, reply.offered);
      ChangesAppend(LookUps(reply, from, n - 1), last);
      assert last != [] ==> last[..0] == [];
    }
  }

  /** Each change was made for a different proposal, by its own tool, and the proposal was confirmed. */
  ghost predicate MadeOnce(changes: seq<ToolRun>, messages: seq<Message>) {
    && (forall i, j :: 0 <= i < j < |changes| ==> changes[i].position != changes[j].position)
    && (forall c :: c in changes ==>
          c.position < |messages| && messages[c.position].Answer?
          && messages[c.position].action == Confirmed && messages[c.position].call.name == c.name)
  }

  /** Every call of every prompt is answered, and nothing in it waits. */
  ghost predicate AllComplete(asked: seq<seq<Message>>) {
    forall prompt :: prompt in asked ==> Paired(prompt) && !AnyWaiting(prompt)
  }

  ghost predicate OnlyChangesWait(messages: seq<Message>) {
    forall m :: m in messages && IsWaiting(m) ==> Proposes(m.call)
  }

  /** What holds throughout, also while an answer runs. */
  ghost predicate RunInv(s: State) {
    && Paired(s.messages)
    && (s.status == AwaitingDecision <==> AnyWaiting(s.messages))
    && AllComplete(s.asked)
    && MadeOnce(ChangesIn(s.runs), s.messages)
    && OnlyChangesWait(s.messages)
  }

  ghost predicate Inv(s: State) {
    RunInv(s) && (s.status == Working ==> s.tasks > 0)
  }

  lemma TurnWaitsWhenItProposes(reply: Reply, connector: string)
    requires reply.Reply?
    ensures AnyWaiting(Turn(reply, connector)) <==> ProposesAny(reply)
  {
    var turn := Turn(reply, connector);
    if c :| c in reply.calls && Proposes(c) {
      var i :| 0 <= i < |reply.calls| && reply.calls[i] == c;
      assert turn[1 + i] == AnswerTo(reply, i);
      assert IsWaiting(turn[1 + i]);
    }
    if m :| m in turn && IsWaiting(m) {
      var i :| 0 <= i < |turn| && turn[i] == m;
      assert turn[i] == AnswerTo(reply, i - 1);
    }
  }

  lemma AppendingWaits(a: seq<Message>, b: seq<Message>)
    ensures AnyWaiting(a + b) <==> AnyWaiting(a) || AnyWaiting(b)
  {
    assert forall m :: m in a + b <==> m in a || m in b;
  }

  lemma AppendingKeepsMade(changes: seq<ToolRun>, messages: seq<Message>, turn: seq<Message>)
    requires MadeOnce(changes, messages)
    ensures MadeOnce(changes, messages + turn)
  {}

  lemma AppendingKeepsOnlyChanges(messages: seq<Message>, turn: seq<Message>)
    requires OnlyChangesWait(messages) && OnlyChangesWait(turn)
    ensures OnlyChangesWait(messages + turn)
  {
    assert forall m :: m in messages + turn <==> m in messages || m in turn;
  }

  lemma OneMorePrompt(asked: seq<seq<Message>>, prompt: seq<Message>)
    requires AllComplete(asked) && Paired(prompt) && !AnyWaiting(prompt)
    ensures AllComplete(asked + [prompt])
  {}

  /** One whole turn more, or none, and the prompt it came from: the invariant goes on. */
  lemma AppendingKeepsInv(s: State, turn: seq<Message>, t: State)
    requires RunInv(s) && s.status == Working && Paired(turn) && OnlyChangesWait(turn)
    requires t.messages == s.messages + turn && t.asked == s.asked + [s.messages]
    requires t.status == AwaitingDecision <==> AnyWaiting(turn)
    requires ChangesIn(t.runs) == ChangesIn(s.runs)
    ensures RunInv(t)
  {
    PairedAppend(s.messages, turn);
    AppendingKeepsMade(ChangesIn(s.runs), s.messages, turn);
    AppendingWaits(s.messages, turn);
    AppendingKeepsOnlyChanges(s.messages, turn);
    OneMorePrompt(s.asked, s.messages);
  }

  lemma TurnOnlyChangesWait(reply: Reply, connector: string)
    requires reply.Reply?
    ensures OnlyChangesWait(Turn(reply, connector))
  {
    var turn := Turn(reply, connector);
    forall m | m in turn && IsWaiting(m) ensures Proposes(m.call) {
      var i :| 0 <= i < |turn| && turn[i] == m;
      assert turn[i] == AnswerTo(reply, i - 1);
    }
  }

  lemma TurnChangesNothing(runs: seq<ToolRun>, reply: Reply, from: nat)
    requires reply.Reply?
    ensures ChangesIn(runs + LookUps(reply, from, |reply.calls|)) == ChangesIn(runs)
  {
    LookUpsChangeNothing(reply, from, |reply.calls|);
    ChangesAppend(runs, LookUps(reply, from, |reply.calls|));
  }

  /** What a reply adds to the state, by what it is. */
  lemma AskedIs(s: State, reply: Reply)
    requires reply.Reply? && s.status == Working
    ensures var t := Asked(s, reply);
            && t.messages == s.messages + Turn(reply, s.connector)
            && t.runs == s.runs + LookUps(reply, |s.messages| + 1, |reply.calls|)
            && t.asked == s.asked + [s.messages] && t.tasks == s.tasks && t.connector == s.connector
            && (t.status == AwaitingDecision <==> ProposesAny(reply))
  {}

  lemma AskingKeepsInv(s: State, reply: Reply)
    requires RunInv(s) && s.status == Working
    ensures RunInv(Asked(s, reply))
  {
    if reply.Reply? {
      AskedIs(s, reply);
      TurnIsPaired(reply, s.connector);
      TurnWaitsWhenItProposes(reply, s.connector);
      TurnOnlyChangesWait(reply, s.connector);
      TurnChangesNothing(s.runs, reply, |s.messages| + 1);
      AppendingKeepsInv(s, Turn(reply, s.connector), Asked(s, reply));
    } else {
      assert s.messages + [] == s.messages;
      AppendingKeepsInv(s, [], Asked(s, reply));
    }
  }

  lemma StoppingKeepsInv(s: State)
    requires RunInv(s) && s.status == Working
    ensures RunInv(s.(status := Ready))
  {}

  lemma {:induction false} RoundsKeepInv(s: State, replies: seq<Reply>, left: nat)
    requires RunInv(s) && s.status == Working
    ensures RunInv(Rounds(s, replies, left))
    decreases left
  {
    if left == 0 {
      StoppingKeepsInv(s);
    } else {
      var t := Asked(s, NextReply(replies));
      AskingKeepsInv(s, NextReply(replies));
      if t.status == Working { RoundsKeepInv(t, Rest(replies), left - 1); }
    }
  }

  lemma AskingChangesNothing(s: State, reply: Reply)
    requires s.status == Working
    ensures var t := Asked(s, reply);
            && t.asked == s.asked + [s.messages] && t.tasks == s.tasks
            && ChangesIn(t.runs) == ChangesIn(s.runs)
  {
    if reply.Reply? { TurnChangesNothing(s.runs, reply, |s.messages| + 1); }
  }

  /** An answer ends, makes no change, and asks no more often than it may. */
  lemma {:induction false} RoundsEnd(s: State, replies: seq<Reply>, left: nat)
    requires s.status == Working
    ensures var t := Rounds(s, replies, left);
            && t.status != Working && t.tasks == s.tasks
            && ChangesIn(t.runs) == ChangesIn(s.runs)
            && |s.asked| <= |t.asked| <= |s.asked| + left
    decreases left
  {
    if left > 0 {
      AskingChangesNothing(s, NextReply(replies));
      var t := Asked(s, NextReply(replies));
      if t.status == Working { RoundsEnd(t, Rest(replies), left - 1); }
    }
  }

  lemma DecisionKeepsOnlyChanges(messages: seq<Message>, p: nat, decided: Message)
    requires OnlyChangesWait(messages) && p < |messages| && !IsWaiting(decided)
    ensures OnlyChangesWait(messages[p := decided])
  {
    forall m | m in messages[p := decided] ensures m in messages || m == decided {}
  }

  lemma DecisionKeepsMade(changes: seq<ToolRun>, messages: seq<Message>, p: nat, decided: Message)
    requires MadeOnce(changes, messages) && p < |messages| && IsWaiting(messages[p])
    requires decided.Answer? && decided.call == messages[p].call
    ensures MadeOnce(changes, messages[p := decided])
    ensures decided.action == Confirmed ==>
              MadeOnce(changes + [ToolRun(p, decided.call.name)], messages[p := decided])
  {
    forall c | c in changes ensures c.position != p {}
  }

  lemma DecidingKeepsInv(s: State, e: Event)
    requires Inv(s) && e.Decide? && e.on && e.position < |s.messages| && IsWaiting(s.messages[e.position])
    ensures Inv(After(s, e))
  {
    var t, p := Decided(s, e), e.position;
    var decided := t.messages[p];
    assert s.messages[p] in s.messages;
    DecisionKeepsPaired(s.messages, p, decided.action, decided.content);
    DecisionKeepsOnlyChanges(s.messages, p, decided);
    DecisionKeepsMade(ChangesIn(s.runs), s.messages, p, decided);
    DecidingChanges(s, e);
    assert MadeOnce(ChangesIn(t.runs), t.messages);
  }

  /** Confirming a proposal makes its change if its tool is offered; declining makes none. */
  lemma DecidingChanges(s: State, e: Event)
    requires Inv(s) && e.Decide? && e.position < |s.messages| && IsWaiting(s.messages[e.position])
    ensures var name := s.messages[e.position].call.name;
            ChangesIn(Decided(s, e).runs)
            == ChangesIn(s.runs) + if e.confirm && name in e.offered then [ToolRun(e.position, name)] else []
  {
    var name := s.messages[e.position].call.name;
    assert s.messages[e.position] in s.messages;
    assert name in WRITE_TOOLS && name != DRAFT;
    var run := RunTool(e.position, name, e.offered);
    ChangesAppend(s.runs, run);
    assert run != [] ==> run[..0] == [];
  }

  /**
   What a decision comes to: its message is decided with the result, a confirmed change is made with
   its own tool if the owner may use it, and the answer goes on when nothing waits any more.
   */
  ghost predicate DecisionMade(s: State, position: nat, confirm: bool, offered: set<string>, result: string,
                               continues: bool, t: State)
    requires position < |s.messages| && s.messages[position].Answer?
  {
    var call := s.messages[position].call;
    && t.messages == s.messages[position := Answer(call, if confirm then Confirmed else Declined, result)]
    && t.connector == s.connector && t.asked == s.asked
    && t.runs == s.runs + (if confirm && call.name in offered then [ToolRun(position, call.name)] else [])
    && (continues <==> forall m :: m in t.messages && m.Answer? ==> m.action != Waiting)
    && t.status == (if continues then Working else s.status)
    && t.tasks == s.tasks + if continues then 1 else 0
  }

  lemma DecidingMakes(
    s: State, position: nat, confirm: bool, offered: set<string>, result: string, continues: bool, t: State)
    requires Inv(s) && position < |s.messages| && IsWaiting(s.messages[position])
    requires t == After(s, Decide(position, confirm, offered, result, true))
    requires continues <==> !AnyWaiting(t.messages)
    ensures DecisionMade(s, position, confirm, offered, result, continues, t)
  {
    assert s.messages[position] in s.messages;
    assert Proposes(s.messages[position].call);
    assert s.messages[position].call.name != DRAFT;
    assert forall m :: m in t.messages && m.Answer? && m.action == Waiting ==> IsWaiting(m);
  }

  /** The decided message stored, and the answer started again if nothing waits. */
  lemma DecidedThenGoesOn(
    s: State, position: nat, confirm: bool, offered: set<string>, result: string, continues: bool, u: State, t: State)
    requires Inv(s) && position < |s.messages| && IsWaiting(s.messages[position])
    requires u == Decided(s, Decide(position, confirm, offered, result, true))
    requires continues <==> !AnyWaiting(u.messages)
    requires t == if continues then StartAnswer(u) else u
    ensures Inv(t) && t == After(s, Decide(position, confirm, offered, result, true))
    ensures DecisionMade(s, position, confirm, offered, result, continues, t)
  {
    DecidingKeepsInv(s, Decide(position, confirm, offered, result, true));
    DecidingMakes(s, position, confirm, offered, result, continues, t);
  }

  lemma SendingKeepsInv(s: State, text: string)
    requires RunInv(s) && !AnyWaiting(s.messages)
    ensures Paired(s.messages + [User(text)]) && !AnyWaiting(s.messages + [User(text)])
    ensures MadeOnce(ChangesIn(s.runs), s.messages + [User(text)]) && OnlyChangesWait(s.messages + [User(text)])
  {
    assert Paired([User(text)]) by { assert [User(text)][1..] == []; }
    PairedAppend(s.messages, [User(text)]);
    AppendingKeepsMade(ChangesIn(s.runs), s.messages, [User(text)]);
    AppendingWaits(s.messages, [User(text)]);
    AppendingKeepsOnlyChanges(s.messages, [User(text)]);
  }

  lemma AnsweringKeepsInv(s: State, replies: seq<Reply>)
    requires Inv(s)
    ensures Inv(After(s, WorkerAnswers(replies)))
  {
    if s.tasks > 0 && s.status == Working {
      RoundsKeepInv(s.(tasks := s.tasks - 1), replies, MAX_ROUNDS);
      RoundsEnd(s.(tasks := s.tasks - 1), replies, MAX_ROUNDS);
    }
  }

  lemma EventKeepsInv(s: State, e: Event)
    requires Inv(s)
    ensures Inv(After(s, e))
  {
    match e
    case Send(text, connector, stale, usable) =>
      if TakesMessage(s, stale, usable) { SendingKeepsInv(s, text); }
    case Decide(position, _, _, _, on) =>
      if on && position < |s.messages| && IsWaiting(s.messages[position]) { DecidingKeepsInv(s, e); }
    case WorkerAnswers(replies) => AnsweringKeepsInv(s, replies);
  }

  lemma {:induction false} EveryRunKeepsInv(text: string, connector: string, events: seq<Event>)
    ensures Inv(Run(Start(text, connector), events))
  {
    var s := Start(text, connector);
    if events == [] {
      assert [User(text)][1..] == [];
    } else {
      EveryRunKeepsInv(text, connector, events[..|events| - 1]);
      EventKeepsInv(Run(s, events[..|events| - 1]), events[|events| - 1]);
    }
  }

  // ---- Changes are made exactly once for each confirmation, and never otherwise ----

  /** The confirmations of a run: of a waiting proposal, by its owner, with a tool the owner may use. */
  function Confirmations(s: State, events: seq<Event>): seq<ToolRun> {
    if events == [] then [] else
      var n := |events| - 1;
      var before, e := Run(s, events[..n]), events[n];
      Confirmations(s, events[..n])
      + if e.Decide? && e.on && e.confirm && e.position < |before.messages| && IsWaiting(before.messages[e.position])
           && before.messages[e.position].call.name in e.offered
        then [ToolRun(e.position, before.messages[e.position].call.name)] else []
  }

  lemma EventMakesChanges(s: State, e: Event)
    requires Inv(s)
    ensures ChangesIn(After(s, e).runs)
         == ChangesIn(s.runs)
            + if e.Decide? && e.on && e.confirm && e.position < |s.messages| && IsWaiting(s.messages[e.position])
                 && s.messages[e.position].call.name in e.offered
              then [ToolRun(e.position, s.messages[e.position].call.name)] else []
  {
    match e
    case Send(_, _, _, _) =>
    case Decide(position, _, _, _, on) =>
      if on && position < |s.messages| && IsWaiting(s.messages[position]) { DecidingChanges(s, e); }
    case WorkerAnswers(replies) =>
      if s.tasks > 0 && s.status == Working { RoundsEnd(s.(tasks := s.tasks - 1), replies, MAX_ROUNDS); }
  }

  /**
   Over any run, of all the tools that were run, for look-ups and for decisions, those that make
   changes are exactly the confirmed proposals, each once and in the order they were confirmed.
   */
  lemma {:induction false} ChangesAreConfirmations(text: string, connector: string, events: seq<Event>)
    ensures var s := Start(text, connector);
            && ChangesIn(Run(s, events).runs) == Confirmations(s, events)
            && MadeOnce(Confirmations(s, events), Run(s, events).messages)
  {
    var s := Start(text, connector);
    EveryRunKeepsInv(text, connector, events);
    if events != [] {
      var n := |events| - 1;
      ChangesAreConfirmations(text, connector, events[..n]);
      EveryRunKeepsInv(text, connector, events[..n]);
      EventMakesChanges(Run(s, events[..n]), events[n]);
    }
  }

  /** A decided proposal keeps its decision: nothing in any later run waits on it or undoes it. */
  lemma {:induction false} DecisionsStand(s: State, events: seq<Event>, p: nat)
    requires p < |s.messages| && s.messages[p].Answer? && !IsWaiting(s.messages[p])
    ensures p < |Run(s, events).messages| && Run(s, events).messages[p] == s.messages[p]
  {
    if events != [] {
      var n := |events| - 1;
      DecisionsStand(s, events[..n], p);
      var before := Run(s, events[..n]);
      if events[n].WorkerAnswers? && before.tasks > 0 {
        RoundsOnlyAppend(before.(tasks := before.tasks - 1), events[n].replies, MAX_ROUNDS);
      }
    }
  }

  lemma {:induction false} RoundsOnlyAppend(s: State, replies: seq<Reply>, left: nat)
    ensures s.messages <= Rounds(s, replies, left).messages
    decreases left
  {
    if left > 0 {
      var t := Asked(s, NextReply(replies));
      assert s.messages <= t.messages;
      if t.status == Working { RoundsOnlyAppend(t, Rest(replies), left - 1); }
    }
  }

  lemma TaskEndsAnswer(s: State, replies: seq<Reply>)
    requires s.tasks > 0
    ensures After(s, WorkerAnswers(replies)).status != Working
  {
    var t := s.(tasks := s.tasks - 1);
    if t.status == Working {
      assert Rounds(t, replies, MAX_ROUNDS).status != Working by { RoundsEnd(t, replies, MAX_ROUNDS); }
    }
  }

  /** The model is asked only with every call answered and nothing waiting, at most eight times an answer. */
  lemma PromptsAreComplete(text: string, connector: string, events: seq<Event>, replies: seq<Reply>)
    ensures var s := Run(Start(text, connector), events);
            && (forall prompt :: prompt in s.asked ==> Paired(prompt) && !AnyWaiting(prompt))
            && |After(s, WorkerAnswers(replies)).asked| <= |s.asked| + MAX_ROUNDS
            && (s.status == Working ==> After(s, WorkerAnswers(replies)).status != Working)
  {
    var s := Run(Start(text, connector), events);
    EveryRunKeepsInv(text, connector, events);
    if s.tasks > 0 && s.status == Working { RoundsEnd(s.(tasks := s.tasks - 1), replies, MAX_ROUNDS); }
  }
}

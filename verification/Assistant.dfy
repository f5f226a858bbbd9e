/** The conversation's row and messages, as the views and the worker change them. */
module Assistant {
  import opened Conversation

  class Thread {
    var status: Status
    var connector: string
    var messages: seq<Message>
    var tasks: nat
    ghost var asked: seq<seq<Message>>
    // Every tool run, with the position of the message it was run for.
    var runs: seq<ToolRun>

    ghost function View(): State
      reads this
    {
      State(status, connector, messages, tasks, asked, runs)
    }

    ghost predicate Valid()
      reads this
    {
      Inv(View())
    }

    constructor (text: string, connector: string)
      ensures Valid() && View() == Start(text, connector)
      ensures View() == State(Working, connector, [User(text)], 1, [], [])
    {
      status, this.connector, messages := Working, connector, [User(text)];
      tasks, asked, runs := 1, [], [];
      new;
      EveryRunKeepsInv(text, connector, []);
    }

    method BeginAnswer()
      modifies this
      ensures View() == old(View()).(status := Working, tasks := old(tasks) + 1)
    {
      status := Working;
      tasks := tasks + 1;
    }

    /** The staff member's message, and a new answer to it; refused while one is running or waiting. */
    method TakeMessage(text: string, connector: string, stale: bool, usable: bool) returns (taken: bool)
      requires Valid()
      modifies this
      ensures Valid() && View() == After(old(View()), Send(text, connector, stale, usable))
      ensures taken <==> usable && (old(status) != Working || stale) && |old(messages)| < MAX_MESSAGES
                         && forall m :: m in old(messages) && m.Answer? ==> m.action != Waiting
      ensures View() == if taken then State(Working, connector, old(messages) + [User(text)], old(tasks) + 1,
                                            old(asked), old(runs))
                        else old(View())
    {
      EventKeepsInv(View(), Send(text, connector, stale, usable));
      if status == Working && !stale {
        return false;
      }
      if exists m | m in messages :: IsWaiting(m) {
        return false;
      }
      if |messages| >= MAX_MESSAGES {
        return false;
      }
      if !usable {
        return false;
      }
      this.connector := connector;
      messages := messages + [User(text)];
      BeginAnswer();
      taken := true;
    }

    /** Run one tool as the conversation's owner, if it is one of theirs. */
    method Execute(position: nat, name: string, offered: set<string>)
      modifies this`runs
      ensures runs == old(runs) + RunTool(position, name, offered)
      ensures runs == if name in offered && name != DRAFT then old(runs) + [ToolRun(position, name)] else old(runs)
    {
      if name == DRAFT {
        return;
      }
      if name !in offered {
        return;
      }
      runs := runs + [ToolRun(position, name)];
    }

    /** One proposal confirmed or declined; the turn goes on when it was the last one waiting. */
    method DecideOne(position: nat, confirm: bool, offered: set<string>, result: string) returns (continues: bool)
      requires Valid() && position < |messages| && IsWaiting(messages[position])
      modifies this
      ensures Valid() && View() == After(old(View()), Decide(position, confirm, offered, result, true))
      ensures DecisionMade(old(View()), position, confirm, offered, result, continues, View())
    {
      ghost var before := View();
      var message := messages[position];
      if confirm {
        Execute(position, message.call.name, offered);
        message := message.(action := Confirmed);
      } else {
        message := message.(action := Declined);
      }
      message := message.(content := result);
      messages := messages[position := message];
      ghost var decided := View();
      continues := !(exists m | m in messages :: IsWaiting(m));
      if continues {
        BeginAnswer();
      }
      DecidedThenGoesOn(before, position, confirm, offered, result, continues, decided, View());
    }

    /** A tool message for each call, in order; say whether one of them waits. */
    method AnswerCalls(reply: Reply) returns (waiting: bool)
      requires reply.Reply?
      modifies this`messages, this`runs
      ensures messages == old(messages) + Answers(reply)
      ensures runs == old(runs) + LookUps(reply, |old(messages)|, |reply.calls|)
      ensures waiting <==> ProposesAny(reply)
    {
      waiting := false;
      for n := 0 to |reply.calls|
        invariant messages == old(messages) + Answers(reply)[..n]
        invariant runs == old(runs) + LookUps(reply, |old(messages)|, n)
        invariant waiting <==> exists i :: 0 <= i < n && Proposes(reply.calls[i])
      {
        var call := reply.calls[n];
        var message;
        if call.name in WRITE_TOOLS {
          message := Answer(call, Waiting, "");
          waiting := true;
        } else {
          Execute(|messages|, call.name, reply.offered);
          message := Answer(call, NoAction, ResultOf(reply.results, n));
        }
        assert Answers(reply)[..n + 1] == Answers(reply)[..n] + [message];
        messages := messages + [message];
      }
      assert Answers(reply)[..|reply.calls|] == Answers(reply);
    }

    /** One request to the model and what comes of it; say whether an unexpected error broke it off. */
    method AskOnce(reply: Reply) returns (broken: bool)
      requires status == Working
      modifies this
      ensures broken <==> reply.Broken?
      ensures if broken then View() == old(View()).(asked := old(asked) + [old(messages)])
              else View() == Asked(old(View()), reply)
      ensures Extends(old(messages), messages, reply, connector) && asked == old(asked) + [old(messages)]
      ensures status == if broken || !Stops(reply) then Working
                        else if reply.Reply? && reply.calls != [] then AwaitingDecision else Ready
    {
      ghost var s := View();
      asked := asked + [messages];
      broken := reply.Broken?;
      if broken {
        return;
      }
      if reply.Unavailable? {
        status := Ready;
        return;
      }
      messages := messages + [Assistant(reply.text, reply.calls, reply.raw, connector)];
      if reply.calls == [] {
        status := Ready;
        assert messages == s.messages + Turn(reply, connector);
        AskedIsOnce(s, reply);
        return;
      }
      var waiting := AnswerCalls(reply);
      assert messages == s.messages + Turn(reply, connector);
      if waiting {
        status := AwaitingDecision;
      }
      AskedIsOnce(s, reply);
    }

    /** Ask the model and answer its look-ups, until it answers, proposes a change, or fails. */
    method Respond(replies: seq<Reply>) returns (broken: bool)
      requires status == Working
      modifies this
      ensures broken ==> status == Working
      ensures View().(status := if broken then Ready else status) == Rounds(old(View()), replies, MAX_ROUNDS)
      ensures Answered(old(View()), replies, MAX_ROUNDS, View().(status := if broken then Ready else status))
    {
      ghost var before := View();
      var rest := replies;
      for n := 0 to MAX_ROUNDS
        invariant status == Working
        invariant Rounds(View(), rest, MAX_ROUNDS - n) == Rounds(old(View()), replies, MAX_ROUNDS)
      {
        broken := AskOnce(NextReply(rest));
        if broken || status != Working {
          RoundsAnswer(before, replies, MAX_ROUNDS, View().(status := if broken then Ready else status));
          return;
        }
        rest := Rest(rest);
      }
      status := Ready;
      broken := false;
      RoundsAnswer(before, replies, MAX_ROUNDS, View());
    }

    /** The worker's task: a turn, unless the conversation no longer waits for one; an error ends it. */
    method RunTask(replies: seq<Reply>)
      requires Valid() && tasks > 0
      modifies this
      ensures Valid() && View() == After(old(View()), WorkerAnswers(replies))
      ensures status != Working
      ensures if old(status) == Working
              then Answered(old(View()).(tasks := tasks), replies, MAX_ROUNDS, View())
              else View() == old(View()).(tasks := tasks)
      ensures tasks == old(tasks) - 1
    {
      EventKeepsInv(View(), WorkerAnswers(replies));
      TaskEndsAnswer(View(), replies);
      tasks := tasks - 1;
      if status != Working {
        return;
      }
      var broken := Respond(replies);
      if broken {
        status := Ready;
      }
    }
  }
}

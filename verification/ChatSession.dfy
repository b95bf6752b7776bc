/** The handler that owns a conversation, and its serial runs. */
module ChatSession {
  import opened Text
  import opened ToolCalls
  import opened ChatHistory

  /** `sent` lists every request made so far. */
  datatype Session = Session(systemMsg: string, history: seq<Message>, sent: seq<seq<Message>>)

  datatype Op =
    | Query(text: string, replies: nat -> Reply, tools: Tools)
    | QueryStream(text: string, stream: Stream, tools: Tools, final: Reply)
    | SetSystemPrompt(prompt: string)
    | ResetMessages

  function Prompted(h: seq<Message>, prompt: string): seq<Message> {
    if h != [] && h[0].System? then [System(prompt)] + h[1..] else [System(prompt)] + h
  }

  ghost function Next(s: Session, op: Op): Session {
    match op
    case Query(text, replies, tools) =>
      var o := Queried(s.history, text, replies, tools);
      Session(s.systemMsg, o.history, s.sent + o.sent)
    case QueryStream(text, stream, tools, final) =>
      var o := Streamed(s.history, text, stream, tools, final);
      Session(s.systemMsg, o.history, s.sent + o.sent)
    case SetSystemPrompt(prompt) => Session(prompt, Prompted(s.history, prompt), s.sent)
    case ResetMessages => Session(s.systemMsg, [System(s.systemMsg)], s.sent)
  }

  ghost function Run(s: Session, ops: seq<Op>): Session {
    if ops == [] then s else Next(Run(s, ops[..|ops| - 1]), ops[|ops| - 1])
  }

  /** The calls a reply contains, unless they are never answered, have ids. */
  ghost predicate CallsAreNamed(op: Op) {
    match op
    case Query(_, replies, _) => NamedReplies(replies)
    case QueryStream(_, stream, _, _) => stream.Received? ==> Named(Collected(stream.deltas))
    case _ => true
  }

  ghost predicate Sound(s: Session) {
    Resting(s.history) && AllWellFormed(s.sent)
  }

  lemma QueryIs(s: Session, text: string, replies: nat -> Reply, tools: Tools)
    ensures var o := Converse(Cleaned(s.history) + [User(text)], text, replies, tools, 0);
      && Queried(s.history, text, replies, tools) == o
      && Next(s, Query(text, replies, tools)) == Session(s.systemMsg, o.history, s.sent + o.sent)
  {
    hide Converse, Cleaned;
  }

  lemma NextKeepsSound(s: Session, op: Op)
    requires Sound(s) && CallsAreNamed(op)
    ensures Sound(Next(s, op))
  {
    hide WellFormed, Cleaned, Collected;
    match op
    case Query(text, replies, tools) =>
      AskedIsWellFormed(s.history, text);
      ConverseIsWellFormed(Cleaned(s.history) + [User(text)], text, replies, tools, 0);
      WellFormedRests(Next(s, op).history);
    case QueryStream(text, stream, tools, final) =>
      StreamedIsWellFormed(s.history, text, stream, tools, final);
    case SetSystemPrompt(prompt) => PromptedRests(s.history, prompt);
    case ResetMessages =>
  }

  lemma WellFormedRests(h: seq<Message>)
    requires WellFormed(h)
    ensures Resting(h)
  {
  }

  lemma PromptedRests(h: seq<Message>, prompt: string)
    requires Resting(h)
    ensures Resting(Prompted(h, prompt))
  {
    var s := Prompted(h, prompt);
    forall i | 0 <= i < |s| - 1 ensures Complete(s, i) {
      assert Complete(h, i);
      if HasCalls(s[i]) {
        forall k | 0 <= k < |s[i].calls| ensures AnsweredAfter(s, i, s[i].calls[k].id) {
          assert AnsweredAfter(h, i, h[i].calls[k].id);
          var j :| i < j < |h| && h[j].Tool? && h[j].callId == h[i].calls[k].id;
          assert s[j] == h[j];
        }
      }
    }
  }

  /** In every serial run of queries, streams, prompt changes and resets, each request ever sent starts with the
      system message and has every tool call answered, whatever the replies were, final replies with unanswered
      calls included. */
  lemma {:induction false} EveryRequestIsWellFormed(systemPrompt: string, ops: seq<Op>)
    requires forall i :: 0 <= i < |ops| ==> CallsAreNamed(ops[i])
    ensures Sound(Run(Session(systemPrompt, [System(systemPrompt)], []), ops))
  {
    hide CallsAreNamed;
    if ops != [] {
      EveryRequestIsWellFormed(systemPrompt, ops[..|ops| - 1]);
      NextKeepsSound(Run(Session(systemPrompt, [System(systemPrompt)], []), ops[..|ops| - 1]), ops[|ops| - 1]);
    }
  }

  /** In other words: whichever request of such a run, and whichever tool call in it, an answer under the call's id
      stands after it in the same request. */
  lemma EveryCallIsAnswered(systemPrompt: string, ops: seq<Op>, n: nat, i: nat, k: nat)
    requires forall j :: 0 <= j < |ops| ==> CallsAreNamed(ops[j])
    requires n < |Run(Session(systemPrompt, [System(systemPrompt)], []), ops).sent|
    requires
      var request := Run(Session(systemPrompt, [System(systemPrompt)], []), ops).sent[n];
      i < |request| && request[i].Assistant? && k < |request[i].calls|
    ensures
      var request := Run(Session(systemPrompt, [System(systemPrompt)], []), ops).sent[n];
      && request[0].System?
      && exists j :: i < j < |request| && request[j].Tool? && request[j].callId == request[i].calls[k].id
  {
    hide Run, CallsAreNamed;
    EveryRequestIsWellFormed(systemPrompt, ops);
    var request := Run(Session(systemPrompt, [System(systemPrompt)], []), ops).sent[n];
    assert WellFormed(request) && Complete(request, i);
    assert AnsweredAfter(request, i, request[i].calls[k].id);
  }

  /** For any log: the clean-up cuts at one place, and what remains is well formed exactly when the messages before
      the cut have their answers before it. Between the queries of a serial run they always do: see
      `CleanedIsWellFormed`. */
  lemma CleanupSufficesIff(h: seq<Message>)
    requires h != [] && h[0].System?
    ensures var cut := LastIncomplete(h, |h|);
      WellFormed(Cleaned(h)) <==> cut < 0 || forall i :: 0 <= i < cut ==> CompleteBefore(h, i, cut)
  {
    hide LastIncomplete, Complete, CompleteBefore;
    var cut := LastIncomplete(h, |h|);
    if cut >= 0 {
      if cut == 0 {
        NoCallsIsComplete(h, 0);
      }
      forall i | 0 <= i < cut ensures Complete(h[..cut], i) <==> CompleteBefore(h, i, cut) {
        CompleteInPrefix(h, i, cut);
      }
    }
  }

  /** Every call of message `i` has its answer before message `n`. */
  ghost predicate CompleteBefore(h: seq<Message>, i: nat, n: nat)
    requires i < |h|
  {
    HasCalls(h[i]) ==> forall k :: 0 <= k < |h[i].calls| ==> AnsweredBefore(h, i, n, h[i].calls[k].id)
  }

  lemma CompleteInPrefix(h: seq<Message>, i: nat, n: nat)
    requires i < n <= |h|
    ensures Complete(h[..n], i) <==> CompleteBefore(h, i, n)
  {
    var c := h[..n];
    if HasCalls(h[i]) {
      forall k | 0 <= k < |h[i].calls|
        ensures AnsweredAfter(c, i, h[i].calls[k].id) <==> AnsweredBefore(h, i, n, h[i].calls[k].id)
      {
        AnsweredInPrefix(h, i, n, h[i].calls[k].id);
      }
    }
  }

  lemma AnsweredInPrefix(h: seq<Message>, i: nat, n: nat, id: string)
    requires i < n <= |h|
    ensures AnsweredAfter(h[..n], i, id) <==> AnsweredBefore(h, i, n, id)
  {
    var c := h[..n];
    assert forall j :: 0 <= j < n ==> c[j] == h[j];
    if AnsweredBefore(h, i, n, id) {
      var j :| i < j < n <= |h| && h[j].Tool? && h[j].callId == id;
      assert c[j].Tool? && c[j].callId == id;
    }
  }

  class LLMHandler {
    var systemMsg: string
    var messages: seq<Message>
    ghost var sent: seq<seq<Message>>

    ghost function State(): Session
      reads this
    {
      Session(systemMsg, messages, sent)
    }

    constructor (systemPrompt: string)
      ensures State() == Session(systemPrompt, [System(systemPrompt)], [])
    {
      systemMsg, messages, sent := systemPrompt, [System(systemPrompt)], [];
    }

    /** Whether every call of message `i` has an answer after it. */
    method AllAnswered(i: nat) returns (complete: bool)
      requires i < |messages| && HasCalls(messages[i])
      ensures complete <==> Complete(messages, i)
    {
      var calls := messages[i].calls;
      var answered: map<string, bool> := map[];
      for k := 0 to |calls|
        invariant forall id :: id in answered <==> exists m :: 0 <= m < k && calls[m].id == id
        invariant forall id :: id in answered ==> !answered[id]
      {
        answered := answered[calls[k].id := false];
      }
      for j := i + 1 to |messages|
        invariant forall id :: id in answered <==> exists m :: 0 <= m < |calls| && calls[m].id == id
        invariant forall id :: id in answered ==> (answered[id] <==> AnsweredBefore(messages, i, j, id))
      {
        var next := messages[j];
        if next.Tool? && next.callId != "" && next.callId in answered {
          answered := answered[next.callId := true];
        }
      }
      complete := forall id :: id in answered ==> answered[id];
      assert complete ==> forall k :: 0 <= k < |calls| ==> calls[k].id in answered;
      assert !complete ==> exists m :: 0 <= m < |calls| && calls[m].id in answered && !answered[calls[m].id];
    }

    method CleanupIncompleteToolCalls()
      modifies this`messages
      ensures messages == Cleaned(old(messages))
    {
      hide Complete;
      for i := |messages| downto 0
        invariant messages == old(messages)
        invariant forall k :: i <= k < |messages| ==> Complete(messages, k)
      {
        if HasCalls(messages[i]) {
          var complete := AllAnswered(i);
          if !complete {
            messages := messages[..i];
            return;
          }
        } else {
          NoCallsIsComplete(messages, i);
        }
      }
    }

    method RollbackLastUserMessageIfMatches(text: string)
      modifies this`messages
      ensures messages == RolledBack(old(messages), text)
    {
      if |messages| == 0 {
        return;
      }
      var i := |messages| - 1;
      if messages[i].User? && messages[i].content == text {
        messages := messages[..i];
      }
    }

    /** Runs the calls one after another, appending one answer for each. */
    method HandleToolCalls(calls: seq<ToolCall>, tools: Tools)
      modifies this`messages
      ensures messages == old(messages) + Answers(|old(messages)|, calls, tools)
      ensures forall k :: 0 <= k < |calls| ==>
        messages[|old(messages)| + k] == Tool(tools(|old(messages)| + k, calls[k]), calls[k].id)
    {
      for k := 0 to |calls|
        invariant messages == old(messages) + Answers(|old(messages)|, calls, tools)[..k]
      {
        var result := tools(|messages|, calls[k]);
        messages := messages + [Tool(result, calls[k].id)];
      }
    }

    method LastUserMessage() returns (text: string)
      ensures text == LastUser(messages)
    {
      assert messages[..|messages|] == messages;
      for i := |messages| downto 0
        invariant LastUser(messages) == LastUser(messages[..i])
      {
        assert messages[..i + 1][..i] == messages[..i];
        if messages[i].User? {
          return messages[i].content;
        }
      }
      text := "";
    }

    method Sanitize() returns (request: seq<Message>)
      ensures request == Sanitized(messages)
    {
      request := [];
      for i := 0 to |messages|
        invariant request == Sanitized(messages)[..i]
      {
        var content := messages[i].content;
        if content == "" && messages[i].System? {
          content := PLACEHOLDER;
        }
        request := request + [messages[i].(content := content)];
      }
    }

    /** `replies` and `tools` are what the model and the tools would answer. */
    method QueryWithOptions(text: string, replies: nat -> Reply, tools: Tools) returns (answer: Option<string>)
      modifies this
      ensures State() == Next(old(State()), Query(text, replies, tools))
      ensures answer == Queried(old(messages), text, replies, tools).answer
    {
      hide Cleaned, Sanitized, RolledBack, LastUser, Answers, Converse, WithCalls, SameEnd, Next, Queried;
      QueryIs(State(), text, replies, tools);
      CleanupIncompleteToolCalls();
      messages := messages + [User(text)];
      ghost var whole, before, requests := Converse(messages, text, replies, tools, 0), sent, [];
      NothingSent(whole);
      var iteration := 0;
      while iteration < MAX_ITERATIONS
        invariant 0 <= iteration <= MAX_ITERATIONS
        invariant systemMsg == old(systemMsg) && sent == before + requests
        invariant SameEnd(whole, requests, Converse(messages, text, replies, tools, iteration))
        decreases MAX_ITERATIONS - iteration
      {
        OneTurnMore(whole, requests, messages, text, replies, tools, iteration);
        var request := Sanitize();
        sent := sent + [request];
        assert sent == before + (requests + [request]);
        var reply := replies(iteration);
        if !reply.Choice? {
          RollbackLastUserMessageIfMatches(text);
          return None;
        }
        var last := LastUserMessage();
        if last != "" && reply.content == last {
          RollbackLastUserMessageIfMatches(text);
          return None;
        }
        if |reply.calls| > 0 {
          requests := requests + [request];
          WithCallsInTwoSteps(messages, reply.content, reply.calls, tools);
          messages := messages + [Assistant(reply.content, reply.calls)];
          HandleToolCalls(reply.calls, tools);
          iteration := iteration + 1;
          continue;
        }
        if reply.content == "" {
          RollbackLastUserMessageIfMatches(text);
          return None;
        }
        messages := messages + [Assistant(reply.content, [])];
        return Some(reply.content);
      }
      NoTurnMore(whole, requests, messages, text, replies, tools);
      RollbackLastUserMessageIfMatches(text);
      CleanupIncompleteToolCalls();
      answer := None;
    }

    /** `stream` and `final` are what the model would send; the segments are what the callback gets. */
    method QueryStream(text: string, stream: Stream, tools: Tools, final: Reply)
      returns (answer: Option<string>, segments: seq<(string, bool)>)
      modifies this
      ensures State() == Next(old(State()), Op.QueryStream(text, stream, tools, final))
      ensures answer == Streamed(old(messages), text, stream, tools, final).answer
      ensures segments == Streamed(old(messages), text, stream, tools, final).segments
    {
      hide Cleaned, Collected, Answers, Segments, Concat;
      segments := [];
      CleanupIncompleteToolCalls();
      messages := messages + [User(text)];
      sent := sent + [messages];
      if stream.NotCreated? {
        return None, [];
      }
      var fullResponse, heard := ReceiveTexts(stream.texts);
      segments := heard;
      if !stream.ended {
        return None, segments;
      }
      var calls := CollectToolCalls(stream.deltas);
      if |calls| == 0 {
        messages := messages + [Assistant(fullResponse, [])];
        segments := segments + [("", true)];
        return Some(fullResponse), segments;
      }
      messages := messages + [Assistant(fullResponse, calls)];
      HandleToolCalls(calls, tools);
      sent := sent + [messages];
      if final.ApiError? {
        return None, segments;
      }
      var finalResponse := "";
      if final.Choice? {
        finalResponse := final.content;
        messages := messages + [Assistant(final.content, final.calls)];
      }
      segments := segments + [(finalResponse, false)];
      segments := segments + [("", true)];
      assert segments == heard + [(finalResponse, false), ("", true)];
      answer := Some(fullResponse + finalResponse);
    }

    method ReceiveTexts(texts: seq<string>) returns (full: string, segments: seq<(string, bool)>)
      ensures full == Concat(texts) && segments == Segments(texts)
    {
      full, segments := "", [];
      for k := 0 to |texts|
        invariant full == Concat(texts[..k]) && segments == Segments(texts[..k])
      {
        assert texts[..k + 1][..k] == texts[..k];
        if texts[k] != "" {
          full := full + texts[k];
          segments := segments + [(texts[k], false)];
        } else {
          assert full + "" == full;
        }
      }
      assert texts[..|texts|] == texts;
    }

    method SetSystemPrompt(prompt: string)
      modifies this
      ensures State() == Next(old(State()), Op.SetSystemPrompt(prompt))
      ensures systemMsg == prompt && messages != [] && messages[0] == System(prompt) && sent == old(sent)
      ensures messages[1..] ==
        if old(messages) != [] && old(messages)[0].System? then old(messages)[1..] else old(messages)
    {
      systemMsg := prompt;
      if |messages| > 0 && messages[0].System? {
        messages := messages[0 := System(prompt)];
      } else {
        messages := [System(prompt)] + messages;
      }
    }

    method ResetMessages()
      modifies this
      ensures State() == Next(old(State()), Op.ResetMessages)
      ensures messages == [System(systemMsg)] && systemMsg == old(systemMsg) && sent == old(sent)
    {
      messages := [System(systemMsg)];
    }
  }

  ghost predicate AnsweredBefore(h: seq<Message>, i: nat, n: nat, id: string) {
    id != "" && exists j :: i < j < n <= |h| && h[j].Tool? && h[j].callId == id
  }

  lemma WithCallsInTwoSteps(h: seq<Message>, content: string, calls: seq<ToolCall>, tools: Tools)
    ensures var asked := h + [Assistant(content, calls)];
      WithCalls(h, content, calls, tools) == asked + Answers(|asked|, calls, tools)
  {
    hide Answers;
  }

  lemma NoCallsIsComplete(h: seq<Message>, i: nat)
    requires i < |h| && !HasCalls(h[i])
    ensures Complete(h, i)
  {
  }
}

/** The conversation with a model: a log of messages in which every tool call must be answered before the next
    request. */
module ChatHistory {
  import opened Text
  import opened ToolCalls

  datatype Message =
    | System(content: string)
    | User(content: string)
    | Assistant(content: string, calls: seq<ToolCall>)
    | Tool(content: string, callId: string)

  datatype Reply = ApiError | NoChoices | Choice(content: string, calls: seq<ToolCall>)

  /** What a tool returns, or the text of its error, for a call made when the log has a given length. */
  type Tools = (nat, ToolCall) -> string

  /** The events of one stream: text as it arrives, the pieces of tool calls, and how it ended. */
  datatype Stream = NotCreated | Received(texts: seq<string>, deltas: seq<Delta>, ended: bool)

  const MAX_ITERATIONS := 10
  const PLACEHOLDER := "You are a helpful assistant."

  // ---- Answered calls ----

  predicate HasCalls(m: Message) {
    m.Assistant? && m.calls != []
  }

  ghost predicate AnsweredAfter(h: seq<Message>, i: nat, id: string) {
    id != "" && exists j :: i < j < |h| && h[j].Tool? && h[j].callId == id
  }

  ghost predicate Complete(h: seq<Message>, i: nat)
    requires i < |h|
  {
    HasCalls(h[i]) ==> forall k :: 0 <= k < |h[i].calls| ==> AnsweredAfter(h, i, h[i].calls[k].id)
  }

  /** What a request must look like. */
  ghost predicate WellFormed(h: seq<Message>) {
    h != [] && h[0].System? && forall i :: 0 <= i < |h| ==> Complete(h, i)
  }

  /** What holds between requests: the last message may be a reply whose tool calls nobody has answered. */
  ghost predicate Resting(h: seq<Message>) {
    h != [] && h[0].System? && forall i :: 0 <= i < |h| - 1 ==> Complete(h, i)
  }

  predicate Named(calls: seq<ToolCall>) {
    forall k :: 0 <= k < |calls| ==> calls[k].id != ""
  }

  /** The last incomplete message below `n`, or -1. */
  ghost function LastIncomplete(h: seq<Message>, n: nat): (i: int)
    requires n <= |h|
    ensures -1 <= i < n && (i >= 0 ==> !Complete(h, i))
    ensures forall k :: i < k < n ==> Complete(h, k)
  {
    if n == 0 then -1 else if !Complete(h, n - 1) then n - 1 else LastIncomplete(h, n - 1)
  }

  /** The log cut off before its last incomplete message. */
  ghost function Cleaned(h: seq<Message>): seq<Message> {
    var i := LastIncomplete(h, |h|);
    if i < 0 then h else h[..i]
  }

  function RolledBack(h: seq<Message>, text: string): seq<Message> {
    if h != [] && h[|h| - 1] == User(text) then h[..|h| - 1] else h
  }

  function Sanitize(m: Message): Message {
    if m == System("") then System(PLACEHOLDER) else m
  }

  function Sanitized(h: seq<Message>): (s: seq<Message>)
    ensures |s| == |h|
  {
    seq(|h|, i requires 0 <= i < |h| => Sanitize(h[i]))
  }

  function LastUser(h: seq<Message>): string {
    if h == [] then "" else if h[|h| - 1].User? then h[|h| - 1].content else LastUser(h[..|h| - 1])
  }

  function Answers(at: nat, calls: seq<ToolCall>, tools: Tools): (out: seq<Message>)
    ensures |out| == |calls|
  {
    seq(|calls|, k requires 0 <= k < |calls| => Tool(tools(at + k, calls[k]), calls[k].id))
  }

  function WithCalls(h: seq<Message>, content: string, calls: seq<ToolCall>, tools: Tools): seq<Message> {
    h + [Assistant(content, calls)] + Answers(|h| + 1, calls, tools)
  }

  // ---- Queries as functions ----

  /** `segments` is what the stream callback saw: a piece of text, and whether it is the completion call. */
  datatype Outcome = Outcome(
    history: seq<Message>, answer: Option<string>, sent: seq<seq<Message>>, segments: seq<(string, bool)>)

  predicate Echo(h: seq<Message>, content: string) {
    LastUser(h) != "" && content == LastUser(h)
  }

  ghost function Converse(h: seq<Message>, text: string, replies: nat -> Reply, tools: Tools, iteration: nat): Outcome
    requires iteration <= MAX_ITERATIONS
    decreases MAX_ITERATIONS - iteration
  {
    if iteration == MAX_ITERATIONS then Outcome(Cleaned(RolledBack(h, text)), None, [], [])
    else
      var sent := Sanitized(h);
      match replies(iteration)
      case ApiError => Outcome(RolledBack(h, text), None, [sent], [])
      case NoChoices => Outcome(RolledBack(h, text), None, [sent], [])
      case Choice(content, calls) =>
        if Echo(h, content) then Outcome(RolledBack(h, text), None, [sent], [])
        else if calls != [] then
          var rest := Converse(WithCalls(h, content, calls, tools), text, replies, tools, iteration + 1);
          rest.(sent := [sent] + rest.sent)
        else if content == "" then Outcome(RolledBack(h, text), None, [sent], [])
        else Outcome(h + [Assistant(content, [])], Some(content), [sent], [])
  }

  /** `whole` ends as `rest` does, after the requests in `sent`. */
  ghost predicate SameEnd(whole: Outcome, sent: seq<seq<Message>>, rest: Outcome) {
    && whole.history == rest.history && whole.answer == rest.answer
    && whole.sent == sent + rest.sent
  }

  lemma ConverseTurn(h: seq<Message>, text: string, replies: nat -> Reply, tools: Tools, iteration: nat)
    requires iteration < MAX_ITERATIONS
    ensures var o := Converse(h, text, replies, tools, iteration);
      var r, failed := replies(iteration), Outcome(RolledBack(h, text), None, [Sanitized(h)], []);
      if !r.Choice? || (LastUser(h) != "" && r.content == LastUser(h)) then o == failed
      else if r.calls != [] then
        SameEnd(o, [Sanitized(h)],
          Converse(WithCalls(h, r.content, r.calls, tools), text, replies, tools, iteration + 1))
      else if r.content == "" then o == failed
      else o == Outcome(h + [Assistant(r.content, [])], Some(r.content), [Sanitized(h)], [])
  {
    hide Cleaned, Sanitized, RolledBack, LastUser, WithCalls;
  }

  lemma ConverseStops(h: seq<Message>, text: string, replies: nat -> Reply, tools: Tools)
    ensures Converse(h, text, replies, tools, MAX_ITERATIONS) == Outcome(Cleaned(RolledBack(h, text)), None, [], [])
  {
    hide Cleaned, RolledBack;
  }

  lemma NothingSent(o: Outcome)
    ensures SameEnd(o, [], o)
  {
  }

  lemma OneTurnMore(
    whole: Outcome, sent: seq<seq<Message>>,
    h: seq<Message>, text: string, replies: nat -> Reply, tools: Tools, iteration: nat)
    requires iteration < MAX_ITERATIONS && SameEnd(whole, sent, Converse(h, text, replies, tools, iteration))
    ensures var r, more := replies(iteration), sent + [Sanitized(h)];
      if !r.Choice? || (LastUser(h) != "" && r.content == LastUser(h)) || (r.calls == [] && r.content == "") then
        whole.history == RolledBack(h, text) && whole.answer == None && whole.sent == more
      else if r.calls != [] then
        SameEnd(whole, more, Converse(WithCalls(h, r.content, r.calls, tools), text, replies, tools, iteration + 1))
      else whole.history == h + [Assistant(r.content, [])] && whole.answer == Some(r.content) && whole.sent == more
  {
    hide Converse, Sanitized, RolledBack, LastUser, WithCalls;
    ConverseTurn(h, text, replies, tools, iteration);
    var r := replies(iteration);
    if r.Choice? && r.calls != [] {
      var rest := Converse(WithCalls(h, r.content, r.calls, tools), text, replies, tools, iteration + 1);
      assert sent + ([Sanitized(h)] + rest.sent) == (sent + [Sanitized(h)]) + rest.sent;
    }
  }

  lemma NoTurnMore(
    whole: Outcome, sent: seq<seq<Message>>, h: seq<Message>, text: string, replies: nat -> Reply, tools: Tools)
    requires SameEnd(whole, sent, Converse(h, text, replies, tools, MAX_ITERATIONS))
    ensures whole.history == Cleaned(RolledBack(h, text)) && whole.answer == None && whole.sent == sent
  {
    hide Converse, Cleaned, RolledBack;
    ConverseStops(h, text, replies, tools);
  }

  ghost function Queried(h: seq<Message>, text: string, replies: nat -> Reply, tools: Tools): Outcome {
    Converse(Cleaned(h) + [User(text)], text, replies, tools, 0)
  }

  function Concat(texts: seq<string>): string {
    if texts == [] then "" else Concat(texts[..|texts| - 1]) + texts[|texts| - 1]
  }

  /** Empty pieces are not passed on. */
  function Segments(texts: seq<string>): seq<(string, bool)> {
    if texts == [] then []
    else
      var last := texts[|texts| - 1];
      Segments(texts[..|texts| - 1]) + (if last == "" then [] else [(last, false)])
  }

  ghost function Streamed(h: seq<Message>, text: string, stream: Stream, tools: Tools, final: Reply): Outcome {
    var asked := Cleaned(h) + [User(text)];
    if stream.NotCreated? then Outcome(asked, None, [asked], [])
    else
      var full, calls := Concat(stream.texts), Collected(stream.deltas);
      var seen := Segments(stream.texts);
      if !stream.ended then Outcome(asked, None, [asked], seen)
      else if calls == [] then Outcome(asked + [Assistant(full, [])], Some(full), [asked], seen + [("", true)])
      else
        var answered := WithCalls(asked, full, calls, tools);
        match final
        case ApiError => Outcome(answered, None, [asked, answered], seen)
        case NoChoices => Outcome(answered, Some(full + ""), [asked, answered], seen + [("", false), ("", true)])
        case Choice(content, more) =>
          Outcome(answered + [Assistant(content, more)], Some(full + content), [asked, answered],
            seen + [(content, false), ("", true)])
  }

  // ---- What keeps a log well formed ----

  lemma CleanedIsWellFormed(h: seq<Message>)
    requires Resting(h)
    ensures WellFormed(Cleaned(h))
    ensures Cleaned(h) == h || (HasCalls(h[|h| - 1]) && Cleaned(h) == h[..|h| - 1])
  {
    var i := LastIncomplete(h, |h|);
    if i >= 0 {
      assert i == |h| - 1;
      DroppingKeeps(h);
    }
  }

  /** Taking a message that is not a tool's answer off the end unanswers nothing. */
  lemma DroppingKeeps(h: seq<Message>)
    requires Resting(h) && |h| > 1 && !h[|h| - 1].Tool?
    ensures WellFormed(h[..|h| - 1])
  {
    var s := h[..|h| - 1];
    forall i | 0 <= i < |s| ensures Complete(s, i) {
      assert Complete(h, i);
      if HasCalls(s[i]) {
        forall k | 0 <= k < |s[i].calls| ensures AnsweredAfter(s, i, s[i].calls[k].id) {
          assert AnsweredAfter(h, i, h[i].calls[k].id);
          var j :| i < j < |h| && h[j].Tool? && h[j].callId == h[i].calls[k].id;
          assert s[j] == h[j];
        }
      }
    }
  }

  lemma AppendingKeeps(h: seq<Message>, more: seq<Message>, i: nat)
    requires i < |h| && Complete(h, i)
    ensures Complete(h + more, i)
  {
    var s := h + more;
    if HasCalls(s[i]) {
      forall k | 0 <= k < |s[i].calls| ensures AnsweredAfter(s, i, s[i].calls[k].id) {
        assert AnsweredAfter(h, i, h[i].calls[k].id);
        var j :| i < j < |h| && h[j].Tool? && h[j].callId == h[i].calls[k].id;
        assert s[j] == h[j];
      }
    }
  }

  lemma AddingMessage(h: seq<Message>, m: Message)
    requires WellFormed(h)
    ensures Resting(h + [m])
    ensures !HasCalls(m) ==> WellFormed(h + [m])
  {
    forall i | 0 <= i < |h| ensures Complete(h + [m], i) {
      AppendingKeeps(h, [m], i);
    }
  }

  lemma WithCallsIsWellFormed(h: seq<Message>, content: string, calls: seq<ToolCall>, tools: Tools)
    requires WellFormed(h) && Named(calls)
    ensures WellFormed(WithCalls(h, content, calls, tools))
  {
    var s := WithCalls(h, content, calls, tools);
    var tail := [Assistant(content, calls)] + Answers(|h| + 1, calls, tools);
    assert s == h + tail;
    forall i | 0 <= i < |s| ensures Complete(s, i) {
      if i < |h| {
        AppendingKeeps(h, tail, i);
      } else if i == |h| {
        forall k | 0 <= k < |calls| ensures AnsweredAfter(s, i, calls[k].id) {
          assert s[i + 1 + k] == Answers(|h| + 1, calls, tools)[k];
        }
      }
    }
  }

  lemma RollbackIsWellFormed(h: seq<Message>, text: string)
    requires WellFormed(h)
    ensures WellFormed(RolledBack(h, text))
  {
    if h[|h| - 1] == User(text) {
      DroppingKeeps(h);
    }
  }

  lemma WellFormedIsClean(h: seq<Message>)
    requires WellFormed(h)
    ensures Cleaned(h) == h
  {
  }

  lemma SanitizedIsWellFormed(h: seq<Message>)
    requires WellFormed(h)
    ensures WellFormed(Sanitized(h)) && Sanitized(h)[0].content != ""
    ensures forall i :: 0 <= i < |h| && h[i] != System("") ==> Sanitized(h)[i] == h[i]
  {
    var s := Sanitized(h);
    forall i | 0 <= i < |s| ensures Complete(s, i) {
      assert Complete(h, i);
      if HasCalls(s[i]) {
        forall k | 0 <= k < |s[i].calls| ensures AnsweredAfter(s, i, s[i].calls[k].id) {
          assert AnsweredAfter(h, i, h[i].calls[k].id);
          var j :| i < j < |h| && h[j].Tool? && h[j].callId == h[i].calls[k].id;
          assert s[j] == h[j];
        }
      }
    }
  }

  // ---- Whole queries ----

  ghost predicate AllWellFormed(sent: seq<seq<Message>>) {
    forall k :: 0 <= k < |sent| ==> WellFormed(sent[k])
  }

  ghost predicate NamedReplies(replies: nat -> Reply) {
    forall k :: replies(k).Choice? ==> Named(replies(k).calls)
  }

  lemma {:induction false} ConverseIsWellFormed(
    h: seq<Message>, text: string, replies: nat -> Reply, tools: Tools, iteration: nat)
    requires iteration <= MAX_ITERATIONS && WellFormed(h) && NamedReplies(replies)
    ensures AllWellFormed(Converse(h, text, replies, tools, iteration).sent)
    ensures WellFormed(Converse(h, text, replies, tools, iteration).history)
    decreases MAX_ITERATIONS - iteration
  {
    hide WellFormed, Sanitized, Cleaned, Echo, RolledBack, WithCalls;
    RollbackIsWellFormed(h, text);
    WellFormedIsClean(RolledBack(h, text));
    SanitizedIsWellFormed(h);
    if iteration < MAX_ITERATIONS && replies(iteration).Choice? {
      var r := replies(iteration);
      if !Echo(h, r.content) && r.calls != [] {
        WithCallsIsWellFormed(h, r.content, r.calls, tools);
        ConverseIsWellFormed(WithCalls(h, r.content, r.calls, tools), text, replies, tools, iteration + 1);
      }
      AddingMessage(h, Assistant(r.content, []));
    }
  }

  lemma AskedIsWellFormed(h: seq<Message>, text: string)
    requires Resting(h)
    ensures WellFormed(Cleaned(h) + [User(text)])
  {
    CleanedIsWellFormed(h);
    AddingMessage(Cleaned(h), User(text));
  }

  lemma StreamedIsWellFormed(h: seq<Message>, text: string, stream: Stream, tools: Tools, final: Reply)
    requires Resting(h) && (stream.Received? ==> Named(Collected(stream.deltas)))
    ensures AllWellFormed(Streamed(h, text, stream, tools, final).sent)
    ensures Resting(Streamed(h, text, stream, tools, final).history)
  {
    hide Cleaned, WithCalls, Collected, Concat, Segments;
    var asked := Cleaned(h) + [User(text)];
    AskedIsWellFormed(h, text);
    if stream.Received? {
      var full, calls := Concat(stream.texts), Collected(stream.deltas);
      AddingMessage(asked, Assistant(full, []));
      if calls != [] {
        WithCallsIsWellFormed(asked, full, calls, tools);
        if final.Choice? {
          AddingMessage(WithCalls(asked, full, calls, tools), Assistant(final.content, final.calls));
        }
      }
    }
  }

  // ---- What a failed query leaves ----

  /** A reply that makes the first request of a query its last. */
  predicate EndsInFailure(r: Reply, text: string) {
    r.Choice? ==> (text != "" && r.content == text) || (r.calls == [] && r.content == "")
  }

  lemma LastUserIs(h: seq<Message>, text: string)
    ensures LastUser(h + [User(text)]) == text
  {
  }

  /** A query that fails leaves the log as it was, cleaned, exactly when its first request was the one that failed;
      when a later one fails, the question and the tool turns stay. */
  lemma FailedQueryLeavesIff(h: seq<Message>, text: string, replies: nat -> Reply, tools: Tools)
    requires Resting(h) && NamedReplies(replies)
    requires Queried(h, text, replies, tools).answer.None?
    ensures Queried(h, text, replies, tools).history == Cleaned(h) <==> EndsInFailure(replies(0), text)
    ensures |Queried(h, text, replies, tools).history| >= |Cleaned(h)|
  {
    hide Cleaned, WellFormed, Resting, Complete;
    var asked := Cleaned(h) + [User(text)];
    LastUserIs(Cleaned(h), text);
    assert RolledBack(asked, text) == Cleaned(h);
    var r := replies(0);
    if !EndsInFailure(r, text) {
      var next := WithCalls(asked, r.content, r.calls, tools);
      AskedIsWellFormed(h, text);
      assert Named(r.calls);
      WithCallsIsWellFormed(asked, r.content, r.calls, tools);
      TurnsStay(next, text, replies, tools, 1);
    }
  }

  /** Once a tool has answered, nothing is taken back. */
  lemma {:induction false} TurnsStay(h: seq<Message>, text: string, replies: nat -> Reply, tools: Tools, iteration: nat)
    requires iteration <= MAX_ITERATIONS && WellFormed(h) && h[|h| - 1].Tool? && NamedReplies(replies)
    ensures h <= Converse(h, text, replies, tools, iteration).history
    decreases MAX_ITERATIONS - iteration
  {
    hide WellFormed, Cleaned, Sanitized, Echo;
    WellFormedIsClean(h);
    if iteration < MAX_ITERATIONS && replies(iteration).Choice? {
      var r := replies(iteration);
      if !Echo(h, r.content) && r.calls != [] {
        var next := WithCalls(h, r.content, r.calls, tools);
        WithCallsIsWellFormed(h, r.content, r.calls, tools);
        assert next[|next| - 1] == Answers(|h| + 1, r.calls, tools)[|r.calls| - 1];
        TurnsStay(next, text, replies, tools, iteration + 1);
      }
    }
  }

  /** A query that succeeds ends its log with the answer, which is neither empty nor the question. */
  lemma {:induction false} AnswerEndsTheLog(
    h: seq<Message>, text: string, replies: nat -> Reply, tools: Tools, iteration: nat)
    requires iteration <= MAX_ITERATIONS && LastUser(h) == text
    ensures var o := Converse(h, text, replies, tools, iteration);
      o.answer.Some? ==>
        && o.history != [] && o.history[|o.history| - 1] == Assistant(o.answer.value, [])
        && o.answer.value != "" && o.answer.value != text
        && 1 <= |o.sent| <= MAX_ITERATIONS - iteration
    decreases MAX_ITERATIONS - iteration
  {
    hide Converse, Cleaned, Sanitized, LastUser, WithCalls, RolledBack;
    if iteration == MAX_ITERATIONS {
      ConverseStops(h, text, replies, tools);
    } else {
      ConverseTurn(h, text, replies, tools, iteration);
      var r := replies(iteration);
      if r.Choice? && r.calls != [] {
        NoUserAdded(h, r.content, r.calls, tools);
        AnswerEndsTheLog(WithCalls(h, r.content, r.calls, tools), text, replies, tools, iteration + 1);
      }
    }
  }

  // ---- When a query is answered, and what it then leaves ----

  /** The reply asks for tools, and does not echo the question. */
  predicate AsksForTools(r: Reply, text: string) {
    r.Choice? && r.calls != [] && (text != "" ==> r.content != text)
  }

  predicate IsAnswer(r: Reply, text: string) {
    r.Choice? && r.calls == [] && r.content != "" && r.content != text
  }

  /** The replies from number `i` on ask for tools, up to number `k`, which is an answer, and one of the first ten. */
  ghost predicate AnsweredAt(replies: nat -> Reply, text: string, i: nat, k: nat) {
    i <= k < 10 && (forall j :: i <= j < k ==> AsksForTools(replies(j), text)) && IsAnswer(replies(k), text)
  }

  /** One turn: the reply is logged, and then one answer for each of its calls, in order, under the call's id. */
  ghost predicate IsTurn(before: seq<Message>, after: seq<Message>, r: Reply, tools: Tools)
    requires r.Choice?
  {
    && |after| == |before| + 1 + |r.calls| && before <= after
    && after[|before|] == Assistant(r.content, r.calls)
    && forall k :: 0 <= k < |r.calls| ==>
      after[|before| + 1 + k] == Tool(tools(|before| + 1 + k, r.calls[k]), r.calls[k].id)
  }

  /** The logs before each of the requests number `i` to `k`. */
  ghost predicate AreLogs(logs: seq<seq<Message>>, h: seq<Message>, replies: nat -> Reply, tools: Tools, i: nat,
    k: nat) {
    && i <= k && |logs| == k - i + 1 && logs[0] == h
    && forall j :: i <= j < k ==> replies(j).Choice? && IsTurn(logs[j - i], logs[j - i + 1], replies(j), tools)
  }

  lemma WithCallsIsTurn(h: seq<Message>, r: Reply, tools: Tools)
    requires r.Choice?
    ensures IsTurn(h, WithCalls(h, r.content, r.calls, tools), r, tools)
  {
  }

  lemma {:induction false} AnswerComes(
    h: seq<Message>, text: string, replies: nat -> Reply, tools: Tools, i: nat,
      k: nat) returns (logs: seq<seq<Message>>)
    requires LastUser(h) == text && AnsweredAt(replies, text, i, k)
    ensures var o := Converse(h, text, replies, tools, i);
      && AreLogs(logs, h, replies, tools, i, k)
      && o.answer == Some(replies(k).content) && o.history == logs[k - i] + [Assistant(replies(k).content, [])]
      && |o.sent| == |logs| && forall j :: 0 <= j < |logs| ==> o.sent[j] == Sanitized(logs[j])
    decreases k - i
  {
    hide Converse, LastUser, Sanitized, WithCalls, RolledBack, IsTurn;
    ConverseTurn(h, text, replies, tools, i);
    logs := [h];
    if i < k {
      assert AsksForTools(replies(i), text);
      var r := replies(i);
      var next := WithCalls(h, r.content, r.calls, tools);
      NoUserAdded(h, r.content, r.calls, tools);
      WithCallsIsTurn(h, r, tools);
      var rest := AnswerComes(next, text, replies, tools, i + 1, k);
      logs := [h] + rest;
      forall j | i <= j < k ensures replies(j).Choice? && IsTurn(logs[j - i], logs[j - i + 1], replies(j), tools) {
        if j > i {
          assert logs[j - i] == rest[j - (i + 1)] && logs[j - i + 1] == rest[j - (i + 1) + 1];
        }
      }
    }
  }

  lemma {:induction false} AnswerCame(
    h: seq<Message>, text: string, replies: nat -> Reply, tools: Tools, i: nat) returns (k: nat)
    requires i <= MAX_ITERATIONS && LastUser(h) == text && Converse(h, text, replies, tools, i).answer.Some?
    ensures AnsweredAt(replies, text, i, k)
    decreases MAX_ITERATIONS - i
  {
    hide Converse, LastUser, Sanitized, WithCalls, RolledBack, Cleaned;
    k := i;
    if i == MAX_ITERATIONS {
      ConverseStops(h, text, replies, tools);
    } else {
      ConverseTurn(h, text, replies, tools, i);
      var r := replies(i);
      if r.Choice? && r.calls != [] {
        NoUserAdded(h, r.content, r.calls, tools);
        k := AnswerCame(WithCalls(h, r.content, r.calls, tools), text, replies, tools, i + 1);
      }
    }
  }

  /** A query is answered exactly when one of the first ten replies is an answer and all before it ask for tools. */
  lemma AnsweredIff(h: seq<Message>, text: string, replies: nat -> Reply, tools: Tools)
    ensures Queried(h, text, replies, tools).answer.Some? <==> exists k :: AnsweredAt(replies, text, 0, k)
  {
    hide Converse, Cleaned, LastUser, AnsweredAt;
    var asked := Cleaned(h) + [User(text)];
    LastUserIs(Cleaned(h), text);
    if k :| AnsweredAt(replies, text, 0, k) {
      var logs := AnswerComes(asked, text, replies, tools, 0, k);
    }
    if Queried(h, text, replies, tools).answer.Some? {
      var k := AnswerCame(asked, text, replies, tools, 0);
    }
  }

  /** Then the log holds the question, every turn with its tools' answers, and the answer; and each request was the
      log at its time. */
  lemma AnsweredLeaves(h: seq<Message>, text: string, replies: nat -> Reply, tools: Tools, k: nat)
    returns (logs: seq<seq<Message>>)
    requires AnsweredAt(replies, text, 0, k)
    ensures var o := Queried(h, text, replies, tools);
      && AreLogs(logs, Cleaned(h) + [User(text)], replies, tools, 0, k)
      && o.answer == Some(replies(k).content) && o.history == logs[k] + [Assistant(replies(k).content, [])]
      && |o.sent| == k + 1 && forall j :: 0 <= j <= k ==> o.sent[j] == Sanitized(logs[j])
  {
    hide Converse, Cleaned, LastUser, AnsweredAt, AreLogs;
    LastUserIs(Cleaned(h), text);
    logs := AnswerComes(Cleaned(h) + [User(text)], text, replies, tools, 0, k);
    assert |logs| == k + 1 by { LogsAreCounted(logs, Cleaned(h) + [User(text)], replies, tools, 0, k); }
  }

  lemma LogsAreCounted(logs: seq<seq<Message>>, h: seq<Message>, replies: nat -> Reply, tools: Tools, i: nat, k: nat)
    requires AreLogs(logs, h, replies, tools, i, k)
    ensures |logs| == k - i + 1
  {
  }

  lemma {:induction false} LastUserSkips(h: seq<Message>, more: seq<Message>)
    requires forall k :: 0 <= k < |more| ==> !more[k].User?
    ensures LastUser(h + more) == LastUser(h)
  {
    if more == [] {
      assert h + more == h;
    } else {
      assert (h + more)[..|h + more| - 1] == h + more[..|more| - 1];
      LastUserSkips(h, more[..|more| - 1]);
    }
  }

  lemma NoUserAdded(h: seq<Message>, content: string, calls: seq<ToolCall>, tools: Tools)
    ensures LastUser(WithCalls(h, content, calls, tools)) == LastUser(h)
    ensures h <= WithCalls(h, content, calls, tools)
  {
    hide LastUser;
    var more := [Assistant(content, calls)] + Answers(|h| + 1, calls, tools);
    assert WithCalls(h, content, calls, tools) == h + more;
    LastUserSkips(h, more);
  }

  /** A stream that fails to start, or breaks, leaves the question in the log without an answer. */
  lemma BrokenStreamKeepsTheQuestion(h: seq<Message>, text: string, stream: Stream, tools: Tools, final: Reply)
    ensures Streamed(h, text, stream, tools, final).history == Cleaned(h) + [User(text)] <==>
      stream.NotCreated? || !stream.ended
    ensures stream.NotCreated? || !stream.ended ==> Streamed(h, text, stream, tools, final).answer == None
  {
    hide Cleaned, Collected, Concat, Segments;
  }

  function Heard(segments: seq<(string, bool)>): string {
    if segments == [] then "" else Heard(segments[..|segments| - 1]) + segments[|segments| - 1].0
  }

  lemma {:induction false} HeardSegments(texts: seq<string>)
    ensures Heard(Segments(texts)) == Concat(texts)
    ensures forall k :: 0 <= k < |Segments(texts)| ==> !Segments(texts)[k].1
  {
    if texts != [] {
      var before, last := texts[..|texts| - 1], texts[|texts| - 1];
      HeardSegments(before);
      if last == "" {
        assert Segments(texts) == Segments(before);
        assert Concat(before) + "" == Concat(before);
      } else {
        assert Segments(texts)[..|Segments(texts)| - 1] == Segments(before);
      }
    }
  }

  lemma HeardNext(segments: seq<(string, bool)>, s: (string, bool))
    ensures Heard(segments + [s]) == Heard(segments) + s.0
  {
    assert (segments + [s])[..|segments|] == segments;
  }

  /** The callback hears exactly the answer, then one completion call; a failed stream never completes. */
  lemma CallbackHearsTheAnswer(h: seq<Message>, text: string, stream: Stream, tools: Tools, final: Reply)
    ensures var o := Streamed(h, text, stream, tools, final);
      && (o.answer.Some? ==> Heard(o.segments) == o.answer.value && o.segments != [])
      && (forall k :: 0 <= k < |o.segments| ==> (o.segments[k].1 <==> o.answer.Some? && k == |o.segments| - 1))
  {
    hide Cleaned, Collected, WithCalls, Heard, Segments, Concat;
    var o := Streamed(h, text, stream, tools, final);
    if stream.Received? {
      var seen, full := Segments(stream.texts), Concat(stream.texts);
      HeardSegments(stream.texts);
      if stream.ended && Collected(stream.deltas) == [] {
        HeardNext(seen, ("", true));
        assert full + "" == full;
      } else if stream.ended && !final.ApiError? {
        var reply := if final.Choice? then final.content else "";
        HeardNext(seen, (reply, false));
        HeardNext(seen + [(reply, false)], ("", true));
        assert o.segments == seen + [(reply, false)] + [("", true)];
        assert full + reply + "" == full + reply;
      }
    }
  }

  /** The pieces of text are passed on one by one, in order. */
  lemma {:induction false} SegmentsAre(texts: seq<string>)
    requires forall k :: 0 <= k < |texts| ==> texts[k] != ""
    ensures |Segments(texts)| == |texts| && forall k :: 0 <= k < |texts| ==> Segments(texts)[k] == (texts[k], false)
  {
    if texts != [] { SegmentsAre(texts[..|texts| - 1]); }
  }

  /** What a stream that ends leaves in the log: without tool calls, the question and exactly the text that was
      heard; with tool calls, the question, the text and the calls, an answer for each call, and the final reply,
      and what was heard is text and final reply. */
  lemma StreamLogsWhatWasHeard(h: seq<Message>, text: string, stream: Stream, tools: Tools, final: Reply)
    requires stream.Received? && stream.ended
    ensures var o, calls := Streamed(h, text, stream, tools, final), Collected(stream.deltas);
      var asked, heard := Cleaned(h) + [User(text)], Heard(o.segments);
      if calls == [] then o.history == asked + [Assistant(heard, [])] && o.sent == [asked]
      else
        && |o.sent| == 2 && o.sent[0] == asked
        && IsTurn(asked, o.sent[1], Choice(Concat(stream.texts), calls), tools)
        && (!final.Choice? ==> o.history == o.sent[1] && heard == Concat(stream.texts))
        && (final.Choice? ==> o.history == o.sent[1] + [Assistant(final.content, final.calls)])
        && (final.Choice? ==> heard == Concat(stream.texts) + final.content)
    ensures var o := Streamed(h, text, stream, tools, final);
      o.answer == if Collected(stream.deltas) != [] && final.ApiError? then None else Some(Heard(o.segments))
  {
    hide Cleaned, Collected, WithCalls, Heard, Segments, Concat, IsTurn;
    CallbackHearsTheAnswer(h, text, stream, tools, final);
    var full, calls := Concat(stream.texts), Collected(stream.deltas);
    HeardSegments(stream.texts);
    if calls != [] {
      WithCallsIsTurn(Cleaned(h) + [User(text)], Choice(full, calls), tools);
      assert full + "" == full;
    }
  }
}

/**
  Streaming a reply: chunks of a JSON text arrive, each either the whole text so far or a further piece of it, and
  the new part of its message is passed on as soon as it can be read.
*/
module ProgressiveStream {
  import opened Text
  import opened JsonField

  const MESSAGE_KEY := "message"

  // ---- The buffer ----

  /** One chunk: it replaces the buffer when it starts with it, otherwise it is appended. */
  function NextBuffer(buffer: string, chunk: string): string {
    if chunk == "" then buffer
    else if buffer != "" && buffer <= chunk then chunk
    else buffer + chunk
  }

  function BufferAfter(chunks: seq<string>): string {
    if chunks == [] then "" else NextBuffer(BufferAfter(chunks[..|chunks| - 1]), chunks[|chunks| - 1])
  }

  function Concat(parts: seq<string>): string {
    if parts == [] then "" else Concat(parts[..|parts| - 1]) + parts[|parts| - 1]
  }

  /** The buffer only ever grows. */
  lemma {:induction false} BufferExtends(chunks: seq<string>, n: nat)
    requires n <= |chunks|
    ensures BufferAfter(chunks[..n]) <= BufferAfter(chunks)
  {
    if n == |chunks| {
      assert chunks[..n] == chunks;
    } else {
      var init := chunks[..|chunks| - 1];
      assert init[..n] == chunks[..n];
      BufferExtends(init, n);
      var a, b, c := BufferAfter(chunks[..n]), BufferAfter(init), BufferAfter(chunks);
      assert b <= c;
      assert a == b[..|a|] == c[..|b|][..|a|] == c[..|a|];
    }
  }

  /** Each chunk repeats everything before it. */
  ghost predicate Cumulative(chunks: seq<string>) {
    && (forall i :: 0 <= i < |chunks| ==> chunks[i] != "")
    && (forall i :: 0 < i < |chunks| ==> chunks[i - 1] <= chunks[i])
  }

  lemma {:induction false} CumulativeBuffer(chunks: seq<string>)
    requires Cumulative(chunks) && chunks != []
    ensures BufferAfter(chunks) == chunks[|chunks| - 1]
  {
    var n := |chunks| - 1;
    if n > 0 {
      assert chunks[..n][n - 1] == chunks[n - 1];
      CumulativeBuffer(chunks[..n]);
    } else {
      assert BufferAfter(chunks[..0]) == "";
      assert "" + chunks[0] == chunks[0];
    }
  }

  /** Some delta begins with the whole text before it, and so is taken for a cumulative chunk. */
  ghost predicate Mistakable(chunks: seq<string>) {
    exists i :: 0 <= i < |chunks| && MistakenAt(chunks, i)
  }

  predicate MistakenAt(chunks: seq<string>, i: int)
    requires 0 <= i < |chunks|
  {
    BufferAfter(chunks[..i]) != "" && BufferAfter(chunks[..i]) <= chunks[i]
  }

  /** Deltas are concatenated exactly when none of them begins with everything that came before it. */
  lemma {:induction false} DeltaBuffer(chunks: seq<string>)
    ensures |BufferAfter(chunks)| <= |Concat(chunks)|
    ensures BufferAfter(chunks) == Concat(chunks) <==> !Mistakable(chunks)
  {
    if chunks != [] {
      var n := |chunks| - 1;
      var init := chunks[..n];
      DeltaBuffer(init);
      forall i | 0 <= i < n ensures MistakenAt(chunks, i) <==> MistakenAt(init, i) {
        assert init[..i] == chunks[..i];
      }
      assert Mistakable(chunks) <==> Mistakable(init) || MistakenAt(chunks, n) by {
        if Mistakable(init) {
          var i :| 0 <= i < n && MistakenAt(init, i);
          assert MistakenAt(chunks, i);
        }
      }
      LastChunk(BufferAfter(init), Concat(init), chunks[n]);
    }
  }

  lemma LastChunk(buffer: string, joined: string, chunk: string)
    requires |buffer| <= |joined|
    ensures |NextBuffer(buffer, chunk)| <= |joined + chunk|
    ensures NextBuffer(buffer, chunk) == joined + chunk <==> buffer == joined && !(buffer != "" && buffer <= chunk)
  {
    if buffer != "" && buffer <= chunk {
      assert |chunk| < |joined + chunk|;
    } else {
      assert buffer + chunk == joined + chunk ==> buffer == joined by {
        if buffer + chunk == joined + chunk {
          assert |buffer| == |joined|;
          assert buffer == (buffer + chunk)[..|buffer|] == (joined + chunk)[..|joined|];
        }
      }
    }
  }

  // ---- What has been passed on ----

  function Shown(buffer: string): string {
    Extract(buffer, MESSAGE_KEY).0
  }

  /** The part of `current` beyond the first `emitted` characters. */
  function Beyond(current: string, emitted: nat): string {
    if |current| <= emitted then "" else current[emitted..]
  }

  /** Everything passed on while the chunks arrive. */
  function Emitted(chunks: seq<string>): string {
    if chunks == [] then ""
    else
      var before := Emitted(chunks[..|chunks| - 1]);
      before + Beyond(Shown(BufferAfter(chunks)), |before|)
  }

  /** The final flush completes what was passed on towards the final message. */
  function Flushed(emitted: string, finalMsg: string): string {
    emitted + Beyond(finalMsg, |emitted|)
  }

  /** The text so far ends on a lone backslash, and what follows makes it an escape for something other than a
      backslash. */
  ghost predicate Misread(buffer: string, whole: string) {
    && buffer < whole && EndsDangling(buffer, MESSAGE_KEY)
    && FirstRead("\\" + whole[|buffer|..]) != Some('\\')
  }

  /** No chunk boundary falls inside an escape that is misread. */
  ghost predicate CleanlyCut(chunks: seq<string>) {
    forall n :: 0 <= n <= |chunks| ==> !Misread(BufferAfter(chunks[..n]), BufferAfter(chunks))
  }

  lemma NothingShown()
    ensures Shown("") == ""
  {
  }

  lemma ShownStaysIff(buffer: string, whole: string)
    requires buffer <= whole
    ensures Shown(buffer) <= Shown(whole) <==> !Misread(buffer, whole)
  {
    hide Extract, EndsDangling;
    if buffer == whole {
    } else {
      assert whole == buffer + whole[|buffer|..];
      ExtractKeepsItsPrefixIff(buffer, whole[|buffer|..], MESSAGE_KEY);
    }
  }

  /** What was emitted after chunk number `n` is something that has been shown, and nothing longer has. */
  ghost predicate EmittedWasShown(chunks: seq<string>, n: nat)
    requires n <= |chunks|
  {
    && |Emitted(chunks[..n])| >= |Shown(BufferAfter(chunks[..n]))|
    && exists k :: 0 <= k <= n && Emitted(chunks[..n]) == Shown(BufferAfter(chunks[..k]))
  }

  lemma EmittedNext(chunks: seq<string>, n: nat)
    requires 0 < n <= |chunks|
    ensures Emitted(chunks[..n]) ==
      Emitted(chunks[..n - 1]) + Beyond(Shown(BufferAfter(chunks[..n])), |Emitted(chunks[..n - 1])|)
  {
    assert chunks[..n][..n - 1] == chunks[..n - 1];
  }

  lemma {:induction false} EmittedGrows(chunks: seq<string>, n: nat)
    requires n <= |chunks|
    ensures Emitted(chunks[..n]) <= Emitted(chunks)
    decreases |chunks| - n
  {
    hide Emitted;
    if n == |chunks| {
      assert chunks[..n] == chunks;
    } else {
      EmittedGrows(chunks, n + 1);
      EmittedNext(chunks, n + 1);
    }
  }

  lemma LongerPrefix(a: string, b: string, whole: string)
    requires a <= whole && b <= whole
    ensures a + Beyond(b, |a|) == if |b| <= |a| then a else b
  {
    if |b| > |a| {
      assert a == whole[..|a|] && b == whole[..|b|];
      assert b[..|a|] == a;
    }
  }

  /** A backslash that was passed on earlier stands in whatever agrees with what was passed on. */
  lemma BackslashStays(earlier: string, kept: string, shown: string, before: string, whole: string)
    requires shown == before + "\\" && kept <= shown && (earlier == kept || earlier == kept + "\\")
    requires earlier <= whole && |earlier| > |before|
    ensures shown <= whole
  {
    if |kept| == |before| {
      assert kept == before;
    } else {
      assert kept == shown;
    }
  }

  /** So does one that is passed on now. */
  lemma BackslashArrives(earlier: string, shown: string, before: string, whole: string)
    requires shown == before + "\\" && before <= whole
    requires earlier <= whole && |earlier| <= |before| && earlier + Beyond(shown, |earlier|) <= whole
    ensures shown <= whole
  {
    var i := |before|;
    assert (earlier + Beyond(shown, |earlier|))[i] == shown[i];
    assert shown == whole[..i + 1];
  }

  lemma ShownSurvives(chunks: seq<string>, k: nat, n: nat) returns (before: string)
    requires k <= n <= |chunks|
    ensures before <= Shown(BufferAfter(chunks[..n]))
    ensures var earlier := Shown(BufferAfter(chunks[..k])); earlier == before || earlier == before + "\\"
  {
    hide Extract;
    assert chunks[..n][..k] == chunks[..k];
    BufferExtends(chunks[..n], k);
    var a, b := BufferAfter(chunks[..k]), BufferAfter(chunks[..n]);
    assert b == a + b[|a|..];
    before := ExtractKeepsAllButABackslash(a, b[|a|..], MESSAGE_KEY);
  }

  lemma NothingEmitted(chunks: seq<string>)
    ensures Emitted(chunks[..0]) == "" && Shown(BufferAfter(chunks[..0])) == ""
  {
    assert chunks[..0] == [];
    NothingShown();
  }

  /** If all that is emitted is the final message, then at every chunk what was shown agrees with it. */
  lemma {:induction false} OnlyIfShownStays(chunks: seq<string>, n: nat)
    requires n <= |chunks| && Emitted(chunks) == Shown(BufferAfter(chunks))
    ensures Shown(BufferAfter(chunks[..n])) <= Shown(BufferAfter(chunks)) && EmittedWasShown(chunks, n)
  {
    hide Shown, Emitted, BufferAfter, Beyond;
    if n == 0 {
      NothingEmitted(chunks);
    } else {
      OnlyIfShownStays(chunks, n - 1);
      var k :| 0 <= k <= n - 1 && Emitted(chunks[..n - 1]) == Shown(BufferAfter(chunks[..k]));
      EmittedGrows(chunks, n - 1);
      EmittedGrows(chunks, n);
      EmittedNext(chunks, n);
      var before := ShownSurvives(chunks, n, |chunks|);
      assert chunks[..|chunks|] == chunks;
      var kept := ShownSurvives(chunks, k, n);
      NextShownStays(
        Emitted(chunks[..n - 1]), kept, Shown(BufferAfter(chunks[..n])), before, Shown(BufferAfter(chunks)));
      LongerPrefix(Emitted(chunks[..n - 1]), Shown(BufferAfter(chunks[..n])), Shown(BufferAfter(chunks)));
    }
  }

  lemma NextShownStays(earlier: string, kept: string, shown: string, before: string, whole: string)
    requires before <= whole && (shown == before || shown == before + "\\")
    requires kept <= shown && (earlier == kept || earlier == kept + "\\")
    requires earlier <= whole && earlier + Beyond(shown, |earlier|) <= whole
    ensures shown <= whole
  {
    if shown == before + "\\" {
      if |earlier| > |before| {
        BackslashStays(earlier, kept, shown, before, whole);
      } else {
        BackslashArrives(earlier, shown, before, whole);
      }
    }
  }

  /** If at every chunk what was shown agrees with the final message, nothing else is emitted. */
  lemma {:induction false} IfShownStays(chunks: seq<string>, n: nat)
    requires n <= |chunks|
    requires forall k :: 0 <= k <= |chunks| ==> Shown(BufferAfter(chunks[..k])) <= Shown(BufferAfter(chunks))
    ensures Emitted(chunks[..n]) <= Shown(BufferAfter(chunks))
    ensures |Emitted(chunks[..n])| >= |Shown(BufferAfter(chunks[..n]))|
  {
    hide Shown, Emitted, BufferAfter, Beyond;
    if n == 0 {
      NothingEmitted(chunks);
    } else {
      IfShownStays(chunks, n - 1);
      EmittedNext(chunks, n);
      LongerPrefix(Emitted(chunks[..n - 1]), Shown(BufferAfter(chunks[..n])), Shown(BufferAfter(chunks)));
    }
  }

  /** The deltas add up to the message read from the last buffer exactly when no chunk boundary cuts an escape that
      is then misread. */
  lemma DeltasAddUpIff(chunks: seq<string>)
    ensures Emitted(chunks) == Shown(BufferAfter(chunks)) <==> CleanlyCut(chunks)
  {
    hide Shown, Emitted, BufferAfter, Misread;
    assert chunks[..|chunks|] == chunks;
    forall n | 0 <= n <= |chunks|
      ensures Shown(BufferAfter(chunks[..n])) <= Shown(BufferAfter(chunks)) <==>
        !Misread(BufferAfter(chunks[..n]), BufferAfter(chunks))
    {
      BufferExtends(chunks, n);
      ShownStaysIff(BufferAfter(chunks[..n]), BufferAfter(chunks));
    }
    if Emitted(chunks) == Shown(BufferAfter(chunks)) {
      forall n | 0 <= n <= |chunks| ensures !Misread(BufferAfter(chunks[..n]), BufferAfter(chunks)) {
        OnlyIfShownStays(chunks, n);
      }
    }
    if CleanlyCut(chunks) {
      IfShownStays(chunks, |chunks|);
    }
  }

  /** So a message that is written into a reply, in any of the ways a JSON text can spell it, and cut into any chunks
      that cut no escape, is what the deltas add up to. */
  lemma ReplyArrives(
    chunks: seq<string>, before: string, gap1: string, gap2: string, value: string, forms: seq<Form>, tail: string)
    requires AllFit(value, forms) && IsGap(gap1) && IsGap(gap2)
    requires BufferAfter(chunks) == Document(before, "message", gap1, gap2, Print(value, forms), tail)
    requires NotBefore(BufferAfter(chunks), "\"message\"", |before|)
    ensures Emitted(chunks) == value <==> CleanlyCut(chunks)
  {
    hide Extract, Emitted, BufferAfter, CleanlyCut, AllFit, NotBefore, Document;
    assert "\"" + "message" + "\"" == "\"message\"";
    ExtractOfPrint(before, "message", gap1, gap2, value, forms, tail);
    DeltasAddUpIff(chunks);
  }

  lemma EmittedReachesShown(chunks: seq<string>)
    ensures |Emitted(chunks)| >= |Shown(BufferAfter(chunks))|
  {
    NothingEmitted(chunks);
  }

  /** After the flush the receiver has the final message exactly when what it had before was a prefix of it. */
  lemma FlushCompletesIff(emitted: string, finalMsg: string)
    ensures Flushed(emitted, finalMsg) == finalMsg <==> emitted <= finalMsg
  {
    if emitted <= finalMsg {
      assert finalMsg == emitted + finalMsg[|emitted|..];
    }
  }

  /** A reply whose first chunk ends between a backslash and the letter of its escape. */
  const CUT_REPLY: seq<string> := [CUT_HEAD, CUT_TAIL]
  const CUT_HEAD := "{" + Needle(MESSAGE_KEY) + (":" + ("\"" + "a\\"))
  const CUT_TAIL := "n\"}"

  lemma CutHead()
    ensures BufferAfter(CUT_REPLY[..1]) == CUT_HEAD
    ensures EndsDangling(CUT_HEAD, MESSAGE_KEY) && Shown(CUT_HEAD) == "a\\"
  {
    BodyOf(CUT_HEAD, "a\\");
    ScanPieces();
    assert CUT_REPLY[..1] == [CUT_HEAD] && [CUT_HEAD][..0] == [];
    assert "" + CUT_HEAD == CUT_HEAD;
  }

  lemma CutWhole()
    ensures BufferAfter(CUT_REPLY) == CUT_HEAD + CUT_TAIL
    ensures Shown(CUT_HEAD + CUT_TAIL) == "a\n"
  {
    hide Scan, Body, Needle;
    CutHead();
    CutPieces();
    assert CUT_REPLY[..|CUT_REPLY| - 1] == CUT_REPLY[..1];
    BodyOf(CUT_HEAD + CUT_TAIL, "a\\n\"}");
    ScanPieces();
  }

  lemma CutPieces()
    ensures CUT_HEAD != "" && CUT_TAIL != "" && !(CUT_HEAD <= CUT_TAIL)
    ensures CUT_HEAD + CUT_TAIL == "{" + Needle(MESSAGE_KEY) + (":" + ("\"" + "a\\n\"}"))
  {
    hide Needle;
    assert CUT_HEAD[0] == '{' && CUT_TAIL[0] == 'n';
  }

  /** A cut inside an escape loses a character: the receiver is shown a backslash where the message has a line break. */
  lemma CutEscapeLosesText()
    ensures !CleanlyCut(CUT_REPLY)
    ensures Shown(BufferAfter(CUT_REPLY)) == "a\n"
    ensures Emitted(CUT_REPLY) == "a\\" && Flushed(Emitted(CUT_REPLY), "a\n") != "a\n"
  {
    hide Extract;
    CutHead();
    CutWhole();
    CutReplyEmits(CUT_REPLY, "a\\");
    assert "a\\"[1] != "a\n"[1];
    assert Flushed("a\\", "a\n") == "a\\";
    DeltasAddUpIff(CUT_REPLY);
  }

  lemma CutReplyEmits(chunks: seq<string>, text: string)
    requires |chunks| == 2 && Shown(BufferAfter(chunks[..1])) == text && |Shown(BufferAfter(chunks))| == |text|
    ensures Emitted(chunks) == text
  {
    assert chunks[..1][..0] == [] && |chunks[..1]| == 1;
    assert Emitted(chunks[..1]) == text;
    assert chunks[..|chunks| - 1] == chunks[..1];
  }

  lemma BodyOf(raw: string, body: string)
    requires raw == "{" + Needle(MESSAGE_KEY) + (":" + ("\"" + body))
    ensures Body(raw, MESSAGE_KEY) == Some(body)
  {
    var needle := Needle(MESSAGE_KEY);
    assert raw[0..] == raw && raw[0] == '{' && needle[0] == '"';
    IndexOfFirst(raw, "{", needle, ":" + ("\"" + body));
    assert raw[1 + |needle|..] == ":" + ("\"" + body);
    AfterPrintedKey("", "", body);
    assert "" + ("\"" + body) == "\"" + body;
    assert "" + (":" + ("\"" + body)) == ":" + ("\"" + body);
  }

  lemma ScanPieces()
    ensures Scan("a\\") == ("a\\", false) && Dangling("a\\")
    ensures Scan("a\\n\"}") == ("a\n", true)
  {
    assert "a\\"[1..] == "\\" && "\\"[1..] == "";
    assert Scan("\\") == ("\\", false) by { assert "\\" + "" == "\\"; }
    assert "a" + "\\" == "a\\";
    assert "a\\n\"}"[1..] == "\\n\"}" && "\\n\"}"[2..] == "\"}";
    assert Scan("\"}") == ("", true);
    assert Scan("\\n\"}") == ("\n", true) by { assert "\n" + "" == "\n"; }
    assert "a" + "\n" == "a\n";
  }

  // ---- The implementation ----

  datatype Delivery = Delivery(text: string, complete: bool)

  function CallTexts(calls: seq<Delivery>): string {
    if calls == [] then "" else CallTexts(calls[..|calls| - 1]) + calls[|calls| - 1].text
  }

  ghost predicate NoneComplete(calls: seq<Delivery>) {
    forall i :: 0 <= i < |calls| ==> !calls[i].complete
  }

  datatype Outcome = Reply(text: string) | NoData

  const FALLBACK := "您好,非常抱歉,您的这个问题我暂时无法解答,建议您提交工单申请处理。"

  /** What one more chunk with text does to the buffer and to what is passed on. */
  lemma OneMoreChunk(chunks: seq<string>, chunk: string)
    requires chunk != ""
    ensures var more := chunks + [chunk];
      && BufferAfter(more) ==
        (if BufferAfter(chunks) != "" && BufferAfter(chunks) <= chunk then chunk else BufferAfter(chunks) + chunk)
      && Emitted(more) == Emitted(chunks) + Beyond(Shown(BufferAfter(more)), |Emitted(chunks)|)
      && Shown(BufferAfter(more)) == Extract(BufferAfter(more), MESSAGE_KEY).0
  {
    hide Extract;
    var more := chunks + [chunk];
    assert more[..|more| - 1] == chunks && more[|more| - 1] == chunk;
  }

  class Stream {
    var prevRaw: string
    var emittedRunes: nat
    var firstChunkSeen: bool
    var calls: seq<Delivery>
    ghost var chunks: seq<string>

    /** What the receiver has been given is what `Emitted` describes. */
    ghost predicate Valid()
      reads this
    {
      && prevRaw == BufferAfter(chunks)
      && CallTexts(calls) == Emitted(chunks)
      && emittedRunes == |Emitted(chunks)|
      && NoneComplete(calls)
      && (firstChunkSeen <==> chunks != [])
      && (forall i :: 0 <= i < |chunks| ==> chunks[i] != "")
    }

    constructor ()
      ensures Valid() && chunks == [] && calls == []
    {
      prevRaw, emittedRunes, firstChunkSeen, calls, chunks := "", 0, false, [], [];
    }

    method OnDelta(text: string, complete: bool)
      modifies this`calls
      ensures calls == old(calls) + [Delivery(text, complete)]
      ensures CallTexts(calls) == CallTexts(old(calls)) + text
    {
      calls := calls + [Delivery(text, complete)];
      assert calls[..|calls| - 1] == old(calls);
    }

    method EmitDelta(currentMsg: string)
      modifies this`calls, this`emittedRunes
      ensures CallTexts(calls) == CallTexts(old(calls)) + Beyond(currentMsg, old(emittedRunes))
      ensures emittedRunes == old(emittedRunes) + |Beyond(currentMsg, old(emittedRunes))|
      ensures NoneComplete(old(calls)) ==> NoneComplete(calls)
    {
      if |currentMsg| <= emittedRunes {
        return;
      }
      var delta := currentMsg[emittedRunes..];
      emittedRunes := |currentMsg|;
      OnDelta(delta, false);
    }

    /** One chunk of the reply; an empty one is skipped. */
    method OnChunk(newText: string)
      requires Valid()
      modifies this
      ensures Valid()
      ensures chunks == if newText == "" then old(chunks) else old(chunks) + [newText]
      ensures newText == "" ==> calls == old(calls)
    {
      hide Extract, BufferAfter, Emitted, Shown, CallTexts, NoneComplete;
      if newText == "" {
        return;
      }
      OneMoreChunk(chunks, newText);
      firstChunkSeen := true;
      if prevRaw != "" && prevRaw <= newText {
        prevRaw := newText;
      } else {
        prevRaw := prevRaw + newText;
      }
      chunks := chunks + [newText];
      var currentMsg, _ := ExtractJSONStringField(prevRaw, MESSAGE_KEY);
      if currentMsg != "" {
        EmitDelta(currentMsg);
      } else {
        assert CallTexts(calls) + "" == CallTexts(calls);
      }
    }

    /** The first-byte timer fires: without any chunk so far, a fixed sentence and completion; otherwise nothing. */
    method OnFirstByteTimeout() returns (outcome: Option<Outcome>)
      modifies this`calls
      ensures outcome == if firstChunkSeen then None else Some(Reply(FALLBACK))
      ensures calls ==
        if firstChunkSeen then old(calls) else old(calls) + [Delivery(FALLBACK, false), Delivery("", true)]
    {
      if firstChunkSeen {
        return None;
      }
      OnDelta(FALLBACK, false);
      OnDelta("", true);
      outcome := Some(Reply(FALLBACK));
    }

    /**
      The stream has ended; `parsed` is the message of the parsed JSON, if it parses (the empty text never does).
      Exactly one completion call is made, after all the text, unless nothing was received.
    */
    method Finish(parsed: Option<string>) returns (outcome: Outcome)
      requires Valid() && (parsed.Some? ==> firstChunkSeen)
      modifies this`calls, this`emittedRunes
      ensures
        var finalMsg := if parsed.Some? then parsed.value else BufferAfter(chunks);
        if chunks == [] then outcome == NoData && calls == old(calls)
        else
          && outcome == Reply(finalMsg)
          && calls != [] && calls[|calls| - 1] == Delivery("", true)
          && NoneComplete(calls[..|calls| - 1])
          && CallTexts(calls) == Flushed(Emitted(chunks), finalMsg)
    {
      var finalMsg := prevRaw;
      if parsed.Some? {
        finalMsg := parsed.value;
      } else if !firstChunkSeen {
        return NoData;
      }
      if |finalMsg| > emittedRunes {
        OnDelta(finalMsg[emittedRunes..], false);
        emittedRunes := |finalMsg|;
      }
      ghost var before := calls;
      OnDelta("", true);
      assert calls[..|calls| - 1] == before;
      outcome := Reply(finalMsg);
    }
  }

  /** The chunks that carry text. */
  function Received(chunks: seq<string>): seq<string> {
    if chunks == [] then []
    else Received(chunks[..|chunks| - 1]) + (if chunks[|chunks| - 1] == "" then [] else [chunks[|chunks| - 1]])
  }

  lemma ReceivedNext(chunks: seq<string>, i: nat)
    requires i < |chunks|
    ensures Received(chunks[..i + 1]) == Received(chunks[..i]) + (if chunks[i] == "" then [] else [chunks[i]])
  {
    assert chunks[..i + 1][..i] == chunks[..i];
  }

  /**
    A whole reply: chunks, and then the end of the stream. `parsed` is the message of the final text if that parses,
    which the empty text does not.
  */
  method StreamReply(chunks: seq<string>, parsed: Option<string>) returns (calls: seq<Delivery>, outcome: Outcome)
    requires Received(chunks) == [] ==> parsed == None
    ensures Received(chunks) == [] ==> outcome == NoData && calls == []
    ensures Received(chunks) != [] ==>
      var received := Received(chunks);
      var finalMsg := if parsed.Some? then parsed.value else BufferAfter(received);
      && outcome == Reply(finalMsg)
      && |calls| > 0 && calls[|calls| - 1] == Delivery("", true) && NoneComplete(calls[..|calls| - 1])
      && (CallTexts(calls) == finalMsg <==> Emitted(received) <= finalMsg)
      && (CleanlyCut(received) ==> (CallTexts(calls) == finalMsg <==> Shown(BufferAfter(received)) <= finalMsg))
      && (finalMsg == Shown(BufferAfter(received)) ==> (CallTexts(calls) == finalMsg <==> CleanlyCut(received)))
  {
    hide Extract, Emitted, BufferAfter, CleanlyCut, Flushed, Received, Shown, CallTexts, NoneComplete;
    var s := new Stream();
    assert Received(chunks[..0]) == [] by { NothingReceived(); }
    for i := 0 to |chunks|
      invariant s.Valid() && s.chunks == Received(chunks[..i]) && fresh(s)
      invariant s.chunks == [] ==> s.calls == []
    {
      ReceivedNext(chunks, i);
      s.OnChunk(chunks[i]);
    }
    assert chunks[..|chunks|] == chunks;
    outcome := s.Finish(parsed);
    calls := s.calls;
    ghost var received := s.chunks;
    FlushCompletesIff(Emitted(received), if parsed.Some? then parsed.value else BufferAfter(received));
    DeltasAddUpIff(received);
    EmittedReachesShown(received);
  }

  lemma NothingReceived()
    ensures Received([]) == []
  {
  }
}

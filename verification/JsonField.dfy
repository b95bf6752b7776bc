/**
 Extracting one string field from a JSON text that may still be growing: the text is cut anywhere, and whatever of the
 field's value has arrived is returned.
 */
module JsonField {
  import opened Text

  // ---- Locating the value ----

  predicate JsonBlank(c: char) {
    c == ' ' || c == '\t' || c == '\n' || c == '\r'
  }

  function SkipJsonBlanks(s: string): string {
    if s != [] && JsonBlank(s[0]) then SkipJsonBlanks(s[1..]) else s
  }

  /** The first occurrence of `needle`. */
  function IndexOf(s: string, needle: string): Option<nat> {
    if needle <= s then Some(0)
    else if s == [] then None
    else
      match IndexOf(s[1..], needle)
      case None => None
      case Some(i) => Some(i + 1)
  }

  lemma {:induction false} IndexFits(s: string, needle: string)
    ensures IndexOf(s, needle).Some? ==>
      var i := IndexOf(s, needle).value; i + |needle| <= |s| && s[i..i + |needle|] == needle
  {
    if needle <= s {
    } else if s != [] {
      IndexFits(s[1..], needle);
      if IndexOf(s, needle).Some? {
        var i := IndexOf(s[1..], needle).value;
        assert s[i + 1..i + 1 + |needle|] == s[1..][i..i + |needle|];
      }
    }
  }

  function Needle(key: string): string {
    "\"" + key + "\""
  }

  /** The text after `"key" : "`, once that much has arrived. */
  function Body(raw: string, key: string): Option<string> {
    match IndexOf(raw, Needle(key))
    case None => None
    case Some(i) =>
      IndexFits(raw, Needle(key));
      AfterKey(raw[i + |Needle(key)|..])
  }

  function AfterKey(rest: string): Option<string> {
    var colon := SkipJsonBlanks(rest);
    if colon == [] || colon[0] != ':' then None
    else
      var quote := SkipJsonBlanks(colon[1..]);
      if quote == [] || quote[0] != '"' then None else Some(quote[1..])
  }

  // ---- Reading the value ----

  function HexDigit(c: char): (d: Option<nat>)
    ensures d.Some? ==> d.value < 16
  {
    if '0' <= c <= '9' then Some((c - '0') as nat)
    else if 'a' <= c <= 'f' then Some((c - 'a') as nat + 10)
    else if 'A' <= c <= 'F' then Some((c - 'A') as nat + 10)
    else None
  }

  function HexByte(high: char, low: char): (v: Option<nat>)
    ensures v.Some? ==> v.value < 0x100
  {
    var h, l := HexDigit(high), HexDigit(low);
    if h.Some? && l.Some? then Some(h.value * 16 + l.value) else None
  }

  /** `strconv.ParseUint(h, 16, 32)` of a four-digit escape. */
  function Hex4(h: string): (v: Option<nat>)
    requires |h| == 4
    ensures v.Some? ==> v.value < 0x10000
  {
    var high, low := HexByte(h[0], h[1]), HexByte(h[2], h[3]);
    if high.Some? && low.Some? then Some(high.value * 256 + low.value) else None
  }

  /** What `WriteRune` appends: a lone surrogate becomes the replacement character. */
  function RuneText(code: nat): string
    requires code < 0x10000
  {
    if 0xD800 <= code < 0xE000 then "\U{FFFD}" else [code as char]
  }

  datatype Token = Close | Cut | Piece(text: string, width: nat)

  /** The next unit of a value.  A backslash that ends the text is taken as an ordinary character. */
  function NextToken(s: string): (t: Token)
    requires s != []
    ensures t.Piece? ==> 1 <= t.width <= |s|
  {
    if s[0] == '\\' && 1 < |s| then
      match s[1]
      case 'n' => Piece("\n", 2)
      case 't' => Piece("\t", 2)
      case 'r' => Piece("\r", 2)
      case 'u' =>
        if 5 < |s| then
          var code := Hex4(s[2..6]);
          Piece(if code.Some? then RuneText(code.value) else "", 6)
        else Cut
      case c => Piece([c], 2)
    else if s[0] == '"' then Close
    else Piece([s[0]], 1)
  }

  /** The value read so far, and whether its closing quote has arrived. */
  function Scan(s: string): (string, bool) {
    if s == [] then ("", false)
    else
      match NextToken(s)
      case Close => ("", true)
      case Cut => ("", false)
      case Piece(text, width) => (text + Scan(s[width..]).0, Scan(s[width..]).1)
  }

  function Extract(raw: string, key: string): (string, bool) {
    if raw == "" || key == "" then ("", false)
    else
      match Body(raw, key)
      case None => ("", false)
      case Some(body) => Scan(body)
  }

  /** The scan of the value ends on a backslash whose escape has not arrived. */
  predicate Dangling(s: string) {
    s != [] && (s == "\\" || (NextToken(s).Piece? && Dangling(s[NextToken(s).width..])))
  }

  predicate EndsDangling(raw: string, key: string) {
    raw != "" && key != "" && Body(raw, key).Some? && Dangling(Body(raw, key).value)
  }

  // ---- The loop of the implementation ----

  method ExtractJSONStringField(raw: string, key: string) returns (text: string, done: bool)
    ensures (text, done) == Extract(raw, key)
  {
    hide Scan;
    if raw == "" || key == "" {
      return "", false;
    }
    var idx := IndexOf(raw, Needle(key));
    if idx.None? {
      return "", false;
    }
    IndexFits(raw, Needle(key));
    var body := ValueStart(raw[idx.value + |Needle(key)|..]);
    if body.None? {
      return "", false;
    }
    text, done := ReadValue(body.value);
  }

  /** Steps over `: "`, with blanks around the colon. */
  method ValueStart(rest: string) returns (body: Option<string>)
    ensures body == AfterKey(rest)
  {
    var i := SkipBlanksFrom(rest, 0);
    assert rest[0..] == rest;
    if i >= |rest| || rest[i] != ':' {
      return None;
    }
    assert SkipJsonBlanks(rest)[1..] == rest[i + 1..];
    i := SkipBlanksFrom(rest, i + 1);
    if i >= |rest| || rest[i] != '"' {
      return None;
    }
    body := Some(rest[i + 1..]);
  }

  method SkipBlanksFrom(s: string, start: nat) returns (i: nat)
    requires start <= |s|
    ensures start <= i <= |s|
    ensures SkipJsonBlanks(s[start..]) == s[i..]
  {
    i := start;
    while i < |s| && JsonBlank(s[i])
      invariant start <= i <= |s|
      invariant SkipJsonBlanks(s[start..]) == SkipJsonBlanks(s[i..])
    {
      assert s[i..][1..] == s[i + 1..];
      i := i + 1;
    }
  }

  /** Reading from position `i` is reading one token and then the rest. */
  lemma ScanFrom(s: string, i: nat)
    requires i < |s|
    ensures
      match NextToken(s[i..])
      case Piece(text, width) =>
        Scan(s[i..]).0 == text + Scan(s[i + width..]).0 && Scan(s[i..]).1 == Scan(s[i + width..]).1
      case Close => Scan(s[i..]) == ("", true)
      case Cut => Scan(s[i..]) == ("", false)
  {
    match NextToken(s[i..])
    case Piece(text, width) => assert s[i..][width..] == s[i + width..];
    case _ =>
  }

  function Unescaped(nc: char): char {
    if nc == 'n' then '\n' else if nc == 't' then '\t' else if nc == 'r' then '\r' else nc
  }

  /** The token at position `i`, read off the characters there. */
  lemma TokenAt(rest: string, i: nat)
    requires i < |rest|
    ensures
      var escape := rest[i] == '\\' && i + 1 < |rest|;
      NextToken(rest[i..]) ==
        if escape && rest[i + 1] == 'u' && i + 5 >= |rest| then Cut
        else if escape && rest[i + 1] == 'u' then
          Piece(if Hex4(rest[i + 2..i + 6]).Some? then RuneText(Hex4(rest[i + 2..i + 6]).value) else "", 6)
        else if escape then Piece([Unescaped(rest[i + 1])], 2)
        else if rest[i] == '"' then Close
        else Piece([rest[i]], 1)
  {
    var s := rest[i..];
    assert s[0] == rest[i];
    if i + 1 < |rest| { assert s[1] == rest[i + 1]; }
    if i + 5 < |rest| { assert s[2..6] == rest[i + 2..i + 6]; }
  }

  /** Reading from position `i`, read off the characters there. */
  lemma ScanAt(rest: string, i: nat)
    requires i < |rest|
    ensures
      var escape := rest[i] == '\\' && i + 1 < |rest|;
      if escape && rest[i + 1] == 'u' && i + 5 >= |rest| then Scan(rest[i..]) == ("", false)
      else if escape && rest[i + 1] == 'u' then
        var code := Hex4(rest[i + 2..i + 6]);
        ReadsOn(rest, i, if code.Some? then RuneText(code.value) else "", i + 6)
      else if escape then ReadsOn(rest, i, [Unescaped(rest[i + 1])], i + 2)
      else if rest[i] == '"' then Scan(rest[i..]) == ("", true)
      else ReadsOn(rest, i, [rest[i]], i + 1)
  {
    hide Scan, NextToken, Hex4, RuneText, Unescaped;
    TokenAt(rest, i);
    ScanFrom(rest, i);
  }

  /** From position `i`, `text` is read and then whatever is read from position `j`. */
  predicate ReadsOn(rest: string, i: nat, text: string, j: nat) {
    && i <= j <= |rest|
    && Scan(rest[i..]).0 == text + Scan(rest[j..]).0 && Scan(rest[i..]).1 == Scan(rest[j..]).1
  }

  lemma ReadMore(rest: string, text: string, i: nat, more: string, j: nat)
    requires i <= |rest| && ReadsOn(rest, 0, text, i) && ReadsOn(rest, i, more, j)
    ensures ReadsOn(rest, 0, text + more, j)
  {
  }

  method ReadValue(rest: string) returns (text: string, closed: bool)
    ensures text == Scan(rest).0 && closed == Scan(rest).1
  {
    hide Scan, ReadsOn, Hex4, RuneText, Unescaped;
    var i := 0;
    text, closed := "", false;
    NothingRead(rest);
    while i < |rest|
      invariant 0 <= i <= |rest| && ReadsOn(rest, 0, text, i)
      invariant !closed
      decreases |rest| - i
    {
      var c := rest[i];
      ScanAt(rest, i);
      ghost var was, at := text, i;
      if c == '\\' && i + 1 < |rest| {
        var nc := rest[i + 1];
        if nc == 'u' {
          if i + 5 >= |rest| {
            ReadsToEnd(rest, text, i);
            return text, false;
          }
          var code := Hex4(rest[i + 2..i + 6]);
          if code.Some? {
            text := text + RuneText(code.value);
          } else {
            assert text == text + "";
          }
          i := i + 6;
          ReadMore(rest, was, at, if code.Some? then RuneText(code.value) else "", i);
        } else {
          text := text + [Unescaped(nc)];
          i := i + 2;
          ReadMore(rest, was, at, [Unescaped(nc)], i);
        }
        continue;
      }
      if c == '"' {
        ReadsToEnd(rest, text, i);
        return text, true;
      }
      text := text + [c];
      i := i + 1;
      ReadMore(rest, was, at, [c], i);
    }
    ScanOfNothing(rest, i);
    ReadsToEnd(rest, text, i);
  }

  lemma NothingRead(rest: string)
    ensures ReadsOn(rest, 0, "", 0)
  {
    assert rest[0..] == rest && "" + Scan(rest).0 == Scan(rest).0;
  }

  lemma ReadsToEnd(rest: string, text: string, i: nat)
    requires i <= |rest| && ReadsOn(rest, 0, text, i) && Scan(rest[i..]).0 == ""
    ensures Scan(rest) == (text, Scan(rest[i..]).1)
  {
    assert rest[0..] == rest && text + "" == text;
  }

  lemma ScanOfNothing(rest: string, i: nat)
    requires i == |rest|
    ensures Scan(rest[i..]) == ("", false)
  {
  }

  // ---- Growing text ----

  lemma {:induction false} IndexStays(s: string, t: string, needle: string)
    requires IndexOf(s, needle).Some?
    ensures IndexOf(s + t, needle) == IndexOf(s, needle)
  {
    if needle <= s {
      assert needle <= s + t;
    } else {
      IndexFits(s[1..], needle);
      assert (s + t)[1..] == s[1..] + t;
      IndexStays(s[1..], t, needle);
      assert (s + t)[..|needle|] == s[..|needle|];
    }
  }

  lemma {:induction false} SkipStays(s: string, t: string)
    requires SkipJsonBlanks(s) != []
    ensures SkipJsonBlanks(s + t) == SkipJsonBlanks(s) + t
  {
    if s != [] && JsonBlank(s[0]) {
      assert (s + t)[1..] == s[1..] + t;
      SkipStays(s[1..], t);
    }
  }

  /** Once the value has started, more text only lengthens its body. */
  lemma BodyGrows(raw: string, s: string, key: string)
    requires Body(raw, key).Some?
    ensures Body(raw + s, key) == Some(Body(raw, key).value + s)
  {
    hide SkipJsonBlanks, IndexOf;
    var n := Needle(key);
    IndexStays(raw, s, n);
    IndexFits(raw, n);
    var i := IndexOf(raw, n).value + |n|;
    assert (raw + s)[i..] == raw[i..] + s;
    var rest := raw[i..];
    SkipStays(rest, s);
    var colon := SkipJsonBlanks(rest);
    assert (colon + s)[1..] == colon[1..] + s;
    SkipStays(colon[1..], s);
    var quote := SkipJsonBlanks(colon[1..]);
    assert (quote + s)[1..] == quote[1..] + s;
  }

  /** A token is settled as soon as it is neither cut short nor a lone backslash. */
  lemma TokenStays(s: string, t: string)
    requires s != [] && s != "\\" && NextToken(s) != Cut
    ensures NextToken(s + t) == NextToken(s)
  {
    if s[0] == '\\' {
      assert |s| > 1;
      if s[1] == 'u' { assert (s + t)[2..6] == s[2..6]; }
    }
  }

  lemma {:induction false} ScanGrows(s: string, t: string)
    requires !Dangling(s)
    ensures Scan(s).0 <= Scan(s + t).0
    ensures Scan(s).1 ==> Scan(s + t) == Scan(s)
    decreases |s|
  {
    if s != [] && NextToken(s) != Cut {
      TokenStays(s, t);
      if NextToken(s).Piece? {
        var w := NextToken(s).width;
        assert (s + t)[w..] == s[w..] + t;
        ScanGrows(s[w..], t);
      }
    }
  }

  /** The extractor is monotone in the text that has arrived, unless the value ends on a lone backslash; and once the
      closing quote has been read the result never changes. */
  lemma ExtractIsMonotone(raw: string, s: string, key: string)
    requires !EndsDangling(raw, key)
    ensures Extract(raw, key).0 <= Extract(raw + s, key).0
    ensures Extract(raw, key).1 ==> Extract(raw + s, key) == Extract(raw, key)
  {
    if raw != "" && key != "" && Body(raw, key).Some? {
      BodyGrows(raw, s, key);
      ScanGrows(Body(raw, key).value, s);
    }
  }

  // ---- The exception, exactly ----

  /** The first character that reading `s` yields. */
  function FirstRead(s: string): Option<char> {
    if s == [] || !NextToken(s).Piece? then None
    else if NextToken(s).text == [] then FirstRead(s[NextToken(s).width..])
    else Some(NextToken(s).text[0])
  }

  lemma {:induction false} FirstReadStartsScan(s: string)
    ensures FirstRead(s) == if Scan(s).0 == [] then None else Some(Scan(s).0[0])
  {
    if s != [] && NextToken(s).Piece? {
      FirstReadStartsScan(s[NextToken(s).width..]);
    }
  }

  lemma LoneBackslash()
    ensures Scan("\\") == ("\\", false)
  {
    assert "\\"[1..] == "";
    assert "\\" + "" == "\\";
  }

  lemma {:induction false} DanglingScan(s: string, t: string)
    requires Dangling(s) && t != []
    ensures Scan(s).0 <= Scan(s + t).0 <==> FirstRead("\\" + t) == Some('\\')
    decreases |s|
  {
    hide NextToken, Hex4, RuneText;
    if s == "\\" {
      LoneBackslash();
      FirstReadStartsScan("\\" + t);
    } else {
      TokenStays(s, t);
      var w := NextToken(s).width;
      assert (s + t)[w..] == s[w..] + t;
      DanglingScan(s[w..], t);
      var text := NextToken(s).text;
      var a, b := Scan(s[w..]).0, Scan(s[w..] + t).0;
      assert (text + a <= text + b) <==> a <= b by {
        assert (text + a)[|text|..] == a;
        assert (text + b)[|text|..] == b;
        if text + a <= text + b { assert a == (text + b)[|text|..|text + a|]; }
      }
    }
  }

  /** What a cut escape changes is only the backslash shown for it. */
  lemma {:induction false} DanglingShowsABackslash(s: string, t: string) returns (before: string)
    requires Dangling(s)
    ensures Scan(s).0 == before + "\\" && before <= Scan(s + t).0
    decreases |s|
  {
    if s == "\\" {
      before := "";
      assert s[1..] == [] && Scan(s).0 == "\\";
      assert "" + "\\" == "\\";
    } else {
      TokenStays(s, t);
      var token := NextToken(s);
      assert (s + t)[token.width..] == s[token.width..] + t;
      var rest := DanglingShowsABackslash(s[token.width..], t);
      before := token.text + rest;
      assert token.text + (rest + "\\") == before + "\\";
      assert before <= token.text + Scan(s[token.width..] + t).0;
    }
  }

  /** Growing a text keeps everything that was returned for it, except perhaps a backslash at the very end. */
  lemma ExtractKeepsAllButABackslash(raw: string, s: string, key: string) returns (before: string)
    ensures before <= Extract(raw + s, key).0
    ensures Extract(raw, key).0 == before || Extract(raw, key).0 == before + "\\"
  {
    if EndsDangling(raw, key) {
      BodyGrows(raw, s, key);
      before := DanglingShowsABackslash(Body(raw, key).value, s);
    } else {
      ExtractIsMonotone(raw, s, key);
      before := Extract(raw, key).0;
    }
  }

  /** The exact condition for every text: growing by `s` keeps what was returned unless a lone backslash turns out to
      begin an escape that yields something other than a backslash. */
  lemma ExtractKeepsItsPrefixIff(raw: string, s: string, key: string)
    requires s != ""
    ensures Extract(raw, key).0 <= Extract(raw + s, key).0 <==>
            (EndsDangling(raw, key) ==> FirstRead("\\" + s) == Some('\\'))
  {
    if EndsDangling(raw, key) {
      BodyGrows(raw, s, key);
      DanglingScan(Body(raw, key).value, s);
    } else {
      ExtractIsMonotone(raw, s, key);
    }
  }

  // ---- Reading undoes printing ----

  const LOWER_HEX := "0123456789abcdef"
  const UPPER_HEX := "0123456789ABCDEF"

  /** `c` is the hexadecimal digit of value `d`, in either case. */
  predicate IsHexDigitOf(c: char, d: nat)
    requires d < 16
  {
    c == LOWER_HEX[d] || c == UPPER_HEX[d]
  }

  /** `h` is `n` written with four hexadecimal digits. */
  predicate Spells(h: string, n: nat) {
    && |h| == 4 && n < 0x10000
    && IsHexDigitOf(h[0], n / 4096) && IsHexDigitOf(h[1], n / 256 % 16)
    && IsHexDigitOf(h[2], n / 16 % 16) && IsHexDigitOf(h[3], n % 16)
  }

  lemma HexDigitIff(c: char, d: nat)
    requires d < 16
    ensures HexDigit(c) == Some(d) <==> IsHexDigitOf(c, d)
  {
  }

  lemma HexByteIff(high: char, low: char, n: nat)
    requires n < 256
    ensures HexByte(high, low) == Some(n) <==> IsHexDigitOf(high, n / 16) && IsHexDigitOf(low, n % 16)
  {
    hide HexDigit, IsHexDigitOf;
    HexDigitIff(high, n / 16);
    HexDigitIff(low, n % 16);
  }

  /** Reading four digits undoes writing them, for every number, and nothing else is read. */
  lemma Hex4Iff(h: string, n: nat)
    requires |h| == 4 && n < 0x10000
    ensures Hex4(h) == Some(n) <==> Spells(h, n)
  {
    hide HexByte, IsHexDigitOf;
    HexByteIff(h[0], h[1], n / 256);
    HexByteIff(h[2], h[3], n % 256);
    assert n / 256 / 16 == n / 4096 && n % 256 / 16 == n / 16 % 16 && n % 256 % 16 == n % 16;
  }

  lemma HexDigitFailsIff(c: char)
    ensures HexDigit(c) == None <==> c !in "0123456789abcdefABCDEF"
  {
  }

  /** Four characters are no number exactly when one of them is no hexadecimal digit. */
  lemma Hex4FailsIff(h: string)
    requires |h| == 4
    ensures Hex4(h) == None <==> exists i :: 0 <= i < 4 && h[i] !in "0123456789abcdefABCDEF"
  {
    hide HexDigit;
    HexDigitFailsIff(h[0]);
    HexDigitFailsIff(h[1]);
    HexDigitFailsIff(h[2]);
    HexDigitFailsIff(h[3]);
  }

  /** How one character of a value is written: as it is, behind a backslash, or by its code. */
  datatype Form = Plain | Short | Unicode(digits: string)

  /** A code that is half of a surrogate pair stands for the replacement character. */
  ghost predicate Fits(c: char, f: Form) {
    match f
    case Plain => c != '"' && c != '\\'
    case Short => c in "\n\t\r" || c !in "ntru"
    case Unicode(digits) =>
      Spells(digits, c as nat) || (c == '\U{FFFD}' && exists n :: 0xD800 <= n < 0xE000 && Spells(digits, n))
  }

  function Written(c: char, f: Form): string {
    match f
    case Plain => [c]
    case Short => ['\\', if c == '\n' then 'n' else if c == '\t' then 't' else if c == '\r' then 'r' else c]
    case Unicode(digits) => "\\u" + digits
  }

  ghost predicate AllFit(value: string, forms: seq<Form>) {
    |forms| == |value| && forall i :: 0 <= i < |value| ==> Fits(value[i], forms[i])
  }

  function Print(value: string, forms: seq<Form>): string
    requires |forms| == |value|
  {
    if value == [] then [] else Written(value[0], forms[0]) + Print(value[1..], forms[1..])
  }

  lemma TokenOfWritten(c: char, f: Form, rest: string)
    requires Fits(c, f)
    ensures NextToken(Written(c, f) + rest) == Piece([c], |Written(c, f)|)
  {
    hide Hex4, Spells;
    var s := Written(c, f) + rest;
    match f
    case Plain => assert s[0] == c;
    case Short => assert s[0] == '\\' && s[1] == Written(c, f)[1];
    case Unicode(digits) =>
      CodeReads(c, digits);
      assert s[0] == '\\' && s[1] == 'u' && s[2..6] == digits;
  }

  lemma CodeReads(c: char, digits: string)
    requires Fits(c, Unicode(digits))
    ensures |digits| == 4 && Hex4(digits).Some? && RuneText(Hex4(digits).value) == [c]
  {
    hide Hex4;
    if Spells(digits, c as nat) {
      Hex4Iff(digits, c as nat);
    } else {
      var n :| 0xD800 <= n < 0xE000 && Spells(digits, n);
      Hex4Iff(digits, n);
    }
  }

  /** An escape with a character that is no digit is read as nothing; one that is cut short stops the reading. */
  lemma BadEscapeIsSkipped(h: string, rest: string)
    requires |h| == 4 && exists i :: 0 <= i < 4 && h[i] !in "0123456789abcdefABCDEF"
    ensures Scan("\\u" + h + rest) == Scan(rest)
  {
    hide Hex4;
    Hex4FailsIff(h);
    var s := "\\u" + h + rest;
    assert s[2..6] == h && s[6..] == rest;
    assert "" + Scan(rest).0 == Scan(rest).0;
  }

  lemma ShortEscapeStops(h: string)
    requires |h| < 4
    ensures Scan("\\u" + h) == ("", false)
  {
  }

  lemma {:induction false} NoKeyNoIndex(s: string, needle: string)
    requires needle != "" && forall i :: 0 <= i <= |s| ==> !(needle <= s[i..])
    ensures IndexOf(s, needle) == None
  {
    assert s[0..] == s;
    if s != [] {
      forall i | 0 <= i <= |s[1..]| ensures !(needle <= s[1..][i..]) { assert s[1..][i..] == s[i + 1..]; }
      NoKeyNoIndex(s[1..], needle);
    }
  }

  lemma {:induction false} ScanOfPrint(value: string, forms: seq<Form>, tail: string)
    requires AllFit(value, forms)
    ensures Scan(Print(value, forms) + "\"" + tail) == (value, true)
  {
    if value == [] {
      assert Print(value, forms) + "\"" + tail == "\"" + tail;
    } else {
      var w := Written(value[0], forms[0]);
      var rest := Print(value[1..], forms[1..]) + "\"" + tail;
      assert Print(value, forms) + "\"" + tail == w + rest;
      TokenOfWritten(value[0], forms[0], rest);
      assert (w + rest)[|w|..] == rest;
      ScanOfPrint(value[1..], forms[1..], tail);
      assert [value[0]] + value[1..] == value;
    }
  }

  /** `needle` does not occur in `s` before position `n`. */
  ghost predicate NotBefore(s: string, needle: string, n: nat)
    requires n <= |s|
  {
    forall i :: 0 <= i < n ==> !(needle <= s[i..])
  }

  lemma {:induction false} IndexOfFirst(s: string, before: string, needle: string, after: string)
    requires s == before + needle + after && NotBefore(s, needle, |before|)
    ensures IndexOf(s, needle) == Some(|before|)
  {
    if before == [] {
      assert needle <= s;
    } else {
      assert s[0..] == s;
      assert s[1..] == before[1..] + needle + after;
      forall i | 0 <= i < |before[1..]| ensures !(needle <= s[1..][i..]) { assert s[1..][i..] == s[i + 1..]; }
      IndexOfFirst(s[1..], before[1..], needle, after);
    }
  }

  lemma {:induction false} SkipOnlyBlanks(blanks: string, rest: string)
    requires (forall c :: c in blanks ==> JsonBlank(c)) && rest != [] && !JsonBlank(rest[0])
    ensures SkipJsonBlanks(blanks + rest) == rest
  {
    if blanks == [] {
      assert blanks + rest == rest;
    } else {
      assert (blanks + rest)[1..] == blanks[1..] + rest;
      SkipOnlyBlanks(blanks[1..], rest);
    }
  }

  lemma AfterPrintedKey(gap1: string, gap2: string, body: string)
    requires (forall c :: c in gap1 ==> JsonBlank(c)) && (forall c :: c in gap2 ==> JsonBlank(c))
    ensures AfterKey(gap1 + (":" + (gap2 + ("\"" + body)))) == Some(body)
  {
    var quote := "\"" + body;
    var colon := ":" + (gap2 + quote);
    SkipOnlyBlanks(gap1, colon);
    assert colon[1..] == gap2 + quote;
    SkipOnlyBlanks(gap2, quote);
    assert quote[1..] == body;
  }

  /** Where the quoted key does not occur there is nothing to read. */
  lemma NothingWithoutKey(raw: string, key: string)
    requires forall i :: 0 <= i <= |raw| ==> !("\"" + key + "\"" <= raw[i..])
    ensures Extract(raw, key) == ("", false)
  {
    NoKeyNoIndex(raw, Needle(key));
  }

  /** A JSON text: anything, the key, a colon, the printed value and anything behind it. */
  function Document(before: string, key: string, gap1: string, gap2: string, printed: string, tail: string): string {
    before + ("\"" + key + "\"") + (gap1 + (":" + (gap2 + ("\"" + (printed + "\"" + tail)))))
  }

  predicate IsGap(s: string) {
    forall c :: c in s ==> c in " \t\n\r"
  }

  /**
    A value printed in any of the supported ways, after the first occurrence of the key and with any text behind it,
    is read back exactly and completely.
  */
  lemma ExtractOfPrint(before: string, key: string, gap1: string, gap2: string, value: string, forms: seq<Form>,
    tail: string)
    requires key != "" && AllFit(value, forms)
    requires IsGap(gap1) && IsGap(gap2)
    requires NotBefore(Document(before, key, gap1, gap2, Print(value, forms), tail), "\"" + key + "\"", |before|)
    ensures Extract(Document(before, key, gap1, gap2, Print(value, forms), tail), key) == (value, true)
  {
    var body := Print(value, forms) + "\"" + tail;
    var after := gap1 + (":" + (gap2 + ("\"" + body)));
    var raw := Document(before, key, gap1, gap2, Print(value, forms), tail);
    assert raw == before + Needle(key) + after;
    IndexOfFirst(raw, before, Needle(key), after);
    assert raw[|before| + |Needle(key)|..] == after;
    AfterPrintedKey(gap1, gap2, body);
    ScanOfPrint(value, forms, tail);
  }
}

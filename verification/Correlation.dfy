/**
 The correlation id that ties an asynchronous dial event to one call attempt:
 `camp:<campaign>:contact:<contact>:attempt:<n>`.
 */
module Correlation {
  import opened Text

  const UINT64_LIMIT := 0x1_0000_0000_0000_0000
  const INT64_LIMIT := 0x8000_0000_0000_0000

  datatype Key = Key(campaign: nat, contact: nat, attempt: nat)

  predicate ValidKey(k: Key) {
    && 0 < k.campaign < UINT64_LIMIT
    && 0 < k.contact < UINT64_LIMIT
    && 0 < k.attempt < INT64_LIMIT
  }

  function Print(k: Key): string {
    "camp:" + (Decimal(k.campaign) + (":contact:" + (Decimal(k.contact) + (":attempt:" + Decimal(k.attempt)))))
  }

  // ---- fmt.Sscanf on "camp:%d:contact:%d:attempt:%d" ----

  datatype Scan = Scanned(value: int, rest: string) | ScanFailed

  /** Blanks that a `%d` verb skips; a newline is an error instead. */
  predicate ScanBlank(c: char) {
    IsSpace(c) && c != '\n'
  }

  function SkipBlanks(s: string): string {
    if s != [] && ScanBlank(s[0]) then SkipBlanks(s[1..]) else s
  }

  function ScanLiteral(s: string, literal: string): Scan {
    if literal <= s then Scanned(0, s[|literal|..]) else ScanFailed
  }

  function ScanUint(s: string): Scan {
    var t := SkipBlanks(s);
    var n := DigitRun(t);
    if n == 0 || NumeralValue(t[..n]) >= UINT64_LIMIT then ScanFailed
    else Scanned(NumeralValue(t[..n]), t[n..])
  }

  function ScanInt(s: string): Scan {
    var t := SkipBlanks(s);
    var sign: int := if t != [] && t[0] == '-' then -1 else 1;
    var u := if t != [] && (t[0] == '-' || t[0] == '+') then t[1..] else t;
    var n := DigitRun(u);
    if n == 0 then ScanFailed
    else
      var v := sign * NumeralValue(u[..n]);
      if -INT64_LIMIT <= v < INT64_LIMIT then Scanned(v, u[n..]) else ScanFailed
  }

  /** A literal followed by an unsigned number. */
  function ScanField(s: string, literal: string): Scan {
    var l := ScanLiteral(s, literal);
    if l.ScanFailed? then ScanFailed else ScanUint(l.rest)
  }

  /** The three numbers, or nothing; whatever follows the last number is ignored. */
  function Sscanf(v: string): Option<(int, int, int)> {
    var c := ScanField(v, "camp:");
    if c.ScanFailed? then None else
    var ct := ScanField(c.rest, ":contact:");
    if ct.ScanFailed? then None else
    var l := ScanLiteral(ct.rest, ":attempt:");
    if l.ScanFailed? then None else
    var a := ScanInt(l.rest);
    if a.ScanFailed? then None else Some((c.value, ct.value, a.value))
  }

  function Parse(v: string): Option<Key> {
    var parts := Split(TrimSpace(v), ':');
    if |parts| != 6 || parts[0] != "camp" || parts[2] != "contact" || parts[4] != "attempt" then None
    else
      match Sscanf(v)
      case None => None
      case Some((c, ct, a)) => if c <= 0 || ct <= 0 || a < 1 then None else Some(Key(c, ct, a))
  }

  // ---- Printing, then parsing ----

  /** Reading a printed number stops where its digits end. */
  lemma NumeralStops(n: nat, rest: string)
    requires rest == [] || !IsDigit(rest[0])
    ensures
      var s, d := Decimal(n) + rest, |Decimal(n)|;
      && DigitRun(s) == d && s[..d] == Decimal(n) && s[d..] == rest
      && NumeralValue(Decimal(n)) == n && d > 0 && SkipBlanks(s) == s && s[0] != '-' && s[0] != '+'
  {
    hide Decimal, NumeralValue, DigitRun;
    DecimalValue(n);
    DigitRunOfNumeral(Decimal(n), rest);
    assert Decimal(n)[0] in Decimal(n);
  }

  lemma ScanUintOfDecimal(n: nat, rest: string)
    requires n < UINT64_LIMIT
    requires rest == [] || !IsDigit(rest[0])
    ensures ScanUint(Decimal(n) + rest) == Scanned(n, rest)
  {
    hide Decimal, NumeralValue, DigitRun, SkipBlanks;
    NumeralStops(n, rest);
  }

  lemma ScanFieldOfDecimal(literal: string, n: nat, rest: string)
    requires n < UINT64_LIMIT
    requires rest == [] || !IsDigit(rest[0])
    ensures ScanField(literal + (Decimal(n) + rest), literal) == Scanned(n, rest)
  {
    hide Decimal, ScanUint;
    var s := Decimal(n) + rest;
    assert (literal + s)[|literal|..] == s;
    ScanUintOfDecimal(n, rest);
  }

  lemma ScanIntOfDecimal(n: nat, rest: string)
    requires n < INT64_LIMIT
    requires rest == [] || !IsDigit(rest[0])
    ensures ScanInt(Decimal(n) + rest) == Scanned(n, rest)
  {
    hide Decimal, NumeralValue, DigitRun, SkipBlanks;
    NumeralStops(n, rest);
  }

  /** Scanning recovers the three numbers, whatever non-digit text follows them. */
  lemma SscanfOfPrint(k: Key, rest: string)
    requires ValidKey(k)
    requires rest == [] || !IsDigit(rest[0])
    ensures Sscanf(Print(k) + rest) == Some((k.campaign as int, k.contact as int, k.attempt as int))
  {
    hide Decimal, ScanField, ScanInt;
    var r3 := Decimal(k.attempt) + rest;
    var r2 := ":attempt:" + r3;
    var r1 := ":contact:" + (Decimal(k.contact) + r2);
    assert Print(k) + rest == "camp:" + (Decimal(k.campaign) + r1);
    assert r1[0] == ':' && r2[0] == ':';
    ScanFieldOfDecimal("camp:", k.campaign, r1);
    ScanFieldOfDecimal(":contact:", k.contact, r2);
    assert r2[|":attempt:"|..] == r3;
    ScanIntOfDecimal(k.attempt, rest);
  }

  lemma SplitNumberAndLabel(number: string, name: string, rest: string)
    requires ':' !in number && ':' !in name
    ensures Split(number + (([':'] + name + [':']) + rest), ':') == [number, name] + Split(rest, ':')
  {
    var tail := name + [':'] + rest;
    assert number + (([':'] + name + [':']) + rest) == number + [':'] + tail;
    SplitAtSeparator(number, ':', tail);
    SplitAtSeparator(name, ':', rest);
  }

  lemma PartsOfPrint(k: Key)
    ensures Split(Print(k), ':')
         == ["camp", Decimal(k.campaign), "contact", Decimal(k.contact), "attempt", Decimal(k.attempt)]
  {
    var d1, d2, d3 := Decimal(k.campaign), Decimal(k.contact), Decimal(k.attempt);
    var t2 := d2 + (":attempt:" + d3);
    var t1 := d1 + (":contact:" + t2);
    assert Print(k) == "camp:" + t1;
    assert "camp:" == "camp" + [':'];
    SplitAtSeparator("camp", ':', t1);
    assert ":contact:" == [':'] + "contact" + [':'];
    SplitNumberAndLabel(d1, "contact", t2);
    assert ":attempt:" == [':'] + "attempt" + [':'];
    SplitNumberAndLabel(d2, "attempt", d3);
    SplitWithoutSeparator(d3, ':');
  }

  lemma PrintEnds(k: Key)
    ensures Print(k) != [] && Print(k)[0] == 'c' && IsDigit(Print(k)[|Print(k)| - 1])
    ensures TrimSpace(Print(k)) == Print(k)
  {
    var d := Decimal(k.attempt);
    var init := "camp:" + (Decimal(k.campaign) + (":contact:" + (Decimal(k.contact) + ":attempt:")));
    assert Print(k) == init + d;
    assert Print(k)[|Print(k)| - 1] == d[|d| - 1];
  }

  lemma ParseFromParts(v: string, d1: string, d2: string, d3: string, k: Key)
    requires ValidKey(k)
    requires Split(TrimSpace(v), ':') == ["camp", d1, "contact", d2, "attempt", d3]
    requires Sscanf(v) == Some((k.campaign as int, k.contact as int, k.attempt as int))
    ensures Parse(v) == Some(k)
  {
  }

  /** Parsing undoes printing. */
  lemma ParseOfPrint(k: Key)
    requires ValidKey(k)
    ensures Parse(Print(k)) == Some(k)
  {
    ParseAfterPrint(Print(k), Print(k), [], k);
  }

  lemma ParseAfterPrint(v: string, s: string, rest: string, k: Key)
    requires ValidKey(k) && s == Print(k) && v == s + rest && TrimSpace(v) == TrimSpace(s)
    requires rest == [] || !IsDigit(rest[0])
    ensures Parse(v) == Some(k)
  {
    assert TrimSpace(s) == s by { PrintEnds(k); }
    PartsOfPrint(k);
    SscanfOfPrint(k, rest);
    ParseFromParts(v, Decimal(k.campaign), Decimal(k.contact), Decimal(k.attempt), k);
  }

  /** Two attempts never share a correlation id. */
  lemma PrintIsInjective(k: Key, l: Key)
    requires ValidKey(k) && ValidKey(l) && Print(k) == Print(l)
    ensures k == l
  {
    ParseOfPrint(k);
    ParseOfPrint(l);
  }

  /** The shape is checked on the trimmed text but the numbers are scanned from the untrimmed one, so
      trailing whitespace is tolerated and leading whitespace is not. */
  lemma WhitespaceAroundAKey(k: Key)
    requires ValidKey(k)
    ensures Parse(Print(k) + " ") == Some(k)
    ensures Parse(" " + Print(k)) == None
  {
    var s := Print(k);
    assert TrimSpace(s + " ") == TrimSpace(s) by {
      PrintEnds(k);
      TrimTrailingBlank(s);
    }
    ParseAfterPrint(s + " ", s, " ", k);
    LeadingBlankFails(s);
  }

  lemma TrimTrailingBlank(s: string)
    requires s != [] && !IsSpace(s[0])
    ensures TrimSpace(s + " ") == TrimSpace(s)
  {
    assert (s + " ")[..|s|] == s;
    assert (s + " ")[|s|] == ' ';
  }

  lemma LeadingBlankFails(s: string)
    ensures Parse(" " + s) == None
  {
    assert (" " + s)[0] == ' ' && "camp:"[0] == 'c';
    assert !("camp:" <= " " + s);
  }

  /** What a printed key looks like. */
  lemma PrintLooksLike()
    ensures Print(Key(7, 30, 4)) == "camp:7:contact:30:attempt:4"
  {
    hide Decimal;
    DecimalsLookLike();
    assert ":contact:" + ("30" + (":attempt:" + "4")) == ":contact:30:attempt:4";
  }

  lemma DecimalsLookLike()
    ensures Decimal(7) == "7" && Decimal(30) == "30" && Decimal(4) == "4"
  {
    assert Decimal(3) == "3";
  }

  // ---- What is accepted ----

  predicate IsDigits(s: string) {
    s != [] && forall c <- s :: IsDigit(c)
  }

  predicate IsBlanks(s: string) {
    forall c <- s :: IsSpace(c) && c != '\n'
  }

  lemma {:induction false} SkippedAreBlanks(s: string) returns (blanks: string)
    ensures s == blanks + SkipBlanks(s) && IsBlanks(blanks)
  {
    if s != [] && ScanBlank(s[0]) {
      blanks := SkippedAreBlanks(s[1..]);
      blanks := [s[0]] + blanks;
    } else {
      blanks := "";
    }
  }

  lemma FieldIs(s: string, literal: string) returns (blanks: string, digits: string)
    requires ScanField(s, literal).Scanned?
    ensures var f := ScanField(s, literal);
      && s == literal + (blanks + (digits + f.rest)) && IsBlanks(blanks) && IsDigits(digits)
      && f.value == NumeralValue(digits) && f.value < UINT64_LIMIT
  {
    var after := ScanLiteral(s, literal).rest;
    assert s == literal + after;
    blanks := SkippedAreBlanks(after);
    var t := SkipBlanks(after);
    var n := DigitRun(t);
    digits := t[..n];
    assert t == digits + t[n..];
    assert blanks + (digits + t[n..]) == after;
  }

  /** A number of at least one has no minus sign. */
  lemma PositiveIs(s: string)
    requires ScanInt(s).Scanned? && ScanInt(s).value >= 1
    ensures
      var t := SkipBlanks(s);
      var u := if t != [] && t[0] == '+' then t[1..] else t;
      && DigitRun(u) > 0 && NumeralValue(u[..DigitRun(u)]) < INT64_LIMIT
      && ScanInt(s) == Scanned(NumeralValue(u[..DigitRun(u)]), u[DigitRun(u)..])
  {
    hide SkipBlanks, NumeralValue, DigitRun;
    var t := SkipBlanks(s);
    if t != [] && t[0] == '-' {
      assert false;
    }
  }

  lemma LastFieldIs(s: string) returns (blanks: string, sign: string, digits: string)
    requires ScanInt(s).Scanned? && ScanInt(s).value >= 1
    ensures var f := ScanInt(s);
      && s == blanks + (sign + (digits + f.rest)) && IsBlanks(blanks) && sign in ["", "+"] && IsDigits(digits)
      && f.value == NumeralValue(digits) && f.value < INT64_LIMIT
  {
    hide SkipBlanks, NumeralValue, IsBlanks, ScanInt, DigitRun;
    PositiveIs(s);
    blanks := SkippedAreBlanks(s);
    var t := SkipBlanks(s);
    sign := if t != [] && t[0] == '+' then "+" else "";
    var u := t[|sign|..];
    assert t == sign + u;
    digits := u[..DigitRun(u)];
    assert u == digits + u[DigitRun(u)..];
  }

  /** Three numerals, each behind its label, with blanks or a plus sign where `fmt.Sscanf` allows them. */
  datatype Shape = Shape(
    blanks1: string, campaign: string, blanks2: string, contact: string,
    blanks3: string, sign: string, attempt: string, rest: string)

  function TextOf(f: Shape): string {
    "camp:" + (f.blanks1 + (f.campaign
    + (":contact:" + (f.blanks2 + (f.contact
    + (":attempt:" + (f.blanks3 + (f.sign + (f.attempt + f.rest)))))))))
  }

  predicate IsShape(f: Shape) {
    && IsBlanks(f.blanks1) && IsBlanks(f.blanks2) && IsBlanks(f.blanks3) && f.sign in ["", "+"]
    && IsDigits(f.campaign) && IsDigits(f.contact) && IsDigits(f.attempt)
  }

  function KeyIn(f: Shape): Key
    requires IsShape(f)
  {
    Key(NumeralValue(f.campaign), NumeralValue(f.contact), NumeralValue(f.attempt))
  }

  /** Whatever is accepted has that shape, with numbers that fit their types, and between its colons, once trimmed, the
      shape of a printed key. */
  lemma AcceptedIs(v: string) returns (f: Shape)
    requires Parse(v).Some?
    ensures v == TextOf(f) && IsShape(f) && ValidKey(KeyIn(f)) && Parse(v) == Some(KeyIn(f))
    ensures var parts := Split(TrimSpace(v), ':');
      |parts| == 6 && parts[0] == "camp" && parts[2] == "contact" && parts[4] == "attempt"
  {
    hide Parse, ScanField, ScanInt, ScanLiteral, Split, TrimSpace, NumeralValue, IsBlanks, IsDigits;
    AcceptedParts(v);
    var c := ScanField(v, "camp:");
    var ct := ScanField(c.rest, ":contact:");
    var l := ScanLiteral(ct.rest, ":attempt:");
    var b1, d1 := FieldIs(v, "camp:");
    var b2, d2 := FieldIs(c.rest, ":contact:");
    var b3, sign, d3 := LastFieldIs(l.rest);
    f := Shape(b1, d1, b2, d2, b3, sign, d3, ScanInt(l.rest).rest);
  }

  lemma AcceptedParts(v: string)
    requires Parse(v).Some?
    ensures var parts := Split(TrimSpace(v), ':');
      |parts| == 6 && parts[0] == "camp" && parts[2] == "contact" && parts[4] == "attempt"
    ensures
      var c := ScanField(v, "camp:");
      c.Scanned? && c.value > 0
      && var ct := ScanField(c.rest, ":contact:");
      ct.Scanned? && ct.value > 0
      && var l := ScanLiteral(ct.rest, ":attempt:");
      l.Scanned? && ct.rest == ":attempt:" + l.rest
      && var a := ScanInt(l.rest);
      a.Scanned? && a.value >= 1 && Parse(v) == Some(Key(c.value, ct.value, a.value))
  {
    hide ScanField, ScanInt, Split, TrimSpace;
  }
}

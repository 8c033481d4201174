/** Which of the texts that read as a value is its canonical text: the shortest strings, in literal characters. */
module CanonicalForm {
  import opened Wrappers
  import opened JsText
  import opened JsonTree
  import opened CanonicalJson

  /** No surrogate stands without its other half, so the text survives as UTF-8. */
  predicate WellPaired(t: JsString) {
    t == [] ||
    if 0xD800 <= t[0] < 0xDC00 then |t| > 1 && 0xDC00 <= t[1] < 0xE000 && WellPaired(t[2..])
    else !(0xDC00 <= t[0] < 0xE000) && WellPaired(t[1..])
  }

  /** The hexadecimal digits of every escape are lower case. */
  predicate LowerCase(t: JsString) {
    if |t| < 2 then true
    else if t[0] != BACKSLASH then LowerCase(t[1..])
    else if t[1] != LETTER_U then LowerCase(t[2..])
    else if |t| < 6 then true
    else !CapitalHex(t[2]) && !CapitalHex(t[3]) && !CapitalHex(t[4]) && !CapitalHex(t[5]) && LowerCase(t[6..])
  }

  predicate CapitalHex(c: CodeUnit) {
    0x41 <= c <= 0x46
  }

  /** The text, closed by a quote, reads as the string. */
  predicate ReadsAs(t: JsString, s: JsString) {
    ParseString(t + [QUOTE]) == Some((s, []))
  }

  lemma HexDigitRange(n: int)
    requires 0 <= n < 16
    ensures 0x30 <= HexDigit(n) <= 0x39 || 0x61 <= HexDigit(n) <= 0x66
  {
  }

  lemma UnitClean(u: CodeUnit, t: JsString)
    ensures WellPaired(t) ==> WellPaired(EscapeUnit(u) + t)
    ensures LowerCase(t) ==> LowerCase(EscapeUnit(u) + t)
  {
    var e := EscapeUnit(u);
    if EscapeLetter(u).Some? {
      assert (e + t)[1..][1..] == t && (e + t)[2..] == t;
    } else if |e| == 6 {
      HexDigitRange(u / 0x1000);
      HexDigitRange(u / 0x100 % 16);
      HexDigitRange(u / 0x10 % 16);
      HexDigitRange(u % 16);
      EscapePaired(e, t);
      assert (e + t)[6..] == t && forall i :: 0 <= i < 6 ==> (e + t)[i] == e[i];
    } else {
      assert (e + t)[1..] == t;
      if |e + t| < 2 {
        assert t == [];
      }
    }
  }

  lemma {:induction false} EscapePaired(e: JsString, t: JsString)
    requires forall i :: 0 <= i < |e| ==> e[i] < 0xD800
    ensures WellPaired(t) ==> WellPaired(e + t)
  {
    if e == [] {
      assert e + t == t;
    } else {
      EscapePaired(e[1..], t);
      assert (e + t)[1..] == e[1..] + t;
    }
  }

  lemma PairClean(u: CodeUnit, w: CodeUnit, t: JsString)
    requires 0xD800 <= u < 0xDC00 && 0xDC00 <= w < 0xE000
    ensures WellPaired(t) ==> WellPaired([u, w] + t)
    ensures LowerCase(t) ==> LowerCase([u, w] + t)
  {
    assert ([u, w] + t)[2..] == t && ([u, w] + t)[1..][1..] == t;
    if |t| == 0 {
      assert |([u, w] + t)[1..]| == 1;
    }
  }

  /** Printed strings survive as UTF-8 and have lower-case escapes. */
  lemma {:induction false} EscapeClean(s: JsString)
    ensures WellPaired(Escape(s)) && LowerCase(Escape(s))
    decreases |s|
  {
    if |s| > 1 && HighSurrogate(s[0]) && LowSurrogate(s[1]) {
      EscapeClean(s[2..]);
      PairClean(s[0], s[1], Escape(s[2..]));
      assert s[..2] == [s[0], s[1]];
    } else if s != [] {
      EscapeClean(s[1..]);
      UnitClean(s[0], Escape(s[1..]));
    }
  }

  /** What a text that reads as a non-empty string starts with. */
  datatype Start = Raw | Short | Long

  function StartOf(t: JsString): (k: Start) {
    if t == [] || t[0] != BACKSLASH then Raw else if |t| > 1 && t[1] == LETTER_U then Long else Short
  }

  function Width(k: Start): (n: nat) {
    match k
    case Raw => 1
    case Short => 2
    case Long => 6
  }

  lemma TooShort(t: JsString, s: JsString)
    requires t != [] && (t[0] == QUOTE || Width(StartOf(t)) > |t|)
    ensures !ReadsAs(t, s)
  {
    var text := t + [QUOTE];
    if t[0] == QUOTE {
      assert text[1..] == t[1..] + [QUOTE];
    } else if StartOf(t).Short? {
      assert text[1] == QUOTE && text[2..] == [];
      assert ParseString([]) == None;
    } else {
      ShortHex(t, text);
    }
  }

  /** Reading goes on behind the first unit. */
  lemma ReadsOn(t: JsString, s: JsString)
    requires ReadsAs(t, s) && t != []
    ensures var n := Width(StartOf(t));
            s != [] && n <= |t| && ReadsAs(t[n..], s[1..]) &&
            match StartOf(t)
            case Raw => s[0] == t[0] && t[0] >= 0x20 && t[0] != QUOTE
            case Short => UnescapeLetter(t[1]) == Some(s[0])
            case Long => ParseHex(t[2..]) == Some(s[0])
  {
    if t[0] == QUOTE || Width(StartOf(t)) > |t| {
      TooShort(t, s);
    } else {
      ReadsOnBehind(t, s, t + [QUOTE]);
    }
  }

  lemma ReadsOnBehind(t: JsString, s: JsString, text: JsString)
    requires text == t + [QUOTE] && ParseString(text) == Some((s, [])) && t != []
    requires t[0] != QUOTE && Width(StartOf(t)) <= |t|
    ensures var n := Width(StartOf(t));
            s != [] && ReadsAs(t[n..], s[1..]) &&
            match StartOf(t)
            case Raw => s[0] == t[0] && t[0] >= 0x20
            case Short => UnescapeLetter(t[1]) == Some(s[0])
            case Long => ParseHex(t[2..]) == Some(s[0])
  {
    var n := Width(StartOf(t));
    assert text[n..] == t[n..] + [QUOTE];
    if StartOf(t).Long? {
      HexAhead(t, text);
    }
  }

  lemma HexAhead(t: JsString, text: JsString)
    requires |t| >= 6 && text == t + [QUOTE]
    ensures ParseHex(text[2..]) == ParseHex(t[2..])
  {
    assert text[2..][..4] == t[2..][..4];
  }

  /** The closing quote is no hexadecimal digit. */
  lemma ShortHex(t: JsString, text: JsString)
    requires |t| < 6 && text == t + [QUOTE] && |text| > 1 && t[0] == BACKSLASH && text[1] == LETTER_U
    ensures ParseString(text) == None
  {
    if |t| == 5 {
      assert text[2..][3] == QUOTE;
    }
  }

  lemma EmptyReads(s: JsString)
    requires ReadsAs([], s)
    ensures s == []
  {
    assert [] + [QUOTE] == [QUOTE];
  }

  /******* The shortest text *******/

  lemma HexBack(c: CodeUnit)
    requires HexValue(c).Some? && !CapitalHex(c)
    ensures 0 <= HexValue(c).value < 16 && HexDigit(HexValue(c).value) == c
  {
  }

  lemma DigitsOfSum(a: int, b: int, c: int, d: int)
    requires 0 <= a < 16 && 0 <= b < 16 && 0 <= c < 16 && 0 <= d < 16
    ensures var u := a * 0x1000 + b * 0x100 + c * 0x10 + d;
            u / 0x1000 == a && u / 0x100 % 16 == b && u / 0x10 % 16 == c && u % 16 == d
  {
    var u := a * 0x1000 + b * 0x100 + c * 0x10 + d;
    assert u / 0x10 == a * 0x100 + b * 0x10 + c;
    assert u / 0x100 == a * 0x10 + b;
  }

  /** A lower-case escape of four digits is the one that printing uses. */
  lemma LongBack(t: JsString, u: CodeUnit)
    requires StartOf(t).Long? && |t| >= 6 && ParseHex(t[2..]) == Some(u)
    requires !CapitalHex(t[2]) && !CapitalHex(t[3]) && !CapitalHex(t[4]) && !CapitalHex(t[5])
    ensures t[..6] == UnicodeEscape(u)
  {
    var digits := t[2..];
    assert digits[0] == t[2] && digits[1] == t[3] && digits[2] == t[4] && digits[3] == t[5];
    HexBack(t[2]);
    HexBack(t[3]);
    HexBack(t[4]);
    HexBack(t[5]);
    DigitsOfSum(HexValue(t[2]).value, HexValue(t[3]).value, HexValue(t[4]).value, HexValue(t[5]).value);
  }

  lemma ShortUnit(c: CodeUnit, u: CodeUnit)
    requires UnescapeLetter(c) == Some(u)
    ensures |EscapeUnit(u)| <= 2 && (|EscapeUnit(u)| == 2 ==> EscapeUnit(u) == [BACKSLASH, c])
  {
  }

  lemma LongUnit(u: CodeUnit)
    ensures |EscapeUnit(u)| <= 6 && (|EscapeUnit(u)| == 6 ==> EscapeUnit(u) == UnicodeEscape(u))
  {
  }

  lemma LowerStart(t: JsString)
    requires StartOf(t).Long? && |t| >= 6 && LowerCase(t)
    ensures !CapitalHex(t[2]) && !CapitalHex(t[3]) && !CapitalHex(t[4]) && !CapitalHex(t[5])
  {
  }

  /** Printing a unit takes no more than reading it; if it takes as much, it is the same text. */
  lemma UnitShortest(t: JsString, u: CodeUnit)
    requires StartOf(t) != Raw && Width(StartOf(t)) <= |t|
    requires if StartOf(t).Short? then UnescapeLetter(t[1]) == Some(u) else ParseHex(t[2..]) == Some(u)
    ensures |EscapeUnit(u)| <= Width(StartOf(t))
    ensures |EscapeUnit(u)| == Width(StartOf(t)) && LowerCase(t) ==> t[..Width(StartOf(t))] == EscapeUnit(u)
  {
    if StartOf(t).Short? {
      ShortUnit(t[1], u);
      assert t[..2] == [t[0], t[1]];
    } else {
      LongUnit(u);
      if LowerCase(t) {
        LowerStart(t);
        LongBack(t, u);
      }
    }
  }

  /** Printing unit by unit, except that a pair stays as it is. */
  lemma EscapeStep(s: JsString)
    requires s != []
    ensures if |s| > 1 && HighSurrogate(s[0]) && LowSurrogate(s[1])
            then |Escape(s)| < 6 + |Escape(s[1..])|
            else Escape(s) == EscapeUnit(s[0]) + Escape(s[1..])
  {
    if |s| > 1 && HighSurrogate(s[0]) && LowSurrogate(s[1]) {
      assert s[1..][1..] == s[2..];
    }
  }

  lemma {:induction false} Behind(t: JsString, n: nat)
    requires n <= |t| && forall i :: 0 <= i < n ==> t[i] < 0xD800
    ensures WellPaired(t) ==> WellPaired(t[n..])
  {
    if n == 0 {
      assert t[0..] == t;
    } else {
      Behind(t[1..], n - 1);
      assert t[1..][n - 1..] == t[n..];
    }
  }

  lemma LowerBehind(t: JsString)
    requires t != [] && Width(StartOf(t)) <= |t|
    ensures LowerCase(t) ==> LowerCase(t[Width(StartOf(t))..])
  {
  }

  lemma HexIsAscii(t: JsString)
    requires |t| >= 4 && ParseHex(t).Some?
    ensures t[0] < 0x80 && t[1] < 0x80 && t[2] < 0x80 && t[3] < 0x80
  {
  }

  lemma EscapedIsAscii(t: JsString)
    requires StartOf(t) != Raw && Width(StartOf(t)) <= |t|
    requires if StartOf(t).Short? then UnescapeLetter(t[1]).Some? else ParseHex(t[2..]).Some?
    ensures forall i :: 0 <= i < Width(StartOf(t)) ==> t[i] < 0xD800
  {
    if StartOf(t).Long? {
      HexIsAscii(t[2..]);
      assert forall i :: 2 <= i < 6 ==> t[i] == t[2..][i - 2];
    }
  }

  /**
   No text that survives as UTF-8 and reads as the string is shorter than the printed one, and none as
   short with lower-case escapes is different.
   */
  lemma {:induction false} EscapeIsShortest(t: JsString, s: JsString)
    requires WellPaired(t) && ReadsAs(t, s)
    ensures |Escape(s)| <= |t|
    ensures |Escape(s)| == |t| && LowerCase(t) ==> t == Escape(s)
    decreases |t|
  {
    if t == [] {
      EmptyReads(s);
    } else if StartOf(t) != Raw {
      EscapedShortest(t, s);
    } else if HighSurrogate(t[0]) {
      RawPairReads(t, s);
      EscapeIsShortest(t[2..], s[2..]);
      RawPairShortest(t, s);
    } else {
      ReadsOn(t, s);
      EscapeIsShortest(t[1..], s[1..]);
      assert Escape(s) == [s[0]] + Escape(s[1..]);
      assert t == [t[0]] + t[1..];
    }
  }

  lemma {:induction false} EscapedShortest(t: JsString, s: JsString)
    requires WellPaired(t) && ReadsAs(t, s) && t != [] && StartOf(t) != Raw
    ensures |Escape(s)| <= |t|
    ensures |Escape(s)| == |t| && LowerCase(t) ==> t == Escape(s)
    decreases |t|, 0
  {
    var n := Width(StartOf(t));
    ReadsOn(t, s);
    EscapedIsAscii(t);
    LowerBehind(t);
    Behind(t, n);
    UnitShortest(t, s[0]);
    EscapeStep(s);
    EscapeIsShortest(t[n..], s[1..]);
    assert t == t[..n] + t[n..];
  }

  /** A raw pair is read as the two units it is. */
  lemma RawPairReads(t: JsString, s: JsString)
    requires WellPaired(t) && ReadsAs(t, s) && t != [] && HighSurrogate(t[0])
    ensures |t| > 1 && LowSurrogate(t[1]) && |s| > 1 && s[..2] == t[..2] && ReadsAs(t[2..], s[2..])
    ensures WellPaired(t[2..]) && (LowerCase(t) ==> LowerCase(t[2..]))
  {
    ReadsOn(t, s);
    LowerBehind(t);
    var rest := t[1..];
    assert rest[0] == t[1] && rest[1..] == t[2..];
    ReadsOn(rest, s[1..]);
    LowerBehind(rest);
    assert s[1..][1..] == s[2..] && s[1] == s[1..][0];
  }

  lemma RawPairShortest(t: JsString, s: JsString)
    requires |t| > 1 && |s| > 1 && s[..2] == t[..2] && HighSurrogate(t[0]) && LowSurrogate(t[1])
    requires |Escape(s[2..])| <= |t| - 2
    ensures |Escape(s)| == 2 + |Escape(s[2..])|
    ensures t[2..] == Escape(s[2..]) ==> t == Escape(s)
  {
    assert s[0] == s[..2][0] && s[1] == s[..2][1] && t[0] == t[..2][0] && t[1] == t[..2][1];
    assert t == t[..2] + t[2..];
  }

  /**
   The printed form of a string: it reads as the string, survives as UTF-8 and has lower-case escapes, and
   every other text like that is longer.
   */
  lemma StringTextIsShortest(s: JsString)
    ensures ReadsAs(Escape(s), s) && WellPaired(Escape(s)) && LowerCase(Escape(s))
    ensures forall t :: WellPaired(t) && LowerCase(t) && ReadsAs(t, s) && t != Escape(s) ==> |t| > |Escape(s)|
  {
    EscapeClean(s);
    StringRoundTrip(s, []);
    assert Escape(s) + [QUOTE] + [] == Escape(s) + [QUOTE];
    forall t | WellPaired(t) && LowerCase(t) && ReadsAs(t, s) && t != Escape(s) ensures |t| > |Escape(s)| {
      EscapeIsShortest(t, s);
    }
  }

  /******* Literal texts *******/

  lemma QuoteAlone()
    ensures ParseString([QUOTE]) == Some(([], []))
  {
    assert [QUOTE][1..] == [];
  }

  lemma OneUnit(u: CodeUnit)
    ensures Prepend(u, Some(([], []))) == Some(([u], []))
  {
    assert [u] + [] == [u];
  }

  lemma ShortReads(c: CodeUnit, u: CodeUnit)
    requires c != LETTER_U && UnescapeLetter(c) == Some(u)
    ensures ReadsAs([0x5C, c], [u])
  {
    var text := [0x5C, c] + [QUOTE];
    QuoteAlone();
    OneUnit(u);
    assert text[2..] == [QUOTE];
    assert ParseString(text) == Prepend(u, ParseString(text[2..]));
  }

  /** Every unit but the controls, the quote and the backslash stands for itself. */
  lemma RawReads(u: CodeUnit)
    requires u >= 0x20 && u != 0x22 && u != 0x5C
    ensures ReadsAs([u], [u])
  {
    QuoteAlone();
    OneUnit(u);
    RawRoundTrip(u, [QUOTE]);
  }

  /** What the escapes of section 7 of RFC 8259 stand for, in code units. */
  lemma EscapesRead()
    ensures ReadsAs([0x5C, 0x62], [0x08]) && ReadsAs([0x5C, 0x74], [0x09]) && ReadsAs([0x5C, 0x6E], [0x0A])
    ensures ReadsAs([0x5C, 0x66], [0x0C]) && ReadsAs([0x5C, 0x72], [0x0D]) && ReadsAs([0x5C, 0x2F], [0x2F])
    ensures ReadsAs([0x5C, 0x22], [0x22]) && ReadsAs([0x5C, 0x5C], [0x5C])
  {
    ShortReads(0x62, 0x08);
    ShortReads(0x74, 0x09);
    ShortReads(0x6E, 0x0A);
    ShortReads(0x66, 0x0C);
    ShortReads(0x72, 0x0D);
    ShortReads(0x2F, 0x2F);
    ShortReads(0x22, 0x22);
    ShortReads(0x5C, 0x5C);
  }

  /** The value of a hexadecimal digit, in literal digits. */
  function HexWorth(c: CodeUnit): (n: int) {
    if c <= 0x39 then c - 0x30 else if c <= 0x46 then c - 0x41 + 10 else c - 0x61 + 10
  }

  predicate IsHex(c: CodeUnit) {
    0x30 <= c <= 0x39 || 0x41 <= c <= 0x46 || 0x61 <= c <= 0x66
  }

  /** A backslash, 'u' and four hexadecimal digits stand for the code unit of that number. */
  lemma LongReads(a: CodeUnit, b: CodeUnit, c: CodeUnit, d: CodeUnit)
    requires IsHex(a) && IsHex(b) && IsHex(c) && IsHex(d)
    ensures var n := HexWorth(a) * 4096 + HexWorth(b) * 256 + HexWorth(c) * 16 + HexWorth(d);
            0 <= n < 0x1_0000 && ReadsAs([0x5C, 0x75, a, b, c, d], [n])
  {
    var n := HexWorth(a) * 4096 + HexWorth(b) * 256 + HexWorth(c) * 16 + HexWorth(d);
    var text := [0x5C, 0x75, a, b, c, d] + [QUOTE];
    HexNumber(text[2..]);
    QuoteAlone();
    OneUnit(n);
    assert text[6..] == [QUOTE];
    assert ParseString(text) == Prepend(n, ParseString(text[6..]));
  }

  lemma OneHex(c: CodeUnit)
    requires IsHex(c)
    ensures HexValue(c) == Some(HexWorth(c)) && 0 <= HexWorth(c) < 16
  {
  }

  lemma HexNumber(t: JsString)
    requires |t| >= 4 && IsHex(t[0]) && IsHex(t[1]) && IsHex(t[2]) && IsHex(t[3])
    ensures var n := HexWorth(t[0]) * 4096 + HexWorth(t[1]) * 256 + HexWorth(t[2]) * 16 + HexWorth(t[3]);
            0 <= n < 0x1_0000 && ParseHex(t) == Some(n)
  {
    OneHex(t[0]);
    OneHex(t[1]);
    OneHex(t[2]);
    OneHex(t[3]);
  }

  /** Strings and arrays in literal punctuation, for any parts. */
  lemma StringsAndArrays(a: Value, b: Value, s: JsString)
    ensures StableText(Str(s)) == [0x22] + Escape(s) + [0x22]
    ensures StableText(Arr(Nil)) == [0x5B, 0x5D]
    ensures StableText(Arr(Cons(a, Cons(b, Nil)))) == [0x5B] + (StableText(a) + [0x2C] + StableText(b)) + [0x5D]
  {
    assert ItemsText(Cons(b, Nil)) == StableText(b);
    assert ItemsText(Cons(a, Cons(b, Nil))) == StableText(a) + [0x2C] + StableText(b);
  }

  /** An undefined member leaves no trace. */
  lemma UndefinedMember(k: JsString, ms: Members<Value>)
    ensures StableText(Obj(End)) == [0x7B, 0x7D]
    ensures StableText(Obj(Member(k, Undefined, ms))) == StableText(Obj(ms))
  {
    var none: Members<JsString> := End;
    assert Joined(Sort(none)) == [];
    assert MemberTexts(Member(k, Undefined, ms)) == MemberTexts(ms);
  }

  lemma OneMemberText(k: JsString, text: JsString, rest: JsString)
    ensures Quote(k) + [COLON] + text + rest == [0x22] + Escape(k) + [0x22, 0x3A] + text + rest
  {
    assert [QUOTE] + [COLON] == [0x22, 0x3A];
    Reassociate([QUOTE] + Escape(k), [QUOTE], [COLON]);
  }

  lemma TwoSorted(j: JsString, x: JsString, k: JsString, y: JsString)
    requires Less(j, k)
    ensures Sort(Member(k, y, Member(j, x, End))) == Member(j, x, Member(k, y, End))
  {
    assert Insert(k, y, End) == Member(k, y, End);
    assert Sort(Member(j, x, End)) == Member(j, x, End) by {
      assert Insert(j, x, End) == Member(j, x, End);
    }
    assert Insert(k, y, Member(j, x, End)) == Member(j, x, Insert(k, y, End));
  }

  /** A record in literal punctuation, its members in key order. */
  lemma RecordText(a: Value, b: Value, j: JsString, k: JsString)
    requires !a.Undefined? && !b.Undefined? && Less(j, k)
    ensures StableText(Obj(Member(k, b, Member(j, a, End)))) ==
            [0x7B] + ([0x22] + Escape(j) + [0x22, 0x3A] + StableText(a) +
            ([0x2C] + ([0x22] + Escape(k) + [0x22, 0x3A] + StableText(b)))) + [0x7D]
  {
    var x, y := StableText(a), StableText(b);
    assert MemberTexts(Member(j, a, End)) == Member(j, x, End);
    assert MemberTexts(Member(k, b, Member(j, a, End))) == Member(k, y, Member(j, x, End));
    TwoSorted(j, x, k, y);
    OneMemberText(k, y, []);
    assert Joined(Member(k, y, End)) == [0x22] + Escape(k) + [0x22, 0x3A] + y;
    OneMemberText(j, x, [COMMA] + Joined(Member(k, y, End)));
  }

  /** Texts without controls, quotes, backslashes and surrogates print as they are. */
  lemma {:induction false} PlainEscape(t: JsString)
    requires forall i :: 0 <= i < |t| ==> 0x20 <= t[i] < 0xD800 && t[i] != 0x22 && t[i] != 0x5C
    ensures Escape(t) == t
  {
    if t != [] {
      PlainEscape(t[1..]);
      assert t == [t[0]] + t[1..];
    }
  }

  /** -1.5e+21 */
  const SAMPLE_NUMBER: NumberToken := [0x2D, 0x31, 0x2E, 0x35, 0x65, 0x2B, 0x32, 0x31]

  /** The items -0, undefined, a non-finite number, true, false and -1.5e+21. */
  function SampleItems(): (items: List<Value>) {
    Cons(Num(NegativeZero), Cons(Undefined, Cons(Num(NonFinite), Cons(Bool(true), Cons(Bool(false),
      Cons(Num(Finite(SAMPLE_NUMBER)), Nil))))))
  }

  lemma ItemBefore(v: Value, items: List<Value>)
    requires items.Cons?
    ensures ItemsText(Cons(v, items)) == StableText(v) + [0x2C] + ItemsText(items)
  {
  }

  lemma SampleItemsText()
    ensures ItemsText(SampleItems()) ==
            [0x30] + [0x2C] + ([0x6E, 0x75, 0x6C, 0x6C] + [0x2C] + ([0x6E, 0x75, 0x6C, 0x6C] + [0x2C] +
            ([0x74, 0x72, 0x75, 0x65] + [0x2C] + ([0x66, 0x61, 0x6C, 0x73, 0x65] + [0x2C] +
            [0x2D, 0x31, 0x2E, 0x35, 0x65, 0x2B, 0x32, 0x31]))))
  {
    var last := Cons(Num(Finite(SAMPLE_NUMBER)), Nil);
    var one := Cons(Bool(false), last);
    var two := Cons(Bool(true), one);
    ItemBefore(Bool(false), last);
    var three := Cons(Num(NonFinite), two);
    ItemBefore(Bool(true), one);
    ItemBefore(Num(NonFinite), two);
    ItemBefore(Undefined, three);
    ItemBefore(Num(NegativeZero), Cons(Undefined, three));
    assert ItemsText(last) == SAMPLE_NUMBER;
  }

  /**
   One whole text, {"a":"\\","b":[0,null,null,true,false,-1.5e+21]}, of a record out of order with an undefined
   member; its string is one backslash.
   */
  lemma SampleText()
    ensures StableText(Obj(Member([0x63], Undefined,
                           Member([0x62], Arr(SampleItems()), Member([0x61], Str([0x5C]), End))))) ==
            [0x7B] + ([0x22] + [0x61] + [0x22, 0x3A] + [0x22, 0x5C, 0x5C, 0x22] +
            ([0x2C] + ([0x22] + [0x62] + [0x22, 0x3A] + ([0x5B] + ([0x30] + [0x2C] +
            ([0x6E, 0x75, 0x6C, 0x6C] + [0x2C] + ([0x6E, 0x75, 0x6C, 0x6C] + [0x2C] +
            ([0x74, 0x72, 0x75, 0x65] + [0x2C] + ([0x66, 0x61, 0x6C, 0x73, 0x65] + [0x2C] +
            [0x2D, 0x31, 0x2E, 0x35, 0x65, 0x2B, 0x32, 0x31]))))) + [0x5D])))) + [0x7D]
  {
    var a, b: Value := Str([0x5C]), Arr(SampleItems());
    SampleItemsText();
    PlainEscape([0x61]);
    PlainEscape([0x62]);
    UndefinedMember([0x63], Member([0x62], b, Member([0x61], a, End)));
    LessAtFirstDifference([0x61], [0x62], 0);
    RecordText(a, b, [0x61], [0x62]);
    BackslashText();
  }

  lemma BackslashText()
    ensures StableText(Str([0x5C])) == [0x22, 0x5C, 0x5C, 0x22]
  {
    assert [0x5C][1..] == [];
    assert Escape([0x5C]) == [0x5C, 0x5C];
  }
}

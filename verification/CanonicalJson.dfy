/**
 The canonical text that proposal hashes, plan hashes and backups are made of, a parser for it,
 and the normal form that the text determines.
 */
module CanonicalJson {
  import opened Wrappers
  import opened JsText
  import opened JsonTree

  /******* Tokens *******/

  const QUOTE: CodeUnit := 0x22
  const BACKSLASH: CodeUnit := 0x5C
  const COMMA: CodeUnit := 0x2C
  const COLON: CodeUnit := 0x3A
  const LBRACKET: CodeUnit := 0x5B
  const RBRACKET: CodeUnit := 0x5D
  const LBRACE: CodeUnit := 0x7B
  const RBRACE: CodeUnit := 0x7D
  const LETTER_U: CodeUnit := 0x75

  const NULL_TEXT: JsString := [0x6E, 0x75, 0x6C, 0x6C]
  const TRUE_TEXT: JsString := [0x74, 0x72, 0x75, 0x65]
  const FALSE_TEXT: JsString := [0x66, 0x61, 0x6C, 0x73, 0x65]

  /******* Strings: section 7 of RFC 8259, lone surrogates escaped as in ECMA-262 *******/

  predicate HighSurrogate(u: CodeUnit) { 0xD800 <= u < 0xDC00 }

  predicate LowSurrogate(u: CodeUnit) { 0xDC00 <= u < 0xE000 }

  function HexDigit(n: int): (c: CodeUnit)
    requires 0 <= n < 16
  {
    if n < 10 then 0x30 + n else 0x57 + n
  }

  function HexValue(c: CodeUnit): (r: Option<int>) {
    if 0x30 <= c <= 0x39 then Some(c - 0x30)
    else if 0x61 <= c <= 0x66 then Some(c - 0x57)
    else if 0x41 <= c <= 0x46 then Some(c - 0x37)
    else None
  }

  function UnicodeEscape(u: CodeUnit): (r: JsString) {
    [BACKSLASH, LETTER_U, HexDigit(u / 0x1000), HexDigit(u / 0x100 % 16), HexDigit(u / 0x10 % 16), HexDigit(u % 16)]
  }

  /** The letter of a two-character escape. */
  function EscapeLetter(u: CodeUnit): (r: Option<CodeUnit>) {
    match u
    case 0x08 => Some(0x62)
    case 0x09 => Some(0x74)
    case 0x0A => Some(0x6E)
    case 0x0C => Some(0x66)
    case 0x0D => Some(0x72)
    case 0x22 => Some(QUOTE)
    case 0x5C => Some(BACKSLASH)
    case _ => None
  }

  function UnescapeLetter(c: CodeUnit): (r: Option<CodeUnit>) {
    match c
    case 0x62 => Some(0x08)
    case 0x74 => Some(0x09)
    case 0x6E => Some(0x0A)
    case 0x66 => Some(0x0C)
    case 0x72 => Some(0x0D)
    case 0x22 => Some(QUOTE)
    case 0x5C => Some(BACKSLASH)
    case 0x2F => Some(0x2F)
    case _ => None
  }

  function EscapeUnit(u: CodeUnit): (r: JsString) {
    if EscapeLetter(u).Some? then [BACKSLASH, EscapeLetter(u).value]
    else if u < 0x20 || HighSurrogate(u) || LowSurrogate(u) then UnicodeEscape(u)
    else [u]
  }

  function Escape(s: JsString): (r: JsString) {
    if s == [] then []
    else if |s| > 1 && HighSurrogate(s[0]) && LowSurrogate(s[1]) then s[..2] + Escape(s[2..])
    else EscapeUnit(s[0]) + Escape(s[1..])
  }

  function Quote(s: JsString): (r: JsString) {
    [QUOTE] + Escape(s) + [QUOTE]
  }

  /******* Printing *******/

  function NumberText(n: Number): (r: JsString) {
    match n
    case Finite(token) => token
    case NegativeZero => ZERO
    case NonFinite => NULL_TEXT
  }

  /** The text of a value in a member position: nothing for `undefined`. */
  function Text(v: Value): (r: Option<JsString>) {
    match v
    case Undefined => None
    case Null => Some(NULL_TEXT)
    case Bool(b) => Some(if b then TRUE_TEXT else FALSE_TEXT)
    case Num(n) => Some(NumberText(n))
    case Str(s) => Some(Quote(s))
    case Arr(items) => Some([LBRACKET] + ItemsText(items) + [RBRACKET])
    case Obj(ms) => Some([LBRACE] + Joined(Sort(MemberTexts(ms))) + [RBRACE])
  }

  function OrNull(t: Option<JsString>): (r: JsString) {
    if t.Some? then t.value else NULL_TEXT
  }

  function ItemsText(items: List<Value>): (r: JsString) {
    match items
    case Nil => []
    case Cons(head, Nil) => OrNull(Text(head))
    case Cons(head, tail) => OrNull(Text(head)) + [COMMA] + ItemsText(tail)
  }

  /** Each member's text; a member without text is left out. */
  function MemberTexts(ms: Members<Value>): (r: Members<JsString>) {
    match ms
    case End => End
    case Member(key, value, rest) =>
      var t := Text(value);
      if t.Some? then Member(key, t.value, MemberTexts(rest)) else MemberTexts(rest)
  }

  function Joined(ms: Members<JsString>): (r: JsString) {
    match ms
    case End => []
    case Member(key, text, rest) => Quote(key) + [COLON] + text + if rest.End? then [] else [COMMA] + Joined(rest)
  }

  /** The text of a whole value; a bare `undefined` prints as null. */
  function StableText(v: Value): (r: JsString) {
    OrNull(Text(v))
  }

  /******* Normal form *******/

  function NormNumber(n: Number): (r: Value) {
    match n
    case Finite(token) => Num(n)
    case NegativeZero => Num(Finite(ZERO))
    case NonFinite => Null
  }

  /**
   What the text remembers: undefined members are gone, undefined slots and non-finite numbers
   are null, -0 is 0, and members are in key order.
   */
  function Norm(v: Value): (r: Value) {
    match v
    case Undefined => Null
    case Num(n) => NormNumber(n)
    case Arr(items) => Arr(NormItems(items))
    case Obj(ms) => Obj(Sort(NormMembers(ms)))
    case _ => v
  }

  function NormItems(items: List<Value>): (r: List<Value>) {
    match items
    case Nil => Nil
    case Cons(head, tail) => Cons(Norm(head), NormItems(tail))
  }

  function NormMembers(ms: Members<Value>): (r: Members<Value>) {
    match ms
    case End => End
    case Member(key, value, rest) =>
      if value.Undefined? then NormMembers(rest) else Member(key, Norm(value), NormMembers(rest))
  }

  /** Values that are their own normal form, described without Norm. */
  ghost predicate Normal(v: Value) {
    match v
    case Undefined => false
    case Num(n) => n.Finite?
    case Arr(items) => NormalItems(items)
    case Obj(ms) => Sorted(ms) && NormalMembers(ms)
    case _ => true
  }

  ghost predicate NormalItems(items: List<Value>) {
    items.Cons? ==> Normal(items.head) && NormalItems(items.tail)
  }

  ghost predicate NormalMembers(ms: Members<Value>) {
    ms.Member? ==> Normal(ms.value) && NormalMembers(ms.rest)
  }

  lemma {:induction false} FindNorm(ms: Members<Value>, k: JsString)
    requires Distinct(ms)
    ensures Find(NormMembers(ms), k) ==
            if Has(ms, k) && !Find(ms, k).value.Undefined? then Some(Norm(Find(ms, k).value)) else None
  {
    if ms.Member? {
      FindNorm(ms.rest, k);
    }
  }

  lemma {:induction false} NormDistinct(ms: Members<Value>)
    requires Distinct(ms)
    ensures Distinct(NormMembers(ms))
  {
    if ms.Member? {
      NormDistinct(ms.rest);
      FindNorm(ms.rest, ms.key);
    }
  }

  lemma {:induction false} InsertNormal(k: JsString, v: Value, ms: Members<Value>)
    requires NormalMembers(ms) && Normal(v)
    ensures NormalMembers(Insert(k, v, ms))
  {
    if ms.Member? && Less(ms.key, k) {
      InsertNormal(k, v, ms.rest);
    }
  }

  lemma {:induction false} SortNormal(ms: Members<Value>)
    requires NormalMembers(ms)
    ensures NormalMembers(Sort(ms))
  {
    if ms.Member? {
      SortNormal(ms.rest);
      InsertNormal(ms.key, ms.value, Sort(ms.rest));
    }
  }

  lemma {:induction false} NormIsNormal(v: Value)
    requires WellFormed(v)
    ensures Normal(Norm(v))
    decreases v
  {
    match v
    case Arr(items) => NormItemsNormal(items);
    case Obj(ms) =>
      NormMembersNormal(ms);
      NormDistinct(ms);
      SortSorted(NormMembers(ms));
      SortNormal(NormMembers(ms));
    case _ =>
  }

  lemma {:induction false} NormItemsNormal(items: List<Value>)
    requires WellFormedItems(items)
    ensures NormalItems(NormItems(items))
    decreases items
  {
    if items.Cons? {
      NormIsNormal(items.head);
      NormItemsNormal(items.tail);
    }
  }

  lemma {:induction false} NormMembersNormal(ms: Members<Value>)
    requires WellFormedMembers(ms)
    ensures NormalMembers(NormMembers(ms))
    decreases ms
  {
    if ms.Member? {
      NormMembersNormal(ms.rest);
      NormIsNormal(ms.value);
    }
  }

  /** Sorting commutes with printing the members. */
  lemma {:induction false} InsertTexts(k: JsString, v: Value, ms: Members<Value>)
    requires NormalMembers(ms) && Normal(v)
    ensures Text(v).Some?
    ensures MemberTexts(Insert(k, v, ms)) == Insert(k, Text(v).value, MemberTexts(ms))
  {
    if ms.Member? && Less(ms.key, k) {
      InsertTexts(k, v, ms.rest);
    }
  }

  lemma {:induction false} SortTexts(ms: Members<Value>)
    requires NormalMembers(ms)
    ensures MemberTexts(Sort(ms)) == Sort(MemberTexts(ms))
  {
    if ms.Member? {
      SortTexts(ms.rest);
      SortNormal(ms.rest);
      InsertTexts(ms.key, ms.value, Sort(ms.rest));
    }
  }

  lemma {:induction false} FindTexts(ms: Members<Value>, k: JsString)
    requires NormalMembers(ms) && !Has(ms, k)
    ensures !Has(MemberTexts(ms), k)
  {
    if ms.Member? {
      FindTexts(ms.rest, k);
    }
  }

  lemma NormalHasText(v: Value)
    requires Normal(v)
    ensures Text(v).Some?
  {
  }

  lemma {:induction false} TextsSorted(ms: Members<Value>)
    requires NormalMembers(ms) && Sorted(ms)
    ensures Sorted(MemberTexts(ms)) && Sort(MemberTexts(ms)) == MemberTexts(ms)
  {
    if ms.Member? {
      TextsSorted(ms.rest);
      var texts := MemberTexts(ms);
      if ms.rest.Member? {
        NormalHasText(ms.rest.value);
      }
      SortedDistinct(texts);
      SortSorted(texts);
      SortedUnique(Sort(texts), texts);
    }
  }

  /** The text depends on the normal form alone. */
  lemma {:induction false} TextOfNorm(v: Value)
    requires WellFormed(v)
    ensures StableText(v) == StableText(Norm(v))
    decreases v
  {
    match v
    case Arr(items) => ItemsTextOfNorm(items);
    case Obj(ms) =>
      MemberTextsOfNorm(ms);
      NormMembersNormal(ms);
      var n := NormMembers(ms);
      SortTexts(n);
      NormDistinct(ms);
      SortSorted(n);
      SortNormal(n);
      TextsSorted(Sort(n));
    case _ =>
  }

  lemma {:induction false} ItemsTextOfNorm(items: List<Value>)
    requires WellFormedItems(items)
    ensures ItemsText(items) == ItemsText(NormItems(items))
    decreases items
  {
    if items.Cons? {
      TextOfNorm(items.head);
      ItemsTextOfNorm(items.tail);
    }
  }

  lemma {:induction false} MemberTextsOfNorm(ms: Members<Value>)
    requires WellFormedMembers(ms)
    ensures MemberTexts(ms) == MemberTexts(NormMembers(ms))
    decreases ms
  {
    if ms.Member? {
      TextOfNorm(ms.value);
      MemberTextsOfNorm(ms.rest);
    }
  }

  /******* Parsing *******/

  type Parsed<T> = Option<(T, JsString)>

  function ParseHex(t: JsString): (r: Option<CodeUnit>)
    requires |t| >= 4
  {
    var a, b, c, d := HexValue(t[0]), HexValue(t[1]), HexValue(t[2]), HexValue(t[3]);
    if a.Some? && b.Some? && c.Some? && d.Some?
    then
      HexValueBound(t[0]); HexValueBound(t[1]); HexValueBound(t[2]); HexValueBound(t[3]);
      Some(a.value * 0x1000 + b.value * 0x100 + c.value * 0x10 + d.value)
    else None
  }

  lemma HexValueBound(c: CodeUnit)
    ensures HexValue(c).Some? ==> 0 <= HexValue(c).value < 16
  {
  }

  /** The rest of a string after its opening quote: the decoded units and what follows. */
  function ParseString(t: JsString): (r: Parsed<JsString>) {
    if t == [] || t[0] < 0x20 then None
    else if t[0] == QUOTE then Some(([], t[1..]))
    else if t[0] != BACKSLASH then Prepend(t[0], ParseString(t[1..]))
    else if |t| == 1 then None
    else if t[1] == LETTER_U then
      if |t| < 6 || ParseHex(t[2..]).None? then None else Prepend(ParseHex(t[2..]).value, ParseString(t[6..]))
    else if UnescapeLetter(t[1]).Some? then Prepend(UnescapeLetter(t[1]).value, ParseString(t[2..]))
    else None
  }

  function Prepend(u: CodeUnit, p: Parsed<JsString>): (r: Parsed<JsString>) {
    if p.Some? then Some(([u] + p.value.0, p.value.1)) else None
  }

  /** The longest prefix of number characters. */
  function NumberSpan(t: JsString): (n: nat)
    ensures n <= |t| && forall i :: 0 <= i < n ==> NumberChar(t[i])
  {
    if t != [] && NumberChar(t[0]) then 1 + NumberSpan(t[1..]) else 0
  }

  function ParseValue(t: JsString): (r: Parsed<Value>)
    ensures r.Some? ==> |r.value.1| < |t|
    decreases |t|, 2
  {
    if t == [] then None
    else if t[0] == QUOTE then
      var s := ParseString(t[1..]);
      if s.None? || |s.value.1| >= |t| then None else Some((Str(s.value.0), s.value.1))
    else if t[0] == LBRACKET then
      if |t| > 1 && t[1] == RBRACKET then Some((Arr(Nil), t[2..]))
      else
        var p := ParseItems(t[1..]);
        if p.None? then None else Some((Arr(p.value.0), p.value.1))
    else if t[0] == LBRACE then
      if |t| > 1 && t[1] == RBRACE then Some((Obj(End), t[2..]))
      else
        var p := ParseMembers(t[1..]);
        if p.None? then None else Some((Obj(p.value.0), p.value.1))
    else if NULL_TEXT <= t then Some((Null, t[4..]))
    else if TRUE_TEXT <= t then Some((Bool(true), t[4..]))
    else if FALSE_TEXT <= t then Some((Bool(false), t[5..]))
    else if NumberChar(t[0]) then
      var n := NumberSpan(t);
      Some((Num(Finite(t[..n])), t[n..]))
    else None
  }

  /** The items after an opening bracket, up to and including the closing one. */
  function ParseItems(t: JsString): (r: Parsed<List<Value>>)
    ensures r.Some? ==> |r.value.1| < |t|
    decreases |t|, 3
  {
    var p := ParseValue(t);
    if p.None? || p.value.1 == [] then None
    else if p.value.1[0] == RBRACKET then Some((Cons(p.value.0, Nil), p.value.1[1..]))
    else if p.value.1[0] == COMMA then
      var q := ParseItems(p.value.1[1..]);
      if q.None? then None else Some((Cons(p.value.0, q.value.0), q.value.1))
    else None
  }

  /** The members after an opening brace, up to and including the closing one. */
  function ParseMembers(t: JsString): (r: Parsed<Members<Value>>)
    ensures r.Some? ==> |r.value.1| < |t|
    decreases |t|, 3
  {
    if t == [] || t[0] != QUOTE then None
    else
      var k := ParseString(t[1..]);
      if k.None? || k.value.1 == [] || k.value.1[0] != COLON || |k.value.1| >= |t| then None
      else
        var p := ParseValue(k.value.1[1..]);
        if p.None? || p.value.1 == [] then None
        else if p.value.1[0] == RBRACE then Some((Member(k.value.0, p.value.0, End), p.value.1[1..]))
        else if p.value.1[0] == COMMA then
          var q := ParseMembers(p.value.1[1..]);
          if q.None? then None else Some((Member(k.value.0, p.value.0, q.value.0), q.value.1))
        else None
  }

  /** A whole text: one value and nothing after it. */
  function Parse(t: JsString): (r: Option<Value>) {
    var p := ParseValue(t);
    if p.Some? && p.value.1 == [] then Some(p.value.0) else None
  }

  /******* Printing then parsing *******/

  lemma HexRoundTrip(u: CodeUnit, t: JsString)
    requires |t| >= 4
    requires t[..4] == [HexDigit(u / 0x1000), HexDigit(u / 0x100 % 16), HexDigit(u / 0x10 % 16), HexDigit(u % 16)]
    ensures ParseHex(t) == Some(u)
  {
    var digits := t[..4];
    assert t[0] == digits[0] && t[1] == digits[1] && t[2] == digits[2] && t[3] == digits[3];
    HexDigitRoundTrip(u / 0x1000);
    HexDigitRoundTrip(u / 0x100 % 16);
    HexDigitRoundTrip(u / 0x10 % 16);
    HexDigitRoundTrip(u % 16);
    HexSum(u);
  }

  lemma HexSum(u: CodeUnit)
    ensures u / 0x1000 * 0x1000 + u / 0x100 % 16 * 0x100 + u / 0x10 % 16 * 0x10 + u % 16 == u
  {
    assert u / 0x100 == u / 0x1000 * 16 + u / 0x100 % 16;
    assert u / 0x10 == u / 0x100 * 16 + u / 0x10 % 16;
  }

  lemma HexDigitRoundTrip(n: int)
    requires 0 <= n < 16
    ensures HexValue(HexDigit(n)) == Some(n)
  {
  }

  lemma EscapeLetterRoundTrip(u: CodeUnit)
    requires EscapeLetter(u).Some?
    ensures UnescapeLetter(EscapeLetter(u).value) == Some(u) && EscapeLetter(u).value != LETTER_U
  {
  }

  lemma UnitRoundTrip(u: CodeUnit, t: JsString)
    ensures ParseString(EscapeUnit(u) + t) == Prepend(u, ParseString(t))
  {
    if EscapeLetter(u).Some? {
      EscapeLetterRoundTrip(u);
      var text := [BACKSLASH, EscapeLetter(u).value] + t;
      assert text[0] == BACKSLASH && text[1] == EscapeLetter(u).value && text[2..] == t;
    } else if u < 0x20 || HighSurrogate(u) || LowSurrogate(u) {
      UnicodeRoundTrip(u, t);
    } else {
      RawRoundTrip(u, t);
    }
  }

  lemma UnicodeRoundTrip(u: CodeUnit, t: JsString)
    ensures ParseString(UnicodeEscape(u) + t) == Prepend(u, ParseString(t))
  {
    var e := UnicodeEscape(u);
    var text := e + t;
    assert text[0] == e[0] == BACKSLASH && text[1] == e[1] == LETTER_U && text[2..6] == e[2..] && text[6..] == t;
    assert text[2..][..4] == text[2..6];
    HexRoundTrip(u, text[2..]);
  }

  /** A unit that stands for itself, also when it is half of a surrogate pair. */
  lemma RawRoundTrip(u: CodeUnit, t: JsString)
    requires u >= 0x20 && u != QUOTE && u != BACKSLASH
    ensures ParseString([u] + t) == Prepend(u, ParseString(t))
  {
    assert ([u] + t)[1..] == t;
  }

  lemma EscapeSplit(s: JsString, n: nat, e: JsString, t: JsString)
    requires n <= |s| && Escape(s) == e + Escape(s[n..])
    ensures Escape(s) + [QUOTE] + t == e + (Escape(s[n..]) + [QUOTE] + t)
  {
    Regroup(e, Escape(s[n..]), [QUOTE], t);
  }

  lemma Regroup(a: JsString, b: JsString, c: JsString, d: JsString)
    ensures a + b + c + d == a + (b + c + d)
  {
    assert (a + b) + c == a + (b + c);
    assert (a + (b + c)) + d == a + ((b + c) + d);
  }

  lemma {:induction false} StringRoundTrip(s: JsString, t: JsString)
    ensures ParseString(Escape(s) + [QUOTE] + t) == Some((s, t))
    decreases |s|
  {
    if s == [] {
      assert Escape(s) + [QUOTE] + t == [QUOTE] + t && ([QUOTE] + t)[1..] == t;
    } else if |s| > 1 && HighSurrogate(s[0]) && LowSurrogate(s[1]) {
      StringRoundTrip(s[2..], t);
      EscapeSplit(s, 2, s[..2], t);
      PairRoundTrip(s[0], s[1], Escape(s[2..]) + [QUOTE] + t);
      assert s[..2] == [s[0], s[1]] && s[1..][1..] == s[2..];
      PrependBack(s[1..], t);
      PrependBack(s, t);
    } else {
      StringRoundTrip(s[1..], t);
      EscapeSplit(s, 1, EscapeUnit(s[0]), t);
      UnitRoundTrip(s[0], Escape(s[1..]) + [QUOTE] + t);
      PrependBack(s, t);
    }
  }

  lemma PrependBack(s: JsString, t: JsString)
    requires s != []
    ensures Prepend(s[0], Some((s[1..], t))) == Some((s, t))
  {
    assert [s[0]] + s[1..] == s;
  }

  lemma PairRoundTrip(u: CodeUnit, w: CodeUnit, t: JsString)
    requires HighSurrogate(u) && LowSurrogate(w)
    ensures ParseString([u, w] + t) == Prepend(u, Prepend(w, ParseString(t)))
  {
    assert [u, w] + t == [u] + ([w] + t);
    RawRoundTrip(u, [w] + t);
    RawRoundTrip(w, t);
  }

  /** What may follow a printed value: nothing that could prolong a number. */
  predicate Stops(t: JsString) {
    t == [] || !NumberChar(t[0])
  }

  lemma {:induction false} NumberRoundTrip(token: JsString, t: JsString)
    requires Stops(t) && forall i :: 0 <= i < |token| ==> NumberChar(token[i])
    ensures NumberSpan(token + t) == |token|
  {
    if token == [] {
      assert token + t == t;
    } else {
      NumberRoundTrip(token[1..], t);
      assert (token + t)[1..] == token[1..] + t;
    }
  }

  lemma {:induction false} ValueRoundTrip(v: Value, t: JsString)
    requires Normal(v) && Stops(t)
    ensures ParseValue(StableText(v) + t) == Some((v, t))
    decreases v, 1
  {
    match v
    case Num(n) => TokenRoundTrip(n.token, t);
    case Str(s) => QuoteRoundTrip(s, t);
    case Arr(items) => ArrayRoundTrip(items, t);
    case Obj(ms) => ObjectRoundTrip(ms, t);
    case _ => LiteralRoundTrip(v, t);
  }

  lemma TokenRoundTrip(token: NumberToken, t: JsString)
    requires Stops(t)
    ensures ParseValue(token + t) == Some((Num(Finite(token)), t))
  {
    var text := token + t;
    NumberRoundTrip(token, t);
    assert NumberChar(text[0]) by { assert text[0] == token[0]; }
    assert text[..|token|] == token && text[|token|..] == t;
    assert !(NULL_TEXT <= text) && !(TRUE_TEXT <= text) && !(FALSE_TEXT <= text) by {
      assert text[0] != 0x6E && text[0] != 0x74 && text[0] != 0x66;
    }
  }

  lemma QuoteRoundTrip(s: JsString, t: JsString)
    ensures ParseValue(Quote(s) + t) == Some((Str(s), t))
  {
    StringRoundTrip(s, t);
    assert (Quote(s) + t)[0] == QUOTE && (Quote(s) + t)[1..] == Escape(s) + [QUOTE] + t;
  }

  lemma LiteralRoundTrip(v: Value, t: JsString)
    requires v.Null? || v.Bool?
    ensures ParseValue(StableText(v) + t) == Some((v, t))
  {
    var text := StableText(v) + t;
    assert StableText(v) <= text && text[|StableText(v)|..] == t;
    assert text[0] == StableText(v)[0];
  }

  lemma {:induction false} ArrayRoundTrip(items: List<Value>, t: JsString)
    requires NormalItems(items)
    ensures ParseValue(StableText(Arr(items)) + t) == Some((Arr(items), t))
    decreases items, 2
  {
    var text := StableText(Arr(items)) + t;
    var body := ItemsText(items) + [RBRACKET] + t;
    assert text[0] == LBRACKET && text[1..] == body;
    if items.Nil? {
      assert text[1] == RBRACKET && text[2..] == t;
    } else {
      ItemsRoundTrip(items, t);
      StartsValue(items.head);
      assert text[1] == body[0] == StableText(items.head)[0];
    }
  }

  lemma {:induction false} ObjectRoundTrip(ms: Members<Value>, t: JsString)
    requires Sorted(ms) && NormalMembers(ms)
    ensures ParseValue(StableText(Obj(ms)) + t) == Some((Obj(ms), t))
    decreases ms, 2
  {
    TextsSorted(ms);
    var text := StableText(Obj(ms)) + t;
    var body := Joined(MemberTexts(ms)) + [RBRACE] + t;
    assert text[0] == LBRACE && text[1..] == body;
    if ms.End? {
      assert text[1] == RBRACE && text[2..] == t;
    } else {
      MembersRoundTrip(ms, t);
      assert text[1] == body[0] == QUOTE;
    }
  }

  /** A printed value never starts with a closing bracket. */
  lemma StartsValue(v: Value)
    requires Normal(v)
    ensures StableText(v) != [] && StableText(v)[0] != RBRACKET
  {
  }

  lemma {:induction false} ItemsRoundTrip(items: List<Value>, t: JsString)
    requires items.Cons? && NormalItems(items)
    ensures ParseItems(ItemsText(items) + [RBRACKET] + t) == Some((items, t))
    decreases items, 1
  {
    var head := StableText(items.head);
    var rest := ItemsText(items.tail) + [RBRACKET] + t;
    if items.tail.Nil? {
      Reassociate(head, [RBRACKET], t);
      ValueRoundTrip(items.head, [RBRACKET] + t);
      assert ([RBRACKET] + t)[1..] == t;
    } else {
      assert ItemsText(items) == head + [COMMA] + ItemsText(items.tail);
      Regroup(head + [COMMA], ItemsText(items.tail), [RBRACKET], t);
      Reassociate(head, [COMMA], rest);
      ValueRoundTrip(items.head, [COMMA] + rest);
      assert ([COMMA] + rest)[1..] == rest;
      ItemsRoundTrip(items.tail, t);
    }
  }

  lemma KeyRoundTrip(k: JsString, t: JsString)
    ensures var text := Quote(k) + [COLON] + t;
            text[0] == QUOTE && ParseString(text[1..]) == Some((k, [COLON] + t))
  {
    var text := Quote(k) + [COLON] + t;
    assert text[1..] == Escape(k) + [QUOTE] + ([COLON] + t);
    StringRoundTrip(k, [COLON] + t);
  }

  lemma MemberStep(k: JsString, text: JsString, v: Value, after: JsString)
    requires ParseValue(text) == Some((v, after))
    requires after != [] && (after[0] == COMMA || after[0] == RBRACE)
    ensures ParseMembers(Quote(k) + [COLON] + text)
         == if after[0] == RBRACE then Some((Member(k, v, End), after[1..]))
            else if ParseMembers(after[1..]).None? then None
            else Some((Member(k, v, ParseMembers(after[1..]).value.0), ParseMembers(after[1..]).value.1))
  {
    KeyRoundTrip(k, text);
    assert ([COLON] + text)[1..] == text;
  }

  /** What follows the value of the first member. */
  function AfterMember(rest: Members<Value>): (r: JsString) {
    if rest.End? then [] else [COMMA] + Joined(MemberTexts(rest))
  }

  lemma {:induction false} MembersRoundTrip(ms: Members<Value>, t: JsString)
    requires ms.Member? && NormalMembers(ms)
    ensures ParseMembers(Joined(MemberTexts(ms)) + [RBRACE] + t) == Some((ms, t))
    decreases ms, 1
  {
    var after := AfterMember(ms.rest) + [RBRACE] + t;
    AfterSplit(ms.rest, t);
    ValueRoundTrip(ms.value, after);
    MemberStep(ms.key, StableText(ms.value) + after, ms.value, after);
    if ms.rest.Member? {
      MembersRoundTrip(ms.rest, t);
    }
    assert ParseMembers(Quote(ms.key) + [COLON] + (StableText(ms.value) + after)) == Some((ms, t));
    JoinedSplit(ms, t);
  }

  lemma AfterSplit(rest: Members<Value>, t: JsString)
    ensures var after := AfterMember(rest) + [RBRACE] + t;
            after != [] && after[0] == (if rest.End? then RBRACE else COMMA) &&
            after[1..] == if rest.End? then t else Joined(MemberTexts(rest)) + [RBRACE] + t
  {
    if rest.End? {
      FirstThen([], RBRACE, t);
    } else {
      var joined := Joined(MemberTexts(rest));
      Regroup([COMMA], joined, [RBRACE], t);
      FirstThen([], COMMA, joined + [RBRACE] + t);
    }
  }

  lemma FirstThen(empty: JsString, c: CodeUnit, t: JsString)
    requires empty == []
    ensures empty + [c] + t == [c] + t && ([c] + t)[0] == c && ([c] + t)[1..] == t
  {
  }

  lemma JoinedSplit(ms: Members<Value>, t: JsString)
    requires ms.Member? && NormalMembers(ms)
    ensures Joined(MemberTexts(ms)) + [RBRACE] + t
         == Quote(ms.key) + [COLON] + (StableText(ms.value) + (AfterMember(ms.rest) + [RBRACE] + t))
  {
    NormalHasText(ms.value);
    if ms.rest.Member? {
      NormalHasText(ms.rest.value);
    }
    var head, tail := Quote(ms.key) + [COLON], AfterMember(ms.rest);
    assert Joined(MemberTexts(ms)) == head + StableText(ms.value) + tail;
    Regroup(head + StableText(ms.value), tail, [RBRACE], t);
    Reassociate(head, StableText(ms.value), tail + [RBRACE] + t);
  }

  lemma Reassociate(a: JsString, b: JsString, c: JsString)
    ensures (a + b) + c == a + (b + c)
  {
  }

  /** Parsing the text of any value gives its normal form. */
  lemma ParseStableText(v: Value)
    requires WellFormed(v)
    ensures Parse(StableText(v)) == Some(Norm(v))
  {
    TextOfNorm(v);
    NormIsNormal(v);
    ValueRoundTrip(Norm(v), []);
    assert StableText(Norm(v)) + [] == StableText(Norm(v));
  }

  /** Two values print alike exactly when their normal forms agree. */
  lemma PrintAlikeIffSameNorm(v: Value, w: Value)
    requires WellFormed(v) && WellFormed(w)
    ensures StableText(v) == StableText(w) <==> Norm(v) == Norm(w)
  {
    ParseStableText(v);
    ParseStableText(w);
    TextOfNorm(v);
    TextOfNorm(w);
  }

  /** Normal values are exactly the ones Norm leaves alone. */
  lemma {:induction false} NormFixesNormal(v: Value)
    requires WellFormed(v)
    ensures Normal(v) <==> Norm(v) == v
  {
    NormIsNormal(v);
    if Normal(v) {
      TextOfNorm(v);
      ValueRoundTrip(v, []);
      ValueRoundTrip(Norm(v), []);
    }
  }

  /** The lookups of two member lists agree. */
  ghost predicate SameLookups<T(!new)>(a: Members<T>, b: Members<T>) {
    forall k :: Find(a, k) == Find(b, k)
  }

  /** Member order is forgotten: records have one normal form exactly when their lookups agree. */
  lemma SameNormIffSameLookups(a: Members<Value>, b: Members<Value>)
    requires Distinct(a) && Distinct(b)
    ensures Norm(Obj(a)) == Norm(Obj(b)) <==> SameLookups(NormMembers(a), NormMembers(b))
  {
    var x, y := NormMembers(a), NormMembers(b);
    NormDistinct(a);
    NormDistinct(b);
    if SameLookups(x, y) {
      SameSort(x, y);
    }
    if Sort(x) == Sort(y) {
      SameFind(x, y);
    }
  }

  lemma SameSort<T(!new)>(a: Members<T>, b: Members<T>)
    requires Distinct(a) && Distinct(b) && SameLookups(a, b)
    ensures Sort(a) == Sort(b)
  {
    SortSorted(a);
    SortSorted(b);
    SortedUnique(Sort(a), Sort(b));
  }

  lemma SameFind<T(!new)>(a: Members<T>, b: Members<T>)
    requires Distinct(a) && Distinct(b) && Sort(a) == Sort(b)
    ensures SameLookups(a, b)
  {
    SortSorted(a);
    SortSorted(b);
    forall k ensures Find(a, k) == Find(b, k) {
      assert Find(Sort(a), k) == Find(Sort(b), k);
    }
  }

  /******* JSON.parse(JSON.stringify(v)) *******/

  /** A JSON copy keeps member order, and otherwise what the text remembers; `undefined` has none. */
  function Clone(v: Value): (r: Value)
    requires !v.Undefined?
  {
    match v
    case Num(n) => NormNumber(n)
    case Arr(items) => Arr(CloneItems(items))
    case Obj(ms) => Obj(CloneMembers(ms))
    case _ => v
  }

  function CloneItems(items: List<Value>): (r: List<Value>) {
    match items
    case Nil => Nil
    case Cons(head, tail) => Cons(if head.Undefined? then Null else Clone(head), CloneItems(tail))
  }

  function CloneMembers(ms: Members<Value>): (r: Members<Value>) {
    match ms
    case End => End
    case Member(key, value, rest) =>
      if value.Undefined? then CloneMembers(rest) else Member(key, Clone(value), CloneMembers(rest))
  }

  /** Copying does not change the canonical text. */
  lemma {:induction false} NormOfClone(v: Value)
    requires !v.Undefined?
    ensures Norm(Clone(v)) == Norm(v) && !Clone(v).Undefined?
    decreases v
  {
    match v
    case Arr(items) => NormOfCloneItems(items);
    case Obj(ms) => NormOfCloneMembers(ms);
    case _ =>
  }

  lemma {:induction false} NormOfCloneItems(items: List<Value>)
    ensures NormItems(CloneItems(items)) == NormItems(items)
    decreases items
  {
    if items.Cons? {
      if !items.head.Undefined? {
        NormOfClone(items.head);
      }
      NormOfCloneItems(items.tail);
    }
  }

  lemma {:induction false} NormOfCloneMembers(ms: Members<Value>)
    ensures NormMembers(CloneMembers(ms)) == NormMembers(ms)
    decreases ms
  {
    if ms.Member? {
      if !ms.value.Undefined? {
        NormOfClone(ms.value);
      }
      NormOfCloneMembers(ms.rest);
    }
  }

  lemma {:induction false} FindClone(ms: Members<Value>, k: JsString)
    requires Distinct(ms)
    ensures Find(CloneMembers(ms), k) ==
            if Has(ms, k) && !Find(ms, k).value.Undefined? then Some(Clone(Find(ms, k).value)) else None
  {
    if ms.Member? {
      FindClone(ms.rest, k);
    }
  }

  lemma {:induction false} CloneWellFormed(v: Value)
    requires !v.Undefined? && WellFormed(v)
    ensures WellFormed(Clone(v))
    decreases v
  {
    match v
    case Arr(items) => CloneItemsWellFormed(items);
    case Obj(ms) => CloneMembersWellFormed(ms);
    case _ =>
  }

  lemma {:induction false} CloneItemsWellFormed(items: List<Value>)
    requires WellFormedItems(items)
    ensures WellFormedItems(CloneItems(items))
    decreases items
  {
    if items.Cons? {
      if !items.head.Undefined? {
        CloneWellFormed(items.head);
      }
      CloneItemsWellFormed(items.tail);
    }
  }

  lemma {:induction false} CloneMembersWellFormed(ms: Members<Value>)
    requires Distinct(ms) && WellFormedMembers(ms)
    ensures Distinct(CloneMembers(ms)) && WellFormedMembers(CloneMembers(ms))
    decreases ms
  {
    if ms.Member? {
      CloneMembersWellFormed(ms.rest);
      FindClone(ms.rest, ms.key);
      if !ms.value.Undefined? {
        CloneWellFormed(ms.value);
      }
    }
  }

  /******* Hashes *******/

  /** A digest of texts; collisions are idealised away. */
  ghost predicate Injective(h: JsString -> JsString) {
    forall a, b :: h(a) == h(b) ==> a == b
  }

  function JsonHash(h: JsString -> JsString, v: Value): (r: JsString) {
    h(StableText(v))
  }

  /** Equal hashes mean equal normal forms, and the other way round. */
  lemma SameHashIffSameNorm(h: JsString -> JsString, v: Value, w: Value)
    requires Injective(h) && WellFormed(v) && WellFormed(w)
    ensures JsonHash(h, v) == JsonHash(h, w) <==> Norm(v) == Norm(w)
  {
    PrintAlikeIffSameNorm(v, w);
  }
}

/** Backup file names, and reading the operation id back out of them. */
module BackupNames {
  import opened Wrappers
  import opened JsText
  import opened Base64

  const DASH: CodeUnit := 0x2D
  const OP := Ascii("op_")
  const NODE_TAG := Ascii("node_b64_")
  const JSON_END := Ascii(".json")

  /** The separator "--" starts here. */
  predicate DashesAt(t: JsString, i: nat) {
    i + 1 < |t| && t[i] == DASH && t[i + 1] == DASH
  }

  /** Splitting at every leftmost "--". */
  function Split(t: JsString): (parts: seq<JsString>)
    ensures |parts| > 0
  {
    if DashesAt(t, 0) then [[]] + Split(t[2..])
    else if t == [] then [[]]
    else
      var rest := Split(t[1..]);
      [[t[0]] + rest[0]] + rest[1..]
  }

  /** No separator starts inside the text, even when the text is followed by one. */
  ghost predicate DashFree(t: JsString) {
    forall i :: 0 <= i < |t| ==> !DashesAt(t, i) && (i == |t| - 1 ==> t[i] != DASH)
  }

  const SEPARATOR: JsString := [DASH, DASH]

  lemma {:induction false} SplitFirst(a: JsString, rest: JsString)
    requires DashFree(a)
    ensures Split(a + SEPARATOR + rest) == [a] + Split(rest)
  {
    var t := a + SEPARATOR + rest;
    if a == [] {
      assert t[0] == DASH && t[1] == DASH && t[2..] == rest;
    } else {
      assert t[0] == a[0] && t[1..] == a[1..] + SEPARATOR + rest;
      assert !DashesAt(t, 0) by {
        assert !DashesAt(a, 0);
        assert |a| > 1 ==> t[1] == a[1];
      }
      forall i | 0 <= i < |a| - 1 ensures !DashesAt(a[1..], i) && (i == |a| - 2 ==> a[1..][i] != DASH) {
        assert !DashesAt(a, i + 1);
      }
      SplitFirst(a[1..], rest);
      var tail := Split(t[1..]);
      assert tail[0] == a[1..] && tail[1..] == Split(rest);
      assert [a[0]] + a[1..] == a;
    }
  }

  lemma {:induction false} SplitTwice(t: JsString, i: nat)
    requires DashesAt(t, i)
    ensures |Split(t)| >= 2
    decreases |t|
  {
    if !DashesAt(t, 0) {
      assert DashesAt(t[1..], i - 1);
      SplitTwice(t[1..], i - 1);
    }
  }

  /** Operation ids as the bytes of their ASCII text. */
  ghost predicate IsAscii(bytes: seq<Byte>) {
    forall i :: 0 <= i < |bytes| ==> bytes[i] < 0x80
  }

  function FileName(stamp: JsString, op: seq<Byte>, uuid: JsString, node: seq<Byte>): (name: JsString) {
    stamp + SEPARATOR + (OP + Encode(Url, op) + SEPARATOR +
      (uuid + SEPARATOR + (NODE_TAG + Encode(Url, node) + JSON_END)))
  }

  /**
   The operation id of a file name, none when the name has too few parts. Names without the tag
   carry the id itself. Text decoding of the bytes is a parameter; on ASCII bytes it is the identity.
   */
  function BackupOperationId(name: JsString, utf8: seq<Byte> -> JsString): (id: Option<JsString>) {
    var parts := Split(name);
    if |parts| < 4 then None
    else if !(OP <= parts[1]) then Some(parts[1])
    else Some(utf8(Decode(parts[1][3..])))
  }

  ghost predicate DecodesAscii(utf8: seq<Byte> -> JsString) {
    forall bytes :: IsAscii(bytes) ==> utf8(bytes) == bytes
  }

  /** The encoding of the id ends in a dash: whole groups, and a last character '>' or '~'. */
  predicate EndsInDash(op: seq<Byte>) {
    op != [] && |op| % 3 == 0 && op[|op| - 1] % 64 == 62
  }

  /** The first group of an encoding. */
  lemma FirstGroup(op: seq<Byte>)
    requires |op| > 2
    ensures var s := ToSextets(op);
            |s| >= 4 && s[0] == op[0] / 4 && s[1] == op[0] % 4 * 16 + op[1] / 16 &&
            s[2] == op[1] % 16 * 4 + op[2] / 64 &&
            s[3] == op[2] % 64 && s[4..] == ToSextets(op[3..])
  {
  }

  lemma GroupDashes(a: Byte, b: Byte, c: Byte)
    requires a < 0x80 && b < 0x80 && c < 0x80
    ensures a / 4 != 62 && a % 4 * 16 + b / 16 != 62 && b % 16 * 4 + c / 64 != 62 && b % 16 * 4 != 62
  {
    assert b / 16 < 8 && c / 64 < 2;
  }

  lemma FirstGroupDashes(op: seq<Byte>, i: nat)
    requires IsAscii(op) && i < |ToSextets(op)| && i < 4
    ensures ToSextets(op)[i] == 62 ==> i == 3
  {
    if |op| == 1 {
      GroupDashes(op[0], 0, 0);
    } else if |op| == 2 {
      GroupDashes(op[0], op[1], 0);
    } else if |op| > 2 {
      FirstGroup(op);
      GroupDashes(op[0], op[1], op[2]);
    }
  }

  lemma LaterGroup(op: seq<Byte>, i: nat)
    requires 4 <= i < |ToSextets(op)|
    ensures |op| > 2 && i - 4 < |ToSextets(op[3..])| && ToSextets(op)[i] == ToSextets(op[3..])[i - 4]
  {
    if |op| > 2 {
      FirstGroup(op);
      assert ToSextets(op)[i] == ToSextets(op)[4..][i - 4];
    }
  }

  /** In the encoding of ASCII bytes a dash is only ever the fourth digit of a group. */
  lemma {:induction false} DashPosition(op: seq<Byte>, i: nat)
    requires IsAscii(op) && i < |ToSextets(op)|
    ensures ToSextets(op)[i] == 62 ==> i % 4 == 3
    decreases i
  {
    if i < 4 {
      FirstGroupDashes(op, i);
    } else {
      LaterGroup(op, i);
      assert forall k :: 0 <= k < |op[3..]| ==> op[3..][k] == op[k + 3];
      DashPosition(op[3..], i - 4);
      FourLess(i);
    }
  }

  lemma FourLess(i: nat)
    requires i >= 4
    ensures (i - 4) % 4 == 3 ==> i % 4 == 3
  {
  }

  lemma {:induction false} SextetLength(op: seq<Byte>)
    ensures |ToSextets(op)| % 4 == 0 <==> |op| % 3 == 0
    ensures op != [] ==> ToSextets(op) != []
  {
    if |op| > 2 {
      SextetLength(op[3..]);
      GroupSize(op);
      SameRemainders(|ToSextets(op[3..])|, |op[3..]|);
    }
  }

  lemma LastOfMore<T>(s: seq<T>, n: nat)
    requires n < |s|
    ensures |s[n..]| == |s| - n && s[|s| - 1] == s[n..][|s| - n - 1]
  {
  }

  lemma OneGroupLess(n: nat)
    requires n > 3 && n % 3 == 0
    ensures (n - 3) % 3 == 0
  {
  }

  /** Whole groups end in the low bits of the last byte. */
  lemma {:induction false} LastSextet(op: seq<Byte>)
    requires op != [] && |op| % 3 == 0
    ensures ToSextets(op) != [] && ToSextets(op)[|ToSextets(op)| - 1] == op[|op| - 1] % 64
  {
    FirstGroup(op);
    if |op| == 3 {
      assert op[3..] == [];
    } else {
      OneGroupLess(|op|);
      LastOfMore(op, 3);
      LastSextet(op[3..]);
      LastOfMore(ToSextets(op), 4);
    }
  }

  /** The digits before position n contain no separator and do not end in a dash. */
  lemma DigitsDashFree(op: seq<Byte>, n: nat)
    requires IsAscii(op)
    requires var s := ToSextets(op); n <= |s| && (n > 0 && n % 4 == 0 ==> s[n - 1] != 62)
    ensures DashFree(Digits(Url, ToSextets(op))[..n])
  {
    var s := ToSextets(op);
    var digits := Digits(Url, s);
    forall i | 0 <= i < |s| ensures digits[i] == DASH ==> i % 4 == 3 && s[i] == 62 {
      DashDigit(op, i);
    }
    PrefixDashFree(s, digits, n);
  }

  lemma PrefixDashFree(s: seq<Sextet>, digits: JsString, n: nat)
    requires |s| == |digits| && n <= |s| && (n > 0 && n % 4 == 0 ==> s[n - 1] != 62)
    requires forall i :: 0 <= i < |s| ==> digits[i] == DASH ==> i % 4 == 3 && s[i] == 62
    ensures DashFree(digits[..n])
  {
    if n > 0 {
      BeforeGroup(n);
    }
    SpacedDashes(digits[..n]);
  }

  lemma BeforeGroup(n: nat)
    requires n > 0
    ensures (n - 1) % 4 == 3 ==> n % 4 == 0
  {
  }

  /** Dashes four apart never touch. */
  lemma SpacedDashes(t: JsString)
    requires forall i :: 0 <= i < |t| ==> t[i] == DASH ==> i % 4 == 3
    requires t != [] ==> t[|t| - 1] != DASH
    ensures DashFree(t)
  {
    forall i | 0 <= i < |t| ensures !DashesAt(t, i) {
      if i + 1 < |t| {
        assert t[i + 1] == DASH ==> (i + 1) % 4 == 3;
      }
    }
  }

  lemma DashDigit(op: seq<Byte>, i: nat)
    requires IsAscii(op) && i < |ToSextets(op)|
    ensures Digits(Url, ToSextets(op))[i] == DASH ==> i % 4 == 3 && ToSextets(op)[i] == 62
  {
    DigitRoundTrip(Url, ToSextets(op)[i]);
    if ToSextets(op)[i] == 62 {
      DashPosition(op, i);
    }
  }

  lemma TaggedDashFree(digits: JsString)
    requires DashFree(digits)
    ensures DashFree(OP + digits)
  {
    var t := OP + digits;
    assert |OP| == 3 && OP[0] != DASH && OP[1] != DASH && OP[2] != DASH;
    forall i | 0 <= i < |t| ensures !DashesAt(t, i) && (i == |t| - 1 ==> t[i] != DASH) {
      if i >= 3 {
        assert !DashesAt(digits, i - 3);
      }
    }
  }

  lemma SecondPart(stamp: JsString, tagged: JsString, rest: JsString)
    requires DashFree(stamp) && DashFree(tagged) && |Split(rest)| >= 2
    ensures var parts := Split(stamp + SEPARATOR + (tagged + SEPARATOR + rest)); |parts| >= 4 && parts[1] == tagged
  {
    SplitFirst(tagged, rest);
    SplitFirst(stamp, tagged + SEPARATOR + rest);
  }

  /** The parts of a file name, when the encoded id ends cleanly. */
  lemma CleanParts(stamp: JsString, op: seq<Byte>, uuid: JsString, node: seq<Byte>)
    requires DashFree(stamp) && DashFree(uuid) && !EndsInDash(op) && IsAscii(op)
    ensures var parts := Split(FileName(stamp, op, uuid, node)); |parts| >= 4 && parts[1] == OP + Encode(Url, op)
  {
    var last := NODE_TAG + Encode(Url, node) + JSON_END;
    EncodedDashFree(op);
    TaggedDashFree(Encode(Url, op));
    SplitFirst(uuid, last);
    SecondPart(stamp, OP + Encode(Url, op), uuid + SEPARATOR + last);
  }

  lemma EncodedDashFree(op: seq<Byte>)
    requires IsAscii(op) && !EndsInDash(op)
    ensures DashFree(Encode(Url, op))
  {
    SextetLength(op);
    if op != [] && |op| % 3 == 0 {
      LastSextet(op);
    }
    DigitsDashFree(op, |ToSextets(op)|);
    assert Digits(Url, ToSextets(op))[..|ToSextets(op)|] == Encode(Url, op);
  }

  lemma BeforeGroupEnd(n: int)
    requires (n + 1) % 4 == 0
    ensures n % 4 != 0
  {
  }

  lemma CutDashFree(op: seq<Byte>)
    requires IsAscii(op) && EndsInDash(op)
    ensures DashFree(CutDigits(op))
  {
    SextetLength(op);
    var n := |ToSextets(op)| - 1;
    BeforeGroupEnd(n);
    DigitsDashFree(op, n);
  }

  /** When the encoding ends in a dash, the split takes that dash for the separator's first. */
  lemma CutParts(stamp: JsString, op: seq<Byte>, uuid: JsString, node: seq<Byte>)
    requires DashFree(stamp) && DashFree(uuid) && EndsInDash(op) && IsAscii(op)
    ensures var parts := Split(FileName(stamp, op, uuid, node)); |parts| >= 4 && parts[1] == OP + CutDigits(op)
  {
    var last := NODE_TAG + Encode(Url, node) + JSON_END;
    var rest := uuid + SEPARATOR + last;
    CutDashFree(op);
    TaggedDashFree(CutDigits(op));
    SplitDashed(uuid, last);
    SecondPart(stamp, OP + CutDigits(op), [DASH] + rest);
    CutThenDash(op);
    DashBorrowed(OP, CutDigits(op), rest);
  }

  /** A dash before a separator is read as the separator's first half. */
  lemma DashBorrowed(tag: JsString, digits: JsString, rest: JsString)
    ensures tag + (digits + [DASH]) + SEPARATOR + rest == (tag + digits) + SEPARATOR + ([DASH] + rest)
  {
    assert digits + [DASH] + SEPARATOR == digits + SEPARATOR + [DASH];
  }

  lemma SplitDashed(uuid: JsString, last: JsString)
    ensures |Split([DASH] + (uuid + SEPARATOR + last))| >= 2
  {
    var t := [DASH] + (uuid + SEPARATOR + last);
    assert t[|uuid| + 1] == SEPARATOR[0] && t[|uuid| + 2] == SEPARATOR[1];
    SplitTwice(t, |uuid| + 1);
  }

  /** The digits of the encoding without the last one. */
  function CutDigits(op: seq<Byte>): (t: JsString) {
    var s := ToSextets(op);
    if s == [] then [] else Digits(Url, s)[..|s| - 1]
  }

  lemma CutThenDash(op: seq<Byte>)
    requires EndsInDash(op)
    ensures Encode(Url, op) == CutDigits(op) + [DASH]
  {
    var s := ToSextets(op);
    LastSextet(op);
    DigitRoundTrip(Url, s[|s| - 1]);
  }

  /** A file name gives its ASCII operation id back exactly when the encoded id does not end in a dash. */
  lemma OperationIdRoundTrip(stamp: JsString, op: seq<Byte>, uuid: JsString, node: seq<Byte>,
                             utf8: seq<Byte> -> JsString)
    requires DashFree(stamp) && DashFree(uuid) && DecodesAscii(utf8) && IsAscii(op)
    ensures BackupOperationId(FileName(stamp, op, uuid, node), utf8) == Some(op) <==> !EndsInDash(op)
  {
    if EndsInDash(op) {
      DashedIdIsCut(stamp, op, uuid, node, utf8);
    } else {
      CleanParts(stamp, op, uuid, node);
      TagStripped(Encode(Url, op));
      DecodeEncode(Url, op);
    }
  }

  lemma TagStripped(t: JsString)
    ensures OP <= OP + t && (OP + t)[3..] == t
  {
    assert |OP| == 3;
  }

  /** Otherwise the name gives back the id without its last character. */
  lemma DashedIdIsCut(stamp: JsString, op: seq<Byte>, uuid: JsString, node: seq<Byte>, utf8: seq<Byte> -> JsString)
    requires DashFree(stamp) && DashFree(uuid) && DecodesAscii(utf8) && IsAscii(op) && EndsInDash(op)
    ensures BackupOperationId(FileName(stamp, op, uuid, node), utf8) == Some(op[..|op| - 1])
  {
    CutParts(stamp, op, uuid, node);
    TagStripped(CutDigits(op));
    CutDecodesShort(op);
    assert IsAscii(op[..|op| - 1]);
  }

  /** Without its last digit the encoding decodes to the id without its last character. */
  lemma CutDecodesShort(op: seq<Byte>)
    requires op != [] && |op| % 3 == 0
    ensures Decode(CutDigits(op)) == op[..|op| - 1]
  {
    var s := ToSextets(op);
    LastSextet(op);
    var cut := s[..|s| - 1];
    assert CutDigits(op) == Digits(Url, cut) + [];
    SextetsOfDigits(Url, cut, []);
    CutGroups(op);
  }

  /** The first three bytes come back from the first four sextets. */
  lemma FirstBytes(op: seq<Byte>)
    requires |op| > 2
    ensures var s := ToSextets(op);
            |s| >= 4 && Byte0(s[0], s[1]) == op[0] && Byte1(s[1], s[2]) == op[1] && Byte2(s[2], s[3]) == op[2]
  {
    FirstGroup(op);
    GroupRoundTrip(op[0], op[1], op[2]);
  }

  lemma CutOneGroup(op: seq<Byte>)
    requires |op| == 3
    ensures |ToSextets(op)| == 4 && FromSextets(ToSextets(op)[..3]) == op[..2]
  {
    FirstBytes(op);
    FirstGroup(op);
    assert op[3..] == [];
    var cut := ToSextets(op)[..3];
    assert FromSextets(cut) == [Byte0(cut[0], cut[1]), Byte1(cut[1], cut[2])];
  }

  lemma {:induction false} CutGroups(op: seq<Byte>)
    requires op != [] && |op| % 3 == 0
    ensures ToSextets(op) != [] && FromSextets(ToSextets(op)[..|ToSextets(op)| - 1]) == op[..|op| - 1]
  {
    if |op| == 3 {
      CutOneGroup(op);
    } else {
      var s := ToSextets(op);
      FirstGroup(op);
      FirstBytes(op);
      CutGroups(op[3..]);
      CutLater(s, op);
      FromFirstGroup(s[..|s| - 1]);
    }
  }

  lemma CutLater(s: seq<Sextet>, op: seq<Byte>)
    requires |s| > 4 && |op| > 3
    ensures s[..|s| - 1][4..] == s[4..][..|s[4..]| - 1]
    ensures op[..|op| - 1] == [op[0], op[1], op[2]] + op[3..][..|op[3..]| - 1]
  {
  }

  lemma FromFirstGroup(s: seq<Sextet>)
    requires |s| >= 4
    ensures FromSextets(s) == [Byte0(s[0], s[1]), Byte1(s[1], s[2]), Byte2(s[2], s[3])] + FromSextets(s[4..])
  {
  }

  /** Hexadecimal digits and dashes: the alphabet of UUIDs. */
  predicate UuidText(op: seq<Byte>) {
    forall i :: 0 <= i < |op| ==> 0x30 <= op[i] <= 0x39 || 0x61 <= op[i] <= 0x66 || op[i] == 0x2D
  }

  /** The ids the program generates itself always come back. */
  lemma UuidRoundTrip(stamp: JsString, op: seq<Byte>, uuid: JsString, node: seq<Byte>, utf8: seq<Byte> -> JsString)
    requires DashFree(stamp) && DashFree(uuid) && DecodesAscii(utf8) && UuidText(op)
    ensures BackupOperationId(FileName(stamp, op, uuid, node), utf8) == Some(op)
  {
    UuidIsClean(op);
    OperationIdRoundTrip(stamp, op, uuid, node, utf8);
  }

  lemma UuidIsClean(op: seq<Byte>)
    requires UuidText(op)
    ensures IsAscii(op) && !EndsInDash(op)
  {
  }

  /** A concrete id that does not come back: "ab~" is read as "ab". */
  lemma TildeIdIsCut(stamp: JsString, uuid: JsString, node: seq<Byte>, utf8: seq<Byte> -> JsString)
    requires DashFree(stamp) && DashFree(uuid) && DecodesAscii(utf8)
    ensures BackupOperationId(FileName(stamp, [0x61, 0x62, 0x7E], uuid, node), utf8) == Some([0x61, 0x62])
  {
    var op: seq<Byte> := [0x61, 0x62, 0x7E];
    DashedIdIsCut(stamp, op, uuid, node, utf8);
    assert op[..2] == [0x61, 0x62];
  }

  /******* Which files a node's pruning looks at *******/

  const UNDERSCORE: CodeUnit := 0x5F
  const REPLACEMENT: seq<Byte> := [0xEF, 0xBF, 0xBD]

  function TwoBytes(c: int): (bytes: seq<Byte>)
    requires 0x80 <= c < 0x800
  {
    [0xC0 + c / 0x40, 0x80 + c % 0x40]
  }

  function ThreeBytes(c: int): (bytes: seq<Byte>)
    requires 0x800 <= c < 0x1_0000
  {
    [0xE0 + c / 0x1000, 0x80 + c / 0x40 % 0x40, 0x80 + c % 0x40]
  }

  function FourBytes(point: int): (bytes: seq<Byte>)
    requires 0x1_0000 <= point < 0x11_0000
  {
    [0xF0 + point / 0x4_0000, 0x80 + point / 0x1000 % 0x40, 0x80 + point / 0x40 % 0x40, 0x80 + point % 0x40]
  }

  function CodePoint(high: int, low: int): (point: int) {
    0x1_0000 + (high - 0xD800) * 0x400 + (low - 0xDC00)
  }

  /** The UTF-8 bytes of a text; a lone surrogate becomes the replacement character. */
  function Utf8(text: JsString): (bytes: seq<Byte>) {
    if text == [] then []
    else if text[0] < 0x80 then [text[0]] + Utf8(text[1..])
    else if text[0] < 0x800 then TwoBytes(text[0]) + Utf8(text[1..])
    else if text[0] < 0xD800 || text[0] >= 0xE000 then ThreeBytes(text[0]) + Utf8(text[1..])
    else if text[0] < 0xDC00 && |text| > 1 && 0xDC00 <= text[1] < 0xE000 then
      FourBytes(CodePoint(text[0], text[1])) + Utf8(text[2..])
    else REPLACEMENT + Utf8(text[1..])
  }

  /** Letters, digits, '.', '_' and '-'; ignoring case adds the long s and the Kelvin sign to the letters. */
  predicate SafeCharacter(c: CodeUnit) {
    0x61 <= c <= 0x7A || 0x41 <= c <= 0x5A || 0x30 <= c <= 0x39 || c == 0x2E || c == UNDERSCORE || c == DASH ||
    c == 0x17F || c == 0x212A
  }

  /** Every longest run of other characters becomes one underscore. */
  function Underscored(text: JsString, inRun: bool): (r: JsString) {
    if text == [] then []
    else if SafeCharacter(text[0]) then [text[0]] + Underscored(text[1..], false)
    else (if inRun then [] else [UNDERSCORE]) + Underscored(text[1..], true)
  }

  function TrimUnderscores(text: JsString): (r: JsString) {
    if text == [] then []
    else if text[0] == UNDERSCORE then TrimUnderscores(text[1..])
    else if text[|text| - 1] == UNDERSCORE then TrimUnderscores(text[..|text| - 1])
    else text
  }

  /** The node's name as older file names carry it. */
  function SafeName(node: JsString): (safe: JsString) {
    var trimmed := TrimUnderscores(Underscored(node, false));
    var cut := if |trimmed| > 120 then trimmed[..120] else trimmed;
    if cut == [] then Ascii("node") else cut
  }

  predicate EndsWith(t: JsString, end: JsString) {
    |end| <= |t| && t[|t| - |end|..] == end
  }

  /** The last part of a node's file names, without the extension. */
  function NodePart(node: JsString): (t: JsString) {
    NODE_TAG + Encode(Url, Utf8(node))
  }

  /** The node's pruning counts a file as its own: by the end that new names have, or by that of older ones. */
  predicate Passes(name: JsString, node: JsString) {
    EndsWith(name, SEPARATOR + NodePart(node) + JSON_END) || EndsWith(name, SEPARATOR + SafeName(node) + JSON_END)
  }

  lemma EndsWithoutCommon(t: JsString, end: JsString, common: JsString)
    ensures EndsWith(t + common, end + common) <==> EndsWith(t, end)
  {
    if |end| <= |t| {
      var n := |t| - |end|;
      assert (t + common)[n..] == t[n..] + common;
      assert (t[n..] + common)[..|end|] == t[n..] && (end + common)[..|end|] == end;
    }
  }

  /** The file name without its extension. */
  function Stem(stamp: JsString, op: seq<Byte>, uuid: JsString, node: JsString): (t: JsString) {
    stamp + SEPARATOR + (OP + Encode(Url, op) + SEPARATOR + (uuid + SEPARATOR + NodePart(node)))
  }

  lemma FileNameStem(stamp: JsString, op: seq<Byte>, uuid: JsString, node: JsString)
    ensures FileName(stamp, op, uuid, Utf8(node)) == Stem(stamp, op, uuid, node) + JSON_END
  {
    var part, tagged := NodePart(node), OP + Encode(Url, op);
    assert uuid + SEPARATOR + (part + JSON_END) == uuid + SEPARATOR + part + JSON_END;
    var tail := uuid + SEPARATOR + part;
    assert tagged + SEPARATOR + (tail + JSON_END) == tagged + SEPARATOR + tail + JSON_END;
    var more := tagged + SEPARATOR + tail;
    assert stamp + SEPARATOR + (more + JSON_END) == stamp + SEPARATOR + more + JSON_END;
  }

  lemma PassesByStem(stamp: JsString, op: seq<Byte>, uuid: JsString, node: JsString, a: JsString)
    ensures Passes(FileName(stamp, op, uuid, Utf8(node)), a) <==>
            var stem := Stem(stamp, op, uuid, node);
            EndsWith(stem, SEPARATOR + NodePart(a)) || EndsWith(stem, SEPARATOR + SafeName(a))
  {
    FileNameStem(stamp, op, uuid, node);
    EndsWithoutCommon(Stem(stamp, op, uuid, node), SEPARATOR + NodePart(a), JSON_END);
    EndsWithoutCommon(Stem(stamp, op, uuid, node), SEPARATOR + SafeName(a), JSON_END);
  }

  lemma EndsWithLast(a: JsString, b: JsString, end: JsString)
    ensures EndsWith(b, end) ==> EndsWith(a + b, end)
    ensures EndsWith(end, end)
  {
    if EndsWith(b, end) {
      assert (a + b)[|a + b| - |end|..] == b[|b| - |end|..];
    }
  }

  /** What ends the last part of a file name, or that and the separator before it, ends the name. */
  lemma StemEndsInNode(stamp: JsString, op: seq<Byte>, uuid: JsString, node: JsString, end: JsString)
    requires EndsWith(SEPARATOR + NodePart(node), end)
    ensures EndsWith(Stem(stamp, op, uuid, node), end)
  {
    var last := SEPARATOR + NodePart(node);
    EndsWithLast(uuid, last, end);
    assert uuid + last == uuid + SEPARATOR + NodePart(node);
    EndsWithLast(OP + Encode(Url, op) + SEPARATOR, uuid + last, end);
    EndsWithLast(stamp + SEPARATOR, OP + Encode(Url, op) + SEPARATOR + (uuid + last), end);
  }

  /** A node's own backups always pass its test. */
  lemma OwnFilePasses(stamp: JsString, op: seq<Byte>, uuid: JsString, node: JsString)
    ensures Passes(FileName(stamp, op, uuid, Utf8(node)), node)
  {
    PassesByStem(stamp, op, uuid, node, node);
    EndsWithLast([], [], SEPARATOR + NodePart(node));
    StemEndsInNode(stamp, op, uuid, node, SEPARATOR + NodePart(node));
  }

  /** No separator starts in the text. */
  ghost predicate Undashed(t: JsString) {
    forall i :: 0 <= i < |t| ==> !DashesAt(t, i)
  }

  /**
   What follows a separator in a text made of two parts: the second part, or what follows a separator in
   it; and a dash that ends the first part makes the separator start one earlier.
   */
  lemma EndsAfterSeparator(a: JsString, rest: JsString, s: JsString)
    requires Undashed(a) && rest != [] && rest[0] != DASH
    ensures EndsWith(a + SEPARATOR + rest, SEPARATOR + s) <==>
            s == rest || EndsWith(rest, SEPARATOR + s) ||
            (a != [] && a[|a| - 1] == DASH && s == [DASH] + rest)
  {
    var t := a + SEPARATOR + rest;
    if |s| + 2 <= |rest| {
      assert t[|t| - |s| - 2..] == rest[|rest| - |s| - 2..];
    } else if |s| + 2 <= |t| {
      var i := |t| - |s| - 2;
      SeparatorStarts(a, rest, i);
      assert t[i..] == SEPARATOR + s <==> DashesAt(t, i) && t[i + 2..] == s;
      if i == |a| {
        assert t[i + 2..] == rest;
      } else if i + 1 == |a| {
        assert t[i + 2..] == [DASH] + rest;
      }
    }
  }

  /** Where separators start up to the second part. */
  lemma SeparatorStarts(a: JsString, rest: JsString, i: nat)
    requires Undashed(a) && rest != [] && rest[0] != DASH && i < |a| + 2
    ensures DashesAt(a + SEPARATOR + rest, i) <==> i == |a| || (i + 1 == |a| && a[i] == DASH)
  {
    var t := a + SEPARATOR + rest;
    assert t[|a|] == DASH && t[|a| + 1] == DASH && t[|a| + 2] == rest[0];
    if i + 1 < |a| {
      assert t[i] == a[i] && t[i + 1] == a[i + 1] && !DashesAt(a, i);
    }
  }

  lemma NoneInUndashed(t: JsString, s: JsString)
    requires Undashed(t)
    ensures !EndsWith(t, SEPARATOR + s)
  {
    if EndsWith(t, SEPARATOR + s) {
      var i := |t| - |s| - 2;
      assert t[i..][0] == DASH && t[i..][1] == DASH;
      assert DashesAt(t, i);
    }
  }

  lemma TaggedUndashed(tag: JsString, digits: JsString)
    requires Undashed(tag) && tag != [] && tag[|tag| - 1] != DASH && Undashed(digits)
    ensures Undashed(tag + digits)
  {
    var t := tag + digits;
    forall i | 0 <= i < |t| ensures !DashesAt(t, i) {
      if i + 1 < |tag| {
        assert !DashesAt(tag, i);
      } else if i >= |tag| {
        assert !DashesAt(digits, i - |tag|);
      }
    }
  }

  lemma TagsUndashed()
    ensures Undashed(OP) && |OP| == 3 && OP[2] != DASH && OP[0] != DASH
    ensures Undashed(NODE_TAG) && |NODE_TAG| == 9 && NODE_TAG[8] != DASH && NODE_TAG[0] != DASH
  {
  }

  /** What can follow a separator in a file name: its last parts. */
  function Tails(op: seq<Byte>, uuid: JsString, node: JsString): (tails: set<JsString>) {
    var two := uuid + SEPARATOR + NodePart(node);
    {NodePart(node), two, OP + Encode(Url, op) + SEPARATOR + two} + if EndsInDash(op) then {[DASH] + two} else {}
  }

  /** A non-empty part of a file name that no dash borders on. */
  ghost predicate Block(t: JsString) {
    t != [] && t[0] != DASH && DashFree(t)
  }

  lemma FreeIsUndashed(t: JsString)
    requires DashFree(t)
    ensures Undashed(t) && (t != [] ==> t[|t| - 1] != DASH)
  {
    forall i | 0 <= i < |t| ensures !DashesAt(t, i) && (i == |t| - 1 ==> t[i] != DASH) {
    }
  }

  /** The tagged operation id holds no separator, and ends in a dash exactly if its encoding does. */
  lemma OperationPart(op: seq<Byte>)
    requires IsAscii(op)
    ensures var t := OP + Encode(Url, op); Undashed(t) && (t[|t| - 1] == DASH <==> EndsInDash(op))
  {
    var digits := Encode(Url, op);
    TagsUndashed();
    if EndsInDash(op) {
      CutDashFree(op);
      CutThenDash(op);
      FreeIsUndashed(CutDigits(op));
      DashBehind(CutDigits(op));
    } else {
      EncodedDashFree(op);
      FreeIsUndashed(digits);
    }
    TaggedUndashed(OP, digits);
  }

  lemma DashBehind(t: JsString)
    requires Undashed(t) && (t != [] ==> t[|t| - 1] != DASH)
    ensures Undashed(t + [DASH])
  {
    forall i | 0 <= i < |t| + 1 ensures !DashesAt(t + [DASH], i) {
      if i + 1 < |t| {
        assert !DashesAt(t, i);
      }
    }
  }

  /** A file name ends with a separator and a text exactly if the text is one of its tails. */
  lemma StemEnds(stamp: JsString, op: seq<Byte>, uuid: JsString, node: JsString, s: JsString)
    requires DashFree(stamp) && Block(uuid) && IsAscii(op) && Undashed(Encode(Url, Utf8(node)))
    ensures EndsWith(Stem(stamp, op, uuid, node), SEPARATOR + s) <==> s in Tails(op, uuid, node)
  {
    var last, tagged := NodePart(node), OP + Encode(Url, op);
    var two := uuid + SEPARATOR + last;
    TagsUndashed();
    TaggedUndashed(NODE_TAG, Encode(Url, Utf8(node)));
    NoneInUndashed(last, s);
    FreeIsUndashed(uuid);
    EndsAfterSeparator(uuid, last, s);
    OperationPart(op);
    EndsAfterSeparator(tagged, two, s);
    FreeIsUndashed(stamp);
    EndsAfterSeparator(stamp, tagged + SEPARATOR + two, s);
  }

  lemma {:induction false} Utf8Ascii(text: JsString)
    requires forall i :: 0 <= i < |text| ==> text[i] < 0x80
    ensures Utf8(text) == text
  {
    if text != [] {
      Utf8Ascii(text[1..]);
      assert text == [text[0]] + text[1..];
    }
  }

  ghost predicate AsciiName(node: JsString) {
    forall i :: 0 <= i < |node| ==> node[i] < 0x80
  }

  lemma NotBothLast(i: nat)
    ensures !(i % 4 == 3 && (i + 1) % 4 == 3)
  {
  }

  lemma DashesApart(bytes: seq<Byte>, i: nat)
    requires IsAscii(bytes) && i + 1 < |ToSextets(bytes)|
    ensures var digits := Digits(Url, ToSextets(bytes)); !(digits[i] == DASH && digits[i + 1] == DASH)
  {
    DashDigit(bytes, i);
    DashDigit(bytes, i + 1);
    NotBothLast(i);
  }

  lemma AsciiUndashed(node: JsString)
    requires AsciiName(node)
    ensures Undashed(Encode(Url, Utf8(node)))
  {
    Utf8Ascii(node);
    var bytes := Utf8(node);
    forall i | 0 <= i < |Encode(Url, bytes)| ensures !DashesAt(Encode(Url, bytes), i) {
      if i + 1 < |ToSextets(bytes)| {
        DashesApart(bytes, i);
      }
    }
  }

  lemma SameNodePart(node: JsString, a: JsString)
    ensures NodePart(a) == NodePart(node) <==> Utf8(a) == Utf8(node)
  {
    if NodePart(a) == NodePart(node) {
      assert |NODE_TAG| == 9;
      assert NodePart(a)[9..] == Encode(Url, Utf8(a)) && NodePart(node)[9..] == Encode(Url, Utf8(node));
      DecodeEncode(Url, Utf8(a));
      DecodeEncode(Url, Utf8(node));
    }
  }

  /** Of the tails only the last part holds no separator. */
  lemma UndashedTail(op: seq<Byte>, uuid: JsString, node: JsString, s: JsString)
    requires Undashed(s)
    ensures s in Tails(op, uuid, node) <==> s == NodePart(node)
  {
    var last := NodePart(node);
    HoldsSeparator([], uuid, last);
    assert [] + (uuid + SEPARATOR + last) == uuid + SEPARATOR + last;
    HoldsSeparator([DASH], uuid, last);
    HoldsSeparator(OP + Encode(Url, op) + SEPARATOR, uuid, last);
  }

  lemma HoldsSeparator(before: JsString, uuid: JsString, last: JsString)
    ensures !Undashed(before + (uuid + SEPARATOR + last))
  {
    assert DashesAt(before + (uuid + SEPARATOR + last), |before| + |uuid|);
  }

  /** For any names whose encodings hold no separator: by encoded names, or by a tail. */
  lemma PassesIff(stamp: JsString, op: seq<Byte>, uuid: JsString, node: JsString, a: JsString)
    requires DashFree(stamp) && Block(uuid) && IsAscii(op)
    requires Undashed(Encode(Url, Utf8(node))) && Undashed(Encode(Url, Utf8(a)))
    ensures Passes(FileName(stamp, op, uuid, Utf8(node)), a) <==>
            Utf8(a) == Utf8(node) || SafeName(a) in Tails(op, uuid, node)
  {
    PassesByStem(stamp, op, uuid, node, a);
    StemEnds(stamp, op, uuid, node, NodePart(a));
    StemEnds(stamp, op, uuid, node, SafeName(a));
    TagsUndashed();
    TaggedUndashed(NODE_TAG, Encode(Url, Utf8(a)));
    UndashedTail(op, uuid, node, NodePart(a));
    SameNodePart(node, a);
  }

  /**
   A node's backup passes the test of a node exactly if that is the same node, or its name, made safe for
   files, is a tail of the backup's name: its encoded node, or that with the parts before it.
   */
  lemma OtherFilePassesIff(stamp: JsString, op: seq<Byte>, uuid: JsString, node: JsString, a: JsString)
    requires DashFree(stamp) && Block(uuid) && IsAscii(op) && AsciiName(node) && AsciiName(a)
    ensures Passes(FileName(stamp, op, uuid, Utf8(node)), a) <==> a == node || SafeName(a) in Tails(op, uuid, node)
  {
    AsciiUndashed(node);
    AsciiUndashed(a);
    Utf8Ascii(node);
    Utf8Ascii(a);
    PassesIff(stamp, op, uuid, node, a);
  }

  lemma {:induction false} UnderscoredSafe(text: JsString, inRun: bool)
    requires forall i :: 0 <= i < |text| ==> SafeCharacter(text[i])
    ensures Underscored(text, inRun) == text
  {
    if text != [] {
      UnderscoredSafe(text[1..], false);
      assert text == [text[0]] + text[1..];
    }
  }

  /** Short names of safe characters without underscores at the ends stay as they are. */
  lemma SafeNameKept(name: JsString)
    requires 0 < |name| <= 120 && forall i :: 0 <= i < |name| ==> SafeCharacter(name[i])
    requires name[0] != UNDERSCORE && name[|name| - 1] != UNDERSCORE
    ensures SafeName(name) == name
  {
    UnderscoredSafe(name, false);
  }

  const FOO: JsString := [0x66, 0x6F, 0x6F]
  const ENCODED_FOO: JsString := [0x5A, 0x6D, 0x39, 0x76]
  const NAMESAKE := NODE_TAG + ENCODED_FOO

  lemma FooEncoded()
    ensures Utf8(FOO) == FOO && Encode(Url, Utf8(FOO)) == ENCODED_FOO
  {
    Utf8Ascii(FOO);
    assert ToSextets(FOO) == [25, 38, 61, 47];
    assert Digits(Url, [25, 38, 61, 47]) == ENCODED_FOO;
  }

  lemma NamesakeSafe()
    ensures AsciiName(NAMESAKE) && SafeName(NAMESAKE) == NAMESAKE
  {
    assert |NODE_TAG| == 9 && forall i :: 0 <= i < 9 ==> SafeCharacter(NODE_TAG[i]) && NODE_TAG[i] < 0x80;
    assert NODE_TAG[0] != UNDERSCORE;
    SafeNameKept(NAMESAKE);
  }

  /** The node named "node_b64_Zm9v" takes the backups of the node "foo" for its own. */
  lemma NamesakePasses(stamp: JsString, op: seq<Byte>, uuid: JsString)
    requires DashFree(stamp) && Block(uuid) && IsAscii(op)
    ensures NAMESAKE != FOO && Passes(FileName(stamp, op, uuid, Utf8(FOO)), NAMESAKE)
  {
    FooEncoded();
    NamesakeSafe();
    OtherFilePassesIff(stamp, op, uuid, FOO, NAMESAKE);
  }

  /** "a", the letter U+03FE, "foo": its encoding is "Yc--Zm9v". */
  const DASHED_NAME: JsString := [0x61, 0x3FE, 0x66, 0x6F, 0x6F]

  lemma DashedNameBytes()
    ensures Utf8(DASHED_NAME) == [0x61, 0xCF, 0xBE] + FOO
  {
    Utf8Ascii(FOO);
    assert DASHED_NAME[1..][1..] == FOO;
    assert TwoBytes(0x3FE) == [0xCF, 0xBE];
  }

  lemma DashedNameEncoded()
    ensures Encode(Url, Utf8(DASHED_NAME)) == [0x59, 0x63] + SEPARATOR + ENCODED_FOO
  {
    DashedNameBytes();
    FooEncoded();
    FirstGroupOf(0x61, 0xCF, 0xBE, FOO);
    DigitsJoin(Url, [24, 28, 62, 62], ToSextets(FOO));
    assert Digits(Url, [24, 28, 62, 62]) == [0x59, 0x63] + SEPARATOR;
  }

  lemma SplitNodePart(tag: JsString, a: JsString, b: JsString, c: JsString)
    ensures SEPARATOR + (tag + (a + b + c)) == SEPARATOR + tag + a + (b + c)
  {
  }

  /** Without ASCII an encoding can hold a separator: the node "Zm9v" takes this node's backups for its own. */
  lemma DashedNamePasses(stamp: JsString, op: seq<Byte>, uuid: JsString)
    ensures Passes(FileName(stamp, op, uuid, Utf8(DASHED_NAME)), ENCODED_FOO)
  {
    var end := SEPARATOR + ENCODED_FOO;
    var before := SEPARATOR + NODE_TAG + [0x59, 0x63];
    DashedNameEncoded();
    SafeNameKept(ENCODED_FOO);
    EndsWithLast(before, end, end);
    SplitNodePart(NODE_TAG, [0x59, 0x63], SEPARATOR, ENCODED_FOO);
    StemEndsInNode(stamp, op, uuid, DASHED_NAME, end);
    PassesByStem(stamp, op, uuid, DASHED_NAME, ENCODED_FOO);
  }

  lemma NamePartsSample()
    ensures NodePart(FOO) + JSON_END ==
            [0x6E, 0x6F, 0x64, 0x65, 0x5F, 0x62, 0x36, 0x34, 0x5F, 0x5A, 0x6D, 0x39, 0x76, 0x2E, 0x6A, 0x73, 0x6F, 0x6E]
    ensures OP + Encode(Url, FOO) == [0x6F, 0x70, 0x5F, 0x5A, 0x6D, 0x39, 0x76]
  {
    FooEncoded();
    Utf8Ascii(FOO);
  }

  /**
   A whole file name, of stamp "T", operation "foo", unique part "U" and node "foo":
   T--op_Zm9v--U--node_b64_Zm9v.json. An older name of the node ends in --foo.json.
   */
  lemma NameSample(older: JsString)
    ensures FileName([0x54], FOO, [0x55], Utf8(FOO)) ==
            [0x54, 0x2D, 0x2D] + ([0x6F, 0x70, 0x5F, 0x5A, 0x6D, 0x39, 0x76] + [0x2D, 0x2D] +
              ([0x55, 0x2D, 0x2D] +
                [0x6E, 0x6F, 0x64, 0x65, 0x5F, 0x62, 0x36, 0x34, 0x5F, 0x5A, 0x6D, 0x39, 0x76,
                 0x2E, 0x6A, 0x73, 0x6F, 0x6E]))
    ensures FOO == [0x66, 0x6F, 0x6F]
    ensures Passes(older + [0x2D, 0x2D, 0x66, 0x6F, 0x6F, 0x2E, 0x6A, 0x73, 0x6F, 0x6E], FOO)
  {
    NamePartsSample();
    assert [0x54] + SEPARATOR == [0x54, 0x2D, 0x2D] && [0x55] + SEPARATOR == [0x55, 0x2D, 0x2D];
    var end := SEPARATOR + FOO + JSON_END;
    SafeNameKept(FOO);
    assert end == [0x2D, 0x2D, 0x66, 0x6F, 0x6F, 0x2E, 0x6A, 0x73, 0x6F, 0x6E];
    EndsWithLast(older, end, end);
  }

  /** Texts of one, two, three and four bytes a character, and a lone surrogate. */
  lemma Utf8Samples()
    ensures Utf8([0x41]) == [0x41] && Utf8([0xE9]) == [0xC3, 0xA9] && Utf8([0x20AC]) == [0xE2, 0x82, 0xAC]
    ensures Utf8([0xD83D, 0xDE00]) == [0xF0, 0x9F, 0x98, 0x80] && Utf8([0xD83D]) == [0xEF, 0xBF, 0xBD]
  {
    assert [0x41][1..] == [] && [0xE9][1..] == [] && [0x20AC][1..] == [] && [0xD83D][1..] == [];
    assert [0xD83D, 0xDE00][2..] == [];
    assert TwoBytes(0xE9) == [0xC3, 0xA9] && ThreeBytes(0x20AC) == [0xE2, 0x82, 0xAC];
    assert CodePoint(0xD83D, 0xDE00) == 0x1F600 && FourBytes(0x1F600) == [0xF0, 0x9F, 0x98, 0x80];
  }

  lemma {:induction false} UnderscoredIsSafe(text: JsString, inRun: bool)
    ensures forall i :: 0 <= i < |Underscored(text, inRun)| ==> SafeCharacter(Underscored(text, inRun)[i])
  {
    if text != [] {
      UnderscoredIsSafe(text[1..], !SafeCharacter(text[0]));
    }
  }

  lemma {:induction false} TrimmedIsSafe(text: JsString)
    requires forall i :: 0 <= i < |text| ==> SafeCharacter(text[i])
    ensures var t := TrimUnderscores(text);
            (forall i :: 0 <= i < |t| ==> SafeCharacter(t[i])) &&
            (t != [] ==> t[0] != UNDERSCORE && t[|t| - 1] != UNDERSCORE)
    decreases |text|
  {
    if text != [] && text[0] == UNDERSCORE {
      TrimmedIsSafe(text[1..]);
    } else if text != [] && text[|text| - 1] == UNDERSCORE {
      TrimmedIsSafe(text[..|text| - 1]);
    }
  }

  /**
   A safe name is never empty, at most 120 characters long, of letters, digits, '.', '_' and '-' (and the long s
   and the Kelvin sign) only, and does not start with an underscore.
   */
  lemma SafeNameShape(node: JsString)
    ensures var safe := SafeName(node);
            0 < |safe| <= 120 && safe[0] != 0x5F &&
            forall i :: 0 <= i < |safe| ==>
              'a' as int <= safe[i] <= 'z' as int || 'A' as int <= safe[i] <= 'Z' as int ||
              '0' as int <= safe[i] <= '9' as int || safe[i] in {0x2E, 0x5F, 0x2D, 0x17F, 0x212A}
  {
    UnderscoredIsSafe(node, false);
    TrimmedIsSafe(Underscored(node, false));
    assert Ascii("node") == [0x6E, 0x6F, 0x64, 0x65];
  }

  /** Each run of other characters is one underscore, none at the ends; a name of such characters only is "node". */
  lemma SafeNameSamples()
    ensures SafeName([0x61, 0x20, 0xE9, 0x62]) == [0x61, 0x5F, 0x62]
    ensures SafeName([0x5F, 0x61, 0x21]) == [0x61]
    ensures SafeName([0x20, 0x21]) == [0x6E, 0x6F, 0x64, 0x65]
  {
    RunSamples();
    assert TrimUnderscores([0x61, 0x5F, 0x62]) == [0x61, 0x5F, 0x62];
    assert [0x5F, 0x61, 0x5F][1..] == [0x61, 0x5F] && [0x61, 0x5F][..1] == [0x61];
    assert TrimUnderscores([0x61]) == [0x61] && TrimUnderscores([0x61, 0x5F]) == [0x61];
    assert [0x5F][1..] == [] && TrimUnderscores([0x5F]) == [];
    assert Ascii("node") == [0x6E, 0x6F, 0x64, 0x65];
  }

  lemma RunSamples()
    ensures Underscored([0x61, 0x20, 0xE9, 0x62], false) == [0x61, 0x5F, 0x62]
    ensures Underscored([0x5F, 0x61, 0x21], false) == [0x5F, 0x61, 0x5F]
    ensures Underscored([0x20, 0x21], false) == [0x5F]
  {
    assert Underscored([], true) == [] && Underscored([], false) == [];
    assert Underscored([0x62], true) == [0x62] by { assert [0x62][1..] == []; }
    assert Underscored([0xE9, 0x62], true) == [0x62] by { assert [0xE9, 0x62][1..] == [0x62]; }
    assert Underscored([0x20, 0xE9, 0x62], false) == [0x5F, 0x62] by {
      assert [0x20, 0xE9, 0x62][1..] == [0xE9, 0x62];
    }
    assert [0x61, 0x20, 0xE9, 0x62][1..] == [0x20, 0xE9, 0x62];
    assert Underscored([0x21], false) == [0x5F] by { assert [0x21][1..] == []; }
    assert Underscored([0x61, 0x21], false) == [0x61, 0x5F] by { assert [0x61, 0x21][1..] == [0x21]; }
    assert [0x5F, 0x61, 0x21][1..] == [0x61, 0x21];
    assert Underscored([0x21], true) == [] by { assert [0x21][1..] == []; }
    assert [0x20, 0x21][1..] == [0x21];
  }
}

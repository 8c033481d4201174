/** Base64 with the alphabets of sections 4 and 5 of RFC 4648, and the runtime's lenient decoder. */
module Base64 {
  import opened Wrappers
  import opened JsText

  type Byte = b: int | 0 <= b < 0x100

  type Sextet = s: int | 0 <= s < 0x40

  /** Standard text is padded to groups of four; URL text is not padded. */
  datatype Alphabet = Standard | Url

  const PAD: CodeUnit := 0x3D

  function Digit(alphabet: Alphabet, s: Sextet): (c: CodeUnit) {
    if s < 26 then 0x41 + s
    else if s < 52 then 0x61 + (s - 26)
    else if s < 62 then 0x30 + (s - 52)
    else if s == 62 then (if alphabet == Standard then 0x2B else 0x2D)
    else (if alphabet == Standard then 0x2F else 0x5F)
  }

  /** The decoder knows both alphabets at once. */
  function DigitValue(c: CodeUnit): (s: Option<Sextet>) {
    if 0x41 <= c <= 0x5A then Some(c - 0x41)
    else if 0x61 <= c <= 0x7A then Some(c - 0x61 + 26)
    else if 0x30 <= c <= 0x39 then Some(c - 0x30 + 52)
    else if c == 0x2B || c == 0x2D then Some(62)
    else if c == 0x2F || c == 0x5F then Some(63)
    else None
  }

  predicate StandardDigit(c: CodeUnit) {
    DigitValue(c).Some? && c != 0x2D && c != 0x5F
  }

  lemma DigitRoundTrip(alphabet: Alphabet, s: Sextet)
    ensures DigitValue(Digit(alphabet, s)) == Some(s)
    ensures StandardDigit(Digit(Standard, s)) && Digit(alphabet, s) != PAD
    ensures Digit(Url, s) == 0x2D <==> s == 62
  {
  }

  function ToSextets(bytes: seq<Byte>): (r: seq<Sextet>)
    decreases |bytes|, 0
  {
    if bytes == [] then []
    else if |bytes| == 1 then [bytes[0] / 4, bytes[0] % 4 * 16]
    else if |bytes| == 2 then [bytes[0] / 4, bytes[0] % 4 * 16 + bytes[1] / 16, bytes[1] % 16 * 4]
    else GroupAndMore(bytes)
  }

  /** A whole group of three bytes, and what follows it. */
  function GroupAndMore(bytes: seq<Byte>): (r: seq<Sextet>)
    requires |bytes| > 2
    decreases |bytes| - 3, 1
  {
    [bytes[0] / 4, bytes[0] % 4 * 16 + bytes[1] / 16, bytes[1] % 16 * 4 + bytes[2] / 64, bytes[2] % 64] +
    ToSextets(bytes[3..])
  }

  function Byte0(a: Sextet, b: Sextet): (r: Byte) {
    (a as int) * 4 + (b as int) / 16
  }

  function Byte1(b: Sextet, c: Sextet): (r: Byte) {
    (b as int) % 16 * 16 + (c as int) / 4
  }

  function Byte2(c: Sextet, d: Sextet): (r: Byte) {
    (c as int) % 4 * 64 + d as int
  }

  /** Left-over bits that do not fill a byte are dropped. */
  function FromSextets(s: seq<Sextet>): (bytes: seq<Byte>) {
    if |s| < 2 then []
    else if |s| == 2 then [Byte0(s[0], s[1])]
    else if |s| == 3 then [Byte0(s[0], s[1]), Byte1(s[1], s[2])]
    else [Byte0(s[0], s[1]), Byte1(s[1], s[2]), Byte2(s[2], s[3])] + FromSextets(s[4..])
  }

  function Digits(alphabet: Alphabet, s: seq<Sextet>): (t: JsString)
    ensures |t| == |s| && forall i :: 0 <= i < |s| ==> t[i] == Digit(alphabet, s[i])
  {
    if s == [] then [] else [Digit(alphabet, s[0])] + Digits(alphabet, s[1..])
  }

  function Padding(n: nat): (t: JsString) {
    if n % 4 == 2 then [PAD, PAD] else if n % 4 == 3 then [PAD] else []
  }

  function Encode(alphabet: Alphabet, bytes: seq<Byte>): (t: JsString) {
    var s := ToSextets(bytes);
    Digits(alphabet, s) + if alphabet == Standard then Padding(|s|) else []
  }

  /** The digits before the first padding character; anything else is skipped. */
  function Sextets(t: JsString): (s: seq<Sextet>) {
    if t == [] || t[0] == PAD then []
    else (if DigitValue(t[0]).Some? then [DigitValue(t[0]).value] else []) + Sextets(t[1..])
  }

  function Decode(t: JsString): (bytes: seq<Byte>) {
    FromSextets(Sextets(t))
  }

  lemma FirstGroupOf(a: Byte, b: Byte, c: Byte, rest: seq<Byte>)
    ensures ToSextets([a, b, c] + rest) ==
            [a / 4, a % 4 * 16 + b / 16, b % 16 * 4 + c / 64, c % 64] + ToSextets(rest)
  {
    assert ([a, b, c] + rest)[3..] == rest;
  }

  /** The number that digits stand for in a positional system. */
  function Positional(digits: seq<int>, radix: int): (n: int) {
    if digits == [] then 0 else Positional(digits[..|digits| - 1], radix) * radix + digits[|digits| - 1]
  }

  lemma PositionalOf(a: int, b: int, c: int, d: int, radix: int)
    ensures Positional([a, b], radix) == a * radix + b
    ensures Positional([a, b, c], radix) == (a * radix + b) * radix + c
    ensures Positional([a, b, c, d], radix) == ((a * radix + b) * radix + c) * radix + d
  {
    assert [a, b, c, d][..3] == [a, b, c] && [a, b, c][..2] == [a, b] && [a, b][..1] == [a] && [a][..0] == [];
    assert Positional([a], radix) == a;
  }

  lemma SameBits(a: int, b: int, c: int)
    requires 0 <= a < 0x100 && 0 <= b < 0x100 && 0 <= c < 0x100
    ensures ((a / 4 * 64 + (a % 4 * 16 + b / 16)) * 64 + (b % 16 * 4 + c / 64)) * 64 + c % 64 ==
            (a * 256 + b) * 256 + c
  {
    assert a == a / 4 * 4 + a % 4 && b == b / 16 * 16 + b % 16 && c == c / 64 * 64 + c % 64;
  }

  /** The place of a character in the alphabet, capital letters first, then small letters, digits and two more. */
  function Place(c: CodeUnit): (n: int) {
    if 'A' as int <= c <= 'Z' as int then c - 'A' as int
    else if 'a' as int <= c <= 'z' as int then 26 + (c - 'a' as int)
    else if '0' as int <= c <= '9' as int then 52 + (c - '0' as int)
    else if c == '+' as int || c == '-' as int then 62
    else 63
  }

  function Places(t: JsString): (ns: seq<int>) {
    if t == [] then [] else [Place(t[0])] + Places(t[1..])
  }

  /** Digits are characters of the right alphabet, and their places are the sextets. */
  lemma {:induction false} PlacesOfDigits(alphabet: Alphabet, s: seq<Sextet>)
    ensures Places(Digits(alphabet, s)) == s
    ensures '+' as int !in Digits(Url, s) && '/' as int !in Digits(Url, s)
    ensures '-' as int !in Digits(Standard, s) && '_' as int !in Digits(Standard, s)
  {
    if s != [] {
      PlacesOfDigits(alphabet, s[1..]);
      assert s == [s[0]] + s[1..];
    }
  }

  lemma GroupSextets(a: Byte, b: Byte, c: Byte)
    ensures Positional(ToSextets([a, b, c]), 64) == Positional([a, b, c], 256)
    ensures Positional(ToSextets([a, b]), 64) == Positional([a, b], 256) * 4
    ensures Positional(ToSextets([a]), 64) == Positional([a], 256) * 16
  {
    FirstGroupOf(a, b, c, []);
    assert [a, b, c] + [] == [a, b, c];
    assert ToSextets([a, b, c]) == [a / 4, a % 4 * 16 + b / 16, b % 16 * 4 + c / 64, c % 64];
    PositionalOf(a / 4, a % 4 * 16 + b / 16, b % 16 * 4 + c / 64, c % 64, 64);
    SameBits(a, b, c);
    PositionalOf(a, b, c, 0, 256);
    SameBits(a, b, 0);
    PositionalOf(a / 4, a % 4 * 16 + b / 16, b % 16 * 4, 0, 64);
    PositionalOf(a / 4, a % 4 * 16, 0, 0, 64);
    assert [a][..0] == [];
  }

  /**
   The places of the encoded characters are the digits, in base 64, of the number that three bytes are the digits
   of in base 256; two bytes and one are filled up with zeros to the next character.
   */
  lemma GroupIsNumber(alphabet: Alphabet, a: Byte, b: Byte, c: Byte)
    ensures Positional(Places(Encode(alphabet, [a, b, c])), 64) == Positional([a, b, c], 256)
    ensures Positional(Places(Encode(Url, [a, b])), 64) == Positional([a, b], 256) * 4
    ensures Positional(Places(Encode(Url, [a])), 64) == Positional([a], 256) * 16
  {
    GroupSextets(a, b, c);
    WholeGroup(a, b, c);
    PlacesUnpadded(alphabet, [a, b, c]);
    PlacesUnpadded(Url, [a, b]);
    PlacesUnpadded(Url, [a]);
  }

  lemma WholeGroup(a: Byte, b: Byte, c: Byte)
    ensures |ToSextets([a, b, c])| == 4
  {
    FirstGroupOf(a, b, c, []);
    assert [a, b, c] + [] == [a, b, c];
  }

  lemma EncodedDigits(alphabet: Alphabet, bytes: seq<Byte>)
    ensures var s := ToSextets(bytes);
            Encode(alphabet, bytes) == Digits(alphabet, s) + if alphabet == Standard then Padding(|s|) else []
  {
  }

  lemma PlacesUnpadded(alphabet: Alphabet, bytes: seq<Byte>)
    requires alphabet == Url || |ToSextets(bytes)| % 4 == 0
    ensures Encode(alphabet, bytes) == Digits(alphabet, ToSextets(bytes))
    ensures Places(Encode(alphabet, bytes)) == ToSextets(bytes)
  {
    var digits := Digits(alphabet, ToSextets(bytes));
    EncodedDigits(alphabet, bytes);
    PlacesOfDigits(alphabet, ToSextets(bytes));
    assert digits + [] == digits;
  }

  lemma EncodedInTwo(alphabet: Alphabet, x: seq<Sextet>, y: seq<Sextet>)
    requires |x| == 4
    ensures Digits(alphabet, x + y) + (if alphabet == Standard then Padding(|x + y|) else []) ==
            Digits(alphabet, x) + (Digits(alphabet, y) + if alphabet == Standard then Padding(|y|) else [])
  {
    var pad := if alphabet == Standard then Padding(|y|) else [];
    FourMore(|y|);
    DigitsJoin(alphabet, x, y);
    assert (Digits(alphabet, x) + Digits(alphabet, y)) + pad == Digits(alphabet, x) + (Digits(alphabet, y) + pad);
  }

  lemma SextetsInTwo(a: Byte, b: Byte, c: Byte, rest: seq<Byte>)
    ensures ToSextets([a, b, c] + rest) == ToSextets([a, b, c]) + ToSextets(rest)
  {
    FirstGroupOf(a, b, c, rest);
    FirstGroupOf(a, b, c, []);
    assert [a, b, c] + [] == [a, b, c];
  }

  /** Longer byte sequences are encoded three bytes at a time. */
  lemma GroupByGroup(alphabet: Alphabet, a: Byte, b: Byte, c: Byte, rest: seq<Byte>)
    ensures Encode(alphabet, [a, b, c] + rest) == Encode(alphabet, [a, b, c]) + Encode(alphabet, rest)
  {
    WholeGroup(a, b, c);
    SextetsInTwo(a, b, c, rest);
    PlacesUnpadded(alphabet, [a, b, c]);
    EncodedDigits(alphabet, [a, b, c] + rest);
    EncodedDigits(alphabet, rest);
    EncodedInTwo(alphabet, ToSextets([a, b, c]), ToSextets(rest));
  }

  lemma FourMore(n: nat)
    ensures Padding(n + 4) == Padding(n)
  {
  }

  lemma {:induction false} DigitsJoin(alphabet: Alphabet, a: seq<Sextet>, b: seq<Sextet>)
    ensures Digits(alphabet, a + b) == Digits(alphabet, a) + Digits(alphabet, b)
  {
  }

  /** Standard text of one byte or two is filled up with '=' to four characters; URL text is not filled up. */
  lemma FilledUp(a: Byte, b: Byte)
    ensures |Encode(Url, [a, b])| == 3 && |Encode(Url, [a])| == 2
    ensures var t := Encode(Standard, [a, b]); |t| == 4 && t[3] == 0x3D && Places(t[..3]) == Places(Encode(Url, [a, b]))
    ensures var t := Encode(Standard, [a]);
            |t| == 4 && t[2] == 0x3D && t[3] == 0x3D && Places(t[..2]) == Places(Encode(Url, [a]))
  {
    var x, y := ToSextets([a, b]), ToSextets([a]);
    EncodedDigits(Url, [a, b]);
    EncodedDigits(Url, [a]);
    assert Digits(Url, x) + [] == Digits(Url, x) && Digits(Url, y) + [] == Digits(Url, y);
    assert Encode(Standard, [a, b])[..3] == Digits(Standard, x) && Encode(Standard, [a])[..2] == Digits(Standard, y);
    PlacesOfDigits(Url, x);
    PlacesOfDigits(Url, y);
    PlacesOfDigits(Standard, x);
    PlacesOfDigits(Standard, y);
  }

  /******* Decoding inverts encoding *******/

  lemma GroupRoundTrip(a: Byte, b: Byte, c: Byte)
    ensures a / 4 * 4 + (a % 4 * 16 + b / 16) / 16 == a
    ensures (a % 4 * 16 + b / 16) % 16 * 16 + (b % 16 * 4 + c / 64) / 4 == b
    ensures (b % 16 * 4 + c / 64) % 4 * 64 + c % 64 == c
  {
  }

  lemma {:induction false} SextetsRoundTrip(bytes: seq<Byte>)
    ensures FromSextets(ToSextets(bytes)) == bytes
  {
    if |bytes| == 1 {
      GroupRoundTrip(bytes[0], 0, 0);
    } else if |bytes| == 2 {
      GroupRoundTrip(bytes[0], bytes[1], 0);
    } else if |bytes| > 2 {
      var rest := bytes[3..];
      SextetsRoundTrip(rest);
      assert bytes == [bytes[0], bytes[1], bytes[2]] + rest;
      FirstGroupOf(bytes[0], bytes[1], bytes[2], rest);
      FirstGroupBack(bytes[0], bytes[1], bytes[2], ToSextets(rest));
    }
  }

  lemma BytesFirst(p: Sextet, q: Sextet, r: Sextet, t: Sextet, rest: seq<Sextet>)
    ensures FromSextets([p, q, r, t] + rest) == [Byte0(p, q), Byte1(q, r), Byte2(r, t)] + FromSextets(rest)
  {
    var s := [p, q, r, t] + rest;
    assert s[4..] == rest && s[0] == p && s[1] == q && s[2] == r && s[3] == t;
  }

  lemma FirstGroupBack(a: Byte, b: Byte, c: Byte, rest: seq<Sextet>)
    ensures FromSextets([a / 4, a % 4 * 16 + b / 16, b % 16 * 4 + c / 64, c % 64] + rest) ==
            [a, b, c] + FromSextets(rest)
  {
    GroupRoundTrip(a, b, c);
    BytesFirst(a / 4, a % 4 * 16 + b / 16, b % 16 * 4 + c / 64, c % 64, rest);
  }

  lemma DigitsFirst(alphabet: Alphabet, s: seq<Sextet>, pad: JsString)
    requires s != []
    ensures var t := Digits(alphabet, s) + pad;
            t[0] == Digit(alphabet, s[0]) && t[1..] == Digits(alphabet, s[1..]) + pad
  {
  }

  lemma SextetsFirst(t: JsString, rest: JsString, s: seq<Sextet>)
    requires t != [] && s != [] && t[0] != PAD && DigitValue(t[0]) == Some(s[0])
    requires t[1..] == rest && Sextets(rest) == s[1..]
    ensures Sextets(t) == s
  {
    assert [s[0]] + s[1..] == s;
  }

  lemma {:induction false} SextetsOfDigits(alphabet: Alphabet, s: seq<Sextet>, pad: JsString)
    requires pad == [] || pad[0] == PAD
    ensures Sextets(Digits(alphabet, s) + pad) == s
  {
    if s == [] {
      assert Digits(alphabet, s) + pad == pad;
    } else {
      DigitRoundTrip(alphabet, s[0]);
      DigitsFirst(alphabet, s, pad);
      SextetsOfDigits(alphabet, s[1..], pad);
      SextetsFirst(Digits(alphabet, s) + pad, Digits(alphabet, s[1..]) + pad, s);
    }
  }

  /** Decoding undoes encoding, in both alphabets. */
  lemma DecodeEncode(alphabet: Alphabet, bytes: seq<Byte>)
    ensures Decode(Encode(alphabet, bytes)) == bytes
  {
    var s := ToSextets(bytes);
    SextetsOfDigits(alphabet, s, if alphabet == Standard then Padding(|s|) else []);
    SextetsRoundTrip(bytes);
  }

  /******* The strict check on uploaded content *******/

  /** The white space that String.prototype.trim removes. */
  predicate Space(c: CodeUnit) {
    0x09 <= c <= 0x0D || c == 0x20 || c == 0xA0 || c == 0x1680 || 0x2000 <= c <= 0x200A ||
    c == 0x2028 || c == 0x2029 || c == 0x202F || c == 0x205F || c == 0x3000 || c == 0xFEFF
  }

  function Trim(t: JsString): (r: JsString) {
    if t == [] then []
    else if Space(t[0]) then Trim(t[1..])
    else if Space(t[|t| - 1]) then Trim(t[..|t| - 1])
    else t
  }

  /** White space and line ends of ECMA-262, one by one. */
  predicate White(c: CodeUnit) {
    c in {0x09, 0x0A, 0x0B, 0x0C, 0x0D, 0x20, 0xA0, 0x1680, 0x2000, 0x2001, 0x2002, 0x2003, 0x2004, 0x2005,
          0x2006, 0x2007, 0x2008, 0x2009, 0x200A, 0x2028, 0x2029, 0x202F, 0x205F, 0x3000, 0xFEFF}
  }

  /** The part from i to j is what is left of the text without the white space at both ends. */
  ghost predicate IsTrimmed(t: JsString, r: JsString, i: nat, j: nat) {
    i <= j <= |t| && r == t[i..j] &&
    (forall k :: 0 <= k < i ==> White(t[k])) && (forall k :: j <= k < |t| ==> White(t[k])) &&
    (i < j ==> !White(t[i]) && !White(t[j - 1]))
  }

  lemma SpaceIsWhite(c: CodeUnit)
    ensures Space(c) <==> White(c)
  {
  }

  lemma TrimmedBehind(t: JsString, r: JsString, i: nat, j: nat)
    requires t != [] && White(t[0]) && IsTrimmed(t[1..], r, i, j)
    ensures IsTrimmed(t, r, i + 1, j + 1)
  {
    assert t[1..][i..j] == t[i + 1..j + 1];
    forall k | 0 <= k < i + 1 || j + 1 <= k < |t| ensures White(t[k]) {
      assert k > 0 ==> t[k] == t[1..][k - 1];
    }
  }

  lemma TrimmedBefore(t: JsString, r: JsString, i: nat, j: nat)
    requires t != [] && White(t[|t| - 1]) && IsTrimmed(t[..|t| - 1], r, i, j)
    ensures IsTrimmed(t, r, i, j)
  {
    assert t[..|t| - 1][i..j] == t[i..j];
    forall k | 0 <= k < i || j <= k < |t| ensures White(t[k]) {
      assert k < |t| - 1 ==> t[k] == t[..|t| - 1][k];
    }
  }

  /** White space at both ends goes and nothing else. */
  lemma {:induction false} TrimExactly(t: JsString) returns (i: nat, j: nat)
    ensures IsTrimmed(t, Trim(t), i, j)
  {
    if t == [] {
      i, j := 0, 0;
    } else {
      SpaceIsWhite(t[0]);
      SpaceIsWhite(t[|t| - 1]);
      if Space(t[0]) {
        i, j := TrimExactly(t[1..]);
        TrimmedBehind(t, Trim(t[1..]), i, j);
        i, j := i + 1, j + 1;
      } else if Space(t[|t| - 1]) {
        i, j := TrimExactly(t[..|t| - 1]);
        TrimmedBefore(t, Trim(t[..|t| - 1]), i, j);
      } else {
        i, j := 0, |t|;
      }
    }
  }

  /** Standard digits followed by at most two padding characters. */
  predicate Shaped(t: JsString) {
    exists p: nat :: p <= 2 && ShapedWith(t, p)
  }

  predicate ShapedWith(t: JsString, p: nat) {
    p <= |t| && (forall i :: 0 <= i < |t| - p ==> StandardDigit(t[i])) && forall i :: |t| - p <= i < |t| ==> t[i] == PAD
  }

  function NormalizeBase64(value: JsString): (r: Option<seq<Byte>>) {
    var t := Trim(value);
    if |t| % 4 != 0 || !Shaped(t) then None
    else if Encode(Standard, Decode(t)) != t then None
    else Some(Decode(t))
  }

  lemma GroupSize(bytes: seq<Byte>)
    requires |bytes| > 2
    ensures |ToSextets(bytes)| == |ToSextets(bytes[3..])| + 4
  {
  }

  lemma SameRemainders(sextets: nat, bytes: nat)
    ensures (sextets + 4) % 4 == sextets % 4 && (bytes + 3) % 3 == bytes % 3
  {
  }

  lemma {:induction false} SextetRemainder(bytes: seq<Byte>)
    ensures |ToSextets(bytes)| % 4 != 1
  {
    if |bytes| > 2 {
      SextetRemainder(bytes[3..]);
      GroupSize(bytes);
      SameRemainders(|ToSextets(bytes[3..])|, |bytes[3..]|);
    }
  }

  lemma EncodedIsShaped(bytes: seq<Byte>)
    ensures var t := Encode(Standard, bytes); |t| % 4 == 0 && Shaped(t)
  {
    var s, t := ToSextets(bytes), Encode(Standard, bytes);
    SextetRemainder(bytes);
    forall i | 0 <= i < |s| ensures StandardDigit(t[i]) {
      DigitRoundTrip(Standard, s[i]);
    }
    assert ShapedWith(t, |Padding(|s|)|);
  }

  /**
   Content is accepted exactly when its trimmed text is the encoding of some bytes, and then those
   bytes, which are unique, are the result.
   */
  lemma AcceptsExactlyEncodings(value: JsString)
    ensures NormalizeBase64(value).Some? <==> exists bytes :: Trim(value) == Encode(Standard, bytes)
    ensures forall bytes :: Trim(value) == Encode(Standard, bytes) ==> NormalizeBase64(value) == Some(bytes)
  {
    forall bytes | Trim(value) == Encode(Standard, bytes) ensures NormalizeBase64(value) == Some(bytes) {
      EncodedIsShaped(bytes);
      DecodeEncode(Standard, bytes);
    }
  }

  /** The digits of an encoding, group by group, leave no set bit in the part that padding replaces. */
  lemma {:induction false} PadBitsZero(bytes: seq<Byte>)
    ensures var s := ToSextets(bytes);
            (|s| % 4 == 2 ==> s[|s| - 1] % 16 == 0) && (|s| % 4 == 3 ==> s[|s| - 1] % 4 == 0)
  {
    if |bytes| > 2 {
      PadBitsZero(bytes[3..]);
      var s, rest := ToSextets(bytes), ToSextets(bytes[3..]);
      assert |s| == |rest| + 4;
      if |rest| > 0 {
        assert s[|s| - 1] == rest[|rest| - 1];
      }
    }
  }

  /** What the padding and the digit before it look like, by the number of digits. */
  lemma PaddedEnd(t: JsString, s: seq<Sextet>)
    requires t == Digits(Standard, s) + Padding(|s|) && |s| % 4 != 1
    ensures |t| >= 3 && t[|t| - 2] == PAD ==> |s| % 4 == 2 && DigitValue(t[|t| - 3]) == Some(s[|s| - 1])
    ensures |t| >= 3 && t[|t| - 2] != PAD && t[|t| - 1] == PAD ==>
              |s| % 4 == 3 && DigitValue(t[|t| - 2]) == Some(s[|s| - 1])
  {
    forall i | 0 <= i < |s| ensures t[i] != PAD && DigitValue(t[i]) == Some(s[i]) {
      DigitRoundTrip(Standard, s[i]);
    }
  }

  lemma AcceptedIsEncoding(value: JsString)
    requires NormalizeBase64(value).Some?
    ensures var s := ToSextets(Decode(Trim(value))); Trim(value) == Digits(Standard, s) + Padding(|s|)
  {
  }

  /** In accepted text the digit before the padding sets no bit that decoding drops. */
  lemma AcceptedPadBits(value: JsString)
    requires NormalizeBase64(value).Some?
    ensures var t := Trim(value);
            (|t| >= 3 && t[|t| - 2] == PAD ==>
             DigitValue(t[|t| - 3]).Some? && DigitValue(t[|t| - 3]).value % 16 == 0) &&
            (|t| >= 3 && t[|t| - 2] != PAD && t[|t| - 1] == PAD ==>
              DigitValue(t[|t| - 2]).Some? && DigitValue(t[|t| - 2]).value % 4 == 0)
  {
    var bytes := Decode(Trim(value));
    AcceptedIsEncoding(value);
    SextetRemainder(bytes);
    PadBitsZero(bytes);
    PaddedEnd(Trim(value), ToSextets(bytes));
  }

  /** Text whose last digit sets a bit that decoding would drop is refused (section 3.5 of RFC 4648). */
  lemma NonZeroPadBitsRefused(value: JsString, last: Sextet)
    requires var t := Trim(value);
             |t| >= 3 && t[|t| - 1] == PAD &&
             if t[|t| - 2] == PAD then t[|t| - 3] == Digit(Standard, last) && last % 16 != 0
             else t[|t| - 2] == Digit(Standard, last) && last % 4 != 0
    ensures NormalizeBase64(value) == None
  {
    DigitRoundTrip(Standard, last);
    if NormalizeBase64(value).Some? {
      AcceptedPadBits(value);
    }
  }
}

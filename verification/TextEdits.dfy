/**
 Text edits of a recipe: `oldText` is counted with split, and replaced either everywhere with
 split and join, or once with `replace`, which expands the `$` patterns of `newText`.
 */
module TextEdits {
  import opened Wrappers
  import opened JsText

  /******* Matches *******/

  predicate MatchAt(text: JsString, search: JsString, i: nat) {
    i + |search| <= |text| && text[i..i + |search|] == search
  }

  /** The first match at or after a position. */
  function IndexOf(text: JsString, search: JsString, from: nat): (r: Option<nat>)
    requires from <= |text|
    ensures r.Some? ==> from <= r.value && r.value + |search| <= |text|
    decreases |text| - from, 0
  {
    if MatchAt(text, search, from) then Some(from)
    else if from == |text| then None
    else IndexBehind(text, search, from)
  }

  function IndexBehind(text: JsString, search: JsString, from: nat): (r: Option<nat>)
    requires from < |text|
    ensures r.Some? ==> from < r.value && r.value + |search| <= |text|
    decreases |text| - from - 1, 1
  {
    IndexOf(text, search, from + 1)
  }

  lemma {:induction false} IndexOfIsFirst(text: JsString, search: JsString, from: nat)
    requires from <= |text|
    ensures var r := IndexOf(text, search, from);
            (r.Some? ==> MatchAt(text, search, r.value)) &&
            forall i: nat :: from <= i && (r.Some? ==> i < r.value) ==> !MatchAt(text, search, i)
    decreases |text| - from
  {
    if !MatchAt(text, search, from) && from < |text| {
      IndexOfIsFirst(text, search, from + 1);
    }
  }

  /** The pieces of the text from a position on. */
  function SplitFrom(text: JsString, search: JsString, from: nat): (parts: seq<JsString>)
    requires search != [] && from <= |text|
    ensures |parts| > 0
    decreases |text| - from
  {
    var at := IndexOf(text, search, from);
    if at.None? then [text[from..]] else [text[from..at.value]] + SplitFrom(text, search, at.value + |search|)
  }

  /** `text.split(search)`; an empty separator splits into code units. */
  function Split(text: JsString, search: JsString): (parts: seq<JsString>) {
    if search == [] then seq(|text|, i requires 0 <= i < |text| => [text[i]]) else SplitFrom(text, search, 0)
  }

  /** `parts.join(glue)` */
  function Join(parts: seq<JsString>, glue: JsString): (text: JsString) {
    if parts == [] then [] else if |parts| == 1 then parts[0] else parts[0] + glue + Join(parts[1..], glue)
  }

  function Occurrences(text: JsString, search: JsString): (n: int) {
    |Split(text, search)| - 1
  }

  /******* What the count means *******/

  /** Match positions from left to right that do not overlap, none before `from`. */
  ghost predicate Disjoint(text: JsString, search: JsString, from: nat, at: seq<nat>)
    decreases |at|
  {
    at == [] || (from <= at[0] && MatchAt(text, search, at[0]) && Disjoint(text, search, at[0] + |search|, at[1..]))
  }

  /** The leftmost choice: every position is the first match after the one before, and none follows the last. */
  ghost predicate Leftmost(text: JsString, search: JsString, from: nat, at: seq<nat>)
    requires from <= |text|
    decreases |at|
  {
    if at == [] then IndexOf(text, search, from).None?
    else IndexOf(text, search, from) == Some(at[0]) && Leftmost(text, search, at[0] + |search|, at[1..])
  }

  /** The pieces around chosen match positions. */
  function Pieces(text: JsString, search: JsString, from: nat, at: seq<nat>): (parts: seq<JsString>)
    requires from <= |text| && Disjoint(text, search, from, at)
    ensures |parts| == |at| + 1
    decreases |at|
  {
    if at == [] then [text[from..]]
    else [text[from..at[0]]] + Pieces(text, search, at[0] + |search|, at[1..])
  }

  lemma {:induction false} LeftmostIsDisjoint(text: JsString, search: JsString, from: nat, at: seq<nat>)
    requires from <= |text| && Leftmost(text, search, from, at)
    ensures Disjoint(text, search, from, at)
    decreases |at|
  {
    if at != [] {
      IndexOfIsFirst(text, search, from);
      LeftmostIsDisjoint(text, search, at[0] + |search|, at[1..]);
    }
  }

  lemma {:induction false} LeftmostExists(text: JsString, search: JsString, from: nat) returns (at: seq<nat>)
    requires search != [] && from <= |text|
    ensures Leftmost(text, search, from, at)
    decreases |text| - from
  {
    var first := IndexOf(text, search, from);
    if first.None? {
      at := [];
    } else {
      var rest := LeftmostExists(text, search, first.value + |search|);
      at := [first.value] + rest;
      assert at[1..] == rest;
    }
  }

  /** Both views of the matches go on behind the first one. */
  lemma BehindFirst(text: JsString, search: JsString, from: nat, at: seq<nat>)
    requires from <= |text| && Leftmost(text, search, from, at) && Disjoint(text, search, from, at) && at != []
    ensures IndexOf(text, search, from) == Some(at[0]) && from <= at[0] && at[0] + |search| <= |text|
    ensures Leftmost(text, search, at[0] + |search|, at[1..]) && Disjoint(text, search, at[0] + |search|, at[1..])
    ensures Pieces(text, search, from, at) ==
            [text[from..at[0]]] + Pieces(text, search, at[0] + |search|, at[1..])
  {
  }

  lemma FirstPiece(text: JsString, search: JsString, from: nat, at: nat)
    requires search != [] && from <= |text| && IndexOf(text, search, from) == Some(at)
    ensures SplitFrom(text, search, from) == [text[from..at]] + SplitFrom(text, search, at + |search|)
  {
  }

  lemma LastPiece(text: JsString, search: JsString, from: nat)
    requires search != [] && from <= |text| && Leftmost(text, search, from, [])
    ensures SplitFrom(text, search, from) == [text[from..]]
  {
  }

  lemma {:induction false} SplitIntoPieces(text: JsString, search: JsString, from: nat, at: seq<nat>)
    requires search != [] && from <= |text| && Leftmost(text, search, from, at) && Disjoint(text, search, from, at)
    ensures SplitFrom(text, search, from) == Pieces(text, search, from, at)
    decreases |at|
  {
    if at == [] {
      LastPiece(text, search, from);
    } else {
      BehindFirst(text, search, from, at);
      FirstPiece(text, search, from, at[0]);
      SplitIntoPieces(text, search, at[0] + |search|, at[1..]);
    }
  }

  /** The split cuts at the leftmost matches. */
  lemma SplitIsLeftmost(text: JsString, search: JsString) returns (at: seq<nat>)
    requires search != []
    ensures Leftmost(text, search, 0, at) && Disjoint(text, search, 0, at)
    ensures Split(text, search) == Pieces(text, search, 0, at)
  {
    at := LeftmostExists(text, search, 0);
    LeftmostIsDisjoint(text, search, 0, at);
    SplitIntoPieces(text, search, 0, at);
  }

  /** No choice of disjoint matches has more members than the leftmost one. */
  lemma {:induction false} LeftmostIsMost(text: JsString, search: JsString, from: nat, at: seq<nat>, start: nat,
                                          other: seq<nat>)
    requires search != [] && from <= start && from <= |text|
    requires Leftmost(text, search, from, at) && Disjoint(text, search, start, other)
    ensures |other| <= |at|
    decreases |other|
  {
    IndexOfIsFirst(text, search, from);
    if other != [] {
      assert MatchAt(text, search, other[0]);
      if at != [] {
        LeftmostIsMost(text, search, at[0] + |search|, at[1..], other[0] + |search|, other[1..]);
      }
    }
  }

  /**
   The count is the number of leftmost disjoint matches, and no disjoint choice of matches is larger;
   so it is zero exactly if nothing matches.
   */
  lemma OccurrencesCountMatches(text: JsString, search: JsString) returns (at: seq<nat>)
    requires search != []
    ensures Leftmost(text, search, 0, at) && Disjoint(text, search, 0, at) && Occurrences(text, search) == |at|
    ensures forall other :: Disjoint(text, search, 0, other) ==> |other| <= Occurrences(text, search)
    ensures Occurrences(text, search) == 0 <==> forall i: nat :: !MatchAt(text, search, i)
  {
    at := SplitIsLeftmost(text, search);
    IndexOfIsFirst(text, search, 0);
    forall other | Disjoint(text, search, 0, other) ensures |other| <= |at| {
      LeftmostIsMost(text, search, 0, at, 0, other);
    }
  }

  /******* Replacing everywhere *******/

  function ReplaceAll(text: JsString, search: JsString, replacement: JsString): (r: JsString) {
    Join(Split(text, search), replacement)
  }

  /** The text with chosen matches replaced. */
  function Replaced(text: JsString, search: JsString, replacement: JsString, from: nat, at: seq<nat>): (r: JsString)
    requires from <= |text| && Disjoint(text, search, from, at)
    decreases |at|
  {
    if at == [] then text[from..]
    else text[from..at[0]] + replacement + Replaced(text, search, replacement, at[0] + |search|, at[1..])
  }

  lemma ReplacedFirst(text: JsString, search: JsString, replacement: JsString, from: nat, at: seq<nat>)
    requires from <= |text| && Disjoint(text, search, from, at) && at != []
    ensures from <= at[0] && at[0] + |search| <= |text| && text[at[0]..at[0] + |search|] == search
    ensures Disjoint(text, search, at[0] + |search|, at[1..])
    ensures Replaced(text, search, replacement, from, at) ==
            text[from..at[0]] + replacement + Replaced(text, search, replacement, at[0] + |search|, at[1..])
  {
  }

  lemma {:induction false} JoinPieces(text: JsString, search: JsString, replacement: JsString, from: nat, at: seq<nat>)
    requires from <= |text| && Disjoint(text, search, from, at)
    ensures Join(Pieces(text, search, from, at), replacement) == Replaced(text, search, replacement, from, at)
    decreases |at|
  {
    if at != [] {
      ReplacedFirst(text, search, replacement, from, at);
      JoinPieces(text, search, replacement, at[0] + |search|, at[1..]);
      JoinFirst(text[from..at[0]], Pieces(text, search, at[0] + |search|, at[1..]), replacement);
    }
  }

  lemma JoinFirst(first: JsString, rest: seq<JsString>, glue: JsString)
    requires rest != []
    ensures Join([first] + rest, glue) == first + glue + Join(rest, glue)
  {
    assert ([first] + rest)[1..] == rest;
  }

  lemma {:induction false} ReplacedLength(text: JsString, search: JsString, replacement: JsString, from: nat,
                                          at: seq<nat>)
    requires from <= |text| && Disjoint(text, search, from, at)
    ensures |Replaced(text, search, replacement, from, at)| == |text| - from + |at| * (|replacement| - |search|)
    decreases |at|
  {
    if at != [] {
      ReplacedLength(text, search, replacement, at[0] + |search|, at[1..]);
      var d := |replacement| - |search|;
      assert |at| * d == |at[1..]| * d + d by {
        assert |at| == |at[1..]| + 1;
      }
    }
  }

  lemma {:induction false} ReplacedByItself(text: JsString, search: JsString, from: nat, at: seq<nat>)
    requires from <= |text| && Disjoint(text, search, from, at)
    ensures Replaced(text, search, search, from, at) == text[from..]
    decreases |at|
  {
    if at != [] {
      ReplacedFirst(text, search, search, from, at);
      ReplacedByItself(text, search, at[0] + |search|, at[1..]);
      InThree(text, from, at[0], at[0] + |search|);
    }
  }

  lemma InThree(text: JsString, from: nat, a: nat, b: nat)
    requires from <= a <= b <= |text|
    ensures text[from..a] + text[a..b] + text[b..] == text[from..]
  {
  }

  /** Replacing everywhere is replacing the leftmost disjoint matches, and nothing else. */
  lemma ReplaceAllExact(text: JsString, search: JsString, replacement: JsString) returns (at: seq<nat>)
    requires search != []
    ensures Leftmost(text, search, 0, at) && Disjoint(text, search, 0, at) && |at| == Occurrences(text, search)
    ensures ReplaceAll(text, search, replacement) == Replaced(text, search, replacement, 0, at)
    ensures |ReplaceAll(text, search, replacement)| == |text| + Occurrences(text, search) * (|replacement| - |search|)
  {
    at := SplitIsLeftmost(text, search);
    JoinPieces(text, search, replacement, 0, at);
    ReplacedLength(text, search, replacement, 0, at);
  }

  /** Joining the split with the separator gives the text back. */
  lemma JoinSplit(text: JsString, search: JsString)
    requires search != []
    ensures Join(Split(text, search), search) == text
  {
    var at := SplitIsLeftmost(text, search);
    assert text[0..] == text;
    JoinPieces(text, search, search, 0, at);
    ReplacedByItself(text, search, 0, at);
  }

  /******* Replacing once *******/

  const DOLLAR: CodeUnit := 0x24
  const AMPERSAND: CodeUnit := 0x26
  const APOSTROPHE: CodeUnit := 0x27
  const BACKTICK: CodeUnit := 0x60

  /** A `$` and a character that together stand for something else; there are no capture groups. */
  predicate Pattern(s: JsString) {
    |s| >= 2 && s[0] == DOLLAR && s[1] in {DOLLAR, AMPERSAND, APOSTROPHE, BACKTICK}
  }

  /** GetSubstitution of ECMA-262, section 22.1.3.18.1, for a match of a plain string. */
  function Expand(replacement: JsString, text: JsString, at: nat, matched: JsString): (r: JsString)
    requires at + |matched| <= |text|
    decreases |replacement|
  {
    if replacement == [] then []
    else if Pattern(replacement) then
      (if replacement[1] == DOLLAR then [DOLLAR]
       else if replacement[1] == AMPERSAND then matched
       else if replacement[1] == BACKTICK then text[..at]
       else text[at + |matched|..]) + Expand(replacement[2..], text, at, matched)
    else [replacement[0]] + Expand(replacement[1..], text, at, matched)
  }

  /** `text.replace(old, new)` */
  function ReplaceOnce(text: JsString, search: JsString, replacement: JsString): (r: JsString) {
    var at := IndexOf(text, search, 0);
    if at.None? then text
    else text[..at.value] + Expand(replacement, text, at.value, search) + text[at.value + |search|..]
  }

  /** No `$` pattern anywhere. */
  predicate Plain(replacement: JsString)
    decreases |replacement|
  {
    replacement == [] || (!Pattern(replacement) && Plain(replacement[1..]))
  }

  lemma {:induction false} PlainExpands(replacement: JsString, text: JsString, at: nat, matched: JsString)
    requires Plain(replacement) && at + |matched| <= |text|
    ensures Expand(replacement, text, at, matched) == replacement
    decreases |replacement|
  {
    if replacement != [] {
      PlainExpands(replacement[1..], text, at, matched);
    }
  }

  lemma {:induction false} NoDollarExpands(a: JsString, rest: JsString, text: JsString, at: nat, matched: JsString)
    requires 0x24 !in a && at + |matched| <= |text|
    ensures Expand(a + rest, text, at, matched) == a + Expand(rest, text, at, matched)
  {
    if a == [] {
      assert a + rest == rest;
    } else {
      assert (a + rest)[0] == a[0] && (a + rest)[1..] == a[1..] + rest;
      NoDollarExpands(a[1..], rest, text, at, matched);
    }
  }

  lemma PairExpands(c: CodeUnit, b: JsString, text: JsString, at: nat, matched: JsString, inserted: JsString)
    requires at + |matched| <= |text| && 0x24 !in b
    requires (c == 0x24 && inserted == [0x24]) || (c == 0x26 && inserted == matched) ||
             (c == 0x60 && inserted == text[..at]) || (c == 0x27 && inserted == text[at + |matched|..])
    ensures Expand([0x24, c] + b, text, at, matched) == inserted + b
  {
    var all := [0x24, c] + b;
    assert all[0] == 0x24 && all[1] == c && all[2..] == b;
    NoDollarExpands(b, [], text, at, matched);
    assert b + [] == b;
  }

  /**
   What a single replacement does at the first match with a new text that has one pattern between texts without
   dollar signs: "$$" inserts one dollar sign, "$&" the match, "$`" what comes before it, "$'" what follows it. A
   dollar sign before any other character inserts both.
   */
  lemma ReplacesPattern(text: JsString, search: JsString, at: nat, a: JsString, c: CodeUnit, b: JsString,
                        inserted: JsString)
    requires IndexOf(text, search, 0) == Some(at) && 0x24 !in a && 0x24 !in b
    requires if c == 0x24 then inserted == [0x24]
             else if c == 0x26 then inserted == search
             else if c == 0x60 then inserted == text[..at]
             else if c == 0x27 then inserted == text[at + |search|..]
             else inserted == [0x24, c]
    ensures ReplaceOnce(text, search, a + ([0x24, c] + b)) == text[..at] + (a + (inserted + b)) + text[at + |search|..]
  {
    NoDollarExpands(a, [0x24, c] + b, text, at, search);
    if c in {0x24, 0x26, 0x60, 0x27} {
      PairExpands(c, b, text, at, search, inserted);
    } else {
      LoneDollar(c, b, text, at, search);
    }
  }

  lemma LoneDollar(c: CodeUnit, b: JsString, text: JsString, at: nat, matched: JsString)
    requires at + |matched| <= |text| && 0x24 !in b && c !in {0x24, 0x26, 0x60, 0x27}
    ensures Expand([0x24, c] + b, text, at, matched) == [0x24, c] + b
  {
    var all := [0x24, c] + b;
    assert all[0] == 0x24 && all[1] == c && all[1..] == [c] + b;
    NoDollarExpands([c] + b, [], text, at, matched);
    assert [c] + b + [] == [c] + b && [0x24] + ([c] + b) == all;
  }

  lemma OneMatch(text: JsString, search: JsString, replacement: JsString) returns (at: nat)
    requires search != [] && Occurrences(text, search) == 1
    ensures IndexOf(text, search, 0) == Some(at) && at + |search| <= |text|
    ensures ReplaceAll(text, search, replacement) == text[..at] + replacement + text[at + |search|..]
  {
    var all := ReplaceAllExact(text, search, replacement);
    at := all[0];
    ReplacedOne(text, search, replacement, all);
  }

  /** With one match, both ways differ only in the expansion. */
  lemma OnceAgainstAll(text: JsString, search: JsString, replacement: JsString)
    requires search != [] && Occurrences(text, search) == 1
    ensures IndexOf(text, search, 0).Some?
    ensures ReplaceOnce(text, search, replacement) == ReplaceAll(text, search, replacement) <==>
            Expand(replacement, text, IndexOf(text, search, 0).value, search) == replacement
  {
    var at := OneMatch(text, search, replacement);
    OnceAt(text, search, replacement, at);
    SameMiddle(text[..at], Expand(replacement, text, at, search), replacement, text[at + |search|..],
               ReplaceOnce(text, search, replacement), ReplaceAll(text, search, replacement));
  }

  lemma OnceAt(text: JsString, search: JsString, replacement: JsString, at: nat)
    requires IndexOf(text, search, 0) == Some(at)
    ensures ReplaceOnce(text, search, replacement) ==
            text[..at] + Expand(replacement, text, at, search) + text[at + |search|..]
  {
  }

  lemma ReplacedOne(text: JsString, search: JsString, replacement: JsString, at: seq<nat>)
    requires |at| == 1 && Disjoint(text, search, 0, at)
    ensures Replaced(text, search, replacement, 0, at) == text[..at[0]] + replacement + text[at[0] + |search|..]
  {
    assert at[1..] == [];
  }

  lemma SameMiddle(head: JsString, a: JsString, b: JsString, tail: JsString, withA: JsString, withB: JsString)
    requires withA == head + a + tail && withB == head + b + tail
    ensures withA == withB <==> a == b
  {
    if withA == withB {
      assert |a| == |b|;
      forall i | 0 <= i < |a| ensures a[i] == b[i] {
        assert a[i] == withA[|head| + i] && b[i] == withB[|head| + i];
      }
    }
  }

  /** In a text that is one character, matched whole, every pattern expands to something shorter. */
  lemma {:induction false} PatternsShrink(replacement: JsString, c: CodeUnit)
    ensures |Expand(replacement, [c], 0, [c])| <= |replacement|
    ensures !Plain(replacement) ==> |Expand(replacement, [c], 0, [c])| < |replacement|
    decreases |replacement|
  {
    if Pattern(replacement) {
      PatternsShrink(replacement[2..], c);
    } else if replacement != [] {
      PatternsShrink(replacement[1..], c);
    }
  }

  ghost predicate SameWheneverOnce(replacement: JsString) {
    forall text: JsString, search: JsString | search != [] && Occurrences(text, search) == 1 ::
      ReplaceOnce(text, search, replacement) == ReplaceAll(text, search, replacement)
  }

  /** With one match, replacing once and everywhere agree for all texts exactly if the new text has no `$` pattern. */
  lemma SameIffPlain(replacement: JsString)
    ensures SameWheneverOnce(replacement) <==> Plain(replacement)
  {
    if Plain(replacement) {
      forall text: JsString, search: JsString | search != [] && Occurrences(text, search) == 1
        ensures ReplaceOnce(text, search, replacement) == ReplaceAll(text, search, replacement)
      {
        OnceAgainstAll(text, search, replacement);
        PlainExpands(replacement, text, IndexOf(text, search, 0).value, search);
      }
    } else {
      var one: JsString := [0x78];
      assert MatchAt(one, one, 0);
      assert IndexOf(one, one, 0) == Some(0) && IndexOf(one, one, 1) == None;
      assert SplitFrom(one, one, 1) == [one[1..]];
      OnceAgainstAll(one, one, replacement);
      PatternsShrink(replacement, 0x78);
    }
  }

  /** Without a `$` there is no `$` pattern. */
  lemma {:induction false} NoDollarIsPlain(replacement: JsString)
    requires DOLLAR !in replacement
    ensures Plain(replacement)
    decreases |replacement|
  {
    if replacement != [] {
      NoDollarIsPlain(replacement[1..]);
    }
  }

  /******* Applying edits *******/

  datatype Edit = Edit(oldText: JsString, newText: JsString, replaceAll: bool)

  datatype Applied = Applied(index: nat, replaceAll: bool, occurrences: int, oldHash: JsString, newHash: JsString)

  /** An edit is numbered from 1 in the refusals. */
  datatype Outcome =
    | Edited(content: JsString, applied: seq<Applied>)
    | NotFound(edit: nat)
    | Ambiguous(edit: nat, occurrences: int)

  function ApplyOne(content: JsString, edit: Edit): (r: JsString) {
    if edit.replaceAll then ReplaceAll(content, edit.oldText, edit.newText)
    else ReplaceOnce(content, edit.oldText, edit.newText)
  }

  /** The content after the first k edits. */
  function After(content: JsString, edits: seq<Edit>, k: nat): (r: JsString)
    requires k <= |edits|
    decreases k, 0
  {
    if k == 0 then content else Next(content, edits, k - 1)
  }

  function Next(content: JsString, edits: seq<Edit>, k: nat): (r: JsString)
    requires k < |edits|
    decreases k, 1
  {
    ApplyOne(After(content, edits, k), edits[k])
  }

  /** How often the old text of edit k occurs when its turn comes. */
  function Found(content: JsString, edits: seq<Edit>, k: nat): (n: int)
    requires k < |edits|
  {
    Occurrences(After(content, edits, k), edits[k].oldText)
  }

  predicate Accepted(content: JsString, edits: seq<Edit>, k: nat)
    requires k < |edits|
  {
    Found(content, edits, k) != 0 && (edits[k].replaceAll || Found(content, edits, k) <= 1)
  }

  function Record(content: JsString, edits: seq<Edit>, k: nat, sha: JsString -> JsString): (r: Applied)
    requires k < |edits|
  {
    var e := edits[k];
    Applied(k, e.replaceAll, if e.replaceAll then Found(content, edits, k) else 1, sha(e.oldText), sha(e.newText))
  }

  predicate AcceptedUpTo(content: JsString, edits: seq<Edit>, n: nat)
    requires n <= |edits|
  {
    n > 0 ==> AcceptedUpTo(content, edits, n - 1) && Accepted(content, edits, n - 1)
  }

  function Records(content: JsString, edits: seq<Edit>, n: nat, sha: JsString -> JsString): (r: seq<Applied>)
    requires n <= |edits|
    ensures |r| == n
  {
    if n == 0 then [] else Records(content, edits, n - 1, sha) + [Record(content, edits, n - 1, sha)]
  }

  /**
   An edit whose old text is not empty is accepted exactly if that matches, and no more than once unless all
   matches are to be replaced; then the leftmost disjoint matches are replaced, or the one match with the new text
   expanded.
   */
  lemma EditExactly(content: JsString, edits: seq<Edit>, k: nat) returns (at: seq<nat>)
    requires k < |edits| && edits[k].oldText != []
    ensures var text, e := After(content, edits, k), edits[k];
            Leftmost(text, e.oldText, 0, at) && Disjoint(text, e.oldText, 0, at) &&
            (Accepted(content, edits, k) <==> |at| >= 1 && (e.replaceAll || |at| == 1)) &&
            (e.replaceAll ==> After(content, edits, k + 1) == Replaced(text, e.oldText, e.newText, 0, at)) &&
            (!e.replaceAll && |at| == 1 ==>
               After(content, edits, k + 1) ==
               text[..at[0]] + Expand(e.newText, text, at[0], e.oldText) + text[at[0] + |e.oldText|..])
  {
    var text, e := After(content, edits, k), edits[k];
    at := ReplaceAllExact(text, e.oldText, e.newText);
    assert After(content, edits, k + 1) == Next(content, edits, k);
    if |at| == 1 {
      OnceAt(text, e.oldText, e.newText, at[0]);
    }
  }

  /** The report of edit k: its number, how it was applied and how often, and the hashes of both its texts. */
  lemma {:induction false} ReportEntry(content: JsString, edits: seq<Edit>, n: nat, k: nat, sha: JsString -> JsString)
    requires k < n <= |edits|
    ensures var a, e := Records(content, edits, n, sha)[k], edits[k];
            a.index == k && a.replaceAll == e.replaceAll &&
            a.oldHash == sha(e.oldText) && a.newHash == sha(e.newText) &&
            a.occurrences == if e.replaceAll then Occurrences(After(content, edits, k), e.oldText) else 1
    decreases n
  {
    if k < n - 1 {
      ReportEntry(content, edits, n - 1, k, sha);
    }
  }

  lemma {:induction false} AcceptedEarlier(content: JsString, edits: seq<Edit>, n: nat, k: nat)
    requires k < n <= |edits| && AcceptedUpTo(content, edits, n)
    ensures Accepted(content, edits, k)
    decreases n
  {
    if k < n - 1 {
      AcceptedEarlier(content, edits, n - 1, k);
    }
  }

  /**
   All edits are applied in turn, each to the result of the ones before, or none: the first edit whose
   old text is missing, or found several times without `replaceAll`, refuses the whole call.
   */
  method ApplyTextEdits(content: JsString, edits: seq<Edit>, sha: JsString -> JsString) returns (r: Outcome)
    ensures r.Edited? <==> AcceptedUpTo(content, edits, |edits|)
    ensures r.Edited? ==> r == Edited(After(content, edits, |edits|), Records(content, edits, |edits|, sha))
    ensures !r.Edited? ==> 1 <= r.edit <= |edits| && AcceptedUpTo(content, edits, r.edit - 1) &&
                           !Accepted(content, edits, r.edit - 1)
    ensures !r.Edited? ==> (r.NotFound? <==> Found(content, edits, r.edit - 1) == 0)
    ensures r.Ambiguous? ==> r.occurrences == Found(content, edits, r.edit - 1)
  {
    var next := content;
    var applied: seq<Applied> := [];
    for index := 0 to |edits|
      invariant next == After(content, edits, index) && applied == Records(content, edits, index, sha)
      invariant AcceptedUpTo(content, edits, index)
    {
      if AcceptedUpTo(content, edits, |edits|) {
        AcceptedEarlier(content, edits, |edits|, index);
      }
      var edit := edits[index];
      var occurrences := |Split(next, edit.oldText)| - 1;
      if occurrences == 0 {
        return NotFound(index + 1);
      }
      if !edit.replaceAll && occurrences > 1 {
        return Ambiguous(index + 1, occurrences);
      }
      next := if edit.replaceAll then Join(Split(next, edit.oldText), edit.newText)
              else ReplaceOnce(next, edit.oldText, edit.newText);
      applied := applied + [Applied(index, edit.replaceAll, if edit.replaceAll then occurrences else 1,
                                    sha(edit.oldText), sha(edit.newText))];
    }
    r := Edited(next, applied);
  }

  function Gain(edit: Edit, occurrences: int): (n: int) {
    occurrences * (|edit.newText| - |edit.oldText|)
  }

  /** What the reported occurrences add to the length. */
  function Growth(edits: seq<Edit>, applied: seq<Applied>, k: nat): (n: int)
    requires k <= |edits| && k <= |applied|
  {
    if k == 0 then 0
    else Growth(edits, applied, k - 1) + Gain(edits[k - 1], applied[k - 1].occurrences)
  }

  /** Without `$` patterns in single edits, the report accounts for every character gained or lost. */
  lemma {:induction false} ReportAccountsForLength(content: JsString, edits: seq<Edit>, sha: JsString -> JsString,
                                                   n: nat)
    requires n <= |edits| && AcceptedUpTo(content, edits, n)
    requires forall k :: 0 <= k < |edits| ==> edits[k].oldText != [] && (edits[k].replaceAll || Plain(edits[k].newText))
    ensures |After(content, edits, n)| == |content| + Growth(edits, Records(content, edits, n, sha), n)
  {
    if n > 0 {
      ReportAccountsForLength(content, edits, sha, n - 1);
      var last := Record(content, edits, n - 1, sha);
      var records := Records(content, edits, n - 1, sha);
      GrowthOfPrefix(edits, records, last, n - 1);
      StepLength(content, edits, n - 1, sha);
      LastGrowth(edits, records, last, n);
    }
  }

  lemma StepLength(content: JsString, edits: seq<Edit>, k: nat, sha: JsString -> JsString)
    requires k < |edits| && Accepted(content, edits, k)
    requires edits[k].oldText != [] && (edits[k].replaceAll || Plain(edits[k].newText))
    ensures |After(content, edits, k + 1)| ==
            |After(content, edits, k)| + Gain(edits[k], Record(content, edits, k, sha).occurrences)
  {
    assert After(content, edits, k + 1) == Next(content, edits, k);
    OneEditLength(After(content, edits, k), edits[k]);
  }

  lemma LastGrowth(edits: seq<Edit>, applied: seq<Applied>, last: Applied, n: nat)
    requires 0 < n <= |edits| && |applied| == n - 1
    ensures Growth(edits, applied + [last], n) ==
            Growth(edits, applied + [last], n - 1) + Gain(edits[n - 1], last.occurrences)
  {
  }

  lemma {:induction false} GrowthOfPrefix(edits: seq<Edit>, applied: seq<Applied>, last: Applied, k: nat)
    requires k <= |applied| && k <= |edits|
    ensures Growth(edits, applied + [last], k) == Growth(edits, applied, k)
  {
    if k > 0 {
      GrowthOfPrefix(edits, applied, last, k - 1);
    }
  }

  lemma OneEditLength(content: JsString, edit: Edit)
    requires edit.oldText != [] && (edit.replaceAll || (Plain(edit.newText) && Occurrences(content, edit.oldText) == 1))
    ensures |ApplyOne(content, edit)| == |content| + Gain(edit, Occurrences(content, edit.oldText))
  {
    var at := ReplaceAllExact(content, edit.oldText, edit.newText);
    if !edit.replaceAll {
      OnceAgainstAll(content, edit.oldText, edit.newText);
      PlainExpands(edit.newText, content, IndexOf(content, edit.oldText, 0).value, edit.oldText);
    }
  }
}

/**
 Masking strings and comments of a Python recipe before its lines are checked: the scanner that
 jumps from quote to quote, and the automaton that reads one character at a time.
 */
module PythonScanner {
  import opened Wrappers
  import opened JsText

  const BLANK: CodeUnit := 0x20
  const HASH: CodeUnit := 0x23
  const BACKSLASH: CodeUnit := 0x5C
  const SINGLE: CodeUnit := 0x27
  const DOUBLE: CodeUnit := 0x22

  predicate IsQuote(c: CodeUnit) {
    c == SINGLE || c == DOUBLE
  }

  /******* The automaton *******/

  /**
   In code; after one or two quotes that may become three; in a quoted or triple-quoted string; in
   a comment. `run` counts the closing quotes of a triple quote seen so far.
   */
  datatype Mode =
    | InCode
    | Opened(quote: CodeUnit)
    | Doubled(quote: CodeUnit)
    | Quoted(quote: CodeUnit, escaped: bool)
    | Tripled(quote: CodeUnit, run: nat)
    | InComment

  function FromCode(c: CodeUnit): (m: Mode) {
    if c == HASH then InComment else if IsQuote(c) then Opened(c) else InCode
  }

  function Step(m: Mode, c: CodeUnit): (next: Mode) {
    match m
    case InCode => FromCode(c)
    case Opened(q) => if c == q then Doubled(q) else Quoted(q, c == BACKSLASH)
    case Doubled(q) => if c == q then Tripled(q, 0) else FromCode(c)
    case Quoted(q, escaped) =>
      if escaped then Quoted(q, false) else if c == q then InCode else Quoted(q, c == BACKSLASH)
    case Tripled(q, run) => if c != q then Tripled(q, 0) else if run == 2 then InCode else Tripled(q, run + 1)
    case InComment => InComment
  }

  /** The character counts as code: nothing is open before it, and it opens nothing. */
  predicate Visible(m: Mode, c: CodeUnit) {
    CodeLike(m, c) && c != HASH && !IsQuote(c)
  }

  /** No string or comment is open before the character. */
  predicate CodeLike(m: Mode, c: CodeUnit) {
    m == InCode || (m.Doubled? && c != m.quote)
  }

  function Shown(m: Mode, c: CodeUnit): (out: CodeUnit) {
    if Visible(m, c) then c else BLANK
  }

  /** The mode before position p of a line entered in mode m. */
  function ModeAt(m: Mode, line: JsString, p: nat): (r: Mode)
    requires p <= |line|
    decreases p, 0
  {
    if p == 0 then m else ModeBehind(m, line, p - 1)
  }

  function ModeBehind(m: Mode, line: JsString, p: nat): (r: Mode)
    requires p < |line|
    decreases p, 1
  {
    Step(ModeAt(m, line, p), line[p])
  }

  /** The masked text before position p. */
  function MaskAt(m: Mode, line: JsString, p: nat): (r: JsString)
    requires p <= |line|
    decreases p, 0
  {
    if p == 0 then [] else MaskBehind(m, line, p - 1)
  }

  function MaskBehind(m: Mode, line: JsString, p: nat): (r: JsString)
    requires p < |line|
    decreases p, 1
  {
    MaskAt(m, line, p) + [Shown(ModeAt(m, line, p), line[p])]
  }

  /** Only an open triple quote outlives the line. */
  function EndOfLine(m: Mode): (r: Mode) {
    if m.Tripled? then Tripled(m.quote, 0) else InCode
  }

  function Mask(m: Mode, line: JsString): (r: JsString) {
    MaskAt(m, line, |line|)
  }

  function Exit(m: Mode, line: JsString): (r: Mode) {
    EndOfLine(ModeAt(m, line, |line|))
  }

  /******* String prefixes and their issues *******/

  datatype Issue = FString(line: nat, column: int) | BytesLiteral(line: nat, column: int)

  predicate Letter(c: CodeUnit) {
    0x41 <= c <= 0x5A || 0x61 <= c <= 0x7A
  }

  /** The letter, in upper case or in lower case, occurs in the text. */
  predicate Mentions(text: JsString, upper: CodeUnit) {
    text != [] && (text[0] == upper || text[0] == upper + 0x20 || Mentions(text[1..], upper))
  }

  /** Only the letters r, u, b and f, in either case. */
  predicate PrefixLetters(text: JsString) {
    text == [] || (Letter(text[0]) && text[0] % 0x20 in {0x12, 0x15, 0x02, 0x06} && PrefixLetters(text[1..]))
  }

  /** The start of the letters that stand directly before a position. */
  function LettersStart(line: JsString, i: nat): (start: nat)
    requires i <= |line|
    ensures start <= i
  {
    if i > 0 && Letter(line[i - 1]) then LettersStart(line, i - 1) else i
  }

  function StringPrefix(line: JsString, i: nat): (prefix: JsString)
    requires i <= |line|
    ensures |prefix| <= i
  {
    var letters := line[LettersStart(line, i)..i];
    if PrefixLetters(letters) then letters else []
  }

  function IssuesAt(line: JsString, i: nat, lineNumber: nat): (issues: seq<Issue>)
    requires i <= |line|
  {
    var prefix := StringPrefix(line, i);
    var column := i - |prefix| + 1;
    (if Mentions(prefix, 0x46) then [FString(lineNumber, column)] else []) +
    (if Mentions(prefix, 0x42) then [BytesLiteral(lineNumber, column)] else [])
  }

  /** The issues of the strings that open before position p. */
  function IssuesBefore(m: Mode, line: JsString, lineNumber: nat, p: nat): (issues: seq<Issue>)
    requires p <= |line|
    decreases p, 0
  {
    if p == 0 then [] else IssuesBehind(m, line, lineNumber, p - 1)
  }

  function IssuesBehind(m: Mode, line: JsString, lineNumber: nat, p: nat): (issues: seq<Issue>)
    requires p < |line|
    decreases p, 1
  {
    IssuesBefore(m, line, lineNumber, p) +
    if CodeLike(ModeAt(m, line, p), line[p]) && IsQuote(line[p]) then IssuesAt(line, p, lineNumber) else []
  }

  /******* The jumping scanner *******/

  function Blanks(n: nat): (r: JsString) {
    seq(n, i => BLANK)
  }

  function PadEnd(code: JsString, n: nat): (r: JsString) {
    if |code| >= n then code else code + Blanks(n - |code|)
  }

  predicate TripleAt(line: JsString, q: CodeUnit, i: nat) {
    i + 3 <= |line| && line[i] == q && line[i + 1] == q && line[i + 2] == q
  }

  /** The first triple quote at or after a position. */
  function IndexOfTriple(line: JsString, q: CodeUnit, from: nat): (r: Option<nat>)
    ensures r.Some? ==> from <= r.value && TripleAt(line, q, r.value)
    ensures forall i: nat :: from <= i && (r.Some? ==> i < r.value) ==> !TripleAt(line, q, i)
    decreases |line| - from
  {
    if from >= |line| then None
    else if TripleAt(line, q, from) then Some(from)
    else IndexOfTriple(line, q, from + 1)
  }

  /** The first unescaped quote at or after a position. */
  function StringEnd(line: JsString, i: nat, q: CodeUnit, escaped: bool): (r: Option<nat>)
    ensures r.Some? ==> i <= r.value < |line|
    decreases |line| - i
  {
    if i >= |line| then None
    else if escaped then StringEnd(line, i + 1, q, false)
    else if line[i] == BACKSLASH then StringEnd(line, i + 1, q, true)
    else if line[i] == q then Some(i)
    else StringEnd(line, i + 1, q, false)
  }

  method FindStringEnd(line: JsString, start: nat, quote: CodeUnit) returns (r: Option<nat>)
    ensures r == StringEnd(line, start, quote, false)
  {
    var escaped := false;
    var index := start;
    while index < |line|
      invariant StringEnd(line, index, quote, escaped) == StringEnd(line, start, quote, false)
    {
      if escaped {
        escaped := false;
      } else if line[index] == BACKSLASH {
        escaped := true;
      } else if line[index] == quote {
        return Some(index);
      }
      index := index + 1;
    }
    r := None;
  }

  /** The mode a stored triple quote stands for. */
  function EntryMode(tripleQuote: Option<CodeUnit>): (m: Mode) {
    if tripleQuote.Some? then Tripled(tripleQuote.value, 0) else InCode
  }

  /** A string that opens at p goes on to `end`; `open` is its quote if it is a triple quote that nothing closes. */
  predicate StringAt(line: JsString, p: nat, open: Option<CodeUnit>, end: nat)
    requires p < |line|
  {
    var triple := TripleAt(line, line[p], p);
    var close := if triple then IndexOfTriple(line, line[p], p + 3) else StringEnd(line, p + 1, line[p], false);
    end == (if close.None? then |line| else close.value + (if triple then 3 else 1)) &&
    open == if triple && close.None? then Some(line[p]) else None
  }

  method SkipString(line: JsString, index: nat) returns (open: Option<CodeUnit>, end: nat)
    requires index < |line|
    ensures StringAt(line, index, open, end)
    ensures index < end <= |line|
  {
    var quote := line[index];
    var triple := TripleAt(line, quote, index);
    var close;
    if triple {
      close := IndexOfTriple(line, quote, index + 3);
    } else {
      close := FindStringEnd(line, index + 1, quote);
    }
    end := if close.None? then |line| else close.value + (if triple then 3 else 1);
    open := if triple && close.None? then Some(quote) else None;
  }

  /** The scanner's state: an open triple quote and the issues found so far. */
  class Scanner {
    var tripleQuote: Option<CodeUnit>
    var issues: seq<Issue>

    constructor ()
      ensures tripleQuote == None && issues == []
    {
      tripleQuote, issues := None, [];
    }

    method SanitizePythonLine(line: JsString, lineNumber: nat) returns (code: JsString)
      modifies this
      ensures code == Mask(EntryMode(old(tripleQuote)), line)
      ensures EntryMode(tripleQuote) == Exit(EntryMode(old(tripleQuote)), line)
      ensures issues == old(issues) + IssuesBefore(EntryMode(old(tripleQuote)), line, lineNumber, |line|)
    {
      ghost var m := EntryMode(tripleQuote);
      ghost var before, found := issues, [];
      var index := 0;
      code := [];
      while index < |line|
        invariant Reached(m, line, index, code, tripleQuote)
        invariant found == IssuesBefore(m, line, lineNumber, index) && issues == before + found
        decreases |line| - index
      {
        if tripleQuote.Some? {
          var close := IndexOfTriple(line, tripleQuote.value, index);
          TripleBranch(m, line, lineNumber, index, code, tripleQuote.value, close);
          if close.None? {
            code := PadEnd(code, |line|);
            return;
          }
          code := PadEnd(code, close.value + 3);
          index := close.value + 3;
          tripleQuote := None;
        } else if line[index] == HASH {
          CommentBranch(m, line, lineNumber, index, code);
          code := PadEnd(code, |line|);
          return;
        } else if IsQuote(line[index]) {
          var here := IssuesAt(line, index, lineNumber);
          issues := issues + here;
          Reassociate(before, found, here);
          found := found + here;
          var open, end := SkipString(line, index);
          StringBranch(m, line, lineNumber, index, code, open, end);
          code := PadEnd(code, end);
          index := end;
          tripleQuote := open;
        } else {
          PlainBranch(m, line, lineNumber, index, code);
          code := code + [line[index]];
          index := index + 1;
        }
      }
    }

    /** A whole file, line by line; line numbers start at 1. */
    method ScanPythonLines(content: JsString) returns (scanned: seq<JsString>)
      modifies this
      ensures scanned == MaskFile(EntryMode(old(tripleQuote)), Lines(content))
      ensures issues == old(issues) + FileIssues(EntryMode(old(tripleQuote)), Lines(content), |Lines(content)|)
    {
      var lines := Lines(content);
      ghost var entry := EntryMode(tripleQuote);
      ghost var before := issues;
      scanned := [];
      for i := 0 to |lines|
        invariant EntryMode(tripleQuote) == ModeBeforeLine(entry, lines, i)
        invariant scanned == MaskLines(entry, lines, i)
        invariant issues == before + FileIssues(entry, lines, i)
      {
        ghost var found := FileIssues(entry, lines, i);
        ghost var here := LineIssues(ModeBeforeLine(entry, lines, i), lines[i], i + 1);
        var code := SanitizePythonLine(lines[i], i + 1);
        scanned := scanned + [code];
        Reassociate(before, found, here);
      }
    }
  }

  /** What an open triple quote, or none, means for the mode at a position. */
  ghost predicate Landed(m: Mode, line: JsString, p: nat, tripleQuote: Option<CodeUnit>)
    requires p <= |line|
  {
    var here := ModeAt(m, line, p);
    if tripleQuote.Some? then
      EndOfLine(here) == Tripled(tripleQuote.value, 0) && (p < |line| ==> here == Tripled(tripleQuote.value, 0))
    else if p < |line| then CodeLike(here, line[p])
    else EndOfLine(here) == InCode
  }

  /** What the scanner knows at a position: mode, mask and stored quote agree with the automaton. */
  ghost predicate Reached(m: Mode, line: JsString, p: nat, code: JsString, tripleQuote: Option<CodeUnit>) {
    p <= |line| && code == MaskAt(m, line, p) && |code| == p && Landed(m, line, p, tripleQuote)
  }

  /** Between two positions no character is code. */
  ghost predicate Quiet(m: Mode, line: JsString, a: nat, b: nat)
    requires b <= |line|
    decreases b - a
  {
    a < b ==> !CodeLike(ModeAt(m, line, a), line[a]) && Quiet(m, line, a + 1, b)
  }

  lemma {:induction false} QuietChain(m: Mode, line: JsString, a: nat, b: nat, c: nat)
    requires a <= b <= c <= |line| && Quiet(m, line, a, b) && Quiet(m, line, b, c)
    ensures Quiet(m, line, a, c)
    decreases b - a
  {
    if a < b {
      QuietChain(m, line, a + 1, b, c);
    }
  }

  /** Where no character is code, nothing is shown and no string opens. */
  lemma {:induction false} QuietIsHidden(m: Mode, line: JsString, lineNumber: nat, a: nat, b: nat)
    requires a <= b <= |line| && Quiet(m, line, a, b)
    ensures MaskAt(m, line, b) == MaskAt(m, line, a) + Blanks(b - a)
    ensures IssuesBefore(m, line, lineNumber, b) == IssuesBefore(m, line, lineNumber, a)
    decreases b - a
  {
    if a == b {
      assert MaskAt(m, line, a) + Blanks(0) == MaskAt(m, line, a);
    } else {
      QuietIsHidden(m, line, lineNumber, a + 1, b);
      BlankFirst(MaskAt(m, line, a), b - a);
    }
  }

  lemma BlankFirst(s: JsString, n: nat)
    requires n > 0
    ensures s + [BLANK] + Blanks(n - 1) == s + Blanks(n)
  {
  }

  lemma {:induction false} MaskLength(m: Mode, line: JsString, p: nat)
    requires p <= |line|
    ensures |MaskAt(m, line, p)| == p
  {
    if p > 0 {
      MaskLength(m, line, p - 1);
    }
  }

  lemma Reassociate<T>(a: seq<T>, b: seq<T>, c: seq<T>)
    ensures a + b + c == a + (b + c)
  {
  }

  lemma Padding(code: JsString, end: nat, masked: JsString)
    requires |code| <= end && masked == code + Blanks(end - |code|)
    ensures PadEnd(code, end) == masked && |masked| == end
  {
    assert code + Blanks(0) == code;
  }

  /** A blank character, then quiet text. */
  lemma BlankThenQuiet(m: Mode, line: JsString, lineNumber: nat, p: nat, end: nat)
    requires p < end <= |line| && !Visible(ModeAt(m, line, p), line[p]) && Quiet(m, line, p + 1, end)
    ensures MaskAt(m, line, end) == MaskAt(m, line, p) + Blanks(end - p)
    ensures IssuesBefore(m, line, lineNumber, end) == IssuesBefore(m, line, lineNumber, p + 1)
  {
    var before, next, after := MaskAt(m, line, p), MaskAt(m, line, p + 1), MaskAt(m, line, end);
    QuietIsHidden(m, line, lineNumber, p + 1, end);
    BlankStep(m, line, p);
    assert after == next + Blanks(end - (p + 1)) && next == before + [BLANK];
    BlankThenBlanks(before, next, after, end - p);
  }

  lemma BlankStep(m: Mode, line: JsString, p: nat)
    requires p < |line| && !Visible(ModeAt(m, line, p), line[p])
    ensures MaskAt(m, line, p + 1) == MaskAt(m, line, p) + [BLANK]
  {
  }

  lemma BlankThenBlanks(before: JsString, next: JsString, after: JsString, n: nat)
    requires n > 0 && next == before + [BLANK] && after == next + Blanks(n - 1)
    ensures after == before + Blanks(n)
  {
    BlankFirst(before, n);
  }

  /******* Jumps *******/

  /** How many of the last characters before p, back to start, are the quote. */
  function Trail(line: JsString, q: CodeUnit, start: nat, p: nat): (n: nat)
    requires start <= p <= |line|
    ensures n <= p - start && forall i :: p - n <= i < p ==> line[i] == q
  {
    if p > start && line[p - 1] == q then Trail(line, q, start, p - 1) + 1 else 0
  }

  lemma QuotesMakeTriple(line: JsString, q: CodeUnit, p: nat)
    requires 3 <= p <= |line| && forall i :: p - 3 <= i < p ==> line[i] == q
    ensures exists i: nat :: i + 3 == p && TripleAt(line, q, i)
  {
    assert TripleAt(line, q, p - 3);
  }

  /** Inside a triple-quoted string up to the first closing triple. */
  lemma {:induction false} TripleScan(m: Mode, line: JsString, start: nat, p: nat, q: CodeUnit)
    requires start <= p <= |line| && ModeAt(m, line, start) == Tripled(q, 0)
    requires forall i: nat :: start <= i && i + 3 <= p ==> !TripleAt(line, q, i)
    ensures Trail(line, q, start, p) < 3 && ModeAt(m, line, p) == Tripled(q, Trail(line, q, start, p))
    ensures Quiet(m, line, start, p)
    decreases p
  {
    if p > start {
      TripleScan(m, line, start, p - 1, q);
      QuietChain(m, line, start, p - 1, p);
      if Trail(line, q, start, p) == 3 {
        QuotesMakeTriple(line, q, p);
      }
    }
  }

  lemma TrailAtLeastTwo(line: JsString, q: CodeUnit, start: nat, p: nat)
    requires start + 2 <= p <= |line| && line[p - 1] == q && line[p - 2] == q
    ensures Trail(line, q, start, p) >= 2
  {
    assert Trail(line, q, start, p) == Trail(line, q, start, p - 1) + 1;
    assert Trail(line, q, start, p - 1) == Trail(line, q, start, p - 2) + 1;
  }

  /** From inside a triple-quoted string to behind its close, or to the end of the line. */
  lemma TripleJump(m: Mode, line: JsString, start: nat, q: CodeUnit, close: Option<nat>)
    requires start <= |line| && ModeAt(m, line, start) == Tripled(q, 0) && close == IndexOfTriple(line, q, start)
    ensures var end := if close.Some? then close.value + 3 else |line|;
            start <= end <= |line| && Quiet(m, line, start, end) &&
            Landed(m, line, end, if close.Some? then None else Some(q))
  {
    if close.None? {
      TripleScan(m, line, start, |line|, q);
    } else {
      var last := close.value + 2;
      assert TripleAt(line, q, close.value);
      TripleScan(m, line, start, last, q);
      TrailAtLeastTwo(line, q, start, last);
      assert ModeAt(m, line, last + 1) == Step(ModeAt(m, line, last), line[last]);
      QuietChain(m, line, start, last, last + 1);
    }
  }

  lemma {:induction false} CommentScan(m: Mode, line: JsString, start: nat, p: nat)
    requires start < p <= |line| && CodeLike(ModeAt(m, line, start), line[start]) && line[start] == HASH
    ensures Quiet(m, line, start + 1, p) && ModeAt(m, line, p) == InComment
    decreases p
  {
    assert ModeAt(m, line, p) == Step(ModeAt(m, line, p - 1), line[p - 1]);
    if p > start + 1 {
      CommentScan(m, line, start, p - 1);
      QuietChain(m, line, start + 1, p - 1, p);
    }
  }

  lemma OpenTripleJump(m: Mode, line: JsString, i: nat, close: Option<nat>)
    requires i < |line| && CodeLike(ModeAt(m, line, i), line[i]) && IsQuote(line[i]) && TripleAt(line, line[i], i)
    requires close == IndexOfTriple(line, line[i], i + 3)
    ensures var end := if close.Some? then close.value + 3 else |line|;
            i < end <= |line| && Quiet(m, line, i + 1, end) &&
            Landed(m, line, end, if close.Some? then None else Some(line[i]))
  {
    var q := line[i];
    assert ModeAt(m, line, i + 1) == Opened(q);
    assert ModeAt(m, line, i + 2) == Step(ModeAt(m, line, i + 1), line[i + 1]);
    assert ModeAt(m, line, i + 3) == Step(ModeAt(m, line, i + 2), line[i + 2]);
    TripleJump(m, line, i + 3, q, close);
  }

  /** From inside a quoted string to behind its close, or to the end of the line. */
  lemma {:induction false} QuotedScan(m: Mode, line: JsString, i: nat, q: CodeUnit, escaped: bool)
    requires i <= |line| && ModeAt(m, line, i) == Quoted(q, escaped) && q != BACKSLASH
    ensures var close := StringEnd(line, i, q, escaped);
            var end := if close.Some? then close.value + 1 else |line|;
            i <= end && Quiet(m, line, i, end) &&
            if close.Some? then ModeAt(m, line, end) == InCode else ModeAt(m, line, end).Quoted?
    decreases |line| - i
  {
    if i < |line| {
      assert ModeAt(m, line, i + 1) == Step(ModeAt(m, line, i), line[i]);
      if escaped || line[i] != q {
        QuotedScan(m, line, i + 1, q, !escaped && line[i] == BACKSLASH);
      }
    }
  }

  lemma StringJump(m: Mode, line: JsString, i: nat, close: Option<nat>)
    requires i < |line| && CodeLike(ModeAt(m, line, i), line[i]) && IsQuote(line[i]) && !TripleAt(line, line[i], i)
    requires close == StringEnd(line, i + 1, line[i], false)
    ensures var end := if close.Some? then close.value + 1 else |line|;
            i < end <= |line| && Quiet(m, line, i + 1, end) && Landed(m, line, end, None)
  {
    var q := line[i];
    assert ModeAt(m, line, i + 1) == Opened(q);
    if i + 1 < |line| {
      assert ModeAt(m, line, i + 2) == Step(ModeAt(m, line, i + 1), line[i + 1]);
      if line[i + 1] != q {
        QuotedScan(m, line, i + 2, q, line[i + 1] == BACKSLASH);
      }
    }
  }

  /******* The branches of the scanner *******/

  /** Text of an open triple quote is padding up to behind its close. */
  lemma TripleBranch(m: Mode, line: JsString, lineNumber: nat, p: nat, code: JsString, q: CodeUnit, close: Option<nat>)
    requires p < |line| && Reached(m, line, p, code, Some(q)) && close == IndexOfTriple(line, q, p)
    ensures var end := if close.Some? then close.value + 3 else |line|;
            Reached(m, line, end, PadEnd(code, end), if close.Some? then None else Some(q)) &&
            IssuesBefore(m, line, lineNumber, end) == IssuesBefore(m, line, lineNumber, p)
  {
    TripleJump(m, line, p, q, close);
    var end := if close.Some? then close.value + 3 else |line|;
    QuietIsHidden(m, line, lineNumber, p, end);
    Padding(code, end, MaskAt(m, line, end));
  }

  /** A comment is padding to the end of the line. */
  lemma CommentBranch(m: Mode, line: JsString, lineNumber: nat, p: nat, code: JsString)
    requires p < |line| && Reached(m, line, p, code, None) && line[p] == HASH
    ensures Reached(m, line, |line|, PadEnd(code, |line|), None)
    ensures IssuesBefore(m, line, lineNumber, |line|) == IssuesBefore(m, line, lineNumber, p)
  {
    CommentScan(m, line, p, |line|);
    BlankThenQuiet(m, line, lineNumber, p, |line|);
    Padding(code, |line|, MaskAt(m, line, |line|));
  }

  lemma StringPadded(m: Mode, line: JsString, lineNumber: nat, p: nat, code: JsString, end: nat, open: Option<CodeUnit>)
    requires p < end <= |line| && Reached(m, line, p, code, None) && IsQuote(line[p])
    requires Quiet(m, line, p + 1, end) && Landed(m, line, end, open)
    ensures Reached(m, line, end, PadEnd(code, end), open)
    ensures IssuesBefore(m, line, lineNumber, end) ==
            IssuesBefore(m, line, lineNumber, p) + IssuesAt(line, p, lineNumber)
  {
    BlankThenQuiet(m, line, lineNumber, p, end);
    Padding(code, end, MaskAt(m, line, end));
  }

  /** A string is padding up to behind its close; its opening quote reports the prefix. */
  lemma StringBranch(m: Mode, line: JsString, lineNumber: nat, p: nat, code: JsString, open: Option<CodeUnit>,
                     end: nat)
    requires p < |line| && Reached(m, line, p, code, None) && IsQuote(line[p])
    requires StringAt(line, p, open, end)
    ensures Reached(m, line, end, PadEnd(code, end), open)
    ensures IssuesBefore(m, line, lineNumber, end) ==
            IssuesBefore(m, line, lineNumber, p) + IssuesAt(line, p, lineNumber)
  {
    if TripleAt(line, line[p], p) {
      OpenTripleJump(m, line, p, IndexOfTriple(line, line[p], p + 3));
    } else {
      StringJump(m, line, p, StringEnd(line, p + 1, line[p], false));
    }
    StringPadded(m, line, lineNumber, p, code, end, open);
  }

  /** A plain character stays as it is and leaves the scanner in code. */
  lemma PlainBranch(m: Mode, line: JsString, lineNumber: nat, p: nat, code: JsString)
    requires p < |line| && Reached(m, line, p, code, None) && line[p] != HASH && !IsQuote(line[p])
    ensures Reached(m, line, p + 1, code + [line[p]], None)
    ensures IssuesBefore(m, line, lineNumber, p + 1) == IssuesBefore(m, line, lineNumber, p)
  {
  }

  /******* Whole files *******/

  const LF: CodeUnit := 0x0A
  const CR: CodeUnit := 0x0D

  /** Where the first line feed stands. */
  function LineFeed(content: JsString, from: nat): (r: Option<nat>)
    requires from <= |content|
    ensures r.Some? ==> from <= r.value < |content| && content[r.value] == LF
    ensures forall i :: from <= i < |content| && (r.Some? ==> i < r.value) ==> content[i] != LF
    decreases |content| - from
  {
    if from == |content| then None else if content[from] == LF then Some(from) else LineFeed(content, from + 1)
  }

  /** Where the line break that ends at a line feed starts: a carriage return before it belongs to it. */
  function BreakStart(content: JsString, feed: nat): (start: nat)
    requires feed < |content|
    ensures feed - 1 <= start <= feed
  {
    if feed > 0 && content[feed - 1] == CR then feed - 1 else feed
  }

  /** The lines between the breaks. */
  function Lines(content: JsString): (lines: seq<JsString>)
    ensures |lines| > 0
    decreases |content|
  {
    var feed := LineFeed(content, 0);
    if feed.None? then [content] else [content[..BreakStart(content, feed.value)]] + Lines(content[feed.value + 1..])
  }

  /** The lines put together again with a choice of breaks: `true` keeps the carriage return. */
  function Rejoin(lines: seq<JsString>, withReturn: seq<bool>): (content: JsString)
    requires |lines| == |withReturn| + 1
    decreases |lines|
  {
    if withReturn == [] then lines[0]
    else lines[0] + (if withReturn[0] then [0x0D, 0x0A] else [0x0A]) + Rejoin(lines[1..], withReturn[1..])
  }

  /** Which breaks of a text have a carriage return. */
  function Returns(content: JsString): (withReturn: seq<bool>)
    ensures |Lines(content)| == |withReturn| + 1
    decreases |content|
  {
    var feed := LineFeed(content, 0);
    if feed.None? then [] else [BreakStart(content, feed.value) < feed.value] + Returns(content[feed.value + 1..])
  }

  /** The text up to a line feed, its break, and the rest make up the text. */
  lemma FirstBreak(content: JsString, feed: nat)
    requires feed < |content| && content[feed] == LF
    ensures var start := BreakStart(content, feed);
            content[..start] + (if start < feed then [CR, LF] else [LF]) + content[feed + 1..] == content
  {
    var start := BreakStart(content, feed);
    assert content[start..feed + 1] == if start < feed then [CR, LF] else [LF];
    assert content == content[..start] + content[start..feed + 1] + content[feed + 1..];
  }

  predicate OneLine(line: JsString) {
    0x0A !in line
  }

  predicate OneLineEach(lines: seq<JsString>) {
    lines == [] || (OneLine(lines[0]) && OneLineEach(lines[1..]))
  }

  lemma OneMore(line: JsString, rest: seq<JsString>)
    requires OneLine(line) && OneLineEach(rest)
    ensures OneLineEach([line] + rest)
  {
    assert ([line] + rest)[1..] == rest;
  }

  /** A break without its carriage return stands behind a line that does not end in one. */
  predicate NoReturnLeft(lines: seq<JsString>, withReturn: seq<bool>)
    requires |lines| == |withReturn| + 1
    decreases |withReturn|
  {
    withReturn == [] ||
    ((!withReturn[0] && lines[0] != [] ==> lines[0][|lines[0]| - 1] != 0x0D) &&
     NoReturnLeft(lines[1..], withReturn[1..]))
  }

  /**
   Splitting loses nothing but the breaks, which take a carriage return before them along, and no line keeps a
   line feed.
   */
  lemma {:induction false} LinesRejoin(content: JsString)
    ensures Rejoin(Lines(content), Returns(content)) == content && OneLineEach(Lines(content))
    ensures NoReturnLeft(Lines(content), Returns(content))
    decreases |content|
  {
    var feed := LineFeed(content, 0);
    if feed.Some? {
      var rest := content[feed.value + 1..];
      LinesRejoin(rest);
      assert Lines(content)[1..] == Lines(rest);
      assert Returns(content)[1..] == Returns(rest);
      FirstBreak(content, feed.value);
      OneMore(content[..BreakStart(content, feed.value)], Lines(rest));
    }
  }

  function LineIssues(m: Mode, line: JsString, lineNumber: nat): (issues: seq<Issue>) {
    IssuesBefore(m, line, lineNumber, |line|)
  }

  /** The issues of the first n lines. */
  function FileIssues(m: Mode, lines: seq<JsString>, n: nat): (issues: seq<Issue>)
    requires n <= |lines|
  {
    if n == 0 then [] else FileIssues(m, lines, n - 1) + LineIssues(ModeBeforeLine(m, lines, n - 1), lines[n - 1], n)
  }

  function ModeBeforeLine(m: Mode, lines: seq<JsString>, i: nat): (r: Mode)
    requires i <= |lines|
  {
    if i == 0 then m else Exit(ModeBeforeLine(m, lines, i - 1), lines[i - 1])
  }

  function MaskLines(m: Mode, lines: seq<JsString>, i: nat): (r: seq<JsString>)
    requires i <= |lines|
    ensures |r| == i
  {
    if i == 0 then [] else MaskLines(m, lines, i - 1) + [Mask(ModeBeforeLine(m, lines, i - 1), lines[i - 1])]
  }

  function MaskFile(m: Mode, lines: seq<JsString>): (r: seq<JsString>) {
    MaskLines(m, lines, |lines|)
  }

  lemma {:induction false} MaskLinesAt(m: Mode, lines: seq<JsString>, n: nat, i: nat)
    requires i < n <= |lines|
    ensures MaskLines(m, lines, n)[i] == Mask(ModeBeforeLine(m, lines, i), lines[i])
    decreases n
  {
    if i < n - 1 {
      MaskLinesAt(m, lines, n - 1, i);
    }
  }

  /** Each output character is the input character, shown as code, or a blank. */
  lemma {:induction false} MaskCharacter(m: Mode, line: JsString, p: nat, i: nat)
    requires i < p <= |line|
    ensures |MaskAt(m, line, p)| == p && MaskAt(m, line, p)[i] == Shown(ModeAt(m, line, i), line[i])
    decreases p
  {
    MaskLength(m, line, p - 1);
    if i < p - 1 {
      MaskCharacter(m, line, p - 1, i);
    }
  }

  /** Neither quotes nor comment signs are left. */
  ghost predicate Clean(line: JsString) {
    forall i :: 0 <= i < |line| ==> line[i] != HASH && !IsQuote(line[i])
  }

  lemma MaskIsClean(m: Mode, line: JsString)
    ensures |Mask(m, line)| == |line| && Clean(Mask(m, line))
  {
    MaskLength(m, line, |line|);
    forall i | 0 <= i < |line| ensures Mask(m, line)[i] != HASH && !IsQuote(Mask(m, line)[i]) {
      MaskCharacter(m, line, |line|, i);
    }
  }

  lemma {:induction false} CleanUnchanged(line: JsString, p: nat)
    requires Clean(line) && p <= |line|
    ensures ModeAt(InCode, line, p) == InCode && MaskAt(InCode, line, p) == line[..p]
  {
    if p > 0 {
      CleanUnchanged(line, p - 1);
      assert line[..p] == line[..p - 1] + [line[p - 1]];
    }
  }

  lemma {:induction false} CleanFileUnchanged(lines: seq<JsString>, n: nat)
    requires n <= |lines| && forall i :: 0 <= i < n ==> Clean(lines[i])
    ensures ModeBeforeLine(InCode, lines, n) == InCode && MaskLines(InCode, lines, n) == lines[..n]
  {
    if n > 0 {
      CleanFileUnchanged(lines, n - 1);
      CleanUnchanged(lines[n - 1], |lines[n - 1]|);
      assert lines[n - 1][..|lines[n - 1]|] == lines[n - 1];
      assert lines[..n] == lines[..n - 1] + [lines[n - 1]];
    }
  }

  /** Output lines have the input's lengths, and scanning the output again changes nothing. */
  lemma ScanIdempotent(lines: seq<JsString>)
    ensures var scanned := MaskFile(InCode, lines);
            |scanned| == |lines| && (forall i :: 0 <= i < |lines| ==> |scanned[i]| == |lines[i]|) &&
            MaskFile(InCode, scanned) == scanned
  {
    var scanned := MaskFile(InCode, lines);
    forall i | 0 <= i < |lines| ensures |scanned[i]| == |lines[i]| && Clean(scanned[i]) {
      MaskLinesAt(InCode, lines, |lines|, i);
      MaskIsClean(ModeBeforeLine(InCode, lines, i), lines[i]);
    }
    CleanFileUnchanged(scanned, |scanned|);
    assert scanned[..|scanned|] == scanned;
  }

  /******* Lines in literal characters *******/

  lemma {:induction false} ModeFromSecond(m: Mode, line: JsString, p: nat)
    requires p < |line|
    ensures ModeAt(m, line, p + 1) == ModeAt(Step(m, line[0]), line[1..], p)
  {
    if p > 0 {
      ModeFromSecond(m, line, p - 1);
      assert line[1..][p - 1] == line[p];
    }
  }

  lemma {:induction false} MaskFromSecond(m: Mode, line: JsString, p: nat)
    requires p < |line|
    ensures MaskAt(m, line, p + 1) == [Shown(m, line[0])] + MaskAt(Step(m, line[0]), line[1..], p)
  {
    if p > 0 {
      MaskFromSecond(m, line, p - 1);
      ModeFromSecond(m, line, p - 1);
      assert line[1..][p - 1] == line[p];
    }
  }

  /** The mode behind the text. */
  function Behind(m: Mode, text: JsString): (r: Mode) {
    ModeAt(m, text, |text|)
  }

  /** A text is read from its first character on. */
  lemma FirstThenRest(m: Mode, text: JsString)
    requires text != []
    ensures Behind(m, text) == Behind(Step(m, text[0]), text[1..])
    ensures Mask(m, text) == [Shown(m, text[0])] + Mask(Step(m, text[0]), text[1..])
  {
    ModeFromSecond(m, text, |text| - 1);
    MaskFromSecond(m, text, |text| - 1);
  }

  /** Reading one text and then another. */
  lemma {:induction false} OneThenOther(m: Mode, a: JsString, b: JsString)
    ensures Behind(m, a + b) == Behind(Behind(m, a), b) && Mask(m, a + b) == Mask(m, a) + Mask(Behind(m, a), b)
    decreases |a|
  {
    if a == [] {
      assert a + b == b && Behind(m, []) == m && Mask(m, []) == [];
    } else {
      FirstThenRest(m, a);
      FirstThenRest(m, a + b);
      assert (a + b)[1..] == a[1..] + b;
      OneThenOther(Step(m, a[0]), a[1..], b);
    }
  }

  /** The text is blanked out, and leaves the mode. */
  ghost predicate Hides(m: Mode, text: JsString, after: Mode) {
    Behind(m, text) == after && Mask(m, text) == seq(|text|, i => 0x20)
  }

  lemma HidesBoth(m: Mode, a: JsString, middle: Mode, b: JsString, after: Mode)
    requires Hides(m, a, middle) && Hides(middle, b, after)
    ensures Hides(m, a + b, after)
  {
    OneThenOther(m, a, b);
  }

  lemma HidesOne(m: Mode, c: CodeUnit)
    requires !Visible(m, c)
    ensures Hides(m, [c], Step(m, c))
  {
    FirstThenRest(m, [c]);
    assert [c][1..] == [] && Mask(Step(m, c), []) == [] && Behind(Step(m, c), []) == Step(m, c);
  }

  /** Characters other than the two quotes and the number sign are code and stay. */
  lemma {:induction false} CodeStays(text: JsString)
    requires 0x22 !in text && 0x27 !in text && 0x23 !in text
    ensures Behind(InCode, text) == InCode && Mask(InCode, text) == text
  {
    if text != [] {
      FirstThenRest(InCode, text);
      CodeStays(text[1..]);
      assert text == [text[0]] + text[1..];
    }
  }

  lemma {:induction false} CommentHides(text: JsString)
    ensures Hides(InComment, text, InComment)
  {
    if text != [] {
      HidesOne(InComment, text[0]);
      CommentHides(text[1..]);
      HidesBoth(InComment, [text[0]], InComment, text[1..], InComment);
      assert text == [text[0]] + text[1..];
    }
  }

  /** Behind a number sign everything is blank to the end of the line, and the next line starts in code. */
  lemma NumberSignComments(text: JsString)
    ensures Mask(InCode, [0x23] + text) == seq(|text| + 1, i => 0x20) && Exit(InCode, [0x23] + text) == InCode
  {
    HidesOne(InCode, 0x23);
    CommentHides(text);
    HidesBoth(InCode, [0x23], InComment, text, InComment);
  }

  /** No closing quote: each one stands behind a backslash that is not itself behind one. */
  predicate Inside(text: JsString, quote: CodeUnit) {
    text == [] ||
    if text[0] == 0x5C then |text| > 1 && Inside(text[2..], quote) else text[0] != quote && Inside(text[1..], quote)
  }

  lemma {:induction false} InsideHides(text: JsString, quote: CodeUnit)
    requires Inside(text, quote) && quote != 0x5C
    ensures Hides(Quoted(quote, false), text, Quoted(quote, false))
    decreases |text|
  {
    if text != [] {
      UnitHides(Quoted(quote, false), text, quote);
      var n := if text[0] == 0x5C then 2 else 1;
      InsideHides(text[n..], quote);
      HidesBoth(Quoted(quote, false), text[..n], Quoted(quote, false), text[n..], Quoted(quote, false));
      assert text == text[..n] + text[n..];
    }
  }

  /** A character of a string, or an escaped one, is blank and leaves the string open. */
  lemma UnitHides(m: Mode, text: JsString, quote: CodeUnit)
    requires Inside(text, quote) && text != [] && quote != 0x5C && (m == Quoted(quote, false) || m == Opened(quote))
    ensures var n := if text[0] == 0x5C then 2 else 1; n <= |text| && Hides(m, text[..n], Quoted(quote, false))
  {
    HidesOne(m, text[0]);
    if text[0] == 0x5C {
      HidesOne(Quoted(quote, true), text[1]);
      HidesBoth(m, [text[0]], Quoted(quote, true), [text[1]], Quoted(quote, false));
      assert text[..2] == [text[0]] + [text[1]];
    } else {
      assert text[..1] == [text[0]];
    }
  }

  /** Behind an opening quote, what is not empty is inside the string. */
  lemma OpenedHides(text: JsString, quote: CodeUnit)
    requires Inside(text, quote) && text != [] && quote != 0x5C
    ensures Hides(Opened(quote), text, Quoted(quote, false))
  {
    UnitHides(Opened(quote), text, quote);
    var n := if text[0] == 0x5C then 2 else 1;
    InsideHides(text[n..], quote);
    HidesBoth(Opened(quote), text[..n], Quoted(quote, false), text[n..], Quoted(quote, false));
    assert text == text[..n] + text[n..];
  }

  /**
   A string in single or double quotes is blank, quotes included, and code goes on behind it; one that nothing
   closes is blank to the end of the line, and the next line starts in code.
   */
  lemma StringHides(text: JsString, quote: CodeUnit)
    requires quote in {0x22, 0x27} && text != [] && Inside(text, quote)
    ensures Hides(InCode, [quote] + text + [quote], InCode)
    ensures Mask(InCode, [quote] + text) == seq(|text| + 1, i => 0x20) && Exit(InCode, [quote] + text) == InCode
  {
    HidesOne(InCode, quote);
    OpenedHides(text, quote);
    HidesBoth(InCode, [quote], Opened(quote), text, Quoted(quote, false));
    HidesOne(Quoted(quote, false), quote);
    HidesBoth(InCode, [quote] + text, Quoted(quote, false), [quote], InCode);
  }

  lemma {:induction false} TripledHides(text: JsString, quote: CodeUnit)
    requires quote !in text
    ensures Hides(Tripled(quote, 0), text, Tripled(quote, 0))
  {
    var m := Tripled(quote, 0);
    if text != [] {
      HidesOne(m, text[0]);
      TripledHides(text[1..], quote);
      HidesBoth(m, [text[0]], m, text[1..], m);
      assert text == [text[0]] + text[1..];
    }
  }

  lemma ThreeHide(m: Mode, quote: CodeUnit)
    requires quote in {0x22, 0x27} && (m == InCode || m == Tripled(quote, 0))
    ensures Hides(m, [quote, quote, quote], if m == InCode then Tripled(quote, 0) else InCode)
  {
    var second, third := Step(m, quote), Step(Step(m, quote), quote);
    HidesOne(m, quote);
    HidesOne(second, quote);
    HidesOne(third, quote);
    HidesBoth(m, [quote], second, [quote], third);
    HidesBoth(m, [quote] + [quote], third, [quote], Step(third, quote));
    assert [quote] + [quote] + [quote] == [quote, quote, quote];
  }

  /** What stands between three quotes and three quotes is blank with them, and code goes on behind. */
  lemma TripleHides(text: JsString, quote: CodeUnit)
    requires quote in {0x22, 0x27} && quote !in text
    ensures Hides(InCode, [quote, quote, quote] + text, Tripled(quote, 0))
    ensures Hides(InCode, [quote, quote, quote] + text + [quote, quote, quote], InCode)
  {
    ThreeHide(InCode, quote);
    TripledHides(text, quote);
    HidesBoth(InCode, [quote, quote, quote], Tripled(quote, 0), text, Tripled(quote, 0));
    ThreeHide(Tripled(quote, 0), quote);
    HidesBoth(InCode, [quote, quote, quote] + text, Tripled(quote, 0), [quote, quote, quote], InCode);
  }

  /******* Which prefixes are reported *******/

  lemma {:induction false} PrefixLettersAre(text: JsString)
    ensures PrefixLetters(text) <==>
            forall i :: 0 <= i < |text| ==> text[i] in {0x52, 0x72, 0x55, 0x75, 0x42, 0x62, 0x46, 0x66}
  {
    if text != [] {
      PrefixLettersAre(text[1..]);
      assert text == [text[0]] + text[1..];
    }
  }

  lemma {:induction false} MentionsIff(text: JsString, upper: CodeUnit)
    requires upper < 0x60
    ensures Mentions(text, upper) <==> upper in text || upper + 0x20 in text
  {
    if text != [] {
      MentionsIff(text[1..], upper);
      assert text == [text[0]] + text[1..];
    }
  }

  lemma {:induction false} LettersFrom(line: JsString, start: nat, i: nat)
    requires start <= i <= |line|
    requires forall k :: start <= k < i ==> 0x41 <= line[k] <= 0x5A || 0x61 <= line[k] <= 0x7A
    requires start > 0 ==> !(0x41 <= line[start - 1] <= 0x5A || 0x61 <= line[start - 1] <= 0x7A)
    ensures LettersStart(line, i) == start
    decreases i
  {
    if start < i {
      LettersFrom(line, start, i - 1);
    }
  }

  /**
   A string at i with the letters before it starting at the given place, counted from 0: if they are all among
   r, u, b and f in either case, an f is reported as a format string and a b as a bytes literal, at the column
   of the first letter, counted from 1; otherwise nothing is.
   */
  lemma PrefixReported(line: JsString, start: nat, i: nat, lineNumber: nat)
    requires start <= i <= |line|
    requires forall k :: start <= k < i ==> 0x41 <= line[k] <= 0x5A || 0x61 <= line[k] <= 0x7A
    requires start > 0 ==> !(0x41 <= line[start - 1] <= 0x5A || 0x61 <= line[start - 1] <= 0x7A)
    ensures var letters := line[start..i];
            var known := forall k :: 0 <= k < |letters| ==>
                           letters[k] in {0x52, 0x72, 0x55, 0x75, 0x42, 0x62, 0x46, 0x66};
            IssuesAt(line, i, lineNumber) ==
              (if known && (0x46 in letters || 0x66 in letters) then [FString(lineNumber, start + 1)] else []) +
              (if known && (0x42 in letters || 0x62 in letters) then [BytesLiteral(lineNumber, start + 1)] else [])
  {
    LettersFrom(line, start, i);
    ReportedFor(line[start..i], StringPrefix(line, i), lineNumber, i, start);
  }

  lemma ReportedFor(letters: JsString, prefix: JsString, lineNumber: nat, i: int, start: int)
    requires prefix == (if PrefixLetters(letters) then letters else []) && i - |letters| == start
    ensures var known := forall k :: 0 <= k < |letters| ==>
                           letters[k] in {0x52, 0x72, 0x55, 0x75, 0x42, 0x62, 0x46, 0x66};
            var column := i - |prefix| + 1;
            (if Mentions(prefix, 0x46) then [FString(lineNumber, column)] else []) +
            (if Mentions(prefix, 0x42) then [BytesLiteral(lineNumber, column)] else []) ==
              (if known && (0x46 in letters || 0x66 in letters) then [FString(lineNumber, start + 1)] else []) +
              (if known && (0x42 in letters || 0x62 in letters) then [BytesLiteral(lineNumber, start + 1)] else [])
  {
    PrefixLettersAre(letters);
    MentionsIff(letters, 0x46);
    MentionsIff(letters, 0x42);
  }

  /** A string opens at the place and has the issue. */
  ghost predicate OpensWith(m: Mode, line: JsString, lineNumber: nat, i: nat, issue: Issue) {
    i < |line| && line[i] in {0x22, 0x27} && CodeLike(ModeAt(m, line, i), line[i]) &&
    issue in IssuesAt(line, i, lineNumber)
  }

  lemma OnePlaceMore(m: Mode, line: JsString, lineNumber: nat, p: nat, issue: Issue)
    requires p < |line|
    ensures issue in IssuesBefore(m, line, lineNumber, p + 1) <==>
            issue in IssuesBefore(m, line, lineNumber, p) || OpensWith(m, line, lineNumber, p, issue)
  {
  }

  lemma {:induction false} StringOfIssue(m: Mode, line: JsString, lineNumber: nat, p: nat, issue: Issue)
    returns (i: nat)
    requires p <= |line| && issue in IssuesBefore(m, line, lineNumber, p)
    ensures i < p && OpensWith(m, line, lineNumber, i, issue)
  {
    OnePlaceMore(m, line, lineNumber, p - 1, issue);
    if issue in IssuesBefore(m, line, lineNumber, p - 1) {
      i := StringOfIssue(m, line, lineNumber, p - 1, issue);
    } else {
      i := p - 1;
    }
  }

  lemma OnePlaceKeeps(m: Mode, line: JsString, lineNumber: nat, p: nat, issue: Issue)
    requires p < |line| && issue in IssuesBefore(m, line, lineNumber, p)
    ensures issue in IssuesBefore(m, line, lineNumber, p + 1)
  {
    OnePlaceMore(m, line, lineNumber, p, issue);
  }

  lemma {:induction false} IssueKept(m: Mode, line: JsString, lineNumber: nat, p: nat, end: nat, issue: Issue)
    requires p <= end <= |line| && issue in IssuesBefore(m, line, lineNumber, p)
    ensures issue in IssuesBefore(m, line, lineNumber, end)
    decreases end - p
  {
    if p < end {
      OnePlaceKeeps(m, line, lineNumber, p, issue);
      IssueKept(m, line, lineNumber, p + 1, end, issue);
    }
  }

  /** The issues of a line are those of the strings that open in it. */
  lemma IssuesOfStrings(m: Mode, line: JsString, lineNumber: nat, issue: Issue)
    ensures issue in LineIssues(m, line, lineNumber) <==>
            exists i :: 0 <= i < |line| && OpensWith(m, line, lineNumber, i, issue)
  {
    if issue in LineIssues(m, line, lineNumber) {
      var i := StringOfIssue(m, line, lineNumber, |line|, issue);
    }
    forall i | 0 <= i < |line| && OpensWith(m, line, lineNumber, i, issue)
      ensures issue in LineIssues(m, line, lineNumber)
    {
      OnePlaceMore(m, line, lineNumber, i, issue);
      IssueKept(m, line, lineNumber, i + 1, |line|, issue);
    }
  }

  /** An issue of a line names the line. */
  lemma LineOfIssue(m: Mode, line: JsString, lineNumber: nat, issue: Issue)
    requires issue in LineIssues(m, line, lineNumber)
    ensures issue.line == lineNumber
  {
    var i := StringOfIssue(m, line, lineNumber, |line|, issue);
  }

  /** The issues of line k, counted from 1. */
  function IssuesOfLine(m: Mode, lines: seq<JsString>, k: nat): (issues: seq<Issue>)
    requires 0 < k <= |lines|
  {
    LineIssues(ModeBeforeLine(m, lines, k - 1), lines[k - 1], k)
  }

  lemma OneLineMore(m: Mode, lines: seq<JsString>, n: nat, issue: Issue)
    requires 0 < n <= |lines|
    ensures issue in FileIssues(m, lines, n) <==>
            issue in FileIssues(m, lines, n - 1) || issue in IssuesOfLine(m, lines, n)
    ensures issue in IssuesOfLine(m, lines, n) ==> issue.line == n
  {
    if issue in IssuesOfLine(m, lines, n) {
      LineOfIssue(ModeBeforeLine(m, lines, n - 1), lines[n - 1], n, issue);
    }
  }

  lemma {:induction false} LineInFile(m: Mode, lines: seq<JsString>, n: nat, issue: Issue)
    requires n <= |lines| && issue in FileIssues(m, lines, n)
    ensures 1 <= issue.line <= n && issue in IssuesOfLine(m, lines, issue.line)
  {
    OneLineMore(m, lines, n, issue);
    if issue in FileIssues(m, lines, n - 1) {
      LineInFile(m, lines, n - 1, issue);
    }
  }

  lemma {:induction false} InFileOfLine(m: Mode, lines: seq<JsString>, n: nat, k: nat, issue: Issue)
    requires 0 < k <= n <= |lines| && issue in IssuesOfLine(m, lines, k)
    ensures issue in FileIssues(m, lines, n)
    decreases n
  {
    OneLineMore(m, lines, n, issue);
    if k < n {
      InFileOfLine(m, lines, n - 1, k, issue);
    }
  }

  /** An issue of a file names the line that it comes from, counted from 1. */
  lemma IssuesNameTheirLine(m: Mode, lines: seq<JsString>, issue: Issue)
    ensures issue in FileIssues(m, lines, |lines|) <==>
            1 <= issue.line <= |lines| && issue in IssuesOfLine(m, lines, issue.line)
  {
    if issue in FileIssues(m, lines, |lines|) {
      LineInFile(m, lines, |lines|, issue);
    }
    if 1 <= issue.line <= |lines| && issue in IssuesOfLine(m, lines, issue.line) {
      InFileOfLine(m, lines, |lines|, issue.line, issue);
    }
  }

  /** While a triple quote is open, a line without the closing triple is all blank and leaves it open. */
  lemma TripleQuoteCarries(line: JsString, q: CodeUnit)
    requires IndexOfTriple(line, q, 0).None?
    ensures Mask(Tripled(q, 0), line) == Blanks(|line|) && Exit(Tripled(q, 0), line) == Tripled(q, 0)
  {
    TripleJump(Tripled(q, 0), line, 0, q, None);
    QuietIsHidden(Tripled(q, 0), line, 0, 0, |line|);
  }
}

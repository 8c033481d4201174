/** The edit distance behind component name suggestions. */
module EditDistance {
  import opened JsText

  function Min(a: nat, b: nat): (m: nat) {
    if a <= b then a else b
  }

  function Cost(x: CodeUnit, y: CodeUnit): (c: nat) {
    if x == y then 0 else 1
  }

  /** The recursive distance of a[..i] and b[..j]. */
  function Prefix(a: JsString, b: JsString, i: nat, j: nat): (d: nat)
    requires i <= |a| && j <= |b|
    decreases i + j, 1
  {
    if i == 0 then j else if j == 0 then i else Cheapest(a, b, i, j)
  }

  /** The cheapest last step: insert b[j - 1], delete a[i - 1], or put one for the other. */
  function Cheapest(a: JsString, b: JsString, i: nat, j: nat): (d: nat)
    requires 0 < i <= |a| && 0 < j <= |b|
    decreases i + j, 0
  {
    Min(Min(Prefix(a, b, i, j - 1) + 1, Prefix(a, b, i - 1, j) + 1),
        Prefix(a, b, i - 1, j - 1) + Cost(a[i - 1], b[j - 1]))
  }

  lemma Cell(a: JsString, b: JsString, i: nat, j: nat)
    requires 0 < i <= |a| && 0 < j <= |b|
    ensures Prefix(a, b, i, j) == Min(Min(Prefix(a, b, i, j - 1) + 1, Prefix(a, b, i - 1, j) + 1),
                                      Prefix(a, b, i - 1, j - 1) + Cost(a[i - 1], b[j - 1]))
  {
  }

  function Distance(a: JsString, b: JsString): (d: nat) {
    Prefix(a, b, |a|, |b|)
  }

  /** The first n cells of a row of distances. */
  ghost predicate Row(row: seq<nat>, a: JsString, b: JsString, i: nat, n: nat)
    requires i <= |a| && n <= |row| && n <= |b| + 1
  {
    forall j :: 0 <= j < n ==> row[j] == Prefix(a, b, i, j)
  }

  /** The two-row loop: `previous` always holds the distances of the last finished row. */
  method Levenshtein(left: JsString, right: JsString) returns (distance: nat)
    ensures distance == Distance(left, right)
  {
    var width := |right| + 1;
    var previous := new nat[width](i => i);
    var current := new nat[width](i => 0);
    for leftIndex := 1 to |left| + 1
      invariant Row(previous[..], left, right, leftIndex - 1, width)
    {
      current[0] := leftIndex;
      for rightIndex := 1 to width
        invariant Row(current[..], left, right, leftIndex, rightIndex)
        invariant Row(previous[..], left, right, leftIndex - 1, width)
      {
        var cost := Cost(left[leftIndex - 1], right[rightIndex - 1]);
        ghost var before := current[..];
        current[rightIndex] := Min(Min(current[rightIndex - 1] + 1, previous[rightIndex] + 1),
                                   previous[rightIndex - 1] + cost);
        NextCell(before, previous[..], current[..], left, right, leftIndex, rightIndex);
      }
      forall j | 0 <= j < width {
        previous[j] := current[j];
      }
      assert previous[..] == current[..];
    }
    distance := previous[|right|];
  }

  lemma NextCell(before: seq<nat>, above: seq<nat>, row: seq<nat>, a: JsString, b: JsString, i: nat, j: nat)
    requires 0 < i <= |a| && 0 < j <= |b| && |row| == |before| == |above| == |b| + 1
    requires Row(before, a, b, i, j) && Row(above, a, b, i - 1, |b| + 1)
    requires row == before[j := Min(Min(before[j - 1] + 1, above[j] + 1), above[j - 1] + Cost(a[i - 1], b[j - 1]))]
    ensures Row(row, a, b, i, j + 1)
  {
    assert before[j - 1] == Prefix(a, b, i, j - 1) && above[j] == Prefix(a, b, i - 1, j);
    assert above[j - 1] == Prefix(a, b, i - 1, j - 1);
    Cell(a, b, i, j);
  }

  /******* A metric *******/

  lemma {:induction false} PrefixZero(a: JsString, b: JsString, i: nat, j: nat)
    requires i <= |a| && j <= |b|
    ensures Prefix(a, b, i, j) == 0 <==> a[..i] == b[..j]
    decreases i + j
  {
    if i > 0 && j > 0 {
      Cell(a, b, i, j);
      PrefixZero(a, b, i - 1, j - 1);
      assert a[..i] == a[..i - 1] + [a[i - 1]] && b[..j] == b[..j - 1] + [b[j - 1]];
      assert a[..i - 1] == a[..i][..i - 1] && b[..j - 1] == b[..j][..j - 1];
      assert a[i - 1] == a[..i][i - 1] && b[j - 1] == b[..j][j - 1];
    }
  }

  lemma {:induction false} PrefixSymmetric(a: JsString, b: JsString, i: nat, j: nat)
    requires i <= |a| && j <= |b|
    ensures Prefix(a, b, i, j) == Prefix(b, a, j, i)
    decreases i + j
  {
    if i > 0 && j > 0 {
      Cell(a, b, i, j);
      Cell(b, a, j, i);
      PrefixSymmetric(a, b, i, j - 1);
      PrefixSymmetric(a, b, i - 1, j);
      PrefixSymmetric(a, b, i - 1, j - 1);
    }
  }

  /** Through which neighbour a cell gets its value; the first cell has none. */
  datatype Way = Same | FromLeft | FromUp | FromDiagonal

  ghost predicate Came(a: JsString, b: JsString, i: nat, j: nat, way: Way)
    requires i <= |a| && j <= |b|
  {
    match way
    case Same => i == 0 && j == 0 && Prefix(a, b, i, j) == 0
    case FromLeft => 0 < j && Prefix(a, b, i, j) == Prefix(a, b, i, j - 1) + 1
    case FromUp => 0 < i && Prefix(a, b, i, j) == Prefix(a, b, i - 1, j) + 1
    case FromDiagonal =>
      0 < i && 0 < j && Prefix(a, b, i, j) == Prefix(a, b, i - 1, j - 1) + Cost(a[i - 1], b[j - 1])
  }

  lemma WayIn(a: JsString, b: JsString, i: nat, j: nat) returns (way: Way)
    requires i <= |a| && j <= |b|
    ensures Came(a, b, i, j, way)
  {
    if i == 0 {
      way := if j == 0 then Same else FromLeft;
    } else if j == 0 {
      way := FromUp;
    } else {
      Cell(a, b, i, j);
      if Prefix(a, b, i, j) == Prefix(a, b, i, j - 1) + 1 {
        way := FromLeft;
      } else if Prefix(a, b, i, j) == Prefix(a, b, i - 1, j) + 1 {
        way := FromUp;
      } else {
        way := FromDiagonal;
      }
    }
  }

  /** A cell is at most one above its neighbours, and at most the cost above the one on its diagonal. */
  lemma AtMostNext(a: JsString, b: JsString, i: nat, j: nat)
    requires i <= |a| && j <= |b|
    ensures 0 < j ==> Prefix(a, b, i, j) <= Prefix(a, b, i, j - 1) + 1
    ensures 0 < i ==> Prefix(a, b, i, j) <= Prefix(a, b, i - 1, j) + 1
    ensures 0 < i && 0 < j ==> Prefix(a, b, i, j) <= Prefix(a, b, i - 1, j - 1) + Cost(a[i - 1], b[j - 1])
  {
    if 0 < i && 0 < j {
      Cell(a, b, i, j);
    }
  }

  lemma {:induction false} PrefixTriangle(a: JsString, b: JsString, c: JsString, i: nat, j: nat, k: nat)
    requires i <= |a| && j <= |b| && k <= |c|
    ensures Prefix(a, c, i, k) <= Prefix(a, b, i, j) + Prefix(b, c, j, k)
    decreases i + j + k
  {
    var first := WayIn(a, b, i, j);
    var second := WayIn(b, c, j, k);
    AtMostNext(a, c, i, k);
    if first == FromUp {
      PrefixTriangle(a, b, c, i - 1, j, k);
    } else if second == FromLeft {
      PrefixTriangle(a, b, c, i, j, k - 1);
    } else if first == FromLeft && second == FromUp {
      PrefixTriangle(a, b, c, i, j - 1, k);
    } else if first == FromLeft && second == FromDiagonal {
      PrefixTriangle(a, b, c, i, j - 1, k - 1);
    } else if first == FromDiagonal && second == FromUp {
      PrefixTriangle(a, b, c, i - 1, j - 1, k);
    } else if first == FromDiagonal && second == FromDiagonal {
      PrefixTriangle(a, b, c, i - 1, j - 1, k - 1);
    }
  }

  /** Zero exactly on equal strings, symmetric, and subject to the triangle inequality. */
  lemma DistanceIsMetric(a: JsString, b: JsString, c: JsString)
    ensures Distance(a, b) == 0 <==> a == b
    ensures Distance(a, b) == Distance(b, a)
    ensures Distance(a, c) <= Distance(a, b) + Distance(b, c)
  {
    PrefixZero(a, b, |a|, |b|);
    assert a[..|a|] == a && b[..|b|] == b;
    PrefixSymmetric(a, b, |a|, |b|);
    PrefixTriangle(a, b, c, |a|, |b|, |c|);
  }

  /******* The fewest single-character edits *******/

  datatype Edit = InsertAt(at: nat, x: CodeUnit) | DeleteAt(at: nat) | ReplaceAt(at: nat, x: CodeUnit)

  predicate Fits(e: Edit, a: JsString) {
    if e.InsertAt? then e.at <= |a| else e.at < |a|
  }

  function Apply(e: Edit, a: JsString): (b: JsString)
    requires Fits(e, a)
  {
    match e
    case InsertAt(at, x) => a[..at] + [x] + a[at..]
    case DeleteAt(at) => a[..at] + a[at + 1..]
    case ReplaceAt(at, x) => a[..at] + [x] + a[at + 1..]
  }

  /** A script leads from a to b, one edit after the other. */
  ghost predicate Leads(script: seq<Edit>, a: JsString, b: JsString) {
    if script == [] then a == b
    else Fits(script[0], a) && Leads(script[1..], Apply(script[0], a), b)
  }

  lemma {:induction false} LeadsThenEdit(script: seq<Edit>, a: JsString, b: JsString, e: Edit)
    requires Leads(script, a, b) && Fits(e, b)
    ensures Leads(script + [e], a, Apply(e, b))
  {
    if script == [] {
      assert [e][1..] == [];
    } else {
      LeadsThenEdit(script[1..], Apply(script[0], a), b, e);
      assert (script + [e])[1..] == script[1..] + [e];
    }
  }

  /** A common suffix does not add to the distance of what precedes it. */
  lemma {:induction false} SuffixIsFree(a: JsString, b: JsString, i: nat, j: nat)
    requires i <= |a| && j <= |b| && a[i..] == b[j..]
    ensures Distance(a, b) <= Prefix(a, b, i, j)
    decreases |a| - i
  {
    if i < |a| {
      assert a[i] == a[i..][0] == b[j..][0] == b[j];
      assert a[i + 1..] == a[i..][1..] == b[j..][1..] == b[j + 1..];
      SuffixIsFree(a, b, i + 1, j + 1);
      Cell(a, b, i + 1, j + 1);
    } else {
      assert |b[j..]| == 0;
    }
  }

  lemma EditCostsAtMostOne(e: Edit, a: JsString)
    requires Fits(e, a)
    ensures Distance(a, Apply(e, a)) <= 1
  {
    var b, at := Apply(e, a), e.at;
    var i := if e.InsertAt? then at else at + 1;
    var j := if e.DeleteAt? then at else at + 1;
    assert a[..at] == b[..at] && a[i..] == b[j..];
    OneStepFromDiagonal(a, b, at, i, j);
    SuffixIsFree(a, b, i, j);
  }

  lemma OneStepFromDiagonal(a: JsString, b: JsString, at: nat, i: nat, j: nat)
    requires at <= i <= at + 1 && at <= j <= at + 1 && i <= |a| && j <= |b| && a[..at] == b[..at]
    ensures Prefix(a, b, i, j) <= 1
  {
    PrefixZero(a, b, at, at);
    if i > 0 && j > 0 {
      Cell(a, b, i, j);
    }
  }

  /** No script beats the distance. */
  lemma {:induction false} ScriptAtLeastDistance(script: seq<Edit>, a: JsString, b: JsString)
    requires Leads(script, a, b)
    ensures Distance(a, b) <= |script|
  {
    if script == [] {
      DistanceIsMetric(a, b, b);
    } else {
      var next := Apply(script[0], a);
      EditCostsAtMostOne(script[0], a);
      ScriptAtLeastDistance(script[1..], next, b);
      DistanceIsMetric(a, next, b);
    }
  }

  /** What the three edits do at the border between p and s. */
  lemma ApplyAtBorder(p: JsString, x: CodeUnit, y: CodeUnit, s: JsString)
    ensures Apply(InsertAt(|p|, y), p + s) == p + [y] + s
    ensures Apply(DeleteAt(|p|), p + ([x] + s)) == p + s
    ensures Apply(ReplaceAt(|p|, y), p + ([x] + s)) == p + [y] + s
  {
    assert (p + s)[..|p|] == p && (p + s)[|p|..] == s;
    var long := p + ([x] + s);
    assert long[..|p|] == p && long[|p| + 1..] == s;
  }

  lemma ThenInsert(done: seq<Edit>, start: JsString, p: JsString, y: CodeUnit, rest: JsString)
    returns (script: seq<Edit>)
    requires Leads(done, start, p + rest)
    ensures |script| == |done| + 1 && Leads(script, start, p + [y] + rest)
  {
    ApplyAtBorder(p, 0, y, rest);
    LeadsThenEdit(done, start, p + rest, InsertAt(|p|, y));
    script := done + [InsertAt(|p|, y)];
  }

  lemma ThenDelete(done: seq<Edit>, start: JsString, p: JsString, x: CodeUnit, rest: JsString)
    returns (script: seq<Edit>)
    requires Leads(done, start, p + ([x] + rest))
    ensures |script| == |done| + 1 && Leads(script, start, p + rest)
  {
    ApplyAtBorder(p, x, 0, rest);
    LeadsThenEdit(done, start, p + ([x] + rest), DeleteAt(|p|));
    script := done + [DeleteAt(|p|)];
  }

  lemma ThenReplace(done: seq<Edit>, start: JsString, p: JsString, x: CodeUnit, y: CodeUnit, rest: JsString)
    returns (script: seq<Edit>)
    requires Leads(done, start, p + ([x] + rest))
    ensures |script| == |done| + Cost(x, y) && Leads(script, start, p + [y] + rest)
  {
    if x == y {
      script := done;
      assert p + ([x] + rest) == p + [y] + rest;
    } else {
      ApplyAtBorder(p, x, y, rest);
      LeadsThenEdit(done, start, p + ([x] + rest), ReplaceAt(|p|, y));
      script := done + [ReplaceAt(|p|, y)];
    }
  }

  /** A longer prefix, by its last character. */
  lemma LastOfPrefix(s: JsString, n: nat, rest: JsString)
    requires 0 < n <= |s|
    ensures s[..n] == s[..n - 1] + [s[n - 1]] && s[..n] + rest == s[..n - 1] + ([s[n - 1]] + rest)
  {
  }

  /** The script leads from a[..i] + rest to b[..j] + rest. */
  ghost predicate Turns(script: seq<Edit>, a: JsString, b: JsString, i: nat, j: nat, rest: JsString)
    requires i <= |a| && j <= |b|
  {
    Leads(script, a[..i] + rest, b[..j] + rest)
  }

  lemma InsertNext(before: seq<Edit>, a: JsString, b: JsString, i: nat, j: nat, rest: JsString)
    returns (script: seq<Edit>)
    requires i <= |a| && 0 < j <= |b| && Turns(before, a, b, i, j - 1, rest)
    ensures |script| == |before| + 1 && Turns(script, a, b, i, j, rest)
  {
    LastOfPrefix(b, j, rest);
    script := ThenInsert(before, a[..i] + rest, b[..j - 1], b[j - 1], rest);
  }

  lemma DeleteNext(before: seq<Edit>, a: JsString, b: JsString, i: nat, j: nat, rest: JsString)
    returns (script: seq<Edit>)
    requires 0 < i <= |a| && j <= |b| && Turns(before, a, b, i - 1, j, [a[i - 1]] + rest)
    ensures |script| == |before| + 1 && Turns(script, a, b, i, j, rest)
  {
    LastOfPrefix(a, i, rest);
    script := ThenDelete(before, a[..i] + rest, b[..j], a[i - 1], rest);
  }

  lemma ReplaceNext(before: seq<Edit>, a: JsString, b: JsString, i: nat, j: nat, rest: JsString)
    returns (script: seq<Edit>)
    requires 0 < i <= |a| && 0 < j <= |b| && Turns(before, a, b, i - 1, j - 1, [a[i - 1]] + rest)
    ensures |script| == |before| + Cost(a[i - 1], b[j - 1]) && Turns(script, a, b, i, j, rest)
  {
    LastOfPrefix(a, i, rest);
    LastOfPrefix(b, j, rest);
    script := ThenReplace(before, a[..i] + rest, b[..j - 1], a[i - 1], b[j - 1], rest);
  }

  /** A script of the distance's length that turns a[..i] into b[..j] in front of any rest. */
  lemma {:induction false} PrefixScript(a: JsString, b: JsString, i: nat, j: nat, rest: JsString)
    returns (script: seq<Edit>)
    requires i <= |a| && j <= |b|
    ensures |script| == Prefix(a, b, i, j) && Turns(script, a, b, i, j, rest)
    decreases i + j
  {
    var way := WayIn(a, b, i, j);
    match way
    case Same =>
      script := [];
    case FromLeft =>
      var before := PrefixScript(a, b, i, j - 1, rest);
      script := InsertNext(before, a, b, i, j, rest);
    case FromUp =>
      var before := PrefixScript(a, b, i - 1, j, [a[i - 1]] + rest);
      script := DeleteNext(before, a, b, i, j, rest);
    case FromDiagonal =>
      var before := PrefixScript(a, b, i - 1, j - 1, [a[i - 1]] + rest);
      script := ReplaceNext(before, a, b, i, j, rest);
  }

  /** The distance is the length of a shortest edit script. */
  lemma DistanceIsShortestScript(a: JsString, b: JsString) returns (script: seq<Edit>)
    ensures Leads(script, a, b) && |script| == Distance(a, b)
    ensures forall other :: Leads(other, a, b) ==> |script| <= |other|
  {
    script := PrefixScript(a, b, |a|, |b|, []);
    assert a[..|a|] + [] == a && b[..|b|] + [] == b;
    forall other | Leads(other, a, b) ensures |script| <= |other| {
      ScriptAtLeastDistance(other, a, b);
    }
  }
}

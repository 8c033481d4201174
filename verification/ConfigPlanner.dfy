/** Planning a configuration write: deep merge, path removal and the hashes a plan carries. */
module ConfigPlanner {
  import opened Wrappers
  import opened JsText
  import opened JsonTree
  import opened CanonicalJson

  type Path = seq<JsString>

  /** A property read; an absent property reads as undefined. */
  function Get(ms: Members<Value>, k: JsString): (r: Value) {
    if Has(ms, k) then Find(ms, k).value else Undefined
  }

  /** The value at a path of record members. */
  function Lookup(v: Value, path: Path): (r: Option<Value>)
    decreases |path|
  {
    if path == [] then Some(v)
    else if v.Obj? && Has(v.members, path[0]) then Lookup(Find(v.members, path[0]).value, path[1..])
    else None
  }

  /******* Deep merge *******/

  function DeepMerge(base: Value, patch: Value): (r: Value)
    decreases patch
  {
    if base.Obj? && patch.Obj? then Obj(MergeMembers(base.members, patch.members)) else patch
  }

  function MergeMembers(base: Members<Value>, patch: Members<Value>): (r: Members<Value>)
    decreases patch
  {
    match patch
    case End => base
    case Member(key, value, rest) => MergeMembers(Put(base, key, DeepMerge(Get(base, key), value)), rest)
  }

  /** The merge as the program computes it: a copy of the base, updated entry by entry. */
  method Merge(base: Value, patch: Value) returns (r: Value)
    ensures r == DeepMerge(base, patch)
    decreases patch
  {
    if !base.Obj? || !patch.Obj? {
      return patch;
    }
    var result, rest := base.members, patch.members;
    while rest.Member?
      invariant MergeMembers(result, rest) == MergeMembers(base.members, patch.members)
      invariant rest == patch.members || rest < patch.members
      decreases rest
    {
      var merged := Merge(Get(result, rest.key), rest.value);
      result := Put(result, rest.key, merged);
      rest := rest.rest;
    }
    r := Obj(result);
  }

  lemma {:induction false} FindMerge(base: Members<Value>, patch: Members<Value>, k: JsString)
    requires Distinct(patch)
    ensures Find(MergeMembers(base, patch), k) ==
            if Has(patch, k) then Some(DeepMerge(Get(base, k), Find(patch, k).value)) else Find(base, k)
    decreases patch
  {
    if patch.Member? {
      var v := DeepMerge(Get(base, patch.key), patch.value);
      FindMerge(Put(base, patch.key, v), patch.rest, k);
      FindPut(base, patch.key, v, k);
    }
  }

  lemma {:induction false} MergeWellFormed(base: Value, patch: Value)
    requires WellFormed(base) && WellFormed(patch)
    ensures WellFormed(DeepMerge(base, patch))
    decreases patch
  {
    if base.Obj? && patch.Obj? {
      MergeMembersWellFormed(base.members, patch.members);
    }
  }

  lemma {:induction false} MergeMembersWellFormed(base: Members<Value>, patch: Members<Value>)
    requires Distinct(base) && WellFormedMembers(base) && WellFormedMembers(patch)
    ensures Distinct(MergeMembers(base, patch)) && WellFormedMembers(MergeMembers(base, patch))
    decreases patch
  {
    if patch.Member? {
      var prior := Get(base, patch.key);
      if Has(base, patch.key) {
        WellFormedFind(base, patch.key);
      }
      MergeWellFormed(prior, patch.value);
      var v := DeepMerge(prior, patch.value);
      DistinctPut(base, patch.key, v);
      WellFormedPut(base, patch.key, v);
      MergeMembersWellFormed(Put(base, patch.key, v), patch.rest);
    }
  }

  /******* Idempotence *******/

  lemma {:induction false} PutSame(ms: Members<Value>, k: JsString, v: Value)
    requires Find(ms, k) == Some(v)
    ensures Put(ms, k, v) == ms
  {
    if ms.key != k {
      PutSame(ms.rest, k, v);
    }
  }

  /** Merging changes nothing when every patched member is already as the patch would make it. */
  lemma {:induction false} MergeAbsorbed(base: Members<Value>, patch: Members<Value>)
    requires Distinct(patch)
    requires forall k :: Has(patch, k) ==> Has(base, k) && DeepMerge(Get(base, k), Get(patch, k)) == Get(base, k)
    ensures MergeMembers(base, patch) == base
    decreases patch
  {
    if patch.Member? {
      assert Has(patch, patch.key);
      PutSame(base, patch.key, Get(base, patch.key));
      forall k | Has(patch.rest, k)
        ensures Has(base, k) && DeepMerge(Get(base, k), Get(patch.rest, k)) == Get(base, k)
      {
        assert Has(patch, k) && Get(patch, k) == Get(patch.rest, k);
      }
      MergeAbsorbed(base, patch.rest);
    }
  }

  lemma {:induction false} MemberSmaller(ms: Members<Value>, k: JsString)
    requires Has(ms, k)
    ensures Get(ms, k) < ms
  {
    if ms.key != k {
      MemberSmaller(ms.rest, k);
    }
  }

  lemma {:induction false} SelfMerge(v: Value)
    requires WellFormed(v)
    ensures DeepMerge(v, v) == v
    decreases v
  {
    if v.Obj? {
      var ms := v.members;
      forall k | Has(ms, k) ensures Has(ms, k) && DeepMerge(Get(ms, k), Get(ms, k)) == Get(ms, k) {
        MemberSmaller(ms, k);
        WellFormedFind(ms, k);
        SelfMerge(Get(ms, k));
      }
      MergeAbsorbed(ms, ms);
    }
  }

  /** Applying the same patch twice equals applying it once. */
  lemma {:induction false} MergeIdempotent(base: Value, patch: Value)
    requires WellFormed(patch)
    ensures DeepMerge(DeepMerge(base, patch), patch) == DeepMerge(base, patch)
    decreases patch
  {
    if base.Obj? && patch.Obj? {
      var once := MergeMembers(base.members, patch.members);
      forall k | Has(patch.members, k)
        ensures Has(once, k) && DeepMerge(Get(once, k), Get(patch.members, k)) == Get(once, k)
      {
        FindMerge(base.members, patch.members, k);
        MemberSmaller(patch.members, k);
        WellFormedFind(patch.members, k);
        MergeIdempotent(Get(base.members, k), Get(patch.members, k));
      }
      MergeAbsorbed(once, patch.members);
    } else {
      SelfMerge(patch);
    }
  }

  /******* Associativity *******/

  /** Appending the keys of `more` that are new. */
  function AddKeys(keys: seq<JsString>, more: seq<JsString>): (r: seq<JsString>) {
    if more == [] then keys
    else
      var r := AddKeys(keys, more[..|more| - 1]);
      if more[|more| - 1] in r then r else r + [more[|more| - 1]]
  }

  lemma {:induction false} AddKeysIn(keys: seq<JsString>, more: seq<JsString>, k: JsString)
    ensures k in AddKeys(keys, more) <==> k in keys || k in more
  {
    if more != [] {
      AddKeysIn(keys, more[..|more| - 1], k);
      assert more == more[..|more| - 1] + [more[|more| - 1]];
    }
  }

  lemma {:induction false} AddKeysAssociative(a: seq<JsString>, b: seq<JsString>, c: seq<JsString>)
    ensures AddKeys(AddKeys(a, b), c) == AddKeys(a, AddKeys(b, c))
  {
    if c != [] {
      var last := c[|c| - 1];
      var inner := AddKeys(b, c[..|c| - 1]);
      AddKeysAssociative(a, b, c[..|c| - 1]);
      AddKeysIn(a, inner, last);
      if last !in inner {
        assert (inner + [last])[..|inner|] == inner;
      }
    }
  }

  lemma {:induction false} AddKeysFirst(keys: seq<JsString>, k: JsString, more: seq<JsString>)
    ensures AddKeys(keys, [k] + more) == AddKeys(if k in keys then keys else keys + [k], more)
  {
    var all := [k] + more;
    if more == [] {
      assert all[..0] == [];
    } else {
      assert all[..|all| - 1] == [k] + more[..|more| - 1];
      AddKeysFirst(keys, k, more[..|more| - 1]);
    }
  }

  lemma {:induction false} KeyOrderPut(ms: Members<Value>, k: JsString, v: Value)
    ensures KeyOrder(Put(ms, k, v)) == if Has(ms, k) then KeyOrder(ms) else KeyOrder(ms) + [k]
  {
    if ms.Member? && ms.key != k {
      KeyOrderPut(ms.rest, k, v);
    }
  }

  lemma {:induction false} KeyOrderMerge(base: Members<Value>, patch: Members<Value>)
    ensures KeyOrder(MergeMembers(base, patch)) == AddKeys(KeyOrder(base), KeyOrder(patch))
    decreases patch
  {
    if patch.Member? {
      var v := DeepMerge(Get(base, patch.key), patch.value);
      KeyOrderMerge(Put(base, patch.key, v), patch.rest);
      KeyOrderPut(base, patch.key, v);
      KeyOrderHas(base, patch.key);
      AddKeysFirst(KeyOrder(base), patch.key, KeyOrder(patch.rest));
    }
  }

  /**
   Every defined member of the one record is present in the other, and so on below, wherever both hold
   records: merging the second into the first adds nothing to the second's text.
   */
  ghost predicate AddsNothing(a: Value, c: Value)
    decreases c
  {
    a.Obj? && c.Obj? ==>
      forall k :: Has(a.members, k) && !Get(a.members, k).Undefined? ==>
        Has(c.members, k) && (MemberSmaller(c.members, k); AddsNothing(Get(a.members, k), Get(c.members, k)))
  }

  /**
   The exact condition for associativity. Where both outer values are records, either the middle one is
   a record too and the condition holds at every member the three share, or the middle value hides a
   record that has no defined member which the last one lacks.
   */
  ghost predicate Associates(a: Value, b: Value, c: Value)
    decreases c
  {
    a.Obj? && c.Obj? ==>
      if b.Obj? then
        forall k :: Has(a.members, k) && Has(b.members, k) && Has(c.members, k) ==>
          (MemberSmaller(c.members, k); Associates(Get(a.members, k), Get(b.members, k), Get(c.members, k)))
      else AddsNothing(a, c)
  }

  /** No path has records on both outer values and a present non-record in the middle one. */
  ghost predicate NoHiddenRecord(a: Value, b: Value, c: Value)
    decreases c
  {
    a.Obj? && c.Obj? ==>
      b.Obj? &&
      forall k :: Has(a.members, k) && Has(b.members, k) && Has(c.members, k) ==>
        (MemberSmaller(c.members, k); NoHiddenRecord(Get(a.members, k), Get(b.members, k), Get(c.members, k)))
  }

  lemma MergeTwiceWellFormed(a: Members<Value>, b: Members<Value>, c: Members<Value>)
    requires WellFormed(Obj(a)) && WellFormed(Obj(b)) && WellFormed(Obj(c))
    ensures WellFormed(Obj(MergeMembers(b, c)))
    ensures WellFormed(Obj(MergeMembers(MergeMembers(a, b), c))) && WellFormed(Obj(MergeMembers(a, MergeMembers(b, c))))
  {
    MergeMembersWellFormed(a, b);
    MergeMembersWellFormed(b, c);
    MergeMembersWellFormed(MergeMembers(a, b), c);
    MergeMembersWellFormed(a, MergeMembers(b, c));
  }

  /** Both double merges list their members in the same order. */
  lemma SameKeyOrder(a: Members<Value>, b: Members<Value>, c: Members<Value>)
    ensures KeyOrder(MergeMembers(MergeMembers(a, b), c)) == KeyOrder(MergeMembers(a, MergeMembers(b, c)))
  {
    KeyOrderMerge(MergeMembers(a, b), c);
    KeyOrderMerge(a, b);
    KeyOrderMerge(a, MergeMembers(b, c));
    KeyOrderMerge(b, c);
    AddKeysAssociative(KeyOrder(a), KeyOrder(b), KeyOrder(c));
  }

  /** Without a hidden record the merge is associative to the letter, member order included. */
  lemma {:induction false} NoHiddenRecordAssociates(a: Value, b: Value, c: Value)
    requires WellFormed(a) && WellFormed(b) && WellFormed(c) && NoHiddenRecord(a, b, c)
    ensures DeepMerge(DeepMerge(a, b), c) == DeepMerge(a, DeepMerge(b, c))
    decreases c
  {
    if a.Obj? && c.Obj? {
      var left := MergeMembers(MergeMembers(a.members, b.members), c.members);
      var right := MergeMembers(a.members, MergeMembers(b.members, c.members));
      MergeTwiceWellFormed(a.members, b.members, c.members);
      forall k ensures Find(left, k) == Find(right, k) {
        MergedTwice(a.members, b.members, c.members, k);
        if Has(a.members, k) && Has(b.members, k) && Has(c.members, k) {
          MemberSmaller(c.members, k);
          WellFormedFind(a.members, k);
          WellFormedFind(b.members, k);
          WellFormedFind(c.members, k);
          NoHiddenRecordAssociates(Get(a.members, k), Get(b.members, k), Get(c.members, k));
        }
      }
      SameKeyOrder(a.members, b.members, c.members);
      SameOrderSameMembers(left, right);
    }
  }

  /** Merging into a record leaves the patch's text alone exactly if the record adds nothing. */
  lemma {:induction false} MergeAddsNothing(a: Value, c: Value)
    requires WellFormed(a) && WellFormed(c)
    ensures Norm(DeepMerge(a, c)) == Norm(c) <==> AddsNothing(a, c)
    decreases c
  {
    if a.Obj? && c.Obj? {
      var merged := MergeMembers(a.members, c.members);
      MergeMembersWellFormed(a.members, c.members);
      SameNormIffSameLookups(merged, c.members);
      forall k ensures Find(NormMembers(merged), k) == Find(NormMembers(c.members), k) <==>
                       (Has(a.members, k) && !Get(a.members, k).Undefined? ==>
                          Has(c.members, k) && AddsNothing(Get(a.members, k), Get(c.members, k)))
      {
        FindNorm(merged, k);
        FindNorm(c.members, k);
        FindMerge(a.members, c.members, k);
        if Has(a.members, k) && Has(c.members, k) {
          MemberSmaller(c.members, k);
          WellFormedFind(a.members, k);
          WellFormedFind(c.members, k);
          MergeAddsNothing(Get(a.members, k), Get(c.members, k));
        }
      }
    }
  }

  /** The merge is associative, up to the canonical text, exactly under that condition. */
  lemma {:induction false} MergeAssociativeIff(a: Value, b: Value, c: Value)
    requires WellFormed(a) && WellFormed(b) && WellFormed(c)
    ensures Norm(DeepMerge(DeepMerge(a, b), c)) == Norm(DeepMerge(a, DeepMerge(b, c))) <==> Associates(a, b, c)
    decreases c
  {
    if a.Obj? && b.Obj? && c.Obj? {
      var left := MergeMembers(MergeMembers(a.members, b.members), c.members);
      var right := MergeMembers(a.members, MergeMembers(b.members, c.members));
      MergeTwiceWellFormed(a.members, b.members, c.members);
      SameNormIffSameLookups(left, right);
      forall k ensures Find(NormMembers(left), k) == Find(NormMembers(right), k) <==>
                       (Has(a.members, k) && Has(b.members, k) && Has(c.members, k) ==>
                         Associates(Get(a.members, k), Get(b.members, k), Get(c.members, k)))
      {
        FindNorm(left, k);
        FindNorm(right, k);
        MergedTwice(a.members, b.members, c.members, k);
        if Has(a.members, k) && Has(b.members, k) && Has(c.members, k) {
          MemberSmaller(c.members, k);
          WellFormedFind(a.members, k);
          WellFormedFind(b.members, k);
          WellFormedFind(c.members, k);
          MergeAssociativeIff(Get(a.members, k), Get(b.members, k), Get(c.members, k));
          DefinedTogether(Get(a.members, k), Get(b.members, k), Get(c.members, k));
        }
      }
    } else if a.Obj? && c.Obj? {
      MergeAddsNothing(a, c);
    }
  }

  /** A merge is undefined exactly if its patch is; then everything associates. */
  lemma DefinedTogether(a: Value, b: Value, c: Value)
    ensures DeepMerge(DeepMerge(a, b), c).Undefined? <==> c.Undefined?
    ensures DeepMerge(a, DeepMerge(b, c)).Undefined? <==> c.Undefined?
    ensures c.Undefined? ==> Associates(a, b, c)
  {
  }

  /** One member of the two double merges. */
  lemma MergedTwice(a: Members<Value>, b: Members<Value>, c: Members<Value>, k: JsString)
    requires Distinct(a) && Distinct(b) && Distinct(c)
    requires Distinct(MergeMembers(b, c))
    ensures var left := Find(MergeMembers(MergeMembers(a, b), c), k);
            var right := Find(MergeMembers(a, MergeMembers(b, c)), k);
            if Has(a, k) && Has(b, k) && Has(c, k) then
              left == Some(DeepMerge(DeepMerge(Get(a, k), Get(b, k)), Get(c, k))) &&
              right == Some(DeepMerge(Get(a, k), DeepMerge(Get(b, k), Get(c, k))))
            else left == right
  {
    FindMerge(MergeMembers(a, b), c, k);
    FindMerge(a, b, k);
    FindMerge(a, MergeMembers(b, c), k);
    FindMerge(b, c, k);
  }

  /** The smallest failure: the middle value replaces a record that the last one would have kept. */
  lemma MergeNotAssociative(k: JsString)
    ensures var a, b, c := Obj(Member(k, Null, End)), Null, Obj(End);
            Norm(DeepMerge(DeepMerge(a, b), c)) != Norm(DeepMerge(a, DeepMerge(b, c)))
  {
    var a, b, c := Obj(Member(k, Null, End)), Null, Obj(End);
    assert WellFormed(a) && WellFormed(c);
    MergeAssociativeIff(a, b, c);
    assert Has(a.members, k) && !Has(c.members, k);
  }

  /******* What a merge leaves alone *******/

  /** The patch does not reach the path: on the way down some record of the patch lacks the next key. */
  ghost predicate Untouched(patch: Value, path: Path)
    decreases |path|
  {
    path != [] && patch.Obj? &&
    (Has(patch.members, path[0]) ==> Untouched(Get(patch.members, path[0]), path[1..]))
  }

  /** The value of a merge at every path, from the values of its two arguments there. */
  lemma {:induction false} MergeLookup(base: Value, patch: Value, path: Path)
    requires WellFormed(patch)
    ensures Lookup(DeepMerge(base, patch), path) ==
            match Lookup(patch, path)
            case Some(p) => Some(if Lookup(base, path).Some? then DeepMerge(Lookup(base, path).value, p) else p)
            case None => if Untouched(patch, path) then Lookup(base, path) else None
    decreases |path|
  {
    if path != [] && patch.Obj? {
      var k := path[0];
      if base.Obj? {
        FindMerge(base.members, patch.members, k);
      }
      if Has(patch.members, k) {
        WellFormedFind(patch.members, k);
        MergeLookup(if base.Obj? then Get(base.members, k) else Undefined, Get(patch.members, k), path[1..]);
      }
    }
  }

  /******* Path removal *******/

  function Drop(ms: Members<Value>, k: JsString): (r: Members<Value>) {
    match ms
    case End => End
    case Member(key, value, rest) => if key == k then rest else Member(key, value, Drop(rest, k))
  }

  /** Deleting one path; a path that is not there leaves the value as it is. */
  function Remove(v: Value, path: Path): (r: Value)
    decreases |path|
  {
    if path == [] || !v.Obj? || !Has(v.members, path[0]) then v
    else if |path| == 1 then Obj(Drop(v.members, path[0]))
    else Obj(Put(v.members, path[0], Remove(Get(v.members, path[0]), path[1..])))
  }

  /** Whether deleting the path deletes anything. */
  predicate Removes(v: Value, path: Path)
    decreases |path|
  {
    path != [] && v.Obj? && Has(v.members, path[0]) && (|path| == 1 || Removes(Get(v.members, path[0]), path[1..]))
  }

  function RemoveAll(v: Value, paths: seq<Path>): (r: Value) {
    if paths == [] then v else Remove(RemoveAll(v, paths[..|paths| - 1]), paths[|paths| - 1])
  }

  function Missing(v: Value, paths: seq<Path>): (r: seq<Path>) {
    if paths == [] then []
    else
      var before := paths[..|paths| - 1];
      var last := paths[|paths| - 1];
      Missing(v, before) + if Removes(RemoveAll(v, before), last) then [] else [last]
  }

  method ApplyRemovePaths(v: Value, paths: seq<Path>) returns (next: Value, missing: seq<Path>)
    ensures next == RemoveAll(v, paths) && missing == Missing(v, paths)
  {
    next, missing := v, [];
    for i := 0 to |paths|
      invariant next == RemoveAll(v, paths[..i]) && missing == Missing(v, paths[..i])
    {
      assert paths[..i + 1][..i] == paths[..i];
      if !Removes(next, paths[i]) {
        missing := missing + [paths[i]];
      }
      next := Remove(next, paths[i]);
    }
    assert paths[..|paths|] == paths;
  }

  /** The listed paths below one member. */
  ghost function Below(paths: set<Path>, k: JsString): (r: set<Path>) {
    set p | p in paths && |p| > 1 && p[0] == k :: p[1..]
  }

  /** The value without every listed path, at once. */
  ghost function Without(v: Value, paths: set<Path>): (r: Value) {
    if v.Obj? then Obj(WithoutMembers(v.members, paths)) else v
  }

  ghost function WithoutMembers(ms: Members<Value>, paths: set<Path>): (r: Members<Value>) {
    match ms
    case End => End
    case Member(key, value, rest) =>
      if [key] in paths then WithoutMembers(rest, paths)
      else Member(key, Without(value, Below(paths, key)), WithoutMembers(rest, paths))
  }

  lemma {:induction false} FindWithout(ms: Members<Value>, paths: set<Path>, k: JsString)
    ensures Find(WithoutMembers(ms, paths), k) ==
            if Has(ms, k) && [k] !in paths then Some(Without(Get(ms, k), Below(paths, k))) else None
  {
    if ms.Member? {
      FindWithout(ms.rest, paths, k);
    }
  }

  lemma {:induction false} WithoutWellFormed(v: Value, paths: set<Path>)
    requires WellFormed(v)
    ensures WellFormed(Without(v, paths))
    decreases v
  {
    if v.Obj? {
      WithoutMembersWellFormed(v.members, paths);
    }
  }

  lemma {:induction false} WithoutMembersWellFormed(ms: Members<Value>, paths: set<Path>)
    requires Distinct(ms) && WellFormedMembers(ms)
    ensures Distinct(WithoutMembers(ms, paths)) && WellFormedMembers(WithoutMembers(ms, paths))
    decreases ms
  {
    if ms.Member? {
      WithoutMembersWellFormed(ms.rest, paths);
      FindWithout(ms.rest, paths, ms.key);
      WithoutWellFormed(ms.value, Below(paths, ms.key));
    }
  }

  lemma {:induction false} WithoutTwice(v: Value, s: set<Path>, t: set<Path>)
    ensures Without(Without(v, s), t) == Without(v, s + t)
    decreases v
  {
    if v.Obj? {
      WithoutMembersTwice(v.members, s, t);
    }
  }

  lemma {:induction false} WithoutMembersTwice(ms: Members<Value>, s: set<Path>, t: set<Path>)
    ensures WithoutMembers(WithoutMembers(ms, s), t) == WithoutMembers(ms, s + t)
    decreases ms
  {
    if ms.Member? {
      WithoutMembersTwice(ms.rest, s, t);
      WithoutTwice(ms.value, Below(s, ms.key), Below(t, ms.key));
      assert Below(s + t, ms.key) == Below(s, ms.key) + Below(t, ms.key);
    }
  }

  /** Lists that reach nothing remove nothing. */
  lemma {:induction false} WithoutNothing(v: Value, paths: set<Path>)
    requires forall p :: p in paths ==> p == []
    ensures Without(v, paths) == v
    decreases v
  {
    if v.Obj? {
      WithoutNothingMembers(v.members, paths);
    }
  }

  lemma {:induction false} WithoutNothingMembers(ms: Members<Value>, paths: set<Path>)
    requires forall p :: p in paths ==> p == []
    ensures WithoutMembers(ms, paths) == ms
    decreases ms
  {
    if ms.Member? {
      WithoutNothingMembers(ms.rest, paths);
      assert Below(paths, ms.key) == {};
      WithoutNothing(ms.value, {});
    }
  }

  lemma {:induction false} RemoveIsWithout(v: Value, path: Path)
    requires WellFormed(v)
    ensures Remove(v, path) == Without(v, {path})
    decreases |path|, v, 1
  {
    if path == [] {
      WithoutNothing(v, {path});
    } else if v.Obj? {
      RemoveIsWithoutMembers(v.members, path);
    }
  }

  lemma {:induction false} RemoveIsWithoutMembers(ms: Members<Value>, path: Path)
    requires path != [] && Distinct(ms) && WellFormedMembers(ms)
    ensures Remove(Obj(ms), path) == Obj(WithoutMembers(ms, {path}))
    decreases |path|, ms, 0
  {
    if ms.Member? {
      var below := Below({path}, ms.key);
      if ms.key == path[0] {
        WithoutSkips(ms.rest, path);
        if |path| > 1 {
          assert below == {path[1..]};
          assert [ms.key] != path;
          RemoveIsWithout(ms.value, path[1..]);
        } else {
          assert path == [ms.key];
        }
      } else {
        assert below == {};
        WithoutNothing(ms.value, {});
        RemoveIsWithoutMembers(ms.rest, path);
        assert [ms.key] != path;
      }
    }
  }

  lemma {:induction false} WithoutSkips(ms: Members<Value>, path: Path)
    requires path != [] && !Has(ms, path[0])
    ensures WithoutMembers(ms, {path}) == ms
    decreases ms
  {
    if ms.Member? {
      assert [ms.key] != path && Below({path}, ms.key) == {};
      WithoutNothing(ms.value, {});
      WithoutSkips(ms.rest, path);
    }
  }

  ghost function Listed(paths: seq<Path>): (r: set<Path>) {
    set p | p in paths
  }

  lemma {:induction false} RemoveAllIsWithout(v: Value, paths: seq<Path>)
    requires WellFormed(v)
    ensures RemoveAll(v, paths) == Without(v, Listed(paths))
  {
    if paths == [] {
      WithoutNothing(v, Listed(paths));
    } else {
      var before, last := paths[..|paths| - 1], paths[|paths| - 1];
      RemoveAllIsWithout(v, before);
      WithoutWellFormed(v, Listed(before));
      RemoveIsWithout(Without(v, Listed(before)), last);
      WithoutTwice(v, Listed(before), {last});
      assert Listed(paths) == Listed(before) + {last} by {
        assert paths == before + [last];
      }
    }
  }

  /** Neither the order nor the repetition of the listed paths matters. */
  lemma RemovalOrderIrrelevant(v: Value, paths: seq<Path>, others: seq<Path>)
    requires WellFormed(v) && forall p :: p in paths <==> p in others
    ensures RemoveAll(v, paths) == RemoveAll(v, others)
  {
    RemoveAllIsWithout(v, paths);
    RemoveAllIsWithout(v, others);
    assert Listed(paths) == Listed(others);
  }

  /** A listed path is the given path or an ancestor of it. */
  ghost predicate Covered(paths: set<Path>, path: Path) {
    exists p :: p in paths && p != [] && p <= path
  }

  /** The listed paths strictly below a path. */
  ghost function Under(paths: set<Path>, path: Path): (r: set<Path>)
    decreases |path|
  {
    if path == [] then paths else Under(Below(paths, path[0]), path[1..])
  }

  lemma CoveredStep(paths: set<Path>, path: Path)
    requires path != []
    ensures Covered(paths, path) <==> [path[0]] in paths || Covered(Below(paths, path[0]), path[1..])
  {
    if [path[0]] in paths {
      assert [path[0]] <= path;
    }
    if Covered(Below(paths, path[0]), path[1..]) {
      var q :| q in Below(paths, path[0]) && q != [] && q <= path[1..];
      var p :| p in paths && |p| > 1 && p[0] == path[0] && p[1..] == q;
      assert p == [p[0]] + q && path == [path[0]] + path[1..];
      assert p <= path;
    }
    if Covered(paths, path) {
      var p :| p in paths && p != [] && p <= path;
      assert p[0] == path[0];
      if |p| == 1 {
        assert p == [path[0]];
      } else {
        assert p[1..] in Below(paths, path[0]) && p[1..] <= path[1..];
      }
    }
  }

  /** A path keeps its value, less the listed paths below it, exactly when no listed path covers it. */
  lemma {:induction false} WithoutLookup(v: Value, paths: set<Path>, path: Path)
    ensures Lookup(Without(v, paths), path) ==
            if Covered(paths, path) || Lookup(v, path).None? then None
            else Some(Without(Lookup(v, path).value, Under(paths, path)))
    decreases |path|
  {
    if path == [] {
      assert !Covered(paths, path);
    } else {
      CoveredStep(paths, path);
      if v.Obj? {
        FindWithout(v.members, paths, path[0]);
        if Has(v.members, path[0]) {
          WithoutLookup(Get(v.members, path[0]), Below(paths, path[0]), path[1..]);
        }
      }
    }
  }

  lemma {:induction false} RemovesIffPresent(v: Value, path: Path)
    ensures Removes(v, path) <==> path != [] && Lookup(v, path).Some?
    decreases |path|
  {
    if |path| > 1 && v.Obj? && Has(v.members, path[0]) {
      RemovesIffPresent(Get(v.members, path[0]), path[1..]);
    }
  }

  /** The paths a caller can expect to be reported missing. */
  ghost function ExpectedMissing(v: Value, paths: seq<Path>): (r: seq<Path>) {
    if paths == [] then []
    else
      var before := paths[..|paths| - 1];
      var last := paths[|paths| - 1];
      ExpectedMissing(v, before) +
      if last == [] || Lookup(v, last).None? || Covered(Listed(before), last) then [last] else []
  }

  /**
   A path is reported missing exactly when it is empty, was absent from the start, or an earlier
   listed path is equal to it or an ancestor of it.
   */
  lemma {:induction false} MissingExactly(v: Value, paths: seq<Path>)
    requires WellFormed(v)
    ensures Missing(v, paths) == ExpectedMissing(v, paths)
  {
    if paths != [] {
      var before, last := paths[..|paths| - 1], paths[|paths| - 1];
      MissingExactly(v, before);
      RemoveAllIsWithout(v, before);
      RemovesIffPresent(Without(v, Listed(before)), last);
      WithoutLookup(v, Listed(before), last);
    }
  }

  /******* The plan *******/

  datatype Mode = MergeMode | ReplaceMode

  datatype Plan =
    | HashConflict
    | NotJson
    | Planned(currentHash: JsString, next: Value, nextHash: JsString, removePaths: seq<Path>, missing: seq<Path>)

  /** An expected hash that is absent or empty expects nothing. */
  predicate Expects(expectedHash: Option<JsString>, hash: JsString) {
    expectedHash.Some? && expectedHash.value != [] ==> expectedHash.value == hash
  }

  function PlanConfigWrite(h: JsString -> JsString, current: Value, patch: Value, mode: Mode,
                           expectedHash: Option<JsString>, removePaths: seq<Path>): (plan: Plan)
  {
    var currentHash := JsonHash(h, current);
    if !Expects(expectedHash, currentHash) then HashConflict
    else
      var merged := if mode == ReplaceMode then patch else DeepMerge(current, patch);
      if merged.Undefined? then NotJson
      else
        var next := RemoveAll(Clone(merged), removePaths);
        Planned(currentHash, next, JsonHash(h, next), removePaths, Missing(Clone(merged), removePaths))
  }

  /** The value a request asks for, before the listed paths go: the patch itself, or the merge with it. */
  function Replaced(current: Value, patch: Value, mode: Mode): (v: Value) {
    match mode
    case ReplaceMode => patch
    case MergeMode => DeepMerge(current, patch)
  }

  /**
   What a plan is, for either mode and any removals: refused exactly for another expected hash or a value that
   has no JSON text; otherwise a copy of the requested value without the listed paths, with both hashes.
   */
  lemma PlanExactly(h: JsString -> JsString, current: Value, patch: Value, mode: Mode,
                    expectedHash: Option<JsString>, removePaths: seq<Path>)
    requires WellFormed(current) && WellFormed(patch)
    ensures var plan := PlanConfigWrite(h, current, patch, mode, expectedHash, removePaths);
            var currentHash := JsonHash(h, current);
            var expected := expectedHash.None? || expectedHash.value == [] || expectedHash.value == currentHash;
            var requested := Replaced(current, patch, mode);
            (plan.HashConflict? <==> !expected) && (plan.NotJson? <==> expected && requested.Undefined?) &&
            (plan.Planned? ==>
               plan.currentHash == currentHash && plan.nextHash == JsonHash(h, plan.next) &&
               plan.next == Without(Clone(requested), Listed(removePaths)) &&
               plan.removePaths == removePaths && plan.missing == ExpectedMissing(Clone(requested), removePaths))
  {
    var requested := Replaced(current, patch, mode);
    MergeWellFormed(current, patch);
    if !requested.Undefined? {
      CloneWellFormed(requested);
      RemoveAllIsWithout(Clone(requested), removePaths);
      MissingExactly(Clone(requested), removePaths);
    }
  }

  /** A merge plan without removals proposes the hash of the merge itself. */
  lemma PlannedHashes(h: JsString -> JsString, current: Value, patch: Value, expectedHash: Option<JsString>)
    requires WellFormed(current) && WellFormed(patch) && patch.Obj?
    requires Expects(expectedHash, JsonHash(h, current))
    ensures var plan := PlanConfigWrite(h, current, patch, MergeMode, expectedHash, []);
            plan.Planned? && plan.nextHash == JsonHash(h, DeepMerge(current, patch)) && plan.missing == []
  {
    var merged := DeepMerge(current, patch);
    MergeWellFormed(current, patch);
    CloneKeepsText(merged);
  }

  lemma CloneKeepsText(v: Value)
    requires WellFormed(v) && !v.Undefined?
    ensures StableText(Clone(v)) == StableText(v)
  {
    NormOfClone(v);
    CloneWellFormed(v);
    TextOfNorm(v);
    TextOfNorm(Clone(v));
  }

  /** Merging respects what the canonical text can see of the base. */
  lemma {:induction false} MergeRespectsNorm(a: Value, b: Value, patch: Value)
    requires WellFormed(a) && WellFormed(b) && WellFormed(patch) && Norm(a) == Norm(b)
    ensures Norm(DeepMerge(a, patch)) == Norm(DeepMerge(b, patch))
    decreases patch
  {
    if a.Obj? && b.Obj? && patch.Obj? {
      var x, y := MergeMembers(a.members, patch.members), MergeMembers(b.members, patch.members);
      MergeMembersWellFormed(a.members, patch.members);
      MergeMembersWellFormed(b.members, patch.members);
      SameNormIffSameLookups(a.members, b.members);
      forall k ensures Find(NormMembers(x), k) == Find(NormMembers(y), k) {
        FindNorm(x, k);
        FindNorm(y, k);
        FindNorm(a.members, k);
        FindNorm(b.members, k);
        assert Find(NormMembers(a.members), k) == Find(NormMembers(b.members), k);
        FindMerge(a.members, patch.members, k);
        FindMerge(b.members, patch.members, k);
        if Has(patch.members, k) {
          MergeMemberRespectsNorm(a.members, b.members, patch.members, k);
        }
      }
      SameNormIffSameLookups(x, y);
    }
  }

  lemma {:induction false} MergeMemberRespectsNorm(a: Members<Value>, b: Members<Value>, patch: Members<Value>,
                                                   k: JsString)
    requires WellFormed(Obj(a)) && WellFormed(Obj(b)) && WellFormed(Obj(patch)) && Has(patch, k)
    requires Find(NormMembers(a), k) == Find(NormMembers(b), k)
    ensures var p := Get(patch, k);
            Norm(DeepMerge(Get(a, k), p)) == Norm(DeepMerge(Get(b, k), p)) &&
            (DeepMerge(Get(a, k), p).Undefined? <==> DeepMerge(Get(b, k), p).Undefined?)
    decreases patch
  {
    FindNorm(a, k);
    FindNorm(b, k);
    MemberSmaller(patch, k);
    WellFormedFind(patch, k);
    if Has(a, k) {
      WellFormedFind(a, k);
    }
    if Has(b, k) {
      WellFormedFind(b, k);
    }
    if Get(a, k).Undefined? {
      assert !Get(b, k).Obj?;
    } else {
      MergeRespectsNorm(Get(a, k), Get(b, k), Get(patch, k));
    }
  }

  /** Planning the same merge again on what it wrote proposes no change. */
  lemma ReplanProposesNoChange(h: JsString -> JsString, current: Value, patch: Value)
    requires WellFormed(current) && WellFormed(patch) && patch.Obj?
    ensures var written := PlanConfigWrite(h, current, patch, MergeMode, None, []).next;
            var again := PlanConfigWrite(h, written, patch, MergeMode, None, []);
            again.Planned? && again.nextHash == again.currentHash
  {
    var merged := DeepMerge(current, patch);
    var written := Clone(merged);
    MergeWellFormed(current, patch);
    CloneWellFormed(merged);
    NormOfClone(merged);
    PlannedHashes(h, written, patch, None);
    MergeRespectsNorm(written, merged, patch);
    MergeIdempotent(current, patch);
    MergeWellFormed(written, patch);
    TextOfNorm(DeepMerge(written, patch));
    TextOfNorm(written);
  }
}

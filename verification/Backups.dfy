/** The backup directory of one kind: pruning by age and count, and which backups outlive it. */
module Backups {
  import opened Wrappers
  import opened JsText
  import opened JsonTree
  import opened Base64
  import opened BackupNames
  import opened AuditTrail

  datatype File = File(name: JsString, mtime: int)

  const DAY_MS := 86400000

  /**
   One pruning: the node, the test of file names, the operation id read from a name, the operations
   whose end the log tells, the clock and the two limits.
   */
  datatype Policy = Policy(node: JsString, matches: JsString -> bool, idOf: JsString -> Option<JsString>,
                           terminal: set<JsString>, now: int, days: nat, cap: nat)

  /** The pruning of a node, as every backup of the node runs it. */
  function NodePolicy(node: JsString, utf8: seq<Byte> -> JsString, terminal: set<JsString>, now: int, days: nat,
                      cap: nat): (p: Policy) {
    Policy(node, name => Passes(name, node), name => BackupOperationId(name, utf8), terminal, now, days, cap)
  }

  /** The policy is that of the node it names. */
  ghost predicate OfItsNode(p: Policy, utf8: seq<Byte> -> JsString) {
    p == NodePolicy(p.node, utf8, p.terminal, p.now, p.days, p.cap)
  }

  predicate Removable(p: Policy, f: File) {
    p.idOf(f.name).Some? && p.idOf(f.name).value != [] && p.idOf(f.name).value in p.terminal
  }

  predicate Expired(p: Policy, f: File) {
    Removable(p, f) && p.now - f.mtime > p.days * DAY_MS
  }

  function Filter(files: seq<File>, keep: File -> bool): (r: seq<File>)
    ensures forall f :: f in r <==> f in files && keep(f)
  {
    if files == [] then []
    else
      assert files == [files[0]] + files[1..];
      (if keep(files[0]) then [files[0]] else []) + Filter(files[1..], keep)
  }

  function InsertByAge(f: File, files: seq<File>): (r: seq<File>) {
    if files == [] || f.mtime <= files[0].mtime then [f] + files else [files[0]] + InsertByAge(f, files[1..])
  }

  /** Oldest first; files of the same age keep their order. */
  function SortByAge(files: seq<File>): (r: seq<File>) {
    if files == [] then [] else InsertByAge(files[0], SortByAge(files[1..]))
  }

  function Unlink(files: seq<File>, name: JsString): (r: seq<File>) {
    Filter(files, (f: File) => f.name != name)
  }

  function UnlinkAll(files: seq<File>, gone: seq<File>): (r: seq<File>) {
    if gone == [] then files else Unlink(UnlinkAll(files, gone[..|gone| - 1]), gone[|gone| - 1].name)
  }

  function Matching(p: Policy, files: seq<File>): (r: seq<File>) {
    SortByAge(Filter(files, (f: File) => p.matches(f.name)))
  }

  function ExpiredOnes(p: Policy, files: seq<File>): (r: seq<File>) {
    Filter(Matching(p, files), (f: File) => Expired(p, f))
  }

  function Retained(p: Policy, files: seq<File>): (r: seq<File>) {
    Filter(Matching(p, files), (f: File) => !Expired(p, f))
  }

  function RemovableRetained(p: Policy, files: seq<File>): (r: seq<File>) {
    Filter(Retained(p, files), (f: File) => Removable(p, f))
  }

  /** The oldest removable files in excess of the cap. */
  function Excess(p: Policy, files: seq<File>): (r: seq<File>) {
    var over := |Retained(p, files)| - p.cap;
    var candidates := RemovableRetained(p, files);
    if over <= 0 then [] else if over >= |candidates| then candidates else candidates[..over]
  }

  function Pruned(p: Policy, files: seq<File>): (r: seq<File>) {
    UnlinkAll(UnlinkAll(files, ExpiredOnes(p, files)), Excess(p, files))
  }

  /******* Values that hold the token *******/

  predicate ContainsToken(v: Value, token: JsString) {
    match v
    case Str(s) => s == token
    case Arr(items) => ItemsContainToken(items, token)
    case Obj(ms) => MembersContainToken(ms, token)
    case _ => false
  }

  predicate ItemsContainToken(items: List<Value>, token: JsString) {
    items.Cons? && (ContainsToken(items.head, token) || ItemsContainToken(items.tail, token))
  }

  predicate MembersContainToken(ms: Members<Value>, token: JsString) {
    ms.Member? && (ms.key == token || ContainsToken(ms.value, token) || MembersContainToken(ms.rest, token))
  }

  /** Every string and every key in a value, at any depth. */
  function Texts(v: Value): (texts: set<JsString>) {
    match v
    case Str(s) => {s}
    case Arr(items) => ItemTexts(items)
    case Obj(ms) => MemberTexts(ms)
    case _ => {}
  }

  function ItemTexts(items: List<Value>): (texts: set<JsString>) {
    match items
    case Nil => {}
    case Cons(head, tail) => Texts(head) + ItemTexts(tail)
  }

  function MemberTexts(ms: Members<Value>): (texts: set<JsString>) {
    match ms
    case End => {}
    case Member(key, value, rest) => {key} + Texts(value) + MemberTexts(rest)
  }

  lemma {:induction false} TokenIffText(v: Value, token: JsString)
    ensures ContainsToken(v, token) <==> token in Texts(v)
    decreases v
  {
    match v
    case Arr(items) => ItemsTokenIffText(items, token);
    case Obj(ms) => MembersTokenIffText(ms, token);
    case _ =>
  }

  lemma {:induction false} ItemsTokenIffText(items: List<Value>, token: JsString)
    ensures ItemsContainToken(items, token) <==> token in ItemTexts(items)
    decreases items
  {
    if items.Cons? {
      TokenIffText(items.head, token);
      ItemsTokenIffText(items.tail, token);
    }
  }

  lemma {:induction false} MembersTokenIffText(ms: Members<Value>, token: JsString)
    ensures MembersContainToken(ms, token) <==> token in MemberTexts(ms)
    decreases ms
  {
    if ms.Member? {
      TokenIffText(ms.value, token);
      MembersTokenIffText(ms.rest, token);
    }
  }

  class BackupDirectory {
    var files: seq<File>

    constructor ()
      ensures files == []
    {
      files := [];
    }

    method PruneBackups(p: Policy)
      modifies this
      ensures files == Pruned(p, old(files))
    {
      var matching := Matching(p, files);
      var expired := Filter(matching, (f: File) => Expired(p, f));
      var retained := Filter(matching, (f: File) => !Expired(p, f));
      var removable := Filter(retained, (f: File) => Removable(p, f));
      var over := |retained| - p.cap;
      var drop := if over <= 0 then [] else if over >= |removable| then removable else removable[..over];
      ghost var before := files;
      assert expired == ExpiredOnes(p, before);
      assert retained == Retained(p, before) && removable == RemovableRetained(p, before);
      assert drop == Excess(p, before);
      UnlinkEach(expired);
      UnlinkEach(drop);
    }

    method UnlinkEach(gone: seq<File>)
      modifies this
      ensures files == UnlinkAll(old(files), gone)
    {
      for i := 0 to |gone|
        invariant files == UnlinkAll(old(files), gone[..i])
      {
        assert gone[..i + 1][..i] == gone[..i];
        files := Unlink(files, gone[i].name);
      }
      assert gone[..|gone|] == gone;
    }

    /**
     A value that holds the sidecar's token is refused and leaves the directory alone. Otherwise the
     backup is written under a new name, then the node's backups are pruned.
     */
    method BackupState(value: Value, token: JsString, f: File, p: Policy) returns (ok: bool)
      modifies this
      ensures ok <==> token == [] || token !in Texts(value)
      ensures files == if ok then Pruned(p, old(files) + [f]) else old(files)
    {
      TokenIffText(value, token);
      if token != [] && ContainsToken(value, token) {
        return false;
      }
      files := files + [f];
      PruneBackups(p);
      ok := true;
    }
  }

  /******* Sorting *******/

  ghost predicate ByAge(files: seq<File>) {
    forall i, j :: 0 <= i < j < |files| ==> files[i].mtime <= files[j].mtime
  }

  ghost predicate DistinctNames(files: seq<File>) {
    forall i, j :: 0 <= i < j < |files| ==> files[i].name != files[j].name
  }

  lemma {:induction false} InsertByAgeKeeps(f: File, files: seq<File>)
    ensures multiset(InsertByAge(f, files)) == multiset(files) + multiset{f}
  {
    if files != [] && f.mtime > files[0].mtime {
      assert files == [files[0]] + files[1..];
      InsertByAgeKeeps(f, files[1..]);
    }
  }

  lemma InsertByAgeMembers(f: File, files: seq<File>)
    ensures forall g :: g in InsertByAge(f, files) ==> g == f || g in files
  {
    InsertByAgeKeeps(f, files);
    forall g | g in InsertByAge(f, files) ensures g == f || g in files {
      assert g in multiset(InsertByAge(f, files));
    }
  }

  lemma OldestFirst(head: File, rest: seq<File>)
    requires ByAge(rest) && forall g :: g in rest ==> head.mtime <= g.mtime
    ensures ByAge([head] + rest)
  {
  }

  lemma {:induction false} InsertByAgeSorted(f: File, files: seq<File>)
    requires ByAge(files)
    ensures ByAge(InsertByAge(f, files))
  {
    if files == [] || f.mtime <= files[0].mtime {
      OldestFirst(f, files);
    } else {
      assert ByAge(files[1..]) && forall g :: g in files[1..] ==> files[0].mtime <= g.mtime;
      InsertByAgeSorted(f, files[1..]);
      InsertByAgeMembers(f, files[1..]);
      OldestFirst(files[0], InsertByAge(f, files[1..]));
    }
  }

  lemma {:induction false} SortByAgeSorted(files: seq<File>)
    ensures ByAge(SortByAge(files)) && multiset(SortByAge(files)) == multiset(files)
  {
    if files != [] {
      assert files == [files[0]] + files[1..];
      SortByAgeSorted(files[1..]);
      InsertByAgeKeeps(files[0], SortByAge(files[1..]));
      InsertByAgeSorted(files[0], SortByAge(files[1..]));
    }
  }

  lemma {:induction false} FilterByAge(files: seq<File>, keep: File -> bool)
    requires ByAge(files)
    ensures ByAge(Filter(files, keep))
  {
    if files != [] {
      assert ByAge(files[1..]);
      FilterByAge(files[1..], keep);
      var rest := Filter(files[1..], keep);
      forall i | 0 <= i < |rest| ensures files[0].mtime <= rest[i].mtime {
        assert rest[i] in files[1..];
      }
    }
  }

  lemma {:induction false} FilterCounts(files: seq<File>, keep: File -> bool)
    ensures multiset(Filter(files, keep)) <= multiset(files)
  {
    if files != [] {
      assert files == [files[0]] + files[1..];
      FilterCounts(files[1..], keep);
    }
  }

  /** No file is listed twice. */
  ghost predicate Simple(files: seq<File>) {
    forall f :: multiset(files)[f] <= 1
  }

  lemma FilterSimple(files: seq<File>, keep: File -> bool)
    requires Simple(files)
    ensures Simple(Filter(files, keep))
  {
    FilterCounts(files, keep);
    forall f ensures multiset(Filter(files, keep))[f] <= 1 {
      assert multiset(files)[f] <= 1;
    }
  }

  /******* What a pruning keeps and removes *******/

  /** The log tells how the operation of the file's id ended. */
  predicate Closed(p: Policy, f: File) {
    match p.idOf(f.name)
    case None => false
    case Some(id) => id != [] && id in p.terminal
  }

  /** More than the given number of days have passed since the file was written. */
  predicate OutOfDate(p: Policy, f: File) {
    p.now > f.mtime + p.days * 24 * 60 * 60 * 1000
  }

  /** The files that pass the node's test and are not out of date, or whose operation may be open. */
  ghost function Fresh(p: Policy, files: seq<File>): (r: set<File>) {
    set f | f in files && p.matches(f.name) && !(Closed(p, f) && OutOfDate(p, f))
  }

  /** Those of them that the cap may take. */
  ghost function Takeable(p: Policy, files: seq<File>): (r: set<File>) {
    set f | f in Fresh(p, files) && Closed(p, f)
  }

  lemma ExpiredIsOutOfDate(p: Policy, f: File)
    ensures Removable(p, f) <==> Closed(p, f)
    ensures Expired(p, f) <==> Closed(p, f) && OutOfDate(p, f)
  {
  }

  lemma {:induction false} UnlinkAllExactly(files: seq<File>, gone: seq<File>)
    ensures forall f :: f in UnlinkAll(files, gone) <==> f in files && forall g :: g in gone ==> g.name != f.name
  {
    if gone != [] {
      var before, last := gone[..|gone| - 1], gone[|gone| - 1];
      UnlinkAllExactly(files, before);
      assert gone == before + [last];
    }
  }

  lemma MatchingExactly(p: Policy, files: seq<File>)
    ensures ByAge(Matching(p, files))
    ensures forall f :: f in Matching(p, files) <==> f in files && p.matches(f.name)
  {
    var chosen := Filter(files, (f: File) => p.matches(f.name));
    SortByAgeSorted(chosen);
    forall f ensures f in Matching(p, files) <==> f in chosen {
      assert f in Matching(p, files) <==> f in multiset(Matching(p, files));
      assert f in chosen <==> f in multiset(chosen);
    }
  }

  lemma RemovedAreTerminal(p: Policy, files: seq<File>)
    ensures forall f :: f in ExpiredOnes(p, files) ==> f in files && p.matches(f.name) && Expired(p, f)
    ensures forall f :: f in Excess(p, files) ==>
              f in files && p.matches(f.name) && Removable(p, f) && !Expired(p, f)
  {
    MatchingExactly(p, files);
    forall f | f in Excess(p, files) ensures f in RemovableRetained(p, files) {
    }
  }

  /** Files whose name fails the node's test, and files whose operation the log does not close, are never removed. */
  lemma PruneSpares(p: Policy, files: seq<File>, f: File)
    requires f in files && DistinctNames(files)
    requires !(p.matches(f.name) && Closed(p, f))
    ensures f in Pruned(p, files)
  {
    var expired, excess := ExpiredOnes(p, files), Excess(p, files);
    RemovedAreTerminal(p, files);
    UnlinkAllExactly(files, expired);
    UnlinkAllExactly(UnlinkAll(files, expired), excess);
    forall g | g in files && g.name == f.name ensures g == f {
      SameNameSameFile(files, f, g);
    }
  }

  /** Another node's backup stays, unless the pruning node's safe name is a tail of the backup's name. */
  lemma OtherNodesSpared(utf8: seq<Byte> -> JsString, p: Policy, files: seq<File>, f: File,
                         stamp: JsString, op: seq<Byte>, uuid: JsString, node: JsString)
    requires f in files && DistinctNames(files) && f.name == FileName(stamp, op, uuid, Utf8(node))
    requires DashFree(stamp) && Block(uuid) && IsAscii(op) && AsciiName(node) && AsciiName(p.node)
    requires OfItsNode(p, utf8) && p.node != node && SafeName(p.node) !in Tails(op, uuid, node)
    ensures f in Pruned(p, files)
  {
    OtherFilePassesIff(stamp, op, uuid, node, p.node);
    PruneSpares(p, files, f);
  }

  lemma SameNameSameFile(files: seq<File>, f: File, g: File)
    requires f in files && g in files && f.name == g.name && DistinctNames(files)
    ensures f == g
  {
    var i :| 0 <= i < |files| && files[i] == f;
    var j :| 0 <= j < |files| && files[j] == g;
  }

  lemma PrunedExactly(p: Policy, files: seq<File>)
    requires DistinctNames(files)
    ensures forall f :: f in Pruned(p, files) <==> f in files && f !in ExpiredOnes(p, files) && f !in Excess(p, files)
  {
    var expired, excess := ExpiredOnes(p, files), Excess(p, files);
    RemovedAreTerminal(p, files);
    UnlinkAllExactly(files, expired);
    UnlinkAllExactly(UnlinkAll(files, expired), excess);
    forall f, g | f in files && g in files && g.name == f.name ensures g == f {
      SameNameSameFile(files, f, g);
    }
  }

  /** The files of a list that pass the node's test. */
  ghost function OfNode(p: Policy, files: seq<File>): (r: set<File>) {
    set f | f in files && p.matches(f.name)
  }

  lemma {:induction false} NoRepeats(files: seq<File>)
    requires Simple(files)
    ensures |set f | f in files| == |files|
  {
    if files != [] {
      var rest := files[..|files| - 1];
      var last := files[|files| - 1];
      assert files == rest + [last];
      forall f ensures multiset(rest)[f] <= 1 {
        assert multiset(files)[f] <= 1;
      }
      NoRepeats(rest);
      assert multiset(files)[last] <= 1;
      assert last !in multiset(rest);
      assert (set f | f in files) == (set f | f in rest) + {last};
    }
  }

  lemma {:induction false} DistinctIsSimple(files: seq<File>)
    requires DistinctNames(files)
    ensures Simple(files)
  {
    if files != [] {
      var rest := files[..|files| - 1];
      var last := files[|files| - 1];
      assert files == rest + [last];
      DistinctIsSimple(rest);
      assert last !in rest;
      assert last !in multiset(rest);
    }
  }

  lemma RetainedSimple(p: Policy, files: seq<File>)
    requires DistinctNames(files)
    ensures Simple(Retained(p, files)) && Simple(RemovableRetained(p, files))
  {
    var chosen := Filter(files, (f: File) => p.matches(f.name));
    DistinctIsSimple(files);
    FilterSimple(files, (f: File) => p.matches(f.name));
    SortByAgeSorted(chosen);
    assert Simple(Matching(p, files)) by {
      forall f ensures multiset(Matching(p, files))[f] <= 1 {
        assert multiset(chosen)[f] <= 1;
      }
    }
    FilterSimple(Matching(p, files), (f: File) => !Expired(p, f));
    FilterSimple(Retained(p, files), (f: File) => Removable(p, f));
  }

  lemma PrefixSimple(files: seq<File>, n: nat)
    requires n <= |files| && Simple(files)
    ensures Simple(files[..n])
  {
    assert files == files[..n] + files[n..];
    forall f ensures multiset(files[..n])[f] <= 1 {
      assert multiset(files)[f] <= 1;
    }
  }

  lemma ExcessIsPrefix(p: Policy, files: seq<File>)
    ensures var n := |Excess(p, files)|;
            n <= |RemovableRetained(p, files)| && Excess(p, files) == RemovableRetained(p, files)[..n]
    ensures forall f :: f in Excess(p, files) ==> f in Retained(p, files)
  {
    forall f | f in Excess(p, files) ensures f in RemovableRetained(p, files) {
    }
  }

  lemma LeftFiles(p: Policy, files: seq<File>)
    requires DistinctNames(files)
    ensures OfNode(p, Pruned(p, files)) == (set f | f in Retained(p, files)) - (set f | f in Excess(p, files))
  {
    MatchingExactly(p, files);
    PrunedExactly(p, files);
  }

  lemma CountLeft(p: Policy, files: seq<File>)
    requires DistinctNames(files)
    ensures |OfNode(p, Pruned(p, files))| == |Retained(p, files)| - |Excess(p, files)|
  {
    RetainedSimple(p, files);
    NoRepeats(Retained(p, files));
    ExcessIsPrefix(p, files);
    PrefixSimple(RemovableRetained(p, files), |Excess(p, files)|);
    NoRepeats(Excess(p, files));
    LeftFiles(p, files);
    var retained, excess := set f | f in Retained(p, files), set f | f in Excess(p, files);
    assert excess <= retained;
    assert |retained - excess| == |retained| - |excess|;
  }

  lemma RetainedAreFresh(p: Policy, files: seq<File>)
    requires DistinctNames(files)
    ensures (set f | f in Retained(p, files)) == Fresh(p, files)
    ensures (set f | f in RemovableRetained(p, files)) == Takeable(p, files)
    ensures |Retained(p, files)| == |Fresh(p, files)| && |RemovableRetained(p, files)| == |Takeable(p, files)|
  {
    MatchingExactly(p, files);
    forall f ensures (f in Retained(p, files) <==> f in Fresh(p, files)) &&
                     (f in RemovableRetained(p, files) <==> f in Takeable(p, files))
    {
      ExpiredIsOutOfDate(p, f);
    }
    RetainedSimple(p, files);
    NoRepeats(Retained(p, files));
    NoRepeats(RemovableRetained(p, files));
  }

  /**
   How many files that pass the node's test are left: the fresh ones, less as many of those that may be taken
   as exceed the cap.
   */
  lemma LeftCount(p: Policy, files: seq<File>)
    requires DistinctNames(files)
    ensures var kept, takeable := |Fresh(p, files)|, |Takeable(p, files)|;
            var over := if kept > p.cap then kept - p.cap else 0;
            |OfNode(p, Pruned(p, files))| == kept - if over < takeable then over else takeable
  {
    CountLeft(p, files);
    RetainedAreFresh(p, files);
  }

  lemma RemovableLeft(p: Policy, files: seq<File>, f: File)
    requires DistinctNames(files) && f in OfNode(p, Pruned(p, files)) && Removable(p, f)
    ensures f in RemovableRetained(p, files) && f !in Excess(p, files)
  {
    LeftFiles(p, files);
    assert f in Retained(p, files);
  }

  lemma InPrefix(files: seq<File>, n: nat, j: nat)
    requires j < n <= |files|
    ensures files[j] in files[..n]
  {
    assert files[..n][j] == files[j];
  }

  lemma RemovedOrFresh(p: Policy, files: seq<File>)
    requires DistinctNames(files)
    ensures OfNode(p, Pruned(p, files)) <= Fresh(p, files)
    ensures Excess(p, files) == [] ==> OfNode(p, Pruned(p, files)) == Fresh(p, files)
  {
    LeftFiles(p, files);
    RetainedAreFresh(p, files);
  }

  /** What is out of date and closed goes. */
  lemma OutOfDateGoes(p: Policy, files: seq<File>, f: File)
    requires DistinctNames(files) && p.matches(f.name) && Closed(p, f) && OutOfDate(p, f)
    ensures f !in Pruned(p, files)
  {
    RemovedOrFresh(p, files);
    assert f !in Fresh(p, files);
    assert f in OfNode(p, Pruned(p, files)) <==> f in Pruned(p, files);
  }

  /** While the fresh files do not exceed the cap, exactly they are left. */
  lemma FreshStay(p: Policy, files: seq<File>)
    requires DistinctNames(files) && |Fresh(p, files)| <= p.cap
    ensures OfNode(p, Pruned(p, files)) == Fresh(p, files)
  {
    RetainedAreFresh(p, files);
    RemovedOrFresh(p, files);
  }

  /**
   After a pruning at most the cap of files that pass the node's test remains, or the log closes none of
   their operations; and the cap never takes more than exceeds it.
   */
  lemma CapOrNothingRemovable(p: Policy, files: seq<File>)
    requires DistinctNames(files)
    ensures |OfNode(p, Pruned(p, files))| <= p.cap || forall f :: f in OfNode(p, Pruned(p, files)) ==> !Closed(p, f)
    ensures |Fresh(p, files)| >= p.cap ==> |OfNode(p, Pruned(p, files))| >= p.cap
  {
    LeftCount(p, files);
    RetainedAreFresh(p, files);
    if |Retained(p, files)| - p.cap >= |RemovableRetained(p, files)| {
      AllRemovableGone(p, files);
    }
  }

  /** When the excess takes all it may, nothing that is left may go. */
  lemma AllRemovableGone(p: Policy, files: seq<File>)
    requires DistinctNames(files) && |Retained(p, files)| - p.cap >= |RemovableRetained(p, files)|
    ensures forall f :: f in OfNode(p, Pruned(p, files)) ==> !Closed(p, f)
  {
    forall f | f in OfNode(p, Pruned(p, files)) ensures !Closed(p, f) {
      if Closed(p, f) {
        ExpiredIsOutOfDate(p, f);
        RemovableLeft(p, files, f);
      }
    }
  }

  /** With a cap of one, a file that stays and cannot be removed costs every other file that can be. */
  lemma OneLeftCosts(p: Policy, files: seq<File>, f: File, open: File)
    requires DistinctNames(files) && f in files && open in files && p.cap == 1
    requires p.matches(f.name) && p.matches(open.name) && Closed(p, f) && !Closed(p, open)
    ensures f !in Pruned(p, files)
  {
    var left := OfNode(p, Pruned(p, files));
    PruneSpares(p, files, open);
    CapOrNothingRemovable(p, files);
    if f in Pruned(p, files) {
      assert f in left && open in left && f != open;
      assert {f, open} <= left;
      TwoInSet(left, f, open);
    }
  }

  lemma TwoInSet<T>(s: set<T>, a: T, b: T)
    requires a in s && b in s && a != b
    ensures |s| >= 2
  {
    assert |s - {a, b}| == |s| - 2;
  }

  /**
   The node "node_b64_Zm9v" counts the backups of the node "foo" among its own: with a cap of one, its first
   backup removes the only backup of "foo", of a closed operation, that has not expired.
   */
  lemma NamesakeTakesBackup(utf8: seq<Byte> -> JsString, p: Policy, f: File, open: File,
                            stamp: JsString, op: seq<Byte>, uuid: JsString,
                            newStamp: JsString, newOp: seq<Byte>, newUuid: JsString)
    requires DashFree(stamp) && Block(uuid) && IsAscii(op) && f.name == FileName(stamp, op, uuid, Utf8(FOO))
    requires open.name == FileName(newStamp, newOp, newUuid, Utf8(NAMESAKE)) && open.name != f.name
    requires OfItsNode(p, utf8) && p.node == NAMESAKE && p.cap == 1
    requires Closed(p, f) && !OutOfDate(p, f) && !Closed(p, open)
    ensures f !in Pruned(p, [f, open])
  {
    NamesakePasses(stamp, op, uuid);
    OwnFilePasses(newStamp, newOp, newUuid, NAMESAKE);
    OneLeftCosts(p, [f, open], f, open);
  }

  /** What the cap removes is no younger than any removable file it leaves. */
  lemma CapTakesOldestFirst(p: Policy, files: seq<File>, gone: File, left: File)
    requires DistinctNames(files)
    requires gone in files && gone !in Pruned(p, files) && !OutOfDate(p, gone)
    requires left in OfNode(p, Pruned(p, files)) && Closed(p, left)
    ensures gone.mtime <= left.mtime
  {
    PrunedExactly(p, files);
    RemovableLeft(p, files, left);
    CandidatesByAge(p, files);
    ExcessIsPrefix(p, files);
    var candidates, excess := RemovableRetained(p, files), Excess(p, files);
    assert gone in excess by {
      MatchingExactly(p, files);
    }
    var i :| 0 <= i < |excess| && excess[i] == gone;
    var j :| 0 <= j < |candidates| && candidates[j] == left;
    BehindPrefix(candidates, |excess|, j);
    assert candidates[i] == gone;
  }

  lemma BehindPrefix(files: seq<File>, n: nat, j: nat)
    requires n <= |files| && j < |files| && files[j] !in files[..n]
    ensures n <= j
  {
    if j < n {
      InPrefix(files, n, j);
    }
  }

  lemma CandidatesByAge(p: Policy, files: seq<File>)
    ensures ByAge(RemovableRetained(p, files))
  {
    MatchingExactly(p, files);
    FilterByAge(Matching(p, files), (f: File) => !Expired(p, f));
    FilterByAge(Retained(p, files), (f: File) => Removable(p, f));
  }

  /******* Whole runs *******/

  /** The directory, every line ever logged, and the lines that log rotation has left readable. */
  datatype World = World(files: seq<File>, history: seq<Line>, visible: seq<Line>)

  ghost function TerminalOps(visible: seq<Line>): (ops: set<JsString>) {
    set l | l in visible && (l.outcome == Succeeded || l.outcome == Failed) :: l.op
  }

  datatype Event =
    | TakeBackup(op: seq<Byte>, f: File, p: Policy)
    | PruneNode(p: Policy)
    | WriteLine(line: Line)
    | LoseLines(n: nat)

  /**
   New backups get a new name made from their operation id; prunings read ids from names and trust
   only the readable lines.
   */
  ghost predicate Allowed(utf8: seq<Byte> -> JsString, w: World, e: Event) {
    match e
    case TakeBackup(op, f, p) =>
      Reads(utf8, w, p) && NamedIn(f.name, op, p.node) && forall g :: g in w.files ==> g.name != f.name
    case PruneNode(p) => Reads(utf8, w, p)
    case WriteLine(_) => true
    case LoseLines(n) => n <= |w.visible|
  }

  ghost predicate Reads(utf8: seq<Byte> -> JsString, w: World, p: Policy) {
    OfItsNode(p, utf8) && p.terminal == TerminalOps(w.visible)
  }

  /** The name carries the ASCII id and the node's name. */
  ghost predicate NamedIn(name: JsString, op: seq<Byte>, node: JsString) {
    IsAscii(op) &&
    exists stamp, uuid :: DashFree(stamp) && DashFree(uuid) && name == FileName(stamp, op, uuid, Utf8(node))
  }

  ghost predicate NamedFor(name: JsString, op: seq<Byte>) {
    exists node :: NamedIn(name, op, node)
  }

  function After(w: World, e: Event): (r: World) {
    match e
    case TakeBackup(_, f, p) => w.(files := Pruned(p, w.files + [f]))
    case PruneNode(p) => w.(files := Pruned(p, w.files))
    case WriteLine(line) => w.(history := w.history + [line], visible := w.visible + [line])
    case LoseLines(n) => if n <= |w.visible| then w.(visible := w.visible[n..]) else w
  }

  const EMPTY_WORLD := World([], [], [])

  /** Events that can happen one after the other. */
  ghost predicate Possible(utf8: seq<Byte> -> JsString, w: World, events: seq<Event>)
    decreases |events|
  {
    events == [] || (Allowed(utf8, w, events[0]) && Possible(utf8, After(w, events[0]), events[1..]))
  }

  function Finally(w: World, events: seq<Event>): (r: World)
    decreases |events|
  {
    if events == [] then w else Finally(After(w, events[0]), events[1..])
  }

  ghost predicate WorldInv(w: World) {
    DistinctNames(w.files) && forall l :: l in w.visible ==> l in w.history
  }

  lemma {:induction false} FilterDistinct(files: seq<File>, keep: File -> bool)
    requires DistinctNames(files)
    ensures DistinctNames(Filter(files, keep))
  {
    if files != [] {
      assert DistinctNames(files[1..]);
      FilterDistinct(files[1..], keep);
      var rest := Filter(files[1..], keep);
      forall i | 0 <= i < |rest| ensures rest[i].name != files[0].name {
        assert rest[i] in files[1..];
      }
    }
  }

  lemma {:induction false} UnlinkDistinct(files: seq<File>, gone: seq<File>)
    requires DistinctNames(files)
    ensures DistinctNames(UnlinkAll(files, gone))
  {
    if gone != [] {
      UnlinkDistinct(files, gone[..|gone| - 1]);
      FilterDistinct(UnlinkAll(files, gone[..|gone| - 1]), (f: File) => f.name != gone[|gone| - 1].name);
    }
  }

  lemma PrunedDistinct(p: Policy, files: seq<File>)
    requires DistinctNames(files)
    ensures DistinctNames(Pruned(p, files))
  {
    UnlinkDistinct(files, ExpiredOnes(p, files));
    UnlinkDistinct(UnlinkAll(files, ExpiredOnes(p, files)), Excess(p, files));
  }

  lemma StepKeepsInv(utf8: seq<Byte> -> JsString, w: World, e: Event)
    requires WorldInv(w) && Allowed(utf8, w, e)
    ensures WorldInv(After(w, e))
  {
    if e.TakeBackup? {
      PrunedDistinct(e.p, w.files + [e.f]);
    } else if e.PruneNode? {
      PrunedDistinct(e.p, w.files);
    }
  }

  lemma {:induction false} RunKeepsInv(utf8: seq<Byte> -> JsString, w: World, events: seq<Event>)
    requires WorldInv(w) && Possible(utf8, w, events)
    ensures WorldInv(Finally(w, events))
    decreases |events|
  {
    if events != [] {
      StepKeepsInv(utf8, w, events[0]);
      RunKeepsInv(utf8, After(w, events[0]), events[1..]);
    }
  }

  lemma TerminalInHistory(w: World, op: JsString)
    requires WorldInv(w) && op in TerminalOps(w.visible)
    ensures Terminal(w.history, op)
  {
    var l :| l in w.visible && (l.outcome == Succeeded || l.outcome == Failed) && l.op == op;
    assert l == Line(op, l.outcome);
  }

  /** A pruning spares the backup of an operation that the whole history does not close, if its name reads back. */
  lemma PruneSparesOpen(utf8: seq<Byte> -> JsString, w: World, files: seq<File>, p: Policy, op: seq<Byte>, f: File)
    requires DecodesAscii(utf8) && Reads(utf8, w, p) && NamedFor(f.name, op) && !EndsInDash(op) && WorldInv(w)
    requires f in files && DistinctNames(files) && !Terminal(w.history, op)
    ensures f in Pruned(p, files)
  {
    var node :| NamedIn(f.name, op, node);
    var stamp, uuid :| DashFree(stamp) && DashFree(uuid) && f.name == FileName(stamp, op, uuid, Utf8(node));
    OperationIdRoundTrip(stamp, op, uuid, Utf8(node), utf8);
    if op in p.terminal {
      TerminalInHistory(w, op);
    }
    PruneSpares(p, files, f);
  }

  /** In a run a pruning removes what is out of date and closed by a line that can still be read. */
  lemma ReadAsEndedGoes(utf8: seq<Byte> -> JsString, w: World, p: Policy, f: File, line: Line)
    requires Reads(utf8, w, p) && DistinctNames(w.files) && Passes(f.name, p.node)
    requires line in w.visible && (line.outcome == Succeeded || line.outcome == Failed) && line.op != []
    requires BackupOperationId(f.name, utf8) == Some(line.op) && OutOfDate(p, f)
    ensures f !in After(w, PruneNode(p)).files
  {
    OutOfDateGoes(p, w.files, f);
  }

  lemma StepSparesOpen(utf8: seq<Byte> -> JsString, w: World, e: Event, op: seq<Byte>, f: File)
    requires DecodesAscii(utf8) && WorldInv(w) && Allowed(utf8, w, e) && NamedFor(f.name, op) && !EndsInDash(op)
    requires f in w.files || (e.TakeBackup? && e.f == f)
    requires !Terminal(w.history, op)
    ensures f in After(w, e).files
  {
    if e.TakeBackup? {
      PruneSparesOpen(utf8, w, w.files + [e.f], e.p, op, f);
    } else if e.PruneNode? {
      PruneSparesOpen(utf8, w, w.files, e.p, op, f);
    }
  }

  /** What the history does not close in the end, it did not close before. */
  lemma {:induction false} OpenBefore(w: World, events: seq<Event>, op: JsString)
    requires Terminal(w.history, op)
    ensures Terminal(Finally(w, events).history, op)
    decreases |events|
  {
    if events != [] {
      OpenBefore(After(w, events[0]), events[1..], op);
    }
  }

  lemma {:induction false} OpenFileStays(utf8: seq<Byte> -> JsString, w: World, events: seq<Event>, op: seq<Byte>,
                                         f: File)
    requires DecodesAscii(utf8) && WorldInv(w) && Possible(utf8, w, events)
    requires NamedFor(f.name, op) && !EndsInDash(op) && f in w.files && !Terminal(Finally(w, events).history, op)
    ensures f in Finally(w, events).files
    decreases |events|
  {
    if events != [] {
      if Terminal(w.history, op) {
        OpenBefore(w, events, op);
      }
      StepKeepsInv(utf8, w, events[0]);
      StepSparesOpen(utf8, w, events[0], op, f);
      OpenFileStays(utf8, After(w, events[0]), events[1..], op, f);
    }
  }

  /**
   A run in which a backup is taken for the operation, the log never records that the operation
   succeeded or failed, and the backup is gone in the end.
   */
  ghost predicate Loses(utf8: seq<Byte> -> JsString, op: seq<Byte>, before: seq<Event>, f: File, p: Policy,
                        after: seq<Event>) {
    var w, e := Finally(EMPTY_WORLD, before), TakeBackup(op, f, p);
    Possible(utf8, EMPTY_WORLD, before) && Allowed(utf8, w, e) && Possible(utf8, After(w, e), after) &&
    !Terminal(Finally(After(w, e), after).history, op) && f !in Finally(After(w, e), after).files
  }

  lemma CleanNeverLost(utf8: seq<Byte> -> JsString, op: seq<Byte>, before: seq<Event>, f: File, p: Policy,
                       after: seq<Event>)
    requires DecodesAscii(utf8) && !EndsInDash(op)
    ensures !Loses(utf8, op, before, f, p, after)
  {
    if Loses(utf8, op, before, f, p, after) {
      var w, e := Finally(EMPTY_WORLD, before), TakeBackup(op, f, p);
      RunKeepsInv(utf8, EMPTY_WORLD, before);
      if Terminal(After(w, e).history, op) {
        OpenBefore(After(w, e), after, op);
      }
      StepKeepsInv(utf8, w, e);
      StepSparesOpen(utf8, w, e, op, f);
      OpenFileStays(utf8, After(w, e), after, op, f);
    }
  }

  lemma FirstIsIn(files: seq<File>)
    requires files != []
    ensures files[0] in files
  {
  }

  /** A pruning that finds nothing to remove. */
  lemma NothingTerminal(p: Policy, f: File)
    requires p.terminal == {}
    ensures Pruned(p, [f]) == [f]
  {
    RemovedAreTerminal(p, [f]);
    if ExpiredOnes(p, [f]) != [] {
      FirstIsIn(ExpiredOnes(p, [f]));
    }
    if Excess(p, [f]) != [] {
      FirstIsIn(Excess(p, [f]));
    }
  }

  /** An expired backup whose name is read as a closed operation goes. */
  lemma ExpiredGoes(p: Policy, f: File, id: JsString)
    requires p.matches(f.name) && p.idOf(f.name) == Some(id) && id != [] && id in p.terminal
    requires p.now - f.mtime > p.days * DAY_MS
    ensures f !in Pruned(p, [f])
  {
    assert Expired(p, f);
    MatchingExactly(p, [f]);
    PrunedExactly(p, [f]);
  }

  const DEFAULT_DAYS := 30
  const DEFAULT_CAP := 50
  const AFTER_EXPIRY := DEFAULT_DAYS * DAY_MS + 1

  /** A pruning with the default retention. */
  function PolicyAt(node: JsString, utf8: seq<Byte> -> JsString, terminal: set<JsString>, now: int): (p: Policy) {
    NodePolicy(node, utf8, terminal, now, DEFAULT_DAYS, DEFAULT_CAP)
  }

  lemma ShortIsTerminal(short: JsString)
    ensures TerminalOps([]) == {} && TerminalOps([Line(short, Succeeded)]) == {short}
  {
    var visible := [Line(short, Succeeded)];
    assert visible[0] in visible;
  }

  lemma TwoSteps(utf8: seq<Byte> -> JsString, w: World, a: Event, b: Event)
    requires Allowed(utf8, w, a) && Allowed(utf8, After(w, a), b)
    ensures Possible(utf8, w, [a, b]) && Finally(w, [a, b]) == After(After(w, a), b)
  {
    assert [a, b][1..] == [b] && [b][1..] == [];
    assert Possible(utf8, After(w, a), [b]);
    assert Finally(After(w, a), [b]) == After(After(w, a), b);
  }

  /** Taking the first backup. */
  lemma FirstTaken(utf8: seq<Byte> -> JsString, op: seq<Byte>, f: File, node: JsString)
    requires NamedIn(f.name, op, node)
    ensures var e := TakeBackup(op, f, PolicyAt(node, utf8, {}, 0));
            Allowed(utf8, EMPTY_WORLD, e) && After(EMPTY_WORLD, e) == World([f], [], [])
  {
    ShortIsTerminal([]);
    assert [] + [f] == [f];
    NothingTerminal(PolicyAt(node, utf8, {}, 0), f);
  }

  /** A backup whose name is read as a closed operation's is gone after the pruning that follows its expiry. */
  lemma ReadAsClosed(utf8: seq<Byte> -> JsString, f: File, node: JsString, id: JsString)
    requires Passes(f.name, node) && BackupOperationId(f.name, utf8) == Some(id) && id != [] && f.mtime == 0
    ensures f !in Pruned(PolicyAt(node, utf8, {id}, AFTER_EXPIRY), [f])
  {
    ExpiredGoes(PolicyAt(node, utf8, {id}, AFTER_EXPIRY), f, id);
  }

  /** An operation of another id succeeds, and the next pruning takes the backup for its. */
  lemma ClosedAndPruned(utf8: seq<Byte> -> JsString, f: File, node: JsString, id: JsString)
    requires Passes(f.name, node) && BackupOperationId(f.name, utf8) == Some(id) && id != [] && f.mtime == 0
    ensures var w := World([f], [], []);
            var after := [WriteLine(Line(id, Succeeded)), PruneNode(PolicyAt(node, utf8, {id}, AFTER_EXPIRY))];
            Possible(utf8, w, after) && Finally(w, after).history == [Line(id, Succeeded)] &&
            f !in Finally(w, after).files
  {
    var w, late := World([f], [], []), PolicyAt(node, utf8, {id}, AFTER_EXPIRY);
    var closed := World([f], [Line(id, Succeeded)], [Line(id, Succeeded)]);
    assert After(w, WriteLine(Line(id, Succeeded))) == closed;
    ShortIsTerminal(id);
    ReadAsClosed(utf8, f, node, id);
    TwoSteps(utf8, w, WriteLine(Line(id, Succeeded)), PruneNode(late));
  }

  /**
   With an id that is read back without its last character, whatever the node, the time and the unique
   part of the name: its backup is taken, the shorter id's operation succeeds, and the pruning after
   expiry removes the backup of the operation that never ended.
   */
  lemma DashedBackupLost(utf8: seq<Byte> -> JsString, op: seq<Byte>, stamp: JsString, uuid: JsString, node: JsString)
    returns (f: File, p: Policy, after: seq<Event>)
    requires DecodesAscii(utf8) && IsAscii(op) && EndsInDash(op) && DashFree(stamp) && DashFree(uuid)
    ensures f.name == FileName(stamp, op, uuid, Utf8(node)) && p.node == node && p.days == 30 && p.cap == 50
    ensures Loses(utf8, op, [], f, p, after)
  {
    var short: JsString := op[..|op| - 1];
    f, p := File(FileName(stamp, op, uuid, Utf8(node)), 0), PolicyAt(node, utf8, {}, 0);
    after := [WriteLine(Line(short, Succeeded)), PruneNode(PolicyAt(node, utf8, {short}, AFTER_EXPIRY))];
    DashedNameReadShort(utf8, op, stamp, uuid, node, f.name, short);
    FirstTaken(utf8, op, f, node);
    ClosedAndPruned(utf8, f, node, short);
    OneLineLeavesOpen(short, op);
    LosesAtOnce(utf8, op, f, p, World([f], [], []), after);
  }

  lemma DashedNameReadShort(utf8: seq<Byte> -> JsString, op: seq<Byte>, stamp: JsString, uuid: JsString,
                            node: JsString, name: JsString, short: JsString)
    requires DecodesAscii(utf8) && IsAscii(op) && EndsInDash(op) && DashFree(stamp) && DashFree(uuid)
    requires name == FileName(stamp, op, uuid, Utf8(node)) && short == op[..|op| - 1]
    ensures NamedIn(name, op, node) && Passes(name, node)
    ensures short != [] && BackupOperationId(name, utf8) == Some(short)
  {
    OwnFilePasses(stamp, op, uuid, node);
    DashedIdIsCut(stamp, op, uuid, Utf8(node), utf8);
  }

  lemma OneLineLeavesOpen(other: JsString, op: JsString)
    requires |other| < |op|
    ensures !Terminal([Line(other, Succeeded)], op)
  {
  }

  lemma LosesAtOnce(utf8: seq<Byte> -> JsString, op: seq<Byte>, f: File, p: Policy, taken: World, after: seq<Event>)
    requires Allowed(utf8, EMPTY_WORLD, TakeBackup(op, f, p)) && After(EMPTY_WORLD, TakeBackup(op, f, p)) == taken
    requires Possible(utf8, taken, after)
    requires !Terminal(Finally(taken, after).history, op) && f !in Finally(taken, after).files
    ensures Loses(utf8, op, [], f, p, after)
  {
    assert Finally(EMPTY_WORLD, []) == EMPTY_WORLD;
  }

  /**
   An ASCII operation id's backup outlives every run in which the log does not close the operation,
   exactly if the encoded id does not end in a dash.
   */
  lemma OpenBackupsSurviveIff(utf8: seq<Byte> -> JsString, op: seq<Byte>)
    requires DecodesAscii(utf8) && IsAscii(op)
    ensures (forall before, f, p, after :: !Loses(utf8, op, before, f, p, after)) <==> !EndsInDash(op)
  {
    if EndsInDash(op) {
      var f, p, after := DashedBackupLost(utf8, op, [], [], []);
      assert Loses(utf8, op, [], f, p, after);
    } else {
      forall before, f, p, after ensures !Loses(utf8, op, before, f, p, after) {
        CleanNeverLost(utf8, op, before, f, p, after);
      }
    }
  }
}

/** The proposal hash an approval is bound to, and the payloads it is computed from. */
module WriteApproval {
  import opened Wrappers
  import opened JsText
  import opened JsonTree
  import opened CanonicalJson
  import opened ConfigPlanner

  const OPERATION := Ascii("operation")
  const TARGET := Ascii("target")
  const PAYLOAD := Ascii("payload")
  const MODE := Ascii("mode")
  const CURRENT_HASH := Ascii("currentHash")
  const NEXT_HASH := Ascii("nextHash")
  const REMOVE_PATHS := Ascii("removePaths")
  const VALUES := Ascii("values")
  const BINDINGS := Ascii("bindings")

  /** What is written: node parameters or node bindings. They differ in one payload key. */
  datatype Resource = Parameters | Bindings

  function ModeText(mode: Mode): (r: JsString) {
    if mode == MergeMode then Ascii("merge") else Ascii("replace")
  }

  function PathValue(path: Path): (r: List<Value>) {
    if path == [] then Nil else Cons(Str(path[0]), PathValue(path[1..]))
  }

  function PathsValue(paths: seq<Path>): (r: List<Value>) {
    if paths == [] then Nil else Cons(Arr(PathValue(paths[0])), PathsValue(paths[1..]))
  }

  /** The part of a write that its approval is about. */
  datatype Change = Change(
    resource: Resource, operation: JsString, target: JsString, mode: Mode,
    currentHash: JsString, nextHash: JsString, patch: Value, removePaths: seq<Path>)

  function PatchKey(c: Change): (k: JsString) {
    if c.resource == Parameters then VALUES else BINDINGS
  }

  /** The payload's last two members. */
  function PatchMembers(c: Change): (ms: Members<Value>) {
    Member(PatchKey(c), c.patch, Member(REMOVE_PATHS, Arr(PathsValue(c.removePaths)), End))
  }

  function PayloadMembers(c: Change): (ms: Members<Value>) {
    Member(MODE, Str(ModeText(c.mode)),
           Member(CURRENT_HASH, Str(c.currentHash), Member(NEXT_HASH, Str(c.nextHash), PatchMembers(c))))
  }

  function Payload(c: Change): (r: Value) {
    Obj(PayloadMembers(c))
  }

  function ProposalMembers(c: Change): (ms: Members<Value>) {
    Member(OPERATION, Str(c.operation), Member(TARGET, Str(c.target), Member(PAYLOAD, Payload(c), End)))
  }

  function ProposalValue(c: Change): (r: Value) {
    Obj(ProposalMembers(c))
  }

  function ProposalHash(h: JsString -> JsString, c: Change): (r: JsString) {
    JsonHash(h, ProposalValue(c))
  }

  /******* Well-formedness, member by member *******/

  lemma {:induction false} PathWellFormed(path: Path)
    ensures WellFormedItems(PathValue(path)) && NormItems(PathValue(path)) == PathValue(path)
  {
    if path != [] {
      PathWellFormed(path[1..]);
    }
  }

  lemma {:induction false} PathsWellFormed(paths: seq<Path>)
    ensures WellFormedItems(PathsValue(paths)) && NormItems(PathsValue(paths)) == PathsValue(paths)
  {
    if paths != [] {
      PathWellFormed(paths[0]);
      PathsWellFormed(paths[1..]);
    }
  }

  lemma {:induction false} PathInjective(p: Path, q: Path)
    requires PathValue(p) == PathValue(q)
    ensures p == q
  {
    if p != [] {
      PathInjective(p[1..], q[1..]);
      assert p == [p[0]] + p[1..] && q == [q[0]] + q[1..];
    }
  }

  lemma {:induction false} PathsInjective(ps: seq<Path>, qs: seq<Path>)
    requires PathsValue(ps) == PathsValue(qs)
    ensures ps == qs
  {
    if ps != [] {
      PathInjective(ps[0], qs[0]);
      PathsInjective(ps[1..], qs[1..]);
      assert ps == [ps[0]] + ps[1..] && qs == [qs[0]] + qs[1..];
    }
  }

  lemma TextLengths()
    ensures |OPERATION| == 9 && |TARGET| == 6 && |PAYLOAD| == 7 && |MODE| == 4 && |VALUES| == 6
    ensures |NEXT_HASH| == 8 && |BINDINGS| == 8 && |CURRENT_HASH| == 11 && |REMOVE_PATHS| == 11
    ensures |ModeText(MergeMode)| == 5 && |ModeText(ReplaceMode)| == 7
  {
  }

  lemma FirstLetters()
    ensures |NEXT_HASH| == 8 && NEXT_HASH[0] == 0x6E
    ensures |BINDINGS| == 8 && BINDINGS[0] == 0x62
    ensures |CURRENT_HASH| == 11 && CURRENT_HASH[0] == 0x63
    ensures |REMOVE_PATHS| == 11 && REMOVE_PATHS[0] == 0x72
  {
  }

  lemma KeysDiffer()
    ensures OPERATION != TARGET && OPERATION != PAYLOAD && TARGET != PAYLOAD
    ensures MODE != CURRENT_HASH && MODE != NEXT_HASH && MODE != VALUES && MODE != BINDINGS && MODE != REMOVE_PATHS
    ensures CURRENT_HASH != NEXT_HASH && CURRENT_HASH != VALUES && CURRENT_HASH != BINDINGS
    ensures CURRENT_HASH != REMOVE_PATHS
    ensures NEXT_HASH != VALUES && NEXT_HASH != BINDINGS && NEXT_HASH != REMOVE_PATHS
    ensures VALUES != BINDINGS && VALUES != REMOVE_PATHS && BINDINGS != REMOVE_PATHS
    ensures ModeText(MergeMode) != ModeText(ReplaceMode)
  {
    TextLengths();
    FirstLetters();
  }

  /** Looking up a key in a list that starts with a member. */
  lemma FindFirst(k: JsString, v: Value, rest: Members<Value>, q: JsString)
    ensures Find(Member(k, v, rest), q) == if q == k then Some(v) else Find(rest, q)
  {
  }

  /** One more member in front keeps a list distinct and well-formed. */
  lemma OneMoreMember(k: JsString, v: Value, rest: Members<Value>)
    requires Distinct(rest) && Find(rest, k) == None
    ensures Distinct(Member(k, v, rest))
    ensures WellFormed(v) && WellFormedMembers(rest) ==> WellFormedMembers(Member(k, v, rest))
  {
  }

  lemma FindInPatch(c: Change, k: JsString)
    ensures Find(PatchMembers(c), k) ==
            if k == PatchKey(c) then Some(c.patch)
            else if k == REMOVE_PATHS then Some(Arr(PathsValue(c.removePaths)))
            else None
  {
    var last := Member(REMOVE_PATHS, Arr(PathsValue(c.removePaths)), End);
    FindFirst(PatchKey(c), c.patch, last, k);
    FindFirst(REMOVE_PATHS, Arr(PathsValue(c.removePaths)), End, k);
  }

  lemma FindInPayload(c: Change, k: JsString)
    ensures Find(PayloadMembers(c), k) ==
            if k == MODE then Some(Str(ModeText(c.mode)))
            else if k == CURRENT_HASH then Some(Str(c.currentHash))
            else if k == NEXT_HASH then Some(Str(c.nextHash))
            else Find(PatchMembers(c), k)
  {
    var fromNext := Member(NEXT_HASH, Str(c.nextHash), PatchMembers(c));
    var fromCurrent := Member(CURRENT_HASH, Str(c.currentHash), fromNext);
    FindFirst(MODE, Str(ModeText(c.mode)), fromCurrent, k);
    FindFirst(CURRENT_HASH, Str(c.currentHash), fromNext, k);
    FindFirst(NEXT_HASH, Str(c.nextHash), PatchMembers(c), k);
  }

  lemma PatchMembersWellFormed(c: Change)
    ensures Distinct(PatchMembers(c))
    ensures WellFormed(c.patch) ==> WellFormedMembers(PatchMembers(c))
  {
    KeysDiffer();
    PathsWellFormed(c.removePaths);
    var paths := Arr(PathsValue(c.removePaths));
    OneMoreMember(REMOVE_PATHS, paths, End);
    FindFirst(REMOVE_PATHS, paths, End, PatchKey(c));
    OneMoreMember(PatchKey(c), c.patch, Member(REMOVE_PATHS, paths, End));
  }

  lemma PayloadWellFormed(c: Change)
    ensures Distinct(PayloadMembers(c))
    ensures WellFormed(c.patch) ==> WellFormed(Payload(c))
  {
    KeysDiffer();
    PatchMembersWellFormed(c);
    var fromNext := Member(NEXT_HASH, Str(c.nextHash), PatchMembers(c));
    var fromCurrent := Member(CURRENT_HASH, Str(c.currentHash), fromNext);
    FindInPatch(c, NEXT_HASH);
    OneMoreMember(NEXT_HASH, Str(c.nextHash), PatchMembers(c));
    FindInPatch(c, CURRENT_HASH);
    FindFirst(NEXT_HASH, Str(c.nextHash), PatchMembers(c), CURRENT_HASH);
    OneMoreMember(CURRENT_HASH, Str(c.currentHash), fromNext);
    FindInPatch(c, MODE);
    FindFirst(NEXT_HASH, Str(c.nextHash), PatchMembers(c), MODE);
    FindFirst(CURRENT_HASH, Str(c.currentHash), fromNext, MODE);
    OneMoreMember(MODE, Str(ModeText(c.mode)), fromCurrent);
  }

  lemma FindInProposal(c: Change, k: JsString)
    ensures Find(ProposalMembers(c), k) ==
            if k == OPERATION then Some(Str(c.operation))
            else if k == TARGET then Some(Str(c.target))
            else if k == PAYLOAD then Some(Payload(c))
            else None
  {
    var last := Member(PAYLOAD, Payload(c), End);
    FindFirst(OPERATION, Str(c.operation), Member(TARGET, Str(c.target), last), k);
    FindFirst(TARGET, Str(c.target), last, k);
    FindFirst(PAYLOAD, Payload(c), End, k);
  }

  lemma ProposalWellFormed(c: Change)
    ensures Distinct(ProposalMembers(c))
    ensures WellFormed(c.patch) ==> WellFormed(ProposalValue(c))
  {
    KeysDiffer();
    PayloadWellFormed(c);
    var last := Member(PAYLOAD, Payload(c), End);
    OneMoreMember(PAYLOAD, Payload(c), End);
    FindFirst(PAYLOAD, Payload(c), End, TARGET);
    OneMoreMember(TARGET, Str(c.target), last);
    FindFirst(PAYLOAD, Payload(c), End, OPERATION);
    FindFirst(TARGET, Str(c.target), last, OPERATION);
    OneMoreMember(OPERATION, Str(c.operation), Member(TARGET, Str(c.target), last));
  }

  /******* What a proposal hash pins *******/

  /** The patches say the same under the same key; an undefined patch leaves no trace of its key. */
  predicate SamePatch(c: Change, d: Change) {
    if c.patch.Undefined? || d.patch.Undefined? then c.patch == d.patch
    else c.resource == d.resource && Norm(c.patch) == Norm(d.patch)
  }

  predicate SamePayload(c: Change, d: Change) {
    c.mode == d.mode && c.currentHash == d.currentHash && c.nextHash == d.nextHash &&
    c.removePaths == d.removePaths && SamePatch(c, d)
  }

  /** What a record's normal form holds under a key. */
  function NormAt(ms: Members<Value>, k: JsString): (r: Option<Value>) {
    match Find(ms, k)
    case None => None
    case Some(v) => if v.Undefined? then None else Some(Norm(v))
  }

  lemma SameNormIffSameAt(a: Members<Value>, b: Members<Value>)
    requires Distinct(a) && Distinct(b)
    ensures Norm(Obj(a)) == Norm(Obj(b)) <==> forall k :: NormAt(a, k) == NormAt(b, k)
  {
    SameNormIffSameLookups(a, b);
    forall k ensures Find(NormMembers(a), k) == NormAt(a, k) && Find(NormMembers(b), k) == NormAt(b, k) {
      FindNorm(a, k);
      FindNorm(b, k);
    }
  }

  lemma NormAtPayload(c: Change, k: JsString)
    ensures NormAt(PayloadMembers(c), k) ==
            if k == MODE then Some(Str(ModeText(c.mode)))
            else if k == CURRENT_HASH then Some(Str(c.currentHash))
            else if k == NEXT_HASH then Some(Str(c.nextHash))
            else if k == PatchKey(c) then (if c.patch.Undefined? then None else Some(Norm(c.patch)))
            else if k == REMOVE_PATHS then Some(Arr(PathsValue(c.removePaths)))
            else None
  {
    FindInPayload(c, k);
    FindInPatch(c, k);
    PathsWellFormed(c.removePaths);
  }

  lemma PatchesAgree(c: Change, d: Change)
    ensures SamePatch(c, d) <==>
            NormAt(PayloadMembers(c), VALUES) == NormAt(PayloadMembers(d), VALUES) &&
            NormAt(PayloadMembers(c), BINDINGS) == NormAt(PayloadMembers(d), BINDINGS)
  {
    KeysDiffer();
    NormAtPayload(c, VALUES);
    NormAtPayload(d, VALUES);
    NormAtPayload(c, BINDINGS);
    NormAtPayload(d, BINDINGS);
  }

  /** Payloads with one normal form agree in mode, hashes and removed paths. */
  lemma PayloadParts(c: Change, d: Change)
    requires forall k :: NormAt(PayloadMembers(c), k) == NormAt(PayloadMembers(d), k)
    ensures SamePayload(c, d)
  {
    KeysDiffer();
    NormAtPayload(c, MODE);
    NormAtPayload(d, MODE);
    NormAtPayload(c, CURRENT_HASH);
    NormAtPayload(d, CURRENT_HASH);
    NormAtPayload(c, NEXT_HASH);
    NormAtPayload(d, NEXT_HASH);
    NormAtPayload(c, REMOVE_PATHS);
    NormAtPayload(d, REMOVE_PATHS);
    assert NormAt(PayloadMembers(c), REMOVE_PATHS) == NormAt(PayloadMembers(d), REMOVE_PATHS);
    PathsInjective(c.removePaths, d.removePaths);
    PatchesAgree(c, d);
  }

  /** Payloads print alike exactly if they agree in every part, the patch up to its normal form. */
  lemma PayloadPins(c: Change, d: Change)
    ensures Norm(Payload(c)) == Norm(Payload(d)) <==> SamePayload(c, d)
  {
    PayloadWellFormed(c);
    PayloadWellFormed(d);
    SameNormIffSameAt(PayloadMembers(c), PayloadMembers(d));
    if SamePayload(c, d) {
      PatchesAgree(c, d);
      forall k ensures NormAt(PayloadMembers(c), k) == NormAt(PayloadMembers(d), k) {
        NormAtPayload(c, k);
        NormAtPayload(d, k);
      }
    }
    if forall k :: NormAt(PayloadMembers(c), k) == NormAt(PayloadMembers(d), k) {
      PayloadParts(c, d);
    }
  }

  lemma NormAtProposal(c: Change, k: JsString)
    ensures NormAt(ProposalMembers(c), k) ==
            if k == OPERATION then Some(Str(c.operation))
            else if k == TARGET then Some(Str(c.target))
            else if k == PAYLOAD then Some(Norm(Payload(c)))
            else None
  {
    FindInProposal(c, k);
  }

  lemma ProposalParts(c: Change, d: Change)
    requires forall k :: NormAt(ProposalMembers(c), k) == NormAt(ProposalMembers(d), k)
    ensures c.operation == d.operation && c.target == d.target && Norm(Payload(c)) == Norm(Payload(d))
  {
    KeysDiffer();
    NormAtProposal(c, OPERATION);
    NormAtProposal(d, OPERATION);
    NormAtProposal(c, TARGET);
    NormAtProposal(d, TARGET);
    NormAtProposal(c, PAYLOAD);
    NormAtProposal(d, PAYLOAD);
    assert NormAt(ProposalMembers(c), PAYLOAD) == NormAt(ProposalMembers(d), PAYLOAD);
  }

  lemma ProposalNorms(c: Change, d: Change)
    ensures Norm(ProposalValue(c)) == Norm(ProposalValue(d)) <==>
            c.operation == d.operation && c.target == d.target && Norm(Payload(c)) == Norm(Payload(d))
  {
    ProposalWellFormed(c);
    ProposalWellFormed(d);
    SameNormIffSameAt(ProposalMembers(c), ProposalMembers(d));
    if c.operation == d.operation && c.target == d.target && Norm(Payload(c)) == Norm(Payload(d)) {
      forall k ensures NormAt(ProposalMembers(c), k) == NormAt(ProposalMembers(d), k) {
        NormAtProposal(c, k);
        NormAtProposal(d, k);
      }
    }
    if forall k :: NormAt(ProposalMembers(c), k) == NormAt(ProposalMembers(d), k) {
      ProposalParts(c, d);
    }
  }

  /**
   Under an injective digest, proposals have one hash exactly if they agree in operation, target, mode,
   both state hashes, removed paths, and the normal form of the patch under its key.
   */
  lemma ProposalHashPins(h: JsString -> JsString, c: Change, d: Change)
    requires Injective(h) && WellFormed(c.patch) && WellFormed(d.patch)
    ensures ProposalHash(h, c) == ProposalHash(h, d) <==>
            c.operation == d.operation && c.target == d.target && SamePayload(c, d)
  {
    ProposalWellFormed(c);
    ProposalWellFormed(d);
    SameHashIffSameNorm(h, ProposalValue(c), ProposalValue(d));
    ProposalNorms(c, d);
    PayloadPins(c, d);
  }

  /** The removed paths are a list of lists of names. */
  lemma {:induction false} PathsInLiterals(paths: seq<Path>, i: nat, j: nat)
    requires i < |paths| && j < |paths[i]|
    ensures ItemAt(PathsValue(paths), i).Some? && ItemAt(PathsValue(paths), i).value.Arr?
    ensures ItemAt(ItemAt(PathsValue(paths), i).value.items, j) == Some(Str(paths[i][j]))
    decreases i
  {
    if i == 0 {
      PathInLiterals(paths[0], j);
    } else {
      PathsInLiterals(paths[1..], i - 1, j);
    }
  }

  lemma {:induction false} PathInLiterals(path: Path, j: nat)
    requires j < |path|
    ensures ItemAt(PathValue(path), j) == Some(Str(path[j]))
  {
    if j > 0 {
      PathInLiterals(path[1..], j - 1);
    }
  }

  function ItemAt(items: List<Value>, i: nat): (v: Option<Value>) {
    match items
    case Nil => None
    case Cons(head, tail) => if i == 0 then Some(head) else ItemAt(tail, i - 1)
  }
}

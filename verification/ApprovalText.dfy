/** The text that a proposal hash is taken of, written out. */
module ApprovalText {
  import opened Wrappers
  import opened JsText
  import opened JsonTree
  import opened CanonicalJson
  import opened WriteApproval
  import CanonicalForm
  import ConfigPlanner

  /** The name of a member and the colon behind it. */
  function Name(k: JsString): (t: JsString) {
    [0x22] + k + [0x22, 0x3A]
  }

  predicate PlainName(k: JsString) {
    forall i :: 0 <= i < |k| ==> 0x20 <= k[i] < 0xD800 && k[i] != 0x22 && k[i] != 0x5C
  }

  lemma NameText(k: JsString)
    requires PlainName(k)
    ensures Quote(k) + [COLON] == Name(k)
  {
    CanonicalForm.PlainEscape(k);
  }

  /** Members that are in order are printed in order. */
  lemma InOrder(ms: Members<Value>)
    requires Sorted(ms) && NoUndefined(ms)
    ensures StableText(Obj(ms)) == [0x7B] + Joined(MemberTexts(ms)) + [0x7D]
  {
    SortedTexts(ms);
    SortedDistinct(MemberTexts(ms));
    SortSorted(MemberTexts(ms));
    SortedUnique(Sort(MemberTexts(ms)), MemberTexts(ms));
  }

  predicate NoUndefined(ms: Members<Value>) {
    ms.Member? ==> !ms.value.Undefined? && NoUndefined(ms.rest)
  }

  lemma {:induction false} SortedTexts(ms: Members<Value>)
    requires Sorted(ms) && NoUndefined(ms)
    ensures Sorted(MemberTexts(ms)) && (ms.Member? <==> MemberTexts(ms).Member?)
    ensures ms.Member? ==> MemberTexts(ms).key == ms.key
  {
    if ms.Member? {
      SortedTexts(ms.rest);
    }
  }

  /** The first member's text, and the others behind a comma. */
  lemma JoinedFirst(k: JsString, v: Value, rest: Members<Value>)
    requires !v.Undefined? && PlainName(k) && NoUndefined(rest)
    ensures Joined(MemberTexts(Member(k, v, rest))) ==
            Name(k) + StableText(v) + if rest.End? then [] else [0x2C] + Joined(MemberTexts(rest))
  {
    NameText(k);
    HasText(rest);
  }

  lemma HasText(ms: Members<Value>)
    requires NoUndefined(ms)
    ensures MemberTexts(ms).End? <==> ms.End?
  {
  }

  /** The members of the proposal in key order. */
  function OrderedProposal(c: Change): (ms: Members<Value>) {
    Member(Ascii("operation"), Str(c.operation),
    Member(Ascii("payload"), Payload(c),
    Member(Ascii("target"), Str(c.target), End)))
  }

  /** The members of the payload in key order; bindings come first, values last. */
  function OrderedPayload(c: Change): (ms: Members<Value>) {
    if c.resource.Bindings? then Member(Ascii("bindings"), c.patch, OrderedRest(c, End))
    else OrderedRest(c, Member(Ascii("values"), c.patch, End))
  }

  function OrderedRest(c: Change, last: Members<Value>): (ms: Members<Value>) {
    Member(Ascii("currentHash"), Str(c.currentHash),
    Member(Ascii("mode"), Str(if c.mode.MergeMode? then Ascii("merge") else Ascii("replace")),
    Member(Ascii("nextHash"), Str(c.nextHash),
    Member(Ascii("removePaths"), Arr(PathsValue(c.removePaths)), last))))
  }

  lemma NamesAre()
    ensures OPERATION == Ascii("operation") && TARGET == Ascii("target") && PAYLOAD == Ascii("payload")
    ensures MODE == Ascii("mode") && CURRENT_HASH == Ascii("currentHash") && NEXT_HASH == Ascii("nextHash")
    ensures REMOVE_PATHS == Ascii("removePaths") && VALUES == Ascii("values") && BINDINGS == Ascii("bindings")
    ensures ModeText(ConfigPlanner.MergeMode) == Ascii("merge")
    ensures ModeText(ConfigPlanner.ReplaceMode) == Ascii("replace")
  {
  }

  lemma FirstLetterDecides(a: JsString, b: JsString)
    requires a != [] && b != [] && a[0] < b[0]
    ensures Less(a, b)
  {
  }

  /** The names are in order, by their first letters. */
  lemma NamesInOrder()
    ensures Less(OPERATION, PAYLOAD) && Less(PAYLOAD, TARGET)
    ensures Less(BINDINGS, CURRENT_HASH) && Less(CURRENT_HASH, MODE) && Less(MODE, NEXT_HASH)
    ensures Less(NEXT_HASH, REMOVE_PATHS) && Less(REMOVE_PATHS, VALUES)
  {
    TextLengths();
    FirstLetterDecides(OPERATION, PAYLOAD);
    FirstLetterDecides(PAYLOAD, TARGET);
    FirstLetterDecides(BINDINGS, CURRENT_HASH);
    FirstLetterDecides(CURRENT_HASH, MODE);
    FirstLetterDecides(MODE, NEXT_HASH);
    FirstLetterDecides(NEXT_HASH, REMOVE_PATHS);
    FirstLetterDecides(REMOVE_PATHS, VALUES);
  }

  lemma PlainNames()
    ensures PlainName(OPERATION) && PlainName(PAYLOAD) && PlainName(TARGET)
    ensures PlainName(BINDINGS) && PlainName(CURRENT_HASH) && PlainName(MODE) && PlainName(NEXT_HASH)
    ensures PlainName(REMOVE_PATHS) && PlainName(VALUES)
  {
  }

  lemma ProposalOrdered(c: Change)
    requires WellFormed(c.patch)
    ensures Sorted(OrderedProposal(c)) && NoUndefined(OrderedProposal(c))
    ensures StableText(ProposalValue(c)) == StableText(Obj(OrderedProposal(c)))
  {
    NamesAre();
    NamesInOrder();
    ProposalWellFormed(c);
    var ms := OrderedProposal(c);
    var last := Member(TARGET, Str(c.target), End);
    assert Sorted(last) && Sorted(Member(PAYLOAD, Payload(c), last));
    assert NoUndefined(last) && NoUndefined(Member(PAYLOAD, Payload(c), last));
    SortedDistinct(ms);
    forall k ensures Find(ms, k) == Find(ProposalMembers(c), k) {
      FindInProposal(c, k);
      FindFirst(OPERATION, Str(c.operation), Member(PAYLOAD, Payload(c), last), k);
      FindFirst(PAYLOAD, Payload(c), last, k);
      FindFirst(TARGET, Str(c.target), End, k);
      KeysDiffer();
    }
    SameMembersSameText(ProposalMembers(c), ms);
  }

  /** Member order does not show in the text. */
  lemma SameMembersSameText(a: Members<Value>, b: Members<Value>)
    requires Distinct(a) && Distinct(b) && WellFormedMembers(a) && forall k :: Find(b, k) == Find(a, k)
    ensures StableText(Obj(a)) == StableText(Obj(b))
  {
    FoundWellFormed(a, b, b);
    forall k ensures Find(NormMembers(a), k) == Find(NormMembers(b), k) {
      FindNorm(a, k);
      FindNorm(b, k);
    }
    SameNormIffSameLookups(a, b);
    PrintAlikeIffSameNorm(Obj(a), Obj(b));
  }

  lemma {:induction false} FoundWellFormed(a: Members<Value>, b: Members<Value>, rest: Members<Value>)
    requires WellFormedMembers(a) && Distinct(rest) && forall k :: Has(rest, k) ==> Find(a, k) == Find(rest, k)
    ensures WellFormedMembers(rest)
    decreases rest
  {
    if rest.Member? {
      assert Has(rest, rest.key);
      WellFormedFind(a, rest.key);
      forall k | Has(rest.rest, k) ensures Find(a, k) == Find(rest.rest, k) {
        assert Has(rest, k);
      }
      FoundWellFormed(a, b, rest.rest);
    }
  }

  /** The hashed text of a proposal: {"operation":...,"payload":...,"target":...}. */
  lemma ProposalText(c: Change)
    requires WellFormed(c.patch)
    ensures StableText(ProposalValue(c)) ==
            [0x7B] + (Name(Ascii("operation")) + Quote(c.operation) + ([0x2C] +
            (Name(Ascii("payload")) + StableText(Payload(c)) + ([0x2C] +
            (Name(Ascii("target")) + Quote(c.target) + []))))) + [0x7D]
  {
    NamesAre();
    PlainNames();
    ProposalOrdered(c);
    InOrder(OrderedProposal(c));
    var last := Member(TARGET, Str(c.target), End);
    JoinedFirst(OPERATION, Str(c.operation), Member(PAYLOAD, Payload(c), last));
    JoinedFirst(PAYLOAD, Payload(c), last);
    JoinedFirst(TARGET, Str(c.target), End);
  }

  lemma RestOrdered(c: Change, last: Members<Value>)
    requires Sorted(last) && NoUndefined(last) && (last.Member? ==> last.key == VALUES)
    ensures Sorted(OrderedRest(c, last)) && NoUndefined(OrderedRest(c, last))
    ensures OrderedRest(c, last).key == CURRENT_HASH
    ensures forall k :: Find(OrderedRest(c, last), k) ==
              if k == CURRENT_HASH then Some(Str(c.currentHash)) else if k == MODE then Some(Str(ModeText(c.mode)))
              else if k == NEXT_HASH then Some(Str(c.nextHash))
              else if k == REMOVE_PATHS then Some(Arr(PathsValue(c.removePaths))) else Find(last, k)
  {
    NamesAre();
    NamesInOrder();
    var paths := Member(REMOVE_PATHS, Arr(PathsValue(c.removePaths)), last);
    var next := Member(NEXT_HASH, Str(c.nextHash), paths);
    var mode := Member(MODE, Str(ModeText(c.mode)), next);
    assert Sorted(paths) && Sorted(next) && Sorted(mode);
    assert NoUndefined(paths) && NoUndefined(next) && NoUndefined(mode);
    forall k ensures Find(OrderedRest(c, last), k) ==
              if k == CURRENT_HASH then Some(Str(c.currentHash)) else if k == MODE then Some(Str(ModeText(c.mode)))
              else if k == NEXT_HASH then Some(Str(c.nextHash))
              else if k == REMOVE_PATHS then Some(Arr(PathsValue(c.removePaths))) else Find(last, k)
    {
      FindFirst(CURRENT_HASH, Str(c.currentHash), mode, k);
      FindFirst(MODE, Str(ModeText(c.mode)), next, k);
      FindFirst(NEXT_HASH, Str(c.nextHash), paths, k);
      FindFirst(REMOVE_PATHS, Arr(PathsValue(c.removePaths)), last, k);
    }
  }

  lemma PayloadOrdered(c: Change)
    requires WellFormed(c.patch) && !c.patch.Undefined?
    ensures Sorted(OrderedPayload(c)) && NoUndefined(OrderedPayload(c))
    ensures StableText(Payload(c)) == StableText(Obj(OrderedPayload(c)))
  {
    NamesAre();
    NamesInOrder();
    KeysDiffer();
    PayloadWellFormed(c);
    var ms := OrderedPayload(c);
    var last: Members<Value> := if c.resource.Bindings? then End else Member(VALUES, c.patch, End);
    RestOrdered(c, last);
    SortedDistinct(ms);
    forall k ensures Find(ms, k) == Find(PayloadMembers(c), k) {
      FindInPayload(c, k);
      FindInPatch(c, k);
      FindFirst(VALUES, c.patch, End, k);
      FindFirst(BINDINGS, c.patch, OrderedRest(c, End), k);
    }
    SameMembersSameText(PayloadMembers(c), ms);
  }

  /** The text of what both kinds of payload have, and of what follows it. */
  lemma RestText(c: Change, last: Members<Value>)
    requires NoUndefined(last)
    ensures NoUndefined(OrderedRest(c, last))
    ensures Joined(MemberTexts(OrderedRest(c, last))) ==
            Name(Ascii("currentHash")) + Quote(c.currentHash) + ([0x2C] +
            (Name(Ascii("mode")) + Quote(if c.mode.MergeMode? then Ascii("merge") else Ascii("replace")) + ([0x2C] +
            (Name(Ascii("nextHash")) + Quote(c.nextHash) + ([0x2C] +
            (Name(Ascii("removePaths")) + StableText(Arr(PathsValue(c.removePaths))) +
            if last.End? then [] else [0x2C] + Joined(MemberTexts(last))))))))
  {
    NamesAre();
    PlainNames();
    var paths := Member(REMOVE_PATHS, Arr(PathsValue(c.removePaths)), last);
    var next := Member(NEXT_HASH, Str(c.nextHash), paths);
    var mode := Member(MODE, Str(ModeText(c.mode)), next);
    JoinedFirst(CURRENT_HASH, Str(c.currentHash), mode);
    JoinedFirst(MODE, Str(ModeText(c.mode)), next);
    JoinedFirst(NEXT_HASH, Str(c.nextHash), paths);
    JoinedFirst(REMOVE_PATHS, Arr(PathsValue(c.removePaths)), last);
  }

  /**
   The text of a payload: {"bindings":...,"currentHash":...,"mode":...,"nextHash":...,"removePaths":...}, or with
   "values" at the end instead of "bindings" at the start.
   */
  lemma PayloadText(c: Change)
    requires WellFormed(c.patch) && !c.patch.Undefined?
    ensures var last: Members<Value> := if c.resource.Bindings? then End else Member(Ascii("values"), c.patch, End);
            var rest := Joined(MemberTexts(OrderedRest(c, last)));
            StableText(Payload(c)) ==
              [0x7B] + (if c.resource.Bindings? then Name(Ascii("bindings")) + StableText(c.patch) + ([0x2C] + rest)
                        else rest) + [0x7D]
    ensures c.resource.Parameters? ==>
              Joined(MemberTexts(Member(Ascii("values"), c.patch, End))) ==
              Name(Ascii("values")) + StableText(c.patch) + []
  {
    NamesAre();
    PlainNames();
    PayloadOrdered(c);
    InOrder(OrderedPayload(c));
    if c.resource.Bindings? {
      RestText(c, End);
      JoinedFirst(BINDINGS, c.patch, OrderedRest(c, End));
    } else {
      JoinedFirst(VALUES, c.patch, End);
    }
  }
}

/**
 Planning bindings: which slots are proposed, what the next bindings and the patch look like, and
 when the patch, applied later, is the change that was proposed.
 */
module BindingPlanner {
  import opened Wrappers
  import opened JsText
  import opened JsonTree
  import opened CanonicalJson
  import opened ConfigPlanner
  import opened WriteApproval

  datatype Kind = Actions | Events

  datatype Slot = Slot(kind: Kind, name: JsString)

  datatype Proposal = Proposal(slot: Slot, node: JsString, target: JsString)

  const ACTIONS := Ascii("actions")
  const EVENTS := Ascii("events")
  const NODE := Ascii("node")
  const ACTION := Ascii("action")
  const EVENT := Ascii("event")
  const PROPERTIES := Ascii("properties")

  function Key(kind: Kind): (k: JsString) {
    if kind == Actions then ACTIONS else EVENTS
  }

  function Field(kind: Kind): (k: JsString) {
    if kind == Actions then ACTION else EVENT
  }

  /******* Reading the inputs *******/

  function Record(v: Value): (ms: Members<Value>) {
    if v.Obj? then v.members else End
  }

  /** The binding names a schema offers for one kind, in schema order. */
  function SchemaNames(schema: Value, kind: Kind): (names: seq<JsString>) {
    KeyOrder(Record(Get(Record(Get(Record(Get(Record(schema), PROPERTIES)), Key(kind))), PROPERTIES)))
  }

  datatype Kinds = OnlyActions | OnlyEvents | BothKinds

  function RequestedKinds(kinds: Kinds): (r: seq<Kind>) {
    match kinds
    case OnlyActions => [Actions]
    case OnlyEvents => [Events]
    case BothKinds => [Actions, Events]
  }

  /** What the caller asks for. */
  datatype Options = Options(kinds: Kinds, names: seq<JsString>, overwrite: bool, minScore: int)

  datatype Match = Match(node: JsString, target: JsString, score: int)

  /** The source node's schema, how names are normalised, and the scored matches of a slot as they are found. */
  datatype Offer = Offer(schema: Value, normalize: JsString -> JsString, scored: Slot -> seq<Match>)

  /** Planning over candidate nodes, with an ambiguity margin, or over one target node. */
  datatype Planner = Contextual(margin: int) | Direct

  datatype Request = Request(planner: Planner, options: Options, offer: Offer)

  /** Without names every binding is requested. */
  predicate Requested(options: Options, offer: Offer, name: JsString) {
    options.names == [] || NamedAmong(options.names, offer, offer.normalize(name))
  }

  predicate NamedAmong(names: seq<JsString>, offer: Offer, normal: JsString) {
    names != [] && (offer.normalize(names[0]) == normal || NamedAmong(names[1..], offer, normal))
  }

  /** The source's bindings of both kinds. */
  datatype Listing = Listing(actions: seq<JsString>, events: seq<JsString>)

  function NamesOf(listing: Listing, kind: Kind): (names: seq<JsString>) {
    if kind == Actions then listing.actions else listing.events
  }

  function SchemaListing(schema: Value): (listing: Listing) {
    Listing(SchemaNames(schema, Actions), SchemaNames(schema, Events))
  }

  /** A JSON copy of the bindings in which both groups are records. */
  function Normalized(current: Value): (ms: Members<Value>) {
    var copy := if current.Obj? then CloneMembers(current.members) else End;
    var withActions := Put(copy, ACTIONS, Obj(Record(Get(copy, ACTIONS))));
    Put(withActions, EVENTS, Obj(Record(Get(withActions, EVENTS))))
  }

  function Group(ms: Members<Value>, kind: Kind): (group: Members<Value>) {
    Record(Get(ms, Key(kind)))
  }

  predicate NonEmptyText(v: Value) {
    v.Str? && v.s != []
  }

  /** The slot is bound: it holds a record that names a node or a target. */
  predicate Bound(ms: Members<Value>, slot: Slot) {
    var v := Get(Group(ms, slot.kind), slot.name);
    v.Obj? && (NonEmptyText(Get(v.members, NODE)) || NonEmptyText(Get(v.members, Field(slot.kind))))
  }

  /******* Deciding one slot *******/

  datatype Verdict = Skipped | Unresolved | Ambiguous | Proposed(node: JsString, target: JsString)

  datatype Outcome = Proposing | Skipping | ReportingAmbiguous | ReportingUnresolved

  function OutcomeOf(v: Verdict): (o: Outcome) {
    match v
    case Proposed(_, _) => Proposing
    case Skipped => Skipping
    case Ambiguous => ReportingAmbiguous
    case Unresolved => ReportingUnresolved
  }

  function InsertByScore(m: Match, ms: seq<Match>): (r: seq<Match>) {
    if ms == [] || ms[0].score <= m.score then [m] + ms else [ms[0]] + InsertByScore(m, ms[1..])
  }

  /** Best first; matches of the same score keep their order. */
  function SortByScore(ms: seq<Match>): (r: seq<Match>) {
    if ms == [] then [] else InsertByScore(ms[0], SortByScore(ms[1..]))
  }

  function AtLeast(matches: seq<Match>, minScore: int): (r: seq<Match>) {
    if matches == [] then []
    else (if matches[0].score >= minScore then [matches[0]] else []) + AtLeast(matches[1..], minScore)
  }

  function ContextVerdict(options: Options, margin: int, ranked: seq<Match>): (v: Verdict) {
    var matches := AtLeast(ranked, options.minScore);
    if matches == [] then Unresolved
    else if |matches| > 1 && matches[0].score - matches[1].score <= margin then Ambiguous
    else Proposed(matches[0].node, matches[0].target)
  }

  function DirectVerdict(options: Options, ranked: seq<Match>): (v: Verdict) {
    if ranked == [] || ranked[0].score < options.minScore then Unresolved
    else Proposed(ranked[0].node, ranked[0].target)
  }

  function Decide(r: Request, bindings: Members<Value>, slot: Slot): (v: Verdict) {
    if Bound(bindings, slot) && !r.options.overwrite then Skipped
    else
      var ranked := SortByScore(r.offer.scored(slot));
      if r.planner.Contextual? then ContextVerdict(r.options, r.planner.margin, ranked)
      else DirectVerdict(r.options, ranked)
  }

  /******* The plan *******/

  function SlotValue(p: Proposal): (v: Value) {
    Obj(Member(NODE, Str(p.node), Member(Field(p.slot.kind), Str(p.target), End)))
  }

  /** Writing one slot, with its group made a record first. */
  function WriteSlot(ms: Members<Value>, p: Proposal): (r: Members<Value>) {
    Put(ms, Key(p.slot.kind), Obj(Put(Group(ms, p.slot.kind), p.slot.name, SlotValue(p))))
  }

  function WriteSlots(ms: Members<Value>, ps: seq<Proposal>): (r: Members<Value>) {
    if ps == [] then ms else WriteSlot(WriteSlots(ms, ps[..|ps| - 1]), ps[|ps| - 1])
  }

  /** The lists and the next bindings as they grow, slot by slot. */
  datatype Draft = Draft(next: Members<Value>, proposals: seq<Proposal>,
                         skipped: seq<Slot>, ambiguous: seq<Slot>, unresolved: seq<Slot>)

  function Listed(d: Draft, slot: Slot, v: Verdict): (r: Draft) {
    match v
    case Skipped => d.(skipped := d.skipped + [slot])
    case Ambiguous => d.(ambiguous := d.ambiguous + [slot])
    case Unresolved => d.(unresolved := d.unresolved + [slot])
    case Proposed(node, target) =>
      var p := Proposal(slot, node, target);
      d.(next := WriteSlot(d.next, p), proposals := d.proposals + [p])
  }

  /** Only a requested slot is looked at. */
  function Considered(r: Request, bindings: Members<Value>, d: Draft, slot: Slot): (next: Draft) {
    if Requested(r.options, r.offer, slot.name) then Listed(d, slot, Decide(r, bindings, slot)) else d
  }

  /** The draft after the first n names of a kind. */
  function AfterNames(r: Request, bindings: Members<Value>, kind: Kind, names: seq<JsString>, n: nat,
                      d: Draft): (next: Draft)
    requires n <= |names|
  {
    if n == 0 then d
    else Considered(r, bindings, AfterNames(r, bindings, kind, names, n - 1, d), Slot(kind, names[n - 1]))
  }

  /** The draft after the first n kinds. */
  function AfterKinds(r: Request, bindings: Members<Value>, listing: Listing, kinds: seq<Kind>, n: nat): (next: Draft)
    requires n <= |kinds|
  {
    if n == 0 then Draft(bindings, [], [], [], [])
    else
      var names := NamesOf(listing, kinds[n - 1]);
      AfterNames(r, bindings, kinds[n - 1], names, |names|, AfterKinds(r, bindings, listing, kinds, n - 1))
  }

  function DraftOf(r: Request, bindings: Members<Value>, listing: Listing): (d: Draft) {
    var kinds := RequestedKinds(r.options.kinds);
    AfterKinds(r, bindings, listing, kinds, |kinds|)
  }

  datatype BindingPlan = BindingPlan(
    proposals: seq<Proposal>, skipped: seq<Slot>, ambiguous: seq<Slot>, unresolved: seq<Slot>,
    patch: Value, next: Value)

  function PlanOf(current: Value, r: Request): (plan: BindingPlan) {
    var d := DraftOf(r, Normalized(current), SchemaListing(r.offer.schema));
    BindingPlan(d.proposals, d.skipped, d.ambiguous, d.unresolved, Obj(WriteSlots(End, d.proposals)), Obj(d.next))
  }

  /** The contextual planning loops. */
  method ContextDraft(bindings: Members<Value>, listing: Listing, options: Options, margin: int, offer: Offer)
    returns (draft: Draft)
    ensures draft == DraftOf(Request(Contextual(margin), options, offer), bindings, listing)
  {
    ghost var r := Request(Contextual(margin), options, offer);
    var kinds := RequestedKinds(options.kinds);
    draft := Draft(bindings, [], [], [], []);
    for i := 0 to |kinds|
      invariant draft == AfterKinds(r, bindings, listing, kinds, i)
    {
      var names := NamesOf(listing, kinds[i]);
      ghost var before := draft;
      for j := 0 to |names|
        invariant draft == AfterNames(r, bindings, kinds[i], names, j, before)
      {
        if !Requested(options, offer, names[j]) {
          continue;
        }
        var slot := Slot(kinds[i], names[j]);
        ghost var verdict := Decide(r, bindings, slot);
        if Bound(bindings, slot) && !options.overwrite {
          assert verdict == Skipped;
          draft := draft.(skipped := draft.skipped + [slot]);
          continue;
        }
        var matches := AtLeast(SortByScore(offer.scored(slot)), options.minScore);
        if matches == [] {
          assert verdict == Unresolved;
          draft := draft.(unresolved := draft.unresolved + [slot]);
          continue;
        }
        if |matches| > 1 && matches[0].score - matches[1].score <= margin {
          assert verdict == Ambiguous;
          draft := draft.(ambiguous := draft.ambiguous + [slot]);
          continue;
        }
        var p := Proposal(slot, matches[0].node, matches[0].target);
        assert verdict == Proposed(p.node, p.target);
        draft := draft.(next := WriteSlot(draft.next, p), proposals := draft.proposals + [p]);
      }
    }
  }

  /** The direct planning loops: one target node, and nothing is ambiguous. */
  method DirectDraft(bindings: Members<Value>, listing: Listing, options: Options, offer: Offer) returns (draft: Draft)
    ensures draft == DraftOf(Request(Direct, options, offer), bindings, listing)
  {
    ghost var r := Request(Direct, options, offer);
    var kinds := RequestedKinds(options.kinds);
    draft := Draft(bindings, [], [], [], []);
    for i := 0 to |kinds|
      invariant draft == AfterKinds(r, bindings, listing, kinds, i)
    {
      var names := NamesOf(listing, kinds[i]);
      ghost var before := draft;
      for j := 0 to |names|
        invariant draft == AfterNames(r, bindings, kinds[i], names, j, before)
      {
        if !Requested(options, offer, names[j]) {
          continue;
        }
        var slot := Slot(kinds[i], names[j]);
        ghost var verdict := Decide(r, bindings, slot);
        if Bound(bindings, slot) && !options.overwrite {
          assert verdict == Skipped;
          draft := draft.(skipped := draft.skipped + [slot]);
          continue;
        }
        var ranked := SortByScore(offer.scored(slot));
        if ranked == [] || ranked[0].score < options.minScore {
          assert verdict == Unresolved;
          draft := draft.(unresolved := draft.unresolved + [slot]);
          continue;
        }
        var p := Proposal(slot, ranked[0].node, ranked[0].target);
        assert verdict == Proposed(p.node, p.target);
        draft := draft.(next := WriteSlot(draft.next, p), proposals := draft.proposals + [p]);
      }
    }
  }

  /** The contextual plan; the patch is filled from the proposals once the loops are done. */
  method BuildContextBindingPlan(current: Value, options: Options, margin: int, offer: Offer)
    returns (plan: BindingPlan)
    ensures plan == PlanOf(current, Request(Contextual(margin), options, offer))
  {
    var bindings := Normalized(current);
    var draft := ContextDraft(bindings, SchemaListing(offer.schema), options, margin, offer);
    var patch := PatchFromProposals(draft.proposals);
    plan := BindingPlan(draft.proposals, draft.skipped, draft.ambiguous, draft.unresolved, Obj(patch), Obj(draft.next));
  }

  method BuildDirectBindingPlan(current: Value, options: Options, offer: Offer) returns (plan: BindingPlan)
    ensures plan == PlanOf(current, Request(Direct, options, offer))
  {
    var bindings := Normalized(current);
    var draft := DirectDraft(bindings, SchemaListing(offer.schema), options, offer);
    var patch := PatchFromProposals(draft.proposals);
    plan := BindingPlan(draft.proposals, draft.skipped, draft.ambiguous, draft.unresolved, Obj(patch), Obj(draft.next));
  }

  method PatchFromProposals(proposals: seq<Proposal>) returns (patch: Members<Value>)
    ensures patch == WriteSlots(End, proposals)
  {
    patch := End;
    for i := 0 to |proposals|
      invariant patch == WriteSlots(End, proposals[..i])
    {
      assert proposals[..i + 1] == proposals[..i] + [proposals[i]];
      WriteOneMore(End, proposals[..i], proposals[i]);
      patch := WriteSlot(patch, proposals[i]);
    }
    assert proposals[..|proposals|] == proposals;
  }

  lemma WriteOneMore(ms: Members<Value>, ps: seq<Proposal>, p: Proposal)
    ensures WriteSlots(ms, ps + [p]) == WriteSlot(WriteSlots(ms, ps), p)
  {
    assert (ps + [p])[..|ps|] == ps;
  }

  /******* What the verdicts mean *******/

  ghost predicate Descending(ms: seq<Match>) {
    forall i, j :: 0 <= i < j < |ms| ==> ms[i].score >= ms[j].score
  }

  lemma {:induction false} InsertByScoreKeeps(m: Match, ms: seq<Match>)
    ensures multiset(InsertByScore(m, ms)) == multiset(ms) + multiset{m}
  {
    if ms != [] && ms[0].score > m.score {
      assert ms == [ms[0]] + ms[1..];
      InsertByScoreKeeps(m, ms[1..]);
    }
  }

  lemma InsertByScoreMembers(m: Match, ms: seq<Match>)
    ensures forall x :: x in InsertByScore(m, ms) ==> x == m || x in ms
  {
    InsertByScoreKeeps(m, ms);
    forall x | x in InsertByScore(m, ms) ensures x == m || x in ms {
      assert x in multiset(InsertByScore(m, ms));
    }
  }

  lemma HeadDescending(head: Match, rest: seq<Match>)
    requires Descending(rest) && forall x :: x in rest ==> head.score >= x.score
    ensures Descending([head] + rest)
  {
  }

  lemma {:induction false} InsertByScoreSorted(m: Match, ms: seq<Match>)
    requires Descending(ms)
    ensures Descending(InsertByScore(m, ms))
  {
    if ms == [] || ms[0].score <= m.score {
      HeadDescending(m, ms);
    } else {
      assert Descending(ms[1..]) && forall x :: x in ms[1..] ==> ms[0].score >= x.score;
      InsertByScoreSorted(m, ms[1..]);
      InsertByScoreMembers(m, ms[1..]);
      HeadDescending(ms[0], InsertByScore(m, ms[1..]));
    }
  }

  lemma {:induction false} SortByScoreSorted(ms: seq<Match>)
    ensures Descending(SortByScore(ms)) && multiset(SortByScore(ms)) == multiset(ms)
  {
    if ms != [] {
      assert ms == [ms[0]] + ms[1..];
      SortByScoreSorted(ms[1..]);
      InsertByScoreKeeps(ms[0], SortByScore(ms[1..]));
      InsertByScoreSorted(ms[0], SortByScore(ms[1..]));
    }
  }

  /** The first of the matches with the highest score. */
  ghost predicate FirstBest(ms: seq<Match>, i: nat) {
    i < |ms| && forall j :: 0 <= j < |ms| ==> ms[j].score <= ms[i].score && (j < i ==> ms[j].score < ms[i].score)
  }

  lemma {:induction false} SortPutsFirstBestFirst(ms: seq<Match>) returns (i: nat)
    requires ms != []
    ensures FirstBest(ms, i) && SortByScore(ms) != [] && SortByScore(ms)[0] == ms[i]
  {
    if |ms| == 1 {
      i := 0;
    } else {
      var k := SortPutsFirstBestFirst(ms[1..]);
      i := if ms[1..][k].score <= ms[0].score then 0 else k + 1;
      forall j | 0 <= j < |ms| ensures ms[j].score <= ms[i].score && (j < i ==> ms[j].score < ms[i].score) {
        if j > 0 {
          assert ms[j] == ms[1..][j - 1];
        }
      }
    }
  }

  lemma {:induction false} NoneAtLeast(ms: seq<Match>, minScore: int)
    requires Descending(ms) && (ms != [] ==> ms[0].score < minScore)
    ensures AtLeast(ms, minScore) == []
  {
    if ms != [] {
      assert Descending(ms[1..]);
      NoneAtLeast(ms[1..], minScore);
    }
  }

  /** The two leading matches are what the filter leaves to compare. */
  lemma AtLeastLeaders(ms: seq<Match>, minScore: int)
    requires Descending(ms)
    ensures var kept := AtLeast(ms, minScore);
            (kept == [] <==> ms == [] || ms[0].score < minScore) && (kept != [] ==> kept[0] == ms[0]) &&
            (|kept| > 1 <==> |ms| > 1 && ms[1].score >= minScore) && (|kept| > 1 ==> kept[1] == ms[1])
  {
    if ms == [] || ms[0].score < minScore {
      NoneAtLeast(ms, minScore);
    } else if |ms| > 1 {
      assert Descending(ms[1..]);
      if ms[1].score < minScore {
        NoneAtLeast(ms[1..], minScore);
      }
    }
  }

  ghost predicate Reaches(ms: seq<Match>, minScore: int) {
    exists m :: m in ms && m.score >= minScore
  }

  ghost predicate Highest(ms: seq<Match>, a: Match) {
    a in ms && forall m :: m in ms ==> m.score <= a.score
  }

  /** Besides a best match there is another one of at least the minimum within the margin. */
  ghost predicate Close(ms: seq<Match>, minScore: int, margin: int) {
    exists a, b ::
      multiset{a, b} <= multiset(ms) && Highest(ms, a) && b.score >= minScore && a.score - b.score <= margin
  }

  lemma LeadersAreClose(ms: seq<Match>, minScore: int, margin: int)
    requires Descending(ms) && |ms| > 1 && ms[1].score >= minScore && ms[0].score - ms[1].score <= margin
    ensures Close(ms, minScore, margin)
  {
    assert ms == [ms[0], ms[1]] + ms[2..];
    assert multiset{ms[0], ms[1]} <= multiset(ms);
    assert Highest(ms, ms[0]);
  }

  lemma CloseByLeaders(ms: seq<Match>, minScore: int, margin: int)
    requires Descending(ms)
    ensures Close(ms, minScore, margin) <==>
            |ms| > 1 && ms[1].score >= minScore && ms[0].score - ms[1].score <= margin
  {
    if |ms| > 1 && ms[1].score >= minScore && ms[0].score - ms[1].score <= margin {
      LeadersAreClose(ms, minScore, margin);
    }
    if Close(ms, minScore, margin) {
      var a, b :|
        multiset{a, b} <= multiset(ms) && Highest(ms, a) && b.score >= minScore && a.score - b.score <= margin;
      SecondOfTwo(ms, a, b);
    }
  }

  lemma SecondOfTwo(ms: seq<Match>, a: Match, b: Match)
    requires Descending(ms) && multiset{a, b} <= multiset(ms) && Highest(ms, a)
    ensures |ms| > 1 && ms[0].score == a.score && ms[1].score >= b.score
  {
    assert a in multiset{a, b} && b in multiset{a, b};
    assert a in ms && b in ms;
    assert ms == [ms[0]] + ms[1..];
    assert multiset(ms) == multiset{ms[0]} + multiset(ms[1..]);
    var other := if b in ms[1..] then b else a;
    assert other in ms[1..] by {
      if b !in ms[1..] {
        assert b !in multiset(ms[1..]);
        assert b == ms[0];
        assert multiset{a, b}[a] <= multiset(ms)[a];
        assert a in multiset(ms[1..]);
      }
    }
    var j :| 0 <= j < |ms[1..]| && ms[1..][j] == other;
    assert ms[j + 1] == other;
  }

  lemma SameMatches(ms: seq<Match>, sorted: seq<Match>, minScore: int, margin: int)
    requires multiset(sorted) == multiset(ms)
    ensures Reaches(ms, minScore) <==> Reaches(sorted, minScore)
    ensures Close(ms, minScore, margin) <==> Close(sorted, minScore, margin)
  {
    forall m ensures m in ms <==> m in sorted {
      assert m in ms <==> m in multiset(ms);
      assert m in sorted <==> m in multiset(sorted);
    }
    assert forall a :: Highest(ms, a) <==> Highest(sorted, a);
  }

  /** A planner other than the contextual one calls nothing ambiguous. */
  ghost predicate Contested(r: Request, slot: Slot) {
    r.planner.Contextual? && Close(r.offer.scored(slot), r.options.minScore, r.planner.margin)
  }

  predicate Kept(r: Request, bindings: Members<Value>, slot: Slot) {
    Bound(bindings, slot) && !r.options.overwrite
  }

  lemma LeaderReaches(ms: seq<Match>, minScore: int)
    requires Descending(ms)
    ensures Reaches(ms, minScore) <==> ms != [] && ms[0].score >= minScore
  {
    if ms != [] && ms[0].score >= minScore {
      assert ms[0] in ms;
    }
  }

  lemma ContextMeaning(options: Options, margin: int, ranked: seq<Match>)
    requires Descending(ranked)
    ensures OutcomeOf(ContextVerdict(options, margin, ranked)) ==
            if !Reaches(ranked, options.minScore) then ReportingUnresolved
            else if Close(ranked, options.minScore, margin) then ReportingAmbiguous
            else Proposing
  {
    LeaderReaches(ranked, options.minScore);
    AtLeastLeaders(ranked, options.minScore);
    CloseByLeaders(ranked, options.minScore, margin);
  }

  lemma DirectMeaning(options: Options, ranked: seq<Match>)
    requires Descending(ranked)
    ensures OutcomeOf(DirectVerdict(options, ranked)) ==
            if !Reaches(ranked, options.minScore) then ReportingUnresolved else Proposing
  {
    LeaderReaches(ranked, options.minScore);
  }

  /** The verdict on a slot, from its matches in whatever order they were found. */
  lemma VerdictMeaning(r: Request, bindings: Members<Value>, slot: Slot)
    ensures OutcomeOf(Decide(r, bindings, slot)) ==
            if Kept(r, bindings, slot) then Skipping
            else if !Reaches(r.offer.scored(slot), r.options.minScore) then ReportingUnresolved
            else if Contested(r, slot) then ReportingAmbiguous
            else Proposing
  {
    var ms := r.offer.scored(slot);
    var ranked := SortByScore(ms);
    SortByScoreSorted(ms);
    if r.planner.Contextual? {
      SameMatches(ms, ranked, r.options.minScore, r.planner.margin);
      ContextMeaning(r.options, r.planner.margin, ranked);
    } else {
      SameMatches(ms, ranked, r.options.minScore, 0);
      DirectMeaning(r.options, ranked);
    }
  }

  /** A proposal names the first of the best matches, which reaches the minimum. */
  lemma ProposedIsFirstBest(r: Request, bindings: Members<Value>, slot: Slot) returns (i: nat)
    requires Decide(r, bindings, slot).Proposed?
    ensures var ms, v := r.offer.scored(slot), Decide(r, bindings, slot);
            FirstBest(ms, i) && ms[i].score >= r.options.minScore && v.node == ms[i].node && v.target == ms[i].target
  {
    var ms := r.offer.scored(slot);
    SortByScoreSorted(ms);
    AtLeastLeaders(SortByScore(ms), r.options.minScore);
    i := SortPutsFirstBestFirst(ms);
  }

  /******* Every requested slot lands in exactly one list *******/

  /** The slot is one of the source's bindings, of a requested kind, under a requested name. */
  predicate Wants(r: Request, slot: Slot) {
    slot.kind in RequestedKinds(r.options.kinds) && slot.name in SchemaNames(r.offer.schema, slot.kind) &&
    Requested(r.options, r.offer, slot.name)
  }

  lemma {:induction false} KeyOrderOnce<T>(ms: Members<T>, k: JsString)
    requires Distinct(ms)
    ensures multiset(KeyOrder(ms))[k] == if k in KeyOrder(ms) then 1 else 0
  {
    if ms.Member? {
      KeyOrderOnce(ms.rest, k);
      KeyOrderHas(ms.rest, ms.key);
    }
  }

  lemma RecordDistinct(v: Value, k: JsString)
    requires WellFormed(v)
    ensures WellFormed(Get(Record(v), k)) && Distinct(Record(v))
  {
    if Has(Record(v), k) {
      WellFormedFind(Record(v), k);
    }
  }

  lemma SchemaNamesOnce(schema: Value, kind: Kind, name: JsString)
    requires WellFormed(schema)
    ensures multiset(SchemaNames(schema, kind))[name] == if name in SchemaNames(schema, kind) then 1 else 0
  {
    RecordDistinct(schema, PROPERTIES);
    var properties := Get(Record(schema), PROPERTIES);
    RecordDistinct(properties, Key(kind));
    var group := Get(Record(properties), Key(kind));
    RecordDistinct(group, PROPERTIES);
    RecordDistinct(Get(Record(group), PROPERTIES), []);
    KeyOrderOnce(Record(Get(Record(group), PROPERTIES)), name);
  }

  function ProposedSlots(ps: seq<Proposal>): (r: seq<Slot>) {
    if ps == [] then [] else ProposedSlots(ps[..|ps| - 1]) + [ps[|ps| - 1].slot]
  }

  lemma ProposedSlotsOneMore(ps: seq<Proposal>, p: Proposal)
    ensures ProposedSlots(ps + [p]) == ProposedSlots(ps) + [p.slot]
  {
    assert (ps + [p])[..|ps|] == ps;
  }

  function ListOf(d: Draft, o: Outcome): (slots: seq<Slot>) {
    match o
    case Proposing => ProposedSlots(d.proposals)
    case Skipping => d.skipped
    case ReportingAmbiguous => d.ambiguous
    case ReportingUnresolved => d.unresolved
  }

  /** How often a slot stands in a list of the draft. */
  function Tally(d: Draft, o: Outcome, slot: Slot): (n: nat) {
    multiset(ListOf(d, o))[slot]
  }

  lemma TallyListed(d: Draft, s: Slot, v: Verdict, o: Outcome, slot: Slot)
    ensures Tally(Listed(d, s, v), o, slot) == Tally(d, o, slot) + if OutcomeOf(v) == o && s == slot then 1 else 0
  {
    if v.Proposed? {
      ProposedSlotsOneMore(d.proposals, Proposal(s, v.node, v.target));
    }
  }

  lemma TallyConsidered(r: Request, bindings: Members<Value>, d: Draft, s: Slot, o: Outcome, slot: Slot)
    ensures Tally(Considered(r, bindings, d, s), o, slot) ==
            Tally(d, o, slot) +
            if s == slot && Requested(r.options, r.offer, slot.name) && OutcomeOf(Decide(r, bindings, slot)) == o
            then 1 else 0
  {
    TallyListed(d, s, Decide(r, bindings, s), o, slot);
  }

  /** How often a name is among the first n. */
  function Times(names: seq<JsString>, n: nat, name: JsString): (count: nat)
    requires n <= |names|
  {
    if n == 0 then 0 else Times(names, n - 1, name) + if names[n - 1] == name then 1 else 0
  }

  lemma {:induction false} TimesCounts(names: seq<JsString>, n: nat, name: JsString)
    requires n <= |names|
    ensures Times(names, n, name) == multiset(names[..n])[name]
  {
    if n > 0 {
      TimesCounts(names, n - 1, name);
      assert names[..n] == names[..n - 1] + [names[n - 1]];
    }
  }

  lemma {:induction false} TallyNames(r: Request, bindings: Members<Value>, kind: Kind, names: seq<JsString>, n: nat,
                                      d: Draft, o: Outcome, slot: Slot)
    requires n <= |names|
    ensures Tally(AfterNames(r, bindings, kind, names, n, d), o, slot) ==
            Tally(d, o, slot) +
            if slot.kind == kind && Requested(r.options, r.offer, slot.name) &&
               OutcomeOf(Decide(r, bindings, slot)) == o
            then Times(names, n, slot.name) else 0
  {
    if n > 0 {
      TallyNames(r, bindings, kind, names, n - 1, d, o, slot);
      TallyConsidered(r, bindings, AfterNames(r, bindings, kind, names, n - 1, d), Slot(kind, names[n - 1]), o, slot);
    }
  }

  /** How often the slot is looked at and decided that way. */
  function Share(r: Request, bindings: Members<Value>, listing: Listing, o: Outcome, slot: Slot): (n: nat) {
    var names := NamesOf(listing, slot.kind);
    if slot.kind in RequestedKinds(r.options.kinds) && Requested(r.options, r.offer, slot.name) &&
       OutcomeOf(Decide(r, bindings, slot)) == o
    then Times(names, |names|, slot.name) else 0
  }

  lemma TallyKind(r: Request, bindings: Members<Value>, listing: Listing, kinds: seq<Kind>, i: nat, o: Outcome,
                  slot: Slot)
    requires i < |kinds|
    ensures var names := NamesOf(listing, slot.kind);
            Tally(AfterKinds(r, bindings, listing, kinds, i + 1), o, slot) ==
            Tally(AfterKinds(r, bindings, listing, kinds, i), o, slot) +
            if slot.kind == kinds[i] && Requested(r.options, r.offer, slot.name) &&
               OutcomeOf(Decide(r, bindings, slot)) == o
            then Times(names, |names|, slot.name) else 0
  {
    var names := NamesOf(listing, kinds[i]);
    TallyNames(r, bindings, kinds[i], names, |names|, AfterKinds(r, bindings, listing, kinds, i), o, slot);
  }

  lemma TallyOfKinds(r: Request, bindings: Members<Value>, listing: Listing, kinds: seq<Kind>, o: Outcome, slot: Slot)
    requires kinds == [Actions] || kinds == [Events] || kinds == [Actions, Events]
    ensures var names := NamesOf(listing, slot.kind);
            Tally(AfterKinds(r, bindings, listing, kinds, |kinds|), o, slot) ==
            if slot.kind in kinds && Requested(r.options, r.offer, slot.name) &&
               OutcomeOf(Decide(r, bindings, slot)) == o
            then Times(names, |names|, slot.name) else 0
  {
    assert Tally(AfterKinds(r, bindings, listing, kinds, 0), o, slot) == 0;
    TallyKind(r, bindings, listing, kinds, 0, o, slot);
    if |kinds| == 2 {
      TallyKind(r, bindings, listing, kinds, 1, o, slot);
    }
  }

  lemma TallyOfDraft(r: Request, bindings: Members<Value>, listing: Listing, o: Outcome, slot: Slot)
    ensures Tally(DraftOf(r, bindings, listing), o, slot) == Share(r, bindings, listing, o, slot)
  {
    TallyOfKinds(r, bindings, listing, RequestedKinds(r.options.kinds), o, slot);
  }

  /** With distinct members in the schema, a wanted slot is looked at exactly once. */
  lemma ShareOfWanted(r: Request, bindings: Members<Value>, o: Outcome, slot: Slot)
    requires WellFormed(r.offer.schema)
    ensures Share(r, bindings, SchemaListing(r.offer.schema), o, slot) ==
            if Wants(r, slot) && OutcomeOf(Decide(r, bindings, slot)) == o then 1 else 0
  {
    var names := SchemaNames(r.offer.schema, slot.kind);
    SchemaNamesOnce(r.offer.schema, slot.kind, slot.name);
    TimesCounts(names, |names|, slot.name);
    assert names[..|names|] == names;
  }

  /**
   Every requested slot is listed exactly once, and any other never: as skipped if it is bound and not to
   be overwritten; else as unresolved if no match reaches the minimum; else as ambiguous if the context
   has another such match within the margin of a best one; else as proposed.
   */
  lemma SlotsPartitioned(current: Value, r: Request, slot: Slot)
    requires WellFormed(r.offer.schema)
    ensures var plan := PlanOf(current, r);
            var kept := Kept(r, Normalized(current), slot);
            var reached := Reaches(r.offer.scored(slot), r.options.minScore);
            var contested := Contested(r, slot);
            var n := if Wants(r, slot) then 1 else 0;
            multiset(plan.skipped)[slot] == (if kept then n else 0) &&
            multiset(plan.unresolved)[slot] == (if !kept && !reached then n else 0) &&
            multiset(plan.ambiguous)[slot] == (if !kept && reached && contested then n else 0) &&
            multiset(ProposedSlots(plan.proposals))[slot] == (if !kept && reached && !contested then n else 0)
  {
    var bindings := Normalized(current);
    VerdictMeaning(r, bindings, slot);
    OutcomeTally(r, bindings, Skipping, slot);
    OutcomeTally(r, bindings, ReportingUnresolved, slot);
    OutcomeTally(r, bindings, ReportingAmbiguous, slot);
    OutcomeTally(r, bindings, Proposing, slot);
  }

  lemma OutcomeTally(r: Request, bindings: Members<Value>, o: Outcome, slot: Slot)
    requires WellFormed(r.offer.schema)
    ensures multiset(ListOf(DraftOf(r, bindings, SchemaListing(r.offer.schema)), o))[slot] ==
            if Wants(r, slot) && OutcomeOf(Decide(r, bindings, slot)) == o then 1 else 0
  {
    TallyOfDraft(r, bindings, SchemaListing(r.offer.schema), o, slot);
    ShareOfWanted(r, bindings, o, slot);
  }

  /** What holds of a draft all along: the next bindings are the written ones, and every proposal was decided. */
  ghost predicate Faithful(r: Request, bindings: Members<Value>, d: Draft) {
    d.next == WriteSlots(bindings, d.proposals) &&
    forall p :: p in d.proposals ==> Decide(r, bindings, p.slot) == Proposed(p.node, p.target)
  }

  lemma ListedFaithful(r: Request, bindings: Members<Value>, d: Draft, slot: Slot)
    requires Faithful(r, bindings, d)
    ensures Faithful(r, bindings, Listed(d, slot, Decide(r, bindings, slot)))
  {
    var v := Decide(r, bindings, slot);
    if v.Proposed? {
      WriteOneMore(bindings, d.proposals, Proposal(slot, v.node, v.target));
    }
  }

  lemma {:induction false} NamesFaithful(r: Request, bindings: Members<Value>, kind: Kind, names: seq<JsString>,
                                         n: nat, d: Draft)
    requires n <= |names| && Faithful(r, bindings, d)
    ensures Faithful(r, bindings, AfterNames(r, bindings, kind, names, n, d))
  {
    if n > 0 {
      NamesFaithful(r, bindings, kind, names, n - 1, d);
      ListedFaithful(r, bindings, AfterNames(r, bindings, kind, names, n - 1, d), Slot(kind, names[n - 1]));
    }
  }

  lemma {:induction false} KindsFaithful(r: Request, bindings: Members<Value>, listing: Listing, kinds: seq<Kind>,
                                         n: nat)
    requires n <= |kinds|
    ensures Faithful(r, bindings, AfterKinds(r, bindings, listing, kinds, n))
  {
    if n > 0 {
      KindsFaithful(r, bindings, listing, kinds, n - 1);
      var names := NamesOf(listing, kinds[n - 1]);
      NamesFaithful(r, bindings, kinds[n - 1], names, |names|, AfterKinds(r, bindings, listing, kinds, n - 1));
    }
  }

  /** The next bindings are the normalised ones with the proposals written. */
  lemma NextIsWritten(current: Value, r: Request)
    ensures PlanOf(current, r).next == Obj(WriteSlots(Normalized(current), PlanOf(current, r).proposals))
  {
    var kinds := RequestedKinds(r.options.kinds);
    KindsFaithful(r, Normalized(current), SchemaListing(r.offer.schema), kinds, |kinds|);
  }

  /** Every proposal names the first of the best matches of its slot, which reaches the minimum. */
  lemma ProposalsAreBest(current: Value, r: Request, p: Proposal) returns (i: nat)
    requires p in PlanOf(current, r).proposals
    ensures var ms := r.offer.scored(p.slot);
            FirstBest(ms, i) && ms[i].score >= r.options.minScore && p.node == ms[i].node && p.target == ms[i].target
  {
    var kinds := RequestedKinds(r.options.kinds);
    KindsFaithful(r, Normalized(current), SchemaListing(r.offer.schema), kinds, |kinds|);
    i := ProposedIsFirstBest(r, Normalized(current), p.slot);
  }

  /******* Lookups in the next bindings and in the patch *******/

  lemma KeysDistinct()
    ensures ACTIONS != EVENTS && NODE != ACTION && NODE != EVENT
  {
    assert |ACTIONS| == 7 && |EVENTS| == 6 && |NODE| == 4 && |ACTION| == 6 && |EVENT| == 5;
  }

  /** The last value proposed for a slot. */
  function LastFor(ps: seq<Proposal>, slot: Slot): (v: Option<Proposal>) {
    if ps == [] then None
    else if ps[|ps| - 1].slot == slot then Some(ps[|ps| - 1])
    else LastFor(ps[..|ps| - 1], slot)
  }

  lemma {:induction false} LastForIsProposed(ps: seq<Proposal>, slot: Slot)
    ensures LastFor(ps, slot).Some? ==> LastFor(ps, slot).value in ps && LastFor(ps, slot).value.slot == slot
    ensures LastFor(ps, slot).None? ==> forall p :: p in ps ==> p.slot != slot
  {
    if ps != [] {
      LastForIsProposed(ps[..|ps| - 1], slot);
      assert ps == ps[..|ps| - 1] + [ps[|ps| - 1]];
    }
  }

  lemma {:induction false} FindWritten(ms: Members<Value>, ps: seq<Proposal>, slot: Slot)
    ensures Find(Group(WriteSlots(ms, ps), slot.kind), slot.name) ==
            if LastFor(ps, slot).Some? then Some(SlotValue(LastFor(ps, slot).value))
            else Find(Group(ms, slot.kind), slot.name)
  {
    if ps != [] {
      var before, p := WriteSlots(ms, ps[..|ps| - 1]), ps[|ps| - 1];
      FindWritten(ms, ps[..|ps| - 1], slot);
      KeysDistinct();
      var group := Obj(Put(Group(before, p.slot.kind), p.slot.name, SlotValue(p)));
      FindPut(before, Key(p.slot.kind), group, Key(slot.kind));
      FindPut(Group(before, p.slot.kind), p.slot.name, SlotValue(p), slot.name);
    }
  }

  /** Whether any slot of the kind is proposed. */
  predicate Touches(ps: seq<Proposal>, kind: Kind) {
    exists p :: p in ps && p.slot.kind == kind
  }

  lemma {:induction false} FindOutside(ms: Members<Value>, ps: seq<Proposal>, k: JsString)
    ensures k != ACTIONS && k != EVENTS ==> Find(WriteSlots(ms, ps), k) == Find(ms, k)
    ensures forall kind :: k == Key(kind) ==>
              if Touches(ps, kind) then Find(WriteSlots(ms, ps), k) == Some(Obj(Group(WriteSlots(ms, ps), kind)))
              else Find(WriteSlots(ms, ps), k) == Find(ms, k)
  {
    if ps != [] {
      var before, p := ps[..|ps| - 1], ps[|ps| - 1];
      FindOutside(ms, before, k);
      KeysDistinct();
      assert ps == before + [p];
      assert forall kind :: Touches(ps, kind) <==> Touches(before, kind) || p.slot.kind == kind;
      FindPut(WriteSlots(ms, before), Key(p.slot.kind),
              Obj(Put(Group(WriteSlots(ms, before), p.slot.kind), p.slot.name, SlotValue(p))), k);
    }
  }

  /******* Well-formedness *******/

  lemma RecordWellFormed(ms: Members<Value>, k: JsString)
    requires WellFormed(Obj(ms))
    ensures WellFormed(Obj(Record(Get(ms, k))))
  {
    if Has(ms, k) {
      WellFormedFind(ms, k);
    }
  }

  lemma PutWellFormed(ms: Members<Value>, k: JsString, v: Value)
    requires WellFormed(Obj(ms)) && WellFormed(v)
    ensures WellFormed(Obj(Put(ms, k, v)))
  {
    DistinctPut(ms, k, v);
    WellFormedPut(ms, k, v);
  }

  lemma SlotValueWellFormed(p: Proposal)
    ensures WellFormed(SlotValue(p))
  {
    KeysDistinct();
    var second := Member(Field(p.slot.kind), Str(p.target), End);
    assert KeyOrder<Value>(End) == [] && KeyOrder(second) == [Field(p.slot.kind)];
    DistinctMember(Field(p.slot.kind), Str(p.target), End);
    DistinctMember(NODE, Str(p.node), second);
    assert WellFormedMembers(second);
  }

  lemma FindSlotValue(p: Proposal, k: JsString)
    ensures Find(SlotValue(p).members, k) ==
            if k == NODE then Some(Str(p.node)) else if k == Field(p.slot.kind) then Some(Str(p.target)) else None
  {
    assert Find(SlotValue(p).members.rest, k) == if k == Field(p.slot.kind) then Some(Str(p.target)) else None;
  }

  lemma {:induction false} WrittenWellFormed(ms: Members<Value>, ps: seq<Proposal>)
    requires WellFormed(Obj(ms))
    ensures WellFormed(Obj(WriteSlots(ms, ps)))
  {
    if ps != [] {
      var before, p := WriteSlots(ms, ps[..|ps| - 1]), ps[|ps| - 1];
      WrittenWellFormed(ms, ps[..|ps| - 1]);
      SlotValueWellFormed(p);
      RecordWellFormed(before, Key(p.slot.kind));
      PutWellFormed(Group(before, p.slot.kind), p.slot.name, SlotValue(p));
      PutWellFormed(before, Key(p.slot.kind), Obj(Put(Group(before, p.slot.kind), p.slot.name, SlotValue(p))));
    }
  }

  lemma NormalizedWellFormed(current: Value)
    requires WellFormed(current)
    ensures WellFormed(Obj(Normalized(current)))
    ensures forall kind :: Find(Normalized(current), Key(kind)) == Some(Obj(Group(Normalized(current), kind)))
  {
    var copy := if current.Obj? then CloneMembers(current.members) else End;
    if current.Obj? {
      CloneMembersWellFormed(current.members);
    }
    KeysDistinct();
    RecordWellFormed(copy, ACTIONS);
    PutWellFormed(copy, ACTIONS, Obj(Record(Get(copy, ACTIONS))));
    var withActions := Put(copy, ACTIONS, Obj(Record(Get(copy, ACTIONS))));
    RecordWellFormed(withActions, EVENTS);
    PutWellFormed(withActions, EVENTS, Obj(Record(Get(withActions, EVENTS))));
    forall kind ensures Find(Normalized(current), Key(kind)) == Some(Obj(Group(Normalized(current), kind))) {
      FindPut(copy, ACTIONS, Obj(Record(Get(copy, ACTIONS))), Key(kind));
      FindPut(withActions, EVENTS, Obj(Record(Get(withActions, EVENTS))), Key(kind));
    }
  }

  /******* When the patch is the proposed change *******/

  /** The slot holds no record with defined keys beyond the node and the target field. */
  ghost predicate NoExtraKeys(v: Value, kind: Kind) {
    v.Obj? ==> forall k :: Has(v.members, k) && !Get(v.members, k).Undefined? ==> k == NODE || k == Field(kind)
  }

  /** Merging a proposal into its slot gives the proposal itself exactly when the slot has no extra keys. */
  lemma SlotMergeExact(v: Value, p: Proposal)
    requires WellFormed(v)
    ensures WellFormed(SlotValue(p)) && WellFormed(DeepMerge(v, SlotValue(p)))
    ensures Norm(DeepMerge(v, SlotValue(p))) == Norm(SlotValue(p)) <==> NoExtraKeys(v, p.slot.kind)
  {
    KeysDistinct();
    SlotValueWellFormed(p);
    var value := SlotValue(p);
    MergeWellFormed(v, value);
    if v.Obj? {
      var merged := MergeMembers(v.members, value.members);
      SameNormIffSameLookups(merged, value.members);
      forall k ensures Find(NormMembers(merged), k) == Find(NormMembers(value.members), k) <==>
                       (Has(v.members, k) && !Get(v.members, k).Undefined? ==> k == NODE || k == Field(p.slot.kind))
      {
        FindNorm(merged, k);
        FindNorm(value.members, k);
        FindMerge(v.members, value.members, k);
        FindSlotValue(p, k);
      }
    }
  }

  /** The lookups of a group, in the merged bindings. */
  lemma FindMergedGroup(ms: Members<Value>, ps: seq<Proposal>, slot: Slot)
    requires WellFormed(Obj(ms)) && Find(ms, Key(slot.kind)) == Some(Obj(Group(ms, slot.kind)))
    ensures var merged := MergeMembers(ms, WriteSlots(End, ps));
            Find(merged, Key(slot.kind)) == Some(Obj(Group(merged, slot.kind))) &&
            Find(Group(merged, slot.kind), slot.name) ==
              if LastFor(ps, slot).Some?
              then Some(DeepMerge(Get(Group(ms, slot.kind), slot.name), SlotValue(LastFor(ps, slot).value)))
              else Find(Group(ms, slot.kind), slot.name)
  {
    var patch := WriteSlots(End, ps);
    WrittenWellFormed(End, ps);
    FindMerge(ms, patch, Key(slot.kind));
    FindOutside(End, ps, Key(slot.kind));
    FindWritten(End, ps, slot);
    RecordWellFormed(patch, Key(slot.kind));
    LastForIsProposed(ps, slot);
    if Touches(ps, slot.kind) {
      FindMerge(Group(ms, slot.kind), Group(patch, slot.kind), slot.name);
    }
  }

  /** The proposals whose slots decide whether the patch is exact. */
  ghost predicate SlotsClean(ms: Members<Value>, ps: seq<Proposal>) {
    forall p :: p in ps ==> NoExtraKeys(Get(Group(ms, p.slot.kind), p.slot.name), p.slot.kind)
  }

  lemma GroupsAgree(ms: Members<Value>, ps: seq<Proposal>, kind: Kind)
    requires WellFormed(Obj(ms)) && Find(ms, Key(kind)) == Some(Obj(Group(ms, kind)))
    ensures var merged, written := Group(MergeMembers(ms, WriteSlots(End, ps)), kind), Group(WriteSlots(ms, ps), kind);
            Norm(Obj(merged)) == Norm(Obj(written)) <==>
            forall p :: p in ps && p.slot.kind == kind ==> NoExtraKeys(Get(Group(ms, kind), p.slot.name), kind)
  {
    var all := MergeMembers(ms, WriteSlots(End, ps));
    WrittenWellFormed(End, ps);
    WrittenWellFormed(ms, ps);
    MergeMembersWellFormed(ms, WriteSlots(End, ps));
    RecordWellFormed(ms, Key(kind));
    RecordWellFormed(all, Key(kind));
    RecordWellFormed(WriteSlots(ms, ps), Key(kind));
    var merged, written := Group(all, kind), Group(WriteSlots(ms, ps), kind);
    SameNormIffSameLookups(merged, written);
    forall name ensures Find(NormMembers(merged), name) == Find(NormMembers(written), name) <==>
                        (LastFor(ps, Slot(kind, name)).Some? ==> NoExtraKeys(Get(Group(ms, kind), name), kind))
    {
      SlotLookupsAgree(ms, ps, Slot(kind, name));
    }
    forall p | p in ps && p.slot.kind == kind ensures LastFor(ps, Slot(kind, p.slot.name)).Some? {
      LastForIsProposed(ps, Slot(kind, p.slot.name));
    }
    forall name | LastFor(ps, Slot(kind, name)).Some? ensures exists p :: p in ps && p.slot == Slot(kind, name) {
      LastForIsProposed(ps, Slot(kind, name));
    }
  }

  lemma SlotLookupsAgree(ms: Members<Value>, ps: seq<Proposal>, slot: Slot)
    requires WellFormed(Obj(ms)) && Find(ms, Key(slot.kind)) == Some(Obj(Group(ms, slot.kind)))
    requires Distinct(Group(MergeMembers(ms, WriteSlots(End, ps)), slot.kind))
    requires Distinct(Group(WriteSlots(ms, ps), slot.kind))
    ensures var merged := Group(MergeMembers(ms, WriteSlots(End, ps)), slot.kind);
            var written := Group(WriteSlots(ms, ps), slot.kind);
            Find(NormMembers(merged), slot.name) == Find(NormMembers(written), slot.name) <==>
            (LastFor(ps, slot).Some? ==> NoExtraKeys(Get(Group(ms, slot.kind), slot.name), slot.kind))
  {
    FindMergedGroup(ms, ps, slot);
    FindWritten(ms, ps, slot);
    FindNorm(Group(MergeMembers(ms, WriteSlots(End, ps)), slot.kind), slot.name);
    FindNorm(Group(WriteSlots(ms, ps), slot.kind), slot.name);
    if LastFor(ps, slot).Some? {
      LastForIsProposed(ps, slot);
      var v := Get(Group(ms, slot.kind), slot.name);
      RecordWellFormed(ms, Key(slot.kind));
      if Has(Group(ms, slot.kind), slot.name) {
        WellFormedFind(Group(ms, slot.kind), slot.name);
      }
      SlotMergeExact(v, LastFor(ps, slot).value);
    }
  }

  ghost predicate GroupsSame(a: Members<Value>, b: Members<Value>) {
    forall kind :: Norm(Obj(Group(a, kind))) == Norm(Obj(Group(b, kind)))
  }

  lemma GroupsSameIffClean(ms: Members<Value>, ps: seq<Proposal>)
    requires WellFormed(Obj(ms))
    requires forall kind :: Find(ms, Key(kind)) == Some(Obj(Group(ms, kind)))
    ensures GroupsSame(MergeMembers(ms, WriteSlots(End, ps)), WriteSlots(ms, ps)) <==> SlotsClean(ms, ps)
  {
    GroupsAgree(ms, ps, Actions);
    GroupsAgree(ms, ps, Events);
  }

  lemma LookupsSameIffGroupsSame(ms: Members<Value>, ps: seq<Proposal>)
    requires WellFormed(Obj(ms))
    requires forall kind :: Find(ms, Key(kind)) == Some(Obj(Group(ms, kind)))
    requires Distinct(MergeMembers(ms, WriteSlots(End, ps))) && Distinct(WriteSlots(ms, ps))
    ensures var merged, written := MergeMembers(ms, WriteSlots(End, ps)), WriteSlots(ms, ps);
            SameLookups(NormMembers(merged), NormMembers(written)) <==> GroupsSame(merged, written)
  {
    var merged, written := MergeMembers(ms, WriteSlots(End, ps)), WriteSlots(ms, ps);
    if GroupsSame(merged, written) {
      forall k ensures Find(NormMembers(merged), k) == Find(NormMembers(written), k) {
        TopLookupsAgree(ms, ps, k);
      }
    }
    if SameLookups(NormMembers(merged), NormMembers(written)) {
      forall kind ensures Norm(Obj(Group(merged, kind))) == Norm(Obj(Group(written, kind))) {
        TopLookupsAgree(ms, ps, Key(kind));
        assert Find(NormMembers(merged), Key(kind)) == Find(NormMembers(written), Key(kind));
      }
    }
  }

  /** Merging the patch into record-valued groups gives the next bindings exactly when the slots are clean. */
  lemma PatchExact(ms: Members<Value>, ps: seq<Proposal>)
    requires WellFormed(Obj(ms))
    requires forall kind :: Find(ms, Key(kind)) == Some(Obj(Group(ms, kind)))
    ensures Norm(Obj(MergeMembers(ms, WriteSlots(End, ps)))) == Norm(Obj(WriteSlots(ms, ps))) <==> SlotsClean(ms, ps)
  {
    WrittenWellFormed(End, ps);
    WrittenWellFormed(ms, ps);
    MergeMembersWellFormed(ms, WriteSlots(End, ps));
    SameNormIffSameLookups(MergeMembers(ms, WriteSlots(End, ps)), WriteSlots(ms, ps));
    LookupsSameIffGroupsSame(ms, ps);
    GroupsSameIffClean(ms, ps);
  }

  lemma TopLookupsAgree(ms: Members<Value>, ps: seq<Proposal>, k: JsString)
    requires WellFormed(Obj(ms))
    requires forall kind :: Find(ms, Key(kind)) == Some(Obj(Group(ms, kind)))
    requires Distinct(MergeMembers(ms, WriteSlots(End, ps))) && Distinct(WriteSlots(ms, ps))
    ensures var merged, written := MergeMembers(ms, WriteSlots(End, ps)), WriteSlots(ms, ps);
            Find(NormMembers(merged), k) == Find(NormMembers(written), k) <==>
            (forall kind :: k == Key(kind) ==> Norm(Obj(Group(merged, kind))) == Norm(Obj(Group(written, kind))))
  {
    var patch := WriteSlots(End, ps);
    var merged, written := MergeMembers(ms, patch), WriteSlots(ms, ps);
    KeysDistinct();
    WrittenWellFormed(End, ps);
    FindNorm(merged, k);
    FindNorm(written, k);
    FindMerge(ms, patch, k);
    FindOutside(End, ps, k);
    FindOutside(ms, ps, k);
    if k == ACTIONS || k == EVENTS {
      var kind := if k == ACTIONS then Actions else Events;
      assert k == Key(kind) && forall other :: k == Key(other) ==> other == kind;
      FindMergedGroup(ms, ps, Slot(kind, []));
    }
  }

  /******* The proposed hashes and the ones a later write computes *******/

  /** Both groups of the bindings are records. */
  predicate HasBothGroups(current: Value) {
    current.Obj? && Get(current.members, ACTIONS).Obj? && Get(current.members, EVENTS).Obj?
  }

  lemma FindNormalized(current: Value, k: JsString)
    requires WellFormed(current)
    ensures Find(Normalized(current), k) ==
            var copy := if current.Obj? then CloneMembers(current.members) else End;
            if k == ACTIONS || k == EVENTS then Some(Obj(Record(Get(copy, k)))) else Find(copy, k)
  {
    var copy := if current.Obj? then CloneMembers(current.members) else End;
    var withActions := Put(copy, ACTIONS, Obj(Record(Get(copy, ACTIONS))));
    KeysDistinct();
    FindPut(copy, ACTIONS, Obj(Record(Get(copy, ACTIONS))), k);
    FindPut(copy, ACTIONS, Obj(Record(Get(copy, ACTIONS))), EVENTS);
    FindPut(withActions, EVENTS, Obj(Record(Get(withActions, EVENTS))), k);
  }

  /** Normalising keeps the canonical text exactly when both groups were records already. */
  lemma NormalizedExact(current: Value)
    requires WellFormed(current)
    ensures Norm(Obj(Normalized(current))) == Norm(current) <==> HasBothGroups(current)
  {
    NormalizedWellFormed(current);
    if current.Obj? {
      var ms := Normalized(current);
      SameNormIffSameLookups(ms, current.members);
      forall k ensures Find(NormMembers(ms), k) == Find(NormMembers(current.members), k) <==>
                       (k == ACTIONS || k == EVENTS ==> Get(current.members, k).Obj?)
      {
        FindNormalized(current, k);
        FindClone(current.members, k);
        FindNorm(ms, k);
        FindNorm(current.members, k);
        if Has(current.members, k) && !Get(current.members, k).Undefined? {
          NormOfClone(Get(current.members, k));
        }
      }
    }
  }

  /** What the planners hash as the current state. */
  function PlannedCurrentHash(h: JsString -> JsString, current: Value): (r: JsString) {
    JsonHash(h, Obj(Normalized(current)))
  }

  function ApplyChange(target: JsString, operation: JsString, currentHash: JsString, nextHash: JsString,
                       patch: Value): (c: Change) {
    Change(Bindings, operation, target, MergeMode, currentHash, nextHash, patch, [])
  }

  /**
   The approval hash of a proposal is the one that setting its patch later computes, on the same
   current bindings, exactly when both groups are records and no proposed slot has extra keys.
   */
  lemma ProposalAppliable(h: JsString -> JsString, operation: JsString, target: JsString,
                          current: Value, r: Request)
    requires Injective(h) && WellFormed(current)
    ensures var plan := PlanOf(current, r);
            var later := PlanConfigWrite(h, current, plan.patch, MergeMode, None, []);
            later.Planned? &&
            (ProposalHash(h, ApplyChange(target, operation, PlannedCurrentHash(h, current),
                                         JsonHash(h, plan.next), plan.patch)) ==
             ProposalHash(h, ApplyChange(target, operation, later.currentHash, later.nextHash, plan.patch))
             <==> HasBothGroups(current) && SlotsClean(Normalized(current), plan.proposals))
  {
    var plan := PlanOf(current, r);
    NextIsWritten(current, r);
    var ms, ps := Normalized(current), plan.proposals;
    var later := PlanConfigWrite(h, current, plan.patch, MergeMode, None, []);
    WrittenWellFormed(End, ps);
    PlannedHashes(h, current, plan.patch, None);
    HashesAgree(h, current, ps);
    var c := ApplyChange(target, operation, PlannedCurrentHash(h, current), JsonHash(h, plan.next), plan.patch);
    var d := ApplyChange(target, operation, later.currentHash, later.nextHash, plan.patch);
    ProposalHashPins(h, c, d);
  }

  lemma HashesAgree(h: JsString -> JsString, current: Value, ps: seq<Proposal>)
    requires Injective(h) && WellFormed(current)
    ensures var ms, patch := Normalized(current), Obj(WriteSlots(End, ps));
            (JsonHash(h, Obj(ms)) == JsonHash(h, current) &&
             JsonHash(h, Obj(WriteSlots(ms, ps))) == JsonHash(h, DeepMerge(current, patch)))
            <==> HasBothGroups(current) && SlotsClean(ms, ps)
  {
    var ms, patch := Normalized(current), Obj(WriteSlots(End, ps));
    NormalizedWellFormed(current);
    WrittenWellFormed(ms, ps);
    WrittenWellFormed(End, ps);
    MergeWellFormed(current, patch);
    SameHashIffSameNorm(h, Obj(ms), current);
    SameHashIffSameNorm(h, Obj(WriteSlots(ms, ps)), DeepMerge(current, patch));
    NormalizedExact(current);
    PatchExact(ms, ps);
    if HasBothGroups(current) {
      MergeRespectsNorm(Obj(ms), current, patch);
    }
  }
}

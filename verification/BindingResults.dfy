/**
 What binding plans do to bindings, at literal paths: which slots are asked for and bound, where each is
 listed, and what the next bindings and the patch hold.
 */
module BindingResults {
  import opened Wrappers
  import opened JsText
  import opened JsonTree
  import opened CanonicalJson
  import opened ConfigPlanner
  import opened BindingPlanner

  /** Where bindings of a kind are kept. */
  function GroupName(kind: Kind): (k: JsString) {
    match kind
    case Actions => Ascii("actions")
    case Events => Ascii("events")
  }

  /** Under which name a slot keeps its target. */
  function TargetName(kind: Kind): (k: JsString) {
    match kind
    case Actions => Ascii("action")
    case Events => Ascii("event")
  }

  lemma SameNames(kind: Kind)
    ensures Key(kind) == GroupName(kind) && Field(kind) == TargetName(kind)
    ensures NODE == Ascii("node") && PROPERTIES == Ascii("properties")
  {
  }

  function SlotPath(slot: Slot): (path: Path) {
    [GroupName(slot.kind), slot.name]
  }

  /** The record of a slot that is bound to a node and a target. */
  function BoundTo(kind: Kind, node: JsString, target: JsString): (v: Value) {
    Obj(Member(Ascii("node"), Str(node), Member(TargetName(kind), Str(target), End)))
  }

  lemma LookupOne(ms: Members<Value>, k: JsString)
    ensures Lookup(Obj(ms), [k]) == Find(ms, k)
  {
    assert [k][1..] == [];
  }

  /** The second step of a path goes through records only. */
  lemma LookupTwo(ms: Members<Value>, k: JsString, name: JsString)
    ensures Lookup(Obj(ms), [k, name]) == Find(Record(Get(ms, k)), name)
  {
    assert [k, name][1..] == [name];
    if Has(ms, k) && Get(ms, k).Obj? {
      LookupOne(Get(ms, k).members, name);
    }
  }

  lemma LookupSlot(ms: Members<Value>, slot: Slot)
    ensures Lookup(Obj(ms), SlotPath(slot)) == Find(Group(ms, slot.kind), slot.name)
  {
    SameNames(slot.kind);
    LookupTwo(ms, GroupName(slot.kind), slot.name);
  }

  /******* What is written *******/

  lemma PlanValues(current: Value, r: Request)
    ensures var plan := PlanOf(current, r);
            plan.next == Obj(WriteSlots(Normalized(current), plan.proposals)) &&
            plan.patch == Obj(WriteSlots(End, plan.proposals))
  {
    NextIsWritten(current, r);
  }

  lemma {:induction false} OneProposal(ps: seq<Proposal>, p: Proposal)
    requires p in ps && multiset(ProposedSlots(ps))[p.slot] <= 1
    ensures LastFor(ps, p.slot) == Some(p)
  {
    var before, last := ps[..|ps| - 1], ps[|ps| - 1];
    assert ps == before + [last];
    if last.slot == p.slot {
      if last != p {
        SlotProposed(before, p);
      }
    } else {
      OneProposal(before, p);
    }
  }

  lemma {:induction false} SlotProposed(ps: seq<Proposal>, p: Proposal)
    requires p in ps
    ensures p.slot in multiset(ProposedSlots(ps))
  {
    var before, last := ps[..|ps| - 1], ps[|ps| - 1];
    assert ps == before + [last];
    if last != p {
      SlotProposed(before, p);
    }
  }

  /** The next bindings and the patch bind every proposed slot to exactly the proposed node and target. */
  lemma ProposalIsWritten(current: Value, r: Request, p: Proposal)
    requires WellFormed(r.offer.schema) && p in PlanOf(current, r).proposals
    ensures var plan := PlanOf(current, r);
            Lookup(plan.next, SlotPath(p.slot)) == Some(BoundTo(p.slot.kind, p.node, p.target)) &&
            Lookup(plan.patch, SlotPath(p.slot)) == Some(BoundTo(p.slot.kind, p.node, p.target))
  {
    var ps := PlanOf(current, r).proposals;
    SlotsPartitioned(current, r, p.slot);
    OneProposal(ps, p);
    PlanValues(current, r);
    SameNames(p.slot.kind);
    WrittenLookup(Normalized(current), ps, p.slot);
    WrittenLookup(End, ps, p.slot);
  }

  lemma WrittenLookup(ms: Members<Value>, ps: seq<Proposal>, slot: Slot)
    ensures Lookup(Obj(WriteSlots(ms, ps)), SlotPath(slot)) ==
            if LastFor(ps, slot).Some? then Some(SlotValue(LastFor(ps, slot).value))
            else Lookup(Obj(ms), SlotPath(slot))
  {
    LookupSlot(WriteSlots(ms, ps), slot);
    LookupSlot(ms, slot);
    FindWritten(ms, ps, slot);
  }

  /** Every other slot stays as it was in the next bindings, and is not in the patch. */
  lemma OtherSlotsKept(current: Value, r: Request, slot: Slot)
    requires forall p :: p in PlanOf(current, r).proposals ==> p.slot != slot
    ensures var plan := PlanOf(current, r);
            Lookup(plan.next, SlotPath(slot)) == Lookup(Obj(Normalized(current)), SlotPath(slot)) &&
            Lookup(plan.patch, SlotPath(slot)) == None
  {
    var ps := PlanOf(current, r).proposals;
    LastForIsProposed(ps, slot);
    PlanValues(current, r);
    WrittenLookup(Normalized(current), ps, slot);
    WrittenLookup(End, ps, slot);
    LookupSlot(End, slot);
  }

  /** Nothing beside the two groups changes, and the patch holds nothing else. */
  lemma OtherMembersKept(current: Value, r: Request, k: JsString)
    requires k != Ascii("actions") && k != Ascii("events")
    ensures var plan := PlanOf(current, r);
            Lookup(plan.next, [k]) == Lookup(Obj(Normalized(current)), [k]) && Lookup(plan.patch, [k]) == None
  {
    var ps := PlanOf(current, r).proposals;
    PlanValues(current, r);
    FindOutside(Normalized(current), ps, k);
    FindOutside(End, ps, k);
    LookupOne(WriteSlots(Normalized(current), ps), k);
    LookupOne(Normalized(current), k);
    LookupOne(WriteSlots(End, ps), k);
  }

  /** A member of the JSON copy of the current bindings; what is no record has none. */
  function Copied(current: Value, k: JsString): (v: Option<Value>) {
    if current.Obj? && Has(current.members, k) && !Get(current.members, k).Undefined?
    then Some(Clone(Get(current.members, k))) else None
  }

  /** Planning starts from a copy of the bindings in which both groups are records, empty if they were none. */
  lemma StartsFromCopy(current: Value, k: JsString)
    requires WellFormed(current)
    ensures Lookup(Obj(Normalized(current)), [k]) ==
            if k == Ascii("actions") || k == Ascii("events")
            then Some(if Copied(current, k).Some? && Copied(current, k).value.Obj? then Copied(current, k).value
                      else Obj(End))
            else Copied(current, k)
  {
    var copy := if current.Obj? then CloneMembers(current.members) else End;
    if current.Obj? {
      FindClone(current.members, k);
    }
    KeysDistinct();
    LookupOne(Normalized(current), k);
    FindPut(copy, ACTIONS, Obj(Record(Get(copy, ACTIONS))), k);
    FindPut(copy, ACTIONS, Obj(Record(Get(copy, ACTIONS))), EVENTS);
    var withActions := Put(copy, ACTIONS, Obj(Record(Get(copy, ACTIONS))));
    FindPut(withActions, EVENTS, Obj(Record(Get(withActions, EVENTS))), k);
  }

  /******* Where a slot is listed *******/

  /** A non-empty text is at the path. */
  predicate TextAt(v: Value, path: Path) {
    match Lookup(v, path)
    case Some(Str(s)) => s != []
    case _ => false
  }

  /** The slot names a node or a target now. */
  predicate BoundNow(current: Value, slot: Slot) {
    TextAt(current, [GroupName(slot.kind), slot.name, Ascii("node")]) ||
    TextAt(current, [GroupName(slot.kind), slot.name, TargetName(slot.kind)])
  }

  /** The schema offers the slot, and the caller asks for its kind and its name. */
  ghost predicate AskedFor(r: Request, slot: Slot) {
    (match slot.kind case Actions => !r.options.kinds.OnlyEvents? case Events => !r.options.kinds.OnlyActions?) &&
    Lookup(r.offer.schema, [Ascii("properties"), GroupName(slot.kind), Ascii("properties"), slot.name]).Some? &&
    (r.options.names == [] ||
     exists name :: name in r.options.names && r.offer.normalize(name) == r.offer.normalize(slot.name))
  }

  lemma LookupThree(ms: Members<Value>, k: JsString, name: JsString, field: JsString)
    ensures Lookup(Obj(ms), [k, name, field]) == Find(Record(Get(Record(Get(ms, k)), name)), field)
  {
    var path := [k, name, field];
    assert path[1..] == [name, field];
    if Has(ms, k) && Get(ms, k).Obj? {
      LookupTwo(Get(ms, k).members, name, field);
    }
  }

  /** A text in a copy is the text that was copied. */
  lemma CopiedText(v: Value)
    ensures !v.Undefined? ==>
              (Clone(v).Str? <==> v.Str?) && (v.Str? ==> Clone(v) == v) && (Clone(v).Obj? <==> v.Obj?)
  {
  }

  lemma FindRecordClone(v: Value, k: JsString)
    requires WellFormed(v) && v.Obj?
    ensures Get(CloneMembers(v.members), k) ==
            if Get(v.members, k).Undefined? then Undefined else Clone(Get(v.members, k))
    ensures WellFormed(Get(v.members, k))
  {
    FindClone(v.members, k);
    if Has(v.members, k) {
      WellFormedFind(v.members, k);
    }
  }

  /** What is below the groups is the same text before and after normalising. */
  lemma TextBelow(current: Value, kind: Kind, name: JsString, field: JsString)
    requires WellFormed(current)
    ensures TextAt(Obj(Normalized(current)), [GroupName(kind), name, field]) <==>
            TextAt(current, [GroupName(kind), name, field])
  {
    var k := GroupName(kind);
    StartsFromCopy(current, k);
    LookupOne(Normalized(current), k);
    LookupThree(Normalized(current), k, name, field);
    if current.Obj? {
      LookupThree(current.members, k, name, field);
      FindRecordClone(current, k);
      var group := Get(current.members, k);
      CopiedText(group);
      if group.Obj? {
        FindRecordClone(group, name);
        var slot := Get(group.members, name);
        CopiedText(slot);
        if slot.Obj? {
          FindRecordClone(slot, field);
          CopiedText(Get(slot.members, field));
        }
      }
    }
  }

  lemma BoundIffNamed(current: Value, slot: Slot)
    requires WellFormed(current)
    ensures Bound(Normalized(current), slot) <==> BoundNow(current, slot)
  {
    var ms := Normalized(current);
    SameNames(slot.kind);
    TextBelow(current, slot.kind, slot.name, Ascii("node"));
    TextBelow(current, slot.kind, slot.name, TargetName(slot.kind));
    LookupThree(ms, GroupName(slot.kind), slot.name, Ascii("node"));
    LookupThree(ms, GroupName(slot.kind), slot.name, TargetName(slot.kind));
  }

  lemma {:induction false} AmongIffSome(names: seq<JsString>, offer: Offer, normal: JsString)
    ensures NamedAmong(names, offer, normal) <==> exists name :: name in names && offer.normalize(name) == normal
  {
    if names != [] {
      assert names == [names[0]] + names[1..];
      AmongIffSome(names[1..], offer, normal);
      assert names[0] in names;
    }
  }

  lemma SchemaOffers(schema: Value, kind: Kind, name: JsString)
    ensures name in SchemaNames(schema, kind) <==>
            Lookup(schema, [Ascii("properties"), GroupName(kind), Ascii("properties"), name]).Some?
  {
    SameNames(kind);
    var path := [PROPERTIES, Key(kind), PROPERTIES, name];
    var group := Record(Get(Record(Get(Record(schema), PROPERTIES)), Key(kind)));
    KeyOrderHas(Record(Get(group, PROPERTIES)), name);
    assert path[1..] == [Key(kind), PROPERTIES, name];
    if schema.Obj? && Has(schema.members, PROPERTIES) && Get(schema.members, PROPERTIES).Obj? {
      LookupThree(Get(schema.members, PROPERTIES).members, Key(kind), PROPERTIES, name);
    }
  }

  lemma WantsIffAsked(r: Request, slot: Slot)
    ensures Wants(r, slot) <==> AskedFor(r, slot)
  {
    SchemaOffers(r.offer.schema, slot.kind, slot.name);
    AmongIffSome(r.options.names, r.offer, r.offer.normalize(slot.name));
  }

  /**
   Every slot that is asked for is listed exactly once, and any other never: as skipped if it is bound now and
   not to be overwritten; else as unresolved if no match reaches the minimum; else as ambiguous if the context
   has another such match within the margin of a best one; else as proposed.
   */
  lemma SlotListedOnce(current: Value, r: Request, slot: Slot)
    requires WellFormed(r.offer.schema) && WellFormed(current)
    ensures var plan := PlanOf(current, r);
            var kept := BoundNow(current, slot) && !r.options.overwrite;
            var reached := exists m :: m in r.offer.scored(slot) && m.score >= r.options.minScore;
            var contested := r.planner.Contextual? &&
                             Close(r.offer.scored(slot), r.options.minScore, r.planner.margin);
            var n := if AskedFor(r, slot) then 1 else 0;
            multiset(plan.skipped)[slot] == (if kept then n else 0) &&
            multiset(plan.unresolved)[slot] == (if !kept && !reached then n else 0) &&
            multiset(plan.ambiguous)[slot] == (if !kept && reached && contested then n else 0) &&
            multiset(ProposedSlots(plan.proposals))[slot] == (if !kept && reached && !contested then n else 0)
  {
    SlotsPartitioned(current, r, slot);
    BoundIffNamed(current, slot);
    WantsIffAsked(r, slot);
  }

  /** The slot is asked for and free to be written. */
  ghost predicate Open(current: Value, r: Request, slot: Slot) {
    AskedFor(r, slot) && (!BoundNow(current, slot) || r.options.overwrite)
  }

  /** Some match of the slot reaches the minimum. */
  ghost predicate Matched(r: Request, slot: Slot) {
    exists m :: m in r.offer.scored(slot) && m.score >= r.options.minScore
  }

  /** Every open slot has a match. */
  ghost predicate AllMatched(current: Value, r: Request) {
    forall slot :: Open(current, r, slot) ==> Matched(r, slot)
  }

  lemma InListIff(list: seq<Slot>, slot: Slot)
    ensures slot in list <==> multiset(list)[slot] > 0
  {
    assert slot in list <==> slot in multiset(list);
  }

  lemma ProposedIsSlot(ps: seq<Proposal>)
    ensures ps == [] <==> ProposedSlots(ps) == []
  {
  }

  /** A direct plan leaves nothing unresolved exactly if every open slot has a match, and proposes if one has. */
  lemma DirectPlanLists(current: Value, r: Request)
    requires WellFormed(r.offer.schema) && WellFormed(current) && r.planner.Direct?
    ensures var plan := PlanOf(current, r);
            (plan.unresolved == [] <==> AllMatched(current, r)) &&
            (plan.proposals == [] <==> forall slot :: Open(current, r, slot) ==> !Matched(r, slot)) &&
            plan.ambiguous == []
  {
    var plan := PlanOf(current, r);
    forall slot ensures (slot in plan.unresolved <==> Open(current, r, slot) && !Matched(r, slot)) &&
                        (slot in ProposedSlots(plan.proposals) <==> Open(current, r, slot) && Matched(r, slot)) &&
                        slot !in plan.ambiguous
    {
      SlotListedOnce(current, r, slot);
      InListIff(plan.unresolved, slot);
      InListIff(ProposedSlots(plan.proposals), slot);
      InListIff(plan.ambiguous, slot);
    }
    ProposedIsSlot(plan.proposals);
    NoneIsEmpty(plan.unresolved);
    NoneIsEmpty(plan.ambiguous);
    NoneIsEmpty(ProposedSlots(plan.proposals));
  }

  lemma NoneIsEmpty(list: seq<Slot>)
    ensures list == [] <==> forall slot :: slot !in list
  {
    if list != [] {
      assert list[0] in list;
    }
  }
}

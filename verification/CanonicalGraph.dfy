/**
 The canonical printer as it walks live objects: values may be shared or cyclic, and a set of
 ancestors guards the recursion.
 */
module CanonicalGraph {
  import opened Wrappers
  import opened JsText
  import opened JsonTree
  import opened CanonicalJson

  type ObjectId = nat

  /** What a property or array slot holds: a primitive, an unsupported value, or an object. */
  datatype Slot = Leaf(v: Primitive) | Foreign | Ref(id: ObjectId)

  type Primitive = v: Value | !v.Arr? && !v.Obj? witness Null

  datatype Shape = ArrayObject(items: List<Slot>) | RecordObject(members: Members<Slot>)

  /** A finite heap whose references all lead to objects of the heap. */
  type Graph = g: map<ObjectId, Shape> | Closed(g) witness map[]

  ghost predicate Closed(g: map<ObjectId, Shape>) {
    forall id :: id in g ==>
      match g[id]
      case ArrayObject(items) => ItemsIn(g, items)
      case RecordObject(ms) => Distinct(ms) && MembersIn(g, ms)
  }

  ghost predicate SlotIn(g: map<ObjectId, Shape>, s: Slot) {
    s.Ref? ==> s.id in g
  }

  ghost predicate ItemsIn(g: map<ObjectId, Shape>, items: List<Slot>) {
    items.Cons? ==> SlotIn(g, items.head) && ItemsIn(g, items.tail)
  }

  ghost predicate MembersIn(g: map<ObjectId, Shape>, ms: Members<Slot>) {
    ms.Member? ==> SlotIn(g, ms.value) && MembersIn(g, ms.rest)
  }

  lemma {:induction false} InsertIn(g: map<ObjectId, Shape>, k: JsString, s: Slot, ms: Members<Slot>)
    requires SlotIn(g, s) && MembersIn(g, ms)
    ensures MembersIn(g, Insert(k, s, ms))
  {
    if ms.Member? && Less(ms.key, k) {
      InsertIn(g, k, s, ms.rest);
    }
  }

  lemma {:induction false} SortIn(g: map<ObjectId, Shape>, ms: Members<Slot>)
    requires MembersIn(g, ms)
    ensures MembersIn(g, Sort(ms))
  {
    if ms.Member? {
      SortIn(g, ms.rest);
      InsertIn(g, ms.key, ms.value, Sort(ms.rest));
    }
  }

  /******* What the printer computes *******/

  datatype Outcome = Threw | Absent | Printed(text: JsString)

  /** The outcome of printing one slot below the given ancestors. */
  ghost function Print(g: Graph, s: Slot, inArray: bool, ancestors: set<ObjectId>): (r: Outcome)
    requires SlotIn(g, s)
    decreases g.Keys - ancestors, 0
  {
    match s
    case Leaf(v) => if v.Undefined? && !inArray then Absent else Printed(StableText(v))
    case Foreign => Threw
    case Ref(id) =>
      if id in ancestors then Threw
      else
        match g[id]
        case ArrayObject(items) => Enclosed(LBRACKET, PrintItems(g, items, ancestors + {id}), RBRACKET)
        case RecordObject(ms) =>
          SortIn(g, ms);
          Enclosed(LBRACE, PrintMembers(g, Sort(ms), ancestors + {id}), RBRACE)
  }

  ghost function PrintItems(g: Graph, items: List<Slot>, ancestors: set<ObjectId>): (r: Outcome)
    requires ItemsIn(g, items)
    decreases g.Keys - ancestors, 1, items
  {
    if items.Nil? then Printed([])
    else
      var head := Print(g, items.head, true, ancestors);
      if head.Threw? then Threw
      else if items.tail.Nil? then Printed(PrintedOrNull(head))
      else
        var tail := PrintItems(g, items.tail, ancestors);
        if tail.Threw? then Threw else Printed(PrintedOrNull(head) + [COMMA] + PrintedOrNull(tail))
  }

  ghost function PrintMembers(g: Graph, ms: Members<Slot>, ancestors: set<ObjectId>): (r: Outcome)
    requires MembersIn(g, ms)
    decreases g.Keys - ancestors, 1, ms
  {
    var texts := PrintTexts(g, ms, ancestors);
    if texts.Some? then Printed(Joined(texts.value)) else Threw
  }

  ghost function PrintTexts(g: Graph, ms: Members<Slot>, ancestors: set<ObjectId>): (r: Option<Members<JsString>>)
    requires MembersIn(g, ms)
    decreases g.Keys - ancestors, 1, ms, 0
  {
    if ms.End? then Some(End)
    else
      var head := Print(g, ms.value, false, ancestors);
      var tail := PrintTexts(g, ms.rest, ancestors);
      if head.Threw? || tail.None? then None
      else if head.Absent? then tail
      else Some(Member(ms.key, head.text, tail.value))
  }

  function Enclosed(open: CodeUnit, body: Outcome, close: CodeUnit): (r: Outcome) {
    if body.Printed? then Printed([open] + body.text + [close]) else Threw
  }

  function PrintedOrNull(o: Outcome): (r: JsString) {
    if o.Printed? then o.text else NULL_TEXT
  }

  /******* Independent meaning: the tree a slot unfolds to *******/

  ghost predicate Unfolds(g: Graph, s: Slot, t: Value)
    decreases t
  {
    match s
    case Leaf(v) => t == v
    case Foreign => false
    case Ref(id) =>
      id in g &&
      match g[id]
      case ArrayObject(items) => t.Arr? && UnfoldsItems(g, items, t.items)
      case RecordObject(ms) => t.Obj? && UnfoldsMembers(g, ms, t.members)
  }

  ghost predicate UnfoldsItems(g: Graph, items: List<Slot>, ts: List<Value>)
    decreases ts
  {
    if items.Nil? then ts.Nil?
    else ts.Cons? && Unfolds(g, items.head, ts.head) && UnfoldsItems(g, items.tail, ts.tail)
  }

  ghost predicate UnfoldsMembers(g: Graph, ms: Members<Slot>, ts: Members<Value>)
    decreases ts
  {
    if ms.End? then ts.End?
    else ts.Member? && ms.key == ts.key && Unfolds(g, ms.value, ts.value) && UnfoldsMembers(g, ms.rest, ts.rest)
  }

  lemma {:induction false} UnfoldsFind(g: Graph, ms: Members<Slot>, ts: Members<Value>, k: JsString)
    requires UnfoldsMembers(g, ms, ts)
    ensures Has(ms, k) <==> Has(ts, k)
    ensures Has(ms, k) ==> Unfolds(g, Find(ms, k).value, Find(ts, k).value)
    decreases ts
  {
    if ms.Member? {
      UnfoldsFind(g, ms.rest, ts.rest, k);
    }
  }

  lemma {:induction false} UnfoldsDistinct(g: Graph, ms: Members<Slot>, ts: Members<Value>)
    requires UnfoldsMembers(g, ms, ts) && Distinct(ms)
    ensures Distinct(ts)
    decreases ts
  {
    if ms.Member? {
      UnfoldsDistinct(g, ms.rest, ts.rest);
      UnfoldsFind(g, ms.rest, ts.rest, ms.key);
    }
  }

  lemma {:induction false} UnfoldsInsert(g: Graph, k: JsString, s: Slot, t: Value, ms: Members<Slot>,
                                         ts: Members<Value>)
    requires Unfolds(g, s, t) && UnfoldsMembers(g, ms, ts)
    ensures UnfoldsMembers(g, Insert(k, s, ms), Insert(k, t, ts))
    decreases ts
  {
    if ms.Member? && Less(ms.key, k) {
      UnfoldsInsert(g, k, s, t, ms.rest, ts.rest);
    }
  }

  lemma {:induction false} UnfoldsSort(g: Graph, ms: Members<Slot>, ts: Members<Value>)
    requires UnfoldsMembers(g, ms, ts)
    ensures UnfoldsMembers(g, Sort(ms), Sort(ts))
    decreases ts
  {
    if ms.Member? {
      UnfoldsSort(g, ms.rest, ts.rest);
      UnfoldsInsert(g, ms.key, ms.value, ts.value, Sort(ms.rest), Sort(ts.rest));
    }
  }

  /** A slot unfolds to at most one tree. */
  lemma {:induction false} UnfoldsOnce(g: Graph, s: Slot, t: Value, u: Value)
    requires Unfolds(g, s, t) && Unfolds(g, s, u)
    ensures t == u
    decreases t
  {
    if s.Ref? {
      match g[s.id]
      case ArrayObject(items) => UnfoldsItemsOnce(g, items, t.items, u.items);
      case RecordObject(ms) => UnfoldsMembersOnce(g, ms, t.members, u.members);
    }
  }

  lemma {:induction false} UnfoldsItemsOnce(g: Graph, items: List<Slot>, ts: List<Value>, us: List<Value>)
    requires UnfoldsItems(g, items, ts) && UnfoldsItems(g, items, us)
    ensures ts == us
    decreases ts
  {
    if items.Cons? {
      UnfoldsOnce(g, items.head, ts.head, us.head);
      UnfoldsItemsOnce(g, items.tail, ts.tail, us.tail);
    }
  }

  lemma {:induction false} UnfoldsMembersOnce(g: Graph, ms: Members<Slot>, ts: Members<Value>, us: Members<Value>)
    requires UnfoldsMembers(g, ms, ts) && UnfoldsMembers(g, ms, us)
    ensures ts == us
    decreases ts
  {
    if ms.Member? {
      UnfoldsOnce(g, ms.value, ts.value, us.value);
      UnfoldsMembersOnce(g, ms.rest, ts.rest, us.rest);
    }
  }

  /******* Printing the tree *******/

  lemma {:induction false} FindTexts(ms: Members<Value>, k: JsString)
    requires Distinct(ms)
    ensures Find(MemberTexts(ms), k) == if Has(ms, k) then Text(Find(ms, k).value) else None
  {
    if ms.Member? {
      FindTexts(ms.rest, k);
    }
  }

  lemma {:induction false} TextsDistinct(ms: Members<Value>)
    requires Distinct(ms)
    ensures Distinct(MemberTexts(ms))
  {
    if ms.Member? {
      TextsDistinct(ms.rest);
      FindTexts(ms.rest, ms.key);
    }
  }

  lemma {:induction false} TextsOfSorted(ms: Members<Value>)
    requires Sorted(ms)
    ensures Sorted(MemberTexts(ms))
  {
    if ms.Member? {
      SortedTail(ms);
      TextsOfSorted(ms.rest);
      var texts := MemberTexts(ms.rest);
      if texts.Member? {
        SortedDistinct(ms.rest);
        FindTexts(ms.rest, texts.key);
        SortedHead(ms, texts.key);
      }
    }
  }

  /** Sorting the members before or after printing them gives the same texts. */
  lemma SortedTexts(ms: Members<Value>)
    requires Distinct(ms)
    ensures MemberTexts(Sort(ms)) == Sort(MemberTexts(ms))
  {
    SortSorted(ms);
    SortedDistinct(Sort(ms));
    TextsOfSorted(Sort(ms));
    TextsDistinct(ms);
    SortSorted(MemberTexts(ms));
    forall k ensures Find(MemberTexts(Sort(ms)), k) == Find(Sort(MemberTexts(ms)), k) {
      FindTexts(Sort(ms), k);
      FindTexts(ms, k);
      assert Find(Sort(ms), k) == Find(ms, k);
    }
    SortedUnique(MemberTexts(Sort(ms)), Sort(MemberTexts(ms)));
  }

  /** The outcome that printing a tree would have. */
  function TreeOutcome(t: Value, inArray: bool): (r: Outcome) {
    if t.Undefined? && !inArray then Absent else Printed(StableText(t))
  }

  lemma {:induction false} PrintUnfolded(g: Graph, s: Slot, t: Value, inArray: bool, ancestors: set<ObjectId>)
    requires SlotIn(g, s) && Unfolds(g, s, t) && !Print(g, s, inArray, ancestors).Threw?
    ensures Print(g, s, inArray, ancestors) == TreeOutcome(t, inArray)
    decreases g.Keys - ancestors, 0
  {
    if s.Ref? {
      match g[s.id]
      case ArrayObject(items) => PrintUnfoldedItems(g, items, t.items, ancestors + {s.id});
      case RecordObject(ms) =>
        SortIn(g, ms);
        UnfoldsSort(g, ms, t.members);
        PrintUnfoldedMembers(g, Sort(ms), Sort(t.members), ancestors + {s.id});
        UnfoldsDistinct(g, ms, t.members);
        SortedTexts(t.members);
    }
  }

  lemma {:induction false} PrintUnfoldedItems(g: Graph, items: List<Slot>, ts: List<Value>, ancestors: set<ObjectId>)
    requires ItemsIn(g, items) && UnfoldsItems(g, items, ts) && !PrintItems(g, items, ancestors).Threw?
    ensures PrintItems(g, items, ancestors) == Printed(ItemsText(ts))
    decreases g.Keys - ancestors, 1, items
  {
    if items.Cons? {
      PrintUnfolded(g, items.head, ts.head, true, ancestors);
      if items.tail.Cons? {
        PrintUnfoldedItems(g, items.tail, ts.tail, ancestors);
      }
    }
  }

  lemma {:induction false} PrintUnfoldedMembers(g: Graph, ms: Members<Slot>, ts: Members<Value>,
                                                ancestors: set<ObjectId>)
    requires MembersIn(g, ms) && UnfoldsMembers(g, ms, ts) && PrintTexts(g, ms, ancestors).Some?
    ensures PrintTexts(g, ms, ancestors) == Some(MemberTexts(ts))
    decreases g.Keys - ancestors, 1, ms
  {
    if ms.Member? {
      PrintUnfolded(g, ms.value, ts.value, false, ancestors);
      PrintUnfoldedMembers(g, ms.rest, ts.rest, ancestors);
    }
  }

  /** What prints unfolds. */
  lemma {:induction false} PrintedUnfolds(g: Graph, s: Slot, inArray: bool, ancestors: set<ObjectId>) returns (t: Value)
    requires SlotIn(g, s) && !Print(g, s, inArray, ancestors).Threw?
    ensures Unfolds(g, s, t)
    decreases g.Keys - ancestors, 0
  {
    match s
    case Leaf(v) => t := v;
    case Ref(id) =>
      match g[id] {
        case ArrayObject(items) =>
          var ts := PrintedItemsUnfold(g, items, ancestors + {id});
          t := Arr(ts);
        case RecordObject(ms) =>
          SortIn(g, ms);
          var ts := PrintedMembersUnfold(g, Sort(ms), ancestors + {id});
          SortSorted(ms);
          var us := UnsortedUnfold(g, ms, Sort(ms), ts);
          t := Obj(us);
      }
  }

  lemma {:induction false} PrintedItemsUnfold(g: Graph, items: List<Slot>, ancestors: set<ObjectId>)
    returns (ts: List<Value>)
    requires ItemsIn(g, items) && !PrintItems(g, items, ancestors).Threw?
    ensures UnfoldsItems(g, items, ts)
    decreases g.Keys - ancestors, 1, items
  {
    if items.Nil? {
      ts := Nil;
    } else {
      var head := PrintedUnfolds(g, items.head, true, ancestors);
      var tail := PrintedItemsUnfold(g, items.tail, ancestors);
      ts := Cons(head, tail);
    }
  }

  lemma {:induction false} PrintedMembersUnfold(g: Graph, ms: Members<Slot>, ancestors: set<ObjectId>)
    returns (ts: Members<Value>)
    requires MembersIn(g, ms) && PrintTexts(g, ms, ancestors).Some?
    ensures UnfoldsMembers(g, ms, ts)
    decreases g.Keys - ancestors, 1, ms
  {
    if ms.End? {
      ts := End;
    } else {
      var head := PrintedUnfolds(g, ms.value, false, ancestors);
      var tail := PrintedMembersUnfold(g, ms.rest, ancestors);
      ts := Member(ms.key, head, tail);
    }
  }

  /** The members of `ms`, all found in `all`, take their trees from the unfolding of `all`. */
  lemma {:induction false} UnsortedUnfold(g: Graph, ms: Members<Slot>, all: Members<Slot>, ts: Members<Value>)
    returns (us: Members<Value>)
    requires UnfoldsMembers(g, all, ts) && Distinct(ms)
    requires forall k :: Has(ms, k) ==> Find(all, k) == Find(ms, k)
    ensures UnfoldsMembers(g, ms, us)
    decreases ms
  {
    if ms.End? {
      us := End;
    } else {
      assert Find(all, ms.key) == Find(ms, ms.key);
      UnfoldsFind(g, all, ts, ms.key);
      forall k | Has(ms.rest, k) ensures Find(all, k) == Find(ms.rest, k) {
        assert Has(ms, k);
      }
      var rest := UnsortedUnfold(g, ms.rest, all, ts);
      us := Member(ms.key, Find(ts, ms.key).value, rest);
    }
  }

  /******* Cycles and unsupported values *******/

  predicate ChildOfItems(items: List<Slot>, s: Slot) {
    items.Cons? && (items.head == s || ChildOfItems(items.tail, s))
  }

  predicate ChildOfMembers(ms: Members<Slot>, s: Slot) {
    ms.Member? && (ms.value == s || ChildOfMembers(ms.rest, s))
  }

  /** The object `id` holds `s` in some slot. */
  predicate Holds(g: Graph, id: ObjectId, s: Slot) {
    id in g &&
    match g[id]
    case ArrayObject(items) => ChildOfItems(items, s)
    case RecordObject(ms) => ChildOfMembers(ms, s)
  }

  /** A walk from object to member object. */
  ghost predicate Walk(g: Graph, p: seq<ObjectId>) {
    |p| > 0 && p[0] in g && forall i :: 0 <= i < |p| - 1 ==> Holds(g, p[i], Ref(p[i + 1]))
  }

  /** Some walk from `s` visits an object twice. */
  ghost predicate ReachesCycle(g: Graph, s: Slot) {
    s.Ref? && exists p, i, j :: Walk(g, p) && p[0] == s.id && 0 <= i < j < |p| && p[i] == p[j]
  }

  /** A bigint, function or symbol is reachable from `s`. */
  ghost predicate ReachesForeign(g: Graph, s: Slot) {
    s.Foreign? || (s.Ref? && exists p :: Walk(g, p) && p[0] == s.id && Holds(g, p[|p| - 1], Foreign))
  }

  /** The walk that a throw witnesses: it returns to itself or to an ancestor, or meets an unsupported value. */
  ghost predicate Trouble(g: Graph, p: seq<ObjectId>, ancestors: set<ObjectId>) {
    Walk(g, p) &&
    (p[|p| - 1] in ancestors || p[|p| - 1] in p[..|p| - 1] || Holds(g, p[|p| - 1], Foreign))
  }

  lemma {:induction false} ChildSorted(ms: Members<Slot>, s: Slot)
    requires ChildOfMembers(Sort(ms), s)
    ensures ChildOfMembers(ms, s)
  {
    if ms.Member? {
      ChildInserted(ms.key, ms.value, Sort(ms.rest), s);
      if ms.value != s {
        ChildSorted(ms.rest, s);
      }
    }
  }

  lemma {:induction false} ChildInserted(k: JsString, v: Slot, ms: Members<Slot>, s: Slot)
    requires ChildOfMembers(Insert(k, v, ms), s)
    ensures v == s || ChildOfMembers(ms, s)
  {
    if ms.Member? && Less(ms.key, k) && ms.value != s {
      ChildInserted(k, v, ms.rest, s);
    }
  }

  lemma {:induction false} ThrowWitness(g: Graph, s: Slot, inArray: bool, ancestors: set<ObjectId>)
    returns (p: seq<ObjectId>)
    requires s.Ref? && s.id in g && Print(g, s, inArray, ancestors).Threw?
    ensures Trouble(g, p, ancestors) && p[0] == s.id
    decreases g.Keys - ancestors, 0
  {
    if s.id in ancestors {
      p := [s.id];
    } else {
      var child: Slot;
      match g[s.id] {
        case ArrayObject(items) =>
          child := ThrowingItem(g, items, ancestors + {s.id});
          if child.Ref? {
            var q := ThrowWitness(g, child, true, ancestors + {s.id});
            p := ExtendWitness(g, s.id, child.id, q, ancestors);
          } else {
            p := [s.id];
          }
        case RecordObject(ms) =>
          SortIn(g, ms);
          child := ThrowingMember(g, Sort(ms), ancestors + {s.id});
          ChildSorted(ms, child);
          if child.Ref? {
            var q := ThrowWitness(g, child, false, ancestors + {s.id});
            p := ExtendWitness(g, s.id, child.id, q, ancestors);
          } else {
            p := [s.id];
          }
      }
    }
  }

  lemma ExtendWitness(g: Graph, id: ObjectId, child: ObjectId, q: seq<ObjectId>, ancestors: set<ObjectId>)
    returns (p: seq<ObjectId>)
    requires id in g && Holds(g, id, Ref(child)) && Trouble(g, q, ancestors + {id}) && q[0] == child
    ensures Trouble(g, p, ancestors) && p[0] == id
  {
    p := [id] + q;
    assert p[|p| - 1] == q[|q| - 1];
    assert p[..|p| - 1] == [id] + q[..|q| - 1];
    forall i | 0 <= i < |p| - 1 ensures Holds(g, p[i], Ref(p[i + 1])) {
      if i > 0 {
        assert Holds(g, q[i - 1], Ref(q[i - 1 + 1]));
      }
    }
  }

  lemma {:induction false} ThrowingItem(g: Graph, items: List<Slot>, ancestors: set<ObjectId>) returns (s: Slot)
    requires ItemsIn(g, items) && PrintItems(g, items, ancestors).Threw?
    ensures ChildOfItems(items, s) && SlotIn(g, s) && Print(g, s, true, ancestors).Threw?
    decreases items
  {
    if Print(g, items.head, true, ancestors).Threw? {
      s := items.head;
    } else {
      s := ThrowingItem(g, items.tail, ancestors);
    }
  }

  lemma {:induction false} ThrowingMember(g: Graph, ms: Members<Slot>, ancestors: set<ObjectId>) returns (s: Slot)
    requires MembersIn(g, ms) && PrintTexts(g, ms, ancestors).None?
    ensures ChildOfMembers(ms, s) && SlotIn(g, s) && Print(g, s, false, ancestors).Threw?
    decreases ms
  {
    if Print(g, ms.value, false, ancestors).Threw? {
      s := ms.value;
    } else {
      s := ThrowingMember(g, ms.rest, ancestors);
    }
  }

  /******* A finite unfolding rules both out *******/

  function Size(t: Value): (n: nat) {
    match t
    case Arr(items) => 1 + ItemsSize(items)
    case Obj(ms) => 1 + MembersSize(ms)
    case _ => 1
  }

  function ItemsSize(items: List<Value>): (n: nat) {
    match items
    case Nil => 0
    case Cons(head, tail) => Size(head) + ItemsSize(tail)
  }

  function MembersSize(ms: Members<Value>): (n: nat) {
    match ms
    case End => 0
    case Member(_, value, rest) => Size(value) + MembersSize(rest)
  }

  lemma ChildUnfolds(g: Graph, id: ObjectId, t: Value, s: Slot) returns (u: Value)
    requires Unfolds(g, Ref(id), t) && Holds(g, id, s)
    ensures Unfolds(g, s, u) && Size(u) < Size(t)
  {
    match g[id]
    case ArrayObject(items) => u := ItemUnfolds(g, items, t.items, s);
    case RecordObject(ms) => u := MemberUnfolds(g, ms, t.members, s);
  }

  lemma {:induction false} ItemUnfolds(g: Graph, items: List<Slot>, ts: List<Value>, s: Slot) returns (u: Value)
    requires UnfoldsItems(g, items, ts) && ChildOfItems(items, s)
    ensures Unfolds(g, s, u) && Size(u) <= ItemsSize(ts)
    decreases ts
  {
    if items.head == s {
      u := ts.head;
    } else {
      u := ItemUnfolds(g, items.tail, ts.tail, s);
    }
  }

  lemma {:induction false} MemberUnfolds(g: Graph, ms: Members<Slot>, ts: Members<Value>, s: Slot) returns (u: Value)
    requires UnfoldsMembers(g, ms, ts) && ChildOfMembers(ms, s)
    ensures Unfolds(g, s, u) && Size(u) <= MembersSize(ts)
    decreases ts
  {
    if ms.value == s {
      u := ts.value;
    } else {
      u := MemberUnfolds(g, ms.rest, ts.rest, s);
    }
  }

  /** Along a walk from position i to position j the unfoldings shrink. */
  lemma {:induction false} WalkShrinks(g: Graph, p: seq<ObjectId>, i: nat, j: nat, t: Value) returns (u: Value)
    requires Walk(g, p) && i <= j < |p| && Unfolds(g, Ref(p[i]), t)
    ensures Unfolds(g, Ref(p[j]), u) && Size(u) + (j - i) <= Size(t)
    decreases j - i
  {
    if i == j {
      u := t;
    } else {
      var before := WalkShrinks(g, p, i, j - 1, t);
      assert Holds(g, p[j - 1], Ref(p[j - 1 + 1]));
      u := ChildUnfolds(g, p[j - 1], before, Ref(p[j]));
    }
  }

  lemma UnfoldedIsAcyclic(g: Graph, s: Slot, t: Value)
    requires Unfolds(g, s, t)
    ensures !ReachesCycle(g, s) && !ReachesForeign(g, s)
  {
    if s.Ref? {
      forall p, i, j | Walk(g, p) && p[0] == s.id && 0 <= i < j < |p|
        ensures p[i] != p[j]
      {
        var u := WalkShrinks(g, p, 0, i, t);
        var w := WalkShrinks(g, p, i, j, u);
        if p[i] == p[j] {
          UnfoldsOnce(g, Ref(p[i]), u, w);
        }
      }
      forall p | Walk(g, p) && p[0] == s.id
        ensures !Holds(g, p[|p| - 1], Foreign)
      {
        var u := WalkShrinks(g, p, 0, |p| - 1, t);
        if Holds(g, p[|p| - 1], Foreign) {
          var w := ChildUnfolds(g, p[|p| - 1], u, Foreign);
        }
      }
    }
  }

  /** Printing throws exactly when a cycle or an unsupported value is reachable from the root. */
  lemma ThrowsExactlyOnTrouble(g: Graph, s: Slot)
    requires SlotIn(g, s)
    ensures Print(g, s, false, {}).Threw? <==> ReachesCycle(g, s) || ReachesForeign(g, s)
  {
    if Print(g, s, false, {}).Threw? {
      if s.Ref? {
        var p := ThrowWitness(g, s, false, {});
        if !Holds(g, p[|p| - 1], Foreign) {
          var i :| 0 <= i < |p| - 1 && p[..|p| - 1][i] == p[|p| - 1];
          assert p[i] == p[|p| - 1];
          assert ReachesCycle(g, s);
        }
      }
    } else {
      var t := PrintedUnfolds(g, s, false, {});
      UnfoldedIsAcyclic(g, s, t);
    }
  }

  /** On graphs without trouble, sharing included, the text is that of the unfolded tree. */
  lemma PrintsTheUnfoldedTree(g: Graph, s: Slot) returns (t: Value)
    requires SlotIn(g, s) && !ReachesCycle(g, s) && !ReachesForeign(g, s)
    ensures Unfolds(g, s, t) && Print(g, s, false, {}) == TreeOutcome(t, false)
  {
    ThrowsExactlyOnTrouble(g, s);
    t := PrintedUnfolds(g, s, false, {});
    PrintUnfolded(g, s, t, false, {});
  }

  /******* The walk with its shared ancestor set *******/

  class Printer {
    const graph: Graph
    var ancestors: set<ObjectId>

    constructor (graph: Graph)
      ensures this.graph == graph && ancestors == {}
    {
      this.graph := graph;
      ancestors := {};
    }

    /** Prints one slot and leaves the ancestor set as it was, also when it throws. */
    method Stringify(s: Slot, inArray: bool) returns (r: Outcome)
      requires SlotIn(graph, s)
      modifies this
      ensures ancestors == old(ancestors)
      ensures r == Print(graph, s, inArray, ancestors)
      decreases graph.Keys - ancestors, 0
    {
      match s {
        case Leaf(v) => r := if v.Undefined? && !inArray then Absent else Printed(StableText(v));
        case Foreign => r := Threw;
        case Ref(id) =>
          if id in ancestors {
            return Threw;
          }
          ancestors := ancestors + {id};
          match graph[id] {
            case ArrayObject(items) =>
              var body := StringifyItems(items);
              r := Enclosed(LBRACKET, body, RBRACKET);
            case RecordObject(ms) =>
              SortIn(graph, ms);
              var texts := StringifyMembers(Sort(ms));
              r := if texts.Some? then Enclosed(LBRACE, Printed(Joined(texts.value)), RBRACE) else Threw;
          }
          ancestors := ancestors - {id};
      }
    }

    method StringifyItems(items: List<Slot>) returns (r: Outcome)
      requires ItemsIn(graph, items)
      modifies this
      ensures ancestors == old(ancestors)
      ensures r == PrintItems(graph, items, ancestors)
      decreases graph.Keys - ancestors, 1, items
    {
      if items.Nil? {
        return Printed([]);
      }
      var head := Stringify(items.head, true);
      if head.Threw? {
        return Threw;
      }
      if items.tail.Nil? {
        return Printed(PrintedOrNull(head));
      }
      var tail := StringifyItems(items.tail);
      r := if tail.Threw? then Threw else Printed(PrintedOrNull(head) + [COMMA] + PrintedOrNull(tail));
    }

    /** The texts of the members in key order, without the undefined ones. */
    method StringifyMembers(ms: Members<Slot>) returns (r: Option<Members<JsString>>)
      requires MembersIn(graph, ms)
      modifies this
      ensures ancestors == old(ancestors)
      ensures r == PrintTexts(graph, ms, ancestors)
      decreases graph.Keys - ancestors, 1, ms
    {
      if ms.End? {
        return Some(End);
      }
      var head := Stringify(ms.value, false);
      if head.Threw? {
        return None;
      }
      var tail := StringifyMembers(ms.rest);
      r := if tail.None? || head.Absent? then tail else Some(Member(ms.key, head.text, tail.value));
    }
  }

  /** The entry point: no text exactly when there is trouble, otherwise the text of the unfolded tree. */
  method StableStringify(g: Graph, s: Slot) returns (r: Option<JsString>, ghost t: Value)
    requires SlotIn(g, s)
    ensures r.None? <==> ReachesCycle(g, s) || ReachesForeign(g, s)
    ensures r.Some? ==> Unfolds(g, s, t) && r.value == StableText(t)
  {
    var printer := new Printer(g);
    var o := printer.Stringify(s, false);
    ThrowsExactlyOnTrouble(g, s);
    if o.Threw? {
      return None, Null;
    }
    t := PrintsTheUnfoldedTree(g, s);
    r := Some(PrintedOrNull(o));
  }
}

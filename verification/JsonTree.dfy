/**
 JSON-like trees as the sidecar handles them: plain records, arrays and primitives, including
 `undefined`. A record keeps its members in insertion order.
 */
module JsonTree {
  import opened Wrappers
  import opened JsText

  datatype List<T> = Nil | Cons(head: T, tail: List<T>)

  datatype Members<T> = End | Member(key: JsString, value: T, rest: Members<T>)

  predicate NumberChar(c: CodeUnit) {
    0x30 <= c <= 0x39 || c == 0x2B || c == 0x2D || c == 0x2E || c == 0x45 || c == 0x65
  }

  /**
   The decimal text of a finite number. Number-to-string conversion is injective on the finite
   numbers other than -0, so such a number is identified with its text.
   */
  type NumberToken = t: JsString | |t| > 0 && forall i :: 0 <= i < |t| ==> NumberChar(t[i]) witness [0x30]

  const ZERO: NumberToken := [0x30]

  datatype Number = Finite(token: NumberToken) | NegativeZero | NonFinite

  datatype Value =
    | Undefined
    | Null
    | Bool(b: bool)
    | Num(n: Number)
    | Str(s: JsString)
    | Arr(items: List<Value>)
    | Obj(members: Members<Value>)

  /** Records have distinct keys, at every depth. */
  ghost predicate WellFormed(v: Value) {
    match v
    case Arr(items) => WellFormedItems(items)
    case Obj(ms) => Distinct(ms) && WellFormedMembers(ms)
    case _ => true
  }

  ghost predicate WellFormedItems(items: List<Value>) {
    items.Cons? ==> WellFormed(items.head) && WellFormedItems(items.tail)
  }

  ghost predicate WellFormedMembers(ms: Members<Value>) {
    ms.Member? ==> WellFormed(ms.value) && WellFormedMembers(ms.rest)
  }

  /******* Member lists *******/

  function Find<T>(ms: Members<T>, k: JsString): (r: Option<T>) {
    match ms
    case End => None
    case Member(key, value, rest) => if key == k then Some(value) else Find(rest, k)
  }

  predicate Has<T>(ms: Members<T>, k: JsString) {
    Find(ms, k).Some?
  }

  ghost predicate Distinct<T>(ms: Members<T>) {
    ms.Member? ==> !Has(ms.rest, ms.key) && Distinct(ms.rest)
  }

  lemma DistinctMember<T>(k: JsString, v: T, rest: Members<T>)
    requires Distinct(rest) && k !in KeyOrder(rest)
    ensures Distinct(Member(k, v, rest))
  {
    KeyOrderHas(rest, k);
  }

  /** Assignment to a property: in place when present, at the end when new. */
  function Put<T>(ms: Members<T>, k: JsString, v: T): (r: Members<T>) {
    match ms
    case End => Member(k, v, End)
    case Member(key, value, rest) => if key == k then Member(k, v, rest) else Member(key, value, Put(rest, k, v))
  }

  lemma FindPut<T>(ms: Members<T>, k: JsString, v: T, q: JsString)
    ensures Find(Put(ms, k, v), q) == if q == k then Some(v) else Find(ms, q)
  {
  }

  lemma {:induction false} DistinctPut<T>(ms: Members<T>, k: JsString, v: T)
    requires Distinct(ms)
    ensures Distinct(Put(ms, k, v))
  {
    if ms.Member? && ms.key != k {
      DistinctPut(ms.rest, k, v);
      FindPut(ms.rest, k, v, ms.key);
    }
  }

  lemma {:induction false} WellFormedPut(ms: Members<Value>, k: JsString, v: Value)
    requires WellFormedMembers(ms) && WellFormed(v)
    ensures WellFormedMembers(Put(ms, k, v))
  {
    if ms.Member? && ms.key != k {
      WellFormedPut(ms.rest, k, v);
    }
  }

  lemma {:induction false} WellFormedFind(ms: Members<Value>, k: JsString)
    requires WellFormedMembers(ms) && Has(ms, k)
    ensures WellFormed(Find(ms, k).value)
  {
    if ms.key != k {
      WellFormedFind(ms.rest, k);
    }
  }

  function KeyOrder<T>(ms: Members<T>): (r: seq<JsString>) {
    match ms
    case End => []
    case Member(key, _, rest) => [key] + KeyOrder(rest)
  }

  lemma {:induction false} KeyOrderHas<T>(ms: Members<T>, k: JsString)
    ensures Has(ms, k) <==> k in KeyOrder(ms)
  {
    if ms.Member? {
      KeyOrderHas(ms.rest, k);
    }
  }

  /** Two member lists with the same key order and the same values are the same list. */
  lemma {:induction false} SameOrderSameMembers<T>(a: Members<T>, b: Members<T>)
    requires Distinct(a) && KeyOrder(a) == KeyOrder(b)
    requires forall k :: Find(a, k) == Find(b, k)
    ensures a == b
  {
    if a.Member? && b.Member? {
      assert a.key == KeyOrder(a)[0] == b.key;
      assert KeyOrder(a.rest) == KeyOrder(a)[1..] == KeyOrder(b)[1..] == KeyOrder(b.rest);
      assert Find(a, a.key) == Find(b, a.key);
      forall k ensures Find(a.rest, k) == Find(b.rest, k) {
        assert Find(a, k) == Find(b, k);
        if k == a.key {
          KeyOrderHas(a.rest, k);
          KeyOrderHas(b.rest, k);
        }
      }
      SameOrderSameMembers(a.rest, b.rest);
    }
  }

  /******* Sorting by key *******/

  ghost predicate Sorted<T>(ms: Members<T>) {
    ms.Member? && ms.rest.Member? ==> Less(ms.key, ms.rest.key) && Sorted(ms.rest)
  }

  function Insert<T>(k: JsString, v: T, ms: Members<T>): (r: Members<T>) {
    if ms.Member? && Less(ms.key, k) then Member(ms.key, ms.value, Insert(k, v, ms.rest)) else Member(k, v, ms)
  }

  function Sort<T>(ms: Members<T>): (r: Members<T>) {
    match ms
    case End => End
    case Member(key, value, rest) => Insert(key, value, Sort(rest))
  }

  lemma {:induction false} SortedHead<T>(ms: Members<T>, k: JsString)
    requires Sorted(ms) && Has(ms, k)
    ensures k == ms.key || Less(ms.key, k)
  {
    if k != ms.key {
      SortedHead(ms.rest, k);
      if k != ms.rest.key {
        LessTransitive(ms.key, ms.rest.key, k);
      }
    }
  }

  lemma {:induction false} SortedTail<T>(ms: Members<T>)
    requires Sorted(ms) && ms.Member?
    ensures Sorted(ms.rest) && !Has(ms.rest, ms.key)
  {
    if Has(ms.rest, ms.key) {
      SortedHead(ms.rest, ms.key);
      LessIrreflexive(ms.key);
      if ms.key != ms.rest.key {
        LessTransitive(ms.key, ms.rest.key, ms.key);
      }
    }
  }

  lemma {:induction false} SortedDistinct<T>(ms: Members<T>)
    requires Sorted(ms)
    ensures Distinct(ms)
  {
    if ms.Member? {
      SortedTail(ms);
      SortedDistinct(ms.rest);
    }
  }

  lemma {:induction false} InsertSorted<T>(k: JsString, v: T, ms: Members<T>)
    requires Sorted(ms) && !Has(ms, k)
    ensures Sorted(Insert(k, v, ms))
    ensures forall q :: Find(Insert(k, v, ms), q) == if q == k then Some(v) else Find(ms, q)
  {
    if ms.Member? {
      SortedTail(ms);
      if Less(ms.key, k) {
        InsertSorted(k, v, ms.rest);
      } else {
        LessTotal(ms.key, k);
      }
    }
  }

  lemma {:induction false} SortSorted<T>(ms: Members<T>)
    requires Distinct(ms)
    ensures Sorted(Sort(ms))
    ensures forall q :: Find(Sort(ms), q) == Find(ms, q)
  {
    if ms.Member? {
      SortSorted(ms.rest);
      assert Find(Sort(ms.rest), ms.key) == Find(ms.rest, ms.key);
      InsertSorted(ms.key, ms.value, Sort(ms.rest));
    }
  }

  /** A sorted member list is determined by its lookups: sorting forgets nothing but order. */
  lemma {:induction false} SortedUnique<T>(a: Members<T>, b: Members<T>)
    requires Sorted(a) && Sorted(b)
    requires forall k :: Find(a, k) == Find(b, k)
    ensures a == b
  {
    if a.Member? {
      assert Find(a, a.key) == Find(b, a.key);
      assert Find(a, b.key) == Find(b, b.key);
      SortedHead(b, a.key);
      SortedHead(a, b.key);
      if a.key != b.key {
        LessTransitive(a.key, b.key, a.key);
        LessIrreflexive(a.key);
        assert false;
      }
      SortedTail(a);
      SortedTail(b);
      forall k ensures Find(a.rest, k) == Find(b.rest, k) {
        assert Find(a, k) == Find(b, k);
      }
      SortedUnique(a.rest, b.rest);
    } else if b.Member? {
      var absent := Find(a, b.key);
      assert false;
    }
  }
}

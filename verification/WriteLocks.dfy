/**
 The keyed write lock: a map of promise chains. An asynchronous call is cut at its awaits into
 atomic turns; the promises it makes are named after the call.
 */
module WriteLocks {
  import opened Wrappers
  import JsText

  type Key = JsText.JsString

  type Task = nat

  /** One call: its key, and the call whose queued promise it awaits (none: already resolved). */
  datatype Call = Call(key: Key, previous: Option<Task>)

  /**
   `pending` maps a key to the call whose queued promise is stored there. A call is started once
   its task runs, finished once its task returned or threw, and settled once its queued promise
   resolved.
   */
  datatype Locks = Locks(
    calls: seq<Call>, pending: map<Key, Task>, started: set<Task>, finished: set<Task>, settled: set<Task>)

  const NO_LOCKS := Locks([], map[], {}, {}, {})

  function Enter(s: Locks, key: Key): (r: Locks) {
    var previous := if key in s.pending then Some(s.pending[key]) else None;
    s.(calls := s.calls + [Call(key, previous)], pending := s.pending[key := |s.calls|])
  }

  predicate PreviousResolved(s: Locks, t: Task)
    requires t < |s.calls|
  {
    s.calls[t].previous.Some? ==> s.calls[t].previous.value in s.settled
  }

  predicate CanStart(s: Locks, t: Task) {
    t < |s.calls| && t !in s.started && PreviousResolved(s, t)
  }

  function Start(s: Locks, t: Task): (r: Locks) {
    s.(started := s.started + {t})
  }

  predicate Running(s: Locks, t: Task) {
    t < |s.calls| && t in s.started && t !in s.finished
  }

  /** The task is over, by return or by throw: release, and clean up if nobody queued behind. */
  function Finish(s: Locks, t: Task): (r: Locks)
    requires t < |s.calls|
  {
    var key := s.calls[t].key;
    s.(finished := s.finished + {t},
       pending := if key in s.pending && s.pending[key] == t then s.pending - {key} else s.pending)
  }

  /** The queued promise resolves once the awaited one has and the task has released. */
  predicate CanSettle(s: Locks, t: Task) {
    t < |s.calls| && t in s.finished && t !in s.settled && PreviousResolved(s, t)
  }

  function Settle(s: Locks, t: Task): (r: Locks) {
    s.(settled := s.settled + {t})
  }

  /** The module state as it is kept, with one method per turn. */
  class LockTable {
    var calls: seq<Call>
    var pending: map<Key, Task>
    var started: set<Task>
    var finished: set<Task>
    var settled: set<Task>

    function State(): (s: Locks)
      reads this
    {
      Locks(calls, pending, started, finished, settled)
    }

    ghost predicate Valid()
      reads this
    {
      Inv(State())
    }

    constructor ()
      ensures State() == NO_LOCKS && Valid()
    {
      calls, pending, started, finished, settled := [], map[], {}, {}, {};
    }

    /** Everything before the first await. */
    method CallWithWriteLock(key: Key) returns (t: Task)
      requires Valid()
      modifies this
      ensures State() == Enter(old(State()), key) && t == |old(calls)| && Valid()
    {
      EnterKeepsInv(State(), key);
      var previous := if key in pending then Some(pending[key]) else None;
      t := |calls|;
      calls := calls + [Call(key, previous)];
      pending := pending[key := t];
    }

    method RunTask(t: Task)
      requires Valid() && CanStart(State(), t)
      modifies this
      ensures State() == Start(old(State()), t) && Valid()
    {
      StartKeepsInv(State(), t);
      started := started + {t};
    }

    method ReleaseTask(t: Task)
      requires Valid() && Running(State(), t)
      modifies this
      ensures State() == Finish(old(State()), t) && Valid()
    {
      FinishKeepsInv(State(), t);
      var key := calls[t].key;
      finished := finished + {t};
      if key in pending && pending[key] == t {
        pending := pending - {key};
      }
    }

    method ResolveQueued(t: Task)
      requires Valid() && CanSettle(State(), t)
      modifies this
      ensures State() == Settle(old(State()), t) && Valid()
    {
      SettleKeepsInv(State(), t);
      settled := settled + {t};
    }
  }

  datatype Turn = Entering(key: Key) | Starting(t: Task) | Finishing(t: Task) | Settling(t: Task)

  predicate Enabled(s: Locks, turn: Turn) {
    match turn
    case Entering(_) => true
    case Starting(t) => CanStart(s, t)
    case Finishing(t) => Running(s, t)
    case Settling(t) => CanSettle(s, t)
  }

  function Next(s: Locks, turn: Turn): (r: Locks)
    requires Enabled(s, turn)
  {
    match turn
    case Entering(key) => Enter(s, key)
    case Starting(t) => Start(s, t)
    case Finishing(t) => Finish(s, t)
    case Settling(t) => Settle(s, t)
  }

  /** Any interleaving of turns, from an empty table. */
  ghost predicate Run(states: seq<Locks>, turns: seq<Turn>) {
    |states| == |turns| + 1 && states[0] == NO_LOCKS &&
    forall i {:trigger turns[i]} :: 0 <= i < |turns| ==>
      Enabled(states[i], turns[i]) && states[i + 1] == Next(states[i], turns[i])
  }

  /******* Invariant *******/

  predicate SameKey(s: Locks, t: Task, u: Task) {
    t < |s.calls| && u < |s.calls| && s.calls[t].key == s.calls[u].key
  }

  /** Every earlier call with the key of t is finished. */
  ghost predicate EarlierFinished(s: Locks, t: Task) {
    forall u: Task :: u < t && SameKey(s, u, t) ==> u in s.finished
  }

  /** The awaited call is the last earlier one with the same key. */
  ghost predicate AwaitsLast(s: Locks, t: Task)
    requires t < |s.calls|
  {
    match s.calls[t].previous
    case None => EarlierFinished(s, t)
    case Some(p) => p < t && SameKey(s, p, t) && forall u: Task :: p < u < t ==> !SameKey(s, u, t)
  }

  /** A key is pending exactly while some call of it is unfinished, and then for its last call. */
  ghost predicate PendingExact(s: Locks) {
    (forall key :: key in s.pending ==>
      s.pending[key] < |s.calls| && s.calls[s.pending[key]].key == key && s.pending[key] !in s.finished &&
      forall u: Task :: s.pending[key] < u < |s.calls| ==> s.calls[u].key != key) &&
    (forall t: Task :: t < |s.calls| && t !in s.finished ==> s.calls[t].key in s.pending)
  }

  ghost predicate Inv(s: Locks) {
    (forall t: Task :: t in s.started ==> t < |s.calls|) &&
    s.finished <= s.started && s.settled <= s.finished &&
    (forall t: Task :: t < |s.calls| ==> AwaitsLast(s, t)) &&
    (forall t: Task :: t in s.started ==> PreviousResolved(s, t) && EarlierFinished(s, t)) &&
    PendingExact(s)
  }

  lemma StartableFollowsFinished(s: Locks, t: Task)
    requires Inv(s) && CanStart(s, t)
    ensures EarlierFinished(s, t)
  {
    assert AwaitsLast(s, t);
    if s.calls[t].previous.Some? {
      var p := s.calls[t].previous.value;
      assert p in s.started;
      forall u: Task | u < t && SameKey(s, u, t) ensures u in s.finished {
        if u < p {
          assert SameKey(s, u, p);
        }
      }
    }
  }

  lemma EnterKeepsInv(s: Locks, key: Key)
    requires Inv(s)
    ensures Inv(Enter(s, key))
  {
    var r, n := Enter(s, key), |s.calls|;
    forall t: Task | t < n ensures AwaitsLast(r, t) {
      assert AwaitsLast(s, t);
      assert forall u: Task :: u <= t ==> (SameKey(r, u, t) <==> SameKey(s, u, t));
    }
    assert AwaitsLast(r, n);
    forall t: Task | t in r.started ensures PreviousResolved(r, t) && EarlierFinished(r, t) {
      assert PreviousResolved(s, t) && EarlierFinished(s, t);
      assert forall u: Task :: u < t ==> (SameKey(r, u, t) <==> SameKey(s, u, t));
    }
  }

  lemma StartKeepsInv(s: Locks, t: Task)
    requires Inv(s) && CanStart(s, t)
    ensures Inv(Start(s, t))
  {
    var r := Start(s, t);
    StartableFollowsFinished(s, t);
    forall u: Task | u < |r.calls| ensures AwaitsLast(r, u) {
      assert AwaitsLast(s, u);
      assert forall q: Task :: SameKey(r, q, u) <==> SameKey(s, q, u);
    }
    forall u: Task | u in r.started ensures PreviousResolved(r, u) && EarlierFinished(r, u) {
      assert EarlierFinished(s, u);
      assert forall q: Task :: SameKey(r, q, u) <==> SameKey(s, q, u);
    }
  }

  lemma FinishKeepsInv(s: Locks, t: Task)
    requires Inv(s) && Running(s, t)
    ensures Inv(Finish(s, t))
  {
    var r := Finish(s, t);
    assert forall q: Task, u: Task :: SameKey(r, q, u) <==> SameKey(s, q, u);
    forall u: Task | u < |r.calls| ensures AwaitsLast(r, u) {
      assert AwaitsLast(s, u);
    }
    forall u: Task | u in r.started ensures PreviousResolved(r, u) && EarlierFinished(r, u) {
      assert EarlierFinished(s, u);
    }
    FinishKeepsPending(s, t);
  }

  lemma FinishKeepsPending(s: Locks, t: Task)
    requires Inv(s) && Running(s, t)
    ensures PendingExact(Finish(s, t))
  {
    var r, key := Finish(s, t), s.calls[t].key;
    forall u: Task | u < |r.calls| && u !in r.finished ensures r.calls[u].key in r.pending {
      if s.calls[u].key == key {
        if u < t {
          var same := SameKey(s, u, t);
          assert false;
        }
        assert t < u <= s.pending[key];
      }
    }
  }

  lemma SettleKeepsInv(s: Locks, t: Task)
    requires Inv(s) && CanSettle(s, t)
    ensures Inv(Settle(s, t))
  {
    var r := Settle(s, t);
    assert forall q: Task, u: Task :: SameKey(r, q, u) <==> SameKey(s, q, u);
    forall u: Task | u < |r.calls| ensures AwaitsLast(r, u) {
      assert AwaitsLast(s, u);
    }
    forall u: Task | u in r.started ensures PreviousResolved(r, u) && EarlierFinished(r, u) {
      assert PreviousResolved(s, u) && EarlierFinished(s, u);
    }
  }

  lemma {:induction false} RunKeepsInv(states: seq<Locks>, turns: seq<Turn>, i: nat)
    requires Run(states, turns) && i < |states|
    ensures Inv(states[i])
  {
    if i > 0 {
      RunKeepsInv(states, turns, i - 1);
      match turns[i - 1]
      case Entering(key) => EnterKeepsInv(states[i - 1], key);
      case Starting(t) => StartKeepsInv(states[i - 1], t);
      case Finishing(t) => FinishKeepsInv(states[i - 1], t);
      case Settling(t) => SettleKeepsInv(states[i - 1], t);
    }
  }

  /******* One first-in first-out queue per key *******/

  /** The unfinished calls of a key among the first n, in call order. */
  ghost function QueueOf(s: Locks, key: Key, n: nat): (q: seq<Task>)
    requires n <= |s.calls|
  {
    if n == 0 then []
    else QueueOf(s, key, n - 1) + if s.calls[n - 1].key == key && n - 1 !in s.finished then [n - 1] else []
  }

  ghost function Queue(s: Locks, key: Key): (q: seq<Task>) {
    QueueOf(s, key, |s.calls|)
  }

  lemma {:induction false} QueueOfUnchanged(s: Locks, r: Locks, key: Key, n: nat)
    requires n <= |s.calls| && n <= |r.calls|
    requires forall t: Task :: t < n ==> s.calls[t].key == r.calls[t].key
    requires forall t: Task :: t < n && s.calls[t].key == key ==> (t in s.finished <==> t in r.finished)
    ensures QueueOf(s, key, n) == QueueOf(r, key, n)
  {
    if n > 0 {
      QueueOfUnchanged(s, r, key, n - 1);
    }
  }

  lemma {:induction false} QueueOfEmpty(s: Locks, key: Key, n: nat)
    requires n <= |s.calls| && forall t: Task :: t < n && s.calls[t].key == key ==> t in s.finished
    ensures QueueOf(s, key, n) == []
  {
    if n > 0 {
      QueueOfEmpty(s, key, n - 1);
    }
  }

  /** An unfinished call behind nobody is the head, and finishing it takes it away. */
  lemma {:induction false} HeadOfQueue(s: Locks, t: Task, n: nat)
    requires t < n <= |s.calls| && t !in s.finished && EarlierFinished(s, t)
    ensures var key := s.calls[t].key;
            QueueOf(s, key, n) != [] && QueueOf(s, key, n)[0] == t &&
            QueueOf(Finish(s, t), key, n) == QueueOf(s, key, n)[1..]
  {
    var key := s.calls[t].key;
    if t == n - 1 {
      forall u: Task | u < t && s.calls[u].key == key ensures u in s.finished {
        assert SameKey(s, u, t);
      }
      QueueOfEmpty(s, key, t);
      QueueOfEmpty(Finish(s, t), key, t);
    } else {
      HeadOfQueue(s, t, n - 1);
    }
  }

  /**
   The promise map refines the queues: entering appends to the key's queue, only a head starts or
   finishes, finishing removes the head, resolving changes nothing, and other keys are untouched.
   */
  lemma TurnRefinesQueue(s: Locks, turn: Turn, key: Key)
    requires Inv(s) && Enabled(s, turn)
    ensures var q, q' := Queue(s, key), Queue(Next(s, turn), key);
            match turn
            case Entering(k) => q' == if k == key then q + [|s.calls|] else q
            case Starting(t) => q' == q && (s.calls[t].key == key ==> q != [] && q[0] == t)
            case Finishing(t) => if s.calls[t].key == key then q != [] && q[0] == t && q' == q[1..] else q' == q
            case Settling(t) => q' == q
  {
    var r := Next(s, turn);
    match turn
    case Entering(k) => QueueOfUnchanged(s, r, key, |s.calls|);
      assert |s.calls| !in s.finished;
    case Starting(t) =>
      QueueOfUnchanged(s, r, key, |s.calls|);
      StartableFollowsFinished(s, t);
      if s.calls[t].key == key {
        HeadOfQueue(s, t, |s.calls|);
      }
    case Finishing(t) =>
      if s.calls[t].key == key {
        HeadOfQueue(s, t, |s.calls|);
      } else {
        QueueOfUnchanged(s, r, key, |s.calls|);
      }
    case Settling(t) => QueueOfUnchanged(s, r, key, |s.calls|);
  }

  /** At most one task per key runs, and starts follow call order. */
  lemma MutualExclusion(states: seq<Locks>, turns: seq<Turn>, i: nat, t: Task, u: Task)
    requires Run(states, turns) && i < |states| && SameKey(states[i], t, u)
    ensures Running(states[i], t) && Running(states[i], u) ==> t == u
    ensures t < u && u in states[i].started ==> t in states[i].finished
  {
    RunKeepsInv(states, turns, i);
    assert u in states[i].started ==> EarlierFinished(states[i], u);
    assert t in states[i].started ==> EarlierFinished(states[i], t);
    assert SameKey(states[i], u, t);
  }

  /** A key is in the map exactly while some call of it has not finished. */
  lemma PendingIffUnfinished(states: seq<Locks>, turns: seq<Turn>, i: nat, key: Key)
    requires Run(states, turns) && i < |states|
    ensures var s := states[i];
            key in s.pending <==> exists t: Task :: t < |s.calls| && s.calls[t].key == key && t !in s.finished
  {
    RunKeepsInv(states, turns, i);
  }

  /**
   No waiter is stuck: a call behind nobody that has not started either can start at once, or
   the one promise it awaits can resolve at once and then it can start. Nothing of another key
   is needed.
   */
  lemma NextWaiterEnabled(states: seq<Locks>, turns: seq<Turn>, i: nat, t: Task)
    requires Run(states, turns) && i < |states|
    requires var s := states[i]; t < |s.calls| && t !in s.started && EarlierFinished(s, t)
    ensures var s := states[i];
            CanStart(s, t) ||
            (s.calls[t].previous.Some? &&
             var p := s.calls[t].previous.value;
             SameKey(s, p, t) && CanSettle(s, p) && CanStart(Settle(s, p), t))
  {
    RunKeepsInv(states, turns, i);
    var s := states[i];
    assert AwaitsLast(s, t);
  }
}

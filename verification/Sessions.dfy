/**
 Capacity of stateful sessions: a reservation taken when an initialization is admitted, given back
 when the session is published or when its request is cleaned up unpublished. Every method below is
 one turn of the event loop.
 */
module Sessions {
  import opened Wrappers

  type EntryId = nat
  type SessionId = nat

  /** A request entry: `sessionId` is the transport's, `closing` its pending close. */
  datatype Entry = Entry(stateful: bool, sessionId: Option<SessionId>, lastActivity: int, closing: bool)

  /** `entries` holds every entry ever made; `active` those not yet cleaned up. */
  datatype Pool =
    Pool(entries: map<EntryId, Entry>, active: set<EntryId>, sessions: map<SessionId, EntryId>, reserved: int)

  datatype Limits = Limits(max: nat, idle: nat)

  const EMPTY := Pool(map[], {}, map[], 0)

  /******* Turns *******/

  datatype Event =
    | Admit(e: EntryId, stateful: bool, now: int)
    | Publish(e: EntryId, id: SessionId, now: int)
    | Touch(e: EntryId, now: int)
    | Prune(now: int)
    | StartClose(e: EntryId)
    | Cleanup(e: EntryId)

  predicate Full(p: Pool, limits: Limits) {
    |p.sessions| + p.reserved >= limits.max
  }

  /** Sessions of some entries are forgotten and their entries start to close. */
  function CloseSessions(p: Pool, es: set<EntryId>): (q: Pool) {
    p.(sessions := map id | id in p.sessions && p.sessions[id] !in es :: p.sessions[id],
       entries := map e | e in p.entries :: if e in es then p.entries[e].(closing := true) else p.entries[e])
  }

  predicate IsExpired(p: Pool, limits: Limits, now: int, e: EntryId) {
    e in p.entries && p.entries[e].lastActivity <= now - limits.idle
  }

  function Expired(p: Pool, limits: Limits, now: int): (es: set<EntryId>) {
    set id | id in p.sessions && IsExpired(p, limits, now, p.sessions[id]) :: p.sessions[id]
  }

  function Pruned(p: Pool, limits: Limits, now: int): (q: Pool) {
    CloseSessions(p, Expired(p, limits, now))
  }

  /** A stateful initialization is refused when the pool is full; otherwise it reserves a place. */
  function Admitted(p: Pool, limits: Limits, e: EntryId, stateful: bool, now: int): (q: Pool) {
    if stateful && Full(p, limits) then p
    else p.(reserved := if stateful then p.reserved + 1 else p.reserved,
            entries := p.entries[e := Entry(stateful, None, now, false)],
            active := p.active + {e})
  }

  function Published(p: Pool, e: EntryId, id: SessionId, now: int): (q: Pool)
    requires e in p.entries
  {
    p.(entries := p.entries[e := p.entries[e].(sessionId := Some(id), lastActivity := now)],
       reserved := p.reserved - 1,
       sessions := p.sessions[id := e])
  }

  function Touched(p: Pool, e: EntryId, now: int): (q: Pool)
    requires e in p.entries
  {
    p.(entries := p.entries[e := p.entries[e].(lastActivity := now)])
  }

  function Closing(p: Pool, e: EntryId): (q: Pool)
    requires e in p.entries
  {
    p.(entries := p.entries[e := p.entries[e].(closing := true)])
  }

  /** Cleaning up gives an unpublished reservation back and forgets the session, if it is still this entry's. */
  function CleanedUp(p: Pool, e: EntryId): (q: Pool)
    requires e in p.entries
  {
    var entry := p.entries[e];
    p.(active := p.active - {e},
       reserved := if entry.stateful && p.reserved > 0 && entry.sessionId.None? then p.reserved - 1 else p.reserved,
       sessions := if entry.sessionId.Some? && entry.sessionId.value in p.sessions &&
                      p.sessions[entry.sessionId.value] == e
                   then map id | id in p.sessions && id != entry.sessionId.value :: p.sessions[id]
                   else p.sessions)
  }

  /** The entry an event is about exists, or is new. */
  predicate Possible(p: Pool, ev: Event) {
    match ev
    case Admit(e, _, _) => e !in p.entries
    case Publish(e, id, _) =>
      e in p.entries && p.entries[e].stateful && p.entries[e].sessionId.None? && id !in p.sessions
    case Touch(e, _) => e in p.entries
    case Prune(_) => true
    case StartClose(e) => e in p.entries
    case Cleanup(e) => e in p.entries && p.entries[e].closing
  }

  /** No publication after the close has completed, and no second clean-up, which only a forced shutdown brings. */
  predicate Orderly(p: Pool, ev: Event) {
    Possible(p, ev) &&
    match ev
    case Publish(e, _, _) => e in p.active
    case Cleanup(e) => e in p.active
    case _ => true
  }

  /** One turn; requests prune before they look at the capacity. */
  function Step(p: Pool, limits: Limits, ev: Event): (q: Pool)
    requires Possible(p, ev)
  {
    match ev
    case Admit(e, stateful, now) => Admitted(Pruned(p, limits, now), limits, e, stateful, now)
    case Publish(e, id, now) => Published(p, e, id, now)
    case Touch(e, now) => Touched(p, e, now)
    case Prune(now) => Pruned(p, limits, now)
    case StartClose(e) => Closing(p, e)
    case Cleanup(e) => CleanedUp(p, e)
  }

  /** The sessions that were active within the idle time are kept, and no others; the others start to close. */
  lemma PrunedExactly(p: Pool, limits: Limits, now: int)
    requires forall id :: id in p.sessions ==> p.sessions[id] in p.entries
    ensures var q := Pruned(p, limits, now);
            (forall id :: id in q.sessions <==>
               id in p.sessions && p.entries[p.sessions[id]].lastActivity + limits.idle > now) &&
            (forall id :: id in q.sessions ==> q.sessions[id] == p.sessions[id]) &&
            (forall id :: id in p.sessions && id !in q.sessions ==> q.entries[p.sessions[id]].closing) &&
            q.reserved == p.reserved && q.active == p.active
  {
    forall id | id in p.sessions
      ensures p.sessions[id] in Expired(p, limits, now) <==>
              p.entries[p.sessions[id]].lastActivity + limits.idle <= now
    {
      assert p.sessions[id] in Expired(p, limits, now) ==> IsExpired(p, limits, now, p.sessions[id]);
    }
  }

  /**
   A stateful initialization is admitted exactly if, after the pruning, sessions and reservations together are
   fewer than the maximum, and then takes one place; any other request is always admitted and takes none.
   */
  lemma AdmittedIffPlace(p: Pool, limits: Limits, e: EntryId, stateful: bool, now: int)
    requires e !in p.entries
    ensures var before, q := Pruned(p, limits, now), Step(p, limits, Admit(e, stateful, now));
            (e in q.entries <==> !stateful || |before.sessions| + before.reserved < limits.max) &&
            q.sessions == before.sessions &&
            q.reserved - before.reserved == (if stateful && e in q.entries then 1 else 0) &&
            (e in q.entries ==> e in q.active && q.entries[e] == Entry(stateful, None, now, false))
  {
  }

  /** A publication makes the entry a session under the id; a clean-up takes exactly the entry's own session away. */
  lemma SessionsExactly(p: Pool, limits: Limits, e: EntryId, id: SessionId, now: int, other: SessionId)
    ensures Possible(p, Publish(e, id, now)) ==>
              var q := Step(p, limits, Publish(e, id, now));
              id in q.sessions && q.sessions[id] == e && q.entries[e].sessionId == Some(id) &&
              q.entries[e].lastActivity == now && q.reserved == p.reserved - 1 &&
              (other != id ==> (other in q.sessions <==> other in p.sessions))
    ensures Possible(p, Cleanup(e)) ==>
              var q := Step(p, limits, Cleanup(e));
              e !in q.active &&
              (other in q.sessions <==>
                 other in p.sessions && !(p.sessions[other] == e && p.entries[e].sessionId == Some(other)))
  {
  }

  /******* What every turn keeps *******/

  /** An active stateful entry that has not been published holds a reservation. */
  predicate Holds(p: Pool, e: EntryId) {
    e in p.active && e in p.entries && p.entries[e].stateful && p.entries[e].sessionId.None?
  }

  function Holders(p: Pool): (es: set<EntryId>) {
    set e | e in p.active && Holds(p, e)
  }

  ghost predicate Inv(p: Pool, limits: Limits) {
    && p.active <= p.entries.Keys
    && p.reserved == |Holders(p)|
    && |p.sessions| + p.reserved <= limits.max
    && (forall id :: id in p.sessions ==> p.sessions[id] in p.active && p.entries[p.sessions[id]].stateful &&
                                          p.entries[p.sessions[id]].sessionId == Some(id))
  }

  lemma SubmapSize<K, V>(a: map<K, V>, b: map<K, V>)
    requires a.Keys <= b.Keys
    ensures |a| <= |b|
  {
    SubsetSize(a.Keys, b.Keys);
    assert |a| == |a.Keys| && |b| == |b.Keys|;
  }

  lemma {:induction false} SubsetSize<K>(a: set<K>, b: set<K>)
    requires a <= b
    ensures |a| <= |b|
    decreases |b|
  {
    if b != {} {
      var x :| x in b;
      SubsetSize(a - {x}, b - {x});
    }
  }

  lemma CloseSessionsKeepsInv(p: Pool, limits: Limits, es: set<EntryId>)
    requires Inv(p, limits)
    ensures Inv(CloseSessions(p, es), limits) && Holders(CloseSessions(p, es)) == Holders(p)
    ensures CloseSessions(p, es).entries.Keys == p.entries.Keys
  {
    var q := CloseSessions(p, es);
    assert forall e :: Holds(q, e) <==> Holds(p, e);
    assert Holders(q) == Holders(p);
    SubmapSize(q.sessions, p.sessions);
  }

  lemma AdmittedKeepsInv(p: Pool, limits: Limits, e: EntryId, stateful: bool, now: int)
    requires Inv(p, limits) && e !in p.entries
    ensures Inv(Admitted(p, limits, e, stateful, now), limits)
  {
    var q := Admitted(p, limits, e, stateful, now);
    if !(stateful && Full(p, limits)) {
      HoldersAdmitted(p, q, e, Entry(stateful, None, now, false));
      assert e !in Holders(p);
    }
  }

  lemma HoldersAdmitted(p: Pool, q: Pool, e: EntryId, entry: Entry)
    requires e !in p.entries && p.active <= p.entries.Keys
    requires q.entries == p.entries[e := entry] && q.active == p.active + {e}
    ensures Holders(q) == if entry.stateful && entry.sessionId.None? then Holders(p) + {e} else Holders(p)
  {
    assert forall x :: Holds(q, x) <==> Holds(p, x) || (entry.stateful && entry.sessionId.None? && x == e);
  }

  lemma PublishedKeepsInv(p: Pool, limits: Limits, e: EntryId, id: SessionId, now: int)
    requires Inv(p, limits) && Holds(p, e) && id !in p.sessions
    ensures Inv(Published(p, e, id, now), limits)
  {
    var q := Published(p, e, id, now);
    HoldersPublished(p, e, id, now);
    assert e in Holders(p);
    assert q.sessions.Keys == p.sessions.Keys + {id};
    assert |q.sessions| == |p.sessions| + 1;
  }

  lemma HoldersPublished(p: Pool, e: EntryId, id: SessionId, now: int)
    requires e in p.entries
    ensures Holders(Published(p, e, id, now)) == Holders(p) - {e}
  {
    var q := Published(p, e, id, now);
    assert forall x :: Holds(q, x) <==> Holds(p, x) && x != e;
  }

  lemma CleanedUpKeepsInv(p: Pool, limits: Limits, e: EntryId)
    requires Inv(p, limits) && e in p.active
    ensures Inv(CleanedUp(p, e), limits)
  {
    var q := CleanedUp(p, e);
    assert forall x :: Holds(q, x) <==> Holds(p, x) && x != e;
    assert Holders(q) == Holders(p) - {e};
    if Holds(p, e) {
      assert e in Holders(p);
    }
    SubmapSize(q.sessions, p.sessions);
  }

  lemma SameHolders(p: Pool, limits: Limits, q: Pool)
    requires Inv(p, limits) && q.(entries := p.entries) == p && q.entries.Keys == p.entries.Keys
    requires forall e :: e in p.entries ==> q.entries[e].stateful == p.entries[e].stateful &&
                                            q.entries[e].sessionId == p.entries[e].sessionId
    ensures Inv(q, limits)
  {
    assert forall e :: Holds(q, e) <==> Holds(p, e);
    assert Holders(q) == Holders(p);
  }

  /** Sessions and reservations never exceed the maximum, and reservations are the unpublished active entries. */
  lemma StepKeepsInv(p: Pool, limits: Limits, ev: Event)
    requires Inv(p, limits) && Orderly(p, ev)
    ensures Inv(Step(p, limits, ev), limits)
  {
    match ev
    case Admit(e, stateful, now) =>
      CloseSessionsKeepsInv(p, limits, Expired(p, limits, now));
      AdmittedKeepsInv(Pruned(p, limits, now), limits, e, stateful, now);
    case Publish(e, id, now) => PublishedKeepsInv(p, limits, e, id, now);
    case Touch(e, now) => SameHolders(p, limits, Touched(p, e, now));
    case Prune(now) => CloseSessionsKeepsInv(p, limits, Expired(p, limits, now));
    case StartClose(e) => SameHolders(p, limits, Closing(p, e));
    case Cleanup(e) => CleanedUpKeepsInv(p, limits, e);
  }

  /******* Whole runs *******/

  predicate OrderlyRun(p: Pool, limits: Limits, events: seq<Event>)
    decreases |events|
  {
    events == [] || (Orderly(p, events[0]) && OrderlyRun(Step(p, limits, events[0]), limits, events[1..]))
  }

  function Run(p: Pool, limits: Limits, events: seq<Event>): (q: Pool)
    requires OrderlyRun(p, limits, events)
    decreases |events|
  {
    if events == [] then p else Run(Step(p, limits, events[0]), limits, events[1..])
  }

  /** How many reservations of an entry a turn gives back. */
  function GivesBack(p: Pool, ev: Event, e: EntryId): (n: nat) {
    match ev
    case Publish(x, _, _) => if x == e then 1 else 0
    case Cleanup(x) =>
      if x == e && e in p.entries && p.entries[e].stateful && p.entries[e].sessionId.None? then 1 else 0
    case _ => 0
  }

  /** How many reservations of an entry a run gives back. */
  function GivenBack(p: Pool, limits: Limits, events: seq<Event>, e: EntryId): (n: nat)
    requires OrderlyRun(p, limits, events)
    decreases |events|
  {
    if events == [] then 0
    else GivesBack(p, events[0], e) + GivenBack(Step(p, limits, events[0]), limits, events[1..], e)
  }

  /** How many reservations of an entry are still to be given back. */
  function Owed(p: Pool, e: EntryId): (n: nat) {
    if Holds(p, e) then 1 else 0
  }

  /** An entry admitted by this turn as stateful. */
  predicate TakesPlace(p: Pool, limits: Limits, ev: Event, e: EntryId)
    requires Possible(p, ev)
  {
    ev.Admit? && ev.e == e && Holds(Step(p, limits, ev), e)
  }

  lemma OwedAfterStep(p: Pool, limits: Limits, ev: Event, e: EntryId)
    requires Inv(p, limits) && Orderly(p, ev)
    ensures Owed(Step(p, limits, ev), e) == Owed(p, e) + (if TakesPlace(p, limits, ev, e) then 1 else 0) -
            GivesBack(p, ev, e)
  {
    if ev.Admit? || ev.Prune? {
      CloseSessionsKeepsInv(p, limits, Expired(p, limits, ev.now));
      assert Holds(Pruned(p, limits, ev.now), e) <==> Holds(p, e);
    }
  }

  predicate WasStateful(p: Pool, e: EntryId) {
    e in p.entries && p.entries[e].stateful
  }

  lemma StatefulStays(p: Pool, limits: Limits, ev: Event, e: EntryId)
    requires Inv(p, limits) && Orderly(p, ev)
    ensures WasStateful(Step(p, limits, ev), e) <==> WasStateful(p, e) || TakesPlace(p, limits, ev, e)
  {
  }

  /** From a pool where an entry is new, or holds its place, each place taken is given back once or still held. */
  lemma {:induction false} GivenBackInRun(p: Pool, limits: Limits, events: seq<Event>, e: EntryId)
    requires Inv(p, limits) && OrderlyRun(p, limits, events)
    ensures Inv(Run(p, limits, events), limits)
    ensures WasStateful(p, e) ==> GivenBack(p, limits, events, e) == Owed(p, e) - Owed(Run(p, limits, events), e)
    ensures !WasStateful(p, e) ==> GivenBack(p, limits, events, e) + Owed(Run(p, limits, events), e) ==
                                   if WasStateful(Run(p, limits, events), e) then 1 else 0
    ensures WasStateful(p, e) ==> WasStateful(Run(p, limits, events), e)
    decreases |events|
  {
    if events != [] {
      StepKeepsInv(p, limits, events[0]);
      OwedAfterStep(p, limits, events[0], e);
      StatefulStays(p, limits, events[0], e);
      GivenBackInRun(Step(p, limits, events[0]), limits, events[1..], e);
    }
  }

  /**
   Over every run: the capacity holds; reservations are the active stateful entries not yet published;
   each admitted entry gives its reservation back exactly once unless it still holds it; and once no
   entry is active, no session and no reservation is left.
   */
  lemma CapacityHolds(limits: Limits, events: seq<Event>)
    requires OrderlyRun(EMPTY, limits, events)
    ensures var p := Run(EMPTY, limits, events);
            |p.sessions| + p.reserved <= limits.max && p.reserved == |Holders(p)|
    ensures var p := Run(EMPTY, limits, events);
            forall e :: WasStateful(p, e) ==> GivenBack(EMPTY, limits, events, e) == if Holds(p, e) then 0 else 1
    ensures var p := Run(EMPTY, limits, events);
            p.active == {} ==> p.sessions == map[] && p.reserved == 0
  {
    var p := Run(EMPTY, limits, events);
    assert Holders(EMPTY) == {};
    GivenBackInRun(EMPTY, limits, events, 0);
    forall e ensures (WasStateful(p, e) ==> GivenBack(EMPTY, limits, events, e) == if Holds(p, e) then 0 else 1) {
      GivenBackInRun(EMPTY, limits, events, e);
    }
    if p.active == {} {
      assert Holders(p) == {};
      assert p.sessions.Keys == {};
    }
  }

  /**
   * Why the assumptions are needed: a late publication always breaks the invariant, a second clean-up exactly if
   * it takes another entry's reservation.
   */
  lemma OrderlinessIsNeeded(p: Pool, limits: Limits, ev: Event)
    requires Inv(p, limits) && Possible(p, ev) && !Orderly(p, ev)
    ensures ev.Publish? ==> !Inv(Step(p, limits, ev), limits)
    ensures ev.Cleanup? ==> (Inv(Step(p, limits, ev), limits) <==>
                             !(p.entries[ev.e].stateful && p.entries[ev.e].sessionId.None?) || p.reserved == 0)
  {
    var q := Step(p, limits, ev);
    if ev.Publish? {
      assert q.sessions[ev.id] == ev.e;
    } else {
      assert p.active - {ev.e} == p.active;
      assert forall x :: Holds(q, x) <==> Holds(p, x);
      assert Holders(q) == Holders(p);
    }
  }

  /******* The running server *******/

  class HttpApp {
    const limits: Limits
    var entries: map<EntryId, Entry>
    var active: set<EntryId>
    var sessions: map<SessionId, EntryId>
    var reservedStatefulSessions: int

    ghost function View(): (p: Pool)
      reads this
    {
      Pool(entries, active, sessions, reservedStatefulSessions)
    }

    ghost predicate Valid()
      reads this
    {
      Inv(View(), limits)
    }

    constructor (limits: Limits)
      ensures View() == EMPTY && this.limits == limits && Valid()
    {
      this.limits := limits;
      entries, active, sessions, reservedStatefulSessions := map[], {}, map[], 0;
      new;
      assert Holders(EMPTY) == {};
    }

    /** Every id of the session is forgotten before its entry starts to close. */
    method CloseSession(session: EntryId)
      requires session in entries
      modifies this
      ensures View() == CloseSessions(old(View()), {session})
      ensures entries.Keys == old(entries.Keys)
    {
      ghost var before := sessions;
      var todo := sessions.Keys;
      while todo != {}
        invariant todo <= before.Keys
        invariant sessions == map id | id in before && (id in todo || before[id] != session) :: before[id]
        invariant entries == old(entries) && active == old(active) &&
                  reservedStatefulSessions == old(reservedStatefulSessions)
        decreases |todo|
      {
        var id :| id in todo;
        if sessions[id] == session {
          sessions := sessions - {id};
        }
        todo := todo - {id};
      }
      CloseActiveRequest(session);
    }

    method CloseActiveRequest(e: EntryId)
      requires e in entries
      modifies this
      ensures View() == Closing(old(View()), e)
    {
      if !entries[e].closing {
        entries := entries[e := entries[e].(closing := true)];
      }
    }

    method PruneExpiredSessions(now: int)
      requires forall id :: id in sessions ==> sessions[id] in entries
      modifies this
      ensures View() == Pruned(old(View()), limits, now)
    {
      ghost var p := View();
      ghost var done: set<SessionId>, q := {}, p;
      var todo := sessions.Keys;
      var expiredAt := now - limits.idle;
      PruneEnds(p, limits, now);
      while todo != {}
        invariant done + todo == p.sessions.Keys
        invariant View() == q && q == CloseSessions(p, ExpiredAmong(p, limits, now, done))
        decreases |todo|
      {
        var id :| id in todo;
        PruneTurn(p, q, limits, now, done, id);
        if id in sessions && entries[sessions[id]].lastActivity <= expiredAt {
          q := CloseSessions(q, {sessions[id]});
          CloseSession(sessions[id]);
        }
        todo, done := todo - {id}, done + {id};
      }
      assert done == p.sessions.Keys;
    }

    /** The expiry timer fires. */
    method ExpireSessions(now: int)
      requires Valid()
      modifies this
      ensures View() == Step(old(View()), limits, Prune(now)) && Valid()
    {
      CloseSessionsKeepsInv(View(), limits, Expired(View(), limits, now));
      PruneExpiredSessions(now);
    }

    /** A request without a session id: prune, refuse when full, otherwise reserve and register the entry. */
    method Initialize(e: EntryId, stateful: bool, now: int) returns (ok: bool)
      requires Valid() && e !in entries
      modifies this
      ensures View() == Step(old(View()), limits, Admit(e, stateful, now)) && Valid()
      ensures ok <==>
              var before := Pruned(old(View()), limits, now);
              !stateful || |before.sessions| + before.reserved < limits.max
    {
      StepKeepsInv(View(), limits, Admit(e, stateful, now));
      PruneExpiredSessions(now);
      if stateful && |sessions| + reservedStatefulSessions >= limits.max {
        return false;
      }
      if stateful {
        reservedStatefulSessions := reservedStatefulSessions + 1;
      }
      entries := entries[e := Entry(stateful, None, now, false)];
      active := active + {e};
      ok := true;
    }

    /** The transport sets its session id and publishes in the same turn. */
    method PublishSession(e: EntryId, id: SessionId, now: int)
      requires Valid() && Holds(View(), e) && id !in sessions
      modifies this
      ensures View() == Published(old(View()), e, id, now) && Valid()
    {
      PublishedKeepsInv(View(), limits, e, id, now);
      entries := entries[e := entries[e].(sessionId := Some(id))];
      reservedStatefulSessions := reservedStatefulSessions - 1;
      entries := entries[e := entries[e].(lastActivity := now)];
      sessions := sessions[id := e];
    }

    /** What runs when an entry's transport and server have been closed. */
    method FinishClose(e: EntryId)
      requires Valid() && e in active
      modifies this
      ensures View() == CleanedUp(old(View()), e) && Valid()
    {
      CleanedUpKeepsInv(View(), limits, e);
      active := active - {e};
      var entry := entries[e];
      if entry.stateful && reservedStatefulSessions > 0 && entry.sessionId.None? {
        reservedStatefulSessions := reservedStatefulSessions - 1;
      }
      if entry.sessionId.Some? && entry.sessionId.value in sessions && sessions[entry.sessionId.value] == e {
        sessions := sessions - {entry.sessionId.value};
      }
    }
  }

  ghost function ExpiredAmong(p: Pool, limits: Limits, now: int, ids: set<SessionId>): (es: set<EntryId>) {
    set id | id in p.sessions && id in ids && IsExpired(p, limits, now, p.sessions[id]) :: p.sessions[id]
  }

  lemma PruneOneMore(p: Pool, limits: Limits, now: int, ids: set<SessionId>, id: SessionId)
    requires id in p.sessions
    ensures var es := ExpiredAmong(p, limits, now, ids);
            ExpiredAmong(p, limits, now, ids + {id}) ==
            if IsExpired(p, limits, now, p.sessions[id]) && p.sessions[id] !in es then es + {p.sessions[id]} else es
  {
  }

  lemma PruneEnds(p: Pool, limits: Limits, now: int)
    ensures CloseSessions(p, ExpiredAmong(p, limits, now, {})) == p
    ensures ExpiredAmong(p, limits, now, p.sessions.Keys) == Expired(p, limits, now)
  {
  }

  /** Looking at one more session id. */
  lemma PruneTurn(p: Pool, q: Pool, limits: Limits, now: int, ids: set<SessionId>, id: SessionId)
    requires id in p.sessions && forall x :: x in p.sessions ==> p.sessions[x] in p.entries
    requires q == CloseSessions(p, ExpiredAmong(p, limits, now, ids))
    ensures var r := CloseSessions(p, ExpiredAmong(p, limits, now, ids + {id}));
            q.entries.Keys == p.entries.Keys && (id in q.sessions ==> q.sessions[id] == p.sessions[id]) &&
            r == if id in q.sessions && q.entries[q.sessions[id]].lastActivity <= now - limits.idle
                 then CloseSessions(q, {q.sessions[id]}) else q
  {
    PruneOneMore(p, limits, now, ids, id);
    CloseOneMore(p, ExpiredAmong(p, limits, now, ids), p.sessions[id]);
  }

  lemma CloseOneMore(p: Pool, es: set<EntryId>, e: EntryId)
    ensures CloseSessions(CloseSessions(p, es), {e}) == CloseSessions(p, es + {e})
  {
  }
}

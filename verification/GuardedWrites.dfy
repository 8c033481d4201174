/**
 The guarded write of one remote resource as interleaved turns: lock, read, plan, approve, back up,
 log, post, settle. What a task plans is a parameter. Other resources share the lock table, the
 approvals, the log and the backup directory; the process may die and start again at any turn.
 */
module GuardedWrites {
  import opened Wrappers
  import opened JsText
  import opened JsonTree
  import Base64
  import opened Approvals
  import opened AuditTrail
  import WriteLocks
  import BackupNames
  import Backups
  import BindingPlanner
  import ConfigPlanner

  type Task = WriteLocks.Task

  datatype Job =
    | SetValues(operation: JsString, patch: Value, mode: ConfigPlanner.Mode, removePaths: seq<ConfigPlanner.Path>,
                expectedHash: Option<JsString>, dryRun: bool, approvalId: Option<JsString>)
    | ApplyBindings(options: BindingPlanner.Options, expectedPlanHash: JsString, dryRun: bool,
                    approvalId: Option<JsString>)

  /** What a binding plan learns from the schema and the target node while it holds the lock. */
  type View = BindingPlanner.Offer

  /** What a task wants to do with the state it has read. */
  datatype Intent = Refuse | NoChange | DryRun | Go(next: Value, details: Details)

  type Planner = (Job, Value, View) -> Intent

  /** What the tasks of the resource share: the lock key, the write gate, the planner and text decoding. */
  datatype Env = Env(key: JsString, writesEnabled: bool, planner: Planner, utf8: seq<Base64.Byte> -> JsString)

  /** One write on its way out: from what state, to what state, its backup, and what approved it when. */
  datatype Write = Write(op: seq<Base64.Byte>, file: Backups.File, before: Value, next: Value, details: Details,
                         job: Job, view: View, approval: Approval, consumedAt: int)

  datatype Phase = Waiting | Reading | Holding(seen: Value) | Posting(write: Write, applied: bool) | Verifying | Done

  /** A change of the remote resource, as it happened. */
  datatype Effect = Effect(before: Value, after: Value, write: Write)

  /**
   `disk` is the backup directory, every line ever logged, and the lines still readable; `contents` what
   the backup files hold; `ops` and `others` the operation ids used here and elsewhere.
   */
  datatype State = State(
    initial: Value, remote: Value, now: int,
    locks: WriteLocks.Locks, jobs: map<Task, Job>, phases: map<Task, Phase>,
    approvals: seq<Approval>, granted: set<Approval>,
    disk: Backups.World, contents: map<JsString, Value>, ops: set<JsString>, others: set<JsString>,
    history: seq<Effect>)

  function Initial(remote: Value, now: int): (s: State) {
    State(remote, remote, now, WriteLocks.NO_LOCKS, map[], map[], [], {}, Backups.EMPTY_WORLD, map[], {}, {}, [])
  }

  datatype Fault = NoFault | BackupRefused | AttemptNotLogged

  /** What the backup of a write is: its id, its file, and the pruning that follows. */
  datatype Saving = Saving(op: seq<Base64.Byte>, file: Backups.File, policy: Backups.Policy)

  datatype Action =
    | Call(job: Job)
    | OtherLockTurn(turn: WriteLocks.Turn)
    | Begin(t: Task)
    | Read(t: Task)
    | GiveUp(t: Task)
    | Decide(t: Task, view: View, saving: Saving, fault: Fault)
    | TakeEffect(t: Task)
    | SettlePost(t: Task, outcome: AuditOutcome, logged: bool)
    | Release(t: Task)
    | ApproveOne(request: Request)
    | OtherConsume(details: Details, id: Option<JsString>)
    | OtherDisk(e: Backups.Event)
    | Tick(later: int)
    | Crash

  function InPhase(s: State, t: Task): (p: Phase) {
    if t in s.phases then s.phases[t] else Done
  }

  /** The task ends, by return or by throw, and releases the lock. */
  function Stop(s: State, t: Task): (r: State)
    requires t < |s.locks.calls|
  {
    s.(phases := s.phases[t := Done], locks := WriteLocks.Finish(s.locks, t))
  }

  function TakingBackup(b: Saving): (e: Backups.Event) {
    Backups.TakeBackup(b.op, b.file, b.policy)
  }

  /** Operation ids are new UUIDs, and the backup is a new file named after it. */
  ghost predicate CanSave(env: Env, s: State, b: Saving) {
    BackupNames.UuidText(b.op) && b.op !in s.ops && b.op !in s.others &&
    Backups.Allowed(env.utf8, s.disk, TakingBackup(b))
  }

  /** Other resources back up, prune and log under ids of their own; the log loses its oldest lines to rotation. */
  ghost predicate DiskTurn(env: Env, s: State, e: Backups.Event) {
    Backups.Allowed(env.utf8, s.disk, e) && (e.WriteLine? ==> e.line.op !in s.ops)
  }

  ghost predicate Enabled(env: Env, s: State, a: Action) {
    match a
    case Call(_) => true
    case OtherLockTurn(turn) =>
      WriteLocks.Enabled(s.locks, turn) &&
      (match turn
       case Entering(key) => key != env.key
       case Settling(_) => true
       case Starting(t) => t !in s.phases
       case Finishing(t) => t !in s.phases)
    case Begin(t) => InPhase(s, t) == Waiting && WriteLocks.CanStart(s.locks, t)
    case Read(t) => InPhase(s, t) == Reading
    case GiveUp(t) => (InPhase(s, t).Reading? || InPhase(s, t).Holding?) && t < |s.locks.calls|
    case Decide(t, _, saving, _) =>
      InPhase(s, t).Holding? && t in s.jobs && t < |s.locks.calls| && CanSave(env, s, saving)
    case TakeEffect(t) => InPhase(s, t).Posting? && !InPhase(s, t).applied
    case SettlePost(t, outcome, _) => InPhase(s, t).Posting? && t < |s.locks.calls| && !outcome.Attempted?
    case Release(t) => InPhase(s, t) == Verifying && t < |s.locks.calls|
    case ApproveOne(request) => forall a :: a in s.granted ==> a.id != request.id
    case OtherConsume(_, _) => true
    case OtherDisk(e) => DiskTurn(env, s, e)
    case Tick(later) => later >= s.now
    case Crash => true
  }

  function SavedOn(s: State, disk: Backups.World, b: Saving, seen: Value): (r: State) {
    s.(disk := disk, contents := s.contents[b.file.name := seen], ops := s.ops + {b.op})
  }

  /** The backup is written and the directory pruned. */
  function Saved(s: State, b: Saving, seen: Value): (r: State) {
    SavedOn(s, Backups.After(s.disk, TakingBackup(b)), b, seen)
  }

  function Logged(s: State, line: Line): (r: State) {
    s.(disk := Backups.After(s.disk, Backups.WriteLine(line)))
  }

  function Posted(s: State, t: Task, w: Write): (r: State) {
    Logged(s, Line(w.op, Attempted)).(phases := s.phases[t := Posting(w, false)])
  }

  /** Plan, consume the approval, back up, prune, log the attempt and send the request: one turn. */
  function Decided(env: Env, s: State, t: Task, view: View, b: Saving, fault: Fault): (r: State)
    requires InPhase(s, t).Holding? && t in s.jobs && t < |s.locks.calls|
  {
    var seen, job := s.phases[t].seen, s.jobs[t];
    var intent := env.planner(job, seen, view);
    if !intent.Go? then Stop(s, t)
    else
      var c := Consume(s.approvals, intent.details, job.approvalId, s.now);
      var consumed := s.(approvals := c.approvals);
      if !c.Consumed? || fault == BackupRefused then Stop(consumed, t)
      else
        var saved := Saved(consumed, b, seen);
        if fault == AttemptNotLogged then Stop(saved, t)
        else Posted(saved, t, Write(b.op, b.file, seen, intent.next, intent.details, job, view, c.approval, s.now))
  }

  function Settled(s: State, t: Task, outcome: AuditOutcome, logged: bool): (r: State)
    requires InPhase(s, t).Posting? && t < |s.locks.calls|
  {
    var r := if logged then Logged(s, Line(s.phases[t].write.op, outcome)) else s;
    if outcome == Succeeded && logged then r.(phases := r.phases[t := Verifying]) else Stop(r, t)
  }

  function Called(env: Env, s: State, job: Job): (r: State) {
    var t := |s.locks.calls|;
    s.(locks := WriteLocks.Enter(s.locks, env.key), jobs := s.jobs[t := job], phases := s.phases[t := Waiting])
  }

  function Begun(s: State, t: Task): (r: State) {
    s.(locks := WriteLocks.Start(s.locks, t), phases := s.phases[t := Reading])
  }

  function HasRead(s: State, t: Task): (r: State) {
    s.(phases := s.phases[t := Holding(s.remote)])
  }

  /** The request reaches the remote node and replaces its state. */
  function Affected(s: State, t: Task): (r: State)
    requires InPhase(s, t).Posting?
  {
    var w := s.phases[t].write;
    s.(remote := w.next, history := s.history + [Effect(s.remote, w.next, w)],
       phases := s.phases[t := Posting(w, true)])
  }

  function Approved(env: Env, s: State, request: Request): (r: State) {
    var g := Approve(s.approvals, env.writesEnabled, request.(now := s.now));
    if g.Granted? then s.(approvals := g.approvals, granted := s.granted + {g.approval}) else s
  }

  function Consuming(s: State, details: Details, id: Option<JsString>): (r: State) {
    s.(approvals := Consume(s.approvals, details, id, s.now).approvals)
  }

  function Elsewhere(s: State, e: Backups.Event): (r: State) {
    s.(disk := Backups.After(s.disk, e), others := if e.WriteLine? then s.others + {e.line.op} else s.others)
  }

  /**
   The process dies and starts again: tasks, locks and requests that have not reached the node are
   gone; the node, the approvals, the log and the backups stay.
   */
  function Restarted(s: State): (r: State) {
    s.(locks := WriteLocks.NO_LOCKS, jobs := map[], phases := map[])
  }

  function Next(env: Env, s: State, a: Action): (r: State)
    requires Enabled(env, s, a)
  {
    match a
    case Call(job) => Called(env, s, job)
    case OtherLockTurn(turn) => s.(locks := WriteLocks.Next(s.locks, turn))
    case Begin(t) => Begun(s, t)
    case Read(t) => HasRead(s, t)
    case GiveUp(t) => Stop(s, t)
    case Decide(t, view, saving, fault) => Decided(env, s, t, view, saving, fault)
    case TakeEffect(t) => Affected(s, t)
    case SettlePost(t, outcome, logged) => Settled(s, t, outcome, logged)
    case Release(t) => Stop(s, t)
    case ApproveOne(request) => Approved(env, s, request)
    case OtherConsume(details, id) => Consuming(s, details, id)
    case OtherDisk(e) => Elsewhere(s, e)
    case Tick(later) => s.(now := later)
    case Crash => Restarted(s)
  }

  /** Any interleaving of enabled actions from a state without tasks. */
  ghost predicate Run(env: Env, states: seq<State>, actions: seq<Action>) {
    BackupNames.DecodesAscii(env.utf8) &&
    |states| == |actions| + 1 && states[0] == Initial(states[0].remote, states[0].now) &&
    forall i {:trigger actions[i]} :: 0 <= i < |actions| ==>
      Enabled(env, states[i], actions[i]) && states[i + 1] == Next(env, states[i], actions[i])
  }

  /******* Invariants *******/

  predicate Active(p: Phase) {
    p.Reading? || p.Holding? || p.Posting? || p.Verifying?
  }

  /** The tasks' phases follow the lock: an active task is the one that runs under the key. */
  ghost predicate Threads(env: Env, s: State) {
    WriteLocks.Inv(s.locks) &&
    forall t :: t in s.phases ==>
      t < |s.locks.calls| && s.locks.calls[t].key == env.key &&
      (s.phases[t].Waiting? ==> t !in s.locks.started) &&
      (Active(s.phases[t]) ==> WriteLocks.Running(s.locks, t))
  }

  /** Nothing changes the remote state between a task's read and its own write. */
  ghost predicate Stable(s: State) {
    forall t :: t in s.phases ==>
      (s.phases[t].Holding? ==> s.phases[t].seen == s.remote) &&
      (s.phases[t].Posting? && !s.phases[t].applied ==> s.phases[t].write.before == s.remote)
  }

  /** The write is the one planned from its before state, with an approval for exactly that. */
  ghost predicate GoodWrite(env: Env, s: State, w: Write) {
    env.planner(w.job, w.before, w.view) == Go(w.next, w.details) &&
    w.approval in s.granted && w.approval.details == w.details && w.approval.expiresAt > w.consumedAt &&
    w.job.approvalId == Some(w.approval.id)
  }

  /** The changes follow each other without gaps, from one state to another. */
  ghost predicate Chain(from: Value, history: seq<Effect>, to: Value) {
    if history == [] then from == to
    else
      var last := history[|history| - 1];
      last.after == to && Chain(from, history[..|history| - 1], last.before)
  }

  lemma {:induction false} ChainLinks(from: Value, history: seq<Effect>, to: Value, k: nat)
    requires Chain(from, history, to) && k < |history|
    ensures history[k].before == if k == 0 then from else history[k - 1].after
    ensures history[k].after == if k == |history| - 1 then to else history[k + 1].before
  {
    var n := |history| - 1;
    if n > 0 {
      assert history[..n][n - 1].after == history[n].before;
    }
    if k < n {
      ChainLinks(from, history[..n], history[n].before, k);
      assert k + 1 < n ==> history[..n][k + 1] == history[k + 1];
      assert k > 0 ==> history[..n][k - 1] == history[k - 1];
    }
  }

  ghost predicate Chained(s: State) {
    Chain(s.initial, s.history, s.remote)
  }

  ghost predicate GoodEffects(env: Env, s: State) {
    (forall k :: 0 <= k < |s.history| ==>
      s.history[k].before == s.history[k].write.before && s.history[k].after == s.history[k].write.next &&
      GoodWrite(env, s, s.history[k].write)) &&
    forall t :: t in s.phases && s.phases[t].Posting? ==> GoodWrite(env, s, s.phases[t].write)
  }

  /** No approval backs two changes, and a consumed one is not on offer. */
  ghost predicate ApprovalsSpent(s: State) {
    DistinctIds(s.approvals) &&
    (forall a :: a in s.approvals ==> a in s.granted) &&
    (forall a, b :: a in s.granted && b in s.granted && a.id == b.id ==> a == b) &&
    (forall j, k :: 0 <= j < k < |s.history| ==> s.history[j].write.approval != s.history[k].write.approval) &&
    (forall k :: 0 <= k < |s.history| ==> s.history[k].write.approval !in s.approvals) &&
    forall t :: t in s.phases && s.phases[t].Posting? ==>
      s.phases[t].write.approval !in s.approvals &&
      (!s.phases[t].applied ==>
       forall k :: 0 <= k < |s.history| ==> s.history[k].write.approval != s.phases[t].write.approval)
  }

  /** An attempted write whose end the log does not tell still has the state before it on disk. */
  ghost predicate Recoverable(s: State, w: Write) {
    BackupNames.UuidText(w.op) && Backups.NamedFor(w.file.name, w.op) &&
    w.op in s.ops && Line(w.op, Attempted) in s.disk.history &&
    (Terminal(s.disk.history, w.op) || OnDisk(s, w))
  }

  ghost predicate OnDisk(s: State, w: Write) {
    w.file in s.disk.files && w.file.name in s.contents && s.contents[w.file.name] == w.before
  }

  ghost predicate BackedUp(s: State) {
    Backups.WorldInv(s.disk) &&
    (forall l :: l in s.disk.history ==> l.op in s.ops || l.op in s.others) &&
    (forall k :: 0 <= k < |s.history| ==> Recoverable(s, s.history[k].write)) &&
    forall t :: t in s.phases && s.phases[t].Posting? ==> Recoverable(s, s.phases[t].write)
  }

  ghost predicate Ordered(env: Env, s: State) {
    Threads(env, s) && Stable(s) && Chained(s)
  }

  ghost predicate Covered(env: Env, s: State) {
    GoodEffects(env, s) && ApprovalsSpent(s)
  }

  ghost predicate Inv(env: Env, s: State) {
    BackupNames.DecodesAscii(env.utf8) && Ordered(env, s) && Covered(env, s) && BackedUp(s)
  }

  /******* What carries over to a state that differs little *******/

  /** No task posts that did not post the same before. */
  ghost predicate NoNewPost(s: State, r: State) {
    forall t :: t in r.phases && r.phases[t].Posting? ==> t in s.phases && r.phases[t] == s.phases[t]
  }

  lemma OrderCarriesOver(env: Env, s: State, r: State)
    requires Ordered(env, s)
    requires r.locks == s.locks && r.phases == s.phases && r.initial == s.initial && r.remote == s.remote &&
             r.history == s.history
    ensures Ordered(env, r)
  {
  }

  lemma CoverCarriesOver(env: Env, s: State, r: State)
    requires Covered(env, s) && NoNewPost(s, r)
    requires r.history == s.history && r.approvals == s.approvals && r.granted == s.granted
    ensures Covered(env, r)
  {
    forall k | 0 <= k < |r.history| ensures GoodWrite(env, r, r.history[k].write) {
      assert GoodWrite(env, s, s.history[k].write);
    }
    forall t | t in r.phases && r.phases[t].Posting? ensures GoodWrite(env, r, r.phases[t].write) {
      assert GoodWrite(env, s, s.phases[t].write);
    }
  }

  lemma BackupsCarryOver(s: State, r: State)
    requires BackedUp(s) && NoNewPost(s, r)
    requires r.history == s.history && r.disk == s.disk && r.contents == s.contents && r.ops == s.ops &&
             r.others == s.others
    ensures BackedUp(r)
  {
    forall k | 0 <= k < |r.history| ensures Recoverable(r, r.history[k].write) {
      assert Recoverable(s, s.history[k].write);
    }
    forall t | t in r.phases && r.phases[t].Posting? ensures Recoverable(r, r.phases[t].write) {
      assert Recoverable(s, s.phases[t].write);
    }
  }

  /******* Turns of the lock *******/

  /** Two active tasks are one. */
  lemma OneActive(env: Env, s: State, t: Task, u: Task)
    requires Threads(env, s) && Active(InPhase(s, t)) && Active(InPhase(s, u))
    ensures t == u
  {
    assert WriteLocks.EarlierFinished(s.locks, t) && WriteLocks.EarlierFinished(s.locks, u);
    assert WriteLocks.SameKey(s.locks, t, u) && WriteLocks.SameKey(s.locks, u, t);
  }

  lemma LockTurnKeepsInv(l: WriteLocks.Locks, turn: WriteLocks.Turn)
    requires WriteLocks.Inv(l) && WriteLocks.Enabled(l, turn)
    ensures WriteLocks.Inv(WriteLocks.Next(l, turn))
  {
    match turn
    case Entering(key) => WriteLocks.EnterKeepsInv(l, key);
    case Starting(t) => WriteLocks.StartKeepsInv(l, t);
    case Finishing(t) => WriteLocks.FinishKeepsInv(l, t);
    case Settling(t) => WriteLocks.SettleKeepsInv(l, t);
  }

  lemma CallKeepsOrder(env: Env, s: State, job: Job)
    requires Ordered(env, s)
    ensures Ordered(env, Called(env, s, job))
  {
    WriteLocks.EnterKeepsInv(s.locks, env.key);
  }

  lemma CallKeepsInv(env: Env, s: State, job: Job)
    requires Inv(env, s)
    ensures Inv(env, Called(env, s, job))
  {
    CallKeepsOrder(env, s, job);
    CoverCarriesOver(env, s, Called(env, s, job));
    BackupsCarryOver(s, Called(env, s, job));
  }

  lemma OtherTurnKeepsOrder(env: Env, s: State, turn: WriteLocks.Turn)
    requires Ordered(env, s) && Enabled(env, s, OtherLockTurn(turn))
    ensures Ordered(env, s.(locks := WriteLocks.Next(s.locks, turn)))
  {
    LockTurnKeepsInv(s.locks, turn);
  }

  lemma OtherTurnKeepsInv(env: Env, s: State, turn: WriteLocks.Turn)
    requires Inv(env, s) && Enabled(env, s, OtherLockTurn(turn))
    ensures Inv(env, s.(locks := WriteLocks.Next(s.locks, turn)))
  {
    var r := s.(locks := WriteLocks.Next(s.locks, turn));
    OtherTurnKeepsOrder(env, s, turn);
    CoverCarriesOver(env, s, r);
    BackupsCarryOver(s, r);
  }

  lemma BeginKeepsOrder(env: Env, s: State, t: Task)
    requires Ordered(env, s) && InPhase(s, t) == Waiting && WriteLocks.CanStart(s.locks, t)
    ensures Ordered(env, Begun(s, t))
  {
    WriteLocks.StartKeepsInv(s.locks, t);
  }

  lemma BeginKeepsInv(env: Env, s: State, t: Task)
    requires Inv(env, s) && InPhase(s, t) == Waiting && WriteLocks.CanStart(s.locks, t)
    ensures Inv(env, Begun(s, t))
  {
    BeginKeepsOrder(env, s, t);
    CoverCarriesOver(env, s, Begun(s, t));
    BackupsCarryOver(s, Begun(s, t));
  }

  /** A task moves on from one active phase to another without touching the lock. */
  lemma MoveKeepsThreads(env: Env, s: State, t: Task, p: Phase)
    requires Threads(env, s) && Active(InPhase(s, t)) && Active(p)
    ensures Threads(env, s.(phases := s.phases[t := p]))
  {
  }

  lemma MoveKeepsOrder(env: Env, s: State, t: Task, p: Phase)
    requires Ordered(env, s) && Active(InPhase(s, t)) && Active(p)
    requires p.Holding? ==> p.seen == s.remote
    requires p.Posting? && !p.applied ==> p.write.before == s.remote
    ensures Ordered(env, s.(phases := s.phases[t := p]))
  {
    MoveKeepsThreads(env, s, t, p);
  }

  lemma ReadKeepsInv(env: Env, s: State, t: Task)
    requires Inv(env, s) && InPhase(s, t) == Reading
    ensures Inv(env, HasRead(s, t))
  {
    MoveKeepsOrder(env, s, t, Holding(s.remote));
    CoverCarriesOver(env, s, HasRead(s, t));
    BackupsCarryOver(s, HasRead(s, t));
  }

  lemma StopKeepsOrder(env: Env, s: State, t: Task)
    requires Ordered(env, s) && Active(InPhase(s, t)) && t < |s.locks.calls|
    ensures Ordered(env, Stop(s, t))
  {
    WriteLocks.FinishKeepsInv(s.locks, t);
    forall u | u in s.phases && u != t && Active(s.phases[u]) ensures false {
      OneActive(env, s, u, t);
    }
  }

  lemma StopKeepsInv(env: Env, s: State, t: Task)
    requires Inv(env, s) && Active(InPhase(s, t)) && t < |s.locks.calls|
    ensures Inv(env, Stop(s, t))
  {
    StopKeepsOrder(env, s, t);
    CoverCarriesOver(env, s, Stop(s, t));
    BackupsCarryOver(s, Stop(s, t));
  }

  lemma RestartKeepsInv(env: Env, s: State)
    requires Inv(env, s)
    ensures Inv(env, Restarted(s))
  {
    var r := Restarted(s);
    assert WriteLocks.Inv(WriteLocks.NO_LOCKS);
    CoverCarriesOver(env, s, r);
    BackupsCarryOver(s, r);
  }

  lemma TickKeepsInv(env: Env, s: State, later: int)
    requires Inv(env, s)
    ensures Inv(env, s.(now := later))
  {
    OrderCarriesOver(env, s, s.(now := later));
    CoverCarriesOver(env, s, s.(now := later));
    BackupsCarryOver(s, s.(now := later));
  }

  /******* The request takes effect *******/

  lemma EffectKeepsOrder(env: Env, s: State, t: Task)
    requires Ordered(env, s) && InPhase(s, t).Posting? && !s.phases[t].applied
    ensures Ordered(env, Affected(s, t))
  {
    var r := Affected(s, t);
    assert r.history[..|s.history|] == s.history;
    MoveKeepsThreads(env, s, t, r.phases[t]);
    forall u | u in s.phases && Active(s.phases[u]) ensures u == t {
      OneActive(env, s, u, t);
    }
  }

  lemma EffectKeepsGood(env: Env, s: State, t: Task)
    requires GoodEffects(env, s) && InPhase(s, t).Posting? && s.phases[t].write.before == s.remote
    ensures GoodEffects(env, Affected(s, t))
  {
    var r, w := Affected(s, t), s.phases[t].write;
    assert GoodWrite(env, s, w) && GoodWrite(env, r, w);
    forall k | 0 <= k < |r.history| ensures GoodWrite(env, r, r.history[k].write) {
      if k < |s.history| {
        assert GoodWrite(env, s, s.history[k].write);
      }
    }
    forall u | u in r.phases && r.phases[u].Posting? ensures GoodWrite(env, r, r.phases[u].write) {
      assert GoodWrite(env, s, s.phases[u].write);
    }
  }

  lemma EffectKeepsSpent(s: State, t: Task)
    requires ApprovalsSpent(s) && InPhase(s, t).Posting? && !s.phases[t].applied
    requires forall u :: u in s.phases && s.phases[u].Posting? ==> u == t
    ensures ApprovalsSpent(Affected(s, t))
  {
  }

  lemma EffectKeepsBackups(s: State, t: Task)
    requires BackedUp(s) && InPhase(s, t).Posting?
    ensures BackedUp(Affected(s, t))
  {
    var r, w := Affected(s, t), s.phases[t].write;
    assert Recoverable(s, w) && Recoverable(r, w);
    forall k | 0 <= k < |r.history| ensures Recoverable(r, r.history[k].write) {
      if k < |s.history| {
        assert Recoverable(s, s.history[k].write);
      }
    }
    forall u | u in r.phases && r.phases[u].Posting? ensures Recoverable(r, r.phases[u].write) {
      assert Recoverable(s, s.phases[u].write);
    }
  }

  lemma EffectKeepsInv(env: Env, s: State, t: Task)
    requires Inv(env, s) && InPhase(s, t).Posting? && !InPhase(s, t).applied
    ensures Inv(env, Affected(s, t))
  {
    forall u | u in s.phases && s.phases[u].Posting? ensures u == t {
      OneActive(env, s, u, t);
    }
    EffectKeepsOrder(env, s, t);
    EffectKeepsGood(env, s, t);
    EffectKeepsSpent(s, t);
    EffectKeepsBackups(s, t);
  }

  /******* Approvals *******/

  lemma ConsumeKeepsCover(env: Env, s: State, details: Details, id: Option<JsString>)
    requires Covered(env, s)
    ensures Covered(env, Consuming(s, details, id))
  {
    var r := Consuming(s, details, id);
    ConsumedOnce(s.approvals, details, id, s.now);
    forall w | GoodWrite(env, s, w) ensures GoodWrite(env, r, w) {
    }
  }

  /** The store after a consumption, here or elsewhere. */
  lemma ConsumeKeepsInv(env: Env, s: State, details: Details, id: Option<JsString>)
    requires Inv(env, s)
    ensures Inv(env, Consuming(s, details, id))
  {
    OrderCarriesOver(env, s, Consuming(s, details, id));
    ConsumeKeepsCover(env, s, details, id);
    BackupsCarryOver(s, Consuming(s, details, id));
  }

  lemma ApproveKeepsCover(env: Env, s: State, request: Request)
    requires Covered(env, s) && forall a :: a in s.granted ==> a.id != request.id
    ensures Covered(env, Approved(env, s, request))
  {
    var r, now := Approved(env, s, request), request.(now := s.now);
    if Approve(s.approvals, env.writesEnabled, now).Granted? {
      GrantedDistinct(s.approvals, env.writesEnabled, now);
      forall w | GoodWrite(env, s, w) ensures GoodWrite(env, r, w) {
      }
      assert forall w :: GoodWrite(env, s, w) ==> w.approval.id != request.id;
    }
  }

  lemma ApproveKeepsInv(env: Env, s: State, request: Request)
    requires Inv(env, s) && forall a :: a in s.granted ==> a.id != request.id
    ensures Inv(env, Approved(env, s, request))
  {
    OrderCarriesOver(env, s, Approved(env, s, request));
    ApproveKeepsCover(env, s, request);
    BackupsCarryOver(s, Approved(env, s, request));
  }

  /******* Backups, prunings and log lines *******/

  /** A turn of the disk keeps what a write needs: pruning spares it by reading its id back from the file name. */
  lemma DiskKeepsWrite(env: Env, s: State, r: State, e: Backups.Event, w: Write)
    requires BackupNames.DecodesAscii(env.utf8) && Backups.WorldInv(s.disk) && Backups.Allowed(env.utf8, s.disk, e)
    requires r.disk == Backups.After(s.disk, e) && s.ops <= r.ops
    requires forall name :: name in s.contents && (e.TakeBackup? ==> name != e.f.name) ==>
               name in r.contents && r.contents[name] == s.contents[name]
    requires Recoverable(s, w)
    ensures Recoverable(r, w)
  {
    assert forall l :: l in s.disk.history ==> l in r.disk.history;
    if !Terminal(r.disk.history, w.op) {
      BackupNames.UuidIsClean(w.op);
      Backups.StepSparesOpen(env.utf8, s.disk, e, w.op, w.file);
    }
  }

  lemma DiskKeepsBackups(env: Env, s: State, r: State, e: Backups.Event)
    requires BackedUp(s) && BackupNames.DecodesAscii(env.utf8) && Backups.Allowed(env.utf8, s.disk, e)
    requires r.disk == Backups.After(s.disk, e) && s.ops <= r.ops && s.others <= r.others
    requires r.history == s.history && NoNewPost(s, r)
    requires e.WriteLine? ==> e.line.op in r.ops || e.line.op in r.others
    requires forall name :: name in s.contents && (e.TakeBackup? ==> name != e.f.name) ==>
               name in r.contents && r.contents[name] == s.contents[name]
    ensures BackedUp(r)
  {
    Backups.StepKeepsInv(env.utf8, s.disk, e);
    forall k | 0 <= k < |r.history| ensures Recoverable(r, r.history[k].write) {
      DiskKeepsWrite(env, s, r, e, s.history[k].write);
    }
    forall t | t in r.phases && r.phases[t].Posting? ensures Recoverable(r, r.phases[t].write) {
      DiskKeepsWrite(env, s, r, e, s.phases[t].write);
    }
  }

  lemma ElsewhereKeepsInv(env: Env, s: State, e: Backups.Event)
    requires Inv(env, s) && DiskTurn(env, s, e)
    ensures Inv(env, Elsewhere(s, e))
  {
    OrderCarriesOver(env, s, Elsewhere(s, e));
    CoverCarriesOver(env, s, Elsewhere(s, e));
    DiskKeepsBackups(env, s, Elsewhere(s, e), e);
  }

  lemma LogKeepsInv(env: Env, s: State, line: Line)
    requires Inv(env, s) && line.op in s.ops
    ensures Inv(env, Logged(s, line))
  {
    OrderCarriesOver(env, s, Logged(s, line));
    CoverCarriesOver(env, s, Logged(s, line));
    DiskKeepsBackups(env, s, Logged(s, line), Backups.WriteLine(line));
  }

  lemma SaveKeepsInv(env: Env, s: State, b: Saving, seen: Value)
    requires Inv(env, s) && CanSave(env, s, b)
    ensures Inv(env, Saved(s, b, seen))
  {
    OrderCarriesOver(env, s, Saved(s, b, seen));
    CoverCarriesOver(env, s, Saved(s, b, seen));
    DiskKeepsBackups(env, s, Saved(s, b, seen), TakingBackup(b));
  }

  /** The new backup is on disk: its operation is new, so no line closes it. */
  lemma SavedIsOnDisk(env: Env, s: State, b: Saving, seen: Value)
    requires Inv(env, s) && CanSave(env, s, b)
    ensures var r := Saved(s, b, seen);
            Backups.NamedFor(b.file.name, b.op) && b.op in r.ops && b.file in r.disk.files &&
            r.contents[b.file.name] == seen
  {
    BackupNames.UuidIsClean(b.op);
    assert !Terminal(s.disk.history, b.op);
    Backups.StepSparesOpen(env.utf8, s.disk, TakingBackup(b), b.op, b.file);
  }

  /******* Posting *******/

  /** Everything a write needs before its request is sent. */
  ghost predicate Ready(env: Env, s: State, w: Write) {
    GoodWrite(env, s, w) && w.approval !in s.approvals && w.before == s.remote &&
    (forall k :: 0 <= k < |s.history| ==> s.history[k].write.approval != w.approval) &&
    BackupNames.UuidText(w.op) && Backups.NamedFor(w.file.name, w.op) && w.op in s.ops && OnDisk(s, w)
  }

  lemma PostKeepsCover(env: Env, s: State, t: Task, w: Write)
    requires Covered(env, s) && Ready(env, s, w)
    ensures Covered(env, s.(phases := s.phases[t := Posting(w, false)]))
  {
    var r := s.(phases := s.phases[t := Posting(w, false)]);
    forall v | GoodWrite(env, s, v) ensures GoodWrite(env, r, v) {
    }
  }

  lemma PostKeepsBackups(s: State, t: Task, w: Write)
    requires BackedUp(s) && Recoverable(s, w)
    ensures BackedUp(s.(phases := s.phases[t := Posting(w, false)]))
  {
    var r := s.(phases := s.phases[t := Posting(w, false)]);
    forall v | Recoverable(s, v) ensures Recoverable(r, v) {
    }
  }

  lemma LogKeepsReady(env: Env, s: State, w: Write)
    requires Ready(env, s, w)
    ensures var r := Logged(s, Line(w.op, Attempted)); Ready(env, r, w) && Recoverable(r, w)
  {
    var r := Logged(s, Line(w.op, Attempted));
    assert r.disk.history[|s.disk.history|] == Line(w.op, Attempted);
  }

  lemma PostKeepsInv(env: Env, s: State, t: Task, w: Write)
    requires Inv(env, s) && InPhase(s, t).Holding? && Ready(env, s, w)
    ensures Inv(env, Posted(s, t, w))
  {
    var r := Logged(s, Line(w.op, Attempted));
    LogKeepsInv(env, s, Line(w.op, Attempted));
    LogKeepsReady(env, s, w);
    MoveKeepsOrder(env, r, t, Posting(w, false));
    PostKeepsCover(env, r, t, w);
    PostKeepsBackups(r, t, w);
  }

  /** What has been consumed and saved for a plan makes its write ready. */
  lemma SavedIsReady(env: Env, s: State, t: Task, view: View, b: Saving)
    requires Inv(env, s) && InPhase(s, t).Holding? && t in s.jobs && CanSave(env, s, b)
    requires var intent := env.planner(s.jobs[t], s.phases[t].seen, view);
             intent.Go? && Consume(s.approvals, intent.details, s.jobs[t].approvalId, s.now).Consumed?
    ensures var seen, job := s.phases[t].seen, s.jobs[t];
            var intent := env.planner(job, seen, view);
            var c := Consume(s.approvals, intent.details, job.approvalId, s.now);
            var saved := Saved(Consuming(s, intent.details, job.approvalId), b, seen);
            Inv(env, saved) && InPhase(saved, t).Holding? &&
            Ready(env, saved, Write(b.op, b.file, seen, intent.next, intent.details, job, view, c.approval, s.now))
  {
    var seen, job := s.phases[t].seen, s.jobs[t];
    var intent := env.planner(job, seen, view);
    var consumed := Consuming(s, intent.details, job.approvalId);
    ConsumeKeepsInv(env, s, intent.details, job.approvalId);
    ConsumedOnce(s.approvals, intent.details, job.approvalId, s.now);
    SaveKeepsInv(env, consumed, b, seen);
    SavedIsOnDisk(env, consumed, b, seen);
  }

  lemma DecideKeepsInv(env: Env, s: State, t: Task, view: View, b: Saving, fault: Fault)
    requires Inv(env, s) && InPhase(s, t).Holding? && t in s.jobs && t < |s.locks.calls| && CanSave(env, s, b)
    ensures Inv(env, Decided(env, s, t, view, b, fault))
  {
    var seen, job := s.phases[t].seen, s.jobs[t];
    var intent := env.planner(job, seen, view);
    if !intent.Go? {
      StopKeepsInv(env, s, t);
    } else {
      var c := Consume(s.approvals, intent.details, job.approvalId, s.now);
      var consumed := Consuming(s, intent.details, job.approvalId);
      if !c.Consumed? || fault == BackupRefused {
        ConsumeKeepsInv(env, s, intent.details, job.approvalId);
        StopKeepsInv(env, consumed, t);
      } else {
        var saved := Saved(consumed, b, seen);
        SavedIsReady(env, s, t, view, b);
        if fault == AttemptNotLogged {
          StopKeepsInv(env, saved, t);
        } else {
          PostKeepsInv(env, saved, t,
            Write(b.op, b.file, seen, intent.next, intent.details, job, view, c.approval, s.now));
        }
      }
    }
  }

  lemma VerifyKeepsInv(env: Env, s: State, t: Task)
    requires Inv(env, s) && InPhase(s, t).Posting?
    ensures Inv(env, s.(phases := s.phases[t := Verifying]))
  {
    MoveKeepsOrder(env, s, t, Verifying);
    CoverCarriesOver(env, s, s.(phases := s.phases[t := Verifying]));
    BackupsCarryOver(s, s.(phases := s.phases[t := Verifying]));
  }

  lemma SettleKeepsInv(env: Env, s: State, t: Task, outcome: AuditOutcome, logged: bool)
    requires Inv(env, s) && InPhase(s, t).Posting? && t < |s.locks.calls|
    ensures Inv(env, Settled(s, t, outcome, logged))
  {
    if logged {
      assert Recoverable(s, s.phases[t].write);
      LogKeepsInv(env, s, Line(s.phases[t].write.op, outcome));
      var r := Logged(s, Line(s.phases[t].write.op, outcome));
      if outcome == Succeeded {
        VerifyKeepsInv(env, r, t);
      } else {
        StopKeepsInv(env, r, t);
      }
    } else {
      StopKeepsInv(env, s, t);
    }
  }

  predicate IsTaskTurn(a: Action) {
    a.Begin? || a.Read? || a.GiveUp? || a.Decide? || a.TakeEffect? || a.SettlePost? || a.Release?
  }

  lemma TaskTurnKeepsInv(env: Env, s: State, a: Action)
    requires Inv(env, s) && Enabled(env, s, a)
    requires IsTaskTurn(a)
    ensures Inv(env, Next(env, s, a))
  {
    match a
    case Begin(t) => BeginKeepsInv(env, s, t);
    case Read(t) => ReadKeepsInv(env, s, t);
    case GiveUp(t) => StopKeepsInv(env, s, t);
    case Decide(t, view, saving, fault) => DecideKeepsInv(env, s, t, view, saving, fault);
    case TakeEffect(t) => EffectKeepsInv(env, s, t);
    case SettlePost(t, outcome, logged) => SettleKeepsInv(env, s, t, outcome, logged);
    case Release(t) => StopKeepsInv(env, s, t);
  }

  lemma SharedTurnKeepsInv(env: Env, s: State, a: Action)
    requires Inv(env, s) && Enabled(env, s, a) && !IsTaskTurn(a)
    ensures Inv(env, Next(env, s, a))
  {
    match a
    case Call(job) => CallKeepsInv(env, s, job);
    case OtherLockTurn(turn) => OtherTurnKeepsInv(env, s, turn);
    case ApproveOne(request) => ApproveKeepsInv(env, s, request);
    case OtherConsume(details, id) => ConsumeKeepsInv(env, s, details, id);
    case OtherDisk(e) => ElsewhereKeepsInv(env, s, e);
    case Tick(later) => TickKeepsInv(env, s, later);
    case Crash => RestartKeepsInv(env, s);
  }

  lemma InvKept(env: Env, s: State, a: Action)
    requires Inv(env, s) && Enabled(env, s, a)
    ensures Inv(env, Next(env, s, a))
  {
    if IsTaskTurn(a) {
      TaskTurnKeepsInv(env, s, a);
    } else {
      SharedTurnKeepsInv(env, s, a);
    }
  }

  lemma InitialInv(env: Env, remote: Value, now: int)
    requires BackupNames.DecodesAscii(env.utf8)
    ensures Inv(env, Initial(remote, now))
  {
    assert WriteLocks.Inv(WriteLocks.NO_LOCKS);
  }

  lemma {:induction false} RunKeepsInv(env: Env, states: seq<State>, actions: seq<Action>, i: nat)
    requires Run(env, states, actions) && i < |states|
    ensures Inv(env, states[i])
  {
    if i == 0 {
      InitialInv(env, states[0].remote, states[0].now);
    } else {
      RunKeepsInv(env, states, actions, i - 1);
      InvKept(env, states[i - 1], actions[i - 1]);
    }
  }

  /******* Main results *******/

  /**
   No update is lost: in every reachable state the remote changes form a chain from the initial to the
   present state, and each one is the change its task planned from the very state it replaced.
   */
  lemma NoLostUpdates(env: Env, states: seq<State>, actions: seq<Action>, i: nat, k: nat)
    requires Run(env, states, actions) && i < |states| && k < |states[i].history|
    ensures var s := states[i];
            var e := s.history[k];
            e.before == (if k == 0 then s.initial else s.history[k - 1].after) &&
            e.after == (if k == |s.history| - 1 then s.remote else s.history[k + 1].before) &&
            env.planner(e.write.job, e.before, e.write.view) == Go(e.after, e.write.details)
  {
    RunKeepsInv(env, states, actions, i);
    assert GoodWrite(env, states[i], states[i].history[k].write);
    ChainLinks(states[i].initial, states[i].history, states[i].remote, k);
  }

  /**
   One approval per change: each change consumed an approval that had been granted, was unexpired then,
   was named by the task, and carries the details of exactly this change; no other change has it, and it
   is not on offer any more.
   */
  lemma OneApprovalPerChange(env: Env, states: seq<State>, actions: seq<Action>, i: nat, k: nat)
    requires Run(env, states, actions) && i < |states| && k < |states[i].history|
    ensures var s := states[i];
            var w := s.history[k].write;
            w.approval in s.granted && w.approval.expiresAt > w.consumedAt && w.job.approvalId == Some(w.approval.id) &&
            w.approval.details == w.details && w.approval !in s.approvals &&
            forall j :: 0 <= j < |s.history| && j != k ==> s.history[j].write.approval != w.approval
  {
    RunKeepsInv(env, states, actions, i);
    assert GoodWrite(env, states[i], states[i].history[k].write);
  }

  /**
   Every change was logged as attempted before it happened, and as long as the log has not told how its
   operation ended, the file with the state it replaced is on disk, under a name that gives the id back,
   whatever was pruned, rotated out of the log or lost in a restart.
   */
  lemma UnresolvedChangesRecoverable(env: Env, states: seq<State>, actions: seq<Action>, i: nat, k: nat)
    requires Run(env, states, actions) && i < |states| && k < |states[i].history|
    ensures var s := states[i];
            var w := s.history[k].write;
            Line(w.op, Attempted) in s.disk.history &&
            BackupNames.BackupOperationId(w.file.name, env.utf8) == Some(w.op) &&
            (!Terminal(s.disk.history, w.op) ==>
               w.file in s.disk.files && w.file.name in s.contents && s.contents[w.file.name] == s.history[k].before)
  {
    RunKeepsInv(env, states, actions, i);
    var w := states[i].history[k].write;
    assert Recoverable(states[i], w);
    var node :| Backups.NamedIn(w.file.name, w.op, node);
    var stamp, uuid :| BackupNames.DashFree(stamp) && BackupNames.DashFree(uuid) &&
                       w.file.name == BackupNames.FileName(stamp, w.op, uuid, BackupNames.Utf8(node));
    BackupNames.UuidRoundTrip(stamp, w.op, uuid, BackupNames.Utf8(node), env.utf8);
  }

  /******* When there is a change *******/

  /** The store offers a live approval of the task's id for exactly these details. */
  ghost predicate IsApproved(s: State, job: Job, details: Details) {
    exists a :: a in s.approvals && job.approvalId == Some(a.id) && a.id != [] && a.expiresAt > s.now &&
                a.details == details
  }

  /** The request that carries out an intent is on its way, backed up and logged as attempted. */
  ghost predicate UnderWay(s: State, t: Task, seen: Value, intent: Intent, b: Saving) {
    intent.Go? && InPhase(s, t).Posting? && !s.phases[t].applied &&
    s.phases[t].write.before == seen && s.phases[t].write.next == intent.next &&
    s.phases[t].write.details == intent.details && s.phases[t].write.op == b.op &&
    b.file.name in s.contents && s.contents[b.file.name] == seen && Line(b.op, Attempted) in s.disk.history
  }

  /**
   A task that has read the state sends its request exactly if its planner says so, a live approval for these
   details is on offer, and neither the backup nor the attempted line fails; otherwise it ends and releases
   the lock.
   */
  lemma SendsIffApproved(env: Env, s: State, t: Task, view: View, b: Saving, fault: Fault)
    requires Inv(env, s) && Enabled(env, s, Decide(t, view, b, fault))
    ensures var seen, job := s.phases[t].seen, s.jobs[t];
            var intent := env.planner(job, seen, view);
            var r := Next(env, s, Decide(t, view, b, fault));
            if intent.Go? && IsApproved(s, job, intent.details) && fault == NoFault
            then UnderWay(r, t, seen, intent, b)
            else InPhase(r, t) == Done && t in r.locks.finished
  {
    var intent := env.planner(s.jobs[t], s.phases[t].seen, view);
    if intent.Go? {
      ApprovedIffConsumed(s, s.jobs[t], intent);
    }
    DecidedSends(env, s, t, view, b, fault);
  }

  lemma ApprovedIffConsumed(s: State, job: Job, intent: Intent)
    requires DistinctIds(s.approvals) && intent.Go?
    ensures Consume(s.approvals, intent.details, job.approvalId, s.now).Consumed? <==>
            IsApproved(s, job, intent.details)
  {
    ConsumedIff(s.approvals, intent.details, job.approvalId, s.now);
  }

  lemma DecidedSends(env: Env, s: State, t: Task, view: View, b: Saving, fault: Fault)
    requires InPhase(s, t).Holding? && t in s.jobs && t < |s.locks.calls|
    ensures var seen, job := s.phases[t].seen, s.jobs[t];
            var intent := env.planner(job, seen, view);
            var r := Decided(env, s, t, view, b, fault);
            if intent.Go? && Consume(s.approvals, intent.details, job.approvalId, s.now).Consumed? && fault == NoFault
            then UnderWay(r, t, seen, intent, b)
            else InPhase(r, t) == Done && t in r.locks.finished
  {
    var seen, job := s.phases[t].seen, s.jobs[t];
    var intent := env.planner(job, seen, view);
    if intent.Go? {
      var c := Consume(s.approvals, intent.details, job.approvalId, s.now);
      if c.Consumed? && fault == NoFault {
        SavedThenPosted(s.(approvals := c.approvals), t, b, seen,
                        Write(b.op, b.file, seen, intent.next, intent.details, job, view, c.approval, s.now));
      }
    }
  }

  lemma SavedThenPosted(s: State, t: Task, b: Saving, seen: Value, w: Write)
    requires w.op == b.op
    ensures var r := Posted(Saved(s, b, seen), t, w);
            r.phases[t] == Posting(w, false) && b.file.name in r.contents && r.contents[b.file.name] == seen &&
            Line(b.op, Attempted) in r.disk.history
  {
    var r := Posted(Saved(s, b, seen), t, w);
    assert r.disk.history == Saved(s, b, seen).disk.history + [Line(b.op, Attempted)];
  }

  /** The live approvals are on offer all the same, and nothing new is. */
  ghost predicate OfferKept(s: State, r: State) {
    (forall a :: a in s.approvals && a.expiresAt > s.now ==> a in r.approvals) &&
    forall a :: a in r.approvals ==> a in s.approvals
  }

  /** Exactly the task's approval has been taken from the live ones. */
  ghost predicate OfferTaken(s: State, r: State, id: JsString) {
    forall a :: a in r.approvals <==> a in s.approvals && a.expiresAt > s.now && a.id != id
  }

  /**
   What a turn leaves behind that does not send: without a change to make, a dry run included, nothing but the
   end of the task; without approval, no backup and no line; after a failed backup, the approval is gone but no
   backup and no line; after a failed attempted line, the backup too is there.
   */
  lemma EarlyEndsLeave(env: Env, s: State, t: Task, view: View, b: Saving, fault: Fault)
    requires Inv(env, s) && Enabled(env, s, Decide(t, view, b, fault))
    ensures var seen, job := s.phases[t].seen, s.jobs[t];
            var intent := env.planner(job, seen, view);
            var r := Next(env, s, Decide(t, view, b, fault));
            r.remote == s.remote && r.history == s.history &&
            if !intent.Go? then r == s.(locks := r.locks, phases := r.phases)
            else if !IsApproved(s, job, intent.details)
            then r == s.(locks := r.locks, phases := r.phases, approvals := r.approvals) && OfferKept(s, r)
            else OfferTaken(s, r, job.approvalId.value) &&
                 (fault == BackupRefused ==> r.disk == s.disk && r.contents == s.contents) &&
                 (fault == AttemptNotLogged ==>
                    r.disk.history == s.disk.history && r.contents == s.contents[b.file.name := seen])
  {
    var intent := env.planner(s.jobs[t], s.phases[t].seen, view);
    if intent.Go? {
      ApprovedIffConsumed(s, s.jobs[t], intent);
      OfferAfter(s, s.jobs[t], intent);
      DecidedLeaves(env, s, t, view, b, fault);
    }
  }

  /** The store after the gate has been asked. */
  lemma OfferAfter(s: State, job: Job, intent: Intent)
    requires DistinctIds(s.approvals) && intent.Go?
    ensures var c := Consume(s.approvals, intent.details, job.approvalId, s.now);
            var r := s.(approvals := c.approvals);
            if c.Consumed? then job.approvalId.Some? && OfferTaken(s, r, job.approvalId.value) else OfferKept(s, r)
  {
    ConsumedOnce(s.approvals, intent.details, job.approvalId, s.now);
    UnexpiredExactly(s.approvals, s.now);
  }

  lemma DecidedLeaves(env: Env, s: State, t: Task, view: View, b: Saving, fault: Fault)
    requires InPhase(s, t).Holding? && t in s.jobs && t < |s.locks.calls|
    requires env.planner(s.jobs[t], s.phases[t].seen, view).Go?
    ensures var seen, job := s.phases[t].seen, s.jobs[t];
            var c := Consume(s.approvals, env.planner(job, seen, view).details, job.approvalId, s.now);
            var r := Decided(env, s, t, view, b, fault);
            r.remote == s.remote && r.history == s.history && r.approvals == c.approvals &&
            (!c.Consumed? || fault == BackupRefused ==>
               r == s.(locks := r.locks, phases := r.phases, approvals := r.approvals)) &&
            (c.Consumed? && fault == AttemptNotLogged ==>
               r.disk.history == s.disk.history && r.contents == s.contents[b.file.name := seen])
  {
  }

  /** A logged success goes on to verification; any other answer ends the task; an unlogged one leaves the log alone. */
  lemma AnswerIsLogged(env: Env, s: State, t: Task, outcome: AuditOutcome, logged: bool)
    requires Enabled(env, s, SettlePost(t, outcome, logged))
    ensures var r := Next(env, s, SettlePost(t, outcome, logged));
            r.disk.history == s.disk.history + (if logged then [Line(s.phases[t].write.op, outcome)] else []) &&
            (InPhase(r, t) == Verifying <==> outcome == Succeeded && logged) &&
            (InPhase(r, t) != Verifying ==> InPhase(r, t) == Done && t in r.locks.finished)
  {
    if !logged {
      assert s.disk.history + [] == s.disk.history;
    }
  }

  /** From one state to another by enabled actions, one after the other. */
  ghost predicate Leads(env: Env, s: State, actions: seq<Action>, r: State)
    decreases |actions|
  {
    if actions == [] then s == r
    else Enabled(env, s, actions[0]) && Leads(env, Next(env, s, actions[0]), actions[1..], r)
  }

  lemma LeadsOnce(env: Env, s: State, a: Action)
    requires Enabled(env, s, a)
    ensures Leads(env, s, [a], Next(env, s, a))
  {
    assert [a][1..] == [];
  }

  lemma {:induction false} LeadsOn(env: Env, s: State, first: seq<Action>, r: State, more: seq<Action>, u: State)
    requires Leads(env, s, first, r) && Leads(env, r, more, u)
    ensures Leads(env, s, first + more, u)
    decreases |first|
  {
    if first == [] {
      assert first + more == more;
    } else {
      LeadsOn(env, Next(env, s, first[0]), first[1..], r, more, u);
      assert (first + more)[1..] == first[1..] + more;
    }
  }

  /** Starting and reading changes the task's own progress only. */
  lemma StartsAndReads(env: Env, s: State, t: Task) returns (read: State)
    requires Inv(env, s) && Enabled(env, s, Begin(t))
    ensures Leads(env, s, [Begin(t)] + [Read(t)], read) && Inv(env, read)
    ensures InPhase(read, t) == Holding(s.remote) && t < |read.locks.calls|
    ensures read == s.(locks := read.locks, phases := read.phases)
  {
    var begun := Begun(s, t);
    read := HasRead(begun, t);
    InvKept(env, s, Begin(t));
    InvKept(env, begun, Read(t));
    LeadsOnce(env, s, Begin(t));
    LeadsOnce(env, begun, Read(t));
    LeadsOn(env, s, [Begin(t)], begun, [Read(t)], read);
  }

  lemma SendsFrom(env: Env, s: State, t: Task, seen: Value, intent: Intent, view: View, b: Saving)
    returns (posted: State)
    requires Inv(env, s) && InPhase(s, t) == Holding(seen) && t in s.jobs && t < |s.locks.calls|
    requires CanSave(env, s, b) && env.planner(s.jobs[t], seen, view) == intent
    requires intent.Go? && IsApproved(s, s.jobs[t], intent.details)
    ensures Leads(env, s, [Decide(t, view, b, NoFault)], posted) && Inv(env, posted)
    ensures UnderWay(posted, t, seen, intent, b)
  {
    var a := Decide(t, view, b, NoFault);
    posted := Next(env, s, a);
    SendsIffApproved(env, s, t, view, b, NoFault);
    InvKept(env, s, a);
    LeadsOnce(env, s, a);
  }

  /** A request on its way succeeds: it takes effect, its success is logged, and the task releases the lock. */
  lemma SucceedsFrom(env: Env, s: State, t: Task, next: Value, op: seq<Base64.Byte>) returns (done: State)
    requires Inv(env, s) && InPhase(s, t).Posting? && !s.phases[t].applied
    requires s.phases[t].write.next == next && s.phases[t].write.op == op
    ensures Leads(env, s, [TakeEffect(t)] + ([SettlePost(t, Succeeded, true)] + [Release(t)]), done)
    ensures done.remote == next && t in done.locks.finished && Line(op, Succeeded) in done.disk.history
  {
    var reached := Affected(s, t);
    var settled := Settled(reached, t, Succeeded, true);
    done := Stop(settled, t);
    AnswerIsLogged(env, reached, t, Succeeded, true);
    LeadsOnce(env, s, TakeEffect(t));
    LeadsOnce(env, reached, SettlePost(t, Succeeded, true));
    LeadsOnce(env, settled, Release(t));
    LeadsOn(env, reached, [SettlePost(t, Succeeded, true)], settled, [Release(t)], done);
    LeadsOn(env, s, [TakeEffect(t)], reached, [SettlePost(t, Succeeded, true)] + [Release(t)], done);
  }

  /** What a task needs to save and to be approved does not depend on its progress. */
  lemma SameNeeds(env: Env, s: State, r: State, job: Job, details: Details, b: Saving)
    requires r == s.(locks := r.locks, phases := r.phases)
    ensures CanSave(env, s, b) ==> CanSave(env, r, b)
    ensures IsApproved(s, job, details) ==> IsApproved(r, job, details)
  {
  }

  function TurnsOf(t: Task, view: View, b: Saving): (actions: seq<Action>) {
    [Begin(t)] + [Read(t)] + [Decide(t, view, b, NoFault)] +
    ([TakeEffect(t)] + ([SettlePost(t, Succeeded, true)] + [Release(t)]))
  }

  /**
   An approved write that nothing disturbs changes the node: the task takes the lock, reads, sends, and the node
   holds the planned state, with the success on the log and the lock free again.
   */
  lemma ApprovedWriteSucceeds(env: Env, s: State, t: Task, intent: Intent, view: View, b: Saving)
    returns (done: State)
    requires Inv(env, s) && Enabled(env, s, Begin(t)) && t in s.jobs && CanSave(env, s, b)
    requires intent == env.planner(s.jobs[t], s.remote, view) && intent.Go?
    requires IsApproved(s, s.jobs[t], intent.details)
    ensures Leads(env, s, TurnsOf(t, view, b), done)
    ensures done.remote == intent.next && Line(b.op, Succeeded) in done.disk.history && t in done.locks.finished
  {
    var read := StartsAndReads(env, s, t);
    SameNeeds(env, s, read, s.jobs[t], intent.details, b);
    var posted := SendsFrom(env, read, t, s.remote, intent, view, b);
    done := SucceedsFrom(env, posted, t, intent.next, b.op);
    LeadsOn(env, s, [Begin(t)] + [Read(t)], read, [Decide(t, view, b, NoFault)], posted);
    LeadsOn(env, s, [Begin(t)] + [Read(t)] + [Decide(t, view, b, NoFault)], posted,
            [TakeEffect(t)] + ([SettlePost(t, Succeeded, true)] + [Release(t)]), done);
  }

  /******* The running resource, one method per turn *******/

  class GuardedResource {
    const env: Env
    const initial: Value
    var remote: Value
    var now: int
    var locks: WriteLocks.Locks
    var jobs: map<Task, Job>
    var phases: map<Task, Phase>
    var approvals: seq<Approval>
    var disk: Backups.World
    var contents: map<JsString, Value>
    ghost var granted: set<Approval>
    ghost var ops: set<JsString>
    ghost var others: set<JsString>
    ghost var history: seq<Effect>

    ghost function Current(): (s: State)
      reads this
    {
      State(initial, remote, now, locks, jobs, phases, approvals, granted, disk, contents, ops, others, history)
    }

    ghost predicate Valid()
      reads this
    {
      Inv(env, Current())
    }

    constructor (env: Env, remote: Value, now: int)
      requires BackupNames.DecodesAscii(env.utf8)
      ensures this.env == env && Current() == Initial(remote, now) && Valid()
    {
      this.env, initial, this.remote, this.now := env, remote, remote, now;
      locks, jobs, phases, approvals := WriteLocks.NO_LOCKS, map[], map[], [];
      disk, contents, granted, ops, others, history := Backups.EMPTY_WORLD, map[], {}, {}, {}, [];
      new;
      InitialInv(env, remote, now);
    }

    /** The task is over: the lock goes to the next. */
    method EndTask(t: Task)
      requires t < |locks.calls|
      modifies this`phases, this`locks
      ensures Current() == Stop(old(Current()), t)
    {
      phases := phases[t := Done];
      locks := WriteLocks.Finish(locks, t);
    }

    method ReadCurrent(t: Task)
      modifies this`phases
      ensures Current() == HasRead(old(Current()), t)
    {
      phases := phases[t := Holding(remote)];
    }

    /** From the plan to the request on its way: every early end leaves what came before it done. */
    method PlanAndPost(t: Task, view: View, b: Saving, fault: Fault)
      requires t in phases && phases[t].Holding? && t in jobs && t < |locks.calls|
      modifies this
      ensures Current() == Decided(env, old(Current()), t, view, b, fault)
    {
      var seen, job := phases[t].seen, jobs[t];
      var intent := env.planner(job, seen, view);
      if !intent.Go? {
        EndTask(t);
        return;
      }
      var consumption := Consume(approvals, intent.details, job.approvalId, now);
      approvals := consumption.approvals;
      if !consumption.Consumed? || fault == BackupRefused {
        EndTask(t);
        return;
      }
      SaveBackup(b, seen);
      if fault == AttemptNotLogged {
        EndTask(t);
        return;
      }
      WriteLog(Line(b.op, Attempted));
      var write := Write(b.op, b.file, seen, intent.next, intent.details, job, view, consumption.approval, now);
      phases := phases[t := Posting(write, false)];
    }

    method SaveBackup(b: Saving, seen: Value)
      modifies this`disk, this`contents, this`ops
      ensures Current() == Saved(old(Current()), b, seen)
    {
      SaveOn(Backups.After(disk, TakingBackup(b)), b, seen);
    }

    method SaveOn(after: Backups.World, b: Saving, seen: Value)
      modifies this`disk, this`contents, this`ops
      ensures Current() == SavedOn(old(Current()), after, b, seen)
    {
      disk := after;
      contents := contents[b.file.name := seen];
      ops := ops + {b.op};
    }

    method WriteLog(line: Line)
      modifies this`disk
      ensures Current() == Logged(old(Current()), line)
    {
      disk := Backups.After(disk, Backups.WriteLine(line));
    }

    /** The node takes the request. */
    method ReachNode(t: Task)
      requires t in phases && phases[t].Posting?
      modifies this
      ensures Current() == Affected(old(Current()), t)
    {
      var write := phases[t].write;
      history := history + [Effect(remote, write.next, write)];
      remote := write.next;
      phases := phases[t := Posting(write, true)];
    }

    /** The answer, or its absence, is logged; only a logged success goes on to verification. */
    method SettleResponse(t: Task, outcome: AuditOutcome, logged: bool)
      requires t in phases && phases[t].Posting? && t < |locks.calls|
      modifies this
      ensures Current() == Settled(old(Current()), t, outcome, logged)
    {
      if logged {
        WriteLog(Line(phases[t].write.op, outcome));
      }
      if outcome == Succeeded && logged {
        phases := phases[t := Verifying];
      } else {
        EndTask(t);
      }
    }

    /** One turn of a task of the resource. */
    method Perform(a: Action)
      requires Enabled(env, Current(), a) && IsTaskTurn(a)
      modifies this
      ensures Current() == Next(env, old(Current()), a)
    {
      match a {
        case Begin(t) => locks, phases := WriteLocks.Start(locks, t), phases[t := Reading];
        case Read(t) => ReadCurrent(t);
        case GiveUp(t) => EndTask(t);
        case Decide(t, view, saving, fault) => PlanAndPost(t, view, saving, fault);
        case TakeEffect(t) => ReachNode(t);
        case SettlePost(t, outcome, logged) => SettleResponse(t, outcome, logged);
        case Release(t) => EndTask(t);
      }
    }

    /** Whichever task's turn it is, the resource keeps its invariant. */
    method TakeTurn(a: Action)
      requires Valid() && Enabled(env, Current(), a) && IsTaskTurn(a)
      modifies this
      ensures Current() == Next(env, old(Current()), a) && Valid()
    {
      TaskTurnKeepsInv(env, Current(), a);
      Perform(a);
    }

    /** The process dies and another one takes over what is on disk. */
    method Restart()
      requires Valid()
      modifies this
      ensures Current() == Restarted(old(Current())) && Valid()
      ensures remote == old(remote) && approvals == old(approvals) && disk == old(disk) && contents == old(contents)
      ensures locks == WriteLocks.NO_LOCKS && jobs == map[] && phases == map[]
    {
      RestartKeepsInv(env, Current());
      locks, jobs, phases := WriteLocks.NO_LOCKS, map[], map[];
    }
  }
}

/**
 The startup lock file: several processes, each going through the file steps of an acquire call,
 with deaths, reused process ids and time passing in between.
 */
module StartupLock {
  import opened Wrappers

  type Proc = nat
  type Pid = nat
  type FileId = nat

  const GRACE := 5 * 60 * 1000

  /** A record that has not been written completely reads as malformed. */
  datatype Content = Malformed | Valid(pid: Pid)

  datatype File = File(id: FileId, content: Content, mtime: int)

  /** Where a process is; the later phases know the file they created. */
  datatype Phase =
    | Idle
    | Looking
    | Reading
    | Checking(pid: Pid)
    | Stating
    | Renaming
    | Opening
    | Writing(file: FileId)
    | Securing(file: FileId)
    | Undoing(file: FileId)
    | Holding(file: FileId)
    | Releasing(file: FileId)

  datatype Process = Process(pid: Pid, phase: Phase, began: int)

  /** Living processes, process ids in use elsewhere, the lock file, a supply of files, and the clock. */
  datatype World = World(procs: map<Proc, Process>, foreign: set<Pid>, lock: Option<File>, nextFile: FileId, now: int)

  function AlivePids(w: World): (pids: set<Pid>) {
    w.foreign + set p | p in w.procs :: w.procs[p].pid
  }

  predicate IsAlive(w: World, pid: Pid) {
    pid in AlivePids(w)
  }

  datatype Action =
    | Spawn(p: Proc, pid: Pid)
    | Die(p: Proc)
    | ForeignStart(pid: Pid)
    | ForeignEnd(pid: Pid)
    | Tick(elapsed: nat)
    | Advance(p: Proc)
    | FailWrite(p: Proc)

  predicate Possible(w: World, a: Action) {
    match a
    case Spawn(p, pid) => p !in w.procs && !IsAlive(w, pid)
    case Die(p) => p in w.procs
    case ForeignStart(pid) => !IsAlive(w, pid)
    case ForeignEnd(pid) => pid in w.foreign
    case Tick(_) => true
    case Advance(p) => p in w.procs
    case FailWrite(p) => p in w.procs && w.procs[p].phase.Writing?
  }

  function At(w: World, p: Proc, phase: Phase): (v: World)
    requires p in w.procs
  {
    w.(procs := w.procs[p := w.procs[p].(phase := phase)])
  }

  /** A process that creates the file writes to it even when it has been renamed meanwhile. */
  function WriteTo(lock: Option<File>, id: FileId, content: Content, now: int): (r: Option<File>) {
    if lock.Some? && lock.value.id == id then Some(File(id, content, now)) else lock
  }

  /** The next file step of a process; a refused or failed call ends in `Idle`. */
  function NextStep(w: World, p: Proc): (v: World)
    requires p in w.procs
  {
    var me := w.procs[p];
    match me.phase
    case Idle => w.(procs := w.procs[p := me.(phase := Looking, began := w.now)])
    case Looking => At(w, p, if w.lock.Some? then Reading else Opening)
    case Reading =>
      At(w, p, if w.lock.Some? && w.lock.value.content.Valid? then Checking(w.lock.value.content.pid) else Stating)
    case Checking(pid) => At(w, p, if IsAlive(w, pid) then Idle else Renaming)
    case Stating => At(w, p, if w.lock.Some? && w.now - w.lock.value.mtime >= GRACE then Renaming else Idle)
    case Renaming => At(w, p, if w.lock.Some? then Opening else Idle).(lock := None)
    case Opening =>
      if w.lock.Some? then At(w, p, Idle)
      else At(w, p, Writing(w.nextFile)).(lock := Some(File(w.nextFile, Malformed, w.now)), nextFile := w.nextFile + 1)
    case Writing(id) => At(w, p, Securing(id)).(lock := WriteTo(w.lock, id, Valid(me.pid), w.now))
    case Securing(id) => At(w, p, if w.lock.Some? then Holding(id) else Undoing(id))
    case Undoing(_) => At(w, p, Idle).(lock := None)
    case Holding(id) => At(w, p, Releasing(id))
    case Releasing(_) => At(w, p, Idle).(lock := None)
  }

  function Step(w: World, a: Action): (v: World)
    requires Possible(w, a)
  {
    match a
    case Spawn(p, pid) => w.(procs := w.procs[p := Process(pid, Idle, w.now)])
    case Die(p) => w.(procs := map q | q in w.procs && q != p :: w.procs[q])
    case ForeignStart(pid) => w.(foreign := w.foreign + {pid})
    case ForeignEnd(pid) => w.(foreign := w.foreign - {pid})
    case Tick(elapsed) => w.(now := w.now + elapsed)
    case Advance(p) => NextStep(w, p)
    case FailWrite(p) =>
      var id := w.procs[p].phase.file;
      At(w, p, Undoing(id)).(lock := WriteTo(w.lock, id, Malformed, w.now))
  }

  predicate Holds(w: World, p: Proc) {
    p in w.procs && w.procs[p].phase.Holding?
  }

  /** At most one living process holds the lock. */
  ghost predicate Exclusive(w: World) {
    forall p, q :: Holds(w, p) && Holds(w, q) ==> p == q
  }

  /** Inside an acquire call. */
  predicate InCall(phase: Phase) {
    !phase.Idle? && !phase.Holding? && !phase.Releasing?
  }

  predicate Calling(w: World, p: Proc) {
    p in w.procs && InCall(w.procs[p].phase)
  }

  /** From the creation of the file to its removal. */
  predicate Owning(phase: Phase) {
    phase.Writing? || phase.Securing? || phase.Undoing? || phase.Holding? || phase.Releasing?
  }

  predicate Owns(w: World, p: Proc) {
    p in w.procs && Owning(w.procs[p].phase)
  }

  /** The lock file is the one this process created. */
  predicate HasFile(w: World, p: Proc) {
    Owns(w, p) && w.lock.Some? && w.lock.value.id == w.procs[p].phase.file
  }

  ghost predicate DistinctPids(w: World) {
    forall p, q :: p in w.procs && q in w.procs && w.procs[p].pid == w.procs[q].pid ==> p == q
  }

  /** Every owner has its own file at the path, so there is at most one; its record is complete after writing. */
  ghost predicate Owned(w: World) {
    && (forall p :: Owns(w, p) ==> HasFile(w, p) && w.procs[p].phase.file < w.nextFile)
    && (forall p, q :: Owns(w, p) && Owns(w, q) ==> p == q)
    && (forall p :: Owns(w, p) && !w.procs[p].phase.Writing? && !w.procs[p].phase.Undoing? ==>
          w.lock.value.content == Valid(w.procs[p].pid))
  }

  /******* Calls that do not overlap *******/

  /** A call starts only while no living process is inside one. */
  ghost predicate Apart(w: World, a: Action) {
    Possible(w, a) && (a.Advance? && w.procs[a.p].phase.Idle? ==> forall q :: !Calling(w, q))
  }

  /** The caller has found no living owner, or is about to. */
  ghost predicate CallerSound(w: World, p: Proc)
    requires p in w.procs
  {
    var phase := w.procs[p].phase;
    && (phase.Checking? ==> forall q :: Owns(w, q) ==> w.procs[q].pid == phase.pid)
    && (phase.Stating? || phase.Renaming? || phase.Opening? ==> forall q :: !Owns(w, q))
  }

  ghost predicate InvApart(w: World) {
    && DistinctPids(w)
    && Owned(w)
    && (forall p, q :: Calling(w, p) && Calling(w, q) ==> p == q)
    && (forall p :: p in w.procs ==> CallerSound(w, p))
  }

  lemma InvIsExclusive(w: World)
    requires Owned(w)
    ensures Exclusive(w)
  {
    forall p, q | Holds(w, p) && Holds(w, q) ensures p == q {
      assert Owns(w, p) && Owns(w, q);
    }
  }

  lemma ApartKept(w: World, a: Action)
    requires InvApart(w) && Apart(w, a)
    ensures InvApart(Step(w, a))
  {
    if a.Advance? {
      ApartAdvance(w, a.p);
    } else if a.FailWrite? {
      ApartFailWrite(w, a.p);
    } else {
      ApartAround(w, a);
    }
  }

  lemma ApartFailWrite(w: World, p: Proc)
    requires InvApart(w) && Apart(w, FailWrite(p))
    ensures InvApart(Step(w, FailWrite(p)))
  {
    var v := Step(w, FailWrite(p));
    assert Owns(w, p) && HasFile(w, p);
    assert forall q :: Owns(v, q) <==> Owns(w, q);
    assert forall q :: Calling(v, q) <==> Calling(w, q);
    forall q | q in v.procs ensures CallerSound(v, q) {
      assert CallerSound(w, q);
    }
  }

  /** Processes come and go, and time passes. */
  lemma ApartAround(w: World, a: Action)
    requires InvApart(w) && Apart(w, a) && !a.Advance? && !a.FailWrite?
    ensures InvApart(Step(w, a))
  {
    var v := Step(w, a);
    assert forall q :: Owns(v, q) ==> Owns(w, q) && v.procs[q] == w.procs[q];
    assert forall q :: Calling(v, q) ==> Calling(w, q) && v.procs[q] == w.procs[q];
    assert forall q :: HasFile(w, q) && Owns(v, q) ==> HasFile(v, q);
    if a.Spawn? {
      SpawnDistinct(w, a.p, a.pid);
    }
    forall q | q in v.procs ensures CallerSound(v, q) {
      if q in w.procs {
        assert CallerSound(w, q);
      }
    }
  }

  lemma SpawnDistinct(w: World, p: Proc, pid: Pid)
    requires DistinctPids(w) && Possible(w, Spawn(p, pid))
    ensures DistinctPids(Step(w, Spawn(p, pid)))
  {
    forall q | q in w.procs ensures w.procs[q].pid != pid {
      assert w.procs[q].pid in AlivePids(w);
    }
  }

  lemma OthersStay(w: World, p: Proc)
    requires p in w.procs
    ensures NextStep(w, p).procs.Keys == w.procs.Keys && NextStep(w, p).procs[p].pid == w.procs[p].pid
    ensures forall q :: q in w.procs && q != p ==> NextStep(w, p).procs[q] == w.procs[q]
    ensures forall q :: q != p ==>
            (Owns(NextStep(w, p), q) <==> Owns(w, q)) && (Calling(NextStep(w, p), q) <==> Calling(w, q))
  {
  }

  /** A step leaves ownership sound if it renames or creates only while nobody owns the file. */
  lemma OwnedAdvance(w: World, p: Proc)
    requires Owned(w) && p in w.procs
    requires w.procs[p].phase.Renaming? ==> forall q :: !Owns(w, q)
    ensures Owned(NextStep(w, p))
  {
    OthersStay(w, p);
    if Owns(w, p) {
      assert HasFile(w, p);
    }
  }

  lemma SoundAdvance(w: World, p: Proc, q: Proc)
    requires InvApart(w) && Apart(w, Advance(p)) && q in w.procs
    ensures CallerSound(NextStep(w, p), q)
  {
    OthersStay(w, p);
    assert CallerSound(w, q);
    if p == q {
      if w.procs[p].phase.Reading? {
        forall o | Owns(w, o) ensures w.lock == Some(w.lock.value) && w.lock.value.content == Valid(w.procs[o].pid) {
          assert HasFile(w, o) && Calling(w, p);
          assert o != p;
          assert !Calling(w, o);
        }
      }
    } else if Calling(w, q) {
      assert !Calling(w, p);
    }
  }

  lemma ApartAdvance(w: World, p: Proc)
    requires InvApart(w) && Apart(w, Advance(p))
    ensures InvApart(NextStep(w, p))
  {
    var v := NextStep(w, p);
    OthersStay(w, p);
    assert CallerSound(w, p);
    OwnedAdvance(w, p);
    assert InCall(v.procs[p].phase) ==> Calling(w, p) || w.procs[p].phase.Idle?;
    forall q | q in v.procs ensures CallerSound(v, q) {
      SoundAdvance(w, p, q);
    }
  }

  ghost predicate ApartRun(w: World, actions: seq<Action>)
    decreases |actions|
  {
    actions == [] || (Apart(w, actions[0]) && ApartRun(Step(w, actions[0]), actions[1..]))
  }

  predicate PossibleRun(w: World, actions: seq<Action>)
    decreases |actions|
  {
    actions == [] || (Possible(w, actions[0]) && PossibleRun(Step(w, actions[0]), actions[1..]))
  }

  function Run(w: World, actions: seq<Action>): (v: World)
    requires PossibleRun(w, actions)
    decreases |actions|
  {
    if actions == [] then w else Run(Step(w, actions[0]), actions[1..])
  }

  /** Nobody runs yet; the directory may hold a lock file left behind by anyone, at any time. */
  predicate Start(w: World) {
    w.procs == map[]
  }

  /**
   Calls that do not overlap exclude each other: whatever processes die, at any file step, whatever
   process ids are used again, and whatever lock file was left behind.
   */
  lemma ApartCallsExclude(w: World, actions: seq<Action>)
    requires Start(w) && ApartRun(w, actions)
    ensures PossibleRun(w, actions) && Exclusive(Run(w, actions))
  {
    ApartRunKept(w, actions);
    InvIsExclusive(Run(w, actions));
  }

  lemma {:induction false} ApartRunKept(w: World, actions: seq<Action>)
    requires InvApart(w) && ApartRun(w, actions)
    ensures PossibleRun(w, actions) && InvApart(Run(w, actions))
    decreases |actions|
  {
    if actions != [] {
      ApartKept(w, actions[0]);
      ApartRunKept(Step(w, actions[0]), actions[1..]);
    }
  }

  /******* Overlapping calls of processes that stay alive *******/

  /** Every acquire call so far has lasted less than the bound. */
  ghost predicate Within(w: World, bound: int) {
    forall p :: Calling(w, p) ==> w.now - w.procs[p].began < bound
  }

  ghost predicate Prompt(w: World) {
    Within(w, GRACE)
  }

  ghost predicate NoDeaths(w: World, a: Action) {
    Possible(w, a) && !a.Die?
  }

  /** A process of this machine has the id. */
  predicate Ours(w: World, pid: Pid) {
    exists p :: p in w.procs && w.procs[p].pid == pid
  }

  /** The file is still incomplete and no older than its owner's call, or complete. */
  ghost predicate OwnerSound(w: World, p: Proc) {
    HasFile(w, p) &&
    if w.procs[p].phase.Writing? || w.procs[p].phase.Undoing? then
      w.lock.value.content.Malformed? && w.lock.value.mtime >= w.procs[p].began
    else w.lock.value.content == Valid(w.procs[p].pid)
  }

  /** The lock file, if any, belongs to a living process. */
  ghost predicate LockSound(w: World) {
    w.lock.Some? ==> exists p :: OwnerSound(w, p)
  }

  /** Nobody renames; a reader that found no complete record looks at a file no older than its call. */
  ghost predicate ReaderSound(w: World, p: Proc)
    requires p in w.procs
  {
    var me := w.procs[p];
    && !me.phase.Renaming?
    && me.began <= w.now
    && (me.phase.Checking? ==> Ours(w, me.phase.pid))
    && (me.phase.Stating? && w.lock.Some? && w.lock.value.content.Valid? ==> w.lock.value.mtime >= me.began)
  }

  ghost predicate InvPrompt(w: World) {
    Owned(w) && LockSound(w) && forall p :: p in w.procs ==> ReaderSound(w, p)
  }

  lemma OursIsAlive(w: World, pid: Pid)
    requires Ours(w, pid)
    ensures IsAlive(w, pid)
  {
    var p :| p in w.procs && w.procs[p].pid == pid;
    assert w.procs[p].pid in AlivePids(w);
  }

  /** A reader that finds no complete record in time always refuses. */
  lemma StatRefuses(w: World, p: Proc)
    requires InvPrompt(w) && Prompt(w) && p in w.procs && w.procs[p].phase.Stating?
    ensures NextStep(w, p).procs[p].phase == Idle
  {
    assert ReaderSound(w, p) && Calling(w, p);
    if w.lock.Some? {
      var o :| OwnerSound(w, o);
      if w.lock.value.content.Malformed? {
        assert Calling(w, o);
      }
    }
  }

  lemma LockSoundAdvance(w: World, p: Proc)
    requires InvPrompt(w) && p in w.procs
    ensures LockSound(NextStep(w, p))
  {
    var v := NextStep(w, p);
    OthersStay(w, p);
    assert ReaderSound(w, p);
    if w.procs[p].phase.Opening? && w.lock.None? {
      assert OwnerSound(v, p);
    } else if w.lock.Some? {
      var o :| OwnerSound(w, o);
      if Owns(w, p) {
        assert o == p;
      }
      if v.lock.Some? {
        assert OwnerSound(v, o);
      }
    }
  }

  lemma BystanderSoundAdvance(w: World, p: Proc, q: Proc)
    requires InvPrompt(w) && Prompt(w) && p in w.procs && q in w.procs && p != q
    ensures ReaderSound(NextStep(w, p), q)
  {
    OthersStay(w, p);
    assert ReaderSound(w, q);
    OursStays(w, NextStep(w, p));
  }

  lemma ReaderSoundAdvance(w: World, p: Proc)
    requires InvPrompt(w) && Prompt(w) && p in w.procs
    ensures ReaderSound(NextStep(w, p), p)
  {
    OthersStay(w, p);
    assert ReaderSound(w, p);
    OursStays(w, NextStep(w, p));
    if w.procs[p].phase.Stating? {
      StatRefuses(w, p);
    } else if w.procs[p].phase.Checking? {
      OursIsAlive(w, w.procs[p].phase.pid);
    } else if w.procs[p].phase.Reading? && w.lock.Some? {
      var o :| OwnerSound(w, o);
      assert w.lock.value.content.Valid? ==> w.procs[o].pid == w.lock.value.content.pid;
    }
  }

  lemma PromptAdvance(w: World, p: Proc)
    requires InvPrompt(w) && Prompt(w) && p in w.procs
    ensures InvPrompt(NextStep(w, p))
  {
    OthersStay(w, p);
    assert ReaderSound(w, p);
    OwnedAdvance(w, p);
    LockSoundAdvance(w, p);
    forall q | q in NextStep(w, p).procs ensures ReaderSound(NextStep(w, p), q) {
      if p == q {
        ReaderSoundAdvance(w, p);
      } else {
        BystanderSoundAdvance(w, p, q);
      }
    }
  }

  lemma PromptFailWrite(w: World, p: Proc)
    requires InvPrompt(w) && Possible(w, FailWrite(p))
    ensures InvPrompt(Step(w, FailWrite(p)))
  {
    var v := Step(w, FailWrite(p));
    assert ReaderSound(w, p) && Owns(w, p) && HasFile(w, p);
    assert forall q :: Owns(v, q) <==> Owns(w, q);
    assert OwnerSound(v, p);
    forall q | q in v.procs ensures ReaderSound(v, q) {
      assert ReaderSound(w, q);
      OursStays(w, v);
    }
  }

  lemma OursStays(w: World, v: World)
    requires forall q :: q in w.procs ==> q in v.procs && v.procs[q].pid == w.procs[q].pid
    ensures forall pid :: Ours(w, pid) ==> Ours(v, pid)
  {
    forall pid | Ours(w, pid) ensures Ours(v, pid) {
      var o :| o in w.procs && w.procs[o].pid == pid;
      assert v.procs[o].pid == pid;
    }
  }

  lemma PromptAround(w: World, a: Action)
    requires InvPrompt(w) && NoDeaths(w, a) && !a.Advance? && !a.FailWrite?
    ensures InvPrompt(Step(w, a))
  {
    var v := Step(w, a);
    assert forall q :: q in w.procs ==> q in v.procs && v.procs[q] == w.procs[q];
    assert forall q :: Owns(v, q) <==> Owns(w, q);
    assert forall q :: OwnerSound(w, q) ==> OwnerSound(v, q);
    OursStays(w, v);
    forall q | q in v.procs ensures ReaderSound(v, q) {
      if q in w.procs {
        assert ReaderSound(w, q);
      }
    }
  }

  /** Nobody dies, and at every point all calls under way have lasted less than the bound. */
  ghost predicate BoundedRun(w: World, actions: seq<Action>, bound: int)
    decreases |actions|
  {
    Within(w, bound) &&
    (actions == [] || (NoDeaths(w, actions[0]) && BoundedRun(Step(w, actions[0]), actions[1..], bound)))
  }

  ghost predicate PromptRun(w: World, actions: seq<Action>) {
    BoundedRun(w, actions, GRACE)
  }

  lemma {:induction false} BoundedLonger(w: World, actions: seq<Action>, bound: int, longer: int)
    requires BoundedRun(w, actions, bound) && bound <= longer
    ensures BoundedRun(w, actions, longer) && PossibleRun(w, actions)
    decreases |actions|
  {
    if actions != [] {
      BoundedLonger(Step(w, actions[0]), actions[1..], bound, longer);
    }
  }

  lemma {:induction false} PromptRunKept(w: World, actions: seq<Action>)
    requires InvPrompt(w) && PromptRun(w, actions)
    ensures PossibleRun(w, actions) && InvPrompt(Run(w, actions))
    decreases |actions|
  {
    if actions != [] {
      if actions[0].Advance? {
        PromptAdvance(w, actions[0].p);
      } else if actions[0].FailWrite? {
        PromptFailWrite(w, actions[0].p);
      } else {
        PromptAround(w, actions[0]);
      }
      PromptRunKept(Step(w, actions[0]), actions[1..]);
    }
  }

  /**
   From a directory without a lock file, processes that stay alive and whose calls each take less than
   the grace period exclude each other, however their file steps interleave.
   */
  lemma PromptCallsExclude(w: World, actions: seq<Action>)
    requires Start(w) && w.lock.None? && PromptRun(w, actions)
    ensures PossibleRun(w, actions) && Exclusive(Run(w, actions))
  {
    PromptRunKept(w, actions);
    InvIsExclusive(Run(w, actions));
  }

  /******* Undisturbed file steps of one process *******/

  /** Only this process takes file steps from one world to the other. */
  ghost predicate Chain(p: Proc, worlds: seq<World>)
    decreases |worlds|
  {
    |worlds| > 0 &&
    (|worlds| == 1 || (p in worlds[0].procs && worlds[1] == NextStep(worlds[0], p) && Chain(p, worlds[1..])))
  }

  ghost predicate Leads(p: Proc, w: World, v: World) {
    exists worlds :: Chain(p, worlds) && worlds[0] == w && worlds[|worlds| - 1] == v
  }

  lemma {:induction false} ChainTogether(p: Proc, a: seq<World>, b: seq<World>)
    requires Chain(p, a) && Chain(p, b) && a[|a| - 1] == b[0]
    ensures Chain(p, a + b[1..])
    decreases |a|
  {
    if |a| == 1 {
      assert a + b[1..] == b;
    } else {
      ChainTogether(p, a[1..], b);
      assert (a + b[1..])[1..] == a[1..] + b[1..];
    }
  }

  lemma Together(p: Proc, u: World, v: World, w: World)
    requires Leads(p, u, v) && Leads(p, v, w)
    ensures Leads(p, u, w)
  {
    var a :| Chain(p, a) && a[0] == u && a[|a| - 1] == v;
    var b :| Chain(p, b) && b[0] == v && b[|b| - 1] == w;
    ChainTogether(p, a, b);
    var c := a + b[1..];
    assert c[0] == u && c[|c| - 1] == w;
  }

  lemma OneStep(p: Proc, w: World, v: World)
    requires p in w.procs && v == NextStep(w, p)
    ensures Leads(p, w, v)
  {
    assert Chain(p, [w, v][1..]);
    assert Chain(p, [w, v]);
  }

  /** One more step. */
  lemma Further(p: Proc, u: World, v: World, w: World)
    requires Leads(p, u, v) && p in v.procs && w == NextStep(v, p)
    ensures Leads(p, u, w)
  {
    OneStep(p, v, w);
    Together(p, u, v, w);
  }

  /** The world in which the process is in another phase of a call begun at a time. */
  function With(w: World, p: Proc, phase: Phase, began: int): (v: World)
    requires p in w.procs
  {
    w.(procs := w.procs[p := Process(w.procs[p].pid, phase, began)])
  }

  function WithLock(w: World, id: FileId, content: Content): (v: World) {
    w.(lock := Some(File(id, content, w.now)), nextFile := if id < w.nextFile then w.nextFile else id + 1)
  }

  /** The world in which the process holds a lock file it has just created. */
  function Won(w: World, p: Proc, began: int): (v: World)
    requires p in w.procs
  {
    WithLock(With(w, p, Holding(w.nextFile), began), w.nextFile, Valid(w.procs[p].pid))
  }

  /** A call up to the moment its file has been created. */
  lemma Creates(w: World, p: Proc)
    requires p in w.procs && w.procs[p].phase.Idle? && w.lock.None?
    ensures Leads(p, w, WithLock(With(w, p, Writing(w.nextFile), w.now), w.nextFile, Malformed))
  {
    var looking := With(w, p, Looking, w.now);
    OneStep(p, w, looking);
    var opening := With(w, p, Opening, w.now);
    Further(p, w, looking, opening);
    Further(p, w, opening, WithLock(With(w, p, Writing(w.nextFile), w.now), w.nextFile, Malformed));
  }

  /** From the created file to the held lock. */
  lemma Finishes(w: World, p: Proc, id: FileId)
    requires p in w.procs && w.procs[p].phase == Writing(id) && w.lock.Some? && w.lock.value.id == id < w.nextFile
    ensures Leads(p, w, WithLock(With(w, p, Holding(id), w.procs[p].began), id, Valid(w.procs[p].pid)))
  {
    var me := w.procs[p];
    var written := WithLock(With(w, p, Securing(id), me.began), id, Valid(me.pid));
    OneStep(p, w, written);
    Further(p, w, written, WithLock(With(w, p, Holding(id), me.began), id, Valid(me.pid)));
  }

  /** From the free path to the held lock. */
  lemma OpensAndFinishes(w: World, p: Proc)
    requires p in w.procs && w.procs[p].phase.Opening? && w.lock.None?
    ensures Leads(p, w, Won(w, p, w.procs[p].began))
  {
    var began := w.procs[p].began;
    var created := WithLock(With(w, p, Writing(w.nextFile), began), w.nextFile, Malformed);
    OneStep(p, w, created);
    Finishes(created, p, w.nextFile);
    assert WithLock(With(created, p, Holding(w.nextFile), began), w.nextFile, Valid(w.procs[p].pid)) ==
           Won(w, p, began);
    Together(p, w, created, Won(w, p, began));
  }

  /** A reader of a lock file gets to the check that the record calls for. */
  lemma Reads(w: World, p: Proc)
    requires p in w.procs && w.procs[p].phase.Idle? && w.lock.Some?
    ensures var content := w.lock.value.content;
            Leads(p, w, With(w, p, if content.Valid? then Checking(content.pid) else Stating, w.now))
  {
    var content := w.lock.value.content;
    var looking := With(w, p, Looking, w.now);
    OneStep(p, w, looking);
    var reading := With(w, p, Reading, w.now);
    Further(p, w, looking, reading);
    Further(p, w, reading, With(w, p, if content.Valid? then Checking(content.pid) else Stating, w.now));
  }

  /** From the decision to put the file aside to the held lock. */
  lemma TakesOver(w: World, p: Proc)
    requires p in w.procs && w.procs[p].phase.Renaming? && w.lock.Some?
    ensures Leads(p, w, Won(w, p, w.procs[p].began))
  {
    var began := w.procs[p].began;
    var aside := With(w, p, Opening, began).(lock := None);
    OneStep(p, w, aside);
    OpensAndFinishes(aside, p);
    assert Won(aside, p, began) == Won(w, p, began);
    Together(p, w, aside, Won(w, p, began));
  }

  /** The lock can be had: no file, the file of a dead process, or an old incomplete one. */
  predicate Free(lock: Option<File>, alive: set<Pid>, now: int) {
    match lock
    case None => true
    case Some(File(_, Valid(pid), _)) => pid !in alive
    case Some(File(_, Malformed, mtime)) => now - mtime >= GRACE
  }

  lemma SamePids(w: World, p: Proc, phase: Phase, began: int)
    requires p in w.procs
    ensures AlivePids(With(w, p, phase, began)) == AlivePids(w)
  {
    var v := With(w, p, phase, began);
    assert forall q :: q in v.procs ==> v.procs[q].pid == w.procs[q].pid;
    assert forall pid :: pid in AlivePids(v) <==> pid in AlivePids(w);
  }

  /** After reading, a call puts the file aside exactly if the lock is free, and is refused otherwise. */
  lemma Decides(w: World, p: Proc)
    requires p in w.procs && w.procs[p].phase.Idle? && w.lock.Some?
    ensures Leads(p, w, With(w, p, if Free(w.lock, AlivePids(w), w.now) then Renaming else Idle, w.now))
  {
    Reads(w, p);
    var content := w.lock.value.content;
    var phase := if content.Valid? then Checking(content.pid) else Stating;
    SamePids(w, p, phase, w.now);
    Further(p, w, With(w, p, phase, w.now),
            With(w, p, if Free(w.lock, AlivePids(w), w.now) then Renaming else Idle, w.now));
  }

  /** An undisturbed call gets the lock exactly if it is free, and changes nothing otherwise. */
  lemma WholeCall(w: World, p: Proc)
    requires p in w.procs && w.procs[p].phase.Idle?
    ensures Leads(p, w, if Free(w.lock, AlivePids(w), w.now) then Won(w, p, w.now) else With(w, p, Idle, w.now))
  {
    if w.lock.None? {
      Creates(w, p);
      var created := WithLock(With(w, p, Writing(w.nextFile), w.now), w.nextFile, Malformed);
      Finishes(created, p, w.nextFile);
      assert WithLock(With(created, p, Holding(w.nextFile), w.now), w.nextFile, Valid(w.procs[p].pid)) ==
             Won(w, p, w.now);
      Together(p, w, created, Won(w, p, w.now));
    } else {
      Decides(w, p);
      if Free(w.lock, AlivePids(w), w.now) {
        var aside := With(w, p, Renaming, w.now);
        TakesOver(aside, p);
        assert Won(aside, p, w.now) == Won(w, p, w.now);
        Together(p, w, aside, Won(w, p, w.now));
      }
    }
  }

  /******* Chains of steps as runs *******/

  function Advances(p: Proc, n: nat): (actions: seq<Action>)
    ensures |actions| == n
  {
    if n == 0 then [] else [Advance(p)] + Advances(p, n - 1)
  }

  lemma AdvanceKeepsWithin(w: World, p: Proc, bound: int)
    requires p in w.procs && Within(w, bound) && bound > 0
    ensures Within(NextStep(w, p), bound)
  {
    OthersStay(w, p);
    var v := NextStep(w, p);
    assert v.now == w.now;
    forall q | Calling(v, q) ensures v.now - v.procs[q].began < bound {
      if q != p {
        assert Calling(w, q);
      } else if !w.procs[p].phase.Idle? {
        assert Calling(w, p);
      }
    }
  }

  /** One process's steps are a run without deaths, and take no time. */
  lemma {:induction false} ChainRuns(p: Proc, worlds: seq<World>, bound: int)
    requires Chain(p, worlds)
    ensures PossibleRun(worlds[0], Advances(p, |worlds| - 1))
    ensures Run(worlds[0], Advances(p, |worlds| - 1)) == worlds[|worlds| - 1]
    ensures Within(worlds[0], bound) && bound > 0 ==>
              BoundedRun(worlds[0], Advances(p, |worlds| - 1), bound) && Within(worlds[|worlds| - 1], bound)
    decreases |worlds|
  {
    if |worlds| > 1 {
      var actions := Advances(p, |worlds| - 1);
      assert actions[0] == Advance(p) && actions[1..] == Advances(p, |worlds[1..]| - 1);
      if Within(worlds[0], bound) && bound > 0 {
        AdvanceKeepsWithin(worlds[0], p, bound);
      }
      ChainRuns(p, worlds[1..], bound);
    }
  }

  /** A run without deaths, within the bound, from one world to the other. */
  ghost predicate Goes(bound: int, u: World, v: World) {
    exists actions :: BoundedRun(u, actions, bound) && PossibleRun(u, actions) && Run(u, actions) == v
  }

  lemma LeadsGoes(p: Proc, u: World, v: World, bound: int)
    requires Leads(p, u, v) && Within(u, bound) && bound > 0
    ensures Goes(bound, u, v) && Within(v, bound)
  {
    var worlds :| Chain(p, worlds) && worlds[0] == u && worlds[|worlds| - 1] == v;
    ChainRuns(p, worlds, bound);
  }

  lemma GoesOnce(bound: int, u: World, a: Action)
    requires Within(u, bound) && NoDeaths(u, a) && Within(Step(u, a), bound)
    ensures Goes(bound, u, Step(u, a))
  {
    var none: seq<Action>, once := [], [a];
    assert once[0] == a && once[1..] == none;
    assert BoundedRun(Step(u, a), none, bound) && PossibleRun(Step(u, a), none) && Run(Step(u, a), none) == Step(u, a);
    assert PossibleRun(u, once);
    assert BoundedRun(u, once, bound);
    assert Run(u, once) == Step(u, a);
  }

  lemma {:induction false} RunsTogether(bound: int, u: World, a: seq<Action>, b: seq<Action>)
    requires BoundedRun(u, a, bound) && PossibleRun(u, a)
    requires BoundedRun(Run(u, a), b, bound) && PossibleRun(Run(u, a), b)
    ensures BoundedRun(u, a + b, bound) && PossibleRun(u, a + b) && Run(u, a + b) == Run(Run(u, a), b)
    decreases |a|
  {
    if a == [] {
      assert a + b == b;
    } else {
      RunsTogether(bound, Step(u, a[0]), a[1..], b);
      assert (a + b)[1..] == a[1..] + b;
    }
  }

  lemma GoesTogether(bound: int, u: World, v: World, w: World)
    requires Goes(bound, u, v) && Goes(bound, v, w)
    ensures Goes(bound, u, w)
  {
    var a :| BoundedRun(u, a, bound) && PossibleRun(u, a) && Run(u, a) == v;
    var b :| BoundedRun(v, b, bound) && PossibleRun(v, b) && Run(v, b) == w;
    RunsTogether(bound, u, a, b);
  }

  lemma GoesLonger(bound: int, longer: int, u: World, v: World)
    requires Goes(bound, u, v) && bound <= longer
    ensures Goes(longer, u, v)
  {
    var a :| BoundedRun(u, a, bound) && PossibleRun(u, a) && Run(u, a) == v;
    BoundedLonger(u, a, bound, longer);
  }

  /** One process after the other. */
  lemma LeadsOn(bound: int, u: World, v: World, p: Proc, w: World)
    requires bound > 0 && Goes(bound, u, v) && Within(v, bound) && Leads(p, v, w)
    ensures Goes(bound, u, w) && Within(w, bound)
  {
    LeadsGoes(p, v, w, bound);
    GoesTogether(bound, u, v, w);
  }

  /******* The exact bound *******/

  /**
   Everybody stays alive and the writer finishes at once, but the reader stalls for the grace period
   between reading the unfinished file and asking for its age: it puts aside the finished lock of a
   living process, and both hold it.
   */
  lemma StalledReaderSharesLock(w: World, p: Proc, q: Proc)
    returns (created: World, read: World, held: World, shared: World)
    requires p in w.procs && q in w.procs && p != q && w.procs[p].phase.Idle? && w.procs[q].phase.Idle? && w.lock.None?
    ensures Leads(p, w, created) && Leads(q, created, read) && Leads(p, read, held)
    ensures held.now == w.now && Leads(q, held.(now := held.now + GRACE), shared)
    ensures Holds(shared, p) && Holds(shared, q)
  {
    Creates(w, p);
    var id := w.nextFile;
    created := WithLock(With(w, p, Writing(id), w.now), id, Malformed);
    Reads(created, q);
    read := With(created, q, Stating, w.now);
    Finishes(read, p, id);
    held := WithLock(With(read, p, Holding(id), w.now), id, Valid(w.procs[p].pid));
    var late := held.(now := held.now + GRACE);
    var aside := With(late, q, Renaming, w.now);
    OneStep(q, late, aside);
    TakesOver(aside, q);
    shared := Won(aside, q, w.now);
    Together(q, late, aside, shared);
  }

  /** Two processes have just started. */
  lemma PairStarts() returns (start: World, w: World)
    ensures Start(start) && start.lock.None? && Goes(1, start, w) && Within(w, 1)
    ensures 0 in w.procs && 1 in w.procs && w.procs[0].phase.Idle? && w.procs[1].phase.Idle? && w.lock.None?
  {
    start := World(map[], {}, None, 0, 0);
    var one := Step(start, Spawn(0, 10));
    assert !IsAlive(start, 10);
    GoesOnce(1, start, Spawn(0, 10));
    assert !IsAlive(one, 11);
    w := Step(one, Spawn(1, 11));
    GoesOnce(1, one, Spawn(1, 11));
    GoesTogether(1, start, one, w);
  }

  /** From a directory without a lock file, a death-free run with calls below the bound, and two holders. */
  ghost predicate Shares(bound: int, w: World, actions: seq<Action>) {
    Start(w) && w.lock.None? && BoundedRun(w, actions, bound) && PossibleRun(w, actions) && !Exclusive(Run(w, actions))
  }

  lemma LongCallsShare(bound: int) returns (start: World, actions: seq<Action>)
    requires bound > GRACE
    ensures Shares(bound, start, actions)
  {
    var w;
    start, w := PairStarts();
    var created, read, held, shared := StalledReaderSharesLock(w, 0, 1);
    LeadsOn(1, start, w, 0, created);
    LeadsOn(1, start, created, 1, read);
    LeadsOn(1, start, read, 0, held);
    GoesLonger(1, bound, start, held);
    var late := Step(held, Tick(GRACE));
    GoesOnce(bound, held, Tick(GRACE));
    GoesTogether(bound, start, held, late);
    LeadsOn(bound, start, late, 1, shared);
    actions :| BoundedRun(start, actions, bound) && PossibleRun(start, actions) && Run(start, actions) == shared;
  }

  /**
   From a directory without a lock file, and without deaths: calls that each last less than a bound
   exclude each other in every interleaving of their file steps exactly if the bound is at most the
   grace period of five minutes.
   */
  lemma ExclusionIffWithinGrace(bound: int)
    ensures (forall w, actions :: !Shares(bound, w, actions)) <==> bound <= 300_000
  {
    if bound <= GRACE {
      forall w, actions ensures !Shares(bound, w, actions) {
        if Shares(bound, w, actions) {
          BoundedLonger(w, actions, bound, GRACE);
          PromptCallsExclude(w, actions);
        }
      }
    } else {
      var start, actions := LongCallsShare(bound);
      assert Shares(bound, start, actions);
    }
  }

  /******* Why calls must not overlap when processes die *******/

  ghost predicate Reaches(u: World, v: World) {
    exists actions :: PossibleRun(u, actions) && Run(u, actions) == v
  }

  lemma LeadsReaches(p: Proc, u: World, v: World)
    requires Leads(p, u, v)
    ensures Reaches(u, v)
  {
    var worlds :| Chain(p, worlds) && worlds[0] == u && worlds[|worlds| - 1] == v;
    ChainRuns(p, worlds, 0);
  }

  lemma {:induction false} PossibleTogether(u: World, a: seq<Action>, b: seq<Action>)
    requires PossibleRun(u, a) && PossibleRun(Run(u, a), b)
    ensures PossibleRun(u, a + b) && Run(u, a + b) == Run(Run(u, a), b)
    decreases |a|
  {
    if a == [] {
      assert a + b == b;
    } else {
      PossibleTogether(Step(u, a[0]), a[1..], b);
      assert (a + b)[1..] == a[1..] + b;
    }
  }

  lemma ReachesOn(u: World, v: World, p: Proc, w: World)
    requires Reaches(u, v) && Leads(p, v, w)
    ensures Reaches(u, w)
  {
    LeadsReaches(p, v, w);
    var a :| PossibleRun(u, a) && Run(u, a) == v;
    var b :| PossibleRun(v, b) && Run(v, b) == w;
    PossibleTogether(u, a, b);
  }

  /**
   Two calls that overlap over the lock of a dead process: both decide to put it aside, and the second
   puts aside the first one's new lock instead, all in no time.
   */
  lemma OverlappingRecoveryShares(w: World, p: Proc, q: Proc) returns (shared: World)
    requires p in w.procs && q in w.procs && p != q && w.procs[p].phase.Idle? && w.procs[q].phase.Idle?
    requires w.lock.Some? && w.lock.value.content.Valid? && !IsAlive(w, w.lock.value.content.pid)
    ensures Reaches(w, shared) && shared.now == w.now && !Exclusive(shared)
  {
    Decides(w, p);
    var first := With(w, p, Renaming, w.now);
    SamePids(w, p, Renaming, w.now);
    Decides(first, q);
    var both := With(first, q, Renaming, w.now);
    TakesOver(both, p);
    var held := Won(both, p, w.now);
    TakesOver(held, q);
    shared := Won(held, q, w.now);
    LeadsReaches(p, w, first);
    ReachesOn(w, first, q, both);
    ReachesOn(w, both, p, held);
    ReachesOn(w, held, q, shared);
    assert Holds(shared, p) && Holds(shared, q);
  }

  /******* The running store *******/

  /** The directory and the machine as one call sees them while no other call interferes. */
  class LockDirectory {
    var lock: Option<File>
    var nextFile: FileId
    var alive: set<Pid>
    var now: int

    constructor (alive: set<Pid>, now: int)
      ensures lock == None && nextFile == 0 && this.alive == alive && this.now == now
    {
      lock, nextFile, this.alive, this.now := None, 0, alive, now;
    }
  }

  class StateStore {
    const dir: LockDirectory
    const pid: Pid
    var lockFd: Option<FileId>

    constructor (dir: LockDirectory, pid: Pid)
      ensures this.dir == dir && this.pid == pid && lockFd == None
    {
      this.dir, this.pid, lockFd := dir, pid, None;
    }

    method ReadLock() returns (content: Content)
      ensures content == if dir.lock.Some? then dir.lock.value.content else Malformed
    {
      content := if dir.lock.Some? then dir.lock.value.content else Malformed;
    }

    /**
     Puts a stale or old incomplete lock file aside; refuses for a living holder, a recent incomplete
     file, or when the file cannot be renamed.
     */
    method RecoverStaleLock(renameFails: bool) returns (ok: bool)
      modifies dir`lock
      ensures ok <==> old(dir.lock).None? || (Free(old(dir.lock), dir.alive, dir.now) && !renameFails)
      ensures dir.lock == if ok then None else old(dir.lock)
    {
      if dir.lock.None? {
        return true;
      }
      var parsed := ReadLock();
      if parsed.Valid? && parsed.pid in dir.alive {
        return false;
      }
      if parsed.Malformed? && dir.now - dir.lock.value.mtime < GRACE {
        return false;
      }
      if renameFails {
        return false;
      }
      dir.lock := None;
      ok := true;
    }

    /**
     A held lock is kept. Otherwise the call succeeds exactly if the lock can be had, nothing fails on
     the way, and then holds it; a record that cannot be written takes its new file with it.
     */
    method AcquireStartupLock(renameFails: bool, writeFails: bool) returns (ok: bool)
      modifies this, dir
      ensures old(lockFd).Some? ==> ok && lockFd == old(lockFd) && dir.lock == old(dir.lock)
      ensures var recovered :=
                old(dir.lock).None? || (Free(old(dir.lock), old(dir.alive), old(dir.now)) && !renameFails);
              old(lockFd).None? ==>
                (ok <==> recovered && !writeFails) &&
                (ok ==> lockFd == Some(old(dir.nextFile)) &&
                        dir.lock == Some(File(old(dir.nextFile), Valid(pid), dir.now))) &&
                (!ok ==> lockFd == None && dir.lock == if recovered then None else old(dir.lock))
      ensures dir.alive == old(dir.alive) && dir.now == old(dir.now)
    {
      if lockFd.Some? {
        return true;
      }
      ok := RecoverStaleLock(renameFails);
      if !ok {
        return;
      }
      var fd := dir.nextFile;
      dir.lock, dir.nextFile := Some(File(fd, Malformed, dir.now)), fd + 1;
      if writeFails {
        dir.lock := None;
        return false;
      }
      dir.lock := Some(File(fd, Valid(pid), dir.now));
      lockFd := Some(fd);
    }

    method Close()
      modifies this, dir`lock
      ensures lockFd == None
      ensures dir.lock == if old(lockFd).Some? then None else old(dir.lock)
    {
      if lockFd.None? {
        return;
      }
      lockFd := None;
      dir.lock := None;
    }
  }
}

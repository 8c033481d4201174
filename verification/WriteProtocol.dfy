/**
 The two planners behind guarded writes, setting values and applying a binding plan, and what the
 approval of a change says about the states on both sides of it.
 */
module WriteProtocol {
  import opened Wrappers
  import opened JsText
  import opened JsonTree
  import opened CanonicalJson
  import ConfigPlanner
  import opened WriteApproval
  import BindingPlanner
  import BindingResults
  import Approvals
  import opened GuardedWrites

  /** The digest, the resource, the approval target and the write gate. */
  datatype Context = Context(h: JsString -> JsString, resource: Resource, target: JsString, writesEnabled: bool)

  const APPLY_PLAN := Ascii("apply_node_binding_plan")

  datatype Proposed = Rejected | Unchanged | Rehearsed | Accepted(next: Value, change: Change)

  function SetProposal(c: Context, job: Job, seen: Value): (p: Proposed)
    requires job.SetValues?
  {
    var plan := ConfigPlanner.PlanConfigWrite(c.h, seen, job.patch, job.mode, job.expectedHash, job.removePaths);
    if !plan.Planned? then Rejected
    else if plan.currentHash == plan.nextHash then Unchanged
    else if job.dryRun then Rehearsed
    else if !c.writesEnabled then Rejected
    else Accepted(plan.next, Change(c.resource, job.operation, c.target, job.mode, plan.currentHash, plan.nextHash,
                                    job.patch, plan.removePaths))
  }

  function ApplyProposal(c: Context, job: Job, seen: Value, view: View): (p: Proposed)
    requires job.ApplyBindings?
  {
    if JsonHash(c.h, seen) != job.expectedPlanHash then Rejected
    else
      var plan := BindingPlanner.PlanOf(seen, BindingPlanner.Request(BindingPlanner.Direct, job.options, view));
      var currentHash, nextHash := BindingPlanner.PlannedCurrentHash(c.h, seen), JsonHash(c.h, plan.next);
      if currentHash == nextHash && plan.unresolved == [] then Unchanged
      else if plan.proposals == [] || plan.unresolved != [] then Rejected
      else if job.dryRun then Rehearsed
      else if !c.writesEnabled then Rejected
      else Accepted(plan.next, BindingPlanner.ApplyChange(c.target, APPLY_PLAN, currentHash, nextHash, plan.patch))
  }

  function Propose(c: Context, job: Job, seen: Value, view: View): (p: Proposed) {
    if job.SetValues? then SetProposal(c, job, seen) else ApplyProposal(c, job, seen, view)
  }

  function DetailsOf(h: JsString -> JsString, c: Change): (d: Approvals.Details) {
    Approvals.Details(c.operation, c.target, ProposalHash(h, c))
  }

  /** The planner that guarded writes run with. */
  function Plan(c: Context, job: Job, seen: Value, view: View): (i: Intent) {
    match Propose(c, job, seen, view)
    case Rejected => Refuse
    case Unchanged => NoChange
    case Rehearsed => DryRun
    case Accepted(next, change) => Go(next, DetailsOf(c.h, change))
  }

  ghost predicate RunsWith(env: Env, c: Context) {
    env.writesEnabled == c.writesEnabled &&
    forall job, seen, view :: env.planner(job, seen, view) == Plan(c, job, seen, view)
  }

  lemma SamePlanner(c: Context, env: Env, job: Job, seen: Value, view: View)
    requires RunsWith(env, c)
    ensures env.planner(job, seen, view) == Plan(c, job, seen, view)
  {
  }

  function RequestOf(job: Job, view: View): (r: BindingPlanner.Request)
    requires job.ApplyBindings?
  {
    BindingPlanner.Request(BindingPlanner.Direct, job.options, view)
  }

  /** The change is the one that takes the node from one state to the other by the job, on the resource. */
  ghost predicate Describes(c: Context, change: Change, job: Job, view: View, before: Value, after: Value) {
    change.target == c.target && change.nextHash == JsonHash(c.h, after) &&
    match job
    case SetValues(operation, patch, mode, removePaths, _, _, _) =>
      change == Change(c.resource, operation, c.target, mode, JsonHash(c.h, before), change.nextHash, patch,
                       removePaths)
    case ApplyBindings(_, _, _, _) =>
      change == Change(Bindings, Ascii("apply_node_binding_plan"), c.target, ConfigPlanner.MergeMode,
                       JsonHash(c.h, Obj(BindingPlanner.Normalized(before))), change.nextHash,
                       BindingPlanner.PlanOf(before, RequestOf(job, view)).patch, [])
  }

  lemma AcceptedDescribes(c: Context, job: Job, seen: Value, view: View)
    requires Propose(c, job, seen, view).Accepted?
    ensures var p := Propose(c, job, seen, view); Describes(c, p.change, job, view, seen, p.next)
  {
  }

  /**
   Every change S to S' of a run is backed by an approval of the operation on the target whose hash is that of a
   proposal of this very change: its patch, mode and removed paths, the hash of S (normalised, for a binding
   plan) and the hash of S'.
   */
  lemma ApprovalDescribesChange(c: Context, env: Env, states: seq<State>, actions: seq<Action>, i: nat, k: nat)
    returns (change: Change)
    requires RunsWith(env, c) && Run(env, states, actions) && i < |states| && k < |states[i].history|
    ensures var e := states[i].history[k];
            Describes(c, change, e.write.job, e.write.view, e.before, e.after) &&
            e.write.approval.details ==
              Approvals.Details(change.operation, c.target, JsonHash(c.h, ProposalValue(change)))
  {
    var e := states[i].history[k];
    NoLostUpdates(env, states, actions, i, k);
    OneApprovalPerChange(env, states, actions, i, k);
    SamePlanner(c, env, e.write.job, e.before, e.write.view);
    AcceptedDescribes(c, e.write.job, e.before, e.write.view);
    change := Propose(c, e.write.job, e.before, e.write.view).change;
  }

  /******* When a job changes the node, and to what *******/

  /** The state a request to set values asks for; none if its JSON text is missing. */
  ghost function Requested(job: Job, seen: Value): (wanted: Option<Value>)
    requires job.SetValues?
  {
    var whole := ConfigPlanner.Replaced(seen, job.patch, job.mode);
    if whole.Undefined? then None
    else Some(ConfigPlanner.Without(Clone(whole), ConfigPlanner.Listed(job.removePaths)))
  }

  /** The caller expects nothing, or the hash of the state. */
  predicate ExpectsSeen(c: Context, job: Job, seen: Value)
    requires job.SetValues?
  {
    job.expectedHash == None || job.expectedHash == Some([]) || job.expectedHash == Some(JsonHash(c.h, seen))
  }

  /**
   What becomes of a request to set values: with the expected hash and a requested state, it is no change if
   that has the hash of the current state, else a dry run if it is asked to be one, else it goes ahead, to
   exactly that state, if writes are enabled. In every other case it is refused.
   */
  lemma SetOutcome(c: Context, job: Job, seen: Value, view: View)
    requires job.SetValues? && WellFormed(seen) && WellFormed(job.patch)
    ensures var intent, wanted := Plan(c, job, seen, view), Requested(job, seen);
            var accepted := ExpectsSeen(c, job, seen) && wanted.Some?;
            var changes := accepted && JsonHash(c.h, wanted.value) != JsonHash(c.h, seen);
            (intent.NoChange? <==> accepted && !changes) && (intent.DryRun? <==> changes && job.dryRun) &&
            (intent.Go? <==> changes && !job.dryRun && c.writesEnabled) &&
            (intent.Go? ==> intent.next == wanted.value)
  {
    ConfigPlanner.PlanExactly(c.h, seen, job.patch, job.mode, job.expectedHash, job.removePaths);
  }

  /**
   What becomes of a request to apply a binding plan: with exactly the expected hash and every open slot
   matched, it is no change if the plan's bindings have the hash of the normalised ones, else a dry run if it
   is asked to be one, else it goes ahead to the plan's bindings if writes are enabled. In every other case it
   is refused.
   */
  lemma ApplyOutcome(c: Context, job: Job, seen: Value, view: View)
    requires job.ApplyBindings? && WellFormed(seen) && WellFormed(view.schema)
    ensures var intent, r := Plan(c, job, seen, view), RequestOf(job, view);
            var next := BindingPlanner.PlanOf(seen, r).next;
            var accepted := JsonHash(c.h, seen) == job.expectedPlanHash && BindingResults.AllMatched(seen, r);
            var changes := accepted && JsonHash(c.h, next) != JsonHash(c.h, Obj(BindingPlanner.Normalized(seen)));
            (intent.NoChange? <==> accepted && !changes) && (intent.DryRun? <==> changes && job.dryRun) &&
            (intent.Go? <==> changes && !job.dryRun && c.writesEnabled) && (intent.Go? ==> intent.next == next)
  {
    var r := RequestOf(job, view);
    BindingResults.DirectPlanLists(seen, r);
    NoProposalNoChange(seen, r);
    ApplyByLists(c, job, seen, view, BindingPlanner.PlanOf(seen, r), Obj(BindingPlanner.Normalized(seen)));
  }

  lemma ApplyByLists(c: Context, job: Job, seen: Value, view: View, plan: BindingPlanner.BindingPlan, normal: Value)
    requires job.ApplyBindings? && plan == BindingPlanner.PlanOf(seen, RequestOf(job, view))
    requires normal == Obj(BindingPlanner.Normalized(seen)) && (plan.proposals == [] ==> plan.next == normal)
    ensures var intent := Plan(c, job, seen, view);
            var accepted := JsonHash(c.h, seen) == job.expectedPlanHash && plan.unresolved == [];
            var changes := accepted && JsonHash(c.h, plan.next) != JsonHash(c.h, normal);
            (intent.NoChange? <==> accepted && !changes) && (intent.DryRun? <==> changes && job.dryRun) &&
            (intent.Go? <==> changes && !job.dryRun && c.writesEnabled) && (intent.Go? ==> intent.next == plan.next)
  {
  }

  lemma NoProposalNoChange(seen: Value, r: BindingPlanner.Request)
    ensures var plan := BindingPlanner.PlanOf(seen, r);
            plan.proposals == [] ==> plan.next == Obj(BindingPlanner.Normalized(seen))
  {
    BindingPlanner.NextIsWritten(seen, r);
  }

  /** The state is the one its job asked for, by a job that may change it. */
  ghost predicate AskedChange(c: Context, e: Effect) {
    match e.write.job
    case SetValues(_, _, _, _, _, _, _) =>
      ExpectsSeen(c, e.write.job, e.before) && Requested(e.write.job, e.before) == Some(e.after) &&
      JsonHash(c.h, e.after) != JsonHash(c.h, e.before)
    case ApplyBindings(_, expectedPlanHash, _, _) =>
      JsonHash(c.h, e.before) == expectedPlanHash &&
      e.after == BindingPlanner.PlanOf(e.before, RequestOf(e.write.job, e.write.view)).next &&
      JsonHash(c.h, e.after) != JsonHash(c.h, Obj(BindingPlanner.Normalized(e.before)))
  }

  /** What the job brings along is JSON. */
  ghost predicate GoodInput(e: Effect) {
    if e.write.job.SetValues? then WellFormed(e.write.job.patch) else WellFormed(e.write.view.schema)
  }

  lemma GoIsAsked(c: Context, e: Effect)
    requires WellFormed(e.before) && GoodInput(e)
    requires Plan(c, e.write.job, e.before, e.write.view) == Go(e.after, e.write.details)
    ensures AskedChange(c, e) && !e.write.job.dryRun && c.writesEnabled && WellFormed(e.after)
  {
    var job := e.write.job;
    if job.SetValues? {
      SetOutcome(c, job, e.before, e.write.view);
      RequestedWellFormed(job, e.before);
    } else {
      ApplyOutcome(c, job, e.before, e.write.view);
      BindingPlanner.NextIsWritten(e.before, RequestOf(job, e.write.view));
      BindingPlanner.NormalizedWellFormed(e.before);
      BindingPlanner.WrittenWellFormed(BindingPlanner.Normalized(e.before),
                                       BindingPlanner.PlanOf(e.before, RequestOf(job, e.write.view)).proposals);
    }
  }

  lemma RequestedWellFormed(job: Job, seen: Value)
    requires job.SetValues? && WellFormed(seen) && WellFormed(job.patch)
    ensures Requested(job, seen).Some? ==> WellFormed(Requested(job, seen).value)
  {
    var whole := ConfigPlanner.Replaced(seen, job.patch, job.mode);
    ConfigPlanner.MergeWellFormed(seen, job.patch);
    if !whole.Undefined? {
      CloneWellFormed(whole);
      ConfigPlanner.WithoutWellFormed(Clone(whole), ConfigPlanner.Listed(job.removePaths));
    }
  }

  ghost predicate IsPlanned(c: Context, e: Effect) {
    Plan(c, e.write.job, e.before, e.write.view) == Go(e.after, e.write.details)
  }

  /** The state that the change of number j replaces. */
  function StateBefore(from: Value, history: seq<Effect>, j: nat): (v: Value)
    requires j <= |history|
  {
    if j == 0 then from else history[j - 1].after
  }

  /** The first n changes are planned on JSON inputs and follow each other. */
  ghost predicate PlannedFrom(c: Context, from: Value, history: seq<Effect>, n: nat)
    requires n <= |history|
  {
    n > 0 ==>
      PlannedFrom(c, from, history, n - 1) && GoodInput(history[n - 1]) && IsPlanned(c, history[n - 1]) &&
      history[n - 1].before == StateBefore(from, history, n - 1)
  }

  lemma {:induction false} PlannedAreAsked(c: Context, from: Value, history: seq<Effect>, n: nat)
    requires n <= |history| && WellFormed(from) && PlannedFrom(c, from, history, n)
    ensures WellFormed(StateBefore(from, history, n))
    ensures n > 0 ==> AskedChange(c, history[n - 1]) && !history[n - 1].write.job.dryRun && c.writesEnabled
  {
    if n > 0 {
      PlannedAreAsked(c, from, history, n - 1);
      GoIsAsked(c, history[n - 1]);
    }
  }

  lemma RunIsPlanned(c: Context, env: Env, states: seq<State>, actions: seq<Action>, i: nat, j: nat)
    requires RunsWith(env, c) && Run(env, states, actions) && i < |states| && j < |states[i].history|
    ensures var s := states[i];
            IsPlanned(c, s.history[j]) && s.history[j].before == StateBefore(s.initial, s.history, j)
  {
    var e := states[i].history[j];
    NoLostUpdates(env, states, actions, i, j);
    SamePlanner(c, env, e.write.job, e.before, e.write.view);
  }

  lemma {:induction false} RunPlannedFrom(c: Context, env: Env, states: seq<State>, actions: seq<Action>, i: nat,
                                          n: nat)
    requires RunsWith(env, c) && Run(env, states, actions) && i < |states| && n <= |states[i].history|
    requires forall j :: 0 <= j < n ==> GoodInput(states[i].history[j])
    ensures PlannedFrom(c, states[i].initial, states[i].history, n)
  {
    if n > 0 {
      RunPlannedFrom(c, env, states, actions, i, n - 1);
      RunIsPlanned(c, env, states, actions, i, n - 1);
    }
  }

  /**
   In every run on JSON inputs, every change of the node is the one its job asked for: no dry run changes it,
   nothing changes while writes are disabled, and the new state is the requested one, computed from the very
   state that the caller expected.
   */
  lemma ChangesAreRequested(c: Context, env: Env, states: seq<State>, actions: seq<Action>, i: nat, k: nat)
    requires RunsWith(env, c) && Run(env, states, actions) && i < |states| && k < |states[i].history|
    requires WellFormed(states[i].initial)
    requires forall j :: 0 <= j <= k ==> GoodInput(states[i].history[j])
    ensures var e := states[i].history[k];
            AskedChange(c, e) && !e.write.job.dryRun && c.writesEnabled && WellFormed(e.after)
  {
    RunPlannedFrom(c, env, states, actions, i, k + 1);
    PlannedAreAsked(c, states[i].initial, states[i].history, k + 1);
  }

  /**
   Such an approval cannot serve a different change: proposals with equal details agree on the
   canonical text of the state they replace and of the state they write.
   */
  lemma ApprovalPinsChange(h: JsString -> JsString, a: Change, beforeA: Value, afterA: Value, b: Change,
                           beforeB: Value, afterB: Value)
    requires Injective(h) && WellFormed(a.patch) && WellFormed(b.patch)
    requires a.currentHash == JsonHash(h, beforeA) && a.nextHash == JsonHash(h, afterA)
    requires b.currentHash == JsonHash(h, beforeB) && b.nextHash == JsonHash(h, afterB)
    requires DetailsOf(h, a) == DetailsOf(h, b)
    ensures StableText(beforeA) == StableText(beforeB) && StableText(afterA) == StableText(afterB)
  {
    ProposalHashPins(h, a, b);
  }
}

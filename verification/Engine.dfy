/** One engine tick as a function of what is durable and what the environment does.

    A tick is a run of durable actions: store saves and cluster calls.  `Env.life` is how many of them happen
    before the process dies, so every crash point is one value of `life`. */
module Engine {
  import opened Prelude
  import opened Agenda
  import opened Campaign
  import opened Planner

  datatype Policy = Policy(maxSubmitsPerTick: int, requireApproval: bool, approveOverCoreHours: Option<real>,
      deferredTimeout: int)

  datatype Config = Config(policy: Policy, budgetOverride: Option<Budget>)

  const OUTCOME_UNKNOWN := "outcome_unknown"

  // ---------------------------------------------------------------------------
  // Environment

  datatype ReuseKey = ReuseKey(spec: Spec, point: Option<string>)
  datatype ReuseRecord = ReuseRecord(simId: SimId, runId: Option<CmdId>)

  /** What the submitting process hears: an acknowledgement, a lost or pending outcome (perhaps naming the
      simulation), or any other failure. */
  datatype Reply =
    | Ack
    | Unknown(text: string, code: Option<string>, simId: Option<SimId>)
    | Refused(reason: Reason)

  /** The fate of one submission: whether an unknown command starts a job, under which id, and the reply. */
  datatype Fate = Fate(launches: bool, simId: SimId, reply: Reply)

  datatype Env = Env(
    observed: map<SimId, ObservedState>,
    failures: map<SimId, Reason>,
    suspects: map<SimId, string>,
    actuals: map<SimId, Actual>,
    reuse: map<ReuseKey, ReuseRecord>,
    preApproved: set<Path>,
    now: int,
    fates: seq<Fate>,
    life: nat)

  function FateOf(env: Env, i: nat): Fate {
    if i < |env.fates| then env.fates[i] else Fate(false, "", Unknown("no answer", None, None))
  }

  /** The cluster replays a known command and starts at most one job for an unknown one. */
  function ClusterAccepts(jobs: map<CmdId, SimId>, key: CmdId, fate: Fate): map<CmdId, SimId> {
    if key !in jobs && (fate.launches || fate.reply.Ack?) then jobs[key := fate.simId] else jobs
  }

  /** What outlives a process: the store, the cluster, the launch log and the callbacks already drained. */
  datatype Durable = Durable(disk: Campaign, jobs: map<CmdId, SimId>, launched: seq<CmdId>, drained: seq<Callback>)

  // ---------------------------------------------------------------------------
  // Planning half of a tick

  function ReuseLeaf(l: Leaf, reuse: map<ReuseKey, ReuseRecord>): Leaf {
    var key := ReuseKey(l.work.spec, l.work.point);
    if l.status.Planned? && key in reuse
    then l.(simId := Some(reuse[key].simId), runId := reuse[key].runId, status := Done, reused := true)
    else l
  }

  function Reused(ls: seq<Leaf>, reuse: map<ReuseKey, ReuseRecord>): (r: seq<Leaf>)
    ensures |r| == |ls|
  {
    seq(|ls|, i requires 0 <= i < |ls| => ReuseLeaf(ls[i], reuse))
  }

  predicate Reconcilable(l: Leaf, actuals: map<SimId, Actual>) {
    !l.reused && l.status.Terminal() && l.cost.actual.None? && l.simId.Some? && l.simId.value in actuals
  }

  function ReconcileLeaf(l: Leaf, actuals: map<SimId, Actual>): Leaf {
    if Reconcilable(l, actuals)
    then l.(cost := l.cost.(actual := Some(actuals[l.simId.value])))
    else l
  }

  function ReconcileCharge(u: Usage, l: Leaf, actuals: map<SimId, Actual>): Usage {
    if Reconcilable(l, actuals)
    then Reconcile(u, l.cost, actuals[l.simId.value])
    else u
  }

  function Reconciled(ls: seq<Leaf>, actuals: map<SimId, Actual>): (r: seq<Leaf>)
    ensures |r| == |ls|
  {
    seq(|ls|, i requires 0 <= i < |ls| => ReconcileLeaf(ls[i], actuals))
  }

  function ReconciledUsage(ls: seq<Leaf>, u: Usage, actuals: map<SimId, Actual>, i: nat): Usage
    requires i <= |ls|
  {
    if i == 0 then u else ReconcileCharge(ReconciledUsage(ls, u, actuals, i - 1), ls[i - 1], actuals)
  }

  /** `_plan`: fold, reuse, recount, reconcile. */
  function Prepare(c: Campaign, env: Env): Campaign {
    var ls := Reused(Fold(c.leaves, env.observed), env.reuse);
    var u := c.usage.(running := CountInFlight(ls));
    c.(leaves := Reconciled(ls, env.actuals), usage := ReconciledUsage(ls, u, env.actuals, |ls|))
  }

  function BudgetOf(c: Campaign, cfg: Config): Budget {
    cfg.budgetOverride.GetOr(c.budget)
  }

  /** The planner's step for leaf `i` of a prepared campaign. */
  function PlanStep(p: Campaign, cfg: Config, i: nat): Step
    requires i < |p.leaves|
  {
    StepOf(p.tree, p.leaves, BudgetOf(p, cfg), p.usage, i)
  }

  predicate Submits(p: Campaign, cfg: Config, i: nat)
    requires i < |p.leaves|
  {
    PlanStep(p, cfg, i).action == Submit
  }

  /** Leaf `i`, about to be submitted, has the wire payload of a leaf that has a simulation id or is submitted
      earlier. */
  predicate Collides(p: Campaign, cfg: Config, i: nat, j: nat)
    requires i < |p.leaves| && j < |p.leaves|
  {
    && i != j && Submits(p, cfg, i)
    && (p.leaves[j].simId.Some? || (j < i && Submits(p, cfg, j)))
    && WireOf(p.leaves[i].work.spec) == WireOf(p.leaves[j].work.spec)
  }

  predicate HasDuplicates(p: Campaign, cfg: Config) {
    exists i: nat, j: nat :: i < |p.leaves| && j < |p.leaves| && Collides(p, cfg, i, j)
  }

  predicate Transition(l: Leaf, before: Status) {
    l.status.Terminal() && l.status != before
  }

  function EmitLeaf(l: Leaf, before: Status, env: Env): Leaf {
    var flagged := l.simId.Some? && l.simId.value in env.suspects && l.status.Done?;
    var m := if flagged then l.(suspect := Some(env.suspects[l.simId.value])) else l;
    if Transition(l, before) && l.status.Failed? && l.simId.Some? && l.simId.value in env.failures
    then m.(reason := env.failures[l.simId.value]) else m
  }

  /** The callback of a leaf that newly reached done or failed. */
  function EmitCallback(path: Path, l: Leaf, before: Status, env: Env): seq<Callback> {
    if !Transition(l, before) then [] else
    var flagged := l.simId.Some? && l.simId.value in env.suspects && l.status.Done?;
    [Callback(path, l.status, l.simId,
      if l.status.Failed? && l.simId.Some? && l.simId.value in env.failures
      then env.failures[l.simId.value] else NO_REASON,
      if flagged then Some(env.suspects[l.simId.value]) else None)]
  }

  function EmittedLeaves(ls: seq<Leaf>, before: seq<Leaf>, env: Env): (r: seq<Leaf>)
    requires |ls| == |before|
    ensures |r| == |ls|
  {
    seq(|ls|, i requires 0 <= i < |ls| => EmitLeaf(ls[i], before[i].status, env))
  }

  function EmittedCallbacks(paths: seq<Path>, ls: seq<Leaf>, before: seq<Leaf>, env: Env, i: nat): seq<Callback>
    requires |ls| == |before| == |paths| && i <= |ls|
  {
    if i == 0 then []
    else
      EmittedCallbacks(paths, ls, before, env, i - 1)
      + EmitCallback(paths[i - 1], ls[i - 1], before[i - 1].status, env)
  }

  /** `_emit_callbacks`. */
  function Emitted(p: Campaign, before: seq<Leaf>, env: Env): Campaign
    requires |p.leaves| == |before| == Count(p.tree)
  {
    p.(leaves := EmittedLeaves(p.leaves, before, env),
       callbacks := p.callbacks + EmittedCallbacks(Paths(p.tree), p.leaves, before, env, |before|))
  }

  // ---------------------------------------------------------------------------
  // Executing half of a tick

  /** A tick in progress: the campaign in memory, what is durable, and the loop's counters. */
  datatype Run = Run(
    mem: Campaign,
    disk: Campaign,
    jobs: map<CmdId, SimId>,
    launched: seq<CmdId>,
    life: nat,
    inFlight: int,
    submitted: seq<nat>)

  function Save(r: Run): Run {
    if r.life == 0 then r else r.(disk := r.mem, life := r.life - 1)
  }

  /** What one step does to its leaf: the new record, the callbacks it appends and the usage after it. */
  datatype Effect = Effect(leaf: Leaf, callbacks: seq<Callback>, usage: Usage)

  function Apply(c: Campaign, i: nat, e: Effect): Campaign
    requires i < |c.leaves|
  {
    c.(leaves := c.leaves[i := e.leaf], callbacks := c.callbacks + e.callbacks, usage := e.usage)
  }

  /** `_persist_terminal`: write back a planner decision the observation did not cover. */
  function PersistTerminal(path: Path, l: Leaf, step: Step, u: Usage): (e: Effect)
    ensures e.leaf.work == l.work
  {
    if (step.action != MarkFailed && step.action != MarkDone) || l.status.Terminal() then Effect(l, [], u)
    else
      var s := if step.action == MarkFailed then Failed else Done;
      if step.action == MarkFailed && step.why.FailedDependencies? then
        var e := Some(DependencyFailed(step.why.deps));
        Effect(l.(status := s, reason := l.reason.(error := e)),
          [Callback(path, s, l.simId, Reason(e, None, None), None)], u)
      else
        Effect(l.(status := s), [Callback(path, s, l.simId, NO_REASON, None)], u)
  }

  /** A terminal submission failure. */
  function Refuse(path: Path, l: Leaf, reason: Reason, u: Usage): Effect {
    Effect(l.(status := Failed, reason := reason), [Callback(path, Failed, l.simId, reason, None)], u)
  }

  /** `_record_deferral`: stay planned inside the window, fail once it is exhausted. */
  function Defer(path: Path, l0: Leaf, reply: Reply, now: int, timeout: int, u: Usage): Effect
    requires reply.Unknown?
  {
    var since := l0.deferral.since.GetOr(now);
    var l := l0.(deferral := Deferral(l0.deferral.attempts + 1, Some(since)), simId := l0.simId.Or(reply.simId));
    var code := reply.code.GetOr(OUTCOME_UNKNOWN);
    var elapsed := if now < since then 0 else now - since;
    if elapsed < timeout then
      Effect(l.(reason := l.reason.(error := Some(Reported(reply.text)), code := Some(code))), [], u)
    else
      var e := Some(OutcomeUnknown(elapsed, l.deferral.attempts, code, reply.text));
      Effect(l.(status := Failed, reason := l.reason.(error := e, code := Some(code))),
             [Callback(path, Failed, l.simId, Reason(e, Some(code), None), None)], u)
  }

  /** A clean acknowledgement: record the run, clear any deferral, reserve the estimate. */
  function Accept(l: Leaf, simId: SimId, key: CmdId, u: Usage): Effect {
    var q := l.work.spec.request;
    Effect(l.(simId := Some(simId), runId := Some(key), status := Submitted, deferral := NOT_DEFERRED,
              reason := NO_REASON,
              cost := l.cost.(estimatedCore := q.coreHours, estimatedGpu := q.gpuHours, isGpu := q.isGpu)),
           [], Reserve(u, q))
  }

  predicate MaySubmit(path: Path, l: Leaf, env: Env, policy: Policy) {
    || path in env.preApproved
    || l.approved
    || (!l.work.requiresApproval && !policy.requireApproval
        && (policy.approveOverCoreHours.None? || l.work.spec.request.coreHours <= policy.approveOverCoreHours.value))
  }

  datatype Bucket = Held | Waiting | PendingApproval

  /** The lifecycle, per-tick, concurrency and approval gates, in that order. */
  function SubmissionBlock(r: Run, i: nat, env: Env, cfg: Config): Option<Bucket>
    requires |r.mem.leaves| == Count(r.mem.tree) && i < |r.mem.leaves|
  {
    var cap := BudgetOf(r.mem, cfg).maxConcurrent;
    if !r.mem.state.LifeRunning? then Some(Held)
    else if |r.submitted| >= cfg.policy.maxSubmitsPerTick then Some(Waiting)
    else if cap.Some? && r.inFlight >= cap.value then Some(Waiting)
    else if !MaySubmit(r.mem.Path(i), r.mem.leaves[i], env, cfg.policy) then Some(PendingApproval)
    else None
  }

  /** The per-submit duplicate guard. */
  predicate GuardFires(ls: seq<Leaf>, i: nat)
    requires i < |ls|
  {
    exists j: nat :: j < |ls| && j != i && ls[j].simId.Some? && WireOf(ls[j].work.spec) == WireOf(ls[i].work.spec)
  }

  /** What the reply to a submission does to the leaf. */
  function Answer(path: Path, l: Leaf, key: CmdId, jobs: map<CmdId, SimId>, reply: Reply, now: int, timeout: int,
      u: Usage): (e: Effect)
    requires reply.Ack? ==> key in jobs
    ensures e.leaf.work == l.work
  {
    match reply
    case Ack => Accept(l, jobs[key], key, u)
    case Unknown(_, _, _) => Defer(path, l, reply, now, timeout, u)
    case Refused(reason) => Refuse(path, l, reason, u)
  }

  /** The cluster call for leaf `i`. */
  function Call(r: Run, key: CmdId, fate: Fate): Run
    requires r.life > 0
  {
    var jobs := ClusterAccepts(r.jobs, key, fate);
    r.(jobs := jobs,
       launched := if key in r.jobs || key !in jobs then r.launched else r.launched + [key],
       life := r.life - 1)
  }

  /** Submit one leaf and save. */
  function SubmitStep(r: Run, i: nat, env: Env, cfg: Config): Run
    requires |r.mem.leaves| == Count(r.mem.tree) && i < |r.mem.leaves| && r.life > 0
  {
    var l := r.mem.leaves[i];
    var path := r.mem.Path(i);
    if GuardFires(r.mem.leaves, i) then
      Save(r.(mem := Apply(r.mem, i, Refuse(path, l, Reason(Some(DuplicatePayload), None, None), r.mem.usage))))
    else
      var fate := FateOf(env, i);
      var s := Call(r, r.mem.Key(i), fate);
      var e := Answer(path, l, r.mem.Key(i), s.jobs, fate.reply, env.now, cfg.policy.deferredTimeout, r.mem.usage);
      Save(s.(mem := Apply(r.mem, i, e),
              inFlight := if fate.reply.Ack? then r.inFlight + 1 else r.inFlight,
              submitted := if fate.reply.Ack? then r.submitted + [i] else r.submitted))
  }

  function ExecStep(r: Run, i: nat, step: Step, env: Env, cfg: Config): (r': Run)
    requires |r.mem.leaves| == Count(r.mem.tree) && i < |r.mem.leaves|
    ensures r'.mem.tree == r.mem.tree && |r'.mem.leaves| == |r.mem.leaves|
  {
    if r.life == 0 then r
    else if step.action != Submit then
      r.(mem := Apply(r.mem, i, PersistTerminal(r.mem.Path(i), r.mem.leaves[i], step, r.mem.usage)))
    else if SubmissionBlock(r, i, env, cfg).Some? then r
    else SubmitStep(r, i, env, cfg)
  }

  // ---------------------------------------------------------------------------
  // The whole tick

  /** What the first save of a tick writes. */
  function First(c: Campaign, env: Env): Campaign
    requires |c.leaves| == Count(c.tree)
  {
    Emitted(Prepare(c, env), c.leaves, env)
  }

  /** The tick after its first save, before any step. */
  function Start(d: Durable, env: Env): Run
    requires |d.disk.leaves| == Count(d.disk.tree)
  {
    var c := First(d.disk, env);
    Save(Run(c, d.disk, d.jobs, d.launched, env.life, c.usage.running, []))
  }

  /** The planner's step list for a prepared campaign. */
  function Steps(p: Campaign, cfg: Config): (steps: seq<Step>)
    ensures |steps| == |p.leaves|
    ensures forall i :: 0 <= i < |steps| ==> steps[i] == PlanStep(p, cfg, i)
  {
    seq(|p.leaves|, i requires 0 <= i < |p.leaves| => PlanStep(p, cfg, i))
  }

  /** `_run_steps`: the run after the first `i` steps. */
  function Exec(start: Run, steps: seq<Step>, env: Env, cfg: Config, i: nat): (r: Run)
    requires |start.mem.leaves| == Count(start.mem.tree) == |steps| && i <= |steps|
    ensures r.mem.tree == start.mem.tree && |r.mem.leaves| == |start.mem.leaves|
  {
    if i == 0 then start
    else ExecStep(Exec(start, steps, env, cfg, i - 1), i - 1, steps[i - 1], env, cfg)
  }

  /** Every step of the tick, before its final save. */
  function TickRun(d: Durable, env: Env, cfg: Config): Run
    requires |d.disk.leaves| == Count(d.disk.tree)
  {
    Exec(Start(d, env), Steps(Prepare(d.disk, env), cfg), env, cfg, |d.disk.leaves|)
  }

  /** The whole tick.  A duplicate payload raises before anything is saved. */
  function Tick(d: Durable, env: Env, cfg: Config): Durable
    requires |d.disk.leaves| == Count(d.disk.tree)
  {
    if HasDuplicates(Prepare(d.disk, env), cfg) then d
    else var r := Save(TickRun(d, env, cfg)); d.(disk := r.disk, jobs := r.jobs, launched := r.launched)
  }

  /** The tick neither raised nor crashed: its final save happened. */
  predicate Completes(d: Durable, env: Env, cfg: Config)
    requires |d.disk.leaves| == Count(d.disk.tree)
  {
    !HasDuplicates(Prepare(d.disk, env), cfg) && TickRun(d, env, cfg).life > 0
  }
}

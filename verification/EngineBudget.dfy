/** Planning admits a whole batch in advance; execution accepts only part of it.  The caps hold all the same. */
module EngineBudget {
  import opened Prelude
  import opened Agenda
  import opened Campaign
  import opened Planner
  import opened Engine
  import opened EngineSafety
  import opened EngineDuplicates

  /** `u` is no more than `v` in every resource. */
  predicate Under(u: Usage, v: Usage) {
    u.coreHours <= v.coreHours && u.gpuHours <= v.gpuHours && u.submitted <= v.submitted && u.running <= v.running
  }

  predicate JobCapsHold(b: Budget, u: Usage) {
    && (b.maxTotal.Some? ==> u.submitted <= b.maxTotal.value)
    && (b.maxConcurrent.Some? ==> u.running <= b.maxConcurrent.value)
    && (b.maxCoreHours.Some? ==> u.coreHours <= b.maxCoreHours.value)
  }

  predicate GpuCapHolds(b: Budget, u: Usage) {
    b.maxGpuHours.Some? ==> u.gpuHours <= b.maxGpuHours.value
  }

  predicate PartitionAllowed(b: Budget, q: ResourceRequest) {
    b.partitions.Some? ==> q.partition.Some? && q.partition.value in b.partitions.value
  }

  predicate Reserved(q: ResourceRequest) {
    q.coreHours >= 0.0 && q.gpuHours >= 0.0
  }

  /** Admission is exactly that the reservation stays within every cap; the GPU cap binds GPU requests only. */
  lemma AdmissionMeansWithinCaps(b: Budget, u: Usage, q: ResourceRequest)
    ensures CheckAdmission(b, u, q).None? <==>
      JobCapsHold(b, Reserve(u, q)) && (q.isGpu ==> GpuCapHolds(b, Reserve(u, q))) && PartitionAllowed(b, q)
  {
  }

  /** The usages the planner threads: admitted before each submission, and advanced by it. */
  ghost predicate PlanOf(b: Budget, ls: seq<Leaf>, steps: seq<Step>, planned: seq<Usage>) {
    && |steps| == |ls| && |planned| == |ls| + 1
    && forall i :: 0 <= i < |ls| ==>
         if steps[i].action == Submit
         then CheckAdmission(b, planned[i], ls[i].work.spec.request).None?
           && planned[i + 1] == Reserve(planned[i], ls[i].work.spec.request)
         else planned[i + 1] == planned[i]
  }

  function PlannedUsages(p: Campaign, cfg: Config): (r: seq<Usage>)
    ensures |r| == |p.leaves| + 1
    ensures forall i :: 0 <= i <= |p.leaves| ==> r[i] == PlannedUsage(p.tree, p.leaves, BudgetOf(p, cfg), p.usage, i)
  {
    seq(|p.leaves| + 1, i requires 0 <= i <= |p.leaves| => PlannedUsage(p.tree, p.leaves, BudgetOf(p, cfg), p.usage, i))
  }

  lemma PlannerThreads(p: Campaign, cfg: Config)
    ensures PlanOf(BudgetOf(p, cfg), p.leaves, Steps(p, cfg), PlannedUsages(p, cfg))
  {
    forall i | 0 <= i < |p.leaves|
      ensures var b := BudgetOf(p, cfg);
        var u, v := PlannedUsages(p, cfg)[i], PlannedUsages(p, cfg)[i + 1];
        if Steps(p, cfg)[i].action == Submit
        then CheckAdmission(b, u, p.leaves[i].work.spec.request).None? && v == Reserve(u, p.leaves[i].work.spec.request)
        else v == u
    {
      PlannerThreadsOne(p.tree, p.leaves, BudgetOf(p, cfg), p.usage, i);
    }
  }

  lemma PlannerThreadsOne(tree: Kids, ls: seq<Leaf>, b: Budget, u0: Usage, i: nat)
    requires i < |ls|
    ensures var u, v := PlannedUsage(tree, ls, b, u0, i), PlannedUsage(tree, ls, b, u0, i + 1);
      if StepOf(tree, ls, b, u0, i).action == Submit
      then CheckAdmission(b, u, ls[i].work.spec.request).None? && v == Reserve(u, ls[i].work.spec.request)
      else v == u
  {
  }

  predicate SubmittedGpu(ls: seq<Leaf>, submitted: seq<nat>) {
    exists i :: i in submitted && i < |ls| && ls[i].work.spec.request.isGpu
  }

  /** The engine's usage never outruns the plan's, its in-flight counter is its running count, and once a job has been
      accepted every cap holds (the GPU cap once a GPU job has), with no more jobs than the policy allows per tick. */
  ghost predicate WithinPlan(b: Budget, start: Run, cfg: Config, planned: Usage, r: Run) {
    && Under(r.mem.usage, planned)
    && r.mem.usage.running == r.inFlight
    && (r.submitted != [] ==> JobCapsHold(b, r.mem.usage))
    && (SubmittedGpu(start.mem.leaves, r.submitted) ==> GpuCapHolds(b, r.mem.usage))
    && (r.submitted != [] ==> |r.submitted| <= cfg.policy.maxSubmitsPerTick)
    && (forall k :: k in r.submitted ==>
      k < |start.mem.leaves| && PartitionAllowed(b, start.mem.leaves[k].work.spec.request))
  }

  lemma ReserveUnder(b: Budget, u: Usage, v: Usage, q: ResourceRequest)
    requires Under(u, v) && Reserved(q)
    ensures Under(u, Reserve(v, q)) && Under(Reserve(u, q), Reserve(v, q))
    ensures CheckAdmission(b, v, q).None? ==>
      JobCapsHold(b, Reserve(u, q)) && (q.isGpu ==> GpuCapHolds(b, Reserve(u, q))) && PartitionAllowed(b, q)
  {
  }

  /** One step either accepts its leaf's job or leaves usage, counters and acceptances alone. */
  lemma StepAcceptsOrNot(start: Run, r: Run, i: nat, step: Step, env: Env, cfg: Config)
    requires i < |start.mem.leaves| && Framed(start, r, i)
    ensures var s := ExecStep(r, i, step, env, cfg);
      || (s.mem.usage == r.mem.usage && s.inFlight == r.inFlight && s.submitted == r.submitted)
      || (step.action == Submit && s.mem.usage == Reserve(r.mem.usage, start.mem.leaves[i].work.spec.request)
          && s.inFlight == r.inFlight + 1 && s.submitted == r.submitted + [i]
          && |r.submitted| < cfg.policy.maxSubmitsPerTick)
  {
    assert r.mem.leaves[i] == start.mem.leaves[i];
  }

  lemma StepWithinPlan(b: Budget, start: Run, r: Run, i: nat, steps: seq<Step>, planned: seq<Usage>, env: Env,
      cfg: Config)
    requires PlanOf(b, start.mem.leaves, steps, planned) && i < |steps| && Framed(start, r, i)
    requires Reserved(start.mem.leaves[i].work.spec.request)
    requires WithinPlan(b, start, cfg, planned[i], r)
    ensures WithinPlan(b, start, cfg, planned[i + 1], ExecStep(r, i, steps[i], env, cfg))
  {
    var s := ExecStep(r, i, steps[i], env, cfg);
    StepAcceptsOrNot(start, r, i, steps[i], env, cfg);
    var q := start.mem.leaves[i].work.spec.request;
    if s.submitted == r.submitted {
      assert planned[i + 1] == if steps[i].action == Submit then Reserve(planned[i], q) else planned[i];
      if steps[i].action == Submit { ReserveUnder(b, r.mem.usage, planned[i], q); }
    } else {
      assert steps[i].action == Submit;
      assert planned[i + 1] == Reserve(planned[i], q) && CheckAdmission(b, planned[i], q).None?;
    }
  }

  lemma ExecWithinPlan(b: Budget, start: Run, steps: seq<Step>, planned: seq<Usage>, env: Env, cfg: Config, i: nat)
    requires PlanOf(b, start.mem.leaves, steps, planned) && Framed(start, start, 0) && i <= |steps|
    requires forall k :: 0 <= k < |steps| ==> Reserved(start.mem.leaves[k].work.spec.request)
    requires WithinPlan(b, start, cfg, planned[0], start)
    ensures WithinPlan(b, start, cfg, planned[i], Exec(start, steps, env, cfg, i))
  {
    var inv := (k: nat, r: Run) => k <= |steps| && Framed(start, r, k) && WithinPlan(b, start, cfg, planned[k], r);
    forall k: nat, r: Run | k < |steps| && inv(k, r) ensures inv(k + 1, ExecStep(r, k, steps[k], env, cfg)) {
      FramedStep(start, r, k, steps[k], env, cfg);
      StepWithinPlan(b, start, r, k, steps, planned, env, cfg);
    }
    ExecInvariant(start, steps, env, cfg, inv, i);
  }

  lemma {:induction false} SameStatusSameCount(ls: seq<Leaf>, ms: seq<Leaf>)
    requires |ls| == |ms| && forall i :: 0 <= i < |ls| ==> ls[i].status == ms[i].status
    ensures CountInFlight(ls) == CountInFlight(ms)
  {
    if ls != [] {
      assert forall i :: 0 <= i < |ls[1..]| ==> ls[1..][i] == ls[i + 1] && ms[1..][i] == ms[i + 1];
      SameStatusSameCount(ls[1..], ms[1..]);
    }
  }

  lemma {:induction false} ReconcileKeepsRunning(ls: seq<Leaf>, u: Usage, actuals: map<SimId, Actual>, i: nat)
    requires i <= |ls|
    ensures ReconciledUsage(ls, u, actuals, i).running == u.running
  {
    if i > 0 { ReconcileKeepsRunning(ls, u, actuals, i - 1); }
  }

  lemma PreparedRunningIsCounted(c: Campaign, env: Env)
    ensures Prepare(c, env).usage.running == CountInFlight(Prepare(c, env).leaves)
  {
    var ls := Reused(Fold(c.leaves, env.observed), env.reuse);
    ReconcileKeepsRunning(ls, c.usage.(running := CountInFlight(ls)), env.actuals, |ls|);
    SameStatusSameCount(ls, Reconciled(ls, env.actuals));
  }

  lemma PlanOnSameWork(b: Budget, ls: seq<Leaf>, ms: seq<Leaf>, steps: seq<Step>, planned: seq<Usage>)
    requires PlanOf(b, ls, steps, planned) && |ls| == |ms| && forall i :: 0 <= i < |ls| ==> ls[i].work == ms[i].work
    ensures PlanOf(b, ms, steps, planned)
  {
  }

  // ---------------------------------------------------------------------------
  // What runs, leaf by leaf

  /** The loop's counter is the number of leaves in flight, and once a job has been accepted the concurrency cap holds
      of it. */
  ghost predicate Concurrent(b: Budget, r: Run) {
    && CountInFlight(r.mem.leaves) == r.inFlight == r.mem.usage.running
    && (r.submitted != [] && b.maxConcurrent.Some? ==> r.inFlight <= b.maxConcurrent.value)
  }

  lemma {:induction false} StepConcurrent(start: Run, r: Run, i: nat, steps: seq<Step>, env: Env, cfg: Config)
    requires Fits(start.mem, steps) && i < |steps| && Framed(start, r, i) && Concurrent(BudgetOf(start.mem, cfg), r)
    ensures Concurrent(BudgetOf(start.mem, cfg), ExecStep(r, i, steps[i], env, cfg))
  {
    var s := ExecStep(r, i, steps[i], env, cfg);
    assert r.mem.leaves[i] == start.mem.leaves[i];
    StepTouches(r, i, steps[i], env, cfg);
    StepInFlight(r, i, steps[i], env, cfg);
    InFlightUpdate(r.mem.leaves, i, s.mem.leaves[i]);
  }

  lemma {:induction false} StepInFlight(r: Run, i: nat, step: Step, env: Env, cfg: Config)
    requires r.mem.Valid() && i < |r.mem.leaves| && (step.action == Submit ==> r.mem.leaves[i].status.Planned?)
    requires step.action != Wait ==> r.mem.leaves[i].status.Planned? || r.mem.leaves[i].status.Terminal()
    ensures var s := ExecStep(r, i, step, env, cfg);
      && s.inFlight - r.inFlight == s.mem.usage.running - r.mem.usage.running
        == (if s.mem.leaves[i].status.InFlight() then 1 else 0) - (if r.mem.leaves[i].status.InFlight() then 1 else 0)
      && (s.submitted != r.submitted ==> SubmissionBlock(r, i, env, cfg).None? && s.inFlight == r.inFlight + 1)
      && (s.submitted == r.submitted ==> s.inFlight == r.inFlight)
  {
  }

  lemma {:induction false} ExecConcurrent(start: Run, steps: seq<Step>, env: Env, cfg: Config, i: nat)
    requires Fits(start.mem, steps) && Framed(start, start, 0) && Concurrent(BudgetOf(start.mem, cfg), start)
      && i <= |steps|
    ensures Concurrent(BudgetOf(start.mem, cfg), Exec(start, steps, env, cfg, i))
  {
    var b := BudgetOf(start.mem, cfg);
    var inv := (k: nat, r: Run) => k <= |steps| && Framed(start, r, k) && Concurrent(b, r);
    forall k: nat, r: Run | k < |steps| && inv(k, r) ensures inv(k + 1, ExecStep(r, k, steps[k], env, cfg)) {
      FramedStep(start, r, k, steps[k], env, cfg);
      StepConcurrent(start, r, k, steps, env, cfg);
    }
    ExecInvariant(start, steps, env, cfg, inv, i);
  }

  /** The caps in force are those given for the engine if there are any, else the campaign's own. */
  lemma BudgetInForce(c: Campaign, cfg: Config)
    ensures cfg.budgetOverride.Some? ==> BudgetOf(c, cfg) == cfg.budgetOverride.value
    ensures cfg.budgetOverride.None? ==> BudgetOf(c, cfg) == c.budget
  {
  }

  /** At every point of every tick, whatever estimates are: usage counts exactly the leaves submitted or running, and
      once a job has been accepted they are no more than the concurrency cap. */
  lemma {:induction false} RunningWithinCap(d: Durable, env: Env, cfg: Config, i: nat)
    requires d.disk.Valid() && i <= |d.disk.leaves|
    ensures var r := Exec(Start(d, env), Steps(Prepare(d.disk, env), cfg), env, cfg, i);
      var running := |InFlightLeaves(r.mem.leaves)|;
      && r.mem.usage.running == running
      && (r.submitted != [] && BudgetOf(d.disk, cfg).maxConcurrent.Some? ==>
        running <= BudgetOf(d.disk, cfg).maxConcurrent.value)
  {
    var start, steps := Start(d, env), Steps(Prepare(d.disk, env), cfg);
    TickStarts(d, env, cfg);
    FirstFrame(d.disk, env);
    PreparedRunningIsCounted(d.disk, env);
    SameStatusSameCount(Prepare(d.disk, env).leaves, start.mem.leaves);
    ExecConcurrent(start, steps, env, cfg, i);
    CountsInFlight(Exec(start, steps, env, cfg, i).mem.leaves);
  }

  /** At every point of every tick, after every accepted submission: caps hold, however the batch was cut short. */
  lemma AcceptedSubmissionsWithinCaps(d: Durable, env: Env, cfg: Config, i: nat)
    requires d.disk.Valid() && i <= |d.disk.leaves|
    requires forall k :: 0 <= k < |d.disk.leaves| ==> Reserved(d.disk.leaves[k].work.spec.request)
    ensures var r := Exec(Start(d, env), Steps(Prepare(d.disk, env), cfg), env, cfg, i);
      var b := BudgetOf(d.disk, cfg);
      && (r.submitted != [] ==> JobCapsHold(b, r.mem.usage) && |r.submitted| <= cfg.policy.maxSubmitsPerTick)
      && r.mem.usage.running == |InFlightLeaves(r.mem.leaves)|
      && (SubmittedGpu(d.disk.leaves, r.submitted) ==> GpuCapHolds(b, r.mem.usage))
      && (forall k :: k in r.submitted ==>
        k < |d.disk.leaves| && PartitionAllowed(b, d.disk.leaves[k].work.spec.request))
  {
    RunningWithinCap(d, env, cfg, i);
    var start := Start(d, env);
    var p := Prepare(d.disk, env);
    TickStarts(d, env, cfg);
    PrepareFrame(d.disk, env);
    PlannerThreads(p, cfg);
    FirstFrame(d.disk, env);
    PlanOnSameWork(BudgetOf(p, cfg), p.leaves, start.mem.leaves, Steps(p, cfg), PlannedUsages(p, cfg));
    PreparedRunningIsCounted(d.disk, env);
    BudgetOfTick(d, env, cfg, start, Steps(p, cfg), PlannedUsages(p, cfg), i);
  }

  lemma {:induction false} BudgetOfTick(d: Durable, env: Env, cfg: Config, start: Run, steps: seq<Step>,
      planned: seq<Usage>, i: nat)
    requires Framed(start, start, 0) && SameWork(d.disk, start.mem) && start.submitted == []
      && start.mem.usage.running == start.inFlight
    requires PlanOf(BudgetOf(d.disk, cfg), start.mem.leaves, steps, planned) && Under(start.mem.usage, planned[0])
    requires forall k :: 0 <= k < |d.disk.leaves| ==> Reserved(d.disk.leaves[k].work.spec.request)
    requires i <= |steps|
    ensures var r := Exec(start, steps, env, cfg, i);
      var b := BudgetOf(d.disk, cfg);
      && (r.submitted != [] ==> JobCapsHold(b, r.mem.usage) && |r.submitted| <= cfg.policy.maxSubmitsPerTick)
      && (SubmittedGpu(d.disk.leaves, r.submitted) ==> GpuCapHolds(b, r.mem.usage))
      && (forall k :: k in r.submitted ==>
        k < |d.disk.leaves| && PartitionAllowed(b, d.disk.leaves[k].work.spec.request))
  {
    ExecWithinPlan(BudgetOf(d.disk, cfg), start, steps, planned, env, cfg, i);
  }

  // ---------------------------------------------------------------------------
  // The cap on jobs, at every save

  /** Jobs counted in memory and in the store are at most the planned ones, and at most `n`. */
  ghost predicate JobsWithin(n: int, start: Run, planned: Usage, r: Run) {
    && r.mem.usage.submitted <= planned.submitted && r.mem.usage.submitted <= n && r.disk.usage.submitted <= n
    && r.disk.budget == start.mem.budget
  }

  lemma {:induction false} StepJobsWithin(n: int, b: Budget, start: Run, r: Run, i: nat, steps: seq<Step>,
      planned: seq<Usage>, env: Env, cfg: Config)
    requires PlanOf(b, start.mem.leaves, steps, planned) && i < |steps| && Framed(start, r, i)
    requires b.maxTotal.Some? && b.maxTotal.value <= n && JobsWithin(n, start, planned[i], r)
    ensures JobsWithin(n, start, planned[i + 1], ExecStep(r, i, steps[i], env, cfg))
  {
    FramedStep(start, r, i, steps[i], env, cfg);
    StepAcceptsOrNot(start, r, i, steps[i], env, cfg);
    StepDisk(r, i, steps[i], env, cfg);
  }

  lemma {:induction false} ExecJobsWithin(n: int, b: Budget, start: Run, steps: seq<Step>, planned: seq<Usage>,
      env: Env, cfg: Config, i: nat)
    requires PlanOf(b, start.mem.leaves, steps, planned) && Framed(start, start, 0) && i <= |steps|
    requires b.maxTotal.Some? && b.maxTotal.value <= n && JobsWithin(n, start, planned[0], start)
    ensures JobsWithin(n, start, planned[i], Exec(start, steps, env, cfg, i))
  {
    var inv := (k: nat, r: Run) => k <= |steps| && Framed(start, r, k) && JobsWithin(n, start, planned[k], r);
    forall k: nat, r: Run | k < |steps| && inv(k, r) ensures inv(k + 1, ExecStep(r, k, steps[k], env, cfg)) {
      FramedStep(start, r, k, steps[k], env, cfg);
      StepJobsWithin(n, b, start, r, k, steps, planned, env, cfg);
    }
    ExecInvariant(start, steps, env, cfg, inv, i);
  }

  lemma {:induction false} StartJobsWithin(d: Durable, env: Env, n: int, p: Campaign, start: Run)
    requires d.disk.Valid() && p == Prepare(d.disk, env) && start == Start(d, env) && d.disk.usage.submitted <= n
    ensures |p.leaves| == |start.mem.leaves| && p.budget == d.disk.budget == start.mem.budget
    ensures JobsWithin(n, start, p.usage, start)
  {
    PrepareKeepsSubmitted(d.disk, env);
    PrepareFrame(d.disk, env);
    FirstFrame(d.disk, env);
  }

  lemma {:induction false} StepsKeepJobCap(n: int, b: Budget, start: Run, steps: seq<Step>, planned: seq<Usage>,
      env: Env, cfg: Config, s: Run)
    requires PlanOf(b, start.mem.leaves, steps, planned) && Framed(start, start, 0)
    requires b.maxTotal.Some? && b.maxTotal.value <= n && JobsWithin(n, start, planned[0], start)
    requires s == Save(Exec(start, steps, env, cfg, |steps|))
    ensures s.disk.usage.submitted <= n && s.disk.budget == start.mem.budget
  {
    ExecJobsWithin(n, b, start, steps, planned, env, cfg, |steps|);
    ExecFrame(start, steps, env, cfg, |steps|);
  }

  /** Under a cap on jobs no save of a tick counts more jobs than the cap, if none did before; the budget stays. */
  lemma {:induction false} TickKeepsJobCap(d: Durable, env: Env, cfg: Config, n: int)
    requires d.disk.Valid() && d.disk.usage.submitted <= n
    requires BudgetOf(d.disk, cfg).maxTotal.Some? && BudgetOf(d.disk, cfg).maxTotal.value <= n
    ensures Tick(d, env, cfg).disk.usage.submitted <= n && Tick(d, env, cfg).disk.budget == d.disk.budget
  {
    var p, start := Prepare(d.disk, env), Start(d, env);
    TickStarts(d, env, cfg);
    StartJobsWithin(d, env, n, p, start);
    PlannerThreads(p, cfg);
    FirstFrame(d.disk, env);
    PrepareFrame(d.disk, env);
    PlanOnSameWork(BudgetOf(p, cfg), p.leaves, start.mem.leaves, Steps(p, cfg), PlannedUsages(p, cfg));
    StepsKeepJobCap(n, BudgetOf(p, cfg), start, Steps(p, cfg), PlannedUsages(p, cfg), env, cfg,
      Save(TickRun(d, env, cfg)));
  }

  // ---------------------------------------------------------------------------
  // Estimates of any sign

  /** The resources whose estimates may have either sign. */
  datatype Resource = Core | Gpu

  /** What a request reserves; one that is no GPU request reserves no GPU hours. */
  function Ask(q: ResourceRequest, res: Resource): real {
    if res.Core? then q.coreHours else if q.isGpu then q.gpuHours else 0.0
  }

  function Used(u: Usage, res: Resource): real {
    if res.Core? then u.coreHours else u.gpuHours
  }

  function CapOf(b: Budget, res: Resource): Option<real> {
    if res.Core? then b.maxCoreHours else b.maxGpuHours
  }

  /** The cap is looked at when this request is admitted. */
  predicate Binds(q: ResourceRequest, res: Resource) {
    res.Gpu? ==> q.isGpu
  }

  /** A job for which the cap is looked at has been accepted. */
  predicate Bound(ls: seq<Leaf>, submitted: seq<nat>, res: Resource) {
    if res.Core? then submitted != [] else SubmittedGpu(ls, submitted)
  }

  function Estimate(l: Leaf, res: Resource): real {
    Ask(l.work.spec.request, res)
  }

  /** Usage before leaf `i` when, of the planned submissions before it, just those that add to usage were accepted. */
  function WorstUsage(used: real, ls: seq<Leaf>, steps: seq<Step>, i: nat, res: Resource): real
    requires i <= |ls| == |steps|
  {
    if i == 0 then used
    else
      WorstUsage(used, ls, steps, i - 1, res)
      + if steps[i - 1].action == Submit then Max(0.0, Estimate(ls[i - 1], res)) else 0.0
  }

  /** Every planned submission the cap is looked at for fits on top of all earlier ones that could add to usage. */
  ghost predicate FitsOnWorst(used: real, cap: real, ls: seq<Leaf>, steps: seq<Step>, res: Resource)
    requires |ls| == |steps|
  {
    forall i: nat | i < |ls| :: FitsAt(used, cap, ls, steps, res, i)
  }

  predicate FitsAt(used: real, cap: real, ls: seq<Leaf>, steps: seq<Step>, res: Resource, i: nat)
    requires i < |ls| == |steps|
  {
    steps[i].action == Submit && Binds(ls[i].work.spec.request, res) ==>
      WorstUsage(used, ls, steps, i, res) + Estimate(ls[i], res) <= cap
  }

  /** The batch a tick plans fits in every order of acceptance. */
  ghost predicate BatchFits(d: Durable, env: Env, cfg: Config, cap: real, res: Resource)
    requires d.disk.Valid()
  {
    var p := Prepare(d.disk, env);
    FitsOnWorst(Used(p.usage, res), cap, p.leaves, Steps(p, cfg), res)
  }

  /** The tick after `i` steps. */
  function Reached(d: Durable, env: Env, cfg: Config, i: nat): Run
    requires d.disk.Valid() && i <= |d.disk.leaves|
  {
    Exec(Start(d, env), Steps(Prepare(d.disk, env), cfg), env, cfg, i)
  }

  /** Once the tick has a job accepted that the cap is looked at for, usage is within the cap. */
  predicate CapHeld(ls: seq<Leaf>, r: Run, cap: real, res: Resource) {
    Bound(ls, r.submitted, res) ==> Used(r.mem.usage, res) <= cap
  }

  ghost predicate CapAlwaysHeld(d: Durable, env: Env, cfg: Config, cap: real, res: Resource)
    requires d.disk.Valid()
  {
    forall fates: seq<Fate>, i: nat | i <= |d.disk.leaves| ::
      CapHeld(d.disk.leaves, Reached(d, env.(fates := fates), cfg, i), cap, res)
  }

  lemma ReserveUses(u: Usage, q: ResourceRequest, res: Resource)
    ensures Used(Reserve(u, q), res) == Used(u, res) + Ask(q, res)
    ensures !Binds(q, res) ==> Ask(q, res) == 0.0
  {
  }

  lemma BoundSnoc(ls: seq<Leaf>, submitted: seq<nat>, i: nat, res: Resource)
    requires i < |ls|
    ensures Bound(ls, submitted + [i], res) <==> Bound(ls, submitted, res) || Binds(ls[i].work.spec.request, res)
  {
    assert forall k :: k in submitted + [i] <==> k in submitted || k == i;
    assert i in submitted + [i];
  }

  lemma {:induction false} BoundSameWork(ls: seq<Leaf>, ms: seq<Leaf>, submitted: seq<nat>, res: Resource)
    requires |ls| == |ms| && forall j :: 0 <= j < |ls| ==> ls[j].work == ms[j].work
    ensures Bound(ls, submitted, res) <==> Bound(ms, submitted, res)
  {
    if i :| i in submitted && i < |ls| && ls[i].work.spec.request.isGpu { assert ms[i].work == ls[i].work; }
    if i :| i in submitted && i < |ms| && ms[i].work.spec.request.isGpu { assert ms[i].work == ls[i].work; }
  }

  // ---------------------------------------------------------------------------
  // A fitting batch keeps the cap

  ghost predicate UnderWorst(cap: real, res: Resource, start: Run, steps: seq<Step>, i: nat, r: Run)
    requires |steps| == |start.mem.leaves|
  {
    && i <= |steps| && Framed(start, r, i) && CapHeld(start.mem.leaves, r, cap, res)
    && Used(r.mem.usage, res) <= WorstUsage(Used(start.mem.usage, res), start.mem.leaves, steps, i, res)
  }

  lemma {:induction false} StepUnderWorst(cap: real, res: Resource, start: Run, r: Run, i: nat, steps: seq<Step>,
      env: Env, cfg: Config, s: Run, j: nat)
    requires |steps| == |start.mem.leaves| && i < |steps| && j == i + 1
    requires FitsOnWorst(Used(start.mem.usage, res), cap, start.mem.leaves, steps, res)
    requires UnderWorst(cap, res, start, steps, i, r) && s == ExecStep(r, i, steps[i], env, cfg)
    ensures UnderWorst(cap, res, start, steps, j, s)
  {
    FramedStep(start, r, i, steps[i], env, cfg);
    StepAcceptsOrNot(start, r, i, steps[i], env, cfg);
    ReserveUses(r.mem.usage, start.mem.leaves[i].work.spec.request, res);
    BoundSnoc(start.mem.leaves, r.submitted, i, res);
    assert FitsAt(Used(start.mem.usage, res), cap, start.mem.leaves, steps, res, i);
  }

  lemma {:induction false} NextUnderWorst(cap: real, res: Resource, start: Run, r: Run, i: nat, steps: seq<Step>,
      env: Env, cfg: Config, s: Run, j: nat)
    requires |steps| == |start.mem.leaves| == Count(start.mem.tree) && i < |steps| && j == i + 1
    requires FitsOnWorst(Used(start.mem.usage, res), cap, start.mem.leaves, steps, res)
    requires r == Exec(start, steps, env, cfg, i) && s == Exec(start, steps, env, cfg, j)
    requires UnderWorst(cap, res, start, steps, i, r)
    ensures UnderWorst(cap, res, start, steps, j, s)
  {
    StepUnderWorst(cap, res, start, r, i, steps, env, cfg, s, j);
  }

  lemma {:induction false} StartUnderWorst(cap: real, res: Resource, start: Run, steps: seq<Step>)
    requires |steps| == |start.mem.leaves| && Framed(start, start, 0) && start.submitted == []
    ensures UnderWorst(cap, res, start, steps, 0, start)
  {
  }

  lemma {:induction false} ExecUnderWorst(cap: real, res: Resource, start: Run, steps: seq<Step>, env: Env, cfg: Config,
      i: nat)
    requires |steps| == |start.mem.leaves| && Framed(start, start, 0) && start.submitted == [] && i <= |steps|
    requires FitsOnWorst(Used(start.mem.usage, res), cap, start.mem.leaves, steps, res)
    ensures UnderWorst(cap, res, start, steps, i, Exec(start, steps, env, cfg, i))
  {
    if i == 0 {
      StartUnderWorst(cap, res, start, steps);
    } else {
      ExecUnderWorst(cap, res, start, steps, env, cfg, i - 1);
      var r, t := Exec(start, steps, env, cfg, i - 1), Exec(start, steps, env, cfg, i);
      NextUnderWorst(cap, res, start, r, i - 1, steps, env, cfg, t, i);
    }
  }

  lemma {:induction false} SameWorkSameWorst(used: real, ls: seq<Leaf>, ms: seq<Leaf>, steps: seq<Step>, i: nat,
      res: Resource)
    requires i <= |ls| == |ms| == |steps| && forall j :: 0 <= j < |ls| ==> ls[j].work == ms[j].work
    ensures WorstUsage(used, ls, steps, i, res) == WorstUsage(used, ms, steps, i, res)
  {
    if i > 0 { SameWorkSameWorst(used, ls, ms, steps, i - 1, res); }
  }

  lemma {:induction false} FitsSameWork(used: real, cap: real, ls: seq<Leaf>, ms: seq<Leaf>, steps: seq<Step>,
      res: Resource)
    requires |ls| == |ms| == |steps| && (forall j :: 0 <= j < |ls| ==> ls[j].work == ms[j].work)
      && FitsOnWorst(used, cap, ls, steps, res)
    ensures FitsOnWorst(used, cap, ms, steps, res)
  {
    forall i: nat | i < |ms| ensures FitsAt(used, cap, ms, steps, res, i) {
      assert FitsAt(used, cap, ls, steps, res, i);
      SameWorkSameWorst(used, ls, ms, steps, i, res);
    }
  }

  lemma {:induction false} SameWorkAsStarted(d: Durable, e: Env, p: Campaign, start: Run)
    requires d.disk.Valid() && p == Prepare(d.disk, e) && start == Start(d, e)
    ensures |start.mem.leaves| == |p.leaves| == |d.disk.leaves| && start.mem.usage == p.usage && start.submitted == []
    ensures forall j :: 0 <= j < |p.leaves| ==> p.leaves[j].work == start.mem.leaves[j].work == d.disk.leaves[j].work
    ensures forall m: nat, res :: Adverse(d.disk.leaves, m, res) == Adverse(start.mem.leaves, m, res)
  {
    FirstFrame(d.disk, e);
    PrepareFrame(d.disk, e);
  }

  lemma {:induction false} FittingTickKeepsCap(d: Durable, e: Env, cfg: Config, cap: real, res: Resource, p: Campaign,
      start: Run, i: nat)
    requires d.disk.Valid() && i <= |d.disk.leaves| && p == Prepare(d.disk, e) && start == Start(d, e)
    requires |p.leaves| == |d.disk.leaves| && FitsOnWorst(Used(p.usage, res), cap, p.leaves, Steps(p, cfg), res)
    ensures CapHeld(d.disk.leaves, Exec(start, Steps(p, cfg), e, cfg, i), cap, res)
  {
    TickStarts(d, e, cfg);
    SameWorkAsStarted(d, e, p, start);
    FitsSameWork(Used(p.usage, res), cap, p.leaves, start.mem.leaves, Steps(p, cfg), res);
    ExecUnderWorst(cap, res, start, Steps(p, cfg), e, cfg, i);
    BoundSameWork(d.disk.leaves, start.mem.leaves, Exec(start, Steps(p, cfg), e, cfg, i).submitted, res);
  }

  /** With estimates of any sign: a batch that fits keeps the cap after every accepted submission, whatever becomes of
      each of them. */
  lemma {:induction false} FittingBatchKeepsCap(d: Durable, env: Env, cfg: Config, cap: real, res: Resource)
    requires d.disk.Valid() && BatchFits(d, env, cfg, cap, res)
    ensures CapAlwaysHeld(d, env, cfg, cap, res)
  {
    forall fates: seq<Fate>, i: nat | i <= |d.disk.leaves|
      ensures CapHeld(d.disk.leaves, Reached(d, env.(fates := fates), cfg, i), cap, res)
    {
      var e := env.(fates := fates);
      PrepareFrame(d.disk, e);
      FittingTickKeepsCap(d, e, cfg, cap, res, Prepare(d.disk, e), Start(d, e), i);
    }
  }

  /** The plan does not depend on what will become of the submissions. */
  lemma {:induction false} SamePlan(d: Durable, env: Env, fates: seq<Fate>)
    requires d.disk.Valid()
    ensures var e := env.(fates := fates);
      Prepare(d.disk, e) == Prepare(d.disk, env) && First(d.disk, e) == First(d.disk, env)
  {
    PrepareFrame(d.disk, env);
    SameEmitted(Prepare(d.disk, env), d.disk.leaves, env, fates);
  }

  lemma {:induction false} SameEmitted(p: Campaign, before: seq<Leaf>, env: Env, fates: seq<Fate>)
    requires |p.leaves| == |before| == Count(p.tree)
    ensures Emitted(p, before, env.(fates := fates)) == Emitted(p, before, env)
  {
    var e := env.(fates := fates);
    SameEmissions(Paths(p.tree), p.leaves, before, env, fates, |before|);
    assert EmittedLeaves(p.leaves, before, e) == EmittedLeaves(p.leaves, before, env);
  }

  lemma {:induction false} SameEmissions(paths: seq<Path>, ls: seq<Leaf>, before: seq<Leaf>, env: Env,
      fates: seq<Fate>, i: nat)
    requires |ls| == |before| == |paths| && i <= |ls|
    ensures EmittedCallbacks(paths, ls, before, env.(fates := fates), i) == EmittedCallbacks(paths, ls, before, env, i)
  {
    if i > 0 { SameEmissions(paths, ls, before, env, fates, i - 1); }
  }

  // ---------------------------------------------------------------------------
  // A batch that does not fit breaks it

  function Submissions(steps: seq<Step>, i: nat): nat
    requires i <= |steps|
  {
    if i == 0 then 0 else Submissions(steps, i - 1) + if steps[i - 1].action == Submit then 1 else 0
  }

  lemma {:induction false} SubmissionsGrow(steps: seq<Step>, i: nat, j: nat)
    requires i <= j <= |steps|
    ensures Submissions(steps, i) <= Submissions(steps, j)
  {
    if i < j { SubmissionsGrow(steps, i, j - 1); }
  }

  /** Nothing but the cluster's answers stands between the plan and its jobs: the campaign runs, the scan passes, the
      policy allows as many submissions, each is approved, and the process lives on. */
  ghost predicate GatesOpen(d: Durable, env: Env, cfg: Config)
    requires d.disk.Valid()
  {
    var p, f := Prepare(d.disk, env), First(d.disk, env);
    var planned := Submissions(Steps(p, cfg), |p.leaves|);
    && d.disk.state.LifeRunning? && !HasDuplicates(p, cfg)
    && planned <= cfg.policy.maxSubmitsPerTick && 2 * planned < env.life
    && |f.leaves| == |p.leaves| == Count(d.disk.tree)
    && forall i: nat | i < |p.leaves| && Submits(p, cfg, i) :: MaySubmit(d.disk.Path(i), f.leaves[i], env, cfg.policy)
  }

  /** Of the submissions before leaf `m` the cluster accepts just those that add to usage; then it accepts leaf `m`. */
  function Adverse(ls: seq<Leaf>, m: nat, res: Resource): (r: seq<Fate>)
    ensures |r| == |ls|
  {
    seq(|ls|, i requires 0 <= i < |ls| =>
      if i == m || Estimate(ls[i], res) >= 0.0 then Fate(true, "", Ack) else Fate(false, "", Refused(NO_REASON)))
  }

  lemma {:induction false} IdleStep(start: Run, r: Run, i: nat, step: Step, env: Env, cfg: Config)
    requires i < |start.mem.leaves| && Framed(start, r, i) && step.action != Submit
    ensures var s := ExecStep(r, i, step, env, cfg);
      s.life == r.life && s.mem.usage == r.mem.usage && s.inFlight == r.inFlight && s.submitted == r.submitted
  {
  }

  /** The run has spent two actions on each submission and uses no less than the worst case. */
  ghost predicate Adversed(res: Resource, start: Run, steps: seq<Step>, planned: seq<Usage>, i: nat, r: Run)
    requires i <= |steps| == |start.mem.leaves| && |planned| == |steps| + 1
  {
    && r.life >= start.life - 2 * Submissions(steps, i) && |r.submitted| <= Submissions(steps, i)
    && r.inFlight <= planned[i].running
    && Used(r.mem.usage, res) >= WorstUsage(Used(start.mem.usage, res), start.mem.leaves, steps, i, res)
  }

  ghost predicate Open(start: Run, steps: seq<Step>, planned: seq<Usage>, env: Env, cfg: Config)
    requires start.mem.Valid() && |steps| == |start.mem.leaves|
  {
    && start.mem.state.LifeRunning? && PlanOf(BudgetOf(start.mem, cfg), start.mem.leaves, steps, planned)
    && Submissions(steps, |steps|) <= cfg.policy.maxSubmitsPerTick && 2 * Submissions(steps, |steps|) <= start.life
    && forall i: nat | i < |steps| && steps[i].action == Submit ::
      MaySubmit(start.mem.Path(i), start.mem.leaves[i], env, cfg.policy)
  }

  lemma {:induction false} PlanAdmits(b: Budget, ls: seq<Leaf>, steps: seq<Step>, planned: seq<Usage>, i: nat)
    requires PlanOf(b, ls, steps, planned) && i < |ls| && steps[i].action == Submit
    ensures CheckAdmission(b, planned[i], ls[i].work.spec.request).None?
    ensures planned[i + 1] == Reserve(planned[i], ls[i].work.spec.request)
  {
  }

  lemma {:induction false} OpenUnblocked(res: Resource, start: Run, r: Run, i: nat, steps: seq<Step>,
      planned: seq<Usage>, env: Env, cfg: Config)
    requires Framed(start, start, 0) && Framed(start, r, i) && i < |steps| == |start.mem.leaves|
      && steps[i].action == Submit
    requires Open(start, steps, planned, env, cfg) && Adversed(res, start, steps, planned, i, r)
    ensures SubmissionBlock(r, i, env, cfg).None? && r.life >= 2 && Submissions(steps, i) < Submissions(steps, |steps|)
  {
    SubmissionsGrow(steps, i + 1, |steps|);
    assert r.mem.leaves[i] == start.mem.leaves[i] && r.mem.Path(i) == start.mem.Path(i);
    PlanAdmits(BudgetOf(start.mem, cfg), start.mem.leaves, steps, planned, i);
  }

  /** An unblocked submission spends two actions; only an acknowledgement reserves. */
  lemma {:induction false} SubmittedStep(r: Run, i: nat, step: Step, env: Env, cfg: Config)
    requires r.mem.Valid() && i < |r.mem.leaves| && step.action == Submit && r.life >= 2
    requires SubmissionBlock(r, i, env, cfg).None? && !GuardFires(r.mem.leaves, i) && !FateOf(env, i).reply.Unknown?
    ensures var s := ExecStep(r, i, step, env, cfg);
      && s.life == r.life - 2
      && (FateOf(env, i).reply.Ack? ==>
        s.mem.usage == Reserve(r.mem.usage, r.mem.leaves[i].work.spec.request) && s.inFlight == r.inFlight + 1
          && s.submitted == r.submitted + [i])
      && (FateOf(env, i).reply.Refused? ==>
        s.mem.usage == r.mem.usage && s.inFlight == r.inFlight && s.submitted == r.submitted)
  {
  }

  lemma {:induction false} AdverseStep(res: Resource, start: Run, r: Run, i: nat, steps: seq<Step>,
      planned: seq<Usage>, m: nat, env: Env, cfg: Config)
    requires Framed(start, start, 0) && Framed(start, r, i) && i < |steps| == |start.mem.leaves|
    requires Open(start, steps, planned, env, cfg) && Adversed(res, start, steps, planned, i, r)
    requires steps[i].action == Submit ==> !GuardFires(r.mem.leaves, i)
    requires env.fates == Adverse(start.mem.leaves, m, res) && i < m
    ensures Adversed(res, start, steps, planned, i + 1, ExecStep(r, i, steps[i], env, cfg))
  {
    if steps[i].action == Submit {
      OpenUnblocked(res, start, r, i, steps, planned, env, cfg);
      SubmittedStep(r, i, steps[i], env, cfg);
      PlanAdmits(BudgetOf(start.mem, cfg), start.mem.leaves, steps, planned, i);
      assert r.mem.leaves[i] == start.mem.leaves[i];
      ReserveUses(r.mem.usage, start.mem.leaves[i].work.spec.request, res);
    } else {
      IdleStep(start, r, i, steps[i], env, cfg);
    }
  }

  lemma {:induction false} AdverseRun(res: Resource, start: Run, steps: seq<Step>, planned: seq<Usage>, m: nat,
      env: Env, cfg: Config, i: nat)
    requires Framed(start, start, 0) && i <= m <= |steps| == |start.mem.leaves|
    requires Open(start, steps, planned, env, cfg) && Scanned(start.mem.leaves, steps)
    requires start.submitted == [] && start.inFlight <= planned[0].running
    requires env.fates == Adverse(start.mem.leaves, m, res)
    ensures Adversed(res, start, steps, planned, i, Exec(start, steps, env, cfg, i))
  {
    if i > 0 {
      AdverseRun(res, start, steps, planned, m, env, cfg, i - 1);
      ExecFrame(start, steps, env, cfg, i - 1);
      if steps[i - 1].action == Submit { GuardSilentAt(start, steps, env, cfg, i - 1); }
      AdverseNext(res, start, Exec(start, steps, env, cfg, i - 1), steps, planned, m, env, cfg, i,
        Exec(start, steps, env, cfg, i));
    }
  }

  lemma {:induction false} AdverseNext(res: Resource, start: Run, r: Run, steps: seq<Step>, planned: seq<Usage>,
      m: nat, env: Env, cfg: Config, i: nat, s: Run)
    requires Framed(start, start, 0) && 0 < i <= m <= |steps| == |start.mem.leaves| && Framed(start, r, i - 1)
    requires Open(start, steps, planned, env, cfg) && Adversed(res, start, steps, planned, i - 1, r)
    requires steps[i - 1].action == Submit ==> !GuardFires(r.mem.leaves, i - 1)
    requires env.fates == Adverse(start.mem.leaves, m, res) && s == ExecStep(r, i - 1, steps[i - 1], env, cfg)
    ensures Adversed(res, start, steps, planned, i, s)
  {
    AdverseStep(res, start, r, i - 1, steps, planned, m, env, cfg);
  }

  /** What accepting a misfit on top of the worst case does. */
  lemma {:induction false} MisfitStep(res: Resource, start: Run, r: Run, i: nat, steps: seq<Step>,
      planned: seq<Usage>, env: Env, cfg: Config, cap: real)
    requires Framed(start, start, 0) && Framed(start, r, i) && i < |steps| == |start.mem.leaves|
    requires Open(start, steps, planned, env, cfg) && Adversed(res, start, steps, planned, i, r)
    requires steps[i].action == Submit && Binds(start.mem.leaves[i].work.spec.request, res)
      && !GuardFires(r.mem.leaves, i) && FateOf(env, i).reply.Ack?
    requires WorstUsage(Used(start.mem.usage, res), start.mem.leaves, steps, i, res)
      + Estimate(start.mem.leaves[i], res) > cap
    ensures !CapHeld(start.mem.leaves, ExecStep(r, i, steps[i], env, cfg), cap, res)
  {
    OpenUnblocked(res, start, r, i, steps, planned, env, cfg);
    SubmittedStep(r, i, steps[i], env, cfg);
    assert r.mem.leaves[i] == start.mem.leaves[i];
    ReserveUses(r.mem.usage, start.mem.leaves[i].work.spec.request, res);
    BoundSnoc(start.mem.leaves, r.submitted, i, res);
  }

  lemma {:induction false} MisfitIsAccepted(res: Resource, start: Run, steps: seq<Step>, planned: seq<Usage>, m: nat,
      env: Env, cfg: Config, cap: real)
    requires Framed(start, start, 0) && m < |steps| == |start.mem.leaves|
    requires steps[m].action == Submit && Binds(start.mem.leaves[m].work.spec.request, res)
    requires Open(start, steps, planned, env, cfg) && Scanned(start.mem.leaves, steps)
    requires start.submitted == [] && start.inFlight <= planned[0].running
    requires env.fates == Adverse(start.mem.leaves, m, res)
    requires WorstUsage(Used(start.mem.usage, res), start.mem.leaves, steps, m, res)
      + Estimate(start.mem.leaves[m], res) > cap
    ensures !CapHeld(start.mem.leaves, Exec(start, steps, env, cfg, m + 1), cap, res)
  {
    AdverseRun(res, start, steps, planned, m, env, cfg, m);
    ExecFrame(start, steps, env, cfg, m);
    GuardSilentAt(start, steps, env, cfg, m);
    MisfitStep(res, start, Exec(start, steps, env, cfg, m), m, steps, planned, env, cfg, cap);
  }

  /** What an open tick starts from. */
  lemma {:induction false} OpenStarts(d: Durable, env: Env, cfg: Config)
    requires d.disk.Valid() && GatesOpen(d, env, cfg)
    ensures var start, p := Start(d, env), Prepare(d.disk, env);
      && |start.mem.leaves| == |p.leaves| && start.inFlight == PlannedUsages(p, cfg)[0].running
      && Framed(start, start, 0) && Open(start, Steps(p, cfg), PlannedUsages(p, cfg), env, cfg)
      && Scanned(start.mem.leaves, Steps(p, cfg))
  {
    var p := Prepare(d.disk, env);
    TickStarts(d, env, cfg);
    FirstFrame(d.disk, env);
    PrepareFrame(d.disk, env);
    ScanCovers(d.disk, env, cfg);
    PlannerThreads(p, cfg);
    PlanOnSameWork(BudgetOf(p, cfg), p.leaves, First(d.disk, env).leaves, Steps(p, cfg), PlannedUsages(p, cfg));
    PreparedRunningIsCounted(d.disk, env);
  }

  lemma {:induction false} MisfitInTick(d: Durable, e: Env, cfg: Config, cap: real, res: Resource, m: nat, p: Campaign)
    requires d.disk.Valid() && GatesOpen(d, e, cfg) && p == Prepare(d.disk, e) && m < |p.leaves| == |d.disk.leaves|
    requires Submits(p, cfg, m) && Binds(p.leaves[m].work.spec.request, res)
      && e.fates == Adverse(d.disk.leaves, m, res)
    requires WorstUsage(Used(p.usage, res), p.leaves, Steps(p, cfg), m, res) + Estimate(p.leaves[m], res) > cap
    ensures !CapHeld(d.disk.leaves, Reached(d, e, cfg, m + 1), cap, res)
  {
    OpenStarts(d, e, cfg);
    SameWorkAsStarted(d, e, p, Start(d, e));
    MisfitFromStart(d, e, cfg, cap, res, m, p, Start(d, e), Steps(p, cfg));
  }

  lemma {:induction false} MisfitFromStart(d: Durable, e: Env, cfg: Config, cap: real, res: Resource, m: nat,
      p: Campaign, start: Run, steps: seq<Step>)
    requires m < |d.disk.leaves| == |p.leaves| == |start.mem.leaves| == |steps| && start.mem.usage == p.usage
    requires forall j :: 0 <= j < |p.leaves| ==> p.leaves[j].work == start.mem.leaves[j].work == d.disk.leaves[j].work
    requires Framed(start, start, 0) && start.submitted == [] && start.inFlight == PlannedUsages(p, cfg)[0].running
    requires Open(start, steps, PlannedUsages(p, cfg), e, cfg) && Scanned(start.mem.leaves, steps)
    requires steps[m].action == Submit && Binds(p.leaves[m].work.spec.request, res)
    requires e.fates == Adverse(start.mem.leaves, m, res)
    requires WorstUsage(Used(p.usage, res), p.leaves, steps, m, res) + Estimate(p.leaves[m], res) > cap
    ensures !CapHeld(d.disk.leaves, Exec(start, steps, e, cfg, m + 1), cap, res)
  {
    SameWorkSameWorst(Used(p.usage, res), p.leaves, start.mem.leaves, steps, m, res);
    MisfitIsAccepted(res, start, steps, PlannedUsages(p, cfg), m, e, cfg, cap);
    BoundSameWork(d.disk.leaves, start.mem.leaves, Exec(start, steps, e, cfg, m + 1).submitted, res);
  }

  /** Leaf `m` is planned although it does not fit on the worst case before it. */
  ghost predicate Misfit(p: Campaign, cfg: Config, cap: real, res: Resource, m: nat) {
    && m < |p.leaves| && Submits(p, cfg, m) && Binds(p.leaves[m].work.spec.request, res)
    && WorstUsage(Used(p.usage, res), p.leaves, Steps(p, cfg), m, res) + Estimate(p.leaves[m], res) > cap
  }

  /** If a planned submission does not fit on the worst case before it, some answers of the cluster break the cap. */
  lemma {:induction false} MisfitBreaksCap(d: Durable, env: Env, cfg: Config, cap: real, res: Resource, m: nat)
    requires d.disk.Valid() && GatesOpen(d, env, cfg) && Misfit(Prepare(d.disk, env), cfg, cap, res, m)
    ensures m < |d.disk.leaves|
    ensures !CapHeld(d.disk.leaves, Reached(d, env.(fates := Adverse(d.disk.leaves, m, res)), cfg, m + 1), cap, res)
  {
    var e := env.(fates := Adverse(d.disk.leaves, m, res));
    PrepareFrame(d.disk, env);
    SamePlan(d, env, e.fates);
    StillOpen(d, env, e.fates, cfg);
    MisfitInTick(d, e, cfg, cap, res, m, Prepare(d.disk, e));
  }

  lemma {:induction false} StillOpen(d: Durable, env: Env, fates: seq<Fate>, cfg: Config)
    requires d.disk.Valid()
    ensures GatesOpen(d, env, cfg) ==> GatesOpen(d, env.(fates := fates), cfg)
  {
    SamePlan(d, env, fates);
  }

  lemma {:induction false} SomeMisfit(d: Durable, env: Env, cfg: Config, cap: real, res: Resource) returns (m: nat)
    requires d.disk.Valid() && !BatchFits(d, env, cfg, cap, res)
    ensures Misfit(Prepare(d.disk, env), cfg, cap, res, m)
  {
    var p := Prepare(d.disk, env);
    m :| m < |p.leaves| && Steps(p, cfg)[m].action == Submit && Binds(p.leaves[m].work.spec.request, res)
      && WorstUsage(Used(p.usage, res), p.leaves, Steps(p, cfg), m, res) + Estimate(p.leaves[m], res) > cap;
  }

  /** With estimates of any sign and open gates: the core-hour cap, and likewise the GPU-hour cap, survives every answer
      of the cluster exactly when each planned submission it is looked at for fits on top of the earlier ones that could
      add to usage. */
  lemma {:induction false} CapKeptExactly(d: Durable, env: Env, cfg: Config, cap: real, res: Resource)
    requires d.disk.Valid() && GatesOpen(d, env, cfg)
    ensures CapAlwaysHeld(d, env, cfg, cap, res) <==> BatchFits(d, env, cfg, cap, res)
  {
    if BatchFits(d, env, cfg, cap, res) {
      FittingBatchKeepsCap(d, env, cfg, cap, res);
    } else {
      var m := SomeMisfit(d, env, cfg, cap, res);
      MisfitBreaksCap(d, env, cfg, cap, res, m);
    }
  }

  // ---------------------------------------------------------------------------
  // What the planner's own admission gives

  lemma {:induction false} WorstIsPlanned(b: Budget, ls: seq<Leaf>, steps: seq<Step>, planned: seq<Usage>, i: nat,
      res: Resource)
    requires PlanOf(b, ls, steps, planned) && i <= |ls|
    requires forall j :: 0 <= j < |ls| ==> Estimate(ls[j], res) >= 0.0
    ensures WorstUsage(Used(planned[0], res), ls, steps, i, res) == Used(planned[i], res)
  {
    if i > 0 {
      WorstIsPlanned(b, ls, steps, planned, i - 1, res);
      if steps[i - 1].action == Submit {
        PlanAdmits(b, ls, steps, planned, i - 1);
        ReserveUses(planned[i - 1], ls[i - 1].work.spec.request, res);
      }
    }
  }

  /** Without negative estimates every batch the planner admits fits: each request is checked with all earlier ones
      reserved, which is then the worst case. */
  lemma {:induction false} SequentialAdmissionSuffices(d: Durable, env: Env, cfg: Config, cap: real, res: Resource)
    requires d.disk.Valid() && CapOf(BudgetOf(d.disk, cfg), res) == Some(cap)
    requires forall j :: 0 <= j < |d.disk.leaves| ==> Estimate(d.disk.leaves[j], res) >= 0.0
    ensures BatchFits(d, env, cfg, cap, res)
  {
    var p := Prepare(d.disk, env);
    PrepareFrame(d.disk, env);
    PlannerThreads(p, cfg);
    PlanFits(BudgetOf(p, cfg), p.leaves, Steps(p, cfg), PlannedUsages(p, cfg), cap, res);
  }

  lemma AdmittedFits(b: Budget, u: Usage, q: ResourceRequest, cap: real, res: Resource)
    requires CheckAdmission(b, u, q).None? && CapOf(b, res) == Some(cap) && Binds(q, res)
    ensures Used(u, res) + Ask(q, res) <= cap
  {
  }

  lemma {:induction false} PlanFits(b: Budget, ls: seq<Leaf>, steps: seq<Step>, planned: seq<Usage>, cap: real,
      res: Resource)
    requires PlanOf(b, ls, steps, planned) && CapOf(b, res) == Some(cap)
    requires forall j :: 0 <= j < |ls| ==> Estimate(ls[j], res) >= 0.0
    ensures FitsOnWorst(Used(planned[0], res), cap, ls, steps, res)
  {
    forall i: nat | i < |ls| && steps[i].action == Submit && Binds(ls[i].work.spec.request, res)
      ensures WorstUsage(Used(planned[0], res), ls, steps, i, res) + Estimate(ls[i], res) <= cap
    {
      WorstIsPlanned(b, ls, steps, planned, i, res);
      PlanAdmits(b, ls, steps, planned, i);
      AdmittedFits(b, planned[i], ls[i].work.spec.request, cap, res);
    }
  }

  // ---------------------------------------------------------------------------
  // A campaign it is not enough for

  function RequestOf(hours: real, res: Resource): ResourceRequest {
    if res.Core? then ResourceRequest(hours, 0.0, None, false) else ResourceRequest(0.0, hours, None, true)
  }

  function NewLeaf(sim: string, hours: real, res: Resource): Leaf {
    FreshLeaf(Work(Spec(Some(sim), "", RequestOf(hours, res)), None, [], false))
  }

  function OneCap(hours: real, res: Resource): Budget {
    if res.Core? then Budget(Some(hours), None, None, None, None) else Budget(None, Some(hours), None, None, None)
  }

  /** A planned leaf that depends on nothing, needs no approval and asks for so many hours. */
  predicate Free(l: Leaf, hours: real, res: Resource) {
    && l.status.Planned? && l.simId.None? && l.work.dependsOn == [] && !l.work.requiresApproval
    && l.work.spec.request == RequestOf(hours, res)
  }

  /** Three simulations of 10, -5 and 5 hours under a cap of 10, none of them submitted yet. */
  ghost predicate Three(c: Campaign, res: Resource) {
    && c.Valid() && c.state.LifeRunning? && c.budget == OneCap(10.0, res) && c.usage == NO_USAGE && |c.leaves| == 3
    && Free(c.leaves[0], 10.0, res) && Free(c.leaves[1], -5.0, res) && Free(c.leaves[2], 5.0, res)
    && forall i, j :: 0 <= i < j < 3 ==> WireOf(c.leaves[i].work.spec) != WireOf(c.leaves[j].work.spec)
  }

  function ThreeLeaves(res: Resource): Campaign {
    Campaign("c", Sim("a", Sim("b", Sim("c", End))), [NewLeaf("a", 10.0, res), NewLeaf("b", -5.0, res),
      NewLeaf("c", 5.0, res)], OneCap(10.0, res), NO_USAGE, [], LifeRunning)
  }

  lemma ThreeLeavesAreThree(res: Resource)
    ensures Three(ThreeLeaves(res), res)
  {
    assert "a"[0] != "b"[0] && "a"[0] != "c"[0] && "b"[0] != "c"[0];
  }

  function QuietEnv(fates: seq<Fate>): Env {
    Env(map[], map[], map[], map[], map[], {}, 0, fates, 7)
  }

  const OPEN_CONFIG := Config(Policy(3, false, None, 0), None)

  lemma {:induction false} NothingToPrepare(c: Campaign, env: Env)
    requires c.Valid() && c.usage.running == CountInFlight(c.leaves)
    requires env.observed == map[] && env.reuse == map[] && env.actuals == map[]
    ensures Prepare(c, env) == c
  {
    assert Fold(c.leaves, env.observed) == c.leaves;
    assert Reused(c.leaves, env.reuse) == c.leaves;
    assert Reconciled(c.leaves, env.actuals) == c.leaves;
    NothingToReconcile(c.leaves, c.usage, env.actuals, |c.leaves|);
  }

  lemma {:induction false} NothingToReconcile(ls: seq<Leaf>, u: Usage, actuals: map<SimId, Actual>, i: nat)
    requires i <= |ls| && actuals == map[]
    ensures ReconciledUsage(ls, u, actuals, i) == u
  {
    if i > 0 { NothingToReconcile(ls, u, actuals, i - 1); }
  }

  lemma {:induction false} NoneInFlight(ls: seq<Leaf>)
    requires forall i :: 0 <= i < |ls| ==> !ls[i].status.InFlight()
    ensures CountInFlight(ls) == 0
  {
    if ls != [] {
      assert forall i :: 0 <= i < |ls[1..]| ==> ls[1..][i] == ls[i + 1];
      NoneInFlight(ls[1..]);
    }
  }

  lemma {:induction false} ThreePrepared(res: Resource, c: Campaign, fates: seq<Fate>)
    requires Three(c, res)
    ensures CountInFlight(c.leaves) == 0 && Prepare(c, QuietEnv(fates)) == c
  {
    NoneInFlight(c.leaves);
    NothingToPrepare(c, QuietEnv(fates));
  }

  /** A planned leaf without dependencies is submitted if the usage before it admits it. */
  lemma {:induction false} FreeLeafSubmits(p: Campaign, cfg: Config, i: nat, u: Usage)
    requires i < |p.leaves| && p.leaves[i].status.Planned? && p.leaves[i].work.dependsOn == []
    requires PlannedUsage(p.tree, p.leaves, BudgetOf(p, cfg), p.usage, i) == u
    requires CheckAdmission(BudgetOf(p, cfg), u, p.leaves[i].work.spec.request).None?
    ensures Submits(p, cfg, i)
    ensures PlannedUsage(p.tree, p.leaves, BudgetOf(p, cfg), p.usage, i + 1)
      == Reserve(u, p.leaves[i].work.spec.request)
  {
  }

  lemma {:induction false} ThreeFreeLeavesSubmit(p: Campaign, cfg: Config, u: Usage, v: Usage)
    requires |p.leaves| == 3 && p.usage.running == CountInFlight(p.leaves)
    requires forall i :: 0 <= i < 3 ==> p.leaves[i].status.Planned? && p.leaves[i].work.dependsOn == []
    requires u == Reserve(p.usage, p.leaves[0].work.spec.request) && v == Reserve(u, p.leaves[1].work.spec.request)
    requires CheckAdmission(BudgetOf(p, cfg), p.usage, p.leaves[0].work.spec.request).None?
    requires CheckAdmission(BudgetOf(p, cfg), u, p.leaves[1].work.spec.request).None?
    requires CheckAdmission(BudgetOf(p, cfg), v, p.leaves[2].work.spec.request).None?
    ensures Submits(p, cfg, 0) && Submits(p, cfg, 1) && Submits(p, cfg, 2)
  {
    FreeLeafSubmits(p, cfg, 0, p.usage);
    FreeLeafSubmits(p, cfg, 1, u);
    FreeLeafSubmits(p, cfg, 2, v);
  }

  /** Under a cap on one resource alone, a request is admitted exactly if it fits. */
  lemma {:induction false} OneCapAdmits(cap: real, u: Usage, hours: real, res: Resource)
    ensures CheckAdmission(OneCap(cap, res), u, RequestOf(hours, res)).None? <==> Used(u, res) + hours <= cap
    ensures Used(Reserve(u, RequestOf(hours, res)), res) == Used(u, res) + hours
  {
  }

  lemma {:induction false} ThreeAdmitted(res: Resource, u: Usage, v: Usage)
    requires u == Reserve(NO_USAGE, RequestOf(10.0, res)) && v == Reserve(u, RequestOf(-5.0, res))
    ensures CheckAdmission(OneCap(10.0, res), NO_USAGE, RequestOf(10.0, res)).None?
    ensures CheckAdmission(OneCap(10.0, res), u, RequestOf(-5.0, res)).None?
    ensures CheckAdmission(OneCap(10.0, res), v, RequestOf(5.0, res)).None?
  {
    OneCapAdmits(10.0, NO_USAGE, 10.0, res);
    OneCapAdmits(10.0, u, -5.0, res);
    OneCapAdmits(10.0, v, 5.0, res);
  }

  lemma {:induction false} ThreeRequests(res: Resource, c: Campaign)
    requires Three(c, res)
    ensures forall i :: 0 <= i < 3 ==> c.leaves[i].status.Planned? && c.leaves[i].work.dependsOn == []
    ensures c.leaves[0].work.spec.request == RequestOf(10.0, res)
    ensures c.leaves[1].work.spec.request == RequestOf(-5.0, res)
    ensures c.leaves[2].work.spec.request == RequestOf(5.0, res)
  {
  }

  lemma {:induction false} ThreeSubmit(res: Resource, c: Campaign)
    requires Three(c, res)
    ensures Submits(c, OPEN_CONFIG, 0) && Submits(c, OPEN_CONFIG, 1) && Submits(c, OPEN_CONFIG, 2)
  {
    var u := Reserve(NO_USAGE, RequestOf(10.0, res));
    var v := Reserve(u, RequestOf(-5.0, res));
    NoneInFlight(c.leaves);
    ThreeAdmitted(res, u, v);
    assert BudgetOf(c, OPEN_CONFIG) == OneCap(10.0, res);
    ThreeRequests(res, c);
    ThreeFreeLeavesSubmit(c, OPEN_CONFIG, u, v);
  }

  lemma {:induction false} DistinctPayloadsScan(p: Campaign, cfg: Config)
    requires forall i, j :: 0 <= i < j < |p.leaves| ==> WireOf(p.leaves[i].work.spec) != WireOf(p.leaves[j].work.spec)
    ensures !HasDuplicates(p, cfg)
  {
  }

  lemma {:induction false} ThreeSubmissions(ls: seq<Leaf>, steps: seq<Step>, res: Resource)
    requires |ls| == |steps| == 3 && steps[0].action == steps[1].action == steps[2].action == Submit
    ensures Submissions(steps, 3) == 3
    ensures WorstUsage(0.0, ls, steps, 2, res) == Max(0.0, Estimate(ls[0], res)) + Max(0.0, Estimate(ls[1], res))
  {
    assert WorstUsage(0.0, ls, steps, 0, res) == 0.0 && Submissions(steps, 0) == 0;
    assert WorstUsage(0.0, ls, steps, 1, res) == Max(0.0, Estimate(ls[0], res));
    assert Submissions(steps, 1) == 1;
    assert Submissions(steps, 2) == 2;
  }

  lemma {:induction false} FreeGates(d: Durable, env: Env, cfg: Config, p: Campaign, f: Campaign)
    requires d.disk.Valid() && p == Prepare(d.disk, env) && f == First(d.disk, env)
    requires |f.leaves| == |p.leaves| == Count(d.disk.tree) && d.disk.state.LifeRunning? && !HasDuplicates(p, cfg)
    requires Submissions(Steps(p, cfg), |p.leaves|) <= cfg.policy.maxSubmitsPerTick
    requires 2 * Submissions(Steps(p, cfg), |p.leaves|) < env.life
    requires !cfg.policy.requireApproval && cfg.policy.approveOverCoreHours.None?
    requires forall i :: 0 <= i < |f.leaves| ==> !f.leaves[i].work.requiresApproval
    ensures GatesOpen(d, env, cfg)
  {
  }

  lemma {:induction false} ThreePlanned(res: Resource, c: Campaign, steps: seq<Step>)
    requires Three(c, res) && steps == Steps(c, OPEN_CONFIG)
    ensures Submissions(steps, 3) == 3
  {
    ThreeSubmit(res, c);
    ThreeSubmissions(c.leaves, steps, res);
  }

  lemma {:induction false} ThreeOpen(res: Resource, d: Durable, env: Env, f: Campaign)
    requires Three(d.disk, res) && env == QuietEnv([]) && f == First(d.disk, env)
    ensures GatesOpen(d, env, OPEN_CONFIG)
  {
    ThreePrepared(res, d.disk, []);
    ThreePlanned(res, d.disk, Steps(d.disk, OPEN_CONFIG));
    DistinctPayloadsScan(d.disk, OPEN_CONFIG);
    FirstFrame(d.disk, env);
    FreeGates(d, env, OPEN_CONFIG, d.disk, f);
  }

  lemma {:induction false} ThreeMisfit(res: Resource, c: Campaign)
    requires Three(c, res)
    ensures Misfit(c, OPEN_CONFIG, 10.0, res, 2)
  {
    ThreeSubmit(res, c);
    ThreeSubmissions(c.leaves, Steps(c, OPEN_CONFIG), res);
  }

  lemma {:induction false} ThreeAdverse(res: Resource, c: Campaign)
    requires Three(c, res)
    ensures Adverse(c.leaves, 2, res)
      == [Fate(true, "", Ack), Fate(false, "", Refused(NO_REASON)), Fate(true, "", Ack)]
  {
  }

  lemma {:induction false} MisfitOvershoots(d: Durable, env: Env, cfg: Config, cap: real, res: Resource, m: nat, e: Env)
    requires d.disk.Valid() && GatesOpen(d, env, cfg) && Prepare(d.disk, env) == d.disk
    requires Misfit(d.disk, cfg, cap, res, m) && e == env.(fates := Adverse(d.disk.leaves, m, res))
    ensures Used(Reached(d, e, cfg, m + 1).mem.usage, res) > cap
  {
    MisfitBreaksCap(d, env, cfg, cap, res, m);
  }

  lemma {:induction false} ThreeOvershoot(res: Resource, d: Durable, env: Env, e: Env, m: nat)
    requires Three(d.disk, res) && env == QuietEnv([]) && m == 2
    requires e == env.(fates := Adverse(d.disk.leaves, m, res))
    ensures Used(Reached(d, e, OPEN_CONFIG, m + 1).mem.usage, res) > 10.0
  {
    ThreePrepared(res, d.disk, []);
    ThreeOpen(res, d, env, First(d.disk, env));
    ThreeMisfit(res, d.disk);
    MisfitOvershoots(d, env, OPEN_CONFIG, 10.0, res, m, e);
  }

  lemma {:induction false} ThreeAnswered(res: Resource, c: Campaign, env: Env, e: Env)
    requires Three(c, res) && env == QuietEnv([])
    requires e == QuietEnv([Fate(true, "", Ack), Fate(false, "", Refused(NO_REASON)), Fate(true, "", Ack)])
    ensures e == env.(fates := Adverse(c.leaves, 2, res))
  {
    ThreeAdverse(res, c);
  }

  /** The planner admits all three of them (10, then 5, then 10 hours). */
  lemma {:induction false} NegativeEstimateIsPlanned(res: Resource, c: Campaign, fates: seq<Fate>)
    requires Three(c, res)
    ensures CapOf(BudgetOf(c, OPEN_CONFIG), res) == Some(10.0) && Prepare(c, QuietEnv(fates)) == c
    ensures Submits(c, OPEN_CONFIG, 0) && Submits(c, OPEN_CONFIG, 1) && Submits(c, OPEN_CONFIG, 2)
  {
    ThreePrepared(res, c, fates);
    ThreeSubmit(res, c);
  }

  /** When the cluster accepts the first and the last of them and refuses the one in between, the campaign has used more
      than its 10 core hours, or GPU hours.  `ThreeLeaves` is such a campaign. */
  lemma {:induction false} NegativeEstimateBreaksCap(res: Resource, d: Durable, e: Env, m: nat)
    requires Three(d.disk, res) && m + 1 == |d.disk.leaves|
    requires e == QuietEnv([Fate(true, "", Ack), Fate(false, "", Refused(NO_REASON)), Fate(true, "", Ack)])
    ensures Used(Reached(d, e, OPEN_CONFIG, m + 1).mem.usage, res) > 10.0
  {
    var env := QuietEnv([]);
    ThreeAnswered(res, d.disk, env, e);
    ThreeOvershoot(res, d, env, e, m);
  }
}

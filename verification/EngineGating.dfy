/** What a tick may launch, and how a failure travels down a chain of dependencies. */
module EngineGating {
  import opened Agenda
  import opened Campaign
  import opened Planner
  import opened Engine
  import opened EngineSafety

  // ---------------------------------------------------------------------------
  // Every launch is gated

  /** Every job the run has started is the job of a leaf that was to be submitted and passed the gates; so is every
      leaf it has submitted, also when the cluster replayed a job it knew. */
  ghost predicate LaunchesGated(start: Run, steps: seq<Step>, env: Env, cfg: Config, r: Run)
    requires start.mem.Valid() && |steps| == |start.mem.leaves|
  {
    && (forall k :: k in r.jobs && k !in start.jobs ==>
          exists i: nat :: i < |steps| && Launchable(start, steps, env, cfg, i) && k == start.mem.Key(i))
    && forall i :: i in r.submitted ==> i < |steps| && Launchable(start, steps, env, cfg, i)
  }

  predicate Launchable(start: Run, steps: seq<Step>, env: Env, cfg: Config, i: nat)
    requires start.mem.Valid() && |steps| == |start.mem.leaves| && i < |steps|
  {
    && steps[i].action == Submit && start.mem.state.LifeRunning? && start.life > 0
    && MaySubmit(start.mem.Path(i), start.mem.leaves[i], env, cfg.policy)
  }

  lemma StepJobs(start: Run, r: Run, i: nat, steps: seq<Step>, env: Env, cfg: Config)
    requires |steps| == |start.mem.leaves| && i < |steps| && Framed(start, r, i) && r.life <= start.life
    ensures var s := ExecStep(r, i, steps[i], env, cfg);
      && s.life <= start.life
      && (s.jobs == r.jobs
          || (Launchable(start, steps, env, cfg, i) && forall k :: k in s.jobs ==>
            k in r.jobs || k == start.mem.Key(i)))
      && (s.submitted == r.submitted || (Launchable(start, steps, env, cfg, i) && s.submitted == r.submitted + [i]))
  {
    assert r.mem.leaves[i] == start.mem.leaves[i];
    assert r.mem.Key(i) == start.mem.Key(i);
  }

  lemma StepLaunchesGated(start: Run, r: Run, i: nat, steps: seq<Step>, env: Env, cfg: Config)
    requires |steps| == |start.mem.leaves| && i < |steps| && Framed(start, r, i) && r.life <= start.life
    requires start.mem.Valid() && LaunchesGated(start, steps, env, cfg, r)
    ensures var s := ExecStep(r, i, steps[i], env, cfg);
      s.life <= start.life && LaunchesGated(start, steps, env, cfg, s)
  {
    StepJobs(start, r, i, steps, env, cfg);
  }

  lemma {:induction false} ExecLaunchesGated(start: Run, steps: seq<Step>, env: Env, cfg: Config, i: nat)
    requires |steps| == |start.mem.leaves| && Framed(start, start, 0) && i <= |steps| && start.submitted == []
    ensures var r := Exec(start, steps, env, cfg, i); r.life <= start.life && LaunchesGated(start, steps, env, cfg, r)
  {
    var inv := (k: nat, r: Run) => k <= |steps| && Framed(start, r, k) && r.life <= start.life
        && LaunchesGated(start, steps, env, cfg, r);
    forall k: nat, r: Run | k < |steps| && inv(k, r) ensures inv(k + 1, ExecStep(r, k, steps[k], env, cfg)) {
      FramedStep(start, r, k, steps[k], env, cfg);
      StepLaunchesGated(start, r, k, steps, env, cfg);
    }
    ExecInvariant(start, steps, env, cfg, inv, i);
  }

  /** Somebody asks for this leaf to be approved: the leaf, the policy, or the policy for leaves that cost so much. */
  predicate AsksApproval(l: Leaf, policy: Policy) {
    || l.work.requiresApproval || policy.requireApproval
    || (policy.approveOverCoreHours.Some? && l.work.spec.request.coreHours > policy.approveOverCoreHours.value)
  }

  /** It is approved, for good or for this tick. */
  predicate GivenApproval(path: Path, l: Leaf, env: Env) {
    l.approved || path in env.preApproved
  }

  predicate Cleared(path: Path, l: Leaf, env: Env, policy: Policy) {
    AsksApproval(l, policy) ==> GivenApproval(path, l, env)
  }

  /** The approval gate opens exactly for leaves nobody asks to approve and for approved ones. */
  lemma MaySubmitExactly(path: Path, l: Leaf, env: Env, policy: Policy)
    ensures MaySubmit(path, l, env, policy) <==> Cleared(path, l, env, policy)
  {
  }

  lemma {:induction false} FirstKeepsApproval(c: Campaign, env: Env, i: nat)
    requires c.Valid() && i < |c.leaves|
    ensures |First(c, env).leaves| == |c.leaves| && First(c, env).leaves[i].approved == c.leaves[i].approved
    ensures First(c, env).leaves[i].work == c.leaves[i].work
  {
    FirstFrame(c, env);
    PrepareLeaf(c, env, i);
    assert SameBooks(First(c, env).leaves[i], Prepare(c, env).leaves[i]);
  }

  /** Leaf `i` may be launched by the tick: it is planned, the campaign runs, approval is given, and every dependency is
      a subtree the first save of the tick had already written as wholly done. */
  ghost predicate Gate(d: Durable, env: Env, cfg: Config, i: nat)
    requires d.disk.Valid() && i < |d.disk.leaves|
  {
    var f := First(d.disk, env);
    && d.disk.state.LifeRunning? && d.disk.leaves[i].status.Planned?
    && Start(d, env).disk == f && |f.leaves| == |d.disk.leaves|
    && Cleared(d.disk.Path(i), d.disk.leaves[i], env, cfg.policy)
    && forall dep :: dep in d.disk.leaves[i].work.dependsOn ==> DependencyDone(d.disk.tree, f.leaves, i, dep)
  }

  lemma FirstStatuses(c: Campaign, env: Env)
    requires c.Valid()
    ensures var p, f := Prepare(c, env), First(c, env);
      && |p.leaves| == |f.leaves| == |c.leaves| && p.tree == f.tree == c.tree
      && forall j :: 0 <= j < |c.leaves| ==>
        p.leaves[j].status == f.leaves[j].status && p.leaves[j].work == c.leaves[j].work
  {
    FirstFrame(c, env);
    PrepareFrame(c, env);
    var p, f := Prepare(c, env), First(c, env);
    forall j | 0 <= j < |c.leaves|
      ensures p.leaves[j].status == f.leaves[j].status
    {
      assert SameBooks(f.leaves[j], p.leaves[j]);
    }
  }

  lemma SubmitNeedsDependencies(c: Campaign, env: Env, cfg: Config, i: nat)
    requires c.Valid() && i < |c.leaves| && Submits(Prepare(c, env), cfg, i)
    ensures forall dep :: dep in c.leaves[i].work.dependsOn ==> DependencyDone(c.tree, First(c, env).leaves, i, dep)
  {
    var p, f := Prepare(c, env), First(c, env);
    FirstStatuses(c, env);
    PlannedActs(p, cfg, i);
    PlanRespectsDependencies(p.tree, p.leaves, i, BudgetOf(p, cfg),
      PlannedUsage(p.tree, p.leaves, BudgetOf(p, cfg), p.usage, i));
    forall dep | dep in c.leaves[i].work.dependsOn ensures DependencyDone(c.tree, f.leaves, i, dep) {
      assert dep in p.leaves[i].work.dependsOn;
    }
  }

  lemma SubmittedWasPlanned(c: Campaign, env: Env, cfg: Config, i: nat)
    requires c.Valid() && i < |c.leaves| && Submits(Prepare(c, env), cfg, i)
    ensures c.leaves[i].status.Planned?
  {
    PlannedActs(Prepare(c, env), cfg, i);
    PrepareLeaf(c, env, i);
  }

  lemma {:induction false} SubmitIsGated(d: Durable, env: Env, cfg: Config, i: nat)
    requires d.disk.Valid() && i < |d.disk.leaves|
    requires Launchable(Start(d, env), Steps(Prepare(d.disk, env), cfg), env, cfg, i)
    ensures Gate(d, env, cfg, i)
  {
    FirstFrame(d.disk, env);
    FirstKeepsApproval(d.disk, env, i);
    MaySubmitExactly(d.disk.Path(i), First(d.disk, env).leaves[i], env, cfg.policy);
    SubmitNeedsDependencies(d.disk, env, cfg, i);
    SubmittedWasPlanned(d.disk, env, cfg, i);
  }

  /** Whatever a tick launched, it launched for a leaf whose gate was open; while paused or stopped it launches nothing.
      Every leaf the tick submitted had its gate open, a retry that replays a job the cluster knows included. */
  lemma TickLaunchesGated(d: Durable, env: Env, cfg: Config)
    requires d.disk.Valid()
    ensures forall i :: i in TickRun(d, env, cfg).submitted ==> i < |d.disk.leaves| && Gate(d, env, cfg, i)
    ensures forall k :: k in Tick(d, env, cfg).jobs && k !in d.jobs ==>
      exists i: nat :: i < |d.disk.leaves| && Gate(d, env, cfg, i) && k == d.disk.Key(i)
  {
    var start, steps := Start(d, env), Steps(Prepare(d.disk, env), cfg);
    TickStarts(d, env, cfg);
    ExecLaunchesGated(start, steps, env, cfg, |steps|);
    forall i: nat | i < |steps| && Launchable(start, steps, env, cfg, i) ensures Gate(d, env, cfg, i) {
      SubmitIsGated(d, env, cfg, i);
    }
    var gate := (i: nat) => i < |d.disk.leaves| && Gate(d, env, cfg, i);
    LaunchesAreGates(d.disk, start, steps, env, cfg, TickRun(d, env, cfg), gate);
  }

  lemma {:induction false} LaunchesAreGates(c: Campaign, start: Run, steps: seq<Step>, env: Env, cfg: Config, r: Run,
      gate: nat -> bool)
    requires c.Valid() && start.mem.Valid() && SameWork(c, start.mem) && |steps| == |c.leaves|
    requires forall i: nat | i < |steps| && Launchable(start, steps, env, cfg, i) :: gate(i)
    requires LaunchesGated(start, steps, env, cfg, r)
    ensures forall i :: i in r.submitted ==> i < |c.leaves| && gate(i)
    ensures forall k :: k in r.jobs && k !in start.jobs ==> exists i: nat :: i < |c.leaves| && gate(i) && k == c.Key(i)
  {
    forall k | k in r.jobs && k !in start.jobs
      ensures exists i: nat :: i < |c.leaves| && gate(i) && k == c.Key(i)
    {
      var i: nat :| i < |steps| && Launchable(start, steps, env, cfg, i) && k == start.mem.Key(i);
      assert gate(i) && c.Key(i) == k;
    }
  }

  /** A tick of a campaign that is paused or stopped leaves the cluster exactly as it was. */
  lemma HeldTickLaunchesNothing(d: Durable, env: Env, cfg: Config)
    requires d.disk.Valid() && !d.disk.state.LifeRunning?
    ensures Tick(d, env, cfg).jobs == d.jobs && Tick(d, env, cfg).launched == d.launched
      && Tick(d, env, cfg).disk.state == d.disk.state
  {
    if !HasDuplicates(Prepare(d.disk, env), cfg) {
      TickStarts(d, env, cfg);
      FirstFrame(d.disk, env);
      HeldExec(d, Start(d, env), Steps(Prepare(d.disk, env), cfg), env, cfg);
    }
  }

  ghost predicate Held(d: Durable, r: Run) {
    r.jobs == d.jobs && r.launched == d.launched && r.disk.state == d.disk.state && r.mem.state == d.disk.state
  }

  lemma HeldExec(d: Durable, start: Run, steps: seq<Step>, env: Env, cfg: Config)
    requires |steps| == |start.mem.leaves| && Framed(start, start, 0) && Held(d, start) && !d.disk.state.LifeRunning?
    ensures Held(d, Save(Exec(start, steps, env, cfg, |steps|)))
  {
    var inv := (k: nat, r: Run) => k <= |steps| && Framed(start, r, k) && Held(d, r);
    forall k: nat, r: Run | k < |steps| && inv(k, r) ensures inv(k + 1, ExecStep(r, k, steps[k], env, cfg)) {
      FramedStep(start, r, k, steps[k], env, cfg);
    }
    ExecInvariant(start, steps, env, cfg, inv, |steps|);
  }

  // ---------------------------------------------------------------------------
  // A failed dependency

  /** What its step makes of a leaf that is not submitted. */
  ghost predicate Settled(l: Leaf, step: Step, m: Leaf) {
    && (step.action == MarkFailed && !l.status.Done? ==> m.status.Failed?)
    && (step.action == Wait ==> m == l)
  }

  lemma StepSettles(r: Run, i: nat, step: Step, env: Env, cfg: Config)
    requires r.mem.Valid() && i < |r.mem.leaves| && r.life > 0
    ensures Settled(r.mem.leaves[i], step, ExecStep(r, i, step, env, cfg).mem.leaves[i])
  {
  }

  /** In a completed run of steps a planned leaf marked failed ends failed, and a waiting leaf is untouched. */
  lemma LeafSettles(start: Run, steps: seq<Step>, env: Env, cfg: Config, i: nat)
    requires |steps| == |start.mem.leaves| && Framed(start, start, 0) && i < |steps|
    requires Exec(start, steps, env, cfg, |steps|).life > 0
    ensures Settled(start.mem.leaves[i], steps[i], Exec(start, steps, env, cfg, |steps|).mem.leaves[i])
  {
    var inv := (k: nat, r: Run) => k <= |steps| && Framed(start, r, k)
        && (k > i && r.life > 0 ==> Settled(start.mem.leaves[i], steps[i], r.mem.leaves[i]));
    forall k: nat, r: Run | k < |steps| && inv(k, r) ensures inv(k + 1, ExecStep(r, k, steps[k], env, cfg)) {
      FramedStep(start, r, k, steps[k], env, cfg);
      StepTouches(r, k, steps[k], env, cfg);
      StepDisk(r, k, steps[k], env, cfg);
      if k == i && r.life > 0 { StepSettles(r, i, steps[i], env, cfg); }
    }
    ExecInvariant(start, steps, env, cfg, inv, |steps|);
  }

  /** Some dependency of leaf `i` covers leaf `j`. */
  ghost predicate DependsOn(tree: Kids, ls: seq<Leaf>, i: nat, j: nat)
    requires i < |ls| == Count(tree)
  {
    exists dep :: dep in ls[i].work.dependsOn && Named(tree, i, dep, j)
  }

  /** Neither an observation nor reuse moves leaf `i` in this tick. */
  ghost predicate Quiet(c: Campaign, env: Env, i: nat)
    requires i < |c.leaves|
  {
    ReuseLeaf(FoldLeaf(c.leaves, i, env.observed), env.reuse).status == c.leaves[i].status
  }

  lemma CompletedTickSettles(d: Durable, env: Env, cfg: Config, i: nat)
    requires d.disk.Valid() && Completes(d, env, cfg) && i < |d.disk.leaves|
    ensures var e := Tick(d, env, cfg).disk;
      |e.leaves| == |d.disk.leaves|
        && Settled(First(d.disk, env).leaves[i], PlanStep(Prepare(d.disk, env), cfg, i), e.leaves[i])
  {
    var start, steps := Start(d, env), Steps(Prepare(d.disk, env), cfg);
    TickStarts(d, env, cfg);
    LeafSettles(start, steps, env, cfg, i);
    ExecFrame(start, steps, env, cfg, |steps|);
  }

  /** One completed tick, running or paused: a failed leaf stays failed. */
  lemma FailedLeafStaysFailed(d: Durable, env: Env, cfg: Config, i: nat)
    requires d.disk.Valid() && Completes(d, env, cfg) && i < |d.disk.leaves| && Quiet(d.disk, env, i)
      && d.disk.leaves[i].status.Failed?
    ensures i < |Tick(d, env, cfg).disk.leaves| && Tick(d, env, cfg).disk.leaves[i].status.Failed?
  {
    CompletedTickSettles(d, env, cfg, i);
    assert PlanStep(Prepare(d.disk, env), cfg, i).action == MarkFailed;
  }

  /** One completed tick, running or paused: a planned leaf that depends on an undone one is not submitted and is
      planned or failed after; if the other has failed, it fails. */
  lemma CompletedTickPropagates(d: Durable, env: Env, cfg: Config, i: nat, j: nat)
    requires d.disk.Valid() && Completes(d, env, cfg)
    requires i < |d.disk.leaves| && Quiet(d.disk, env, i) && d.disk.leaves[i].status.Planned?
    requires j < |d.disk.leaves| && Quiet(d.disk, env, j) && !d.disk.leaves[j].status.Done?
    requires DependsOn(d.disk.tree, d.disk.leaves, i, j)
    ensures i < |Prepare(d.disk, env).leaves| && !Submits(Prepare(d.disk, env), cfg, i)
    ensures var e := Tick(d, env, cfg).disk;
      && i < |e.leaves|
      && (e.leaves[i].status.Planned? || e.leaves[i].status.Failed?)
      && (d.disk.leaves[j].status.Failed? ==> e.leaves[i].status.Failed?)
  {
    var p := Prepare(d.disk, env);
    CompletedTickSettles(d, env, cfg, i);
    PrepareFrame(d.disk, env);
    UndoneDependencyHolds(p, cfg, i, j);
  }

  lemma UndoneDependencyHolds(p: Campaign, cfg: Config, i: nat, j: nat)
    requires p.Valid() && i < |p.leaves| && j < |p.leaves|
    requires p.leaves[i].status.Planned? && DependsOn(p.tree, p.leaves, i, j)
    ensures p.leaves[j].status.Failed? ==> PlanStep(p, cfg, i).action == MarkFailed
    ensures !p.leaves[j].status.Done? ==> PlanStep(p, cfg, i).action == MarkFailed || PlanStep(p, cfg, i).action == Wait
  {
    var dep :| dep in p.leaves[i].work.dependsOn && Named(p.tree, i, dep, j);
    PlanRespectsDependencies(p.tree, p.leaves, i, BudgetOf(p, cfg),
      PlannedUsage(p.tree, p.leaves, BudgetOf(p, cfg), p.usage, i));
    if p.leaves[j].status.Failed? { assert DependencyFailing(p.tree, p.leaves, i, dep); }
    if !p.leaves[j].status.Done? { assert !DependencyDone(p.tree, p.leaves, i, dep); }
  }

  // ---------------------------------------------------------------------------
  // Chains of dependencies

  /** Each leaf of the chain depends on the one before it. */
  ghost predicate Chain(c: Campaign, chain: seq<nat>)
    requires c.Valid()
  {
    && (forall k :: 0 <= k < |chain| ==> chain[k] < |c.leaves|)
    && forall k :: 1 <= k < |chain| ==> DependsOn(c.tree, c.leaves, chain[k], chain[k - 1])
  }

  /** The first `n` leaves of the chain have failed and the others are planned, or failed too. */
  ghost predicate FailedUpTo(c: Campaign, chain: seq<nat>, n: nat) {
    forall k | 0 <= k < |chain| ::
      && chain[k] < |c.leaves|
      && (c.leaves[chain[k]].status.Failed? || (k >= n && c.leaves[chain[k]].status.Planned?))
  }

  ghost predicate QuietChain(c: Campaign, env: Env, chain: seq<nat>) {
    forall k :: 0 <= k < |chain| && chain[k] < |c.leaves| ==> Quiet(c, env, chain[k])
  }

  /** One completed tick fails one more leaf of the chain. */
  lemma TickFailsNext(d: Durable, env: Env, cfg: Config, chain: seq<nat>, n: nat)
    requires d.disk.Valid() && Completes(d, env, cfg) && n > 0
    requires Chain(d.disk, chain) && FailedUpTo(d.disk, chain, n) && QuietChain(d.disk, env, chain)
    ensures FailedUpTo(Tick(d, env, cfg).disk, chain, n + 1)
  {
    var e := Tick(d, env, cfg).disk;
    forall k | 0 <= k < |chain|
      ensures chain[k] < |e.leaves|
        && (e.leaves[chain[k]].status.Failed? || (k >= n + 1 && e.leaves[chain[k]].status.Planned?))
    {
      if d.disk.leaves[chain[k]].status.Failed? {
        FailedLeafStaysFailed(d, env, cfg, chain[k]);
      } else {
        CompletedTickPropagates(d, env, cfg, chain[k], chain[k - 1]);
      }
    }
  }

  /** No tick, crashed or not, launches a leaf of the chain. */
  lemma TickLaunchesNoneOf(d: Durable, env: Env, cfg: Config, chain: seq<nat>, n: nat, k: nat)
    requires d.disk.Valid() && n > 0 && k < |chain|
    requires Chain(d.disk, chain) && FailedUpTo(d.disk, chain, n) && QuietChain(d.disk, env, chain)
    ensures d.disk.Key(chain[k]) in Tick(d, env, cfg).jobs ==> d.disk.Key(chain[k]) in d.jobs
  {
    TickLaunchesGated(d, env, cfg);
    ChainIsClosed(d, env, cfg, chain, n, k);
    NoGateNoLaunch(d, env, cfg, chain[k], Tick(d, env, cfg).jobs);
  }

  lemma ChainIsClosed(d: Durable, env: Env, cfg: Config, chain: seq<nat>, n: nat, k: nat)
    requires d.disk.Valid() && n > 0 && k < |chain|
    requires Chain(d.disk, chain) && FailedUpTo(d.disk, chain, n) && QuietChain(d.disk, env, chain)
    ensures chain[k] < |d.disk.leaves| && !Gate(d, env, cfg, chain[k])
  {
    if d.disk.leaves[chain[k]].status.Planned? { ClosedGate(d, env, cfg, chain[k], chain[k - 1]); }
  }

  lemma NoGateNoLaunch(d: Durable, env: Env, cfg: Config, m: nat, jobs: map<CmdId, SimId>)
    requires d.disk.Valid() && m < |d.disk.leaves| && !Gate(d, env, cfg, m)
    requires forall key :: key in jobs && key !in d.jobs ==> exists i: nat ::
      i < |d.disk.leaves| && Gate(d, env, cfg, i) && key == d.disk.Key(i)
    ensures d.disk.Key(m) in jobs ==> d.disk.Key(m) in d.jobs
  {
    var key := d.disk.Key(m);
    if key in jobs && key !in d.jobs {
      var i: nat :| i < |d.disk.leaves| && Gate(d, env, cfg, i) && key == d.disk.Key(i);
      KeysDistinct(d.disk, i, m);
    }
  }

  lemma ClosedGate(d: Durable, env: Env, cfg: Config, i: nat, j: nat)
    requires d.disk.Valid() && i < |d.disk.leaves| && j < |d.disk.leaves|
    requires DependsOn(d.disk.tree, d.disk.leaves, i, j) && Quiet(d.disk, env, j) && !d.disk.leaves[j].status.Done?
    ensures !Gate(d, env, cfg, i)
  {
    var dep :| dep in d.disk.leaves[i].work.dependsOn && Named(d.disk.tree, i, dep, j);
    assert !DependencyDone(d.disk.tree, First(d.disk, env).leaves, i, dep);
  }

  /** A run of ticks, each over its own environment and configuration. */
  datatype Turn = Turn(env: Env, cfg: Config)

  ghost function Ticks(d: Durable, turns: seq<Turn>): (e: Durable)
    requires d.disk.Valid()
    ensures e.disk.Valid()
    decreases |turns|
  {
    if turns == [] then d
    else
      TickKeepsWork(d, turns[0].env, turns[0].cfg);
      Ticks(Tick(d, turns[0].env, turns[0].cfg), turns[1..])
  }

  /** Every tick completes, and none of them moves the chain by observation or reuse. */
  ghost predicate QuietTicks(d: Durable, turns: seq<Turn>, chain: seq<nat>)
    requires d.disk.Valid()
    decreases |turns|
  {
    if turns == [] then true
    else
      TickKeepsWork(d, turns[0].env, turns[0].cfg);
      && Completes(d, turns[0].env, turns[0].cfg) && QuietChain(d.disk, turns[0].env, chain)
      && QuietTicks(Tick(d, turns[0].env, turns[0].cfg), turns[1..], chain)
  }

  ghost predicate NoneLaunched(c: Campaign, chain: seq<nat>, before: map<CmdId, SimId>, after: map<CmdId, SimId>)
    requires c.Valid()
  {
    forall k | 0 <= k < |chain| && chain[k] < |c.leaves| :: c.Key(chain[k]) in after ==> c.Key(chain[k]) in before
  }

  lemma TickMovesChain(d: Durable, env: Env, cfg: Config, chain: seq<nat>, n: nat)
    requires d.disk.Valid() && n > 0 && Completes(d, env, cfg)
    requires Chain(d.disk, chain) && FailedUpTo(d.disk, chain, n) && QuietChain(d.disk, env, chain)
    ensures var e := Tick(d, env, cfg);
      && e.disk.Valid() && SameWork(d.disk, e.disk)
      && Chain(e.disk, chain) && FailedUpTo(e.disk, chain, n + 1) && NoneLaunched(d.disk, chain, d.jobs, e.jobs)
  {
    TickKeepsWork(d, env, cfg);
    TickFailsNext(d, env, cfg, chain, n);
    forall k: nat | k < |chain|
      ensures d.disk.Key(chain[k]) in Tick(d, env, cfg).jobs ==> d.disk.Key(chain[k]) in d.jobs
    {
      TickLaunchesNoneOf(d, env, cfg, chain, n, k);
    }
  }

  /** Behind a failed leaf a chain of planned leaves fails one leaf per completed tick, whether the campaign runs, is
      paused or is stopped, and none of them is ever launched. */
  lemma {:induction false} FailureTravelsDownTheChain(d: Durable, turns: seq<Turn>, chain: seq<nat>, n: nat)
    requires d.disk.Valid() && n > 0 && Chain(d.disk, chain) && FailedUpTo(d.disk, chain, n)
      && QuietTicks(d, turns, chain)
    ensures FailedUpTo(Ticks(d, turns).disk, chain, n + |turns|)
    ensures NoneLaunched(d.disk, chain, d.jobs, Ticks(d, turns).jobs)
    decreases |turns|
  {
    if turns != [] {
      var e := Tick(d, turns[0].env, turns[0].cfg);
      TickMovesChain(d, turns[0].env, turns[0].cfg, chain, n);
      FailureTravelsDownTheChain(e, turns[1..], chain, n + 1);
    }
  }
}

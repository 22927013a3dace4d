/** What every save of every tick keeps: run identities, exactly-once launches. */
module EngineSafety {
  import opened Prelude
  import opened Agenda
  import opened Campaign
  import opened Planner
  import opened Engine

  // ---------------------------------------------------------------------------
  // Frame: what a tick never touches

  /** `e` is `c` with leaf `i` rewritten, its work kept, and callbacks only appended. */
  ghost predicate Touches(c: Campaign, e: Campaign, i: nat) {
    && i < |c.leaves| && |e.leaves| == |c.leaves|
    && e.name == c.name && e.tree == c.tree && e.budget == c.budget && e.state == c.state
    && e.leaves == c.leaves[i := e.leaves[i]]
    && e.leaves[i].work == c.leaves[i].work
    && c.callbacks <= e.callbacks
  }

  lemma {:induction false} StepTouches(r: Run, i: nat, step: Step, env: Env, cfg: Config)
    requires r.mem.Valid() && i < |r.mem.leaves|
    ensures Touches(r.mem, ExecStep(r, i, step, env, cfg).mem, i)
  {
  }

  lemma StepDisk(r: Run, i: nat, step: Step, env: Env, cfg: Config)
    requires r.mem.Valid() && i < |r.mem.leaves|
    ensures var r' := ExecStep(r, i, step, env, cfg);
      (r'.disk == r.disk || (r'.disk == r'.mem && r.life > 0)) && r'.life <= r.life
  {
  }

  lemma PrepareFrame(c: Campaign, env: Env)
    requires c.Valid()
    ensures var p := Prepare(c, env);
      p.Valid() && SameWork(c, p) && p.budget == c.budget && p.state == c.state && p.callbacks == c.callbacks
  {
  }

  lemma PrepareLeaf(c: Campaign, env: Env, i: nat)
    requires i < |c.leaves|
    ensures Prepare(c, env).leaves[i]
      == ReconcileLeaf(ReuseLeaf(FoldLeaf(c.leaves, i, env.observed), env.reuse), env.actuals)
  {
  }

  lemma {:induction false} ReconcileKeepsSubmitted(ls: seq<Leaf>, u: Usage, actuals: map<SimId, Actual>, i: nat)
    requires i <= |ls|
    ensures ReconciledUsage(ls, u, actuals, i).submitted == u.submitted
  {
    if i > 0 { ReconcileKeepsSubmitted(ls, u, actuals, i - 1); }
  }

  /** Nothing before the steps changes how many jobs are counted. */
  lemma {:induction false} PrepareKeepsSubmitted(c: Campaign, env: Env)
    ensures Prepare(c, env).usage.submitted == c.usage.submitted
  {
    var ls := Reused(Fold(c.leaves, env.observed), env.reuse);
    ReconcileKeepsSubmitted(ls, c.usage.(running := CountInFlight(ls)), env.actuals, |ls|);
  }

  /** The same record up to the failure reason and the health flag. */
  ghost predicate SameBooks(l: Leaf, m: Leaf) {
    l == m.(reason := l.reason, suspect := l.suspect)
  }

  lemma {:induction false} FirstFrame(c: Campaign, env: Env)
    requires c.Valid()
    ensures var e := First(c, env);
      e.Valid() && SameWork(c, e) && e.budget == c.budget && e.state == c.state && e.usage == Prepare(c, env).usage
    ensures forall j :: 0 <= j < |c.leaves| ==> SameBooks(First(c, env).leaves[j], Prepare(c, env).leaves[j])
  {
    PrepareFrame(c, env);
    EmittedKeepsBooks(Prepare(c, env).leaves, c.leaves, env);
  }

  lemma EmittedKeepsBooks(ls: seq<Leaf>, before: seq<Leaf>, env: Env)
    requires |ls| == |before|
    ensures forall j :: 0 <= j < |ls| ==> SameBooks(EmittedLeaves(ls, before, env)[j], ls[j])
  {
  }

  /** A tick keeps the work, the budget and the lifecycle; steps not yet reached have not touched their leaf. */
  ghost predicate Framed(start: Run, r: Run, i: nat) {
    && r.mem.Valid() && r.disk.Valid()
    && SameWork(start.mem, r.mem) && SameWork(start.mem, r.disk)
    && r.mem.budget == start.mem.budget && r.mem.state == start.mem.state
    && |r.mem.leaves| == |start.mem.leaves|
    && forall j :: i <= j < |start.mem.leaves| ==> r.mem.leaves[j] == start.mem.leaves[j]
  }

  /** What holds after some step and each later one keeps holds to the end. */
  lemma {:induction false} ExecInvariantFrom(start: Run, steps: seq<Step>, env: Env, cfg: Config,
      inv: (nat, Run) -> bool, j: nat, i: nat)
    requires |start.mem.leaves| == Count(start.mem.tree) == |steps| && j <= i <= |steps|
    requires inv(j, Exec(start, steps, env, cfg, j))
    requires forall k: nat, r: Run | j <= k < |steps| && inv(k, r) && |r.mem.leaves| == Count(r.mem.tree) == |steps| ::
      inv(k + 1, ExecStep(r, k, steps[k], env, cfg))
    ensures inv(i, Exec(start, steps, env, cfg, i))
  {
    if i > j { ExecInvariantFrom(start, steps, env, cfg, inv, j, i - 1); }
  }

  /** What one step keeps, any number of steps keeps. */
  lemma {:induction false} ExecInvariant(start: Run, steps: seq<Step>, env: Env, cfg: Config, inv: (nat, Run) -> bool,
      i: nat)
    requires |start.mem.leaves| == Count(start.mem.tree) == |steps| && i <= |steps|
    requires inv(0, start)
    requires forall k: nat, r: Run | k < |steps| && inv(k, r) && |r.mem.leaves| == Count(r.mem.tree) == |steps| ::
      inv(k + 1, ExecStep(r, k, steps[k], env, cfg))
    ensures inv(i, Exec(start, steps, env, cfg, i))
  {
    ExecInvariantFrom(start, steps, env, cfg, inv, 0, i);
  }

  lemma {:induction false} ExecFrame(start: Run, steps: seq<Step>, env: Env, cfg: Config, i: nat)
    requires |start.mem.leaves| == |steps| && i <= |steps| && Framed(start, start, 0)
    ensures Framed(start, Exec(start, steps, env, cfg, i), i)
  {
    var inv := (k: nat, r: Run) => Framed(start, r, k);
    forall k: nat, r: Run | k < |steps| && inv(k, r) ensures inv(k + 1, ExecStep(r, k, steps[k], env, cfg)) {
      FramedStep(start, r, k, steps[k], env, cfg);
    }
    ExecInvariant(start, steps, env, cfg, inv, i);
  }

  lemma FramedStep(start: Run, r: Run, i: nat, step: Step, env: Env, cfg: Config)
    requires i < |start.mem.leaves| && Framed(start, r, i)
    ensures Framed(start, ExecStep(r, i, step, env, cfg), i + 1)
  {
    var r' := ExecStep(r, i, step, env, cfg);
    StepTouches(r, i, step, env, cfg);
    StepDisk(r, i, step, env, cfg);
  }

  /** The step list fits the campaign in memory: only planned leaves are submitted, and a step that is not a wait
      finds its leaf planned or terminal. */
  ghost predicate Fits(c: Campaign, steps: seq<Step>) {
    && |steps| == |c.leaves|
    && forall i :: 0 <= i < |steps| ==>
         && (steps[i].action == Submit ==> c.leaves[i].status.Planned?)
         && (steps[i].action != Wait ==> c.leaves[i].status.Planned? || c.leaves[i].status.Terminal())
  }

  lemma {:induction false} StepsFit(c: Campaign, env: Env, cfg: Config)
    requires c.Valid()
    ensures Fits(First(c, env), Steps(Prepare(c, env), cfg))
  {
    FirstFrame(c, env);
    var p := Prepare(c, env);
    var steps := Steps(p, cfg);
    forall i | 0 <= i < |steps|
      ensures steps[i].action == Submit ==> p.leaves[i].status.Planned?
      ensures steps[i].action != Wait ==> p.leaves[i].status.Planned? || p.leaves[i].status.Terminal()
    {
      PlannedActs(p, cfg, i);
    }
  }

  lemma PlannedActs(p: Campaign, cfg: Config, i: nat)
    requires i < |p.leaves|
    ensures PlanStep(p, cfg, i).action == Submit ==> p.leaves[i].status.Planned?
    ensures PlanStep(p, cfg, i).action != Wait ==> p.leaves[i].status.Planned? || p.leaves[i].status.Terminal()
  {
  }

  // ---------------------------------------------------------------------------
  // Run identities and exactly-once launches

  /** What a leaf has reserved is what its specification asks for. */
  predicate Booked(cost: Cost, q: ResourceRequest) {
    cost.estimatedCore == q.coreHours && cost.estimatedGpu == q.gpuHours && cost.isGpu == q.isGpu
  }

  /** A planned leaf has never been acknowledged; only acknowledged leaves reserve cost; a leaf this campaign ran
      names the run of its own command id and the simulation that run started, and has reserved what it asks for. */
  ghost predicate LeafSound(key: CmdId, l: Leaf, jobs: map<CmdId, SimId>) {
    && (l.status.Planned? ==> !l.reused && l.runId.None?)
    && (l.reused || l.runId.None? ==> l.cost.estimatedCore == 0.0 && l.cost.estimatedGpu == 0.0 && !l.cost.isGpu)
    && (l.status.Planned? || l.reused ==> l.cost.actual.None?)
    && (!l.reused && l.runId.Some? ==>
          l.runId == Some(key) && key in jobs && l.simId == Some(jobs[key]) && Booked(l.cost, l.work.spec.request))
  }

  ghost predicate Sound(c: Campaign, jobs: map<CmdId, SimId>) {
    c.Valid() && forall i: nat :: i < |c.leaves| ==> LeafSound(c.Key(i), c.leaves[i], jobs)
  }

  /** Every job of the cluster under this campaign's name belongs to one of its leaves. */
  ghost predicate Owned(c: Campaign, jobs: map<CmdId, SimId>)
    requires |c.leaves| == Count(c.tree)
  {
    forall k :: k in jobs && Mine(c, k) ==> exists i: nat :: i < |c.leaves| && k == c.Key(i)
  }

  /** The log holds each of the campaign's jobs exactly once, and no other. */
  ghost predicate LogExact(c: Campaign, launched: seq<CmdId>, jobs: map<CmdId, SimId>) {
    && (forall k :: k in launched <==> k in jobs && Mine(c, k))
    && forall i, j :: 0 <= i < j < |launched| ==> launched[i] != launched[j]
  }

  ghost predicate RunSound(r: Run) {
    Sound(r.mem, r.jobs) && Sound(r.disk, r.jobs) && Owned(r.mem, r.jobs) && LogExact(r.mem, r.launched, r.jobs)
  }

  ghost predicate DurableSound(d: Durable) {
    Sound(d.disk, d.jobs) && Owned(d.disk, d.jobs) && LogExact(d.disk, d.launched, d.jobs)
  }

  lemma OwnedBySameWork(c: Campaign, e: Campaign, jobs: map<CmdId, SimId>)
    requires c.Valid() && e.Valid() && SameWork(c, e) && Owned(c, jobs)
    ensures Owned(e, jobs)
  {
    forall k | k in jobs && Mine(e, k) ensures exists i: nat :: i < |e.leaves| && k == e.Key(i) {
      var i: nat :| i < |c.leaves| && k == c.Key(i);
      assert e.Key(i) == k;
    }
  }

  lemma PrepareLeafSound(c: Campaign, i: nat, env: Env, jobs: map<CmdId, SimId>)
    requires c.Valid() && i < |c.leaves| && LeafSound(c.Key(i), c.leaves[i], jobs)
    ensures LeafSound(c.Key(i), Prepare(c, env).leaves[i], jobs)
  {
    PrepareFrame(c, env);
    PrepareLeaf(c, env, i);
  }

  lemma {:induction false} StartSound(d: Durable, env: Env)
    requires DurableSound(d)
    ensures RunSound(Start(d, env))
  {
    var r := Start(d, env);
    FirstFrame(d.disk, env);
    forall i: nat | i < |r.mem.leaves| ensures LeafSound(r.mem.Key(i), r.mem.leaves[i], d.jobs) {
      PrepareLeafSound(d.disk, i, env, d.jobs);
    }
    OwnedBySameWork(d.disk, r.mem, d.jobs);
  }

  /** The cluster call starts at most one job, and that one is owned by the leaf. */
  lemma CallSound(r: Run, i: nat, fate: Fate)
    requires RunSound(r) && i < |r.mem.leaves| && r.life > 0
    ensures RunSound(Call(r, r.mem.Key(i), fate))
  {
    var key := r.mem.Key(i);
    var s := Call(r, key, fate);
    forall j: nat | j < |r.mem.leaves| ensures LeafSound(r.mem.Key(j), r.mem.leaves[j], s.jobs) { }
    forall j: nat | j < |r.disk.leaves| ensures LeafSound(r.disk.Key(j), r.disk.leaves[j], s.jobs) { }
    forall k | k in s.jobs && Mine(r.mem, k) ensures exists j: nat :: j < |r.mem.leaves| && k == r.mem.Key(j) {
      if k !in r.jobs { assert k == r.mem.Key(i); }
    }
  }

  /** Any sound effect on leaf `i`, saved or not, keeps the run sound. */
  lemma EffectSound(r: Run, i: nat, e: Effect, inFlight: int, submitted: seq<nat>)
    requires RunSound(r) && i < |r.mem.leaves| && e.leaf.work == r.mem.leaves[i].work
    requires LeafSound(r.mem.Key(i), e.leaf, r.jobs)
    ensures var s := r.(mem := Apply(r.mem, i, e), inFlight := inFlight, submitted := submitted);
      RunSound(s) && RunSound(Save(s))
  {
    OwnedBySameWork(r.mem, Apply(r.mem, i, e), r.jobs);
  }

  lemma {:induction false} StepSound(r: Run, i: nat, step: Step, env: Env, cfg: Config)
    requires RunSound(r) && i < |r.mem.leaves|
    requires step.action != Wait ==> r.mem.leaves[i].status.Planned? || r.mem.leaves[i].status.Terminal()
    requires step.action == Submit ==> r.mem.leaves[i].status.Planned?
    ensures RunSound(ExecStep(r, i, step, env, cfg))
  {
    var l, path, key, u := r.mem.leaves[i], r.mem.Path(i), r.mem.Key(i), r.mem.usage;
    assert LeafSound(key, l, r.jobs);
    if r.life == 0 {
    } else if step.action != Submit {
      EffectSound(r, i, PersistTerminal(path, l, step, u), r.inFlight, r.submitted);
    } else if SubmissionBlock(r, i, env, cfg).Some? {
    } else if GuardFires(r.mem.leaves, i) {
      EffectSound(r, i, Refuse(path, l, Reason(Some(DuplicatePayload), None, None), u), r.inFlight, r.submitted);
    } else {
      var fate := FateOf(env, i);
      var s := Call(r, key, fate);
      CallSound(r, i, fate);
      var e := Answer(path, l, key, s.jobs, fate.reply, env.now, cfg.policy.deferredTimeout, u);
      EffectSound(s, i, e, if fate.reply.Ack? then r.inFlight + 1 else r.inFlight,
        if fate.reply.Ack? then r.submitted + [i] else r.submitted);
    }
  }

  lemma {:induction false} ExecSound(start: Run, steps: seq<Step>, env: Env, cfg: Config, i: nat)
    requires RunSound(start) && Fits(start.mem, steps) && Framed(start, start, 0) && i <= |steps|
    ensures RunSound(Exec(start, steps, env, cfg, i))
  {
    var inv := (k: nat, r: Run) => k <= |steps| && Framed(start, r, k) && RunSound(r);
    forall k: nat, r: Run | k < |steps| && inv(k, r) ensures inv(k + 1, ExecStep(r, k, steps[k], env, cfg)) {
      FramedStep(start, r, k, steps[k], env, cfg);
      FittingStepSound(start, r, k, steps, env, cfg);
    }
    ExecInvariant(start, steps, env, cfg, inv, i);
  }

  lemma {:induction false} FittingStepSound(start: Run, r: Run, i: nat, steps: seq<Step>, env: Env, cfg: Config)
    requires RunSound(r) && Fits(start.mem, steps) && i < |steps| && Framed(start, r, i)
    ensures RunSound(ExecStep(r, i, steps[i], env, cfg))
  {
    assert r.mem.leaves[i] == start.mem.leaves[i];
    StepSound(r, i, steps[i], env, cfg);
  }

  lemma {:induction false} EndSound(start: Run, steps: seq<Step>, env: Env, cfg: Config)
    requires RunSound(start) && Fits(start.mem, steps) && Framed(start, start, 0)
    ensures var r := Save(Exec(start, steps, env, cfg, |steps|));
      && Sound(r.disk, r.jobs) && Owned(r.disk, r.jobs) && LogExact(r.disk, r.launched, r.jobs)
      && SameWork(start.mem, r.disk)
  {
    ExecSound(start, steps, env, cfg, |steps|);
    ExecFrame(start, steps, env, cfg, |steps|);
    var r := Exec(start, steps, env, cfg, |steps|);
    OwnedBySameWork(r.mem, r.disk, r.jobs);
  }

  /** Crash anywhere, lose any acknowledgement: whatever the tick left durable is sound and the same work. */
  lemma {:induction false} TickKeepsSound(d: Durable, env: Env, cfg: Config)
    requires DurableSound(d)
    ensures DurableSound(Tick(d, env, cfg)) && SameWork(d.disk, Tick(d, env, cfg).disk)
  {
    if !HasDuplicates(Prepare(d.disk, env), cfg) {
      TickStarts(d, env, cfg);
      StartSound(d, env);
      EndSound(Start(d, env), Steps(Prepare(d.disk, env), cfg), env, cfg);
    }
  }

  /** No assumption on what is stored: a tick never changes which leaves there are or what they run. */
  lemma {:induction false} TickKeepsWork(d: Durable, env: Env, cfg: Config)
    requires d.disk.Valid()
    ensures Tick(d, env, cfg).disk.Valid() && SameWork(d.disk, Tick(d, env, cfg).disk)
  {
    if !HasDuplicates(Prepare(d.disk, env), cfg) {
      TickStarts(d, env, cfg);
      var start, steps := Start(d, env), Steps(Prepare(d.disk, env), cfg);
      ExecFrame(start, steps, env, cfg, |steps|);
    }
  }

  /** What every tick that does not raise starts from. */
  lemma {:induction false} TickStarts(d: Durable, env: Env, cfg: Config)
    requires d.disk.Valid()
    ensures var start := Start(d, env);
      && Framed(start, start, 0) && Fits(start.mem, Steps(Prepare(d.disk, env), cfg))
      && start.mem == First(d.disk, env) && SameWork(d.disk, start.mem)
  {
    FirstFrame(d.disk, env);
    StepsFit(d.disk, env, cfg);
  }
}

/** The usage ledger is conserved: at every save usage is the sum over leaves. */
module EngineLedger {
  import opened Prelude
  import opened Agenda
  import opened Campaign
  import opened Planner
  import opened Engine
  import opened EngineSafety

  // ---------------------------------------------------------------------------
  // Conservation

  /** Usage is the sum over leaves: of the actual cost where known, else of what was reserved; and one job for each
      leaf this campaign had acknowledged. */
  ghost predicate Balanced(ls: seq<Leaf>, u: Usage) {
    && u.coreHours == Total(ls, CoreCost)
    && u.gpuHours == Total(ls, GpuCost)
    && u.submitted as real == Total(ls, JobShare)
  }

  ghost predicate Ledger(c: Campaign) {
    Balanced(c.leaves, c.usage)
  }

  predicate NonNegativeCost(l: Leaf) {
    && l.work.spec.request.coreHours >= 0.0 && l.work.spec.request.gpuHours >= 0.0
    && l.cost.estimatedCore >= 0.0 && l.cost.estimatedGpu >= 0.0
    && (l.cost.actual.Some? ==> l.cost.actual.value.core >= 0.0 && l.cost.actual.value.gpu >= 0.0)
  }

  ghost predicate NonNegativeCosts(ls: seq<Leaf>) {
    forall i :: 0 <= i < |ls| ==> NonNegativeCost(ls[i])
  }

  ghost predicate NonNegativeActuals(env: Env) {
    forall s :: s in env.actuals ==> env.actuals[s].core >= 0.0 && env.actuals[s].gpu >= 0.0
  }

  /** `m` weighs in the ledger as `l` does. */
  predicate SameWeight(l: Leaf, m: Leaf) {
    CoreCost(l) == CoreCost(m) && GpuCost(l) == GpuCost(m) && JobShare(l) == JobShare(m)
  }

  lemma SameWeights(ls: seq<Leaf>, ms: seq<Leaf>, u: Usage, v: Usage)
    requires Balanced(ls, u) && |ls| == |ms| && forall i :: 0 <= i < |ls| ==> SameWeight(ls[i], ms[i])
    requires u.coreHours == v.coreHours && u.gpuHours == v.gpuHours && u.submitted == v.submitted
    ensures Balanced(ms, v)
  {
    TotalSame(ls, ms, CoreCost);
    TotalSame(ls, ms, GpuCost);
    TotalSame(ls, ms, JobShare);
  }

  lemma BalancedUpdate(ls: seq<Leaf>, u: Usage, i: nat, l: Leaf, v: Usage)
    requires Balanced(ls, u) && i < |ls|
    requires v.coreHours - u.coreHours == CoreCost(l) - CoreCost(ls[i])
    requires v.gpuHours - u.gpuHours == GpuCost(l) - GpuCost(ls[i])
    requires v.submitted as real - u.submitted as real == JobShare(l) - JobShare(ls[i])
    ensures Balanced(ls[i := l], v)
  {
    TotalUpdate(ls, i, l, CoreCost);
    TotalUpdate(ls, i, l, GpuCost);
    TotalUpdate(ls, i, l, JobShare);
  }

  lemma FoldAndReuseKeepWeight(c: Campaign, env: Env, jobs: map<CmdId, SimId>, i: nat)
    requires Sound(c, jobs) && i < |c.leaves| && NonNegativeCost(c.leaves[i])
    ensures var l := ReuseLeaf(FoldLeaf(c.leaves, i, env.observed), env.reuse);
      SameWeight(c.leaves[i], l) && NonNegativeCost(l) && l.work == c.leaves[i].work
  {
    assert LeafSound(c.Key(i), c.leaves[i], jobs);
  }

  /** Reconciling the first `i` leaves one by one keeps the ledger balanced: the clamp at zero never binds. */
  lemma {:induction false} ReconcileBalances(ls: seq<Leaf>, u: Usage, actuals: map<SimId, Actual>, i: nat)
    requires Balanced(ls, u) && NonNegativeCosts(ls) && i <= |ls|
    requires forall s :: s in actuals ==> actuals[s].core >= 0.0 && actuals[s].gpu >= 0.0
    ensures Balanced(Reconciled(ls, actuals)[..i] + ls[i..], ReconciledUsage(ls, u, actuals, i))
  {
    var rs := Reconciled(ls, actuals);
    if i == 0 {
      assert rs[..0] + ls[0..] == ls;
    } else {
      ReconcileBalances(ls, u, actuals, i - 1);
      var ms := rs[..i - 1] + ls[i - 1..];
      var v := ReconciledUsage(ls, u, actuals, i - 1);
      var l := ReconcileLeaf(ls[i - 1], actuals);
      assert rs[..i] + ls[i..] == ms[i - 1 := l];
      var ns := ms[i - 1 := l];
      forall k | 0 <= k < |ns| ensures NonNegativeCost(ns[k]) { }
      ReconcileLeafBalances(ms, v, i - 1, actuals);
    }
  }

  lemma ReconcileLeafBalances(ms: seq<Leaf>, v: Usage, k: nat, actuals: map<SimId, Actual>)
    requires Balanced(ms, v) && k < |ms|
    requires NonNegativeCosts(ms[k := ReconcileLeaf(ms[k], actuals)])
    ensures Balanced(ms[k := ReconcileLeaf(ms[k], actuals)], ReconcileCharge(v, ms[k], actuals))
  {
    var l := ReconcileLeaf(ms[k], actuals);
    var ns := ms[k := l];
    TotalUpdate(ms, k, l, CoreCost);
    TotalUpdate(ms, k, l, GpuCost);
    TotalUpdate(ms, k, l, JobShare);
    TotalNonNegative(ns, CoreCost);
    TotalNonNegative(ns, GpuCost);
  }

  lemma {:induction false} ReusedBalances(c: Campaign, env: Env, jobs: map<CmdId, SimId>, ls: seq<Leaf>)
    requires Sound(c, jobs) && Ledger(c) && NonNegativeCosts(c.leaves)
    requires ls == Reused(Fold(c.leaves, env.observed), env.reuse)
    ensures NonNegativeCosts(ls) && Balanced(ls, c.usage.(running := CountInFlight(ls)))
  {
    forall i: nat | i < |ls| ensures SameWeight(c.leaves[i], ls[i]) && NonNegativeCost(ls[i]) {
      FoldAndReuseKeepWeight(c, env, jobs, i);
      assert ls[i] == ReuseLeaf(FoldLeaf(c.leaves, i, env.observed), env.reuse);
    }
    SameWeights(c.leaves, ls, c.usage, c.usage.(running := CountInFlight(ls)));
  }

  lemma {:induction false} ReconciledCosts(ls: seq<Leaf>, actuals: map<SimId, Actual>)
    requires NonNegativeCosts(ls) && forall s :: s in actuals ==> actuals[s].core >= 0.0 && actuals[s].gpu >= 0.0
    ensures NonNegativeCosts(Reconciled(ls, actuals))
  {
  }

  lemma {:induction false} PrepareBalances(c: Campaign, env: Env, jobs: map<CmdId, SimId>)
    requires Sound(c, jobs) && Ledger(c) && NonNegativeCosts(c.leaves) && NonNegativeActuals(env)
    ensures Ledger(Prepare(c, env)) && NonNegativeCosts(Prepare(c, env).leaves)
  {
    var ls := Reused(Fold(c.leaves, env.observed), env.reuse);
    var rs := Reconciled(ls, env.actuals);
    ReusedBalances(c, env, jobs, ls);
    ReconciledCosts(ls, env.actuals);
    ReconcileBalances(ls, c.usage.(running := CountInFlight(ls)), env.actuals, |ls|);
    assert rs[..|ls|] + ls[|ls|..] == rs;
  }

  /** An effect moves the ledger by exactly what its leaf's weight changes. */
  ghost predicate MovesBooks(l: Leaf, u: Usage, e: Effect) {
    && e.usage.coreHours - u.coreHours == CoreCost(e.leaf) - CoreCost(l)
    && e.usage.gpuHours - u.gpuHours == GpuCost(e.leaf) - GpuCost(l)
    && e.usage.submitted as real - u.submitted as real == JobShare(e.leaf) - JobShare(l)
    && (NonNegativeCost(l) ==> NonNegativeCost(e.leaf))
  }

  lemma AnswerMovesBooks(path: Path, l: Leaf, key: CmdId, jobs: map<CmdId, SimId>, reply: Reply, now: int,
      timeout: int, u: Usage)
    requires LeafSound(key, l, jobs) && l.status.Planned? && (reply.Ack? ==> key in jobs)
    ensures MovesBooks(l, u, Answer(path, l, key, jobs, reply, now, timeout, u))
  {
  }

  ghost predicate BooksKept(r: Run) {
    && Ledger(r.mem) && NonNegativeCosts(r.mem.leaves)
    && Ledger(r.disk) && NonNegativeCosts(r.disk.leaves)
  }

  lemma EffectKeepsBooks(r: Run, i: nat, e: Effect, inFlight: int, submitted: seq<nat>)
    requires BooksKept(r) && i < |r.mem.leaves| && MovesBooks(r.mem.leaves[i], r.mem.usage, e)
    ensures var s := r.(mem := Apply(r.mem, i, e), inFlight := inFlight, submitted := submitted);
      BooksKept(s) && BooksKept(Save(s))
  {
    BalancedUpdate(r.mem.leaves, r.mem.usage, i, e.leaf, e.usage);
  }

  lemma StepKeepsBooks(start: Run, r: Run, i: nat, steps: seq<Step>, env: Env, cfg: Config)
    requires RunSound(r) && BooksKept(r) && Fits(start.mem, steps) && i < |steps| && Framed(start, r, i)
    ensures BooksKept(ExecStep(r, i, steps[i], env, cfg))
  {
    assert r.mem.leaves[i] == start.mem.leaves[i];
    var l, path, key, u := r.mem.leaves[i], r.mem.Path(i), r.mem.Key(i), r.mem.usage;
    assert LeafSound(key, l, r.jobs);
    if r.life == 0 {
    } else if steps[i].action != Submit {
      EffectKeepsBooks(r, i, PersistTerminal(path, l, steps[i], u), r.inFlight, r.submitted);
    } else if SubmissionBlock(r, i, env, cfg).Some? {
    } else if GuardFires(r.mem.leaves, i) {
      EffectKeepsBooks(r, i, Refuse(path, l, Reason(Some(DuplicatePayload), None, None), u), r.inFlight, r.submitted);
    } else {
      var fate := FateOf(env, i);
      var s := Call(r, key, fate);
      AnswerMovesBooks(path, l, key, s.jobs, fate.reply, env.now, cfg.policy.deferredTimeout, u);
      var e := Answer(path, l, key, s.jobs, fate.reply, env.now, cfg.policy.deferredTimeout, u);
      EffectKeepsBooks(s, i, e, if fate.reply.Ack? then r.inFlight + 1 else r.inFlight,
        if fate.reply.Ack? then r.submitted + [i] else r.submitted);
    }
  }

  lemma {:induction false} ExecKeepsBooks(start: Run, steps: seq<Step>, env: Env, cfg: Config, i: nat)
    requires RunSound(start) && BooksKept(start) && Fits(start.mem, steps) && Framed(start, start, 0) && i <= |steps|
    ensures BooksKept(Exec(start, steps, env, cfg, i))
  {
    var inv := (k: nat, r: Run) => k <= |steps| && Framed(start, r, k) && RunSound(r) && BooksKept(r);
    forall k: nat, r: Run | k < |steps| && inv(k, r) ensures inv(k + 1, ExecStep(r, k, steps[k], env, cfg)) {
      FramedStep(start, r, k, steps[k], env, cfg);
      FittingStepSound(start, r, k, steps, env, cfg);
      StepKeepsBooks(start, r, k, steps, env, cfg);
    }
    ExecInvariant(start, steps, env, cfg, inv, i);
  }

  lemma FirstBalances(c: Campaign, env: Env, jobs: map<CmdId, SimId>)
    requires Sound(c, jobs) && Ledger(c) && NonNegativeCosts(c.leaves) && NonNegativeActuals(env)
    ensures Ledger(First(c, env)) && NonNegativeCosts(First(c, env).leaves)
  {
    PrepareBalances(c, env, jobs);
    FirstFrame(c, env);
    var p, f := Prepare(c, env), First(c, env);
    forall i | 0 <= i < |f.leaves| ensures SameWeight(p.leaves[i], f.leaves[i]) && NonNegativeCost(f.leaves[i]) {
      assert SameBooks(f.leaves[i], p.leaves[i]);
    }
    SameWeights(p.leaves, f.leaves, p.usage, f.usage);
  }

  lemma StartKeepsBooks(d: Durable, env: Env)
    requires DurableSound(d) && Ledger(d.disk) && NonNegativeCosts(d.disk.leaves) && NonNegativeActuals(env)
    ensures BooksKept(Start(d, env))
  {
    FirstBalances(d.disk, env, d.jobs);
  }

  /** Whatever a tick left durable, crashed or not, balances. */
  lemma TickKeepsLedger(d: Durable, env: Env, cfg: Config)
    requires DurableSound(d) && Ledger(d.disk) && NonNegativeCosts(d.disk.leaves) && NonNegativeActuals(env)
    ensures Ledger(Tick(d, env, cfg).disk) && NonNegativeCosts(Tick(d, env, cfg).disk.leaves)
  {
    if !HasDuplicates(Prepare(d.disk, env), cfg) {
      TickStarts(d, env, cfg);
      StartSound(d, env);
      StartKeepsBooks(d, env);
      EndKeepsBooks(d, env, cfg, Start(d, env), Steps(Prepare(d.disk, env), cfg));
    }
  }

  lemma EndKeepsBooks(d: Durable, env: Env, cfg: Config, start: Run, steps: seq<Step>)
    requires RunSound(start) && BooksKept(start) && Fits(start.mem, steps) && Framed(start, start, 0)
    ensures BooksKept(Save(Exec(start, steps, env, cfg, |steps|)))
  {
    ExecKeepsBooks(start, steps, env, cfg, |steps|);
  }

  // ---------------------------------------------------------------------------
  // The number of jobs, whatever anything costs

  /** Usage counts one job for each leaf this campaign had acknowledged. */
  ghost predicate JobsCounted(c: Campaign) {
    c.usage.submitted as real == Total(c.leaves, JobShare)
  }

  lemma {:induction false} FirstKeepsShare(c: Campaign, env: Env, jobs: map<CmdId, SimId>, i: nat)
    requires Sound(c, jobs) && i < |c.leaves|
    ensures |First(c, env).leaves| == |c.leaves| && JobShare(First(c, env).leaves[i]) == JobShare(c.leaves[i])
  {
    FirstFrame(c, env);
    PrepareLeaf(c, env, i);
    PrepareFrame(c, env);
    assert SameBooks(First(c, env).leaves[i], Prepare(c, env).leaves[i]);
    assert LeafSound(c.Key(i), c.leaves[i], jobs);
  }

  lemma {:induction false} FirstCountsJobs(c: Campaign, env: Env, jobs: map<CmdId, SimId>)
    requires Sound(c, jobs) && JobsCounted(c)
    ensures JobsCounted(First(c, env))
  {
    FirstFrame(c, env);
    PrepareKeepsSubmitted(c, env);
    var f := First(c, env);
    forall i: nat | i < |c.leaves| ensures JobShare(f.leaves[i]) == JobShare(c.leaves[i]) {
      FirstKeepsShare(c, env, jobs, i);
    }
    TotalSame(c.leaves, f.leaves, JobShare);
  }

  /** The run's count of jobs moved by as much as leaf `i`'s share. */
  ghost predicate MovesJobs(r: Run, i: nat, s: Run)
    requires i < |r.mem.leaves| == |s.mem.leaves|
  {
    s.mem.usage.submitted as real - r.mem.usage.submitted as real
      == JobShare(s.mem.leaves[i]) - JobShare(r.mem.leaves[i])
  }

  lemma {:induction false} SubmitMovesJobs(r: Run, i: nat, env: Env, cfg: Config)
    requires r.mem.Valid() && i < |r.mem.leaves| && LeafSound(r.mem.Key(i), r.mem.leaves[i], r.jobs) && r.life > 0
    requires r.mem.leaves[i].status.Planned?
    ensures var s := SubmitStep(r, i, env, cfg); |s.mem.leaves| == |r.mem.leaves| && MovesJobs(r, i, s)
  {
  }

  lemma {:induction false} StepMovesJobs(r: Run, i: nat, step: Step, env: Env, cfg: Config)
    requires r.mem.Valid() && i < |r.mem.leaves| && LeafSound(r.mem.Key(i), r.mem.leaves[i], r.jobs)
    requires step.action == Submit ==> r.mem.leaves[i].status.Planned?
    ensures MovesJobs(r, i, ExecStep(r, i, step, env, cfg))
  {
    if r.life > 0 && step.action == Submit { SubmitMovesJobs(r, i, env, cfg); }
  }

  lemma {:induction false} StepCountsJobs(start: Run, r: Run, i: nat, steps: seq<Step>, env: Env, cfg: Config)
    requires RunSound(r) && JobsCounted(r.mem) && JobsCounted(r.disk)
    requires Fits(start.mem, steps) && i < |steps| && Framed(start, r, i)
    ensures var s := ExecStep(r, i, steps[i], env, cfg); JobsCounted(s.mem) && JobsCounted(s.disk)
  {
    var s := ExecStep(r, i, steps[i], env, cfg);
    assert r.mem.leaves[i] == start.mem.leaves[i] && LeafSound(r.mem.Key(i), r.mem.leaves[i], r.jobs);
    StepMovesJobs(r, i, steps[i], env, cfg);
    StepTouches(r, i, steps[i], env, cfg);
    StepDisk(r, i, steps[i], env, cfg);
    TotalUpdate(r.mem.leaves, i, s.mem.leaves[i], JobShare);
  }

  lemma {:induction false} ExecCountsJobs(start: Run, steps: seq<Step>, env: Env, cfg: Config, i: nat)
    requires RunSound(start) && JobsCounted(start.mem) && JobsCounted(start.disk)
    requires Fits(start.mem, steps) && Framed(start, start, 0) && i <= |steps|
    ensures var r := Exec(start, steps, env, cfg, i); JobsCounted(r.mem) && JobsCounted(r.disk)
  {
    var inv := (k: nat, r: Run) =>
      k <= |steps| && Framed(start, r, k) && RunSound(r) && JobsCounted(r.mem) && JobsCounted(r.disk);
    forall k: nat, r: Run | k < |steps| && inv(k, r) ensures inv(k + 1, ExecStep(r, k, steps[k], env, cfg)) {
      FramedStep(start, r, k, steps[k], env, cfg);
      FittingStepSound(start, r, k, steps, env, cfg);
      StepCountsJobs(start, r, k, steps, env, cfg);
    }
    ExecInvariant(start, steps, env, cfg, inv, i);
  }

  /** Whatever a tick left durable, crashed or not, and whatever the signs of costs and estimates: the jobs counted are
      the acknowledged leaves. */
  lemma {:induction false} TickCountsJobs(d: Durable, env: Env, cfg: Config)
    requires DurableSound(d) && JobsCounted(d.disk)
    ensures JobsCounted(Tick(d, env, cfg).disk)
  {
    if !HasDuplicates(Prepare(d.disk, env), cfg) {
      TickStarts(d, env, cfg);
      StartSound(d, env);
      FirstCountsJobs(d.disk, env, d.jobs);
      var start, steps := Start(d, env), Steps(Prepare(d.disk, env), cfg);
      ExecCountsJobs(start, steps, env, cfg, |steps|);
    }
  }
}

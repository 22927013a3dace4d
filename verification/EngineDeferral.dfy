/** Lost acknowledgements: the retry window is elapsed time from the first of them, however many ticks fall into it. */
module EngineDeferral {
  import opened Prelude
  import opened Agenda
  import opened Campaign
  import opened Engine
  import opened EngineSafety
  import opened EngineDuplicates
  import opened Planner

  /** One lost acknowledgement: when it was noticed and what was heard. */
  datatype Loss = Loss(now: int, reply: Reply)

  ghost predicate AllUnknown(losses: seq<Loss>) {
    forall k :: 0 <= k < |losses| ==> losses[k].reply.Unknown?
  }

  /** The leaf after a run of losses, up to the one that fails it. */
  function Deferred(path: Path, l: Leaf, losses: seq<Loss>, timeout: int, u: Usage): Leaf
    requires forall k :: 0 <= k < |losses| ==> losses[k].reply.Unknown?
    decreases |losses|
  {
    if losses == [] then l
    else
      var before, last := Deferred(path, l, losses[..|losses| - 1], timeout, u), losses[|losses| - 1];
      if before.status.Planned? then Defer(path, before, last.reply, last.now, timeout, u).leaf else before
  }

  /** Still inside the window, counted from the first loss; a clock that went back counts as no time. */
  predicate Inside(losses: seq<Loss>, k: nat, timeout: int)
    requires k < |losses|
  {
    (if losses[k].now < losses[0].now then 0 else losses[k].now - losses[0].now) < timeout
  }

  /** The first simulation id the leaf or a reply names. */
  function FirstNamed(l: Leaf, losses: seq<Loss>): Option<SimId>
    requires forall k :: 0 <= k < |losses| ==> losses[k].reply.Unknown?
    decreases |losses|
  {
    if losses == [] then l.simId else FirstNamed(l, losses[..|losses| - 1]).Or(losses[|losses| - 1].reply.simId)
  }

  ghost predicate AllInside(losses: seq<Loss>, timeout: int) {
    forall k: nat | k < |losses| :: Inside(losses, k, timeout)
  }

  /** A planned leaf stays planned through any number of losses exactly while every one of them falls inside the window;
      meanwhile it counts them, keeps the first time and the first simulation id it hears of.  It reserves nothing and
      gets no run, planned or failed. */
  lemma {:induction false} DeferralIsBoundedByTime(path: Path, l: Leaf, losses: seq<Loss>, timeout: int, u: Usage)
    requires AllUnknown(losses) && l.status.Planned? && l.deferral == NOT_DEFERRED
    ensures var d := Deferred(path, l, losses, timeout, u);
      && (d.status.Planned? <==> AllInside(losses, timeout))
      && (d.status.Planned? || d.status.Failed?)
      && (d.status.Planned? && losses != [] ==>
        d.deferral == Deferral(|losses|, Some(losses[0].now)) && d.simId == FirstNamed(l, losses))
      && (losses == [] ==> d == l)
      && d.runId == l.runId && d.cost == l.cost && d.work == l.work
    decreases |losses|
  {
    if losses != [] {
      var n := |losses| - 1;
      var init := losses[..n];
      DeferralIsBoundedByTime(path, l, init, timeout, u);
      assert forall k: nat | k < n :: Inside(init, k, timeout) == Inside(losses, k, timeout);
      if n > 0 { assert init[0] == losses[0]; }
      if AllInside(init, timeout) {
        assert AllInside(losses, timeout) <==> Inside(losses, n, timeout);
      } else {
        var k: nat :| k < n && !Inside(init, k, timeout);
        assert !Inside(losses, k, timeout);
      }
    }
  }

  // ---------------------------------------------------------------------------
  // Whole ticks

  /** The tick, which may crash later, submits leaf `i` past every gate, loses the answer and saves that. */
  ghost predicate LosesAck(d: Durable, env: Env, cfg: Config, i: nat)
    requires d.disk.Valid()
  {
    var p := Prepare(d.disk, env);
    && !HasDuplicates(p, cfg) && i < |d.disk.leaves| == |p.leaves| && Submits(p, cfg, i)
    && FateOf(env, i).reply.Unknown? && Defers(Exec(Start(d, env), Steps(p, cfg), env, cfg, i), i, env, cfg)
  }

  predicate Defers(r: Run, i: nat, env: Env, cfg: Config)
    requires |r.mem.leaves| == Count(r.mem.tree) && i < |r.mem.leaves|
  {
    r.life > 1 && SubmissionBlock(r, i, env, cfg).None?
  }

  /** The tick leaves leaf `i` alone: it raises, or neither observes nor reuses the leaf, and waits, finds it failed, is
      held back by a gate or dies before it can save. */
  ghost predicate Holds(d: Durable, env: Env, cfg: Config, i: nat)
    requires d.disk.Valid()
  {
    var p := Prepare(d.disk, env);
    || HasDuplicates(p, cfg)
    || (&& i < |d.disk.leaves| == |p.leaves| && p.leaves[i] == d.disk.leaves[i] && !p.leaves[i].status.Done?
        && Idles(Exec(Start(d, env), Steps(p, cfg), env, cfg, i), i, PlanStep(p, cfg, i), env, cfg))
  }

  predicate Idles(r: Run, i: nat, step: Step, env: Env, cfg: Config)
    requires |r.mem.leaves| == Count(r.mem.tree) && i < |r.mem.leaves|
  {
    || r.life == 0 || step.action == Wait || (step.action != Submit && r.mem.leaves[i].status.Terminal())
    || (step.action == Submit && (r.life == 1 || SubmissionBlock(r, i, env, cfg).Some?))
  }

  /** A leaf that the preparation leaves as it was, and that is not done, is saved as it was. */
  lemma {:induction false} UnpreparedIsStored(c: Campaign, env: Env, i: nat)
    requires c.Valid() && i < |c.leaves| == |Prepare(c, env).leaves| && Prepare(c, env).leaves[i] == c.leaves[i]
    requires !c.leaves[i].status.Done?
    ensures |First(c, env).leaves| == |c.leaves| && First(c, env).leaves[i] == c.leaves[i]
  {
    PrepareFrame(c, env);
  }

  /** Nothing before the steps moves a leaf that is to be submitted. */
  lemma {:induction false} SubmittedStartsAsStored(d: Durable, env: Env, cfg: Config, i: nat)
    requires d.disk.Valid() && i < |d.disk.leaves| == |Prepare(d.disk, env).leaves|
      && Submits(Prepare(d.disk, env), cfg, i)
    ensures |First(d.disk, env).leaves| == |d.disk.leaves| && First(d.disk, env).leaves[i] == d.disk.leaves[i]
  {
    PlannedActs(Prepare(d.disk, env), cfg, i);
    PrepareLeaf(d.disk, env, i);
    UnpreparedIsStored(d.disk, env, i);
  }

  /** The store has `l` as leaf `i`, and no save can change that. */
  ghost predicate Still(start: Run, i: nat, l: Leaf, k: nat, r: Run) {
    && Framed(start, r, k) && i < |r.mem.leaves| == |r.disk.leaves|
    && r.disk.leaves[i] == l && (r.life == 0 || r.mem.leaves[i] == l)
  }

  lemma {:induction false} StillStep(start: Run, i: nat, l: Leaf, k: nat, r: Run, step: Step, env: Env, cfg: Config)
    requires k < |start.mem.leaves| && k != i && Still(start, i, l, k, r)
    ensures Still(start, i, l, k + 1, ExecStep(r, k, step, env, cfg))
  {
    FramedStep(start, r, k, step, env, cfg);
    StepTouches(r, k, step, env, cfg);
    StepDisk(r, k, step, env, cfg);
  }

  /** Steps of other leaves, before leaf `i`'s or after it, leave it so. */
  lemma {:induction false} StillBetween(start: Run, steps: seq<Step>, env: Env, cfg: Config, i: nat, l: Leaf, j: nat,
      k: nat)
    requires |steps| == |start.mem.leaves| == Count(start.mem.tree) && j <= k <= |steps| && !(j <= i < k)
    requires Still(start, i, l, j, Exec(start, steps, env, cfg, j))
    ensures Still(start, i, l, k, Exec(start, steps, env, cfg, k))
  {
    var inv := (h: nat, r: Run) => h > k || Still(start, i, l, h, r);
    forall h: nat, r: Run | j <= h < |steps| && inv(h, r) && |r.mem.leaves| == Count(r.mem.tree) == |steps|
      ensures inv(h + 1, ExecStep(r, h, steps[h], env, cfg))
    {
      if h < k { StillStep(start, i, l, h, r, steps[h], env, cfg); }
    }
    ExecInvariantFrom(start, steps, env, cfg, inv, j, k);
  }

  lemma {:induction false} LostStepDefers(r: Run, i: nat, step: Step, env: Env, cfg: Config, s: Run)
    requires r.mem.Valid() && i < |r.mem.leaves| && step.action == Submit && FateOf(env, i).reply.Unknown?
    requires Defers(r, i, env, cfg) && !GuardFires(r.mem.leaves, i) && s == ExecStep(r, i, step, env, cfg)
    ensures s.disk == s.mem && |s.mem.leaves| == |r.mem.leaves|
    ensures s.mem.leaves[i]
      == Defer(r.mem.Path(i), r.mem.leaves[i], FateOf(env, i).reply, env.now, cfg.policy.deferredTimeout,
        NO_USAGE).leaf
  {
  }

  lemma {:induction false} IdleStepKeeps(r: Run, i: nat, step: Step, env: Env, cfg: Config, s: Run)
    requires r.mem.Valid() && i < |r.mem.leaves| && Idles(r, i, step, env, cfg)
    requires step.action == Submit ==> !GuardFires(r.mem.leaves, i)
    requires s == ExecStep(r, i, step, env, cfg)
    ensures s.disk == r.disk && |s.mem.leaves| == |r.mem.leaves| && (s.life == 0 || s.mem.leaves[i] == r.mem.leaves[i])
  {
  }

  /** What leaf `i`'s step leaves in the store stays there to the end of the tick. */
  lemma {:induction false} StoredToTheEnd(start: Run, steps: seq<Step>, env: Env, cfg: Config, i: nat, l: Leaf)
    requires |steps| == |start.mem.leaves| == Count(start.mem.tree) && i < |steps|
    requires Still(start, i, l, i + 1, Exec(start, steps, env, cfg, i + 1))
    ensures var f := Save(Exec(start, steps, env, cfg, |steps|)).disk; |f.leaves| == |steps| && f.leaves[i] == l
  {
    StillBetween(start, steps, env, cfg, i, l, i + 1, |steps|);
  }

  lemma {:induction false} LostRunDefers(start: Run, steps: seq<Step>, env: Env, cfg: Config, i: nat, r: Run, s: Run)
    requires |steps| == |start.mem.leaves| == Count(start.mem.tree) && Framed(start, start, 0) && i < |steps|
    requires r == Exec(start, steps, env, cfg, i) && s == Exec(start, steps, env, cfg, i + 1)
    requires steps[i].action == Submit && Defers(r, i, env, cfg) && !GuardFires(r.mem.leaves, i)
      && FateOf(env, i).reply.Unknown?
    ensures Still(start, i, Defer(start.mem.Path(i), start.mem.leaves[i], FateOf(env, i).reply, env.now,
      cfg.policy.deferredTimeout, NO_USAGE).leaf, i + 1, s)
  {
    ExecFrame(start, steps, env, cfg, i);
    ExecFrame(start, steps, env, cfg, i + 1);
    LostStepDefers(r, i, steps[i], env, cfg, s);
  }

  lemma {:induction false} IdleRunKeeps(start: Run, steps: seq<Step>, env: Env, cfg: Config, i: nat, l: Leaf, r: Run,
      s: Run)
    requires |steps| == |start.mem.leaves| == Count(start.mem.tree) && Framed(start, start, 0) && i < |steps|
    requires r == Exec(start, steps, env, cfg, i) && s == Exec(start, steps, env, cfg, i + 1)
    requires Idles(r, i, steps[i], env, cfg) && (steps[i].action == Submit ==> !GuardFires(r.mem.leaves, i))
    requires Still(start, i, l, 0, start)
    ensures Still(start, i, l, i + 1, s)
  {
    StillBetween(start, steps, env, cfg, i, l, 0, i);
    ExecFrame(start, steps, env, cfg, i + 1);
    IdleStepKeeps(r, i, steps[i], env, cfg, s);
  }

  /** A tick that loses leaf `i`'s acknowledgement stores exactly its deferral. */
  lemma {:induction false} LostTickDefers(d: Durable, env: Env, cfg: Config, i: nat)
    requires d.disk.Valid() && LosesAck(d, env, cfg, i)
    ensures var f := Tick(d, env, cfg);
      && |f.disk.leaves| == |d.disk.leaves|
      && f.disk.leaves[i]
         == Defer(d.disk.Path(i), d.disk.leaves[i], FateOf(env, i).reply, env.now, cfg.policy.deferredTimeout,
           NO_USAGE).leaf
  {
    var start, steps := Start(d, env), Steps(Prepare(d.disk, env), cfg);
    TickStarts(d, env, cfg);
    SubmittedStartsAsStored(d, env, cfg, i);
    GuardNeverFires(d, env, cfg, i);
    LostRunDefers(start, steps, env, cfg, i, Exec(start, steps, env, cfg, i), Exec(start, steps, env, cfg, i + 1));
    StoredToTheEnd(start, steps, env, cfg, i, Defer(d.disk.Path(i), d.disk.leaves[i], FateOf(env, i).reply, env.now,
      cfg.policy.deferredTimeout, NO_USAGE).leaf);
  }

  /** A tick that holds leaf `i` stores it as it was. */
  lemma {:induction false} HeldTickKeeps(d: Durable, env: Env, cfg: Config, i: nat)
    requires d.disk.Valid() && i < |d.disk.leaves| && Holds(d, env, cfg, i)
    ensures var f := Tick(d, env, cfg);
      |f.disk.leaves| == |d.disk.leaves| && f.disk.leaves[i] == d.disk.leaves[i]
  {
    if !HasDuplicates(Prepare(d.disk, env), cfg) {
      var start, steps := Start(d, env), Steps(Prepare(d.disk, env), cfg);
      TickStarts(d, env, cfg);
      UnpreparedIsStored(d.disk, env, i);
      if steps[i].action == Submit { GuardNeverFires(d, env, cfg, i); }
      IdleRunKeeps(start, steps, env, cfg, i, d.disk.leaves[i], Exec(start, steps, env, cfg, i),
        Exec(start, steps, env, cfg, i + 1));
      StoredToTheEnd(start, steps, env, cfg, i, d.disk.leaves[i]);
    }
  }
}

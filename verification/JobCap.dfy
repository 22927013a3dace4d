/** The cap on jobs over whole runs: the ledger stays within it, the cluster may not. */
module JobCap {
  import opened Prelude
  import opened Agenda
  import opened Campaign
  import opened Planner
  import opened Engine
  import opened EngineSafety
  import opened EngineBudget
  import opened LostJobs
  import opened Runs

  // ---------------------------------------------------------------------------
  // Every run

  /** A tick that brings its own budget caps jobs at no more than `n`. */
  predicate CapsJobs(e: Event, n: int) {
    e.TickEvent? && e.cfg.budgetOverride.Some? ==>
      e.cfg.budgetOverride.value.maxTotal.Some? && e.cfg.budgetOverride.value.maxTotal.value <= n
  }

  /** The campaign's own budget caps jobs at no more than `n`, and its usage is within that. */
  predicate Capped(c: Campaign, n: int) {
    c.budget.maxTotal.Some? && c.budget.maxTotal.value <= n && c.usage.submitted <= n
  }

  lemma {:induction false} HappenKeepsCapped(d: Durable, e: Event, n: int)
    requires d.disk.Valid() && Capped(d.disk, n) && CapsJobs(e, n)
    ensures Capped(Happen(d, e).disk, n)
  {
    match e
    case TickEvent(env, cfg) => TickKeepsJobCap(d, env, cfg, n);
    case _ =>
  }

  lemma {:induction false} RunKeepsCapped(d: Durable, es: seq<Event>, n: int)
    requires d.disk.Valid() && Capped(d.disk, n) && forall e :: e in es ==> CapsJobs(e, n)
    ensures Capped(After(d, es).disk, n)
  {
    var inv := (s: Durable) => Capped(s.disk, n);
    forall s: Durable, e | s.disk.Valid() && inv(s) && e in es ensures inv(Happen(s, e)) { HappenKeepsCapped(s, e, n); }
    RunInvariant(d, es, inv);
  }

  /** Over every run of a campaign with a cap on jobs its usage counts no more jobs than the cap, and the cluster has
      started at most that many, and one for each leaf whose job the campaign was never told of. */
  lemma JobsWithinCapAndOrphans(d: Durable, es: seq<Event>, n: int)
    requires Fresh(d) && 0 <= n && d.disk.budget.maxTotal.Some? && d.disk.budget.maxTotal.value <= n
    requires forall e :: e in es ==> CapsJobs(e, n)
    ensures var f := After(d, es);
      f.disk.usage.submitted <= n && |f.launched| <= n + Orphans(f, |f.disk.leaves|)
  {
    RunKeepsCapped(d, es, n);
    JobsBeyondTheLedger(d, es);
  }

  // ---------------------------------------------------------------------------
  // When the campaign is told of every job

  lemma {:induction false} NoOrphansExactly(d: Durable, n: nat)
    requires d.disk.Valid() && n <= |d.disk.leaves|
    ensures Orphans(d, n) == 0 <==> forall i: nat | i < n && HasJob(d, i) :: Acknowledged(d.disk.leaves[i])
  {
    if n > 0 { NoOrphansExactly(d, n - 1); }
  }

  lemma {:induction false} ToldIsNoOrphans(d: Durable)
    requires d.disk.Valid()
    ensures Told(d.disk, d.jobs) <==> Orphans(d, |d.disk.leaves|) == 0
  {
    NoOrphansExactly(d, |d.disk.leaves|);
    forall i: nat | i < |d.disk.leaves| ensures HasJob(d, i) <==> d.disk.Key(i) in d.jobs { }
  }

  /** The event is a tick that sends a submission whose job starts unheard. */
  ghost predicate Loses(d: Durable, e: Event)
    requires d.disk.Valid()
  {
    e.TickEvent? && LosesJob(d, e.env, e.cfg)
  }

  /** A new leaf's command is unknown to the cluster. */
  lemma {:induction false} NewLeafHasNoJob(d: Durable, e: Event, c: Campaign)
    requires DurableSound(d) && e.AddLeaf? && c == Added(d.disk, e) && c != d.disk
    ensures c.Valid() && |c.leaves| == |d.disk.leaves| + 1 && c.Key(|d.disk.leaves|) !in d.jobs
  {
    AddedGrows(d.disk, e);
    var n := |d.disk.leaves|;
    if c.Key(n) in d.jobs {
      assert Mine(d.disk, c.Key(n));
      var i: nat :| i < n && c.Key(n) == d.disk.Key(i);
      assert d.disk.Key(i) == c.Key(i);
      KeysDistinct(c, i, n);
    }
  }

  lemma {:induction false} EditKeepsTold(d: Durable, e: Event)
    requires DurableSound(d) && Told(d.disk, d.jobs) && !e.TickEvent? && Happen(d, e).disk.Valid()
    ensures Told(Happen(d, e).disk, Happen(d, e).jobs)
  {
    var f := Happen(d, e);
    HappenExtends(d, e);
    if e.AddLeaf? && f != d { NewLeafHasNoJob(d, e, f.disk); }
    forall i: nat | i < |f.disk.leaves| && f.disk.Key(i) in f.jobs ensures Acknowledged(f.disk.leaves[i]) {
      assert Mine(f.disk, f.disk.Key(i));
      if i < |d.disk.leaves| { assert f.disk.Key(i) == d.disk.Key(i) && f.disk.Key(i) in d.jobs; }
    }
  }

  lemma {:induction false} HappenLosesExactly(d: Durable, e: Event, f: Durable)
    requires DurableSound(d) && Told(d.disk, d.jobs) && f == Happen(d, e) && f.disk.Valid()
    ensures Told(f.disk, f.jobs) <==> !Loses(d, e)
  {
    if e.TickEvent? { TickLosesExactly(d, e.env, e.cfg); } else { EditKeepsTold(d, e); }
  }

  lemma {:induction false} FreshIsTold(d: Durable)
    requires Fresh(d)
    ensures Told(d.disk, d.jobs)
  {
    forall i: nat | i < |d.disk.leaves| ensures d.disk.Key(i) !in d.jobs { assert Mine(d.disk, d.disk.Key(i)); }
  }

  /** Through the first `k` events no tick lost a job. */
  ghost predicate NoneLost(d: Durable, es: seq<Event>, k: nat)
    requires d.disk.Valid() && k <= |es|
  {
    forall j: nat | j < k :: !Loses(State(d, es, j), es[j])
  }

  lemma {:induction false} ToldWhileNoneLost(d: Durable, es: seq<Event>, k: nat)
    requires Fresh(d) && k <= |es| && NoneLost(d, es, k)
    ensures var s := State(d, es, k); DurableSound(s) && Told(s.disk, s.jobs)
  {
    RunsStaySound(d, es[..k]);
    if k == 0 {
      FreshIsTold(d);
    } else {
      ToldWhileNoneLost(d, es, k - 1);
      StateNext(d, es, k - 1);
      HappenLosesExactly(State(d, es, k - 1), es[k - 1], State(d, es, k));
    }
  }

  ghost predicate AlwaysTold(d: Durable, es: seq<Event>)
    requires d.disk.Valid()
  {
    forall k: nat | k <= |es| :: Orphans(State(d, es, k), |State(d, es, k).disk.leaves|) == 0
  }

  /** From its creation and throughout a run a campaign knows of every job it has exactly when no tick of the run, as
      its plan, its gates, the answers it will get and its life stand, sends a submission whose job starts and whose
      acknowledgement does not come or is not saved. */
  lemma {:induction false} AlwaysToldExactly(d: Durable, es: seq<Event>)
    requires Fresh(d)
    ensures AlwaysTold(d, es) <==> NoneLost(d, es, |es|)
  {
    if NoneLost(d, es, |es|) {
      forall k: nat | k <= |es| ensures Orphans(State(d, es, k), |State(d, es, k).disk.leaves|) == 0 {
        ToldWhileNoneLost(d, es, k);
        ToldIsNoOrphans(State(d, es, k));
      }
    } else {
      var k := FirstLoss(d, es, |es|);
      ToldWhileNoneLost(d, es, k);
      StateNext(d, es, k);
      HappenLosesExactly(State(d, es, k), es[k], State(d, es, k + 1));
      ToldIsNoOrphans(State(d, es, k + 1));
    }
  }

  lemma {:induction false} FirstLoss(d: Durable, es: seq<Event>, n: nat) returns (k: nat)
    requires d.disk.Valid() && n <= |es| && !NoneLost(d, es, n)
    ensures k < n && NoneLost(d, es, k) && Loses(State(d, es, k), es[k])
  {
    if NoneLost(d, es, n - 1) { k := n - 1; } else { k := FirstLoss(d, es, n - 1); }
  }

  // ---------------------------------------------------------------------------
  // A condition on the events alone

  /** Every job the tick starts is acknowledged, and the process cannot die between a submission, of at most `m`, and
      its save: it lives for an odd number of actions, for none, or for more than two a submission. */
  predicate Answered(e: Event, m: nat) {
    e.TickEvent? ==>
      && (forall f :: f in e.env.fates && f.launches ==> f.reply.Ack?)
      && (e.env.life % 2 == 1 || e.env.life == 0 || e.env.life > 2 * m)
  }

  lemma {:induction false} TallyBounded(c: Campaign, steps: seq<Step>, env: Env, cfg: Config, i: nat)
    requires |steps| == |c.leaves| == Count(c.tree) && i <= |steps|
    ensures TallyAt(c, steps, env, cfg, i).sent <= i
  {
    if i > 0 { TallyBounded(c, steps, env, cfg, i - 1); }
  }

  lemma {:induction false} AnsweredIsHeard(c: Campaign, steps: seq<Step>, env: Env, cfg: Config, i: nat, m: nat)
    requires |steps| == |c.leaves| == Count(c.tree) && i < |steps| <= m
    requires forall f :: f in env.fates && f.launches ==> f.reply.Ack?
    requires env.life % 2 == 1 || env.life == 0 || env.life > 2 * m
    ensures !Unheard(c, steps, env, cfg, i)
  {
    TallyBounded(c, steps, env, cfg, i);
    if i < |env.fates| { assert env.fates[i] in env.fates; }
  }

  lemma {:induction false} AnsweredLosesNothing(d: Durable, e: Event, m: nat)
    requires d.disk.Valid() && |d.disk.leaves| <= m && Answered(e, m)
    ensures !Loses(d, e)
  {
    if e.TickEvent? {
      var f, steps := First(d.disk, e.env), Steps(Prepare(d.disk, e.env), e.cfg);
      FirstFrame(d.disk, e.env);
      forall i: nat | i < |f.leaves| && |steps| == |f.leaves| == Count(f.tree)
        ensures !Unheard(f, steps, e.env, e.cfg, i)
      {
        AnsweredIsHeard(f, steps, e.env, e.cfg, i, m);
      }
    }
  }

  lemma {:induction false} HappenAddsOne(d: Durable, e: Event)
    requires d.disk.Valid()
    ensures |Happen(d, e).disk.leaves| <= |d.disk.leaves| + 1
  {
    if e.TickEvent? { TickKeepsWork(d, e.env, e.cfg); }
  }

  lemma {:induction false} NextAddsOne(d: Durable, es: seq<Event>, j: nat, k: nat)
    requires d.disk.Valid() && k == j + 1 <= |es|
    ensures |State(d, es, k).disk.leaves| <= |State(d, es, j).disk.leaves| + 1
  {
    StateNext(d, es, j);
    HappenAddsOne(State(d, es, j), es[j]);
  }

  lemma {:induction false} LeavesBounded(d: Durable, es: seq<Event>, k: nat)
    requires d.disk.Valid() && k <= |es|
    ensures |State(d, es, k).disk.leaves| <= |d.disk.leaves| + k
  {
    if k == 0 {
      assert es[..0] == [];
    } else {
      LeavesBounded(d, es, k - 1);
      NextAddsOne(d, es, k - 1, k);
    }
  }

  /** A campaign with a cap on jobs all of whose ticks are answered starts no more jobs than the cap: the campaign knows
      of each, and its usage counts them all. */
  lemma {:induction false} AnsweredRunsStayWithinCap(d: Durable, es: seq<Event>, n: int)
    requires Fresh(d) && 0 <= n && d.disk.budget.maxTotal.Some? && d.disk.budget.maxTotal.value <= n
    requires forall e :: e in es ==> CapsJobs(e, n) && Answered(e, |d.disk.leaves| + |es|)
    ensures AlwaysTold(d, es)
    ensures var f := After(d, es); |f.launched| == f.disk.usage.submitted <= n
  {
    forall k: nat | k < |es| ensures !Loses(State(d, es, k), es[k]) {
      LeavesBounded(d, es, k);
      assert es[k] in es;
      AnsweredLosesNothing(State(d, es, k), es[k], |d.disk.leaves| + |es|);
    }
    AlwaysToldExactly(d, es);
    assert State(d, es, |es|) == After(d, es) by { assert es[..|es|] == es; }
    JobsWithinCapAndOrphans(d, es, n);
    JobsBeyondTheLedger(d, es);
  }

  // ---------------------------------------------------------------------------
  // Exactly how many

  /** The event leaves the cluster with no more than `n` of the campaign's jobs. */
  predicate StaysWithin(d: Durable, e: Event, n: int)
    requires d.disk.Valid()
  {
    e.TickEvent? ==> |d.launched| + NewJobs(d, e.env, e.cfg) <= n
  }

  ghost predicate Within(d: Durable, es: seq<Event>, n: int, j: nat)
    requires d.disk.Valid() && j < |es|
  {
    StaysWithin(State(d, es, j), es[j], n)
  }

  ghost predicate EachWithin(d: Durable, es: seq<Event>, n: int)
    requires d.disk.Valid()
  {
    forall j: nat | j < |es| :: Within(d, es, n, j)
  }

  lemma {:induction false} HappenStarts(d: Durable, e: Event)
    requires DurableSound(d)
    ensures |Happen(d, e).launched| == |d.launched| + if e.TickEvent? then NewJobs(d, e.env, e.cfg) else 0
  {
    if e.TickEvent? { TickStartsExactly(d, e.env, e.cfg); }
  }

  lemma {:induction false} StaysWithinExactly(d: Durable, e: Event, f: Durable, n: int)
    requires DurableSound(d) && f == Happen(d, e)
    ensures |f.launched| <= n <==> |d.launched| <= n && StaysWithin(d, e, n)
  {
    HappenStarts(d, e);
  }

  lemma {:induction false} NextWithin(d: Durable, es: seq<Event>, n: int, k: nat)
    requires Fresh(d) && k < |es|
    ensures |State(d, es, k + 1).launched| <= n <==> |State(d, es, k).launched| <= n && Within(d, es, n, k)
  {
    StateNext(d, es, k);
    RunsStaySound(d, es[..k]);
    StaysWithinExactly(State(d, es, k), es[k], State(d, es, k + 1), n);
  }

  /** A property that each step keeps exactly when it is safe holds at the end exactly when all steps are. */
  lemma {:induction false} SafeToTheEnd(good: nat -> bool, safe: nat -> bool, k: nat)
    requires good(0) && forall j: nat | j < k :: good(j + 1) <==> good(j) && safe(j)
    ensures good(k) <==> forall j: nat | j < k :: safe(j)
  {
    if k > 0 { SafeToTheEnd(good, safe, k - 1); }
  }

  lemma {:induction false} EachIsSafe(d: Durable, es: seq<Event>, n: int, safe: nat -> bool)
    requires d.disk.Valid() && forall j: nat | j < |es| :: safe(j) <==> Within(d, es, n, j)
    ensures EachWithin(d, es, n) <==> forall j: nat | j < |es| :: safe(j)
  {
    if EachWithin(d, es, n) {
      forall j: nat | j < |es| ensures safe(j) { assert Within(d, es, n, j); }
    } else {
      var j: nat :| j < |es| && !Within(d, es, n, j);
      assert !safe(j);
    }
  }

  /** The cluster has started no more than `n` jobs by the end of a run exactly when each tick, as it stands before it
      begins, sends no more submissions of unknown commands whose jobs start than are left. */
  lemma {:induction false} ClusterWithinExactly(d: Durable, es: seq<Event>, n: int)
    requires Fresh(d) && 0 <= n
    ensures |After(d, es).launched| <= n <==> EachWithin(d, es, n)
  {
    var good := (k: nat) => k <= |es| && |State(d, es, k).launched| <= n;
    var safe := (k: nat) => k < |es| && Within(d, es, n, k);
    forall k: nat | k < |es| ensures good(k + 1) <==> good(k) && safe(k) { NextWithin(d, es, n, k); }
    assert es[..0] == [];
    SafeToTheEnd(good, safe, |es|);
    assert es[..|es|] == es;
    EachIsSafe(d, es, n, safe);
  }

  // ---------------------------------------------------------------------------
  // A run beyond the cap

  /** A leaf that waits for nothing and has no simulation yet. */
  predicate Unhindered(l: Leaf) {
    l.simId.None? && l.work.dependsOn == [] && !l.work.requiresApproval && l.deferral == NOT_DEFERRED
  }

  const ONE_JOB := Budget(None, None, None, Some(1), None)

  /** A campaign of two leaves and one job, nothing of which is used; the second leaf is planned. */
  ghost predicate Pair(c: Campaign) {
    && c.Valid() && c.state.LifeRunning? && c.budget == ONE_JOB && c.usage == NO_USAGE && |c.leaves| == 2
    && !c.leaves[0].status.InFlight() && c.leaves[1].status.Planned?
    && c.leaves[0].simId.None? && c.leaves[0].work.dependsOn == [] && !c.leaves[0].work.requiresApproval
    && Unhindered(c.leaves[1])
    && WireOf(c.leaves[0].work.spec) != WireOf(c.leaves[1].work.spec)
  }

  lemma {:induction false} PairPrepared(c: Campaign, fates: seq<Fate>)
    requires Pair(c)
    ensures CountInFlight(c.leaves) == 0 && Prepare(c, QuietEnv(fates)) == c
  {
    NoneInFlight(c.leaves);
    NothingToPrepare(c, QuietEnv(fates));
  }

  lemma {:induction false} FirstOfPair(c: Campaign)
    requires Pair(c) && c.leaves[0].status.Planned? && Unhindered(c.leaves[0])
    ensures PlanStep(c, OPEN_CONFIG, 0).action == Submit && PlanStep(c, OPEN_CONFIG, 1).action == Wait
  {
    NoneInFlight(c.leaves);
    FreeLeafSubmits(c, OPEN_CONFIG, 0, NO_USAGE);
  }

  lemma {:induction false} SecondOfPair(c: Campaign)
    requires Pair(c) && c.leaves[0].status.Failed?
    ensures PlanStep(c, OPEN_CONFIG, 0).action == MarkFailed && PlanStep(c, OPEN_CONFIG, 1).action == Submit
  {
    NoneInFlight(c.leaves);
    assert PlannedUsage(c.tree, c.leaves, BudgetOf(c, OPEN_CONFIG), c.usage, 0) == NO_USAGE;
    FreeLeafSubmits(c, OPEN_CONFIG, 1, NO_USAGE);
  }

  lemma {:induction false} PairScan(c: Campaign)
    requires Pair(c)
    ensures !HasDuplicates(c, OPEN_CONFIG)
  {
    DistinctPayloadsScan(c, OPEN_CONFIG);
  }

  /** A step that neither submits nor decides anything. */
  lemma {:induction false} QuietStep(r: Run, i: nat, step: Step, env: Env, cfg: Config)
    requires r.mem.Valid() && i < |r.mem.leaves|
    requires step.action == Wait || (step.action == MarkFailed && r.mem.leaves[i].status.Terminal())
    ensures var s := ExecStep(r, i, step, env, cfg);
      && s.life == r.life && s.jobs == r.jobs && s.launched == r.launched && s.submitted == r.submitted
      && s.mem.leaves == r.mem.leaves && s.mem.usage == r.mem.usage
  {
  }

  /** The job of an unblocked submission the cluster has not seen starts, whatever is heard of it. */
  lemma {:induction false} LaunchStep(r: Run, i: nat, step: Step, env: Env, cfg: Config)
    requires r.mem.Valid() && i < |r.mem.leaves| && step.action == Submit && r.life >= 2
    requires SubmissionBlock(r, i, env, cfg).None? && !GuardFires(r.mem.leaves, i)
    requires FateOf(env, i).launches && r.mem.Key(i) !in r.jobs
    ensures var s := ExecStep(r, i, step, env, cfg);
      s.launched == r.launched + [r.mem.Key(i)] && s.jobs.Keys == r.jobs.Keys + {r.mem.Key(i)} && s.life == r.life - 2
  {
  }

  /** A first lost acknowledgement under a timeout of no time fails the leaf and charges nothing. */
  lemma {:induction false} LossStep(r: Run, i: nat, step: Step, env: Env, cfg: Config)
    requires r.mem.Valid() && i < |r.mem.leaves| && step.action == Submit && r.life >= 2
    requires SubmissionBlock(r, i, env, cfg).None? && !GuardFires(r.mem.leaves, i)
    requires FateOf(env, i).reply == Unknown("lost", None, None) && cfg.policy.deferredTimeout == 0
    requires Unhindered(r.mem.leaves[i])
    ensures var s := ExecStep(r, i, step, env, cfg);
      && s.mem.usage == r.mem.usage && |s.mem.leaves| == |r.mem.leaves|
      && s.mem.leaves[i].status.Failed? && s.mem.leaves[i].simId.None?
  {
  }

  /** What a quiet tick of such a campaign starts from. */
  ghost predicate Begins(c: Campaign, r: Run) {
    && Framed(r, r, 0) && r.mem.tree == c.tree && r.mem.name == c.name && r.life == 6 && r.submitted == []
    && r.mem.state.LifeRunning? && r.mem.budget == ONE_JOB && r.mem.usage == NO_USAGE && |r.mem.leaves| == |c.leaves|
    && forall j: nat | j < |c.leaves| :: SameRecord(c.leaves[j], r.mem.leaves[j])
  }

  ghost predicate SameRecord(l: Leaf, m: Leaf) {
    m.work == l.work && m.status == l.status && m.simId == l.simId && m.deferral == l.deferral
  }

  lemma {:induction false} PairBegins(d: Durable, fates: seq<Fate>, start: Run)
    requires Pair(d.disk) && start == Start(d, QuietEnv(fates))
    ensures Begins(d.disk, start) && start.jobs == d.jobs && start.launched == d.launched
  {
    var env := QuietEnv(fates);
    PairPrepared(d.disk, fates);
    TickStarts(d, env, OPEN_CONFIG);
    FirstFrame(d.disk, env);
  }

  /** No gate is in the way of leaf `i`. */
  lemma {:induction false} PairUnblocked(c: Campaign, r: Run, i: nat, env: Env)
    requires r.mem.Valid() && |r.mem.leaves| == 2 && i < 2 && r.submitted == []
    requires r.mem.state.LifeRunning? && r.mem.budget == ONE_JOB && !r.mem.leaves[i].work.requiresApproval
    requires r.mem.leaves[0].simId.None? && r.mem.leaves[1].simId.None?
    ensures SubmissionBlock(r, i, env, OPEN_CONFIG).None? && !GuardFires(r.mem.leaves, i)
  {
  }

  lemma {:induction false} WireKept(c: Campaign, e: Campaign)
    requires Pair(c) && |e.leaves| == 2 && forall j :: 0 <= j < 2 ==> e.leaves[j].work == c.leaves[j].work
    ensures WireOf(e.leaves[0].work.spec) != WireOf(e.leaves[1].work.spec)
  {
  }

  /** The steps of the first tick: the first leaf's acknowledgement is lost, the second does not fit. */
  lemma {:induction false} FirstRun(c: Campaign, start: Run, steps: seq<Step>, env: Env, r: Run, s: Run)
    requires Pair(c) && c.leaves[0].status.Planned? && Unhindered(c.leaves[0]) && Begins(c, start) && |steps| == 2
    requires steps[0].action == Submit && steps[1].action == Wait
    requires FateOf(env, 0) == Fate(true, "s", Unknown("lost", None, None)) && start.mem.Key(0) !in start.jobs
    requires r == ExecStep(start, 0, steps[0], env, OPEN_CONFIG) && |r.mem.leaves| == Count(r.mem.tree) == 2
      && s == ExecStep(r, 1, steps[1], env, OPEN_CONFIG)
    ensures s.life == 4 && s.launched == start.launched + [start.mem.Key(0)]
      && s.jobs.Keys == start.jobs.Keys + {start.mem.Key(0)}
    ensures Framed(start, s, 2) && Pair(s.mem) && s.mem.leaves[0].status.Failed?
  {
    assert SameRecord(c.leaves[0], start.mem.leaves[0]) && SameRecord(c.leaves[1], start.mem.leaves[1]);
    PairUnblocked(c, start, 0, env);
    LaunchStep(start, 0, steps[0], env, OPEN_CONFIG);
    LossStep(start, 0, steps[0], env, OPEN_CONFIG);
    FramedStep(start, start, 0, steps[0], env, OPEN_CONFIG);
    FramedStep(start, r, 1, steps[1], env, OPEN_CONFIG);
    QuietStep(r, 1, steps[1], env, OPEN_CONFIG);
    WireKept(c, s.mem);
  }

  /** The steps of the second: the first leaf has failed and counts for nothing, so the second is accepted. */
  lemma {:induction false} SecondRun(c: Campaign, start: Run, steps: seq<Step>, env: Env, r: Run, s: Run)
    requires Pair(c) && c.leaves[0].status.Failed? && Begins(c, start) && |steps| == 2
    requires steps[0].action == MarkFailed && steps[1].action == Submit
    requires FateOf(env, 1).launches && start.mem.Key(1) !in start.jobs
    requires r == ExecStep(start, 0, steps[0], env, OPEN_CONFIG) && |r.mem.leaves| == Count(r.mem.tree) == 2
      && s == ExecStep(r, 1, steps[1], env, OPEN_CONFIG)
    ensures s.life == 4 && s.launched == start.launched + [start.mem.Key(1)]
  {
    assert SameRecord(c.leaves[0], start.mem.leaves[0]) && SameRecord(c.leaves[1], start.mem.leaves[1]);
    FramedStep(start, start, 0, steps[0], env, OPEN_CONFIG);
    QuietStep(start, 0, steps[0], env, OPEN_CONFIG);
    PairUnblocked(c, r, 1, env);
    LaunchStep(r, 1, steps[1], env, OPEN_CONFIG);
  }

  /** The tick of a pair is its two steps and the final save. */
  lemma {:induction false} PairTick(d: Durable, env: Env, start: Run, steps: seq<Step>, r: Run, s: Run)
    requires Pair(d.disk) && Prepare(d.disk, env) == d.disk && start == Start(d, env)
    requires steps == Steps(d.disk, OPEN_CONFIG) && |start.mem.leaves| == Count(start.mem.tree) == |steps| == 2
    requires r == ExecStep(start, 0, steps[0], env, OPEN_CONFIG) && |r.mem.leaves| == Count(r.mem.tree) == 2
      && s == ExecStep(r, 1, steps[1], env, OPEN_CONFIG) && s.life > 0
    ensures Tick(d, env, OPEN_CONFIG) == d.(disk := s.mem, jobs := s.jobs, launched := s.launched)
  {
    PairScan(d.disk);
    assert Exec(start, steps, env, OPEN_CONFIG, 0) == start;
    assert Exec(start, steps, env, OPEN_CONFIG, 1) == r;
    assert Exec(start, steps, env, OPEN_CONFIG, 2) == s;
  }

  const LOST := Fate(true, "s", Unknown("lost", None, None))
  const ACCEPTED := Fate(true, "t", Ack)

  lemma {:induction false} FirstTick(d: Durable, env: Env, f: Durable)
    requires Pair(d.disk) && d.disk.leaves[0].status.Planned? && Unhindered(d.disk.leaves[0])
    requires env == QuietEnv([LOST]) && d.disk.Key(0) !in d.jobs && f == Tick(d, env, OPEN_CONFIG)
    ensures Pair(f.disk) && f.disk.leaves[0].status.Failed? && f.disk.name == d.disk.name && f.disk.tree == d.disk.tree
    ensures forall j :: 0 <= j < 2 ==> f.disk.leaves[j].work == d.disk.leaves[j].work
    ensures f.launched == d.launched + [d.disk.Key(0)] && f.jobs.Keys == d.jobs.Keys + {d.disk.Key(0)}
  {
    var start, steps := Start(d, env), Steps(d.disk, OPEN_CONFIG);
    PairPrepared(d.disk, env.fates);
    PairBegins(d, env.fates, start);
    FirstOfPair(d.disk);
    assert SameRecord(d.disk.leaves[0], start.mem.leaves[0]);
    var r := ExecStep(start, 0, steps[0], env, OPEN_CONFIG);
    var s := ExecStep(r, 1, steps[1], env, OPEN_CONFIG);
    FirstRun(d.disk, start, steps, env, r, s);
    PairTick(d, env, start, steps, r, s);
  }

  lemma {:induction false} SecondTick(d: Durable, env: Env, f: Durable)
    requires Pair(d.disk) && d.disk.leaves[0].status.Failed?
    requires env == QuietEnv([LOST, ACCEPTED]) && d.disk.Key(1) !in d.jobs && f == Tick(d, env, OPEN_CONFIG)
    ensures f.launched == d.launched + [d.disk.Key(1)]
  {
    var start, steps := Start(d, env), Steps(d.disk, OPEN_CONFIG);
    PairPrepared(d.disk, env.fates);
    PairBegins(d, env.fates, start);
    SecondOfPair(d.disk);
    assert SameRecord(d.disk.leaves[1], start.mem.leaves[1]);
    var r := ExecStep(start, 0, steps[0], env, OPEN_CONFIG);
    var s := ExecStep(r, 1, steps[1], env, OPEN_CONFIG);
    SecondRun(d.disk, start, steps, env, r, s);
    PairTick(d, env, start, steps, r, s);
  }

  lemma {:induction false} AfterTwo(d: Durable, e: Event, f: Event)
    requires d.disk.Valid()
    ensures Happen(d, e).disk.Valid() && After(d, [e, f]) == Happen(Happen(d, e), f)
  {
    HappenKeepsValid(d, e);
    assert [e, f][..1] == [e] && [e][..0] == [];
    assert After(d, []) == d && After(d, [e]) == Happen(d, e);
  }

  lemma {:induction false} OrphanTicks(d: Durable, a: Env, b: Env, f: Durable)
    requires Fresh(d) && Pair(d.disk) && a == QuietEnv([LOST]) && b == QuietEnv([LOST, ACCEPTED])
    requires f == Tick(d, a, OPEN_CONFIG) && f.disk.Valid()
    ensures |Tick(f, b, OPEN_CONFIG).launched| == 2
  {
    NothingYet(d);
    FirstTick(d, a, f);
    OtherKey(d.disk, f.disk);
    SecondTick(f, b, Tick(f, b, OPEN_CONFIG));
  }

  /** Two leaves, one job allowed, and no time allowed for a lost acknowledgement: the first tick starts the first
      leaf's job, never hears of it and fails the leaf; the second finds the whole budget unused and starts the
      other. */
  lemma {:induction false} OrphanBreaksCap(d: Durable, es: seq<Event>)
    requires Fresh(d) && Pair(d.disk)
    requires es == [TickEvent(QuietEnv([LOST]), OPEN_CONFIG), TickEvent(QuietEnv([LOST, ACCEPTED]), OPEN_CONFIG)]
    ensures d.disk.budget.maxTotal == Some(1) && |After(d, es).launched| == 2
  {
    AfterTwo(d, es[0], es[1]);
    OrphanTicks(d, es[0].env, es[1].env, Tick(d, es[0].env, OPEN_CONFIG));
  }

  lemma {:induction false} NothingYet(d: Durable)
    requires Fresh(d) && Pair(d.disk)
    ensures d.disk.leaves[0].status.Planned? && Unhindered(d.disk.leaves[0])
    ensures d.disk.Key(0) !in d.jobs && d.disk.Key(1) !in d.jobs
  {
    assert d.disk.leaves[0] == FreshLeaf(d.disk.leaves[0].work);
    assert Mine(d.disk, d.disk.Key(0)) && Mine(d.disk, d.disk.Key(1));
  }

  lemma {:induction false} OtherKey(c: Campaign, e: Campaign)
    requires c.Valid() && e.Valid() && |c.leaves| == |e.leaves| == 2 && c.name == e.name && c.tree == e.tree
    requires forall j :: 0 <= j < 2 ==> e.leaves[j].work == c.leaves[j].work
    ensures e.Key(0) == c.Key(0) && e.Key(1) == c.Key(1) && c.Key(0) != c.Key(1)
  {
    if c.Key(0) == c.Key(1) { KeysDistinct(c, 0, 1); }
  }

  function NewPairLeaf(sim: string): Leaf {
    FreshLeaf(Work(Spec(Some(sim), "", ResourceRequest(1.0, 0.0, None, false)), None, [], false))
  }

  /** There is such a campaign. */
  function TwoLeaves(): Durable {
    Durable(Campaign("c", Sim("a", Sim("b", End)), [NewPairLeaf("a"), NewPairLeaf("b")], ONE_JOB, NO_USAGE, [],
      LifeRunning), map[], [], [])
  }

  lemma TwoLeavesAreAPair()
    ensures Fresh(TwoLeaves()) && Pair(TwoLeaves().disk)
  {
    assert "a"[0] != "b"[0];
  }
}

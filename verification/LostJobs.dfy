/** Which ticks leave a job running that the campaign does not know it has. */
module LostJobs {
  import opened Agenda
  import opened Campaign
  import opened Planner
  import opened Engine
  import opened EngineSafety
  import opened EngineDuplicates
  import opened EngineGating
  import opened EngineLedger
  import opened Runs

  // ---------------------------------------------------------------------------
  // What a tick sends, told from its plan, its gates and the answers to come

  /** Submissions sent so far in a tick, and how many of them were acknowledged. */
  datatype Tally = Tally(sent: nat, accepted: nat)

  /** After these, the submission of leaf `i` passes every gate and the process lives to send it: the first save is one
      action, each submission two. */
  predicate Sends(c: Campaign, steps: seq<Step>, env: Env, cfg: Config, i: nat, t: Tally)
    requires |steps| == |c.leaves| == Count(c.tree) && i < |steps|
  {
    var cap := BudgetOf(c, cfg).maxConcurrent;
    && steps[i].action == Submit && c.state.LifeRunning? && env.life > 2 * t.sent + 1
    && t.accepted < cfg.policy.maxSubmitsPerTick && (cap.Some? ==> c.usage.running + t.accepted < cap.value)
    && Cleared(c.Path(i), c.leaves[i], env, cfg.policy)
  }

  function TallyAt(c: Campaign, steps: seq<Step>, env: Env, cfg: Config, i: nat): Tally
    requires |steps| == |c.leaves| == Count(c.tree) && i <= |steps|
  {
    if i == 0 then Tally(0, 0)
    else
      var t := TallyAt(c, steps, env, cfg, i - 1);
      if !Sends(c, steps, env, cfg, i - 1, t) then t
      else Tally(t.sent + 1, t.accepted + if FateOf(env, i - 1).reply.Ack? then 1 else 0)
  }

  /** The cluster starts the job, and either the answer is no acknowledgement or the process dies before it saves it. */
  predicate Unheard(c: Campaign, steps: seq<Step>, env: Env, cfg: Config, i: nat)
    requires |steps| == |c.leaves| == Count(c.tree) && i < |steps|
  {
    var t, fate := TallyAt(c, steps, env, cfg, i), FateOf(env, i);
    && Sends(c, steps, env, cfg, i, t) && (fate.launches || fate.reply.Ack?)
    && !(fate.reply.Ack? && env.life > 2 * t.sent + 2)
  }

  /** The tick sends a submission whose job starts unheard. */
  ghost predicate LosesJob(d: Durable, env: Env, cfg: Config)
    requires d.disk.Valid()
  {
    var p, f := Prepare(d.disk, env), First(d.disk, env);
    && !HasDuplicates(p, cfg) && |Steps(p, cfg)| == |f.leaves| == Count(f.tree)
    && exists i: nat :: i < |f.leaves| && Unheard(f, Steps(p, cfg), env, cfg, i)
  }

  // ---------------------------------------------------------------------------
  // The tally is what the loop does

  function Left(env: Env, sent: nat): nat {
    if env.life > 2 * sent + 1 then env.life - 1 - 2 * sent else 0
  }

  /** A run's counters are the tally's. */
  ghost predicate Tallied(c: Campaign, env: Env, t: Tally, r: Run) {
    r.life == Left(env, t.sent) && |r.submitted| == t.accepted && r.inFlight == c.usage.running + t.accepted
  }

  /** The submission of leaf `i` is sent. */
  predicate Sent(r: Run, i: nat, step: Step, env: Env, cfg: Config)
    requires |r.mem.leaves| == Count(r.mem.tree) && i < |r.mem.leaves|
  {
    r.life > 0 && step.action == Submit && SubmissionBlock(r, i, env, cfg).None?
  }

  lemma {:induction false} SentIsSends(start: Run, r: Run, i: nat, steps: seq<Step>, env: Env, cfg: Config, t: Tally)
    requires |steps| == |start.mem.leaves| && i < |steps| && Framed(start, start, 0) && Framed(start, r, i)
    requires Tallied(start.mem, env, t, r)
    ensures Sent(r, i, steps[i], env, cfg) <==> Sends(start.mem, steps, env, cfg, i, t)
  {
    assert r.mem.leaves[i] == start.mem.leaves[i] && r.mem.Path(i) == start.mem.Path(i);
    MaySubmitExactly(start.mem.Path(i), start.mem.leaves[i], env, cfg.policy);
  }

  /** What sending a submission past the silent guard does. */
  lemma {:induction false} SentStep(r: Run, i: nat, step: Step, env: Env, cfg: Config, s: Run)
    requires r.mem.Valid() && i < |r.mem.leaves| && Sent(r, i, step, env, cfg) && !GuardFires(r.mem.leaves, i)
    requires !Acknowledged(r.mem.leaves[i]) && !r.mem.leaves[i].reused && s == ExecStep(r, i, step, env, cfg)
    ensures s.life == if r.life > 1 then r.life - 2 else 0
    ensures var fate, key := FateOf(env, i), r.mem.Key(i);
      && s.jobs.Keys == r.jobs.Keys + (if fate.launches || fate.reply.Ack? then {key} else {})
      && s.submitted == r.submitted + (if fate.reply.Ack? then [i] else [])
      && s.inFlight == r.inFlight + (if fate.reply.Ack? then 1 else 0)
      && |s.mem.leaves| == |r.mem.leaves| && (Acknowledged(s.mem.leaves[i]) <==> fate.reply.Ack?)
    ensures s.disk == if r.life > 1 then s.mem else r.disk
  {
  }

  lemma {:induction false} UnsentStep(r: Run, i: nat, step: Step, env: Env, cfg: Config, s: Run)
    requires r.mem.Valid() && i < |r.mem.leaves| && !Sent(r, i, step, env, cfg) && s == ExecStep(r, i, step, env, cfg)
    ensures s.life == r.life && s.jobs == r.jobs && s.submitted == r.submitted && s.inFlight == r.inFlight
    ensures s.disk == r.disk && |s.mem.leaves| == |r.mem.leaves|
    ensures Acknowledged(s.mem.leaves[i]) <==> Acknowledged(r.mem.leaves[i])
  {
  }

  /** What the loop starts from, and what its plan is. */
  ghost predicate Ready(start: Run, steps: seq<Step>, env: Env) {
    && RunSound(start) && Framed(start, start, 0) && Fits(start.mem, steps) && Scanned(start.mem.leaves, steps)
    && Tallied(start.mem, env, Tally(0, 0), start)
  }

  /** A leaf to be submitted has no run. */
  lemma {:induction false} SubmittedIsFree(start: Run, r: Run, i: nat, steps: seq<Step>)
    requires Fits(start.mem, steps) && i < |steps| && Framed(start, r, i) && RunSound(r) && steps[i].action == Submit
    ensures !Acknowledged(r.mem.leaves[i]) && !r.mem.leaves[i].reused
  {
    assert r.mem.leaves[i] == start.mem.leaves[i] && LeafSound(r.mem.Key(i), r.mem.leaves[i], r.jobs);
  }

  lemma {:induction false} LeftAfter(env: Env, sent: nat)
    ensures Left(env, sent + 1) == if Left(env, sent) > 1 then Left(env, sent) - 2 else 0
    ensures env.life > 2 * sent + 2 <==> Left(env, sent) > 1
  {
  }

  lemma {:induction false} TallyAfter(c: Campaign, steps: seq<Step>, env: Env, cfg: Config, i: nat, j: nat)
    requires |steps| == |c.leaves| == Count(c.tree) && i < |steps| && j == i + 1
    ensures var t := TallyAt(c, steps, env, cfg, i);
      TallyAt(c, steps, env, cfg, j) ==
        if !Sends(c, steps, env, cfg, i, t) then t
        else Tally(t.sent + 1, t.accepted + if FateOf(env, i).reply.Ack? then 1 else 0)
  {
  }

  lemma {:induction false} TallyStep(start: Run, r: Run, i: nat, steps: seq<Step>, env: Env, cfg: Config, s: Run,
      t: Tally, u: Tally)
    requires Fits(start.mem, steps) && Framed(start, start, 0) && i < |steps|
    requires Framed(start, r, i) && RunSound(r) && s == ExecStep(r, i, steps[i], env, cfg)
    requires steps[i].action == Submit ==> !GuardFires(r.mem.leaves, i)
    requires Tallied(start.mem, env, t, r)
    requires u == if !Sends(start.mem, steps, env, cfg, i, t) then t
      else Tally(t.sent + 1, t.accepted + if FateOf(env, i).reply.Ack? then 1 else 0)
    ensures Tallied(start.mem, env, u, s)
  {
    SentIsSends(start, r, i, steps, env, cfg, t);
    LeftAfter(env, t.sent);
    if Sent(r, i, steps[i], env, cfg) {
      SubmittedIsFree(start, r, i, steps);
      SentStep(r, i, steps[i], env, cfg, s);
    } else {
      UnsentStep(r, i, steps[i], env, cfg, s);
    }
  }

  lemma {:induction false} Reaches(start: Run, steps: seq<Step>, env: Env, cfg: Config, i: nat)
    requires Ready(start, steps, env) && i <= |steps|
    ensures var r := Exec(start, steps, env, cfg, i);
      && Framed(start, r, i) && RunSound(r)
      && (i < |steps| && steps[i].action == Submit ==> !GuardFires(r.mem.leaves, i))
  {
    ExecFrame(start, steps, env, cfg, i);
    ExecSound(start, steps, env, cfg, i);
    if i < |steps| && steps[i].action == Submit { GuardSilentAt(start, steps, env, cfg, i); }
  }

  ghost predicate TalliedAt(c: Campaign, steps: seq<Step>, env: Env, cfg: Config, k: nat, r: Run)
    requires |steps| == |c.leaves| == Count(c.tree) && k <= |steps|
  {
    Tallied(c, env, TallyAt(c, steps, env, cfg, k), r)
  }

  lemma {:induction false} TallyNext(start: Run, steps: seq<Step>, env: Env, cfg: Config, i: nat, r: Run, s: Run,
      j: nat)
    requires Ready(start, steps, env) && i < |steps| && j == i + 1
    requires r == Exec(start, steps, env, cfg, i) && s == Exec(start, steps, env, cfg, j)
    requires TalliedAt(start.mem, steps, env, cfg, i, r)
    ensures TalliedAt(start.mem, steps, env, cfg, j, s)
  {
    Reaches(start, steps, env, cfg, i);
    TallyAfter(start.mem, steps, env, cfg, i, j);
    TallyStep(start, r, i, steps, env, cfg, s, TallyAt(start.mem, steps, env, cfg, i),
      TallyAt(start.mem, steps, env, cfg, j));
  }

  lemma {:induction false} TallyRun(start: Run, steps: seq<Step>, env: Env, cfg: Config, i: nat)
    requires Ready(start, steps, env) && i <= |steps|
    ensures TalliedAt(start.mem, steps, env, cfg, i, Exec(start, steps, env, cfg, i))
  {
    if i > 0 {
      TallyRun(start, steps, env, cfg, i - 1);
      TallyNext(start, steps, env, cfg, i - 1, Exec(start, steps, env, cfg, i - 1), Exec(start, steps, env, cfg, i), i);
    }
  }

  // ---------------------------------------------------------------------------
  // Told or lost

  /** Every leaf that has a job knows it. */
  ghost predicate Told(c: Campaign, jobs: map<CmdId, SimId>)
    requires |c.leaves| == Count(c.tree)
  {
    forall i: nat | i < |c.leaves| && c.Key(i) in jobs :: Acknowledged(c.leaves[i])
  }

  ghost predicate ToldAll(r: Run) {
    r.mem.Valid() && r.disk.Valid() && Told(r.mem, r.jobs) && Told(r.disk, r.jobs)
  }

  /** Leaf `i` has a job, the store does not know it, and the process cannot save that it does. */
  ghost predicate Lost(r: Run, i: nat) {
    && r.mem.Valid() && i < |r.mem.leaves| == |r.disk.leaves| && r.mem.Key(i) in r.jobs
    && !Acknowledged(r.disk.leaves[i]) && (r.life == 0 || !Acknowledged(r.mem.leaves[i]))
  }

  lemma {:induction false} OtherKeys(r: Run, i: nat, s: Run)
    requires r.mem.Valid() && i < |r.mem.leaves| && Touches(r.mem, s.mem, i) && s.mem.Valid()
    ensures forall j: nat | j < |r.mem.leaves| :: s.mem.Key(j) == r.mem.Key(j)
    ensures forall j: nat | j < |r.mem.leaves| && j != i :: s.mem.Key(j) != s.mem.Key(i)
    ensures forall j: nat | j < |r.mem.leaves| && j != i :: s.mem.leaves[j] == r.mem.leaves[j]
  {
    forall j: nat | j < |r.mem.leaves| && j != i ensures s.mem.Key(j) != s.mem.Key(i) {
      if s.mem.Key(j) == s.mem.Key(i) { KeysDistinct(s.mem, j, i); }
    }
  }

  /** Leaf `i`'s own job is all that can be new; nobody else's record changes. */
  lemma {:induction false} ToldAfter(r: Run, i: nat, s: Run)
    requires r.mem.Valid() && i < |r.mem.leaves| && Told(r.mem, r.jobs) && Touches(r.mem, s.mem, i) && s.mem.Valid()
    requires s.jobs.Keys <= r.jobs.Keys + {r.mem.Key(i)}
    requires r.mem.Key(i) in s.jobs ==> Acknowledged(s.mem.leaves[i])
    ensures Told(s.mem, s.jobs)
  {
    OtherKeys(r, i, s);
    forall j: nat | j < |s.mem.leaves| && s.mem.Key(j) in s.jobs ensures Acknowledged(s.mem.leaves[j]) {
      if j != i { assert s.mem.Key(j) in s.jobs.Keys; }
    }
  }

  lemma {:induction false} ToldStep(start: Run, r: Run, i: nat, steps: seq<Step>, env: Env, cfg: Config, s: Run)
    requires Fits(start.mem, steps) && Framed(start, start, 0) && i < |steps|
    requires Framed(start, r, i) && RunSound(r) && s == ExecStep(r, i, steps[i], env, cfg)
    requires steps[i].action == Submit ==> !GuardFires(r.mem.leaves, i)
    requires Tallied(start.mem, env, TallyAt(start.mem, steps, env, cfg, i), r)
    requires ToldAll(r) && !Unheard(start.mem, steps, env, cfg, i)
    ensures ToldAll(s)
  {
    SentIsSends(start, r, i, steps, env, cfg, TallyAt(start.mem, steps, env, cfg, i));
    FramedStep(start, r, i, steps[i], env, cfg);
    StepTouches(r, i, steps[i], env, cfg);
    if Sent(r, i, steps[i], env, cfg) {
      SubmittedIsFree(start, r, i, steps);
      SentStep(r, i, steps[i], env, cfg, s);
    } else {
      UnsentStep(r, i, steps[i], env, cfg, s);
    }
    ToldAfter(r, i, s);
  }

  lemma {:induction false} LosingStep(start: Run, r: Run, i: nat, steps: seq<Step>, env: Env, cfg: Config, s: Run)
    requires Fits(start.mem, steps) && Framed(start, start, 0) && i < |steps|
    requires Framed(start, r, i) && RunSound(r) && s == ExecStep(r, i, steps[i], env, cfg)
    requires steps[i].action == Submit ==> !GuardFires(r.mem.leaves, i)
    requires Tallied(start.mem, env, TallyAt(start.mem, steps, env, cfg, i), r)
    requires ToldAll(r) && Unheard(start.mem, steps, env, cfg, i)
    ensures Lost(s, i)
  {
    SentIsSends(start, r, i, steps, env, cfg, TallyAt(start.mem, steps, env, cfg, i));
    FramedStep(start, r, i, steps[i], env, cfg);
    StepTouches(r, i, steps[i], env, cfg);
    SubmittedIsFree(start, r, i, steps);
    SentStep(r, i, steps[i], env, cfg, s);
    OtherKeys(r, i, s);
    assert r.disk.Key(i) == r.mem.Key(i) && LeafSound(r.disk.Key(i), r.disk.leaves[i], r.jobs);
    assert s.mem.Key(i) in s.jobs.Keys;
  }

  /** No later step finds the job again. */
  lemma {:induction false} LostStays(start: Run, r: Run, i: nat, k: nat, step: Step, env: Env, cfg: Config, s: Run)
    requires Framed(start, r, k) && i < k < |start.mem.leaves| && Lost(r, i) && s == ExecStep(r, k, step, env, cfg)
    ensures Lost(s, i)
  {
    FramedStep(start, r, k, step, env, cfg);
    StepTouches(r, k, step, env, cfg);
    StepDisk(r, k, step, env, cfg);
    OtherKeys(r, k, s);
    JobsStay(r, k, step, env, cfg);
  }

  lemma {:induction false} JobsStay(r: Run, k: nat, step: Step, env: Env, cfg: Config)
    requires r.mem.Valid() && k < |r.mem.leaves|
    ensures r.jobs.Keys <= ExecStep(r, k, step, env, cfg).jobs.Keys
  {
  }

  /** None of the first `k` steps was unheard. */
  ghost predicate AllHeard(c: Campaign, steps: seq<Step>, env: Env, cfg: Config, k: nat)
    requires |steps| == |c.leaves| == Count(c.tree) && k <= |steps|
  {
    forall i: nat | i < k :: !Unheard(c, steps, env, cfg, i)
  }

  /** One of them was, and its job is lost. */
  ghost predicate SomeLost(c: Campaign, steps: seq<Step>, env: Env, cfg: Config, k: nat, r: Run)
    requires |steps| == |c.leaves| == Count(c.tree) && k <= |steps|
  {
    exists i: nat :: i < k && Unheard(c, steps, env, cfg, i) && Lost(r, i)
  }

  ghost predicate ToldOrLost(c: Campaign, steps: seq<Step>, env: Env, cfg: Config, k: nat, r: Run)
    requires |steps| == |c.leaves| == Count(c.tree) && k <= |steps|
  {
    (ToldAll(r) && AllHeard(c, steps, env, cfg, k)) || SomeLost(c, steps, env, cfg, k, r)
  }

  lemma {:induction false} SomeLostStays(start: Run, r: Run, i: nat, steps: seq<Step>, env: Env, cfg: Config, s: Run,
      j: nat)
    requires |steps| == |start.mem.leaves| == Count(start.mem.tree) && i < |steps| && j == i + 1
    requires Framed(start, r, i) && s == ExecStep(r, i, steps[i], env, cfg)
    requires SomeLost(start.mem, steps, env, cfg, i, r)
    ensures SomeLost(start.mem, steps, env, cfg, j, s)
  {
    var h: nat :| h < i && Unheard(start.mem, steps, env, cfg, h) && Lost(r, h);
    LostStays(start, r, h, i, steps[i], env, cfg, s);
  }

  lemma {:induction false} HeardOneMore(c: Campaign, steps: seq<Step>, env: Env, cfg: Config, i: nat, j: nat)
    requires |steps| == |c.leaves| == Count(c.tree) && i < |steps| && j == i + 1
    ensures AllHeard(c, steps, env, cfg, j) <==> AllHeard(c, steps, env, cfg, i) && !Unheard(c, steps, env, cfg, i)
  {
  }

  lemma {:induction false} ToldOrLostStep(start: Run, r: Run, i: nat, steps: seq<Step>, env: Env, cfg: Config, s: Run,
      j: nat)
    requires Fits(start.mem, steps) && Framed(start, start, 0) && i < |steps| && j == i + 1
    requires Framed(start, r, i) && RunSound(r) && s == ExecStep(r, i, steps[i], env, cfg)
    requires steps[i].action == Submit ==> !GuardFires(r.mem.leaves, i)
    requires Tallied(start.mem, env, TallyAt(start.mem, steps, env, cfg, i), r)
    requires ToldOrLost(start.mem, steps, env, cfg, i, r)
    ensures ToldOrLost(start.mem, steps, env, cfg, j, s)
  {
    if SomeLost(start.mem, steps, env, cfg, i, r) {
      SomeLostStays(start, r, i, steps, env, cfg, s, j);
    } else if Unheard(start.mem, steps, env, cfg, i) {
      LosingStep(start, r, i, steps, env, cfg, s);
    } else {
      ToldStep(start, r, i, steps, env, cfg, s);
      HeardOneMore(start.mem, steps, env, cfg, i, j);
    }
  }

  lemma {:induction false} ToldOrLostNext(start: Run, steps: seq<Step>, env: Env, cfg: Config, i: nat, r: Run, s: Run,
      j: nat)
    requires Ready(start, steps, env) && i < |steps| && j == i + 1
    requires r == Exec(start, steps, env, cfg, i) && s == Exec(start, steps, env, cfg, j)
    requires ToldOrLost(start.mem, steps, env, cfg, i, r)
    ensures ToldOrLost(start.mem, steps, env, cfg, j, s)
  {
    TallyRun(start, steps, env, cfg, i);
    Reaches(start, steps, env, cfg, i);
    ToldOrLostStep(start, r, i, steps, env, cfg, s, j);
  }

  lemma {:induction false} ToldBefore(start: Run, steps: seq<Step>, env: Env, cfg: Config)
    requires Ready(start, steps, env) && ToldAll(start)
    ensures ToldOrLost(start.mem, steps, env, cfg, 0, start)
  {
  }

  lemma {:induction false} ToldOrLostRun(start: Run, steps: seq<Step>, env: Env, cfg: Config, i: nat)
    requires Ready(start, steps, env) && ToldAll(start) && i <= |steps|
    ensures ToldOrLost(start.mem, steps, env, cfg, i, Exec(start, steps, env, cfg, i))
  {
    var s := Exec(start, steps, env, cfg, i);
    if i == 0 {
      ToldBefore(start, steps, env, cfg);
    } else {
      ToldOrLostRun(start, steps, env, cfg, i - 1);
      var r := Exec(start, steps, env, cfg, i - 1);
      ToldOrLostNext(start, steps, env, cfg, i - 1, r, s, i);
    }
  }

  // ---------------------------------------------------------------------------
  // Whole ticks

  lemma {:induction false} FirstKeepsTold(c: Campaign, env: Env, jobs: map<CmdId, SimId>)
    requires Sound(c, jobs) && Told(c, jobs)
    ensures First(c, env).Valid() && Told(First(c, env), jobs)
  {
    FirstFrame(c, env);
    var f := First(c, env);
    forall i: nat | i < |f.leaves| && f.Key(i) in jobs ensures Acknowledged(f.leaves[i]) {
      FirstKeepsShare(c, env, jobs, i);
      assert f.Key(i) == c.Key(i) && JobShare(c.leaves[i]) == 1.0;
    }
  }

  lemma {:induction false} TickIsReady(d: Durable, env: Env, cfg: Config, start: Run, steps: seq<Step>)
    requires DurableSound(d) && !HasDuplicates(Prepare(d.disk, env), cfg)
    requires start == Start(d, env) && steps == Steps(Prepare(d.disk, env), cfg)
    ensures Ready(start, steps, env) && start.mem == First(d.disk, env) && |steps| == |d.disk.leaves|
    ensures start.jobs == d.jobs && start.launched == d.launched
  {
    TickStarts(d, env, cfg);
    StartSound(d, env);
    ScanCovers(d.disk, env, cfg);
  }

  lemma {:induction false} SavedToldExactly(start: Run, steps: seq<Step>, env: Env, cfg: Config, r: Run)
    requires |steps| == |start.mem.leaves| == Count(start.mem.tree) && Framed(start, r, |steps|)
    requires ToldOrLost(start.mem, steps, env, cfg, |steps|, r)
    ensures Save(r).disk.Valid()
    ensures Told(Save(r).disk, r.jobs) <==> forall i: nat | i < |steps| :: !Unheard(start.mem, steps, env, cfg, i)
  {
    if i: nat :| i < |steps| && Unheard(start.mem, steps, env, cfg, i) && Lost(r, i) {
      assert Save(r).disk.Key(i) == r.mem.Key(i);
    }
  }

  /** From a state in which every job is known, a tick, crashed or not, leaves one unknown exactly when it sends a
      submission whose job starts and whose acknowledgement does not come or is not saved. */
  lemma {:induction false} TickLosesExactly(d: Durable, env: Env, cfg: Config)
    requires DurableSound(d) && Told(d.disk, d.jobs)
    ensures var f := Tick(d, env, cfg);
      f.disk.Valid() && (Told(f.disk, f.jobs) <==> !LosesJob(d, env, cfg))
  {
    if !HasDuplicates(Prepare(d.disk, env), cfg) {
      var start, steps := Start(d, env), Steps(Prepare(d.disk, env), cfg);
      TickIsReady(d, env, cfg, start, steps);
      FirstKeepsTold(d.disk, env, d.jobs);
      ToldOrLostRun(start, steps, env, cfg, |steps|);
      ExecFrame(start, steps, env, cfg, |steps|);
      SavedToldExactly(start, steps, env, cfg, Exec(start, steps, env, cfg, |steps|));
    }
  }

  // ---------------------------------------------------------------------------
  // How many jobs a tick starts

  /** The submission of leaf `i` is sent, and the cluster does not know its command and starts its job. */
  predicate StartsJob(c: Campaign, jobs: map<CmdId, SimId>, steps: seq<Step>, env: Env, cfg: Config, i: nat)
    requires |steps| == |c.leaves| == Count(c.tree) && i < |steps|
  {
    && Sends(c, steps, env, cfg, i, TallyAt(c, steps, env, cfg, i)) && c.Key(i) !in jobs
    && (FateOf(env, i).launches || FateOf(env, i).reply.Ack?)
  }

  function JobsStarted(c: Campaign, jobs: map<CmdId, SimId>, steps: seq<Step>, env: Env, cfg: Config, i: nat): nat
    requires |steps| == |c.leaves| == Count(c.tree) && i <= |steps|
  {
    if i == 0 then 0
    else
      JobsStarted(c, jobs, steps, env, cfg, i - 1) + if StartsJob(c, jobs, steps, env, cfg, i - 1) then 1 else 0
  }

  /** The jobs a tick starts, none if it raises. */
  function NewJobs(d: Durable, env: Env, cfg: Config): nat
    requires d.disk.Valid()
  {
    var p, f := Prepare(d.disk, env), First(d.disk, env);
    if HasDuplicates(p, cfg) then 0 else JobsStarted(f, d.jobs, Steps(p, cfg), env, cfg, |Steps(p, cfg)|)
  }

  /** The log has grown by the jobs started, whose commands are those of leaves already reached. */
  ghost predicate Logged(start: Run, n: nat, i: nat, r: Run)
    requires start.mem.Valid() && i <= |start.mem.leaves|
  {
    && |r.launched| == |start.launched| + n && start.jobs.Keys <= r.jobs.Keys
    && forall k :: k in r.jobs.Keys && k !in start.jobs.Keys ==> exists j: nat :: j < i && k == start.mem.Key(j)
  }

  lemma {:induction false} LaunchCount(r: Run, i: nat, step: Step, env: Env, cfg: Config, s: Run)
    requires r.mem.Valid() && i < |r.mem.leaves| && s == ExecStep(r, i, step, env, cfg)
    requires Sent(r, i, step, env, cfg) ==> !GuardFires(r.mem.leaves, i)
    ensures var key, fate := r.mem.Key(i), FateOf(env, i);
      var starts := Sent(r, i, step, env, cfg) && key !in r.jobs && (fate.launches || fate.reply.Ack?);
      && |s.launched| == |r.launched| + (if starts then 1 else 0)
      && s.jobs.Keys == r.jobs.Keys + (if starts then {key} else {})
  {
  }

  lemma {:induction false} NotYetReached(start: Run, n: nat, i: nat, r: Run)
    requires start.mem.Valid() && i < |start.mem.leaves| && Logged(start, n, i, r)
    ensures start.mem.Key(i) in r.jobs <==> start.mem.Key(i) in start.jobs
  {
    if start.mem.Key(i) in r.jobs.Keys && start.mem.Key(i) !in start.jobs.Keys {
      var j: nat :| j < i && start.mem.Key(i) == start.mem.Key(j);
      KeysDistinct(start.mem, i, j);
    }
  }

  lemma {:induction false} LoggedStep(start: Run, r: Run, i: nat, steps: seq<Step>, env: Env, cfg: Config, s: Run,
      n: nat, starts: bool)
    requires |steps| == |start.mem.leaves| && i < |steps| && Framed(start, start, 0) && Framed(start, r, i)
    requires s == ExecStep(r, i, steps[i], env, cfg) && (steps[i].action == Submit ==> !GuardFires(r.mem.leaves, i))
    requires Tallied(start.mem, env, TallyAt(start.mem, steps, env, cfg, i), r) && Logged(start, n, i, r)
    requires starts <==> StartsJob(start.mem, start.jobs, steps, env, cfg, i)
    ensures Logged(start, n + if starts then 1 else 0, i + 1, s)
  {
    SentIsSends(start, r, i, steps, env, cfg, TallyAt(start.mem, steps, env, cfg, i));
    LaunchCount(r, i, steps[i], env, cfg, s);
    NotYetReached(start, n, i, r);
    assert r.mem.Key(i) == start.mem.Key(i);
  }

  ghost predicate LoggedAt(start: Run, steps: seq<Step>, env: Env, cfg: Config, k: nat, r: Run)
    requires |steps| == |start.mem.leaves| && start.mem.Valid() && k <= |steps|
  {
    Logged(start, JobsStarted(start.mem, start.jobs, steps, env, cfg, k), k, r)
  }

  lemma {:induction false} LoggedNext(start: Run, steps: seq<Step>, env: Env, cfg: Config, i: nat, r: Run, s: Run,
      j: nat)
    requires Ready(start, steps, env) && i < |steps| && j == i + 1
    requires r == Exec(start, steps, env, cfg, i) && s == Exec(start, steps, env, cfg, j)
    requires LoggedAt(start, steps, env, cfg, i, r)
    ensures LoggedAt(start, steps, env, cfg, j, s)
  {
    TallyRun(start, steps, env, cfg, i);
    Reaches(start, steps, env, cfg, i);
    LoggedStep(start, r, i, steps, env, cfg, s, JobsStarted(start.mem, start.jobs, steps, env, cfg, i),
      StartsJob(start.mem, start.jobs, steps, env, cfg, i));
  }

  lemma {:induction false} LoggedRun(start: Run, steps: seq<Step>, env: Env, cfg: Config, i: nat)
    requires Ready(start, steps, env) && i <= |steps|
    ensures LoggedAt(start, steps, env, cfg, i, Exec(start, steps, env, cfg, i))
  {
    if i > 0 {
      LoggedRun(start, steps, env, cfg, i - 1);
      LoggedNext(start, steps, env, cfg, i - 1, Exec(start, steps, env, cfg, i - 1),
        Exec(start, steps, env, cfg, i), i);
    }
  }

  /** A tick starts exactly those jobs, crashed or not, told or not. */
  lemma {:induction false} TickStartsExactly(d: Durable, env: Env, cfg: Config)
    requires DurableSound(d)
    ensures |Tick(d, env, cfg).launched| == |d.launched| + NewJobs(d, env, cfg)
  {
    if !HasDuplicates(Prepare(d.disk, env), cfg) {
      var start, steps := Start(d, env), Steps(Prepare(d.disk, env), cfg);
      TickIsReady(d, env, cfg, start, steps);
      LoggedRun(start, steps, env, cfg, |steps|);
    }
  }

  // ---------------------------------------------------------------------------
  // Which leaves a tick records as submitted

  /** The leaves recorded so far are those whose submission was sent and acknowledged. */
  ghost predicate Recorded(c: Campaign, steps: seq<Step>, env: Env, cfg: Config, k: nat, r: Run)
    requires |steps| == |c.leaves| == Count(c.tree) && k <= |steps|
  {
    forall i: nat :: i in r.submitted <==> i < k && SentAndHeard(c, steps, env, cfg, i)
  }

  predicate SentAndHeard(c: Campaign, steps: seq<Step>, env: Env, cfg: Config, i: nat)
    requires |steps| == |c.leaves| == Count(c.tree)
  {
    i < |steps| && Sends(c, steps, env, cfg, i, TallyAt(c, steps, env, cfg, i)) && FateOf(env, i).reply.Ack?
  }

  lemma {:induction false} RecordedNext(start: Run, steps: seq<Step>, env: Env, cfg: Config, i: nat, r: Run, s: Run,
      j: nat)
    requires Ready(start, steps, env) && i < |steps| && j == i + 1
    requires r == Exec(start, steps, env, cfg, i) && s == Exec(start, steps, env, cfg, j)
    requires Recorded(start.mem, steps, env, cfg, i, r)
    ensures Recorded(start.mem, steps, env, cfg, j, s)
  {
    TallyRun(start, steps, env, cfg, i);
    Reaches(start, steps, env, cfg, i);
    RecordedStep(start, r, i, steps, env, cfg, s);
    RecordedGrows(start.mem, steps, env, cfg, i, r, s, j);
  }

  lemma {:induction false} RecordedGrows(c: Campaign, steps: seq<Step>, env: Env, cfg: Config, i: nat, r: Run, s: Run,
      j: nat)
    requires |steps| == |c.leaves| == Count(c.tree) && i < |steps| && j == i + 1 && Recorded(c, steps, env, cfg, i, r)
    requires s.submitted == r.submitted + if SentAndHeard(c, steps, env, cfg, i) then [i] else []
    ensures Recorded(c, steps, env, cfg, j, s)
  {
    forall h: nat ensures h in s.submitted <==> h < j && SentAndHeard(c, steps, env, cfg, h) {
      assert h in s.submitted <==> h in r.submitted || (h == i && SentAndHeard(c, steps, env, cfg, i));
    }
  }

  lemma {:induction false} RecordedStep(start: Run, r: Run, i: nat, steps: seq<Step>, env: Env, cfg: Config, s: Run)
    requires Fits(start.mem, steps) && Framed(start, start, 0) && i < |steps|
    requires Framed(start, r, i) && RunSound(r) && s == ExecStep(r, i, steps[i], env, cfg)
    requires steps[i].action == Submit ==> !GuardFires(r.mem.leaves, i)
    requires Tallied(start.mem, env, TallyAt(start.mem, steps, env, cfg, i), r)
    ensures s.submitted == r.submitted + if SentAndHeard(start.mem, steps, env, cfg, i) then [i] else []
  {
    SentIsSends(start, r, i, steps, env, cfg, TallyAt(start.mem, steps, env, cfg, i));
    if Sent(r, i, steps[i], env, cfg) {
      SubmittedIsFree(start, r, i, steps);
      SentStep(r, i, steps[i], env, cfg, s);
    } else {
      UnsentStep(r, i, steps[i], env, cfg, s);
      assert r.submitted == r.submitted + [];
    }
  }

  lemma NothingRecorded(start: Run, steps: seq<Step>, env: Env, cfg: Config)
    requires Ready(start, steps, env) && start.submitted == []
    ensures Recorded(start.mem, steps, env, cfg, 0, start)
  {
  }

  lemma {:induction false} RecordedRun(start: Run, steps: seq<Step>, env: Env, cfg: Config, i: nat)
    requires Ready(start, steps, env) && start.submitted == [] && i <= |steps|
    ensures Recorded(start.mem, steps, env, cfg, i, Exec(start, steps, env, cfg, i))
  {
    var s := Exec(start, steps, env, cfg, i);
    if i == 0 {
      NothingRecorded(start, steps, env, cfg);
    } else {
      RecordedRun(start, steps, env, cfg, i - 1);
      var r := Exec(start, steps, env, cfg, i - 1);
      RecordedNext(start, steps, env, cfg, i - 1, r, s, i);
    }
  }

  /** A tick that does not raise records exactly the leaves that it plans to submit, that are approved or that nobody
      asks to approve, that the lifecycle and both counts let through while the process lives, and whose
      acknowledgement comes. */
  lemma {:induction false} TickRecordsExactly(d: Durable, env: Env, cfg: Config, f: Campaign, steps: seq<Step>)
    requires DurableSound(d) && !HasDuplicates(Prepare(d.disk, env), cfg)
    requires f == First(d.disk, env) && steps == Steps(Prepare(d.disk, env), cfg)
    ensures |steps| == |f.leaves| == Count(f.tree)
    ensures forall i: nat :: i in TickRun(d, env, cfg).submitted <==> SentAndHeard(f, steps, env, cfg, i)
  {
    var start := Start(d, env);
    TickIsReady(d, env, cfg, start, steps);
    RecordedRun(start, steps, env, cfg, |steps|);
  }
}

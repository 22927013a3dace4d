/** What becomes of a planned leaf: how a tick stores it, and what its callback says. */
module EngineOutcomes {
  import opened Prelude
  import opened Agenda
  import opened Campaign
  import opened Planner
  import opened Engine
  import opened EngineSafety

  /** One leaf of a tick: its path and command, its record after the first save, the planner's step and the answer. */
  datatype Case = Case(path: Path, key: CmdId, leaf: Leaf, step: Step, reply: Reply, now: int, timeout: int)

  // ---------------------------------------------------------------------------
  // The outcomes

  /** Acknowledged: the run is named, what the specification asks for is reserved, earlier trouble is forgotten. */
  ghost predicate Acknowledged(k: Case, m: Leaf, jobs: map<CmdId, SimId>) {
    var l, q := k.leaf, k.leaf.work.spec.request;
    && k.reply.Ack? && k.key in jobs
    && m == Leaf(l.work, Submitted, Some(jobs[k.key]), Some(k.key), l.approved, l.reused,
         Cost(q.coreHours, q.gpuHours, q.isGpu, l.cost.actual), Deferral(0, None), Reason(None, None, None), l.suspect)
  }

  /** Seconds since the first lost acknowledgement; a clock set back counts as none. */
  function Waited(k: Case): int {
    match k.leaf.deferral.since
    case None => 0
    case Some(first) => if k.now < first then 0 else k.now - first
  }

  function CodeOf(r: Reply): string
    requires r.Unknown?
  {
    match r.code
    case Some(code) => code
    case None => "outcome_unknown"
  }

  /** One more lost acknowledgement: counted, with the time of the first and the first simulation id heard of. */
  ghost predicate Lost(k: Case, m: Leaf, s: Status, error: ErrorText)
    requires k.reply.Unknown?
  {
    var l := k.leaf;
    m == l.(
      status := s,
      deferral := Deferral(l.deferral.attempts + 1, if l.deferral.since.Some? then l.deferral.since else Some(k.now)),
      simId := if l.simId.Some? then l.simId else k.reply.simId,
      reason := Reason(Some(error), Some(CodeOf(k.reply)), l.reason.stage))
  }

  ghost predicate Deferred(k: Case, m: Leaf) {
    k.reply.Unknown? && Waited(k) < k.timeout && Lost(k, m, Planned, Reported(k.reply.text))
  }

  /** The window is exhausted: the error says for how long, how often and how. */
  ghost predicate GivenUp(k: Case, m: Leaf, why: Reason) {
    && k.reply.Unknown? && Waited(k) >= k.timeout
    && var error := OutcomeUnknown(Waited(k), k.leaf.deferral.attempts + 1, CodeOf(k.reply), k.reply.text);
       Lost(k, m, Failed, error) && why == Reason(Some(error), Some(CodeOf(k.reply)), None)
  }

  /** A dependency failed: the error names the dependencies, in the leaf and in the callback. */
  ghost predicate Blocked(k: Case, m: Leaf, why: Reason) {
    && k.step.action == MarkFailed && k.step.why.FailedDependencies?
    && why == Reason(Some(DependencyFailed(k.step.why.deps)), None, None)
    && m == k.leaf.(status := Failed, reason := k.leaf.reason.(error := why.error))
  }

  /** The submission was refused, by the cluster for the reason it gave or by the duplicate guard. */
  ghost predicate TurnedDown(k: Case, m: Leaf, why: Reason) {
    && (k.reply == Refused(why) || why == Reason(Some(DuplicatePayload), None, None))
    && m == k.leaf.(status := Failed, reason := why)
  }

  /** The leaf failed for reason `why`. */
  ghost predicate FailedFor(k: Case, m: Leaf, why: Reason) {
    || Blocked(k, m, why)
    || (k.step.action == Submit && (TurnedDown(k, m, why) || GivenUp(k, m, why)))
  }

  /** `m` is what a tick may make of the leaf, and if it failed one of the callbacks says why. */
  ghost predicate Outcome(k: Case, m: Leaf, cbs: seq<Callback>, jobs: map<CmdId, SimId>) {
    match m.status
    case Planned => m == k.leaf || (k.step.action == Submit && Deferred(k, m))
    case Submitted => k.step.action == Submit && Acknowledged(k, m, jobs)
    case Failed => exists why ::
      FailedFor(k, m, why) && Callback(k.path, Failed, m.simId, why, None) in cbs
    case _ => false
  }

  // ---------------------------------------------------------------------------
  // One step

  lemma AnswerOutcome(k: Case, jobs: map<CmdId, SimId>, u: Usage)
    requires k.leaf.status.Planned? && k.step.action == Submit && (k.reply.Ack? ==> k.key in jobs)
    ensures var e := Answer(k.path, k.leaf, k.key, jobs, k.reply, k.now, k.timeout, u);
      Outcome(k, e.leaf, e.callbacks, jobs)
  {
    var e := Answer(k.path, k.leaf, k.key, jobs, k.reply, k.now, k.timeout, u);
    match k.reply
    case Ack => assert Acknowledged(k, e.leaf, jobs);
    case Refused(why) =>
      assert TurnedDown(k, e.leaf, why) && e.callbacks == [Callback(k.path, Failed, e.leaf.simId, why, None)];
    case Unknown(_, _, _) =>
      if Waited(k) < k.timeout {
        assert Deferred(k, e.leaf);
      } else {
        var why := e.callbacks[0].reason;
        assert GivenUp(k, e.leaf, why) && e.callbacks == [Callback(k.path, Failed, e.leaf.simId, why, None)];
      }
  }

  lemma GuardOutcome(k: Case, jobs: map<CmdId, SimId>, u: Usage)
    requires k.leaf.status.Planned? && k.step.action == Submit
    ensures var e := Refuse(k.path, k.leaf, Reason(Some(DuplicatePayload), None, None), u);
      Outcome(k, e.leaf, e.callbacks, jobs)
  {
    var why := Reason(Some(DuplicatePayload), None, None);
    var e := Refuse(k.path, k.leaf, why, u);
    assert TurnedDown(k, e.leaf, why) && e.callbacks == [Callback(k.path, Failed, e.leaf.simId, why, None)];
  }

  lemma PersistOutcome(k: Case, jobs: map<CmdId, SimId>, u: Usage)
    requires k.leaf.status.Planned? && PlannedStep(k.step)
    ensures var e := PersistTerminal(k.path, k.leaf, k.step, u);
      k.step.action != Submit ==> Outcome(k, e.leaf, e.callbacks, jobs)
  {
    var e := PersistTerminal(k.path, k.leaf, k.step, u);
    if k.step.action == MarkFailed {
      var why := Reason(Some(DependencyFailed(k.step.why.deps)), None, None);
      assert Blocked(k, e.leaf, why) && e.callbacks == [Callback(k.path, Failed, e.leaf.simId, why, None)];
    }
  }

  /** What the planner decides about a planned leaf: never that it is done, and that it fails only behind others. */
  predicate PlannedStep(s: Step) {
    s.action != MarkDone && (s.action == MarkFailed ==> s.why.FailedDependencies?)
  }

  lemma PlannerSteps(p: Campaign, cfg: Config, i: nat)
    requires i < |p.leaves| && p.leaves[i].status.Planned?
    ensures PlannedStep(PlanStep(p, cfg, i))
  {
  }

  function CaseOf(c: Campaign, i: nat, step: Step, env: Env, cfg: Config): Case
    requires |c.leaves| == Count(c.tree) && i < |c.leaves|
  {
    Case(c.Path(i), c.Key(i), c.leaves[i], step, FateOf(env, i).reply, env.now, cfg.policy.deferredTimeout)
  }

  lemma StepOutcome(r: Run, i: nat, step: Step, env: Env, cfg: Config)
    requires r.mem.Valid() && i < |r.mem.leaves| && r.mem.leaves[i].status.Planned? && PlannedStep(step)
    ensures var r' := ExecStep(r, i, step, env, cfg);
      && r.mem.callbacks <= r'.mem.callbacks
      && Outcome(CaseOf(r.mem, i, step, env, cfg), r'.mem.leaves[i], r'.mem.callbacks[|r.mem.callbacks|..], r'.jobs)
  {
    var k, u := CaseOf(r.mem, i, step, env, cfg), r.mem.usage;
    if r.life == 0 {
    } else if step.action != Submit {
      PersistOutcome(k, r.jobs, u);
      Appended(r.mem, i, PersistTerminal(k.path, k.leaf, step, u));
    } else if SubmissionBlock(r, i, env, cfg).Some? {
    } else if GuardFires(r.mem.leaves, i) {
      GuardOutcome(k, r.jobs, u);
      Appended(r.mem, i, Refuse(k.path, k.leaf, Reason(Some(DuplicatePayload), None, None), u));
    } else {
      var s := Call(r, k.key, FateOf(env, i));
      AnswerOutcome(k, s.jobs, u);
      Appended(r.mem, i, Answer(k.path, k.leaf, k.key, s.jobs, k.reply, k.now, k.timeout, u));
    }
  }

  lemma Appended(c: Campaign, i: nat, e: Effect)
    requires i < |c.leaves|
    ensures var m := Apply(c, i, e);
      c.callbacks <= m.callbacks && m.callbacks[|c.callbacks|..] == e.callbacks && m.leaves[i] == e.leaf
  {
  }

  // ---------------------------------------------------------------------------
  // The tick

  /** Campaign `c` stores an outcome of the case, told since its first `n` callbacks. */
  ghost predicate Stored(k: Case, i: nat, n: nat, c: Campaign, jobs: map<CmdId, SimId>) {
    i < |c.leaves| && n <= |c.callbacks| && Outcome(k, c.leaves[i], c.callbacks[n..], jobs)
  }

  ghost predicate BothStored(k: Case, i: nat, n: nat, r: Run) {
    Stored(k, i, n, r.mem, r.jobs) && Stored(k, i, n, r.disk, r.jobs)
  }

  lemma StoredGrows(k: Case, i: nat, n: nat, c: Campaign, jobs: map<CmdId, SimId>, e: Campaign,
      more: map<CmdId, SimId>)
    requires Stored(k, i, n, c, jobs) && i < |e.leaves| && e.leaves[i] == c.leaves[i] && c.callbacks <= e.callbacks
    requires forall x :: x in jobs ==> x in more && more[x] == jobs[x]
    ensures Stored(k, i, n, e, more)
  {
    assert forall cb :: cb in c.callbacks[n..] ==> cb in e.callbacks[n..] by {
      assert c.callbacks[n..] <= e.callbacks[n..];
    }
  }

  lemma JobsGrow(r: Run, i: nat, step: Step, env: Env, cfg: Config)
    requires r.mem.Valid() && i < |r.mem.leaves|
    ensures forall x :: x in r.jobs ==>
      x in ExecStep(r, i, step, env, cfg).jobs && ExecStep(r, i, step, env, cfg).jobs[x] == r.jobs[x]
  {
  }

  /** A step of another leaf. */
  lemma OtherStep(k: Case, i: nat, n: nat, r: Run, j: nat, step: Step, env: Env, cfg: Config)
    requires r.mem.Valid() && j < |r.mem.leaves| && j != i && BothStored(k, i, n, r)
    ensures BothStored(k, i, n, ExecStep(r, j, step, env, cfg))
  {
    var r' := ExecStep(r, j, step, env, cfg);
    StepTouches(r, j, step, env, cfg);
    StepDisk(r, j, step, env, cfg);
    JobsGrow(r, j, step, env, cfg);
    StoredGrows(k, i, n, r.mem, r.jobs, r'.mem, r'.jobs);
    StoredGrows(k, i, n, r.disk, r.jobs, r.disk, r'.jobs);
  }

  /** The leaf's own step. */
  lemma OwnStep(k: Case, i: nat, n: nat, r: Run, step: Step, env: Env, cfg: Config)
    requires r.mem.Valid() && i < |r.mem.leaves| && k == CaseOf(r.mem, i, step, env, cfg)
    requires k.leaf.status.Planned? && PlannedStep(step) && BothStored(k, i, n, r)
    ensures BothStored(k, i, n, ExecStep(r, i, step, env, cfg))
  {
    var r' := ExecStep(r, i, step, env, cfg);
    StepOutcome(r, i, step, env, cfg);
    StepDisk(r, i, step, env, cfg);
    JobsGrow(r, i, step, env, cfg);
    var m := |r.mem.callbacks|;
    assert forall cb :: cb in r'.mem.callbacks[m..] ==> cb in r'.mem.callbacks[n..] by {
      assert r'.mem.callbacks[m..] == r'.mem.callbacks[n..][m - n..];
    }
    assert Stored(k, i, n, r'.mem, r'.jobs);
    StoredGrows(k, i, n, r.disk, r.jobs, r.disk, r'.jobs);
  }

  lemma {:induction false} ExecOutcome(k: Case, i: nat, start: Run, steps: seq<Step>, env: Env, cfg: Config)
    requires Fits(start.mem, steps) && Framed(start, start, 0) && i < |steps|
    requires k == CaseOf(start.mem, i, steps[i], env, cfg) && k.leaf.status.Planned? && PlannedStep(steps[i])
    requires BothStored(k, i, |start.mem.callbacks|, start)
    ensures BothStored(k, i, |start.mem.callbacks|, Exec(start, steps, env, cfg, |steps|))
  {
    var n := |start.mem.callbacks|;
    var inv := (j: nat, r: Run) => j <= |steps| && Framed(start, r, j) && BothStored(k, i, n, r);
    forall j: nat, r: Run | j < |steps| && inv(j, r) ensures inv(j + 1, ExecStep(r, j, steps[j], env, cfg)) {
      FramedStep(start, r, j, steps[j], env, cfg);
      if j == i { OwnStep(k, i, n, r, steps[i], env, cfg); } else { OtherStep(k, i, n, r, j, steps[j], env, cfg); }
    }
    ExecInvariant(start, steps, env, cfg, inv, |steps|);
  }

  lemma EndOutcome(k: Case, i: nat, start: Run, steps: seq<Step>, env: Env, cfg: Config)
    requires Fits(start.mem, steps) && Framed(start, start, 0) && i < |steps| && start.disk == start.mem
    requires k == CaseOf(start.mem, i, steps[i], env, cfg) && k.leaf.status.Planned? && PlannedStep(steps[i])
    ensures var r := Save(Exec(start, steps, env, cfg, |steps|));
      Stored(k, i, |start.mem.callbacks|, r.disk, r.jobs)
  {
    ExecOutcome(k, i, start, steps, env, cfg);
  }

  /** Wherever a tick ends after its first save, a leaf that save left planned is stored untouched, deferred,
      acknowledged, or failed; and if it failed, one callback gives the reason: the failed dependencies by name, the
      refusal as it was given, or how long and how often an answer was awaited. */
  lemma TickOutcomes(d: Durable, env: Env, cfg: Config, i: nat)
    requires d.disk.Valid() && i < |d.disk.leaves| && env.life > 0 && !HasDuplicates(Prepare(d.disk, env), cfg)
    ensures |First(d.disk, env).leaves| == |d.disk.leaves| == Count(First(d.disk, env).tree)
    ensures var f, e := First(d.disk, env), Tick(d, env, cfg);
      f.leaves[i].status == Planned ==>
        Stored(CaseOf(f, i, PlanStep(Prepare(d.disk, env), cfg, i), env, cfg), i, |f.callbacks|, e.disk, e.jobs)
  {
    TickStarts(d, env, cfg);
    FirstFrame(d.disk, env);
    var f, p := First(d.disk, env), Prepare(d.disk, env);
    if f.leaves[i].status == Planned {
      assert SameBooks(f.leaves[i], p.leaves[i]);
      PlannerSteps(p, cfg, i);
      EndOutcome(CaseOf(f, i, PlanStep(p, cfg, i), env, cfg), i, Start(d, env), Steps(p, cfg), env, cfg);
    }
  }

  /** The dependencies a failed leaf names are its own, each with a failed leaf below it, and all of those. */
  lemma BlockedByFailed(p: Campaign, cfg: Config, i: nat)
    requires p.Valid() && i < |p.leaves| && p.leaves[i].status == Planned
    ensures var s := PlanStep(p, cfg, i);
      s.action == MarkFailed ==> s.why.FailedDependencies? && forall dep ::
        dep in s.why.deps <==> dep in p.leaves[i].work.dependsOn && DependencyFailing(p.tree, p.leaves, i, dep)
  {
    var deps := p.leaves[i].work.dependsOn;
    DepsInMembers(p.tree, p.leaves, i, deps, DepFailed);
    forall dep | dep in deps
      ensures dep in DepsIn(p.tree, p.leaves, i, deps, DepFailed) <==> DependencyFailing(p.tree, p.leaves, i, dep)
    {
      DependencyStateByPath(p.tree, p.leaves, i, dep);
    }
  }
}

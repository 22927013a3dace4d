/** The engine object: the source's loops over the store and the cluster, each proved to compute its specification. */
module EngineClass {
  import opened Prelude
  import opened Agenda
  import opened Campaign
  import opened Planner
  import opened Engine

  /** `_apply_reuse`. */
  method ApplyReuse(ls: seq<Leaf>, reuse: map<ReuseKey, ReuseRecord>) returns (r: seq<Leaf>)
    ensures r == Reused(ls, reuse)
  {
    r := ls;
    for i := 0 to |ls|
      invariant |r| == |ls|
      invariant forall j :: 0 <= j < i ==> r[j] == ReuseLeaf(ls[j], reuse)
      invariant forall j :: i <= j < |ls| ==> r[j] == ls[j]
    {
      if !r[i].status.Planned? { continue; }
      var key := ReuseKey(r[i].work.spec, r[i].work.point);
      if key !in reuse { continue; }
      r := r[i := r[i].(simId := Some(reuse[key].simId), runId := reuse[key].runId, status := Done, reused := true)];
    }
  }

  /** `_reconcile_actuals`. */
  method ReconcileActuals(ls: seq<Leaf>, u: Usage, actuals: map<SimId, Actual>) returns (r: seq<Leaf>, v: Usage)
    ensures r == Reconciled(ls, actuals) && v == ReconciledUsage(ls, u, actuals, |ls|)
  {
    r, v := ls, u;
    for i := 0 to |ls|
      invariant |r| == |ls| && v == ReconciledUsage(ls, u, actuals, i)
      invariant forall j :: 0 <= j < i ==> r[j] == ReconcileLeaf(ls[j], actuals)
      invariant forall j :: i <= j < |ls| ==> r[j] == ls[j]
    {
      var l := r[i];
      if l.reused || !l.status.Terminal() || l.cost.actual.Some? || l.simId.None? || l.simId.value !in actuals {
        continue;
      }
      var actual := actuals[l.simId.value];
      v := Reconcile(v, l.cost, actual);
      r := r[i := l.(cost := l.cost.(actual := Some(actual)))];
    }
  }

  /** `_plan` up to `next_actions`. */
  method Plan(c: Campaign, env: Env, cfg: Config) returns (p: Campaign, steps: seq<Step>)
    ensures p == Prepare(c, env) && steps == Steps(p, cfg)
  {
    var ls := ApplyStates(c.leaves, env.observed);
    ls := ApplyReuse(ls, env.reuse);
    var u := c.usage.(running := CountInFlight(ls));
    var rs, v := ReconcileActuals(ls, u, env.actuals);
    p := c.(leaves := rs, usage := v);
    steps := NextActions(p.tree, p.leaves, BudgetOf(p, cfg), p.usage);
  }

  /** `_reject_duplicate_specs`: each leaf to be submitted against every leaf that has a simulation id, then against
      the leaves to be submitted before it. */
  method RejectDuplicateSpecs(p: Campaign, steps: seq<Step>) returns (duplicate: bool)
    requires |steps| == |p.leaves|
    ensures duplicate <==> exists i: nat, j: nat :: i < |steps| && j < |steps| && Clash(p.leaves, steps, i, j)
  {
    for i := 0 to |steps|
      invariant forall a: nat, b: nat :: a < i && b < |steps| ==> !Clash(p.leaves, steps, a, b)
    {
      if steps[i].action != Submit { continue; }
      var wire := WireOf(p.leaves[i].work.spec);
      for j := 0 to |steps|
        invariant forall b: nat :: b < j ==> !Clash(p.leaves, steps, i, b)
      {
        if j != i && (p.leaves[j].simId.Some? || (j < i && steps[j].action == Submit))
            && WireOf(p.leaves[j].work.spec) == wire {
          assert Clash(p.leaves, steps, i, j);
          return true;
        }
      }
    }
    return false;
  }

  predicate Clash(ls: seq<Leaf>, steps: seq<Step>, i: nat, j: nat)
    requires |ls| == |steps| && i < |ls| && j < |ls|
  {
    && i != j && steps[i].action == Submit
    && (ls[j].simId.Some? || (j < i && steps[j].action == Submit))
    && WireOf(ls[i].work.spec) == WireOf(ls[j].work.spec)
  }

  lemma ClashesAreCollisions(p: Campaign, cfg: Config)
    ensures HasDuplicates(p, cfg) <==>
      exists i: nat, j: nat :: i < |p.leaves| && j < |p.leaves| && Clash(p.leaves, Steps(p, cfg), i, j)
  {
    if HasDuplicates(p, cfg) {
      var i: nat, j: nat :| i < |p.leaves| && j < |p.leaves| && Collides(p, cfg, i, j);
      assert Clash(p.leaves, Steps(p, cfg), i, j);
    }
    forall i: nat, j: nat | i < |p.leaves| && j < |p.leaves| && Clash(p.leaves, Steps(p, cfg), i, j)
      ensures Collides(p, cfg, i, j)
    {
    }
  }

  /** `_reject_duplicate_spec`: the guard inside `_do_submit`. */
  method RejectDuplicateSpec(ls: seq<Leaf>, i: nat) returns (duplicate: bool)
    requires i < |ls|
    ensures duplicate == GuardFires(ls, i)
  {
    for j := 0 to |ls|
      invariant forall k: nat :: k < j && k != i && ls[k].simId.Some? ==>
        WireOf(ls[k].work.spec) != WireOf(ls[i].work.spec)
    {
      if j == i || ls[j].simId.None? { continue; }
      if WireOf(ls[j].work.spec) == WireOf(ls[i].work.spec) { return true; }
    }
    return false;
  }

  /** One round of the loop in `_emit_callbacks`. */
  method EmitOne(path: Path, l: Leaf, before: Status, env: Env) returns (m: Leaf, emitted: seq<Callback>)
    ensures m == EmitLeaf(l, before, env) && emitted == EmitCallback(path, l, before, env)
  {
    m := l;
    var flagged := l.simId.Some? && l.simId.value in env.suspects && l.status.Done?;
    if flagged { m := m.(suspect := Some(env.suspects[l.simId.value])); }
    if !l.status.Terminal() || l.status == before { return m, []; }
    var callback := Callback(path, l.status, l.simId, NO_REASON, None);
    if l.status.Failed? && l.simId.Some? && l.simId.value in env.failures {
      m := m.(reason := env.failures[l.simId.value]);
      callback := callback.(reason := env.failures[l.simId.value]);
    }
    if flagged { callback := callback.(suspect := Some(env.suspects[l.simId.value])); }
    return m, [callback];
  }

  /** `_emit_callbacks`. */
  method EmitCallbacks(p: Campaign, before: seq<Leaf>, env: Env) returns (c: Campaign)
    requires |p.leaves| == |before| == Count(p.tree)
    ensures c == Emitted(p, before, env)
  {
    var ls, emitted := p.leaves, [];
    var paths := Paths(p.tree);
    for i := 0 to |before|
      invariant |ls| == |before|
      invariant forall j :: 0 <= j < i ==> ls[j] == EmitLeaf(p.leaves[j], before[j].status, env)
      invariant forall j :: i <= j < |ls| ==> ls[j] == p.leaves[j]
      invariant emitted == EmittedCallbacks(paths, p.leaves, before, env, i)
    {
      var m, announced := EmitOne(paths[i], ls[i], before[i].status, env);
      ls, emitted := ls[i := m], emitted + announced;
    }
    c := p.(leaves := ls, callbacks := p.callbacks + emitted);
  }

  /** `_record_deferral`: the retry window is measured from the first lost acknowledgement, in elapsed time. */
  method RecordDeferral(c: Campaign, i: nat, reply: Reply, now: int, timeout: int) returns (r: Campaign)
    requires reply.Unknown? && |c.leaves| == Count(c.tree) && i < |c.leaves|
    ensures r == Apply(c, i, Defer(c.Path(i), c.leaves[i], reply, now, timeout, c.usage))
  {
    var leaf := c.leaves[i];
    leaf := leaf.(deferral := leaf.deferral.(attempts := leaf.deferral.attempts + 1));
    if leaf.simId.None? { leaf := leaf.(simId := reply.simId); }
    if leaf.deferral.since.None? { leaf := leaf.(deferral := leaf.deferral.(since := Some(now))); }
    var code := reply.code.GetOr(OUTCOME_UNKNOWN);
    var elapsed := if now < leaf.deferral.since.value then 0 else now - leaf.deferral.since.value;
    if elapsed < timeout {
      leaf := leaf.(reason := leaf.reason.(error := Some(Reported(reply.text)), code := Some(code)));
      return c.(leaves := c.leaves[i := leaf], callbacks := c.callbacks + []);
    }
    var message := Some(OutcomeUnknown(elapsed, leaf.deferral.attempts, code, reply.text));
    leaf := leaf.(status := Failed, reason := leaf.reason.(error := message, code := Some(code)));
    var callback := Callback(c.Path(i), Failed, leaf.simId, Reason(message, Some(code), None), None);
    return c.(leaves := c.leaves[i := leaf], callbacks := c.callbacks + [callback]);
  }

  /** A dead process does nothing more. */
  lemma {:induction false} DeadStops(start: Run, steps: seq<Step>, env: Env, cfg: Config, i: nat, n: nat)
    requires |start.mem.leaves| == Count(start.mem.tree) == |steps| && i <= n <= |steps|
    requires Exec(start, steps, env, cfg, i).life == 0
    ensures Exec(start, steps, env, cfg, n) == Exec(start, steps, env, cfg, i)
  {
    if i < n { DeadStops(start, steps, env, cfg, i, n - 1); }
  }

  /** One process over the campaign store and the cluster.  `life` is how many durable actions it still performs. */
  class AgendaEngine {
    var disk: Campaign
    var jobs: map<CmdId, SimId>
    var life: nat
    ghost var launched: seq<CmdId>

    constructor (disk: Campaign, jobs: map<CmdId, SimId>, ghost launched: seq<CmdId>, life: nat)
      ensures this.disk == disk && this.jobs == jobs && this.launched == launched && this.life == life
    {
      this.disk, this.jobs, this.launched, this.life := disk, jobs, launched, life;
    }

    /** The run this process is in, given the tick's local variables. */
    ghost function State(mem: Campaign, inFlight: int, submitted: seq<nat>): Run
      reads this
    {
      Run(mem, disk, jobs, launched, life, inFlight, submitted)
    }

    method Save(c: Campaign)
      modifies this
      ensures disk == (if old(life) == 0 then old(disk) else c) && life == (if old(life) == 0 then 0 else old(life) - 1)
      ensures jobs == old(jobs) && launched == old(launched)
    {
      if life > 0 {
        disk, life := c, life - 1;
      }
    }

    /** `_submit_one` and `_do_submit`, and the save after them. */
    method SubmitOne(c: Campaign, i: nat, env: Env, cfg: Config, inFlight: int, submitted: seq<nat>)
      returns (c': Campaign, inFlight': int, submitted': seq<nat>)
      requires |c.leaves| == Count(c.tree) && i < |c.leaves| && life > 0
      modifies this
      ensures State(c', inFlight', submitted') == SubmitStep(old(State(c, inFlight, submitted)), i, env, cfg)
    {
      c', inFlight', submitted' := c, inFlight, submitted;
      var leaf := c.leaves[i];
      var duplicate := RejectDuplicateSpec(c.leaves, i);
      if duplicate {
        c' := Apply(c, i, Refuse(c.Path(i), leaf, Reason(Some(DuplicatePayload), None, None), c.usage));
      } else {
        var key := c.Key(i);
        var fate := FateOf(env, i);
        var jobs' := ClusterAccepts(jobs, key, fate);
        if key !in jobs && key in jobs' { launched := launched + [key]; }
        jobs, life := jobs', life - 1;
        match fate.reply {
          case Ack =>
            c' := Apply(c, i, Accept(leaf, jobs[key], key, c.usage));
            inFlight', submitted' := inFlight + 1, submitted + [i];
          case Unknown(_, _, _) =>
            c' := RecordDeferral(c, i, fate.reply, env.now, cfg.policy.deferredTimeout);
          case Refused(reason) =>
            c' := Apply(c, i, Refuse(c.Path(i), leaf, reason, c.usage));
        }
      }
      Save(c');
    }

    /** One round of the loop in `_run_steps`. */
    method RunStep(c: Campaign, i: nat, step: Step, env: Env, cfg: Config, inFlight: int, submitted: seq<nat>)
      returns (c': Campaign, inFlight': int, submitted': seq<nat>)
      requires |c.leaves| == Count(c.tree) && i < |c.leaves| && life > 0
      modifies this
      ensures State(c', inFlight', submitted') == ExecStep(old(State(c, inFlight, submitted)), i, step, env, cfg)
    {
      c', inFlight', submitted' := c, inFlight, submitted;
      if step.action != Submit {
        c' := Apply(c, i, PersistTerminal(c.Path(i), c.leaves[i], step, c.usage));
      } else {
        var block := SubmissionBlock(Run(c, disk, jobs, [], life, inFlight, submitted), i, env, cfg);
        if block.None? {
          c', inFlight', submitted' := SubmitOne(c, i, env, cfg, inFlight, submitted);
        }
      }
    }

    /** `_run_steps`. */
    method RunSteps(c: Campaign, steps: seq<Step>, env: Env, cfg: Config)
      returns (c': Campaign, ghost inFlight': int, submitted: seq<nat>)
      requires |c.leaves| == Count(c.tree) == |steps|
      modifies this
      ensures State(c', inFlight', submitted) == Exec(old(State(c, c.usage.running, [])), steps, env, cfg, |steps|)
    {
      ghost var start := State(c, c.usage.running, []);
      var inFlight := c.usage.running;
      c', submitted := c, [];
      var i := 0;
      while i < |steps| && life > 0
        invariant i <= |steps| && |c'.leaves| == Count(c'.tree) == |steps|
        invariant State(c', inFlight, submitted) == Exec(start, steps, env, cfg, i)
      {
        c', inFlight, submitted := RunStep(c', i, steps[i], env, cfg, inFlight, submitted);
        i := i + 1;
      }
      if i < |steps| { DeadStops(start, steps, env, cfg, i, |steps|); }
      inFlight' := inFlight;
    }

    /** `tick`: load, plan, scan, emit, save, run the steps, save. What is durable afterwards, however early the process
        died and whether or not the scan raised, is the specified tick. */
    method Tick(env: Env, cfg: Config) returns (raised: bool)
      requires |disk.leaves| == Count(disk.tree) && life == env.life
      modifies this
      ensures raised == HasDuplicates(Prepare(old(disk), env), cfg)
      ensures forall drained: seq<Callback> ::
        Durable(disk, jobs, launched, drained)
        == Engine.Tick(Durable(old(disk), old(jobs), old(launched), drained), env, cfg)
    {
      var campaign := disk;
      var before := campaign.leaves;
      var p, steps := Plan(campaign, env, cfg);
      ClashesAreCollisions(p, cfg);
      raised := RejectDuplicateSpecs(p, steps);
      if !raised {
        var c := EmitCallbacks(p, before, env);
        Save(c);
        ghost var d := Durable(old(disk), old(jobs), old(launched), []);
        assert State(c, c.usage.running, []) == Start(d, env);
        var end, _, _ := RunSteps(c, steps, env, cfg);
        Save(end);
      }
    }
  }
}

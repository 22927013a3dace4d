/** What a tick makes of what it observes: statuses, reuse, actual costs, failure reasons and health warnings, in the
    leaf and in its callback. */
module EngineObserved {
  import opened Prelude
  import opened Agenda
  import opened Campaign
  import opened Planner
  import opened Engine
  import opened EngineSafety

  // ---------------------------------------------------------------------------
  // The leaf

  /** `o` is observed of leaf `i`: of its simulation, which no later leaf has. */
  ghost predicate Seen(c: Campaign, env: Env, i: nat, o: ObservedState) {
    && i < |c.leaves| && c.leaves[i].simId.Some?
    && c.leaves[i].simId.value in env.observed && env.observed[c.leaves[i].simId.value] == o
    && forall j | i < j < |c.leaves| :: c.leaves[j].simId != c.leaves[i].simId
  }

  ghost predicate Recognised(c: Campaign, env: Env, i: nat) {
    exists o :: Seen(c, env, i, o) && !o.Unrecognised?
  }

  /** The status an observation stands for. */
  predicate Reports(o: ObservedState, s: Status) {
    && (o == Accepted || o == SimulationSubmitted ==> s == Submitted)
    && (o == JobRunning || o == StepFinished || o == WorkflowFinished || o == Checkpoint ==> s == Running)
    && (o == ResultsReady || o == JobFinished ==> s == Done)
    && (o == JobFailed || o == SimulationFailed || o == Cancelled ==> s == Failed)
  }

  /** A planned leaf whose result the registry has. */
  predicate Reusable(l: Leaf, env: Env) {
    l.status == Planned && ReuseKey(l.work.spec, l.work.point) in env.reuse
  }

  ghost predicate SameRun(l: Leaf, m: Leaf) {
    m.simId == l.simId && m.runId == l.runId && m.reused == l.reused
  }

  /** A job observed to have ended, or seen at any earlier stage, gives its leaf that status; a planned leaf that is not
      observed takes a recorded result as its own; any other leaf keeps its status. */
  lemma FirstSaveStatus(c: Campaign, env: Env, i: nat)
    requires c.Valid() && i < |c.leaves|
    ensures var l, m := c.leaves[i], First(c, env).leaves[i];
      && (forall o | Seen(c, env, i, o) && !o.Unrecognised? :: Reports(o, m.status) && SameRun(l, m))
      && (!Recognised(c, env, i) && Reusable(l, env) ==>
            var found := env.reuse[ReuseKey(l.work.spec, l.work.point)];
            m.status == Done && m.reused && m.simId == Some(found.simId) && m.runId == found.runId)
      && (!Recognised(c, env, i) && !Reusable(l, env) ==> m.status == l.status && SameRun(l, m))
  {
    FirstFrame(c, env);
    PrepareLeaf(c, env, i);
    FoldSees(c, env, i);
    assert SameBooks(First(c, env).leaves[i], Prepare(c, env).leaves[i]);
  }

  lemma FoldSees(c: Campaign, env: Env, i: nat)
    requires i < |c.leaves|
    ensures var l, m := c.leaves[i], FoldLeaf(c.leaves, i, env.observed);
      && m == l.(status := m.status)
      && (forall o | Seen(c, env, i, o) && !o.Unrecognised? :: Reports(o, m.status) && m.status != Planned)
      && (!Recognised(c, env, i) ==> m == l)
  {
    var l := c.leaves[i];
    if l.simId.Some? && l.simId.value in env.observed {
      var o := env.observed[l.simId.value];
      if Attributed(c.leaves, i) { assert Seen(c, env, i, o); }
    }
  }

  /** The value recorded for a leaf's simulation, if any. */
  function Known<T>(table: map<SimId, T>, l: Leaf): Option<T> {
    if l.simId.Some? && l.simId.value in table then Some(table[l.simId.value]) else None
  }

  predicate Newly(s: Status, l: Leaf, m: Leaf) {
    m.status == s && l.status != s
  }

  predicate Ended(l: Leaf, m: Leaf) {
    Newly(Done, l, m) || Newly(Failed, l, m)
  }

  /** The rest of the record: an ended leaf that ran takes its actual cost, once; a newly failed leaf the observed
      reason; a done leaf the warning.  Nothing else changes. */
  predicate BooksFollow(l: Leaf, m: Leaf, env: Env) {
    var ended := m.status == Done || m.status == Failed;
    && m.work == l.work && m.approved == l.approved && m.deferral == l.deferral
    && m.cost == l.cost.(actual :=
         if l.cost.actual.Some? || !ended || m.reused then l.cost.actual else Known(env.actuals, m))
    && m.reason == (if Newly(Failed, l, m) then Known(env.failures, m).GetOr(l.reason) else l.reason)
    && m.suspect == (if m.status == Done then Known(env.suspects, m).Or(l.suspect) else l.suspect)
  }

  lemma FirstSaveBooks(c: Campaign, env: Env, i: nat)
    requires c.Valid() && i < |c.leaves|
    ensures BooksFollow(c.leaves[i], First(c, env).leaves[i], env)
  {
    var l, folded := c.leaves[i], FoldLeaf(c.leaves, i, env.observed);
    FoldSees(c, env, i);
    FirstLeaf(c, env, i);
    RecordBooks(l, folded, env);
  }

  /** What the first save writes for one leaf whose status was folded. */
  function Written(l: Leaf, folded: Leaf, env: Env): Leaf {
    EmitLeaf(ReconcileLeaf(ReuseLeaf(folded, env.reuse), env.actuals), l.status, env)
  }

  lemma FirstLeaf(c: Campaign, env: Env, i: nat)
    requires c.Valid() && i < |c.leaves|
    ensures |First(c, env).leaves| == |c.leaves|
    ensures First(c, env).leaves[i] == Written(c.leaves[i], FoldLeaf(c.leaves, i, env.observed), env)
  {
    PrepareFrame(c, env);
    PrepareLeaf(c, env, i);
  }

  lemma RecordBooks(l: Leaf, folded: Leaf, env: Env)
    requires folded == l.(status := folded.status)
    ensures BooksFollow(l, Written(l, folded, env), env)
  {
  }

  // ---------------------------------------------------------------------------
  // The callback

  /** `cb` announces the leaf and carries what was observed of it: its failure, its warning, and no other. */
  ghost predicate Carries(cb: Callback, path: Path, m: Leaf, env: Env) {
    && cb.path == path && cb.kind == m.status && cb.simId == m.simId
    && cb.reason == (if m.status == Failed then Known(env.failures, m).GetOr(NO_REASON) else NO_REASON)
    && cb.suspect == (if m.status == Done then Known(env.suspects, m) else None)
  }

  lemma {:induction false} EmissionCarries(paths: seq<Path>, ls: seq<Leaf>, before: seq<Leaf>, env: Env, n: nat, i: nat)
    requires |ls| == |before| == |paths| && i < n <= |ls|
    requires ls[i].status.Terminal() && ls[i].status != before[i].status
    ensures exists cb :: cb in EmittedCallbacks(paths, ls, before, env, n) && Carries(cb, paths[i], ls[i], env)
  {
    var rest := EmittedCallbacks(paths, ls, before, env, n - 1);
    var one := EmitCallback(paths[n - 1], ls[n - 1], before[n - 1].status, env);
    if i < n - 1 {
      EmissionCarries(paths, ls, before, env, n - 1, i);
      var cb :| cb in rest && Carries(cb, paths[i], ls[i], env);
      assert cb in rest + one;
    } else {
      assert one[0] in rest + one && Carries(one[0], paths[i], ls[i], env);
    }
  }

  /** Callback `k` is of leaf `at[k]`, and the leaves come in order. */
  ghost predicate InLeafOrder(cbs: seq<Callback>, paths: seq<Path>, at: seq<nat>) {
    && |at| == |cbs|
    && (forall k | 0 <= k < |at| :: at[k] < |paths| && cbs[k].path == paths[at[k]])
    && forall j, k | 0 <= j < k < |at| :: at[j] < at[k]
  }

  lemma {:induction false} EmissionInOrder(paths: seq<Path>, ls: seq<Leaf>, before: seq<Leaf>, env: Env, n: nat)
      returns (at: seq<nat>)
    requires |ls| == |before| == |paths| && n <= |ls|
    ensures InLeafOrder(EmittedCallbacks(paths, ls, before, env, n), paths, at)
    ensures forall k | 0 <= k < |at| :: at[k] < n
  {
    if n == 0 {
      at := [];
    } else {
      at := EmissionInOrder(paths, ls, before, env, n - 1);
      if EmitCallback(paths[n - 1], ls[n - 1], before[n - 1].status, env) != [] { at := at + [n - 1]; }
    }
  }

  /** The new callbacks come in leaf order, and each newly ended leaf has one that carries its observed failure or
      warning. */
  ghost predicate Calls(c: Campaign, f: Campaign, env: Env)
    requires c.Valid() && |f.leaves| == |c.leaves| && |c.callbacks| <= |f.callbacks|
  {
    var cbs := f.callbacks[|c.callbacks|..];
    && (exists at :: InLeafOrder(cbs, Paths(c.tree), at))
    && forall i: nat | i < |c.leaves| && Ended(c.leaves[i], f.leaves[i]) ::
         exists cb :: cb in cbs && Carries(cb, c.Path(i), f.leaves[i], env)
  }

  lemma EmittedCalls(c: Campaign, p: Campaign, env: Env)
    requires c.Valid() && p.Valid() && p.tree == c.tree && p.callbacks == c.callbacks && |p.leaves| == |c.leaves|
    ensures c.callbacks <= Emitted(p, c.leaves, env).callbacks && Calls(c, Emitted(p, c.leaves, env), env)
  {
    var paths, n, f := Paths(c.tree), |c.leaves|, Emitted(p, c.leaves, env);
    var emitted := EmittedCallbacks(paths, p.leaves, c.leaves, env, n);
    assert f.callbacks[|c.callbacks|..] == emitted;
    var at := EmissionInOrder(paths, p.leaves, c.leaves, env, n);
    EmittedKeepsBooks(p.leaves, c.leaves, env);
    forall i: nat | i < n && Ended(c.leaves[i], f.leaves[i])
      ensures exists cb :: cb in emitted && Carries(cb, c.Path(i), f.leaves[i], env)
    {
      assert SameBooks(f.leaves[i], p.leaves[i]);
      EmissionCarries(paths, p.leaves, c.leaves, env, n, i);
      var cb :| cb in emitted && Carries(cb, paths[i], p.leaves[i], env);
      assert Carries(cb, c.Path(i), f.leaves[i], env);
    }
  }

  lemma FirstSaveCalls(c: Campaign, env: Env)
    requires c.Valid()
    ensures var f := First(c, env);
      |f.leaves| == |c.leaves| && c.callbacks <= f.callbacks && Calls(c, f, env)
  {
    PrepareFrame(c, env);
    EmittedCalls(c, Prepare(c, env), env);
  }

  // ---------------------------------------------------------------------------
  // To the end of the tick

  /** Nothing a campaign announced is lost, and no ended leaf is touched. */
  ghost predicate Keeps(f: Campaign, e: Campaign) {
    && f.callbacks <= e.callbacks && |e.leaves| == |f.leaves|
    && forall i | 0 <= i < |f.leaves| && f.leaves[i].status.Terminal() :: e.leaves[i] == f.leaves[i]
  }

  lemma StepKeeps(f: Campaign, start: Run, r: Run, i: nat, steps: seq<Step>, env: Env, cfg: Config)
    requires Fits(start.mem, steps) && i < |steps| && Framed(start, r, i) && start.mem == f
    requires Keeps(f, r.mem) && Keeps(f, r.disk)
    ensures Keeps(f, ExecStep(r, i, steps[i], env, cfg).mem) && Keeps(f, ExecStep(r, i, steps[i], env, cfg).disk)
  {
    var r' := ExecStep(r, i, steps[i], env, cfg);
    StepTouches(r, i, steps[i], env, cfg);
    StepDisk(r, i, steps[i], env, cfg);
    EndedLeafIsLeft(r, i, steps[i], env, cfg);
  }

  lemma EndedLeafIsLeft(r: Run, i: nat, step: Step, env: Env, cfg: Config)
    requires r.mem.Valid() && i < |r.mem.leaves| && (step.action == Submit ==> r.mem.leaves[i].status.Planned?)
    ensures r.mem.leaves[i].status.Terminal() ==> ExecStep(r, i, step, env, cfg).mem.leaves[i] == r.mem.leaves[i]
  {
  }

  lemma {:induction false} ExecKeeps(f: Campaign, start: Run, steps: seq<Step>, env: Env, cfg: Config, i: nat)
    requires Fits(start.mem, steps) && Framed(start, start, 0) && i <= |steps|
    requires start.mem == f && Keeps(f, start.disk)
    ensures var r := Exec(start, steps, env, cfg, i); Keeps(f, r.mem) && Keeps(f, r.disk)
  {
    var inv := (k: nat, r: Run) => k <= |steps| && Framed(start, r, k) && Keeps(f, r.mem) && Keeps(f, r.disk);
    forall k: nat, r: Run | k < |steps| && inv(k, r) ensures inv(k + 1, ExecStep(r, k, steps[k], env, cfg)) {
      FramedStep(start, r, k, steps[k], env, cfg);
      StepKeeps(f, start, r, k, steps, env, cfg);
    }
    ExecInvariant(start, steps, env, cfg, inv, i);
  }

  lemma EndKeeps(f: Campaign, start: Run, steps: seq<Step>, env: Env, cfg: Config)
    requires Fits(start.mem, steps) && Framed(start, start, 0) && start.mem == f && Keeps(f, start.disk)
    ensures Keeps(f, Save(Exec(start, steps, env, cfg, |steps|)).disk)
  {
    ExecKeeps(f, start, steps, env, cfg, |steps|);
  }

  lemma TickKeepsFirst(d: Durable, env: Env, cfg: Config)
    requires d.disk.Valid() && env.life > 0 && !HasDuplicates(Prepare(d.disk, env), cfg)
    ensures Keeps(First(d.disk, env), Tick(d, env, cfg).disk)
  {
    TickStarts(d, env, cfg);
    EndKeeps(First(d.disk, env), Start(d, env), Steps(Prepare(d.disk, env), cfg), env, cfg);
  }

  /** Leaf `i`, ended by what was seen, is stored as the first save wrote it, and told. */
  ghost predicate StoredAndTold(c: Campaign, i: nat, m: Leaf, e: Campaign, env: Env)
    requires c.Valid() && i < |c.leaves|
  {
    && i < |e.leaves| && e.leaves[i] == m && |c.callbacks| <= |e.callbacks|
    && exists cb :: cb in e.callbacks[|c.callbacks|..] && Carries(cb, c.Path(i), m, env)
  }

  lemma KeptIsTold(c: Campaign, f: Campaign, e: Campaign, env: Env, i: nat)
    requires c.Valid() && |f.leaves| == |c.leaves| && c.callbacks <= f.callbacks && Calls(c, f, env)
    requires Keeps(f, e) && i < |c.leaves|
    requires Ended(c.leaves[i], f.leaves[i])
    ensures StoredAndTold(c, i, f.leaves[i], e, env)
  {
    var n := |c.callbacks|;
    var cb :| cb in f.callbacks[n..] && Carries(cb, c.Path(i), f.leaves[i], env);
    StaysInTail(f.callbacks, e.callbacks, n, cb);
  }

  lemma StaysInTail(a: seq<Callback>, b: seq<Callback>, n: nat, cb: Callback)
    requires a <= b && n <= |a| && cb in a[n..]
    ensures cb in b[n..]
  {
    var k :| 0 <= k < |a[n..]| && a[n..][k] == cb;
    assert b[n..][k] == cb;
  }

  /** Wherever the tick ends after its first save, each leaf that the observations or the registry newly ended is
      stored as that save wrote it, beside a callback that carries its observed failure or warning. */
  lemma TickTellsObserved(d: Durable, env: Env, cfg: Config, i: nat)
    requires d.disk.Valid() && i < |d.disk.leaves| && env.life > 0 && !HasDuplicates(Prepare(d.disk, env), cfg)
    ensures |First(d.disk, env).leaves| == |d.disk.leaves|
    ensures var l, m := d.disk.leaves[i], First(d.disk, env).leaves[i];
      Ended(l, m) ==> StoredAndTold(d.disk, i, m, Tick(d, env, cfg).disk, env)
  {
    var c, f := d.disk, First(d.disk, env);
    FirstSaveCalls(c, env);
    if Ended(c.leaves[i], f.leaves[i]) {
      TickKeepsFirst(d, env, cfg);
      KeptIsTold(c, f, Tick(d, env, cfg).disk, env, i);
    }
  }
}

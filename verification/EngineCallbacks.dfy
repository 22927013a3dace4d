/** Callbacks are edge-triggered: at every save, one for each leaf that newly reached done or failed. */
module EngineCallbacks {
  import opened Prelude
  import opened Agenda
  import opened Campaign
  import opened Planner
  import opened Engine
  import opened EngineSafety

  /** The kinds of the callbacks for one path, in order. */
  function Kinds(cbs: seq<Callback>, path: Path): seq<Status> {
    if cbs == [] then []
    else (if cbs[0].path == path then [cbs[0].kind] else []) + Kinds(cbs[1..], path)
  }

  lemma {:induction false} KindsConcat(a: seq<Callback>, b: seq<Callback>, path: Path)
    ensures Kinds(a + b, path) == Kinds(a, path) + Kinds(b, path)
  {
    if a == [] {
      assert a + b == b;
    } else {
      KindsConcat(a[1..], b, path);
      assert (a + b)[1..] == a[1..] + b && (a + b)[0] == a[0];
      Associates(if a[0].path == path then [a[0].kind] else [], Kinds(a[1..], path), Kinds(b, path));
    }
  }

  lemma Associates(a: seq<Status>, b: seq<Status>, c: seq<Status>)
    ensures a + (b + c) == (a + b) + c
  {
  }

  lemma KindsOne(cb: Callback, path: Path)
    ensures Kinds([cb], path) == if cb.path == path then [cb.kind] else []
  {
    assert [cb][1..] == [];
  }

  /** What a leaf's move from one status to another is worth: one decision point, or none. */
  function Decision(before: Status, after: Status): seq<Status> {
    if after.Terminal() && after != before then [after] else []
  }

  /** `cbs` holds exactly the decision points of the leaves' moves from `before` to `after`, and nothing else. */
  ghost predicate Decides(tree: Kids, before: seq<Leaf>, after: seq<Leaf>, cbs: seq<Callback>)
    requires |before| == |after| == Count(tree)
  {
    && (forall i :: 0 <= i < |after| ==> Kinds(cbs, Paths(tree)[i]) == Decision(before[i].status, after[i].status))
    && (forall p :: p !in Paths(tree) ==> Kinds(cbs, p) == [])
  }

  /** From `c` to `e` callbacks were only appended, exactly one per leaf that newly reached done or failed. */
  ghost predicate EdgeTriggered(c: Campaign, e: Campaign)
    requires |c.leaves| == |e.leaves| == Count(c.tree)
  {
    c.callbacks <= e.callbacks && Decides(c.tree, c.leaves, e.leaves, e.callbacks[|c.callbacks|..])
  }

  lemma EmitCallbackKinds(path: Path, l: Leaf, before: Status, env: Env, p: Path)
    ensures Kinds(EmitCallback(path, l, before, env), p) == if p == path then Decision(before, l.status) else []
  {
    var cbs := EmitCallback(path, l, before, env);
    if cbs != [] { KindsOne(cbs[0], p); }
  }

  lemma OneMoreEmitted(paths: seq<Path>, ls: seq<Leaf>, before: seq<Leaf>, env: Env, i: nat, p: Path)
    requires |ls| == |before| == |paths| && 0 < i <= |ls|
    ensures Kinds(EmittedCallbacks(paths, ls, before, env, i), p) ==
      Kinds(EmittedCallbacks(paths, ls, before, env, i - 1), p)
      + if p == paths[i - 1] then Decision(before[i - 1].status, ls[i - 1].status) else []
  {
    var one := EmitCallback(paths[i - 1], ls[i - 1], before[i - 1].status, env);
    EmitCallbackKinds(paths[i - 1], ls[i - 1], before[i - 1].status, env, p);
    KindsConcat(EmittedCallbacks(paths, ls, before, env, i - 1), one, p);
  }

  /** The decision points of one path among the first `i` leaves. */
  function Points(paths: seq<Path>, ls: seq<Leaf>, before: seq<Leaf>, i: nat, p: Path): seq<Status>
    requires |ls| == |before| == |paths| && i <= |ls|
  {
    if i == 0 then []
    else
      var earlier := Points(paths, ls, before, i - 1, p);
      if p == paths[i - 1] then earlier + Decision(before[i - 1].status, ls[i - 1].status) else earlier
  }

  lemma {:induction false} EmissionIsPoints(paths: seq<Path>, ls: seq<Leaf>, before: seq<Leaf>, env: Env, i: nat,
      p: Path)
    requires |ls| == |before| == |paths| && i <= |ls|
    ensures Kinds(EmittedCallbacks(paths, ls, before, env, i), p) == Points(paths, ls, before, i, p)
  {
    if i > 0 {
      EmissionIsPoints(paths, ls, before, env, i - 1, p);
      OneMoreEmitted(paths, ls, before, env, i, p);
    }
  }

  lemma {:induction false} PointsOfLeaf(paths: seq<Path>, ls: seq<Leaf>, before: seq<Leaf>, i: nat, j: nat)
    requires |ls| == |before| == |paths| && i <= |ls| && j < |ls|
    requires forall a, b :: 0 <= a < b < |paths| ==> paths[a] != paths[b]
    ensures Points(paths, ls, before, i, paths[j]) == if j < i then Decision(before[j].status, ls[j].status) else []
  {
    if i > 0 { PointsOfLeaf(paths, ls, before, i - 1, j); }
  }

  lemma {:induction false} PointsElsewhere(paths: seq<Path>, ls: seq<Leaf>, before: seq<Leaf>, i: nat, p: Path)
    requires |ls| == |before| == |paths| && i <= |ls| && p !in paths
    ensures Points(paths, ls, before, i, p) == []
  {
    if i > 0 { PointsElsewhere(paths, ls, before, i - 1, p); }
  }

  lemma FirstEdgeTriggered(c: Campaign, env: Env)
    requires c.Valid()
    ensures First(c, env).tree == c.tree && |First(c, env).leaves| == |c.leaves| && EdgeTriggered(c, First(c, env))
  {
    var p, f := Prepare(c, env), First(c, env);
    FirstFrame(c, env);
    PrepareFrame(c, env);
    PathsDistinct(c.tree);
    var paths := Paths(c.tree);
    var new_ := EmittedCallbacks(paths, p.leaves, c.leaves, env, |c.leaves|);
    assert f.callbacks[|c.callbacks|..] == new_;
    forall i | 0 <= i < |c.leaves| ensures Kinds(new_, paths[i]) == Decision(c.leaves[i].status, f.leaves[i].status) {
      EmissionIsPoints(paths, p.leaves, c.leaves, env, |c.leaves|, paths[i]);
      PointsOfLeaf(paths, p.leaves, c.leaves, |c.leaves|, i);
      assert SameBooks(f.leaves[i], p.leaves[i]);
    }
    forall q | q !in paths ensures Kinds(new_, q) == [] {
      EmissionIsPoints(paths, p.leaves, c.leaves, env, |c.leaves|, q);
      PointsElsewhere(paths, p.leaves, c.leaves, |c.leaves|, q);
    }
  }

  /** A step's effect announces its leaf exactly when it moves it from planned to done or failed. */
  ghost predicate Announces(path: Path, l: Leaf, e: Effect) {
    && (forall p :: p != path ==> Kinds(e.callbacks, p) == [])
    && Kinds(e.callbacks, path) == Decision(l.status, e.leaf.status)
    && (e.leaf.status.Terminal() && !l.status.Terminal() ==> l.status.Planned?)
    && (l.status.Terminal() ==> e.leaf.status == l.status)
  }

  lemma EffectsAnnounce(path: Path, l: Leaf, key: CmdId, jobs: map<CmdId, SimId>, reply: Reply, now: int,
      timeout: int, u: Usage)
    requires l.status.Planned? && (reply.Ack? ==> key in jobs)
    ensures Announces(path, l, Answer(path, l, key, jobs, reply, now, timeout, u))
  {
    var e := Answer(path, l, key, jobs, reply, now, timeout, u);
    if e.callbacks != [] {
      forall p
        ensures Kinds(e.callbacks, p) == if p == path then [e.callbacks[0].kind] else []
      {
        KindsOne(e.callbacks[0], p);
      }
    }
  }

  lemma PersistAnnounces(path: Path, l: Leaf, step: Step, u: Usage)
    requires step.action == Wait || l.status.Planned? || l.status.Terminal()
    ensures Announces(path, l, PersistTerminal(path, l, step, u))
  {
    var e := PersistTerminal(path, l, step, u);
    if e.callbacks != [] {
      forall p
        ensures Kinds(e.callbacks, p) == if p == path then [e.callbacks[0].kind] else []
      {
        KindsOne(e.callbacks[0], p);
      }
    }
  }

  lemma ApplyEdgeTriggered(c0: Campaign, c: Campaign, i: nat, e: Effect)
    requires c0.Valid() && c.Valid() && c.tree == c0.tree && i < |c.leaves| && EdgeTriggered(c0, c)
    requires Announces(c.Path(i), c.leaves[i], e)
    requires c.leaves[i].status.Planned? ==> c0.leaves[i].status.Planned?
    ensures EdgeTriggered(c0, Apply(c, i, e))
  {
    var m := Apply(c, i, e);
    var n := |c0.callbacks|;
    var old_ := c.callbacks[n..];
    assert m.callbacks[n..] == old_ + e.callbacks;
    PathsDistinct(c.tree);
    forall j | 0 <= j < |m.leaves|
      ensures Kinds(m.callbacks[n..], Paths(c.tree)[j]) == Decision(c0.leaves[j].status, m.leaves[j].status)
    {
      KindsConcat(old_, e.callbacks, Paths(c.tree)[j]);
      if j != i { assert Paths(c.tree)[j] != c.Path(i); }
    }
    forall p | p !in Paths(c.tree) ensures Kinds(m.callbacks[n..], p) == [] {
      KindsConcat(old_, e.callbacks, p);
      assert c.Path(i) in Paths(c.tree);
    }
  }

  /** Both what is in memory and what is on disk is edge-triggered against the campaign the tick loaded. */
  ghost predicate Edges(c0: Campaign, r: Run) {
    && c0.Valid() && r.mem.Valid() && r.disk.Valid() && r.mem.tree == c0.tree && r.disk.tree == c0.tree
    && EdgeTriggered(c0, r.mem) && EdgeTriggered(c0, r.disk)
  }

  lemma EffectKeepsEdges(c0: Campaign, r: Run, i: nat, e: Effect, inFlight: int, submitted: seq<nat>)
    requires Edges(c0, r) && i < |r.mem.leaves| && Announces(r.mem.Path(i), r.mem.leaves[i], e)
    requires r.mem.leaves[i].status.Planned? ==> c0.leaves[i].status.Planned?
    ensures var s := r.(mem := Apply(r.mem, i, e), inFlight := inFlight, submitted := submitted);
      Edges(c0, s) && Edges(c0, Save(s))
  {
    ApplyEdgeTriggered(c0, r.mem, i, e);
  }

  lemma StepKeepsEdges(c0: Campaign, start: Run, r: Run, i: nat, steps: seq<Step>, env: Env, cfg: Config)
    requires Edges(c0, r) && Fits(start.mem, steps) && i < |steps| && Framed(start, r, i)
    requires PlannedBefore(c0, start.mem)
    ensures Edges(c0, ExecStep(r, i, steps[i], env, cfg))
  {
    assert r.mem.leaves[i] == start.mem.leaves[i];
    var l, path, key, u := r.mem.leaves[i], r.mem.Path(i), r.mem.Key(i), r.mem.usage;
    if r.life == 0 {
    } else if steps[i].action != Submit {
      PersistAnnounces(path, l, steps[i], u);
      EffectKeepsEdges(c0, r, i, PersistTerminal(path, l, steps[i], u), r.inFlight, r.submitted);
    } else if SubmissionBlock(r, i, env, cfg).Some? {
    } else if GuardFires(r.mem.leaves, i) {
      EffectsAnnounce(path, l, key, r.jobs, Refused(Reason(Some(DuplicatePayload), None, None)), 0, 0, u);
      EffectKeepsEdges(c0, r, i, Refuse(path, l, Reason(Some(DuplicatePayload), None, None), u), r.inFlight,
        r.submitted);
    } else {
      var fate := FateOf(env, i);
      var s := Call(r, key, fate);
      EffectsAnnounce(path, l, key, s.jobs, fate.reply, env.now, cfg.policy.deferredTimeout, u);
      var e := Answer(path, l, key, s.jobs, fate.reply, env.now, cfg.policy.deferredTimeout, u);
      EffectKeepsEdges(c0, s, i, e, if fate.reply.Ack? then r.inFlight + 1 else r.inFlight,
        if fate.reply.Ack? then r.submitted + [i] else r.submitted);
    }
  }

  /** A leaf planned in `c` was planned in `c0`. */
  ghost predicate PlannedBefore(c0: Campaign, c: Campaign) {
    |c0.leaves| == |c.leaves| && forall j :: 0 <= j < |c.leaves| && c.leaves[j].status.Planned? ==>
      c0.leaves[j].status.Planned?
  }

  lemma ExecKeepsEdges(c0: Campaign, start: Run, steps: seq<Step>, env: Env, cfg: Config, i: nat)
    requires Edges(c0, start) && Fits(start.mem, steps) && Framed(start, start, 0) && i <= |steps|
    requires PlannedBefore(c0, start.mem)
    ensures Edges(c0, Exec(start, steps, env, cfg, i))
  {
    var inv := (k: nat, r: Run) => k <= |steps| && Framed(start, r, k) && Edges(c0, r);
    forall k: nat, r: Run | k < |steps| && inv(k, r) ensures inv(k + 1, ExecStep(r, k, steps[k], env, cfg)) {
      FramedStep(start, r, k, steps[k], env, cfg);
      StepKeepsEdges(c0, start, r, k, steps, env, cfg);
    }
    ExecInvariant(start, steps, env, cfg, inv, i);
  }

  lemma PlannedStaysPlanned(c: Campaign, env: Env)
    requires c.Valid()
    ensures PlannedBefore(c, First(c, env))
  {
    FirstFrame(c, env);
    var f := First(c, env);
    forall j: nat | j < |c.leaves| && f.leaves[j].status.Planned? ensures c.leaves[j].status.Planned? {
      assert SameBooks(f.leaves[j], Prepare(c, env).leaves[j]);
    }
  }

  /** Whatever save a tick ended on -- none, any of them, the last -- each leaf has gained exactly one callback since
      the tick began if it newly is done or failed, and none otherwise: by fold, reuse, dependency failure, refusal or
      exhausted deferral alike. */
  lemma TickEdgeTriggered(d: Durable, env: Env, cfg: Config)
    requires d.disk.Valid()
    ensures var e := Tick(d, env, cfg).disk; e.Valid() && e.tree == d.disk.tree && EdgeTriggered(d.disk, e)
  {
    if !HasDuplicates(Prepare(d.disk, env), cfg) {
      TickStarts(d, env, cfg);
      FirstEdgeTriggered(d.disk, env);
      PlannedStaysPlanned(d.disk, env);
      EdgesOfTick(d.disk, Start(d, env), Steps(Prepare(d.disk, env), cfg), env, cfg);
    }
  }

  lemma EdgesOfTick(c0: Campaign, start: Run, steps: seq<Step>, env: Env, cfg: Config)
    requires Edges(c0, start) && Fits(start.mem, steps) && Framed(start, start, 0)
    requires PlannedBefore(c0, start.mem)
    ensures Edges(c0, Save(Exec(start, steps, env, cfg, |steps|)))
  {
    ExecKeepsEdges(c0, start, steps, env, cfg, |steps|);
  }

  // ---------------------------------------------------------------------------
  // What a callback says

  ghost predicate SaysOf(cb: Callback, path: Path, l: Leaf) {
    && cb.path == path && cb.kind == l.status && l.status.Terminal() && cb.simId == l.simId
    && (cb.reason.error.Some? ==> cb.reason.error == l.reason.error)
    && (cb.suspect.Some? ==> cb.suspect == l.suspect)
  }

  ghost predicate Says(cb: Callback, c: Campaign, i: nat) {
    i < |c.leaves| && i < Count(c.tree) && SaysOf(cb, c.Path(i), c.leaves[i])
  }

  ghost predicate Told(cb: Callback, c: Campaign) {
    exists i: nat :: Says(cb, c, i)
  }

  /** Every callback after the first `n` is about some leaf. */
  ghost predicate AllSay(c: Campaign, n: nat) {
    forall k :: n <= k < |c.callbacks| ==> Told(c.callbacks[k], c)
  }

  lemma {:induction false} AllEmissionsSay(paths: seq<Path>, ls: seq<Leaf>, before: seq<Leaf>, env: Env, n: nat)
    requires |ls| == |before| == |paths| && n <= |ls|
    ensures forall cb :: cb in EmittedCallbacks(paths, ls, before, env, n) ==>
      exists i: nat :: i < n && SaysOf(cb, paths[i], EmittedLeaves(ls, before, env)[i])
  {
    if n > 0 {
      AllEmissionsSay(paths, ls, before, env, n - 1);
      assert EmittedLeaves(ls, before, env)[n - 1] == EmitLeaf(ls[n - 1], before[n - 1].status, env);
    }
  }

  lemma EmittedSays(p: Campaign, before: seq<Leaf>, env: Env)
    requires p.Valid() && |p.leaves| == |before|
    ensures AllSay(Emitted(p, before, env), |p.callbacks|)
  {
    var paths, n, f := Paths(p.tree), |before|, Emitted(p, before, env);
    var emitted, leaves := EmittedCallbacks(paths, p.leaves, before, env, n), EmittedLeaves(p.leaves, before, env);
    AllEmissionsSay(paths, p.leaves, before, env, n);
    forall k | |p.callbacks| <= k < |f.callbacks| ensures Told(f.callbacks[k], f) {
      var cb := f.callbacks[k];
      assert cb == emitted[k - |p.callbacks|];
      assert cb in emitted;
      var i: nat :| i < n && SaysOf(cb, paths[i], leaves[i]);
      assert Says(cb, f, i);
    }
  }

  lemma FirstSays(c: Campaign, env: Env)
    requires c.Valid()
    ensures AllSay(First(c, env), |c.callbacks|)
  {
    PrepareFrame(c, env);
    EmittedSays(Prepare(c, env), c.leaves, env);
  }

  /** A step speaks only of its own leaf, and touches no leaf that already has an outcome. */
  ghost predicate Speaks(path: Path, l: Leaf, e: Effect) {
    && (forall cb :: cb in e.callbacks ==> SaysOf(cb, path, e.leaf))
    && (l.status.Terminal() ==> e.leaf == l)
  }

  lemma ApplySays(c: Campaign, i: nat, e: Effect, n: nat)
    requires c.Valid() && i < |c.leaves| && AllSay(c, n) && Speaks(c.Path(i), c.leaves[i], e)
    ensures AllSay(Apply(c, i, e), n)
  {
    var m := Apply(c, i, e);
    forall k | n <= k < |m.callbacks| ensures Told(m.callbacks[k], m) {
      if k < |c.callbacks| {
        var j: nat :| Says(c.callbacks[k], c, j);
        assert Says(m.callbacks[k], m, j);
      } else {
        assert m.callbacks[k] in e.callbacks;
        assert Says(m.callbacks[k], m, i);
      }
    }
  }

  ghost predicate RunSays(r: Run, n: nat) {
    r.mem.Valid() && AllSay(r.mem, n) && AllSay(r.disk, n)
  }

  lemma EffectSays(r: Run, i: nat, e: Effect, inFlight: int, submitted: seq<nat>, n: nat)
    requires RunSays(r, n) && i < |r.mem.leaves| && Speaks(r.mem.Path(i), r.mem.leaves[i], e)
    ensures var s := r.(mem := Apply(r.mem, i, e), inFlight := inFlight, submitted := submitted);
      RunSays(s, n) && RunSays(Save(s), n)
  {
    ApplySays(r.mem, i, e, n);
  }

  lemma StepSays(start: Run, r: Run, i: nat, steps: seq<Step>, env: Env, cfg: Config, n: nat)
    requires RunSays(r, n) && Fits(start.mem, steps) && i < |steps| && Framed(start, r, i)
    ensures RunSays(ExecStep(r, i, steps[i], env, cfg), n)
  {
    assert r.mem.leaves[i] == start.mem.leaves[i];
    var l, path, key, u := r.mem.leaves[i], r.mem.Path(i), r.mem.Key(i), r.mem.usage;
    if r.life == 0 {
    } else if steps[i].action != Submit {
      EffectSays(r, i, PersistTerminal(path, l, steps[i], u), r.inFlight, r.submitted, n);
    } else if SubmissionBlock(r, i, env, cfg).Some? {
    } else if GuardFires(r.mem.leaves, i) {
      EffectSays(r, i, Refuse(path, l, Reason(Some(DuplicatePayload), None, None), u), r.inFlight, r.submitted, n);
    } else {
      var fate := FateOf(env, i);
      var s := Call(r, key, fate);
      var e := Answer(path, l, key, s.jobs, fate.reply, env.now, cfg.policy.deferredTimeout, u);
      EffectSays(s, i, e, if fate.reply.Ack? then r.inFlight + 1 else r.inFlight,
        if fate.reply.Ack? then r.submitted + [i] else r.submitted, n);
    }
  }

  lemma ExecSays(start: Run, steps: seq<Step>, env: Env, cfg: Config, i: nat, n: nat)
    requires RunSays(start, n) && Fits(start.mem, steps) && Framed(start, start, 0) && i <= |steps|
    ensures RunSays(Exec(start, steps, env, cfg, i), n)
  {
    var inv := (k: nat, r: Run) => k <= |steps| && Framed(start, r, k) && RunSays(r, n);
    forall k: nat, r: Run | k < |steps| && inv(k, r) ensures inv(k + 1, ExecStep(r, k, steps[k], env, cfg)) {
      FramedStep(start, r, k, steps[k], env, cfg);
      StepSays(start, r, k, steps, env, cfg, n);
    }
    ExecInvariant(start, steps, env, cfg, inv, i);
  }

  /** Whatever save a tick ended on, every callback it added is about a leaf that is stored with the same outcome and
      simulation, and with the error and the health warning the callback gives. */
  lemma TickCallbacksTellLeaves(d: Durable, env: Env, cfg: Config)
    requires d.disk.Valid()
    ensures AllSay(Tick(d, env, cfg).disk, |d.disk.callbacks|)
  {
    if !HasDuplicates(Prepare(d.disk, env), cfg) {
      TickStarts(d, env, cfg);
      FirstSays(d.disk, env);
      EndSays(Start(d, env), Steps(Prepare(d.disk, env), cfg), env, cfg, |d.disk.callbacks|);
    }
  }

  lemma EndSays(start: Run, steps: seq<Step>, env: Env, cfg: Config, n: nat)
    requires RunSays(start, n) && Fits(start.mem, steps) && Framed(start, start, 0)
    ensures AllSay(Save(Exec(start, steps, env, cfg, |steps|)).disk, n)
  {
    ExecSays(start, steps, env, cfg, |steps|, n);
  }
}

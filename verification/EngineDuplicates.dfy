/** No two simulations of one campaign share a wire payload, and the per-submit guard is redundant. */
module EngineDuplicates {
  import opened Campaign
  import opened Planner
  import opened Engine
  import opened EngineSafety

  /** A leaf that claims a simulation id of its own. */
  predicate Carrier(l: Leaf) {
    !l.reused && l.simId.Some?
  }

  /** Leaves that carry a simulation id have pairwise distinct wire payloads. */
  ghost predicate PayloadsDistinct(ls: seq<Leaf>) {
    forall i, j :: 0 <= i < j < |ls| && Carrier(ls[i]) && Carrier(ls[j]) ==>
      WireOf(ls[i].work.spec) != WireOf(ls[j].work.spec)
  }

  lemma PrepareKeepsDistinct(c: Campaign, env: Env)
    requires c.Valid() && PayloadsDistinct(c.leaves)
    ensures PayloadsDistinct(First(c, env).leaves)
  {
    var f := First(c, env);
    FirstFrame(c, env);
    forall i | 0 <= i < |c.leaves|
      ensures f.leaves[i].work == c.leaves[i].work && (Carrier(f.leaves[i]) ==> Carrier(c.leaves[i]))
    {
      PrepareLeaf(c, env, i);
    }
  }

  /** A step leaves every simulation id in place but its own leaf's, and gives that leaf one only past the guard. */
  lemma StepCarriers(start: Run, r: Run, i: nat, step: Step, env: Env, cfg: Config)
    requires i < |start.mem.leaves| && Framed(start, r, i)
    ensures var s := ExecStep(r, i, step, env, cfg);
      && s.mem.leaves == r.mem.leaves[i := s.mem.leaves[i]]
      && s.mem.leaves[i].work == r.mem.leaves[i].work && s.mem.leaves[i].reused == r.mem.leaves[i].reused
      && (s.mem.leaves[i].simId != r.mem.leaves[i].simId ==> step.action == Submit && !GuardFires(r.mem.leaves, i))
      && (s.disk == r.disk || s.disk == s.mem)
  {
    StepTouches(r, i, step, env, cfg);
    StepDisk(r, i, step, env, cfg);
  }

  lemma StepKeepsDistinct(start: Run, r: Run, i: nat, step: Step, env: Env, cfg: Config)
    requires i < |start.mem.leaves| && Framed(start, r, i)
    requires PayloadsDistinct(r.mem.leaves) && PayloadsDistinct(r.disk.leaves)
    ensures var s := ExecStep(r, i, step, env, cfg); PayloadsDistinct(s.mem.leaves) && PayloadsDistinct(s.disk.leaves)
  {
    StepCarriers(start, r, i, step, env, cfg);
  }

  lemma ExecKeepsDistinct(start: Run, steps: seq<Step>, env: Env, cfg: Config, i: nat)
    requires |steps| == |start.mem.leaves| && Framed(start, start, 0) && i <= |steps|
    requires PayloadsDistinct(start.mem.leaves) && PayloadsDistinct(start.disk.leaves)
    ensures var r := Exec(start, steps, env, cfg, i); PayloadsDistinct(r.mem.leaves) && PayloadsDistinct(r.disk.leaves)
  {
    var inv := (k: nat, r: Run) => k <= |steps| && Framed(start, r, k) && PayloadsDistinct(r.mem.leaves)
        && PayloadsDistinct(r.disk.leaves);
    forall k: nat, r: Run | k < |steps| && inv(k, r) ensures inv(k + 1, ExecStep(r, k, steps[k], env, cfg)) {
      FramedStep(start, r, k, steps[k], env, cfg);
      StepKeepsDistinct(start, r, k, steps[k], env, cfg);
    }
    ExecInvariant(start, steps, env, cfg, inv, i);
  }

  /** At every save of every tick the payloads of the leaves carrying a simulation id stay pairwise distinct. */
  lemma TickKeepsPayloadsDistinct(d: Durable, env: Env, cfg: Config)
    requires d.disk.Valid() && PayloadsDistinct(d.disk.leaves)
    ensures PayloadsDistinct(Tick(d, env, cfg).disk.leaves)
  {
    if !HasDuplicates(Prepare(d.disk, env), cfg) {
      TickStarts(d, env, cfg);
      PrepareKeepsDistinct(d.disk, env);
      var start, steps := Start(d, env), Steps(Prepare(d.disk, env), cfg);
      ExecKeepsDistinct(start, steps, env, cfg, |steps|);
    }
  }

  // ---------------------------------------------------------------------------
  // The guard inside the loop is redundant once the scan has passed

  /** The up-front scan found nothing: no leaf to be submitted shares its payload with a leaf that has a simulation id
      or with another leaf to be submitted. */
  ghost predicate Scanned(ls: seq<Leaf>, steps: seq<Step>)
    requires |steps| == |ls|
  {
    forall i, j | 0 <= i < |ls| && 0 <= j < |ls| && i != j && steps[i].action == Submit
      && (ls[j].simId.Some? || (j < i && steps[j].action == Submit)) ::
        WireOf(ls[i].work.spec) != WireOf(ls[j].work.spec)
  }

  /** Only the leaves that had a simulation id, and those already reached and submitted, have one. */
  ghost predicate IdsExplained(start: Run, steps: seq<Step>, ls: seq<Leaf>, i: nat)
    requires |steps| == |start.mem.leaves|
  {
    |ls| == |steps| && forall j :: 0 <= j < |steps| && ls[j].simId.Some? ==> Explained(start, steps, i, j)
  }

  predicate Explained(start: Run, steps: seq<Step>, i: nat, j: nat)
    requires |steps| == |start.mem.leaves| && j < |steps|
  {
    start.mem.leaves[j].simId.Some? || (j < i && steps[j].action == Submit)
  }

  lemma {:induction false} ExecIdsExplained(start: Run, steps: seq<Step>, env: Env, cfg: Config, i: nat)
    requires |steps| == |start.mem.leaves| && Framed(start, start, 0) && i <= |steps|
    ensures IdsExplained(start, steps, Exec(start, steps, env, cfg, i).mem.leaves, i)
  {
    var inv := (k: nat, r: Run) => k <= |steps| && Framed(start, r, k) && IdsExplained(start, steps, r.mem.leaves, k);
    forall k: nat, r: Run | k < |steps| && inv(k, r) ensures inv(k + 1, ExecStep(r, k, steps[k], env, cfg)) {
      FramedStep(start, r, k, steps[k], env, cfg);
    }
    ExecInvariant(start, steps, env, cfg, inv, i);
  }

  lemma ScanCovers(c: Campaign, env: Env, cfg: Config)
    requires c.Valid() && !HasDuplicates(Prepare(c, env), cfg)
    ensures Scanned(First(c, env).leaves, Steps(Prepare(c, env), cfg))
  {
    FirstFrame(c, env);
    var p, f := Prepare(c, env), First(c, env);
    forall i: nat | i < |f.leaves|
      ensures f.leaves[i].simId == p.leaves[i].simId && f.leaves[i].work == p.leaves[i].work
    {
      assert SameBooks(f.leaves[i], p.leaves[i]);
    }
    NoCollisions(p, cfg, f.leaves);
  }

  lemma NoCollisions(p: Campaign, cfg: Config, ls: seq<Leaf>)
    requires !HasDuplicates(p, cfg) && |ls| == |p.leaves|
    requires forall i: nat :: i < |ls| ==> ls[i].simId == p.leaves[i].simId && ls[i].work == p.leaves[i].work
    ensures Scanned(ls, Steps(p, cfg))
  {
    var steps := Steps(p, cfg);
    forall i: nat, j: nat | i < |ls| && j < |ls| && i != j && steps[i].action == Submit
      && (ls[j].simId.Some? || (j < i && steps[j].action == Submit))
      ensures WireOf(ls[i].work.spec) != WireOf(ls[j].work.spec)
    {
      assert !Collides(p, cfg, i, j);
    }
  }

  /** Once the scan has passed, the guard inside the loop cannot fire in that tick, retries of deferred leaves that
      already carry a simulation id included. */
  lemma GuardNeverFires(d: Durable, env: Env, cfg: Config, i: nat)
    requires d.disk.Valid() && !HasDuplicates(Prepare(d.disk, env), cfg)
    requires i < |d.disk.leaves| && Submits(Prepare(d.disk, env), cfg, i)
    ensures !GuardFires(Exec(Start(d, env), Steps(Prepare(d.disk, env), cfg), env, cfg, i).mem.leaves, i)
  {
    var start, steps := Start(d, env), Steps(Prepare(d.disk, env), cfg);
    TickStarts(d, env, cfg);
    ScanCovers(d.disk, env, cfg);
    GuardSilentAt(start, steps, env, cfg, i);
  }

  lemma GuardSilentAt(start: Run, steps: seq<Step>, env: Env, cfg: Config, i: nat)
    requires |steps| == |start.mem.leaves| && i < |steps| && Framed(start, start, 0)
    requires Scanned(start.mem.leaves, steps) && steps[i].action == Submit
    ensures !GuardFires(Exec(start, steps, env, cfg, i).mem.leaves, i)
  {
    ExecFrame(start, steps, env, cfg, i);
    ExecIdsExplained(start, steps, env, cfg, i);
  }
}

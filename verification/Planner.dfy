/** The pure planner: fold observations, decide the next step of every leaf, account for cost. */
module Planner {
  import opened Prelude
  import opened Agenda
  import opened Campaign

  // ---------------------------------------------------------------------------
  // Observation folding

  datatype ObservedState =
    | Accepted | SimulationSubmitted
    | JobRunning | StepFinished | WorkflowFinished | Checkpoint
    | ResultsReady | JobFinished
    | JobFailed | SimulationFailed | Cancelled
    | Unrecognised(text: string)

  function StatusOf(s: ObservedState): Option<Status> {
    match s
    case Accepted | SimulationSubmitted => Some(Submitted)
    case JobRunning | StepFinished | WorkflowFinished | Checkpoint => Some(Running)
    case ResultsReady | JobFinished => Some(Done)
    case JobFailed | SimulationFailed | Cancelled => Some(Failed)
    case Unrecognised(_) => None
  }

  /** Leaf `i` is the one an observation of its simulation id is attributed to: the last leaf carrying the id. */
  predicate Attributed(ls: seq<Leaf>, i: nat)
    requires i < |ls|
  {
    ls[i].simId.Some? && forall j :: i < j < |ls| ==> ls[j].simId != ls[i].simId
  }

  function FoldLeaf(ls: seq<Leaf>, i: nat, observed: map<SimId, ObservedState>): Leaf
    requires i < |ls|
  {
    var l := ls[i];
    if Attributed(ls, i) && l.simId.value in observed && StatusOf(observed[l.simId.value]).Some?
    then l.(status := StatusOf(observed[l.simId.value]).value)
    else l
  }

  function Fold(ls: seq<Leaf>, observed: map<SimId, ObservedState>): (r: seq<Leaf>)
    ensures |r| == |ls|
  {
    seq(|ls|, i requires 0 <= i < |ls| => FoldLeaf(ls, i, observed))
  }

  /** `apply_states` after the engine's `sim_id -> path` index: both loops. */
  method ApplyStates(ls: seq<Leaf>, observed: map<SimId, ObservedState>) returns (r: seq<Leaf>)
    ensures r == Fold(ls, observed)
  {
    var bySim: map<SimId, nat> := map[];
    for i := 0 to |ls|
      invariant forall s :: s in bySim ==> bySim[s] < i && ls[bySim[s]].simId == Some(s)
      invariant forall s :: s in bySim ==> forall j :: bySim[s] < j < i ==> ls[j].simId != Some(s)
      invariant forall j :: 0 <= j < i && ls[j].simId.Some? ==> ls[j].simId.value in bySim
    {
      if ls[i].simId.Some? {
        bySim := bySim[ls[i].simId.value := i];
      }
    }
    r := ls;
    for i := 0 to |ls|
      invariant |r| == |ls|
      invariant forall j :: 0 <= j < i ==> r[j] == FoldLeaf(ls, j, observed)
      invariant forall j :: i <= j < |ls| ==> r[j] == ls[j]
    {
      if ls[i].simId.Some? {
        var s := ls[i].simId.value;
        assert ls[bySim[s]].simId == Some(s);
        if bySim[s] == i && s in observed && StatusOf(observed[s]).Some? {
          r := r[i := ls[i].(status := StatusOf(observed[s]).value)];
        }
      }
    }
  }

  // ---------------------------------------------------------------------------
  // Admission

  datatype Refusal = JobBudget | Concurrency | CoreHours | GpuHours | Partition

  /** The single gate every submission passes: the first breached cap, if any.  Caps are inclusive. */
  function CheckAdmission(b: Budget, u: Usage, q: ResourceRequest): Option<Refusal> {
    if b.maxTotal.Some? && u.submitted + 1 > b.maxTotal.value then Some(JobBudget)
    else if b.maxConcurrent.Some? && u.running + 1 > b.maxConcurrent.value then Some(Concurrency)
    else if b.maxCoreHours.Some? && u.coreHours + q.coreHours > b.maxCoreHours.value then Some(CoreHours)
    else if b.maxGpuHours.Some? && q.isGpu && u.gpuHours + q.gpuHours > b.maxGpuHours.value then Some(GpuHours)
    else if b.partitions.Some? && (q.partition.None? || q.partition.value !in b.partitions.value) then Some(Partition)
    else None
  }

  function Account(u: Usage, q: ResourceRequest): Usage {
    u.(coreHours := u.coreHours + q.coreHours,
       gpuHours := u.gpuHours + (if q.isGpu then q.gpuHours else 0.0),
       submitted := u.submitted + 1)
  }

  /** An accepted job: its estimate is reserved and it is in flight. */
  function Reserve(u: Usage, q: ResourceRequest): Usage {
    Account(u, q).(running := u.running + 1)
  }

  /** Replace one leaf's estimate by its actual cost, clamped at zero. */
  function Reconcile(u: Usage, cost: Cost, a: Actual): Usage {
    u.(coreHours := Max(0.0, u.coreHours + (a.core - cost.estimatedCore)),
       gpuHours := Max(0.0, if cost.isGpu then u.gpuHours + (a.gpu - cost.estimatedGpu) else u.gpuHours))
  }

  // ---------------------------------------------------------------------------
  // Planning

  datatype Why = NoReason | AlreadyInFlight | FailedDependencies(deps: seq<Name>) | UnmetDependencies(deps: seq<Name>)
      | Budgeted(refusal: Refusal)
  datatype Action = Submit | Wait | MarkDone | MarkFailed
  datatype Step = Step(action: Action, why: Why)

  function Marks(ls: seq<Leaf>, s: Status): (r: seq<bool>)
    ensures |r| == |ls|
    ensures forall i :: 0 <= i < |r| ==> r[i] == (ls[i].status == s)
  {
    seq(|ls|, i requires 0 <= i < |ls| => ls[i].status == s)
  }

  datatype DepState = DepDone | DepUnmet | DepFailed

  /** An unresolvable name is unmet; a subtree with a failed leaf is failed; else it is done when wholly done. */
  function DependencyState(tree: Kids, ls: seq<Leaf>, i: nat, dep: Name): DepState {
    match ResolveDependency(tree, i, dep)
    case None => DepUnmet
    case Some(e) =>
      if SubtreeAny(e, Marks(ls, Failed)) then DepFailed
      else if SubtreeAll(e, Marks(ls, Done)) then DepDone
      else DepUnmet
  }

  function DepsIn(tree: Kids, ls: seq<Leaf>, i: nat, deps: seq<Name>, s: DepState): seq<Name>
    decreases |deps|
  {
    if deps == [] then []
    else
      var before, last := DepsIn(tree, ls, i, deps[..|deps| - 1], s), deps[|deps| - 1];
      if DependencyState(tree, ls, i, last) == s then before + [last] else before
  }

  lemma {:induction false} DepsInMembers(tree: Kids, ls: seq<Leaf>, i: nat, deps: seq<Name>, s: DepState)
    ensures forall d :: d in DepsIn(tree, ls, i, deps, s) <==> d in deps && DependencyState(tree, ls, i, d) == s
    decreases |deps|
  {
    if deps != [] {
      var init, last := deps[..|deps| - 1], deps[|deps| - 1];
      DepsInMembers(tree, ls, i, init, s);
      assert deps == init + [last];
    }
  }

  /** The branch table for one leaf. */
  function PlanLeaf(tree: Kids, ls: seq<Leaf>, i: nat, b: Budget, u: Usage): Step
    requires i < |ls|
  {
    var l := ls[i];
    match l.status
    case Done => Step(MarkDone, NoReason)
    case Failed => Step(MarkFailed, NoReason)
    case Submitted | Running => Step(Wait, AlreadyInFlight)
    case Planned =>
      var blocked := DepsIn(tree, ls, i, l.work.dependsOn, DepFailed);
      var unmet := DepsIn(tree, ls, i, l.work.dependsOn, DepUnmet);
      if blocked != [] then Step(MarkFailed, FailedDependencies(blocked))
      else if unmet != [] then Step(Wait, UnmetDependencies(unmet))
      else match CheckAdmission(b, u, l.work.spec.request)
        case Some(refusal) => Step(Wait, Budgeted(refusal))
        case None => Step(Submit, NoReason)
  }

  /** The running usage before leaf `i` is planned: every earlier planned submission is already reserved. */
  function PlannedUsage(tree: Kids, ls: seq<Leaf>, b: Budget, u: Usage, i: nat): Usage
    requires i <= |ls|
  {
    if i == 0 then u.(running := CountInFlight(ls))
    else
      var before := PlannedUsage(tree, ls, b, u, i - 1);
      if PlanLeaf(tree, ls, i - 1, b, before).action == Submit
      then Reserve(before, ls[i - 1].work.spec.request) else before
  }

  function StepOf(tree: Kids, ls: seq<Leaf>, b: Budget, u: Usage, i: nat): Step
    requires i < |ls|
  {
    PlanLeaf(tree, ls, i, b, PlannedUsage(tree, ls, b, u, i))
  }

  /** `_plan_leaf`'s dependency loop. */
  method SortDependencies(tree: Kids, ls: seq<Leaf>, i: nat, deps: seq<Name>)
      returns (unmet: seq<Name>, blocked: seq<Name>)
    ensures unmet == DepsIn(tree, ls, i, deps, DepUnmet) && blocked == DepsIn(tree, ls, i, deps, DepFailed)
  {
    unmet, blocked := [], [];
    for k := 0 to |deps|
      invariant unmet == DepsIn(tree, ls, i, deps[..k], DepUnmet)
        && blocked == DepsIn(tree, ls, i, deps[..k], DepFailed)
    {
      DepsInNext(tree, ls, i, deps, k, DepUnmet);
      DepsInNext(tree, ls, i, deps, k, DepFailed);
      var s := DependencyState(tree, ls, i, deps[k]);
      if s == DepUnmet { unmet := unmet + [deps[k]]; }
      if s == DepFailed { blocked := blocked + [deps[k]]; }
    }
    assert deps[..|deps|] == deps;
  }

  lemma DepsInNext(tree: Kids, ls: seq<Leaf>, i: nat, deps: seq<Name>, k: nat, s: DepState)
    requires k < |deps|
    ensures DepsIn(tree, ls, i, deps[..k + 1], s) ==
      DepsIn(tree, ls, i, deps[..k], s) + if DependencyState(tree, ls, i, deps[k]) == s then [deps[k]] else []
  {
    assert deps[..k + 1][..k] == deps[..k];
  }

  /** `next_actions`: one step per leaf, threading a running usage through the plan. */
  method NextActions(tree: Kids, ls: seq<Leaf>, b: Budget, u: Usage) returns (steps: seq<Step>)
    ensures |steps| == |ls|
    ensures forall i :: 0 <= i < |ls| ==> steps[i] == StepOf(tree, ls, b, u, i)
  {
    steps := [];
    var running := u.(running := CountInFlight(ls));
    for i := 0 to |ls|
      invariant |steps| == i
      invariant running == PlannedUsage(tree, ls, b, u, i)
      invariant forall j :: 0 <= j < i ==> steps[j] == StepOf(tree, ls, b, u, j)
    {
      var step: Step;
      if ls[i].status == Planned {
        var unmet, blocked := SortDependencies(tree, ls, i, ls[i].work.dependsOn);
        if blocked != [] {
          step := Step(MarkFailed, FailedDependencies(blocked));
        } else if unmet != [] {
          step := Step(Wait, UnmetDependencies(unmet));
        } else {
          var refusal := CheckAdmission(b, running, ls[i].work.spec.request);
          step := if refusal.Some? then Step(Wait, Budgeted(refusal.value)) else Step(Submit, NoReason);
        }
      } else {
        step := PlanLeaf(tree, ls, i, b, running);
      }
      if step.action == Submit {
        running := Reserve(running, ls[i].work.spec.request);
      }
      steps := steps + [step];
    }
  }

  /** Leaf `j` is one the dependency ranges over: its path extends the one the name stands for. */
  ghost predicate Named(tree: Kids, i: nat, d: Name, j: nat)
    requires i < Count(tree)
  {
    j < Count(tree) && Target(tree, i, d) <= Paths(tree)[j]
  }

  /** There is an entry where the name points, and every leaf below it is done. */
  ghost predicate DependencyDone(tree: Kids, ls: seq<Leaf>, i: nat, d: Name)
    requires i < Count(tree)
  {
    && EntryAt(tree, 0, Target(tree, i, d)).Some?
    && forall j: nat :: Named(tree, i, d, j) ==> j < |ls| && ls[j].status == Done
  }

  /** Some leaf below where the name points has failed. */
  ghost predicate DependencyFailing(tree: Kids, ls: seq<Leaf>, i: nat, d: Name)
    requires i < Count(tree)
  {
    exists j: nat :: Named(tree, i, d, j) && j < |ls| && ls[j].status == Failed
  }

  lemma {:induction false} BelowIsNamed(tree: Kids, i: nat, d: Name)
    requires WellFormed(tree) && i < Count(tree)
    ensures ResolveDependency(tree, i, d) == EntryAt(tree, 0, Target(tree, i, d))
    ensures ResolveDependency(tree, i, d).None? ==> forall j: nat :: !Named(tree, i, d, j)
    ensures ResolveDependency(tree, i, d).Some? ==> forall j: nat ::
      Below(ResolveDependency(tree, i, d).value, j) <==> Named(tree, i, d, j)
  {
    ResolvesByPath(tree, i, d, i);
    forall j: nat
      ensures ResolveDependency(tree, i, d).Some? && Below(ResolveDependency(tree, i, d).value, j)
        <==> Named(tree, i, d, j)
    {
      if j < Count(tree) { ResolvesByPath(tree, i, d, j); }
      else if ResolveDependency(tree, i, d).Some? { ResolvedCovered(tree, i, d); }
    }
  }

  lemma {:induction false} DependencyStateByPath(tree: Kids, ls: seq<Leaf>, i: nat, d: Name)
    requires WellFormed(tree) && |ls| == Count(tree) && i < |ls|
    ensures DependencyState(tree, ls, i, d) == DepFailed <==> DependencyFailing(tree, ls, i, d)
    ensures DependencyState(tree, ls, i, d) == DepDone <==>
      DependencyDone(tree, ls, i, d) && !DependencyFailing(tree, ls, i, d)
  {
    BelowIsNamed(tree, i, d);
    if ResolveDependency(tree, i, d).Some? {
      SubtreeIsItsLeaves(tree, i, d, Marks(ls, Failed));
      SubtreeIsItsLeaves(tree, i, d, Marks(ls, Done));
    }
  }

  /** A planned leaf is planned for submission exactly when every dependency points at an entry all of whose leaves are
      done and the budget admits it; it is planned to fail exactly when some dependency has a failed leaf. */
  lemma {:induction false} PlanRespectsDependencies(tree: Kids, ls: seq<Leaf>, i: nat, b: Budget, u: Usage)
    requires WellFormed(tree) && |ls| == Count(tree) && i < |ls| && ls[i].status == Planned
    ensures PlanLeaf(tree, ls, i, b, u).action == Submit <==>
      && (forall d :: d in ls[i].work.dependsOn ==> DependencyDone(tree, ls, i, d))
      && CheckAdmission(b, u, ls[i].work.spec.request).None?
    ensures PlanLeaf(tree, ls, i, b, u).action == MarkFailed <==>
      exists d :: d in ls[i].work.dependsOn && DependencyFailing(tree, ls, i, d)
  {
    var deps := ls[i].work.dependsOn;
    DepsInMembers(tree, ls, i, deps, DepFailed);
    DepsInMembers(tree, ls, i, deps, DepUnmet);
    var blocked := DepsIn(tree, ls, i, deps, DepFailed);
    var unmet := DepsIn(tree, ls, i, deps, DepUnmet);
    forall d | d in deps
      ensures d in blocked <==> DependencyFailing(tree, ls, i, d)
      ensures d in blocked || d in unmet <==> !DependencyDone(tree, ls, i, d) || DependencyFailing(tree, ls, i, d)
      ensures DependencyDone(tree, ls, i, d) ==> !DependencyFailing(tree, ls, i, d)
    {
      DependencyStateByPath(tree, ls, i, d);
    }
    if blocked != [] { assert blocked[0] in blocked; }
    if unmet != [] { assert unmet[0] in unmet; }
  }
}

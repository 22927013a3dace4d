/** The persisted campaign: leaf records, budget, usage and pending callbacks. */
module Campaign {
  import opened Prelude
  import opened Agenda

  type SimId = string

  datatype ResourceRequest = ResourceRequest(coreHours: real, gpuHours: real, partition: Option<string>, isGpu: bool)

  /** A leaf's execution payload: its `sim` part and the rest as canonical JSON text, and the resources it asks for. */
  datatype Spec = Spec(sim: Option<string>, rest: string, request: ResourceRequest)

  /** The bytes the cluster hashes into a simulation id. */
  datatype Wire = SimOnly(sim: string) | WholeSpec(spec: Spec)

  function WireOf(spec: Spec): Wire {
    match spec.sim
    case Some(s) => SimOnly(s)
    case None => WholeSpec(spec)
  }

  /** A run identity: the command id of a leaf submission, an injective digest of campaign name, leaf path and
      spec; or the token of a run submitted outside any campaign. */
  datatype CmdId = CmdId(campaign: string, path: Path, spec: Spec) | Direct(token: string)

  datatype Status = Planned | Submitted | Running | Done | Failed {
    predicate Terminal() { Done? || Failed? }
    predicate InFlight() { Submitted? || Running? }
  }

  /** Why a leaf failed or is deferred. */
  datatype Reason = Reason(error: Option<ErrorText>, code: Option<string>, stage: Option<string>)
  datatype ErrorText =
    | Reported(text: string)
    | DependencyFailed(deps: seq<Name>)
    | OutcomeUnknown(elapsed: int, attempts: nat, code: string, text: string)
    | DuplicatePayload

  const NO_REASON := Reason(None, None, None)

  /** What a leaf is: fixed once it is added. */
  datatype Work = Work(spec: Spec, point: Option<string>, dependsOn: seq<Name>, requiresApproval: bool)

  datatype Actual = Actual(core: real, gpu: real)

  /** What was reserved at submission, and what the run turned out to cost. */
  datatype Cost = Cost(estimatedCore: real, estimatedGpu: real, isGpu: bool, actual: Option<Actual>)

  const NO_COST := Cost(0.0, 0.0, false, None)

  datatype Deferral = Deferral(attempts: nat, since: Option<int>)

  const NOT_DEFERRED := Deferral(0, None)

  datatype Leaf = Leaf(
    work: Work,
    status: Status,
    simId: Option<SimId>,
    runId: Option<CmdId>,
    approved: bool,
    reused: bool,
    cost: Cost,
    deferral: Deferral,
    reason: Reason,
    suspect: Option<string>)

  function FreshLeaf(work: Work): Leaf {
    Leaf(work, Planned, None, None, false, false, NO_COST, NOT_DEFERRED, NO_REASON, None)
  }

  /** A durable decision-point record. */
  datatype Callback = Callback(path: Path, kind: Status, simId: Option<SimId>, reason: Reason, suspect: Option<string>)

  /** Hard caps; an absent cap is no limit. */
  datatype Budget = Budget(
    maxCoreHours: Option<real>,
    maxGpuHours: Option<real>,
    maxConcurrent: Option<int>,
    maxTotal: Option<int>,
    partitions: Option<seq<string>>)

  datatype Usage = Usage(coreHours: real, gpuHours: real, submitted: int, running: int)

  const NO_USAGE := Usage(0.0, 0.0, 0, 0)

  datatype Lifecycle = LifeRunning | LifePaused | LifeStopped

  datatype Campaign = Campaign(
    name: string,
    tree: Kids,
    leaves: seq<Leaf>,
    budget: Budget,
    usage: Usage,
    callbacks: seq<Callback>,
    state: Lifecycle)
  {
    predicate Valid() {
      WellFormed(tree) && |leaves| == Count(tree)
    }

    function Path(i: nat): Path
      requires i < Count(tree)
    {
      Paths(tree)[i]
    }

    /** The stable command id under which leaf `i` is submitted. */
    function Key(i: nat): CmdId
      requires |leaves| == Count(tree) && i < |leaves|
    {
      CmdId(name, Path(i), leaves[i].work.spec)
    }
  }

  /** A command of this campaign, and of no other campaign or direct run. */
  predicate Mine(c: Campaign, k: CmdId) {
    k.CmdId? && k.campaign == c.name
  }

  /** The same work at the same paths. */
  ghost predicate SameWork(c: Campaign, d: Campaign) {
    && c.name == d.name && c.tree == d.tree && |c.leaves| == |d.leaves|
    && forall i :: 0 <= i < |c.leaves| ==> c.leaves[i].work == d.leaves[i].work
  }

  lemma KeysDistinct(c: Campaign, i: nat, j: nat)
    requires c.Valid() && i < |c.leaves| && j < |c.leaves| && c.Key(i) == c.Key(j)
    ensures i == j
  {
    PathsDistinct(c.tree);
    assert c.Path(i) == c.Path(j);
  }

  // ---------------------------------------------------------------------------
  // Sums over leaves

  function Total(ls: seq<Leaf>, f: Leaf -> real): real {
    if ls == [] then 0.0 else f(ls[0]) + Total(ls[1..], f)
  }

  lemma {:induction false} TotalUpdate(ls: seq<Leaf>, i: nat, l: Leaf, f: Leaf -> real)
    requires i < |ls|
    ensures Total(ls[i := l], f) == Total(ls, f) - f(ls[i]) + f(l)
  {
    if i == 0 {
      assert ls[0 := l][1..] == ls[1..];
    } else {
      TotalUpdate(ls[1..], i - 1, l, f);
      assert ls[i := l][1..] == ls[1..][i - 1 := l];
    }
  }

  lemma {:induction false} TotalSame(ls: seq<Leaf>, ms: seq<Leaf>, f: Leaf -> real)
    requires |ls| == |ms| && forall i :: 0 <= i < |ls| ==> f(ls[i]) == f(ms[i])
    ensures Total(ls, f) == Total(ms, f)
  {
    if ls != [] {
      assert forall i :: 0 <= i < |ls[1..]| ==> ls[1..][i] == ls[i + 1] && ms[1..][i] == ms[i + 1];
      TotalSame(ls[1..], ms[1..], f);
    }
  }

  lemma {:induction false} TotalSnoc(ls: seq<Leaf>, l: Leaf, f: Leaf -> real)
    ensures Total(ls + [l], f) == Total(ls, f) + f(l)
  {
    if ls == [] {
      assert [l][1..] == [];
      assert Total([l], f) == f(l) + Total([l][1..], f);
      assert ls + [l] == [l];
    } else {
      TotalSnoc(ls[1..], l, f);
      assert (ls + [l])[1..] == ls[1..] + [l];
    }
  }

  lemma {:induction false} TotalNonNegative(ls: seq<Leaf>, f: Leaf -> real)
    requires forall i :: 0 <= i < |ls| ==> f(ls[i]) >= 0.0
    ensures Total(ls, f) >= 0.0
  {
    if ls != [] {
      assert forall i :: 0 <= i < |ls[1..]| ==> ls[1..][i] == ls[i + 1];
      TotalNonNegative(ls[1..], f);
    }
  }

  function CoreCost(l: Leaf): real {
    match l.cost.actual
    case Some(a) => a.core
    case None => l.cost.estimatedCore
  }

  function GpuCost(l: Leaf): real {
    if !l.cost.isGpu then 0.0 else
    match l.cost.actual
    case Some(a) => a.gpu
    case None => l.cost.estimatedGpu
  }

  /** One for a leaf this campaign submitted and the cluster acknowledged. */
  function JobShare(l: Leaf): real {
    if l.runId.Some? && !l.reused then 1.0 else 0.0
  }

  function CountInFlight(ls: seq<Leaf>): nat {
    if ls == [] then 0 else (if ls[0].status.InFlight() then 1 else 0) + CountInFlight(ls[1..])
  }

  /** The leaves whose job is submitted or running. */
  function InFlightLeaves(ls: seq<Leaf>): set<nat> {
    set i: nat | i < |ls| && (ls[i].status == Submitted || ls[i].status == Running)
  }

  lemma {:induction false} ShiftedCount(s: set<nat>, t: set<nat>)
    requires forall i: nat :: i in s <==> i + 1 in t
    ensures |t| == |s| + if 0 in t then 1 else 0
    decreases |s|
  {
    if s == {} {
      assert forall x: nat :: x in t && x != 0 ==> x - 1 in s;
      assert t == if 0 in t then {0} else {};
    } else {
      var x :| x in s;
      ShiftedCount(s - {x}, t - {x + 1});
    }
  }

  /** The running count is the number of leaves in flight. */
  lemma {:induction false} CountsInFlight(ls: seq<Leaf>)
    ensures CountInFlight(ls) == |InFlightLeaves(ls)|
  {
    if ls == [] {
      assert InFlightLeaves(ls) == {};
    } else {
      CountsInFlight(ls[1..]);
      ShiftedCount(InFlightLeaves(ls[1..]), InFlightLeaves(ls));
    }
  }

  lemma {:induction false} InFlightUpdate(ls: seq<Leaf>, i: nat, l: Leaf)
    requires i < |ls|
    ensures CountInFlight(ls[i := l])
      == CountInFlight(ls) - (if ls[i].status.InFlight() then 1 else 0) + (if l.status.InFlight() then 1 else 0)
  {
    if i == 0 {
      assert ls[0 := l][1..] == ls[1..];
    } else {
      InFlightUpdate(ls[1..], i - 1, l);
      assert ls[i := l][1..] == ls[1..][i - 1 := l];
    }
  }

  /** Two specifications collide on the cluster exactly when they have one `sim` part, or neither has one and they are
      the same. */
  lemma WiresCollideExactly(a: Spec, b: Spec)
    ensures WireOf(a) == WireOf(b) <==> a.sim == b.sim && (a.sim.Some? || a == b)
  {
  }
}

/** Every run of a campaign: ticks that may crash at any save, interleaved with everything an agent does to it. */
module Runs {
  import opened Prelude
  import opened Agenda
  import opened Campaign
  import opened Engine
  import opened EngineSafety
  import opened EngineLedger
  import opened EngineDuplicates
  import opened EngineCallbacks
  import EngineGating

  /** One locked operation on the campaign store, or a job the cluster starts for anyone else.  A crash before an agent
      operation's single save is no event. */
  datatype Event =
    | TickEvent(env: Env, cfg: Config)
    | Approve(text: string)
    | AddLeaf(name: Name, spec: Spec, point: Option<string>, dependsOn: seq<Name>, specAccepted: bool,
        pointFinite: bool)
    | SetState(state: Lifecycle)
    | TakeCallbacks
    | Elsewhere(key: CmdId, simId: SimId)

  function Approved(c: Campaign, text: string): Campaign
    requires |c.leaves| == Count(c.tree)
  {
    match LeafAt(c.tree, text)
    case None => c
    case Some(i) => if i < |c.leaves| then c.(leaves := c.leaves[i := c.leaves[i].(approved := true)]) else c
  }

  /** Dependency names are legal and not repeated. */
  predicate LegalDependencies(deps: seq<Name>) {
    (forall n :: n in deps ==> LegalName(n)) && forall a, b :: 0 <= a < b < |deps| ==> deps[a] != deps[b]
  }

  /** The one legal name that cannot be passed on as a keyword. */
  const SELF := "self"

  /** A name that is taken or illegal, a bad dependency list, a sweep point with a number that is not finite or a spec
      that could never be submitted is refused unsaved. */
  function Added(c: Campaign, e: Event): Campaign
    requires e.AddLeaf?
  {
    if e.name in Names(c.tree) || !e.specAccepted || !LegalName(e.name) || !LegalDependencies(e.dependsOn)
        || e.name == SELF || !e.pointFinite then c
    else c.(tree := Append(c.tree, e.name), leaves := c.leaves + [FreshLeaf(Work(e.spec, e.point, e.dependsOn, false))])
  }

  /** A leaf is added exactly if its name is free, is not empty, starts with no dot, holds no slash and is not `self`,
      its dependencies have such names, each once, and its spec and its point are acceptable; it is then the last leaf,
      fresh, with that work and not in need of approval. */
  lemma AddLeafExactly(c: Campaign, e: Event)
    requires c.Valid() && e.AddLeaf?
    ensures Added(c, e) != c <==>
      && e.name !in Names(c.tree) && NameAllowed(e.name) && e.name != "self" && e.specAccepted && e.pointFinite
      && (forall a | 0 <= a < |e.dependsOn| :: NameAllowed(e.dependsOn[a]))
      && forall a, b | 0 <= a < b < |e.dependsOn| :: e.dependsOn[a] != e.dependsOn[b]
    ensures Added(c, e) != c ==>
      && Added(c, e) == c.(tree := Added(c, e).tree, leaves := c.leaves + [NewLeaf(e)])
      && Paths(Added(c, e).tree) == Paths(c.tree) + [[e.name]]
  {
    AddedGrows(c, e);
    forall n: Name ensures LegalName(n) <==> NameAllowed(n) { NamesAllowed(n); }
    var deps := e.dependsOn;
    assert forall a | 0 <= a < |deps| :: deps[a] in deps;
    assert (forall n :: n in deps ==> LegalName(n)) <==> forall a | 0 <= a < |deps| :: NameAllowed(deps[a]);
  }

  lemma NamesAllowed(n: Name)
    ensures LegalName(n) <==> NameAllowed(n)
  {
  }

  predicate NameAllowed(n: Name) {
    |n| > 0 && n[0] != '.' && forall j | 0 <= j < |n| :: n[j] != '/'
  }

  function NewLeaf(e: Event): Leaf
    requires e.AddLeaf?
  {
    Leaf(Work(e.spec, e.point, e.dependsOn, false), Planned, None, None, false, false,
      Cost(0.0, 0.0, false, None), Deferral(0, None), Reason(None, None, None), None)
  }

  /** A legal name that no leaf can have. */
  lemma SelfIsRefused(c: Campaign, e: Event)
    requires e.AddLeaf? && e.name == SELF
    ensures LegalName(SELF) && Added(c, e) == c
  {
    assert |SELF| == 4;
  }

  function Happen(d: Durable, e: Event): Durable
    requires d.disk.Valid()
  {
    match e
    case TickEvent(env, cfg) => Tick(d, env, cfg)
    case Approve(text) => d.(disk := Approved(d.disk, text))
    case AddLeaf(_, _, _, _, _, _) => d.(disk := Added(d.disk, e))
    case SetState(state) => d.(disk := d.disk.(state := state))
    case TakeCallbacks => d.(disk := d.disk.(callbacks := []), drained := d.drained + d.disk.callbacks)
    case Elsewhere(key, simId) => if Mine(d.disk, key) || key in d.jobs then d else d.(jobs := d.jobs[key := simId])
  }

  /** Approval sets the flag of the leaf whose path the text spells, and changes nothing else whatever. */
  lemma ApproveSetsExactly(d: Durable, text: string)
    requires d.disk.Valid()
    ensures var e := Happen(d, Approve(text));
      && e == d.(disk := d.disk.(leaves := e.disk.leaves)) && |e.disk.leaves| == |d.disk.leaves|
      && forall i | 0 <= i < |d.disk.leaves| :: var l := d.disk.leaves[i];
           e.disk.leaves[i] == if Split(text) == d.disk.Path(i) then l.(approved := true) else l
  {
    forall i | 0 <= i < |d.disk.leaves|
      ensures LeafAt(d.disk.tree, text) == Some(i) <==> Split(text) == d.disk.Path(i)
    {
      LeafAtInvertsFlattening(d.disk.tree, i, text);
    }
  }

  lemma HappenKeepsValid(d: Durable, e: Event)
    requires d.disk.Valid()
    ensures Happen(d, e).disk.Valid()
  {
    match e
    case TickEvent(env, cfg) => TickKeepsWork(d, env, cfg);
    case AddLeaf(_, _, _, _, _, _) => AddedGrows(d.disk, e);
    case _ =>
  }

  ghost function After(d: Durable, es: seq<Event>): (r: Durable)
    requires d.disk.Valid()
    ensures r.disk.Valid()
    decreases |es|
  {
    if es == [] then d
    else
      var before := After(d, es[..|es| - 1]);
      HappenKeepsValid(before, es[|es| - 1]);
      Happen(before, es[|es| - 1])
  }

  /** What is durable after the first `k` events. */
  ghost function State(d: Durable, es: seq<Event>, k: nat): (r: Durable)
    requires d.disk.Valid() && k <= |es|
    ensures r.disk.Valid()
  {
    After(d, es[..k])
  }

  lemma {:induction false} StateNext(d: Durable, es: seq<Event>, k: nat)
    requires d.disk.Valid() && k < |es|
    ensures State(d, es, k + 1) == Happen(State(d, es, k), es[k])
  {
    assert es[..k + 1][..k] == es[..k];
  }

  /** A property of the durable state that every event keeps holds after every run. */
  lemma {:induction false} RunInvariant(d: Durable, es: seq<Event>, inv: Durable -> bool)
    requires d.disk.Valid() && inv(d)
    requires forall s: Durable, e | s.disk.Valid() && inv(s) && e in es :: inv(Happen(s, e))
    ensures inv(After(d, es))
    decreases |es|
  {
    if es != [] {
      RunInvariant(d, es[..|es| - 1], inv);
      assert es[|es| - 1] in es;
    }
  }

  // ---------------------------------------------------------------------------
  // Leaves are only ever added

  /** `e` extends `c`: every leaf of `c` is still there, at its place, with its path and its work. */
  ghost predicate Extends(c: Campaign, e: Campaign)
    requires c.Valid() && e.Valid()
  {
    && c.name == e.name && |c.leaves| <= |e.leaves|
    && forall i: nat :: i < |c.leaves| ==> c.Path(i) == e.Path(i) && c.leaves[i].work == e.leaves[i].work
  }

  lemma AddedGrows(c: Campaign, e: Event)
    requires c.Valid() && e.AddLeaf?
    ensures Added(c, e).Valid() && Extends(c, Added(c, e))
    ensures Added(c, e) == c ||
      (Paths(Added(c, e).tree) == Paths(c.tree) + [[e.name]]
        && Added(c, e).leaves == c.leaves + [FreshLeaf(Work(e.spec, e.point, e.dependsOn, false))])
  {
    if Added(c, e) != c { AppendKeepsLeaves(c.tree, e.name); }
  }

  lemma HappenExtends(d: Durable, e: Event)
    requires d.disk.Valid()
    ensures Happen(d, e).disk.Valid() && Extends(d.disk, Happen(d, e).disk)
  {
    match e
    case TickEvent(env, cfg) => TickKeepsWork(d, env, cfg);
    case AddLeaf(_, _, _, _, _, _) => AddedGrows(d.disk, e);
    case _ =>
  }

  /** No operation changes an existing leaf's path or spec. */
  lemma WorkIsFixed(d: Durable, es: seq<Event>)
    requires d.disk.Valid()
    ensures Extends(d.disk, After(d, es).disk)
  {
    var inv := (s: Durable) => s.disk.Valid() && Extends(d.disk, s.disk);
    forall s: Durable, e | s.disk.Valid() && inv(s) && e in es ensures inv(Happen(s, e)) { HappenExtends(s, e); }
    RunInvariant(d, es, inv);
  }

  // ---------------------------------------------------------------------------
  // Exactly once

  lemma EditKeepsSound(d: Durable, e: Event)
    requires DurableSound(d) && !e.TickEvent?
    ensures DurableSound(Happen(d, e))
  {
    var f := Happen(d, e);
    HappenExtends(d, e);
    if e.AddLeaf? { AddedGrows(d.disk, e); }
    forall i: nat | i < |f.disk.leaves| ensures LeafSound(f.disk.Key(i), f.disk.leaves[i], f.jobs) {
      if i < |d.disk.leaves| {
        assert LeafSound(d.disk.Key(i), d.disk.leaves[i], d.jobs) && f.disk.Key(i) == d.disk.Key(i);
      }
    }
  }

  lemma HappenKeepsSound(d: Durable, e: Event)
    requires DurableSound(d)
    ensures DurableSound(Happen(d, e))
  {
    match e
    case TickEvent(env, cfg) => TickKeepsSound(d, env, cfg);
    case _ => EditKeepsSound(d, e);
  }

  /** A campaign as it is created: no leaf has run, nothing is used, and the cluster, whatever else it runs, has seen
      none of its commands. */
  ghost predicate Fresh(d: Durable) {
    && d.disk.Valid() && d.disk.usage == NO_USAGE && d.disk.callbacks == [] && d.drained == []
    && (forall k :: k in d.jobs ==> !Mine(d.disk, k)) && d.launched == []
    && forall i :: 0 <= i < |d.disk.leaves| ==> d.disk.leaves[i] == FreshLeaf(d.disk.leaves[i].work)
  }

  lemma RunsStaySound(d: Durable, es: seq<Event>)
    requires Fresh(d)
    ensures DurableSound(After(d, es))
  {
    var inv := (s: Durable) => DurableSound(s);
    forall s: Durable, e | s.disk.Valid() && inv(s) && e in es ensures inv(Happen(s, e)) { HappenKeepsSound(s, e); }
    RunInvariant(d, es, inv);
  }

  /** Two launches of one campaign are for two leaf paths. */
  lemma LaunchesDiffer(d: Durable, a: nat, b: nat)
    requires DurableSound(d) && a < b < |d.launched|
    ensures Mine(d.disk, d.launched[a]) && Mine(d.disk, d.launched[b]) && d.launched[a].path != d.launched[b].path
  {
    assert d.launched[a] in d.launched && d.launched[b] in d.launched;
    var i: nat :| i < |d.disk.leaves| && d.launched[a] == d.disk.Key(i);
    var j: nat :| j < |d.disk.leaves| && d.launched[b] == d.disk.Key(j);
    PathsDistinct(d.disk.tree);
  }

  /** Over every interleaving of ticks, crashes between any two saves, lost acknowledgements and agent edits, whatever
      else the cluster runs: the campaign launches at most one job per leaf path, of the spec the leaf has, and a leaf
      it ran names exactly the job of its own command id. */
  lemma ExactlyOnce(d: Durable, es: seq<Event>)
    requires Fresh(d)
    ensures var f := After(d, es);
      && (forall k :: k in f.launched <==> k in f.jobs && Mine(f.disk, k))
      && (forall a, b :: 0 <= a < b < |f.launched| ==>
            Mine(f.disk, f.launched[a]) && Mine(f.disk, f.launched[b]) && f.launched[a].path != f.launched[b].path)
      && (forall k :: k in f.launched ==> exists i: nat ::
        i < |f.disk.leaves| && k == CmdId(f.disk.name, f.disk.Path(i), f.disk.leaves[i].work.spec))
      && (forall i: nat :: i < |f.disk.leaves| && !f.disk.leaves[i].reused && f.disk.leaves[i].runId.Some? ==>
            var k := f.disk.Key(i);
            && f.disk.leaves[i].runId == Some(k) && k in f.launched && k in f.jobs
            && f.disk.leaves[i].simId == Some(f.jobs[k]))
  {
    RunsStaySound(d, es);
    var f := After(d, es);
    assert forall i: nat :: i < |f.disk.leaves| ==> LeafSound(f.disk.Key(i), f.disk.leaves[i], f.jobs);
    forall a: nat, b: nat | a < b < |f.launched|
      ensures Mine(f.disk, f.launched[a]) && Mine(f.disk, f.launched[b]) && f.launched[a].path != f.launched[b].path
    {
      LaunchesDiffer(f, a, b);
    }
  }

  // ---------------------------------------------------------------------------
  // The kill-switch

  predicate Resumes(e: Event) {
    e.SetState? && e.state.LifeRunning?
  }

  lemma HappenHeld(d: Durable, e: Event)
    requires d.disk.Valid() && !d.disk.state.LifeRunning? && !Resumes(e)
    ensures var f := Happen(d, e);
      && !f.disk.state.LifeRunning? && f.launched == d.launched && f.disk.name == d.disk.name
      && forall k :: k in f.jobs && Mine(f.disk, k) ==> k in d.jobs
  {
    match e
    case TickEvent(env, cfg) =>
      EngineGating.HeldTickLaunchesNothing(d, env, cfg);
      TickKeepsWork(d, env, cfg);
    case _ =>
  }

  /** Once a campaign is paused or stopped, no run that does not resume it launches anything, whatever ticks, approvals
      and additions it holds. */
  lemma NothingLaunchedUntilResumed(d: Durable, es: seq<Event>)
    requires d.disk.Valid() && !d.disk.state.LifeRunning? && forall e :: e in es ==> !Resumes(e)
    ensures After(d, es).launched == d.launched && forall k :: k in After(d, es).jobs && Mine(d.disk, k) ==> k in d.jobs
  {
    var inv := (s: Durable) => NothingNew(d, s);
    forall s: Durable, e | s.disk.Valid() && inv(s) && e in es ensures inv(Happen(s, e)) { HappenHeld(s, e); }
    RunInvariant(d, es, inv);
  }

  ghost predicate NothingNew(d: Durable, s: Durable) {
    && !s.disk.state.LifeRunning? && s.launched == d.launched && s.disk.name == d.disk.name
    && forall k :: k in s.jobs && Mine(s.disk, k) ==> k in d.jobs
  }

  // ---------------------------------------------------------------------------
  // The ledger and the payloads

  /** Costs the outside supplies are not negative. */
  ghost predicate CostsSane(es: seq<Event>) {
    forall e :: e in es ==> CostSane(e)
  }

  ghost predicate CostSane(e: Event) {
    && (e.TickEvent? ==> NonNegativeActuals(e.env))
    && (e.AddLeaf? ==> e.spec.request.coreHours >= 0.0 && e.spec.request.gpuHours >= 0.0)
  }

  ghost predicate Books(d: Durable) {
    DurableSound(d) && Ledger(d.disk) && NonNegativeCosts(d.disk.leaves)
  }

  lemma SnocBalances(ls: seq<Leaf>, work: Work, u: Usage)
    requires Balanced(ls, u)
    ensures Balanced(ls + [FreshLeaf(work)], u)
  {
    TotalSnoc(ls, FreshLeaf(work), CoreCost);
    TotalSnoc(ls, FreshLeaf(work), GpuCost);
    TotalSnoc(ls, FreshLeaf(work), JobShare);
  }

  lemma HappenKeepsBooks(d: Durable, e: Event)
    requires Books(d) && CostSane(e)
    ensures Books(Happen(d, e))
  {
    HappenKeepsSound(d, e);
    match e
    case TickEvent(env, cfg) => TickKeepsLedger(d, env, cfg);
    case AddLeaf(_, _, _, _, _, _) => AddedKeepsBooks(d.disk, e);
    case Approve(text) => ApprovedKeepsBooks(d.disk, text);
    case _ =>
  }

  lemma AddedKeepsBooks(c: Campaign, e: Event)
    requires c.Valid() && Ledger(c) && NonNegativeCosts(c.leaves) && e.AddLeaf? && CostSane(e)
    ensures Ledger(Added(c, e)) && NonNegativeCosts(Added(c, e).leaves)
  {
    SnocBalances(c.leaves, Work(e.spec, e.point, e.dependsOn, false), c.usage);
  }

  lemma ApprovedKeepsBooks(c: Campaign, text: string)
    requires c.Valid() && Ledger(c) && NonNegativeCosts(c.leaves)
    ensures Ledger(Approved(c, text)) && NonNegativeCosts(Approved(c, text).leaves)
  {
    SameWeights(c.leaves, Approved(c, text).leaves, c.usage, c.usage);
  }

  lemma {:induction false} FreshTotals(ls: seq<Leaf>)
    requires forall i :: 0 <= i < |ls| ==> ls[i] == FreshLeaf(ls[i].work)
    ensures Balanced(ls, NO_USAGE)
  {
    if ls != [] {
      assert forall i :: 0 <= i < |ls[1..]| ==> ls[1..][i] == ls[i + 1];
      FreshTotals(ls[1..]);
    }
  }

  /** What a leaf weighs: its actual cost if known, else what its specification asks for once it is acknowledged. */
  function CoreOwed(l: Leaf): real {
    if l.cost.actual.Some? then l.cost.actual.value.core
    else if l.runId.Some? && !l.reused then l.work.spec.request.coreHours else 0.0
  }

  /** GPU hours count for acknowledged leaves that ask for a GPU. */
  function GpuOwed(l: Leaf): real {
    if l.runId.None? || l.reused || !l.work.spec.request.isGpu then 0.0
    else if l.cost.actual.Some? then l.cost.actual.value.gpu else l.work.spec.request.gpuHours
  }

  lemma {:induction false} TotalsAgree(ls: seq<Leaf>, f: Leaf -> real, g: Leaf -> real)
    requires forall i :: 0 <= i < |ls| ==> f(ls[i]) == g(ls[i])
    ensures Total(ls, f) == Total(ls, g)
  {
    if ls != [] {
      assert forall i :: 0 <= i < |ls[1..]| ==> ls[1..][i] == ls[i + 1];
      TotalsAgree(ls[1..], f, g);
    }
  }

  lemma SoundLeavesOwe(c: Campaign, jobs: map<CmdId, SimId>)
    requires Sound(c, jobs)
    ensures Total(c.leaves, CoreCost) == Total(c.leaves, CoreOwed)
    ensures Total(c.leaves, GpuCost) == Total(c.leaves, GpuOwed)
  {
    forall i: nat | i < |c.leaves|
      ensures CoreCost(c.leaves[i]) == CoreOwed(c.leaves[i]) && GpuCost(c.leaves[i]) == GpuOwed(c.leaves[i])
    {
      assert LeafSound(c.Key(i), c.leaves[i], jobs);
    }
    TotalsAgree(c.leaves, CoreCost, CoreOwed);
    TotalsAgree(c.leaves, GpuCost, GpuOwed);
  }

  /** After every run from a fresh campaign, whichever saves its crashed ticks reached: usage is the sum over leaves of
      the actual cost if known and otherwise of what acknowledged leaves ask for, and the job count is the number of
      acknowledged leaves. */
  lemma {:induction false} LedgerConserved(d: Durable, es: seq<Event>)
    requires Fresh(d) && NonNegativeCosts(d.disk.leaves) && CostsSane(es)
    ensures var c := After(d, es).disk;
      && Ledger(c) && c.usage.coreHours == Total(c.leaves, CoreOwed) && c.usage.gpuHours == Total(c.leaves, GpuOwed)
  {
    RunsStaySound(d, es);
    SoundLeavesOwe(After(d, es).disk, After(d, es).jobs);
    FreshTotals(d.disk.leaves);
    var inv := (s: Durable) => Books(s);
    forall s: Durable, e | s.disk.Valid() && inv(s) && e in es ensures inv(Happen(s, e)) { HappenKeepsBooks(s, e); }
    RunInvariant(d, es, inv);
  }

  lemma HappenKeepsDistinct(d: Durable, e: Event)
    requires d.disk.Valid() && PayloadsDistinct(d.disk.leaves)
    ensures PayloadsDistinct(Happen(d, e).disk.leaves)
  {
    match e
    case TickEvent(env, cfg) => TickKeepsPayloadsDistinct(d, env, cfg);
    case _ => EditKeepsDistinct(d.disk.leaves, Happen(d, e).disk.leaves);
  }

  lemma EditKeepsDistinct(ls: seq<Leaf>, ms: seq<Leaf>)
    requires PayloadsDistinct(ls) && |ls| <= |ms|
    requires forall i :: 0 <= i < |ls| ==> ms[i] == ls[i].(approved := ms[i].approved)
    requires forall i :: |ls| <= i < |ms| ==> ms[i].simId.None?
    ensures PayloadsDistinct(ms)
  {
    forall i, j | 0 <= i < j < |ms| && Carrier(ms[i]) && Carrier(ms[j])
      ensures WireOf(ms[i].work.spec) != WireOf(ms[j].work.spec)
    {
      assert Carrier(ls[i]) && Carrier(ls[j]);
    }
  }

  /** After every run no two leaves that claim a simulation of their own share a wire payload. */
  lemma PayloadsStayDistinct(d: Durable, es: seq<Event>)
    requires Fresh(d)
    ensures PayloadsDistinct(After(d, es).disk.leaves)
  {
    var inv := (s: Durable) => PayloadsDistinct(s.disk.leaves);
    forall s: Durable, e | s.disk.Valid() && inv(s) && e in es ensures inv(Happen(s, e)) { HappenKeepsDistinct(s, e); }
    RunInvariant(d, es, inv);
  }

  // ---------------------------------------------------------------------------
  // Callbacks tell the whole history

  /** The stored status at a path; a leaf that does not exist yet counts as planned. */
  function StatusAt(c: Campaign, path: Path): Status
    requires c.Valid()
  {
    match Walk(c.tree, 0, path)
    case None => Planned
    case Some(i) => if i < |c.leaves| then c.leaves[i].status else Planned
  }

  /** The decision points of the status history at one path, event by event. */
  ghost function Decisions(d: Durable, es: seq<Event>, path: Path): seq<Status>
    requires d.disk.Valid()
    decreases |es|
  {
    if es == [] then []
    else
      var before := After(d, es[..|es| - 1]);
      Decisions(d, es[..|es| - 1], path) + Decision(StatusAt(before.disk, path), StatusAt(After(d, es).disk, path))
  }

  lemma StatusAtLeaf(c: Campaign, i: nat)
    requires c.Valid() && i < |c.leaves|
    ensures StatusAt(c, c.Path(i)) == c.leaves[i].status
  {
    WalkReachesLeaf(c.tree, 0, i);
  }

  lemma StatusOffTree(c: Campaign, path: Path)
    requires c.Valid() && path !in Paths(c.tree)
    ensures StatusAt(c, path) == Planned
  {
    if Walk(c.tree, 0, path).Some? { WalkStaysInside(c.tree, 0, path); }
  }

  lemma TickAnnounces(c: Campaign, e: Campaign, path: Path)
    requires c.Valid() && e.Valid() && e.tree == c.tree && EdgeTriggered(c, e)
    ensures Kinds(e.callbacks, path) == Kinds(c.callbacks, path) + Decision(StatusAt(c, path), StatusAt(e, path))
  {
    assert e.callbacks == c.callbacks + e.callbacks[|c.callbacks|..];
    KindsConcat(c.callbacks, e.callbacks[|c.callbacks|..], path);
    if path in Paths(c.tree) {
      var i :| 0 <= i < Count(c.tree) && Paths(c.tree)[i] == path;
      StatusAtLeaf(c, i);
      StatusAtLeaf(e, i);
    } else {
      StatusOffTree(c, path);
      StatusOffTree(e, path);
    }
  }

  /** An agent operation other than draining moves no status and says nothing. */
  lemma EditSilent(c: Campaign, e: Campaign, path: Path)
    requires c.Valid() && e.Valid() && |c.leaves| <= |e.leaves|
    requires forall i: nat :: i < |c.leaves| ==> e.Path(i) == c.Path(i) && e.leaves[i].status == c.leaves[i].status
    requires forall i: nat :: |c.leaves| <= i < |e.leaves| ==> e.leaves[i].status == Planned
    ensures StatusAt(e, path) == StatusAt(c, path)
  {
    if path in Paths(e.tree) {
      var i: nat :| i < Count(e.tree) && Paths(e.tree)[i] == path;
      StatusAtLeaf(e, i);
      if i < |c.leaves| {
        StatusAtLeaf(c, i);
      } else {
        PathsDistinct(e.tree);
        forall j: nat | j < Count(c.tree) ensures Paths(c.tree)[j] != path { assert Paths(e.tree)[j] == c.Path(j); }
        StatusOffTree(c, path);
      }
    } else {
      StatusOffTree(e, path);
      forall i: nat | i < Count(c.tree) ensures Paths(c.tree)[i] != path { assert Paths(e.tree)[i] == c.Path(i); }
      StatusOffTree(c, path);
    }
  }

  ghost function Heard(d: Durable, path: Path): seq<Status> {
    Kinds(d.drained, path) + Kinds(d.disk.callbacks, path)
  }

  lemma HappenAnnounces(d: Durable, e: Event, path: Path)
    requires d.disk.Valid()
    ensures Happen(d, e).disk.Valid()
    ensures Heard(Happen(d, e), path)
      == Heard(d, path) + Decision(StatusAt(d.disk, path), StatusAt(Happen(d, e).disk, path))
  {
    HappenExtends(d, e);
    if e.TickEvent? {
      TickEdgeTriggered(d, e.env, e.cfg);
      TickHeard(d, Happen(d, e), path);
    } else {
      EditHeard(d, e, path);
    }
  }

  lemma TickHeard(d: Durable, f: Durable, path: Path)
    requires d.disk.Valid() && f.disk.Valid() && f.disk.tree == d.disk.tree && EdgeTriggered(d.disk, f.disk)
      && f.drained == d.drained
    ensures Heard(f, path) == Heard(d, path) + Decision(StatusAt(d.disk, path), StatusAt(f.disk, path))
  {
    TickAnnounces(d.disk, f.disk, path);
  }

  lemma EditHeard(d: Durable, e: Event, path: Path)
    requires d.disk.Valid() && !e.TickEvent? && Happen(d, e).disk.Valid() && Extends(d.disk, Happen(d, e).disk)
    ensures Heard(Happen(d, e), path)
      == Heard(d, path) + Decision(StatusAt(d.disk, path), StatusAt(Happen(d, e).disk, path))
  {
    if e.AddLeaf? { AddedGrows(d.disk, e); }
    EditSilent(d.disk, Happen(d, e).disk, path);
    KindsConcat(d.drained, d.disk.callbacks, path);
  }

  /** Over every run, and however often the agent drained them, the callbacks it has taken followed by those still
      pending are exactly the decision points of each leaf's history: none lost, none repeated, in order. */
  lemma {:induction false} CallbacksTellHistory(d: Durable, es: seq<Event>, path: Path)
    requires Fresh(d)
    ensures Heard(After(d, es), path) == Decisions(d, es, path)
    decreases |es|
  {
    if es != [] {
      var init := es[..|es| - 1];
      CallbacksTellHistory(d, init, path);
      HappenAnnounces(After(d, init), es[|es| - 1], path);
    }
  }

  // ---------------------------------------------------------------------------
  // How many jobs the campaign has in the cluster

  /** The campaign has recorded the leaf's own run, and reserved its cost. */
  predicate Acknowledged(l: Leaf) {
    l.runId.Some? && !l.reused
  }

  predicate HasJob(d: Durable, i: nat)
    requires d.disk.Valid() && i < |d.disk.leaves|
  {
    d.disk.Key(i) in d.jobs
  }

  function Jobs(d: Durable, n: nat): nat
    requires d.disk.Valid() && n <= |d.disk.leaves|
  {
    if n == 0 then 0 else Jobs(d, n - 1) + if HasJob(d, n - 1) then 1 else 0
  }

  function Acknowledgements(ls: seq<Leaf>, n: nat): nat
    requires n <= |ls|
  {
    if n == 0 then 0 else Acknowledgements(ls, n - 1) + if Acknowledged(ls[n - 1]) then 1 else 0
  }

  /** Jobs that run, or ran, for leaves that were never told so. */
  function Orphans(d: Durable, n: nat): nat
    requires d.disk.Valid() && n <= |d.disk.leaves|
  {
    if n == 0 then 0 else Orphans(d, n - 1) + if HasJob(d, n - 1) && !Acknowledged(d.disk.leaves[n - 1]) then 1 else 0
  }

  lemma {:induction false} JobsSplit(d: Durable, n: nat)
    requires DurableSound(d) && n <= |d.disk.leaves|
    ensures Jobs(d, n) == Acknowledgements(d.disk.leaves, n) + Orphans(d, n)
  {
    if n > 0 {
      JobsSplit(d, n - 1);
      assert LeafSound(d.disk.Key(n - 1), d.disk.leaves[n - 1], d.jobs);
    }
  }

  lemma {:induction false} AcknowledgementsWeigh(ls: seq<Leaf>, n: nat)
    requires n <= |ls|
    ensures Total(ls[..n], JobShare) == Acknowledgements(ls, n) as real
  {
    if n > 0 {
      AcknowledgementsWeigh(ls, n - 1);
      TotalSnoc(ls[..n - 1], ls[n - 1], JobShare);
      assert ls[..n] == ls[..n - 1] + [ls[n - 1]];
    }
  }

  /** The commands of the first `n` leaves that have a job. */
  function Commands(d: Durable, n: nat): (r: set<CmdId>)
    requires d.disk.Valid() && n <= |d.disk.leaves|
  {
    if n == 0 then {} else Commands(d, n - 1) + if HasJob(d, n - 1) then {d.disk.Key(n - 1)} else {}
  }

  lemma {:induction false} CommandsAreKeys(d: Durable, n: nat, k: CmdId)
    requires d.disk.Valid() && n <= |d.disk.leaves|
    ensures k in Commands(d, n) <==> exists i: nat :: i < n && HasJob(d, i) && k == d.disk.Key(i)
  {
    if n > 0 {
      CommandsAreKeys(d, n - 1, k);
      if k in Commands(d, n) && k !in Commands(d, n - 1) { assert HasJob(d, n - 1) && k == d.disk.Key(n - 1); }
    }
  }

  lemma {:induction false} NewCommand(d: Durable, i: nat)
    requires d.disk.Valid() && i < |d.disk.leaves|
    ensures d.disk.Key(i) !in Commands(d, i)
  {
    CommandsAreKeys(d, i, d.disk.Key(i));
    if j: nat :| j < i && HasJob(d, j) && d.disk.Key(i) == d.disk.Key(j) { KeysDistinct(d.disk, j, i); }
  }

  lemma OneMore(s: set<CmdId>, k: CmdId)
    requires k !in s
    ensures |s + {k}| == |s| + 1 && s + {} == s
  {
  }

  lemma {:induction false} NextCommands(d: Durable, i: nat, j: nat)
    requires d.disk.Valid() && i < |d.disk.leaves| && j == i + 1
    ensures |Commands(d, j)| == |Commands(d, i)| + if HasJob(d, i) then 1 else 0
  {
    NewCommand(d, i);
    OneMore(Commands(d, i), d.disk.Key(i));
  }

  lemma {:induction false} NextJobs(d: Durable, i: nat, j: nat)
    requires d.disk.Valid() && i < |d.disk.leaves| && j == i + 1
    ensures Jobs(d, j) == Jobs(d, i) + if HasJob(d, i) then 1 else 0
  {
  }

  lemma {:induction false} CommandsCount(d: Durable, n: nat)
    requires d.disk.Valid() && n <= |d.disk.leaves|
    ensures |Commands(d, n)| == Jobs(d, n)
  {
    if n > 0 {
      var m := n - 1;
      CommandsCount(d, m);
      NextCommands(d, m, n);
      NextJobs(d, m, n);
    }
  }

  function Elements(ks: seq<CmdId>): set<CmdId> {
    set k | k in ks
  }

  lemma {:induction false} DistinctCount(ks: seq<CmdId>)
    requires forall a, b :: 0 <= a < b < |ks| ==> ks[a] != ks[b]
    ensures |Elements(ks)| == |ks|
    decreases |ks|
  {
    if ks != [] {
      var init, last := ks[..|ks| - 1], ks[|ks| - 1];
      DistinctCount(init);
      assert ks == init + [last];
      assert Elements(ks) == Elements(init) + {last};
    }
  }

  lemma LogIsCommands(d: Durable)
    requires DurableSound(d)
    ensures |d.launched| == Jobs(d, |d.disk.leaves|)
  {
    var n := |d.disk.leaves|;
    DistinctCount(d.launched);
    CommandsCount(d, n);
    forall k ensures k in Elements(d.launched) <==> k in Commands(d, n) { SameCommand(d, k); }
    assert Elements(d.launched) == Commands(d, n);
  }

  lemma SameCommand(d: Durable, k: CmdId)
    requires DurableSound(d)
    ensures k in d.launched <==> k in Commands(d, |d.disk.leaves|)
  {
    CommandsAreKeys(d, |d.disk.leaves|, k);
    if k in d.launched {
      var i: nat :| i < |d.disk.leaves| && k == d.disk.Key(i);
      assert HasJob(d, i);
    }
  }

  lemma {:induction false} HappenCountsJobs(d: Durable, e: Event)
    requires DurableSound(d) && JobsCounted(d.disk)
    ensures JobsCounted(Happen(d, e).disk)
  {
    match e
    case TickEvent(env, cfg) => TickCountsJobs(d, env, cfg);
    case AddLeaf(_, _, _, _, _, _) =>
      TotalSnoc(d.disk.leaves, FreshLeaf(Work(e.spec, e.point, e.dependsOn, false)), JobShare);
    case Approve(text) => TotalSame(d.disk.leaves, Approved(d.disk, text).leaves, JobShare);
    case _ =>
  }

  /** However costs and estimates are signed, usage counts exactly the acknowledged leaves. */
  lemma {:induction false} RunsCountJobs(d: Durable, es: seq<Event>)
    requires Fresh(d)
    ensures DurableSound(After(d, es)) && JobsCounted(After(d, es).disk)
  {
    FreshTotals(d.disk.leaves);
    var inv := (s: Durable) => DurableSound(s) && JobsCounted(s.disk);
    forall s: Durable, e | s.disk.Valid() && inv(s) && e in es ensures inv(Happen(s, e)) {
      HappenKeepsSound(s, e);
      HappenCountsJobs(s, e);
    }
    RunInvariant(d, es, inv);
  }

  /** After every run from a fresh campaign, the campaign has started exactly as many jobs as its usage says, and one
      more for each leaf whose job it was never told of. */
  lemma JobsBeyondTheLedger(d: Durable, es: seq<Event>)
    requires Fresh(d)
    ensures var f := After(d, es); |f.launched| == f.disk.usage.submitted + Orphans(f, |f.disk.leaves|)
  {
    var f := After(d, es);
    var n := |f.disk.leaves|;
    RunsCountJobs(d, es);
    LogIsCommands(f);
    JobsSplit(f, n);
    AcknowledgementsWeigh(f.disk.leaves, n);
    assert f.disk.leaves[..n] == f.disk.leaves;
  }
}

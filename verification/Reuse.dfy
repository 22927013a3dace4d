/** The content-addressed reuse registry, and the in-memory index that spares it most scans. */
module Reuse {
  import opened Prelude

  type Hash = string
  type RunId = string

  datatype State = Pending | Done

  datatype Record = Record(hash: Hash, simId: string, state: State, runId: Option<RunId>, pending: seq<RunId>) {
    /** `run` is one of the accepted runs that may still produce the result. */
    predicate Awaits(run: RunId) {
      state == Pending && (runId == Some(run) || run in pending)
    }
  }

  /** The persisted dictionary, in insertion order. */
  type Registry = seq<Record>

  /** One record per content key. */
  ghost predicate Keyed(rs: Registry) {
    forall i, j :: 0 <= i < j < |rs| ==> rs[i].hash != rs[j].hash
  }

  function Find(rs: Registry, hash: Hash): (r: Option<nat>)
    ensures r.Some? ==> r.value < |rs| && rs[r.value].hash == hash
    ensures r.None? <==> forall k :: 0 <= k < |rs| ==> rs[k].hash != hash
  {
    if rs == [] then None
    else if rs[0].hash == hash then Some(0)
    else
      var r := Find(rs[1..], hash);
      assert forall k :: 1 <= k < |rs| ==> rs[k] == rs[1..][k - 1];
      if r.Some? then Some(r.value + 1) else None
  }

  function Get(rs: Registry, hash: Hash): (r: Option<Record>) {
    var i := Find(rs, hash);
    if i.Some? then Some(rs[i.value]) else None
  }

  function Lookup(rs: Registry, hash: Hash): Option<Record> {
    var r := Get(rs, hash);
    if r.Some? && r.value.state == Done then r else None
  }

  /** Last write wins, in place. */
  function Remember(rs: Registry, r: Record): Registry {
    var i := Find(rs, r.hash);
    if i.Some? then rs[i.value := r] else rs + [r]
  }

  function AddId(ids: seq<RunId>, id: Option<RunId>): seq<RunId> {
    if id.Some? && id.value != "" && id.value !in ids then ids + [id.value] else ids
  }

  function RecordDirect(rs: Registry, r: Record): Registry {
    match Get(rs, r.hash)
    case None => Remember(rs, r)
    case Some(old_) =>
      if old_.state == Done then rs
      else if r.state == Done then Remember(rs, old_.(state := Done, runId := r.runId, pending := []))
      else Remember(rs, old_.(pending := AddId(AddId(old_.pending, old_.runId), r.runId)))
  }

  function Promoted(r: Record, run: RunId): Record {
    r.(state := Done, runId := Some(run), pending := [])
  }

  function FirstAwaiting(rs: Registry, run: RunId): (r: Option<nat>)
    ensures r.Some? ==> r.value < |rs| && rs[r.value].Awaits(run) && forall k :: 0 <= k < r.value ==> !rs[k].Awaits(run)
    ensures r.None? ==> forall k :: 0 <= k < |rs| ==> !rs[k].Awaits(run)
  {
    if rs == [] then None
    else if rs[0].Awaits(run) then Some(0)
    else
      var r := FirstAwaiting(rs[1..], run);
      assert forall k :: 1 <= k < |rs| ==> rs[k] == rs[1..][k - 1];
      if r.Some? then Some(r.value + 1) else None
  }

  /** The first pending record that awaits the run becomes done, produced by that run. */
  function Promote(rs: Registry, run: RunId): Registry {
    var i := FirstAwaiting(rs, run);
    if run == "" || i.None? then rs else rs[i.value := Promoted(rs[i.value], run)]
  }

  /** `record_direct`: the loop accumulates the outstanding run ids. */
  method RecordDirectLoop(rs: Registry, r: Record) returns (out: Registry)
    ensures out == RecordDirect(rs, r)
  {
    var existing := Get(rs, r.hash);
    if existing.None? { return Remember(rs, r); }
    var e := existing.value;
    if e.state == Done { return rs; }
    if r.state == Done { return Remember(rs, e.(state := Done, runId := r.runId, pending := [])); }
    var ids := e.pending;
    var both := [e.runId, r.runId];
    for i := 0 to |both|
      invariant ids ==
        if i == 0 then e.pending
        else if i == 1 then AddId(e.pending, e.runId) else AddId(AddId(e.pending, e.runId), r.runId)
    {
      if both[i].Some? && both[i].value != "" && both[i].value !in ids { ids := ids + [both[i].value]; }
    }
    if ids == e.pending {
      assert rs[Find(rs, r.hash).value := e] == rs;
      return rs;
    }
    return Remember(rs, e.(pending := ids));
  }

  /** `promote`: scan in dictionary order for a pending record with the run among its candidates. */
  method PromoteScan(rs: Registry, run: RunId) returns (out: Registry)
    ensures out == Promote(rs, run)
  {
    if run == "" { return rs; }
    for i := 0 to |rs|
      invariant forall k :: 0 <= k < i ==> !rs[k].Awaits(run)
    {
      if rs[i].state != Pending || (rs[i].runId != Some(run) && run !in rs[i].pending) { continue; }
      return rs[i := Promoted(rs[i], run)];
    }
    return rs;
  }

  // ---------------------------------------------------------------------------
  // Promotion

  predicate AwaitedTwice(rs: Registry, run: RunId) {
    exists i, j :: 0 <= i < j < |rs| && rs[i].Awaits(run) && rs[j].Awaits(run)
  }

  /** A replayed event changes nothing exactly when at most one pending record awaits the run. */
  lemma ReplayChangesNothingExactly(rs: Registry, run: RunId)
    ensures Promote(Promote(rs, run), run) == Promote(rs, run) <==> run == "" || !AwaitedTwice(rs, run)
  {
    var once := Promote(rs, run);
    var first, second := FirstAwaiting(rs, run), FirstAwaiting(once, run);
    if run != "" && first.Some? {
      if second.Some? {
        assert rs[second.value].Awaits(run) && second.value != first.value;
        assert Promote(once, run)[second.value].state == Done;
      }
      if AwaitedTwice(rs, run) {
        var i, j :| 0 <= i < j < |rs| && rs[i].Awaits(run) && rs[j].Awaits(run);
        assert once[if i == first.value then j else i].Awaits(run);
      }
    }
  }

  // ---------------------------------------------------------------------------
  // Reading back by key

  lemma KeyedGet(rs: Registry, i: nat)
    requires Keyed(rs) && i < |rs|
    ensures Get(rs, rs[i].hash) == Some(rs[i])
  {
  }

  lemma GetAfterRemember(rs: Registry, r: Record, h: Hash)
    requires Keyed(rs)
    ensures Keyed(Remember(rs, r)) && Get(Remember(rs, r), h) == if h == r.hash then Some(r) else Get(rs, h)
  {
    var out := Remember(rs, r);
    var i, k := Find(rs, h), Find(out, h);
    if h == r.hash {
      assert out[if i.Some? then i.value else |rs|] == r;
    } else if i.Some? {
      assert out[i.value] == rs[i.value];
    }
  }

  /** Only one key can await a run. */
  ghost predicate RunsOwned(rs: Registry, owner: RunId -> Hash) {
    forall i, run :: 0 <= i < |rs| && rs[i].Awaits(run) ==> owner(run) == rs[i].hash
  }

  lemma GetAfterPromote(rs: Registry, run: RunId, owner: RunId -> Hash, h: Hash)
    requires Keyed(rs) && RunsOwned(rs, owner)
    ensures Keyed(Promote(rs, run)) && RunsOwned(Promote(rs, run), owner)
    ensures var g := Get(rs, h);
      Get(Promote(rs, run), h) ==
        if run != "" && g.Some? && g.value.Awaits(run) then Some(Promoted(g.value, run)) else g
  {
    var out := Promote(rs, run);
    assert forall k :: 0 <= k < |rs| ==> out[k].hash == rs[k].hash;
    var i := Find(rs, h);
    if i.Some? {
      KeyedGet(out, i.value);
      if rs[i.value].Awaits(run) { OneAwaits(rs, run, owner, i.value); }
    }
  }

  lemma OneAwaits(rs: Registry, run: RunId, owner: RunId -> Hash, i: nat)
    requires Keyed(rs) && RunsOwned(rs, owner) && i < |rs| && rs[i].Awaits(run)
    ensures FirstAwaiting(rs, run) == Some(i)
  {
    var f := FirstAwaiting(rs, run);
    assert f.Some?;
    assert owner(run) == rs[i].hash && rs[f.value].Awaits(run);
    assert rs[f.value].hash == owner(run);
  }

  // ---------------------------------------------------------------------------
  // Histories

  /** An accepted direct submission (its results perhaps already in), a completed run, or a leaf the engine finished. */
  datatype Event =
    | Direct(hash: Hash, simId: string, run: RunId, ready: bool)
    | Ready(run: RunId)
    | EngineDone(hash: Hash, simId: string, engineRun: Option<RunId>)

  /** `_direct_reuse_record`: a replayed submission never offers less than what is already done. */
  function DirectRecord(rs: Registry, e: Event): Record
    requires e.Direct?
  {
    var existing := Get(rs, e.hash);
    var done := (existing.Some? && existing.value.state == Done) || e.ready;
    Record(e.hash, e.simId, if done then Done else Pending, Some(e.run), [])
  }

  function Step(rs: Registry, e: Event): Registry {
    match e
    case Direct(_, _, _, _) => RecordDirect(rs, DirectRecord(rs, e))
    case Ready(run) => Promote(rs, run)
    case EngineDone(hash, simId, run) => Remember(rs, Record(hash, simId, Done, run, []))
  }

  function Replay(es: seq<Event>): Registry
    decreases |es|
  {
    if es == [] then [] else Step(Replay(es[..|es| - 1]), es[|es| - 1])
  }

  /** Run ids are command ids: never empty, and of one content key only. */
  ghost predicate RunsUnique(es: seq<Event>, owner: RunId -> Hash) {
    forall e :: e in es && e.Direct? ==> e.run != "" && owner(e.run) == e.hash
  }

  ghost predicate Accepted(es: seq<Event>, h: Hash, run: RunId) {
    exists e :: e in es && e.Direct? && e.hash == h && e.run == run
  }

  ghost predicate CompletesAt(es: seq<Event>, j: nat, h: Hash)
    requires j < |es|
  {
    match es[j]
    case EngineDone(hash, _, _) => hash == h
    case Direct(hash, _, _, ready) => hash == h && ready
    case Ready(run) => Accepted(es[..j], h, run)
  }

  /** Some recorded run of the key has completed. */
  ghost predicate Completed(es: seq<Event>, h: Hash) {
    exists j: nat :: j < |es| && CompletesAt(es, j, h)
  }

  ghost predicate KeyMatches(es: seq<Event>, rs: Registry, h: Hash) {
    var g := Get(rs, h);
    && (Completed(es, h) <==> g.Some? && g.value.state == Done)
    && (!Completed(es, h) ==> forall run :: Accepted(es, h, run) <==> g.Some? && g.value.Awaits(run))
  }

  lemma CompletedSnoc(es: seq<Event>, e: Event, h: Hash)
    ensures Completed(es + [e], h) <==> Completed(es, h) || CompletesAt(es + [e], |es|, h)
    ensures CompletesAt(es + [e], |es|, h) <==>
      (match e
       case EngineDone(hash, _, _) => hash == h
       case Direct(hash, _, _, ready) => hash == h && ready
       case Ready(run) => Accepted(es, h, run))
    ensures forall run :: Accepted(es + [e], h, run) <==>
      Accepted(es, h, run) || (e.Direct? && e.hash == h && e.run == run)
  {
    var fs := es + [e];
    assert fs[..|es|] == es;
    forall j: nat | j < |es| ensures CompletesAt(fs, j, h) == CompletesAt(es, j, h) {
      assert fs[..j] == es[..j];
    }
    if Completed(es, h) {
      var j: nat :| j < |es| && CompletesAt(es, j, h);
      assert CompletesAt(fs, j, h);
    }
    assert forall x :: x in fs <==> x in es || x == e;
  }

  lemma DirectMatches(es: seq<Event>, rs: Registry, e: Event, h: Hash)
    requires Keyed(rs) && e.Direct? && e.run != "" && KeyMatches(es, rs, h) && KeyMatches(es, rs, e.hash)
    ensures Keyed(Step(rs, e)) && KeyMatches(es + [e], Step(rs, e), h)
  {
    CompletedSnoc(es, e, h);
    DirectGets(rs, e, h);
  }

  /** What a direct submission leaves under each key. */
  lemma DirectGets(rs: Registry, e: Event, h: Hash)
    requires Keyed(rs) && e.Direct?
    ensures Keyed(Step(rs, e))
    ensures Get(Step(rs, e), h) ==
      if h != e.hash then Get(rs, h)
      else Some(DirectWritten(Get(rs, h), DirectRecord(rs, e)))
  {
    var r := DirectRecord(rs, e);
    var o := Get(rs, e.hash);
    if !(o.Some? && o.value.state == Done) { GetAfterRemember(rs, DirectWritten(o, r), h); }
  }

  function DirectWritten(o: Option<Record>, r: Record): Record {
    if o.None? then r
    else if o.value.state == Done then o.value
    else if r.state == Done then o.value.(state := Done, runId := r.runId, pending := [])
    else o.value.(pending := AddId(AddId(o.value.pending, o.value.runId), r.runId))
  }

  lemma ReadyMatches(es: seq<Event>, rs: Registry, run: RunId, owner: RunId -> Hash, h: Hash)
    requires Keyed(rs) && RunsOwned(rs, owner) && RunsUnique(es, owner) && KeyMatches(es, rs, h)
    ensures Keyed(Promote(rs, run)) && KeyMatches(es + [Ready(run)], Promote(rs, run), h)
  {
    CompletedSnoc(es, Ready(run), h);
    GetAfterPromote(rs, run, owner, h);
  }

  lemma EngineMatches(es: seq<Event>, rs: Registry, e: Event, h: Hash)
    requires Keyed(rs) && e.EngineDone? && KeyMatches(es, rs, h)
    ensures Keyed(Step(rs, e)) && KeyMatches(es + [e], Step(rs, e), h)
  {
    CompletedSnoc(es, e, h);
    GetAfterRemember(rs, Record(e.hash, e.simId, Done, e.engineRun, []), h);
  }

  /** What is pending awaits exactly the runs accepted for its key. */
  lemma OwnedByHistory(es: seq<Event>, rs: Registry, owner: RunId -> Hash)
    requires Keyed(rs) && RunsUnique(es, owner) && forall h :: KeyMatches(es, rs, h)
    ensures RunsOwned(rs, owner)
  {
    forall i, run | 0 <= i < |rs| && rs[i].Awaits(run) ensures owner(run) == rs[i].hash {
      KeyedGet(rs, i);
      assert KeyMatches(es, rs, rs[i].hash);
      assert Accepted(es, rs[i].hash, run);
    }
  }

  lemma {:induction false} ReplayMatches(es: seq<Event>, owner: RunId -> Hash)
    requires RunsUnique(es, owner)
    ensures Keyed(Replay(es)) && RunsOwned(Replay(es), owner) && forall h :: KeyMatches(es, Replay(es), h)
    decreases |es|
  {
    if es != [] {
      var init, e := es[..|es| - 1], es[|es| - 1];
      ReplayMatches(init, owner);
      assert init + [e] == es && e in es;
      forall h ensures Keyed(Replay(es)) && KeyMatches(es, Replay(es), h) {
        match e
        case Direct(_, _, _, _) => DirectMatches(init, Replay(init), e, h);
        case Ready(run) => ReadyMatches(init, Replay(init), run, owner, h);
        case EngineDone(_, _, _) => EngineMatches(init, Replay(init), e, h);
      }
    }
    OwnedByHistory(es, Replay(es), owner);
  }

  /** Over any history, lookup succeeds for exactly the keys some recorded run of which has completed. */
  lemma {:induction false} LookupExactly(es: seq<Event>, owner: RunId -> Hash, h: Hash)
    requires RunsUnique(es, owner)
    ensures Lookup(Replay(es), h).Some? <==> Completed(es, h)
  {
    ReplayMatches(es, owner);
    assert KeyMatches(es, Replay(es), h);
  }

  // What lookup tells: which simulation and which run produced the result.

  /** Event `j` is the engine's last result of the key. */
  ghost predicate LastEngineAt(es: seq<Event>, j: nat, h: Hash) {
    && j < |es| && es[j].EngineDone? && es[j].hash == h
    && forall k | j < k < |es| :: !(es[k].EngineDone? && es[k].hash == h)
  }

  /** Event `j` is the first direct submission of the key. */
  ghost predicate FirstDirectAt(es: seq<Event>, j: nat, h: Hash) {
    && j < |es| && es[j].Direct? && es[j].hash == h
    && forall k | 0 <= k < j :: !(es[k].Direct? && es[k].hash == h)
  }

  /** Event `j` is the first that completes a run of the key. */
  ghost predicate FirstCompletedAt(es: seq<Event>, j: nat, h: Hash) {
    j < |es| && CompletesAt(es, j, h) && forall k: nat | k < j :: !CompletesAt(es, k, h)
  }

  /** The run whose completion an event reports. */
  function CompletingRun(e: Event): Option<RunId> {
    match e
    case Direct(_, _, run, _) => Some(run)
    case Ready(run) => Some(run)
    case EngineDone(_, _, run) => run
  }

  /** A record names what its key's history says: the engine's last result if there is one; else the first direct
      submission's simulation and, once it is done, the run whose completion was the first.  A done record awaits
      nothing. */
  ghost predicate Tells(es: seq<Event>, h: Hash, r: Record) {
    && r.hash == h && (r.state == Done ==> r.pending == [])
    && (forall j: nat | LastEngineAt(es, j, h) :: r.simId == es[j].simId && r.runId == es[j].engineRun)
    && ((forall j: nat :: !LastEngineAt(es, j, h)) ==>
          && (exists j: nat :: FirstDirectAt(es, j, h) && r.simId == es[j].simId)
          && (r.state == Done ==> exists j: nat :: FirstCompletedAt(es, j, h) && r.runId == CompletingRun(es[j])))
  }

  ghost predicate KeyTells(es: seq<Event>, rs: Registry, h: Hash) {
    match Get(rs, h)
    case None => forall e | e in es && !e.Ready? :: e.hash != h
    case Some(r) => Tells(es, h, r)
  }

  /** What one more event makes of the last and the first. */
  lemma TellsSnoc(es: seq<Event>, e: Event, h: Hash)
    ensures var fs := es + [e];
      && (forall j: nat :: LastEngineAt(fs, j, h) <==>
           if e.EngineDone? && e.hash == h then j == |es| else LastEngineAt(es, j, h))
      && (forall j: nat | j < |es| :: FirstDirectAt(fs, j, h) <==> FirstDirectAt(es, j, h))
      && (forall j: nat | j < |es| :: FirstCompletedAt(fs, j, h) <==> FirstCompletedAt(es, j, h))
      && (!Completed(es, h) && CompletesAt(fs, |es|, h) ==> FirstCompletedAt(fs, |es|, h))
  {
    var fs := es + [e];
    assert forall j | 0 <= j < |es| :: fs[j] == es[j];
    forall j: nat | j < |es| ensures CompletesAt(fs, j, h) == CompletesAt(es, j, h) {
      assert fs[..j] == es[..j];
    }
    forall j: nat ensures LastEngineAt(fs, j, h) <==>
      if e.EngineDone? && e.hash == h then j == |es| else LastEngineAt(es, j, h)
    {
      assert fs[|es|] == e;
    }
  }

  /** An event that leaves the key's record alone leaves what it tells true. */
  lemma TellsStays(es: seq<Event>, e: Event, h: Hash, r: Record)
    requires Tells(es, h, r) && !(e.EngineDone? && e.hash == h)
    ensures Tells(es + [e], h, r)
  {
    TellsSnoc(es, e, h);
    var fs := es + [e];
    if forall j: nat :: !LastEngineAt(fs, j, h) {
      assert forall j: nat :: LastEngineAt(fs, j, h) <==> LastEngineAt(es, j, h);
      var j: nat :| FirstDirectAt(es, j, h) && r.simId == es[j].simId;
      assert FirstDirectAt(fs, j, h) && fs[j] == es[j];
      if r.state == Done {
        var k: nat :| FirstCompletedAt(es, k, h) && r.runId == CompletingRun(es[k]);
        assert FirstCompletedAt(fs, k, h) && fs[k] == es[k];
      }
    }
  }

  /** The event that completes a pending key, told by its record. */
  lemma TellsCompletion(es: seq<Event>, e: Event, h: Hash, before: Record, after: Record)
    requires Tells(es, h, before) && !Completed(es, h) && CompletesAt(es + [e], |es|, h) && !e.EngineDone?
    requires after.hash == h && after.simId == before.simId && after.runId == CompletingRun(e) && after.pending == []
    ensures Tells(es + [e], h, after)
  {
    var fs := es + [e];
    TellsSnoc(es, e, h);
    forall j: nat ensures !LastEngineAt(es, j, h) {
      if LastEngineAt(es, j, h) { assert CompletesAt(es, j, h); }
    }
    var j: nat :| FirstDirectAt(es, j, h) && before.simId == es[j].simId;
    assert FirstDirectAt(fs, j, h) && fs[j] == es[j];
    assert FirstCompletedAt(fs, |es|, h) && fs[|es|] == e;
  }

  lemma FirstSubmissionTells(es: seq<Event>, e: Event, h: Hash)
    requires e.Direct? && e.hash == h && forall x | x in es && !x.Ready? :: x.hash != h
    ensures Tells(es + [e], h, Record(h, e.simId, if e.ready then Done else Pending, Some(e.run), []))
  {
    var fs := es + [e];
    TellsSnoc(es, e, h);
    CompletedSnoc(es, e, h);
    assert fs[|es|] == e && forall j | 0 <= j < |es| :: fs[j] == es[j] && es[j] in es;
    assert FirstDirectAt(fs, |es|, h);
    forall j: nat | j < |es| ensures !CompletesAt(es, j, h) {
      assert es[j] in es;
    }
    assert !Completed(es, h);
  }

  lemma DirectTells(es: seq<Event>, rs: Registry, e: Event, h: Hash)
    requires Keyed(rs) && e.Direct? && KeyMatches(es, rs, h) && KeyTells(es, rs, h)
    ensures KeyTells(es + [e], Step(rs, e), h)
  {
    DirectGets(rs, e, h);
    CompletedSnoc(es, e, h);
    match Get(rs, h)
    case None =>
      if h == e.hash { FirstSubmissionTells(es, e, h); }
    case Some(r) =>
      if h == e.hash && r.state == Pending && e.ready {
        TellsCompletion(es, e, h, r, DirectWritten(Some(r), DirectRecord(rs, e)));
      } else if h == e.hash && r.state == Pending {
        var w := DirectWritten(Some(r), DirectRecord(rs, e));
        assert Tells(es, h, w);
        TellsStays(es, e, h, w);
      } else {
        TellsStays(es, e, h, r);
      }
  }

  lemma ReadyTells(es: seq<Event>, rs: Registry, run: RunId, owner: RunId -> Hash, h: Hash)
    requires Keyed(rs) && RunsOwned(rs, owner) && RunsUnique(es, owner) && KeyMatches(es, rs, h) && KeyTells(es, rs, h)
    ensures KeyTells(es + [Ready(run)], Promote(rs, run), h)
  {
    CompletedSnoc(es, Ready(run), h);
    GetAfterPromote(rs, run, owner, h);
    match Get(rs, h)
    case None =>
    case Some(r) =>
      if run != "" && r.Awaits(run) { TellsCompletion(es, Ready(run), h, r, Promoted(r, run)); }
      else { TellsStays(es, Ready(run), h, r); }
  }

  lemma EngineTells(es: seq<Event>, rs: Registry, e: Event, h: Hash)
    requires Keyed(rs) && e.EngineDone? && KeyTells(es, rs, h)
    ensures KeyTells(es + [e], Step(rs, e), h)
  {
    GetAfterRemember(rs, Record(e.hash, e.simId, Done, e.engineRun, []), h);
    TellsSnoc(es, e, h);
    if e.hash != h && Get(rs, h).Some? { TellsStays(es, e, h, Get(rs, h).value); }
    if e.hash == h { assert LastEngineAt(es + [e], |es|, h); }
  }

  lemma {:induction false} ReplayTells(es: seq<Event>, owner: RunId -> Hash, h: Hash)
    requires RunsUnique(es, owner)
    ensures KeyTells(es, Replay(es), h)
    decreases |es|
  {
    if es != [] {
      var init, e := es[..|es| - 1], es[|es| - 1];
      ReplayMatches(init, owner);
      ReplayTells(init, owner, h);
      assert init + [e] == es && e in es && KeyMatches(init, Replay(init), h);
      match e
      case Direct(_, _, _, _) => DirectTells(init, Replay(init), e, h);
      case Ready(run) => ReadyTells(init, Replay(init), run, owner, h);
      case EngineDone(_, _, _) => EngineTells(init, Replay(init), e, h);
    }
  }

  /** Over any history, what lookup finds names the simulation and the run that produced the result: the engine's last
      for the key if it finished the key, else the simulation of the first direct submission and the first of its runs
      to complete. */
  lemma LookupTells(es: seq<Event>, owner: RunId -> Hash, h: Hash)
    requires RunsUnique(es, owner) && Lookup(Replay(es), h).Some?
    ensures Tells(es, h, Lookup(Replay(es), h).value)
  {
    ReplayTells(es, owner, h);
  }

  /** Once a key is done no later event takes it back, and nothing but a newer result of the engine alters its
      record. */
  lemma NeverDemoted(es: seq<Event>, e: Event, owner: RunId -> Hash, h: Hash)
    requires RunsUnique(es + [e], owner) && Lookup(Replay(es), h).Some?
    ensures Lookup(Replay(es + [e]), h).Some?
    ensures !(e.EngineDone? && e.hash == h) ==> Lookup(Replay(es + [e]), h) == Lookup(Replay(es), h)
  {
    var fs := es + [e];
    assert fs[..|es|] == es && fs[|es|] == e && e in fs;
    assert RunsUnique(es, owner) by { assert forall x :: x in es ==> x in fs; }
    ReplayMatches(es, owner);
    var rs := Replay(es);
    match e
    case Direct(_, _, _, _) =>
      DirectGets(rs, e, h);
    case Ready(run) => GetAfterPromote(rs, run, owner, h);
    case EngineDone(hash, simId, run) => GetAfterRemember(rs, Record(hash, simId, Done, run, []), h);
  }

  /** Any run accepted for a key that is still pending can promote it, and is then the run the record names. */
  lemma AnyAcceptedRunPromotes(es: seq<Event>, owner: RunId -> Hash, h: Hash, run: RunId)
    requires RunsUnique(es, owner) && Accepted(es, h, run) && !Completed(es, h)
    ensures Lookup(Replay(es + [Ready(run)]), h).Some? && Lookup(Replay(es + [Ready(run)]), h).value.runId == Some(run)
  {
    var fs := es + [Ready(run)];
    assert fs[..|es|] == es;
    ReplayMatches(es, owner);
    assert KeyMatches(es, Replay(es), h);
    GetAfterPromote(Replay(es), run, owner, h);
  }

  // ---------------------------------------------------------------------------
  // The in-memory index

  /** Every run that could promote some pending record is in the index. */
  ghost predicate Covers(index: set<RunId>, rs: Registry) {
    forall i, run :: 0 <= i < |rs| && rs[i].Awaits(run) && run != "" ==> run in index
  }

  /** The service's registry file and its in-memory set of pending run ids. */
  class AgendaService {
    var stored: Registry
    var index: set<RunId>
    ghost const owner: RunId -> Hash

    ghost predicate Valid()
      reads this
    {
      Keyed(stored) && RunsOwned(stored, owner) && Covers(index, stored)
    }

    /** Hydration: a restart rebuilds the index from the file. */
    constructor (stored: Registry, ghost owner: RunId -> Hash)
      requires Keyed(stored) && RunsOwned(stored, owner)
      ensures Valid() && this.stored == stored && this.owner == owner
    {
      this.stored, this.owner, this.index := stored, owner, {};
      new;
      var ids: set<RunId> := {};
      for i := 0 to |stored|
        invariant Covers(ids, stored[..i])
      {
        if stored[i].state == Pending {
          if stored[i].runId.Some? && stored[i].runId.value != "" { ids := ids + {stored[i].runId.value}; }
          ids := ids + set id | id in stored[i].pending;
        }
        assert forall k :: 0 <= k < i ==> stored[..i + 1][k] == stored[..i][k];
      }
      assert stored[..|stored|] == stored;
      index := ids;
    }

    /** `_remember_direct`. */
    method RememberDirect(e: Event)
      requires Valid() && e.Direct? && e.run != "" && owner(e.run) == e.hash
      modifies this
      ensures Valid() && stored == Step(old(stored), e)
    {
      var r := DirectRecord(stored, e);
      ghost var before := stored;
      StepDirectAwaits(before, e, owner);
      stored := RecordDirectLoop(stored, r);
      var merged := Get(stored, r.hash).GetOr(r);
      index := if merged.state == Pending then index + {e.run} else index - {e.run};
    }

    /** `promote_reuse`: a run outside the index needs no scan. */
    method PromoteReuse(run: RunId)
      requires Valid()
      modifies this
      ensures Valid() && stored == Promote(old(stored), run)
    {
      ghost var before := stored;
      PromoteAwaits(before, run, owner);
      if run !in index { return; }
      var promoted := PromoteScan(stored, run);
      if promoted != stored {
        stored := promoted;
        index := index - {run};
      }
    }

    /** The engine's own record of a finished leaf. */
    method EngineRecord(e: Event)
      requires Valid() && e.EngineDone?
      modifies this
      ensures Valid() && stored == Step(old(stored), e)
    {
      ghost var r := Record(e.hash, e.simId, Done, e.engineRun, []);
      stored := Remember(stored, Record(e.hash, e.simId, Done, e.engineRun, []));
    }

    /** `delete_campaign` removes the registry file and leaves the index alone. */
    method DeleteRegistry()
      requires Valid()
      modifies this
      ensures Valid() && stored == []
    {
      stored := [];
    }
  }

  /** What recording a direct submission may make the registry await: the run itself, and what it awaited before. */
  ghost predicate AwaitsOnly(out: Registry, rs: Registry, run: RunId) {
    forall i, id :: 0 <= i < |out| && out[i].Awaits(id) ==> id == run || exists j :: 0 <= j < |rs| && rs[j].Awaits(id)
  }

  lemma RememberAwaits(rs: Registry, r: Record, run: RunId, owner: RunId -> Hash)
    requires Keyed(rs) && RunsOwned(rs, owner) && owner(run) == r.hash
    requires forall id :: r.Awaits(id) ==> id == run || (Get(rs, r.hash).Some? && Get(rs, r.hash).value.Awaits(id))
    ensures var out := Remember(rs, r); Keyed(out) && RunsOwned(out, owner) && AwaitsOnly(out, rs, run)
    ensures r.state == Done ==> forall i :: 0 <= i < |Remember(rs, r)| ==> !Remember(rs, r)[i].Awaits(run)
  {
    var out := Remember(rs, r);
    forall i, id | 0 <= i < |out| && out[i].Awaits(id)
      ensures owner(id) == out[i].hash && (id == run || exists j :: 0 <= j < |rs| && rs[j].Awaits(id))
    {
      if out[i] == r {
        if id != run { assert rs[Find(rs, r.hash).value].Awaits(id); }
      } else {
        assert rs[i].Awaits(id);
      }
    }
    if r.state == Done {
      forall i | 0 <= i < |out| ensures !out[i].Awaits(run) { }
    }
  }

  lemma StepDirectAwaits(rs: Registry, e: Event, owner: RunId -> Hash)
    requires Keyed(rs) && RunsOwned(rs, owner) && e.Direct? && e.run != "" && owner(e.run) == e.hash
    ensures var out := Step(rs, e);
      && Keyed(out) && RunsOwned(out, owner) && AwaitsOnly(out, rs, e.run)
      && Get(out, e.hash).Some?
        && (Get(out, e.hash).value.state == Done ==> forall i :: 0 <= i < |out| ==> !out[i].Awaits(e.run))
  {
    var r := DirectRecord(rs, e);
    var o := Get(rs, e.hash);
    if o.Some? && o.value.state == Done {
      forall i | 0 <= i < |rs| && rs[i].Awaits(e.run) ensures false { KeyedGet(rs, i); }
    } else {
      GetAfterRemember(rs, DirectWritten(o, r), e.hash);
      RememberAwaits(rs, DirectWritten(o, r), e.run, owner);
    }
  }

  lemma PromoteAwaits(rs: Registry, run: RunId, owner: RunId -> Hash)
    requires Keyed(rs) && RunsOwned(rs, owner)
    ensures var out := Promote(rs, run);
      && Keyed(out) && RunsOwned(out, owner)
      && (forall i, id :: 0 <= i < |out| && out[i].Awaits(id) ==> rs[i].Awaits(id))
      && (run != "" ==> forall i :: 0 <= i < |out| ==> !out[i].Awaits(run))
  {
    GetAfterPromote(rs, run, owner, "");
    if run != "" {
      forall i | 0 <= i < |rs| ensures !Promote(rs, run)[i].Awaits(run) {
        GetAfterPromote(rs, run, owner, rs[i].hash);
        KeyedGet(rs, i);
        KeyedGet(Promote(rs, run), i);
      }
    }
  }

}

/** The agent's operations on the persisted campaign: each loads it, changes it and saves it once, under one lock. */
module CampaignService {
  import opened Prelude
  import opened Agenda
  import opened Campaign
  import opened Engine
  import opened Runs

  lemma {:induction false} WalkByEntry(k: Kids, off: nat, path: Path)
    requires path != []
    ensures Walk(k, off, path) ==
      match EntryNamed(k, off, path[0])
      case None => None
      case Some(LeafEntry(i)) => if |path| == 1 then Some(i) else None
      case Some(GroupEntry(kids, koff)) => if |path| == 1 then None else Walk(kids, koff, path[1..])
  {
    match k
    case End =>
    case Sim(n, rest) =>
      if n != path[0] { WalkByEntry(rest, off + 1, path); }
    case Group(n, kids, rest) =>
      if n != path[0] { WalkByEntry(rest, off + Count(kids), path); }
  }

  /** `leaf_at`: a cursor descends one group per path segment; the last segment must name a simulation. */
  method FindLeaf(root: Kids, text: string) returns (leaf: Option<nat>)
    ensures leaf == LeafAt(root, text)
  {
    var parts := Split(text);
    var node, off := root, 0;
    for i := 0 to |parts| - 1
      invariant Walk(node, off, parts[i..]) == LeafAt(root, text)
    {
      WalkByEntry(node, off, parts[i..]);
      assert parts[i..][1..] == parts[i + 1..];
      match EntryNamed(node, off, parts[i]) {
        case Some(GroupEntry(kids, koff)) => node, off := kids, koff;
        case _ => return None;
      }
    }
    WalkByEntry(node, off, parts[|parts| - 1..]);
    match EntryNamed(node, off, parts[|parts| - 1]) {
      case Some(LeafEntry(i)) => return Some(i);
      case _ => return None;
    }
  }

  datatype Answer = Ok | NoSuchLeaf | DuplicateLeaf | InvalidSpec | InvalidLeaf

  class CampaignService {
    var disk: Campaign
    ghost var drained: seq<Callback>

    constructor (disk: Campaign)
      ensures this.disk == disk && drained == []
    {
      this.disk, drained := disk, [];
    }

    /** What is durable, beside a cluster that no agent operation touches. */
    ghost function Stored(jobs: map<CmdId, SimId>, launched: seq<CmdId>): Durable
      reads this
    {
      Durable(disk, jobs, launched, drained)
    }

    method Approve(text: string) returns (a: Answer)
      requires disk.Valid()
      modifies this
      ensures forall jobs, launched ::
        Stored(jobs, launched) == Happen(old(Stored(jobs, launched)), Event.Approve(text))
      ensures a == if LeafAt(disk.tree, text).Some? then Ok else NoSuchLeaf
    {
      var leaf := FindLeaf(disk.tree, text);
      if leaf.None? { return NoSuchLeaf; }
      WalkStaysInside(disk.tree, 0, Split(text));
      disk := disk.(leaves := disk.leaves[leaf.value := disk.leaves[leaf.value].(approved := true)]);
      return Ok;
    }

    /** The name collision is reported before anything else is checked; nothing is saved on any error. */
    method AddLeaf(name: Name, spec: Spec, point: Option<string>, dependsOn: seq<Name>, specAccepted: bool,
        pointFinite: bool) returns (a: Answer)
      requires disk.Valid()
      modifies this
      ensures forall jobs, launched ::
        Stored(jobs, launched)
          == Happen(old(Stored(jobs, launched)), Event.AddLeaf(name, spec, point, dependsOn, specAccepted, pointFinite))
      ensures a != Ok ==> disk == old(disk)
      ensures a == DuplicateLeaf <==> name in Names(old(disk).tree)
      ensures a == Ok <==> |disk.leaves| == |old(disk).leaves| + 1
    {
      if name in Names(disk.tree) { return DuplicateLeaf; }
      if !specAccepted { return InvalidSpec; }
      if !LegalName(name) || !LegalDependencies(dependsOn) || name == SELF || !pointFinite { return InvalidLeaf; }
      var leaf := FreshLeaf(Work(spec, point, dependsOn, false));
      disk := disk.(tree := Append(disk.tree, name), leaves := disk.leaves + [leaf]);
      return Ok;
    }

    /** `set_state`, and the first, durable half of `stop`. */
    method SetState(state: Lifecycle)
      requires disk.Valid()
      modifies this
      ensures forall jobs, launched ::
        Stored(jobs, launched) == Happen(old(Stored(jobs, launched)), Event.SetState(state))
    {
      disk := disk.(state := state);
    }

    /** The drained callbacks are cleared durably; with none pending nothing is saved. */
    method TakeCallbacks() returns (taken: seq<Callback>)
      requires disk.Valid()
      modifies this
      ensures taken == old(disk).callbacks && disk.callbacks == []
      ensures forall jobs, launched ::
        Stored(jobs, launched) == Happen(old(Stored(jobs, launched)), Event.TakeCallbacks)
    {
      taken := disk.callbacks;
      if taken != [] { disk := disk.(callbacks := []); }
      drained := drained + taken;
    }
  }
}

/** A leaf whose acknowledgements are lost, over whole runs: only time bounds its retries. */
module Retries {
  import opened Prelude
  import opened Agenda
  import opened Campaign
  import opened Engine
  import opened EngineDeferral
  import opened EngineGating
  import opened Runs

  /** The event loses leaf `i`'s acknowledgement. */
  ghost predicate LosesIn(d: Durable, e: Event, i: nat)
    requires d.disk.Valid()
  {
    e.TickEvent? && LosesAck(d, e.env, e.cfg, i)
  }

  /** The event is an agent's, or a tick that loses leaf `i`'s acknowledgement under the timeout or leaves the leaf
      alone. */
  ghost predicate Tries(d: Durable, e: Event, i: nat, timeout: int)
    requires d.disk.Valid()
  {
    && (LosesIn(d, e, i) ==> e.cfg.policy.deferredTimeout == timeout)
    && (e.TickEvent? && !LosesIn(d, e, i) ==> Holds(d, e.env, e.cfg, i))
  }

  ghost predicate TriesThroughout(d: Durable, es: seq<Event>, i: nat, timeout: int)
    requires d.disk.Valid()
  {
    forall k: nat | k < |es| :: Tries(State(d, es, k), es[k], i, timeout)
  }

  function LossOf(e: Event, i: nat): Loss
    requires e.TickEvent?
  {
    Loss(e.env.now, FateOf(e.env, i).reply)
  }

  /** What the event loses, if it does. */
  ghost function LossIn(d: Durable, e: Event, i: nat): (r: seq<Loss>)
    requires d.disk.Valid()
    ensures AllUnknown(r)
  {
    if LosesIn(d, e, i) then [LossOf(e, i)] else []
  }

  /** The losses among the first `k` events, in order. */
  ghost function LossesIn(d: Durable, es: seq<Event>, i: nat, k: nat): (r: seq<Loss>)
    requires d.disk.Valid() && k <= |es|
    ensures AllUnknown(r)
  {
    if k == 0 then []
    else LossesIn(d, es, i, k - 1) + LossIn(State(d, es, k - 1), es[k - 1], i)
  }

  /** `m` is `l` but for its approval. */
  predicate SameButApproval(l: Leaf, m: Leaf) {
    m == l.(approved := m.approved)
  }

  /** What one event does to the record of leaf `i`. */
  ghost predicate Moved(path: Path, l: Leaf, losses: seq<Loss>, timeout: int, m: Leaf) {
    && (losses == [] ==> SameButApproval(l, m))
    && (losses != [] ==>
      && |losses| == 1 && l.status.Planned? && losses[0].reply.Unknown?
      && m == Defer(path, l, losses[0].reply, losses[0].now, timeout, NO_USAGE).leaf)
  }

  lemma {:induction false} EditMoves(d: Durable, e: Event, i: nat, f: Durable)
    requires d.disk.Valid() && i < |d.disk.leaves| && !e.TickEvent? && f == Happen(d, e)
    ensures i < |f.disk.leaves| && SameButApproval(d.disk.leaves[i], f.disk.leaves[i])
  {
    if e.AddLeaf? { AddedGrows(d.disk, e); }
  }

  lemma {:induction false} HappenMoves(d: Durable, e: Event, i: nat, timeout: int, f: Durable)
    requires d.disk.Valid() && i < |d.disk.leaves| && Tries(d, e, i, timeout) && f == Happen(d, e)
    ensures i < |f.disk.leaves|
    ensures Moved(d.disk.Path(i), d.disk.leaves[i], LossIn(d, e, i), timeout, f.disk.leaves[i])
  {
    if !e.TickEvent? {
      EditMoves(d, e, i, f);
    } else if LosesIn(d, e, i) {
      LostTickDefers(d, e.env, e.cfg, i);
      SubmittedWasPlanned(d.disk, e.env, e.cfg, i);
    } else {
      HeldTickKeeps(d, e.env, e.cfg, i);
    }
  }

  /** Deferral does not look at approval. */
  lemma {:induction false} DeferredMoves(path: Path, l: Leaf, losses: seq<Loss>, timeout: int, m: Leaf,
      more: seq<Loss>, n: Leaf)
    requires AllUnknown(losses) && AllUnknown(losses + more)
    requires SameButApproval(Deferred(path, l, losses, timeout, NO_USAGE), m) && Moved(path, m, more, timeout, n)
    ensures SameButApproval(Deferred(path, l, losses + more, timeout, NO_USAGE), n)
  {
    if more == [] {
      assert losses + more == losses;
    } else {
      var all := losses + more;
      assert all[..|all| - 1] == losses && all[|all| - 1] == more[0];
    }
  }

  /** Leaf `i` is still at its path, and its record is `l` after the losses, but for its approval. */
  ghost predicate DeferredIn(c: Campaign, i: nat, path: Path, l: Leaf, losses: seq<Loss>, timeout: int) {
    && c.Valid() && i < |c.leaves| && c.Path(i) == path && AllUnknown(losses)
    && SameButApproval(Deferred(path, l, losses, timeout, NO_USAGE), c.leaves[i])
  }

  lemma {:induction false} DeferredNext(d: Durable, e: Event, i: nat, path: Path, l: Leaf, losses: seq<Loss>,
      timeout: int, f: Durable)
    requires DeferredIn(d.disk, i, path, l, losses, timeout) && Tries(d, e, i, timeout) && f == Happen(d, e)
    ensures DeferredIn(f.disk, i, path, l, losses + LossIn(d, e, i), timeout)
  {
    HappenExtends(d, e);
    HappenMoves(d, e, i, timeout, f);
    DeferredMoves(path, l, losses, timeout, d.disk.leaves[i], LossIn(d, e, i), f.disk.leaves[i]);
  }

  lemma {:induction false} DeferredThroughout(d: Durable, es: seq<Event>, i: nat, path: Path, l: Leaf, timeout: int,
      k: nat)
    requires DeferredIn(d.disk, i, path, l, [], timeout) && TriesThroughout(d, es, i, timeout) && k <= |es|
    ensures DeferredIn(State(d, es, k).disk, i, path, l, LossesIn(d, es, i, k), timeout)
  {
    if k == 0 {
      assert es[..0] == [];
    } else {
      DeferredThroughout(d, es, i, path, l, timeout, k - 1);
      StateNext(d, es, k - 1);
      DeferredNext(State(d, es, k - 1), es[k - 1], i, path, l, LossesIn(d, es, i, k - 1), timeout, State(d, es, k));
    }
  }

  /** Over every run in which each tick loses a leaf's acknowledgement or leaves the leaf alone, whatever the agent does
      in between and wherever ticks crash: the leaf is still planned exactly while every loss fell inside the window
      opened by the first, and has failed otherwise.  It is retried under one command id throughout, and reserves
      nothing. */
  lemma {:induction false} RetriesAreBoundedByTime(d: Durable, es: seq<Event>, i: nat, timeout: int)
    requires d.disk.Valid() && i < |d.disk.leaves| && TriesThroughout(d, es, i, timeout)
    requires d.disk.leaves[i].status.Planned? && d.disk.leaves[i].deferral == NOT_DEFERRED
    ensures var losses, f := LossesIn(d, es, i, |es|), After(d, es).disk;
      i < |f.leaves| &&
      var l, m := d.disk.leaves[i], f.leaves[i];
      && (m.status.Planned? <==> AllInside(losses, timeout)) && (m.status.Planned? || m.status.Failed?)
      && (m.status.Planned? ==>
        m.deferral == if losses == [] then NOT_DEFERRED else Deferral(|losses|, Some(losses[0].now)))
      && m.cost == l.cost && m.runId == l.runId && f.Key(i) == d.disk.Key(i)
  {
    DeferredThroughout(d, es, i, d.disk.Path(i), d.disk.leaves[i], timeout, |es|);
    DeferralIsBoundedByTime(d.disk.Path(i), d.disk.leaves[i], LossesIn(d, es, i, |es|), timeout, NO_USAGE);
    WorkIsFixed(d, es);
    assert es[..|es|] == es;
  }
}

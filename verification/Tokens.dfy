/** The rotating refresh-token chain: any number of processes share one cache file and one file lock.

    A refresh grant consumes the token it is given and returns the next one (section 6 of RFC 6749); a consumed token is
    answered with `invalid_grant` (section 5.2).  The machine below interleaves the processes' reads, lock operations,
    posts, answers, writes and crashes in every possible way. */
module Tokens {
  import opened Prelude

  const DEFAULT_EXPIRES := 300.0

  /** `expires` is an absolute time. */
  datatype Pair = Pair(access: string, refresh: string, expires: real)

  /** Usable for more than `skew` seconds after `now`. */
  predicate Usable(t: Pair, now: real, skew: real) {
    now + skew < t.expires
  }

  /** The token endpoint's success body. */
  datatype Body = Body(access: string, refresh: Option<string>, expiresIn: Option<real>)

  /** `_tokens_from_response`: an absent or empty refresh token means the server did not rotate. */
  function FromResponse(body: Body, fallback: string, now: real): Pair {
    Pair(body.access,
         if body.refresh.Some? && body.refresh.value != "" then body.refresh.value else fallback,
         now + body.expiresIn.GetOr(DEFAULT_EXPIRES))
  }

  // ---------------------------------------------------------------------------
  // The machine

  /** Where a process stands in `access_token` and `_refresh_locked`. */
  datatype Pc =
    | Idle
    | Waiting(stale: Option<Pair>)
    | Holding(stale: Option<Pair>)
    | Posted(token: string)
    | Granted(pair: Pair)
  {
    predicate Critical() { Holding? || Posted? || Granted? }
  }

  datatype Proc = Proc(mem: Option<Pair>, seed: Option<Pair>, pc: Pc)

  /** One post of a refresh token: what the server held live then, and whether an existing cache could not be read. */
  datatype Post = Post(token: string, live: string, blind: bool)

  datatype World = World(
    procs: seq<Proc>,
    cache: Option<Pair>,
    lock: Option<nat>,
    live: string,
    issued: set<string>,
    now: real,
    skew: real,
    posts: seq<Post>,
    grants: nat)

  datatype Step =
    | Begin(p: nat, readable: bool)
    | Acquire(p: nat)
    | Decide(p: nat, readable: bool)
    | Answer(p: nat, body: Body)
    | Fault(p: nat)
    | Write(p: nat)
    | Crash(p: nat)
    | LoseReply(p: nat, body: Body)
    | Wait(dt: real)

  function Read(w: World, readable: bool): Option<Pair> {
    if readable then w.cache else None
  }

  function Goto(w: World, p: nat, q: Proc): World
    requires p < |w.procs|
  {
    w.(procs := w.procs[p := q])
  }

  function Release(w: World, p: nat, q: Proc): World
    requires p < |w.procs|
  {
    Goto(w, p, q).(lock := None)
  }

  /** The pair whose refresh token a process holding the lock posts. */
  function Link(w: World, p: nat, readable: bool): Option<Pair>
    requires p < |w.procs| && w.procs[p].pc.Holding?
  {
    Read(w, readable).Or(w.procs[p].pc.stale).Or(w.procs[p].mem).Or(w.procs[p].seed)
  }

  /** The server answers a live token with a fresh one or none. */
  predicate Honest(w: World, body: Body) {
    body.refresh.Some? && body.refresh.value != "" ==> body.refresh.value !in w.issued
  }

  /** The server's side of a grant for the live token. */
  function Rotate(w: World, body: Body): World {
    if body.refresh.Some? && body.refresh.value != ""
    then w.(live := body.refresh.value, issued := w.issued + {body.refresh.value}, grants := w.grants + 1)
    else w.(grants := w.grants + 1)
  }

  /** A disabled step does nothing. */
  function Do(w: World, s: Step): World {
    if s.Wait? then (if s.dt > 0.0 then w.(now := w.now + s.dt) else w)
    else if s.p >= |w.procs| then w
    else
      var q := w.procs[s.p];
      match s
      case Begin(p, readable) =>
        if !q.pc.Idle? then w
        else
          var tokens := Read(w, readable).Or(q.mem).Or(q.seed);
          if tokens.Some? && Usable(tokens.value, w.now, w.skew) then Goto(w, p, q.(mem := tokens))
          else Goto(w, p, q.(pc := Waiting(tokens)))
      case Acquire(p) =>
        if q.pc.Waiting? && w.lock.None? then Goto(w, p, q.(pc := Holding(q.pc.stale))).(lock := Some(p)) else w
      case Decide(p, readable) =>
        if !q.pc.Holding? then w
        else
          var current := Read(w, readable);
          if current.Some? && Usable(current.value, w.now, w.skew) then Release(w, p, q.(mem := current, pc := Idle))
          else
            var link := Link(w, p, readable);
            if link.None? || link.value.refresh == "" then Release(w, p, q.(pc := Idle))
            else Goto(w, p, q.(pc := Posted(link.value.refresh)))
                 .(posts := w.posts + [Post(link.value.refresh, w.live, !readable && w.cache.Some?)])
      case Answer(p, body) =>
        if !q.pc.Posted? || !Honest(w, body) then w
        else if q.pc.token != w.live then Release(w, p, q.(pc := Idle))
        else Goto(Rotate(w, body), p, q.(pc := Granted(FromResponse(body, q.pc.token, w.now))))
      case Fault(p) => if q.pc.Posted? then Release(w, p, q.(pc := Idle)) else w
      case Write(p) =>
        if q.pc.Granted? then Release(w, p, q.(mem := Some(q.pc.pair), pc := Idle)).(cache := Some(q.pc.pair)) else w
      case Crash(p) =>
        if q.pc.Critical() then Release(w, p, Proc(None, q.seed, Idle)) else Goto(w, p, Proc(None, q.seed, Idle))
      case LoseReply(p, body) =>
        if q.pc.Posted? && Honest(w, body) && q.pc.token == w.live
        then Release(Rotate(w, body), p, q.(pc := Idle)) else w
  }

  /** Only waiting takes time, and time does not go back. */
  lemma TimePasses(w: World, s: Step)
    ensures Do(w, s).now == w.now + if s.Wait? && s.dt > 0.0 then s.dt else 0.0
  {
  }

  function Run(w: World, steps: seq<Step>): World
    decreases |steps|
  {
    if steps == [] then w else Do(Run(w, steps[..|steps| - 1]), steps[|steps| - 1])
  }

  // ---------------------------------------------------------------------------
  // Safety

  /** Every token the process could post is one the server issued; while no cache was ever written it is the live
      one. */
  ghost predicate HoldsOnly(t: Option<Pair>, ok: set<string>) {
    t.Some? ==> t.value.refresh in ok
  }

  ghost predicate ProcHolds(q: Proc, ok: set<string>) {
    && HoldsOnly(q.mem, ok) && HoldsOnly(q.seed, ok)
    && (q.pc.Waiting? ==> HoldsOnly(q.pc.stale, ok))
    && (q.pc.Holding? ==> HoldsOnly(q.pc.stale, ok))
    && (q.pc.Posted? ==> q.pc.token in ok)
    && (q.pc.Granted? ==> q.pc.pair.refresh in ok)
  }

  /** The lock is held by the process in the critical section, and by no other. */
  ghost predicate Exclusive(w: World) {
    && (forall p: nat :: p < |w.procs| && w.procs[p].pc.Critical() ==> w.lock == Some(p))
    && (w.lock.Some? ==> w.lock.value < |w.procs| && w.procs[w.lock.value].pc.Critical())
  }

  predicate Writing(w: World) {
    w.lock.Some? && w.lock.value < |w.procs| && w.procs[w.lock.value].pc.Granted?
  }

  /** Every token anybody holds was issued by the server. */
  ghost predicate HeldIssued(w: World) {
    && w.live in w.issued && HoldsOnly(w.cache, w.issued)
    && forall p: nat :: p < |w.procs| ==> ProcHolds(w.procs[p], w.issued)
  }

  /** Unless a granted pair is about to be written, the cache holds the live token; before there is a cache every
      process holds nothing else. */
  ghost predicate HoldsLive(w: World) {
    if Writing(w) then w.procs[w.lock.value].pc.pair.refresh == w.live
    else
      && HoldsOnly(w.cache, {w.live})
      && (w.cache.None? ==> forall p: nat :: p < |w.procs| ==> ProcHolds(w.procs[p], {w.live}))
  }

  ghost predicate ChainIntact(w: World) {
    Exclusive(w) && HeldIssued(w) && HoldsLive(w)
  }

  /** The two ways to lose a grant: the reply never arrives, or its holder dies before the cache is written. */
  predicate LosesGrant(w: World, s: Step) {
    s.LoseReply? || (s.Crash? && s.p < |w.procs| && w.procs[s.p].pc.Granted?)
  }

  ghost predicate KeepsGrants(w: World, steps: seq<Step>)
    decreases |steps|
  {
    steps == [] || (KeepsGrants(w, steps[..|steps| - 1])
      && !LosesGrant(Run(w, steps[..|steps| - 1]), steps[|steps| - 1]))
  }

  lemma StepExclusive(w: World, s: Step)
    requires Exclusive(w)
    ensures Exclusive(Do(w, s))
  {
  }

  lemma StepHeldIssued(w: World, s: Step)
    requires HeldIssued(w)
    ensures HeldIssued(Do(w, s))
  {
    StepGlobals(w, s);
    forall p: nat | p < |w.procs| ensures ProcHolds(Do(w, s).procs[p], Do(w, s).issued) { StepProcHolds(w, s, p); }
  }

  lemma StepGlobals(w: World, s: Step)
    requires HeldIssued(w)
    ensures var v := Do(w, s);
      |v.procs| == |w.procs| && v.live in v.issued && w.issued <= v.issued && HoldsOnly(v.cache, v.issued)
  {
  }

  lemma StepProcHolds(w: World, s: Step, p: nat)
    requires HeldIssued(w) && p < |w.procs|
    ensures p < |Do(w, s).procs| && ProcHolds(Do(w, s).procs[p], Do(w, s).issued)
  {
    assert ProcHolds(w.procs[p], w.issued);
    if s.Wait? || s.p != p { StepOthers(w, s, p); } else { OwnStepHolds(w, s, w.procs[p]); }
  }

  lemma OwnStepHolds(w: World, s: Step, q: Proc)
    requires !s.Wait? && s.p < |w.procs|
    requires q == w.procs[s.p] && ProcHolds(q, w.issued) && HoldsOnly(w.cache, w.issued) && w.live in w.issued
    ensures s.p < |Do(w, s).procs| && ProcHolds(Do(w, s).procs[s.p], Do(w, s).issued)
  {
    match s
    case Decide(_, _) => OwnDecideHolds(w, s, q);
    case Answer(_, _) => OwnAnswerHolds(w, s, q);
    case _ =>
  }

  lemma OwnDecideHolds(w: World, s: Step, q: Proc)
    requires s.Decide? && s.p < |w.procs|
    requires q == w.procs[s.p] && ProcHolds(q, w.issued) && HoldsOnly(w.cache, w.issued) && w.live in w.issued
    ensures s.p < |Do(w, s).procs| && ProcHolds(Do(w, s).procs[s.p], Do(w, s).issued)
  {
  }

  lemma OwnAnswerHolds(w: World, s: Step, q: Proc)
    requires s.Answer? && s.p < |w.procs|
    requires q == w.procs[s.p] && ProcHolds(q, w.issued) && HoldsOnly(w.cache, w.issued) && w.live in w.issued
    ensures s.p < |Do(w, s).procs| && ProcHolds(Do(w, s).procs[s.p], Do(w, s).issued)
  {
  }

  lemma StepOthers(w: World, s: Step, p: nat)
    requires p < |w.procs| && (s.Wait? || s.p != p)
    ensures p < |Do(w, s).procs| && Do(w, s).procs[p] == w.procs[p] && w.issued <= Do(w, s).issued
  {
  }

  lemma StepHoldsLive(w: World, s: Step)
    requires Exclusive(w) && HoldsLive(w) && !LosesGrant(w, s)
    ensures HoldsLive(Do(w, s))
  {
    StepExclusive(w, s);
  }

  lemma StepKeepsChain(w: World, s: Step)
    requires ChainIntact(w) && !LosesGrant(w, s)
    ensures ChainIntact(Do(w, s))
  {
    StepExclusive(w, s);
    StepHeldIssued(w, s);
    StepHoldsLive(w, s);
  }

  /** A post is of a consumed token exactly when an existing cache could not be read and what the process falls back on
      is not what the cache holds. */
  lemma PostIsLiveExactly(w: World, p: nat, readable: bool)
    requires ChainIntact(w) && p < |w.procs| && w.procs[p].pc.Holding? && Link(w, p, readable).Some?
    ensures Link(w, p, readable).value.refresh != w.live <==>
      && !readable && w.cache.Some?
      && w.procs[p].pc.stale.Or(w.procs[p].mem).Or(w.procs[p].seed).value.refresh != w.cache.value.refresh
  {
    assert w.lock == Some(p);
  }

  ghost predicate PostsLive(w: World) {
    forall i :: 0 <= i < |w.posts| && !w.posts[i].blind ==> w.posts[i].token == w.posts[i].live
  }

  lemma StepPostsLive(w: World, s: Step)
    requires ChainIntact(w) && PostsLive(w)
    ensures PostsLive(Do(w, s))
  {
    if s.Decide? && s.p < |w.procs| && w.procs[s.p].pc.Holding? && Link(w, s.p, s.readable).Some? {
      PostIsLiveExactly(w, s.p, s.readable);
    }
  }

  /** A common start: no one is refreshing, nothing was posted, and the shared seed or cache is the live link. */
  ghost predicate Start(w: World) {
    && w.live in w.issued && w.lock.None? && w.posts == [] && w.grants == 0
    && HoldsOnly(w.cache, {w.live})
    && forall p: nat :: p < |w.procs| ==>
         && w.procs[p].pc.Idle? && w.procs[p].mem.None?
         && HoldsOnly(w.procs[p].seed, if w.cache.None? then {w.live} else w.issued)
  }

  /** For any number of processes and any interleaving in which no grant is lost: whoever can read the cache posts only
      the live token, and the cache holds the live token whenever the lock is free. */
  lemma {:induction false} NeverPostsConsumed(w: World, steps: seq<Step>)
    requires Start(w) && KeepsGrants(w, steps)
    ensures var v := Run(w, steps);
      && ChainIntact(v) && PostsLive(v)
      && (v.lock.None? && v.cache.Some? ==> v.cache.value.refresh == v.live)
    decreases |steps|
  {
    if steps != [] {
      var init := steps[..|steps| - 1];
      NeverPostsConsumed(w, init);
      StepKeepsChain(Run(w, init), steps[|steps| - 1]);
      StepPostsLive(Run(w, init), steps[|steps| - 1]);
    }
  }

  // ---------------------------------------------------------------------------
  // Two runs that go wrong

  function Pair0(): Pair {
    Pair("a0", "r0", 0.0)
  }

  /** Two processes with one expired seed, which is the live link; no cache yet, and a skew of 30 seconds. */
  function TwoProcesses(): World {
    var q := Proc(None, Some(Pair0()), Idle);
    World([q, q], None, None, "r0", {"r0"}, 0.0, 30.0, [], 0)
  }

  /** Process 0 refreshes from the seed and caches what the server returns. */
  function Refreshed(expiresIn: real): World {
    var pair := Pair("a1", "r1", expiresIn);
    TwoProcesses().(procs := [Proc(Some(pair), Some(Pair0()), Idle), Proc(None, Some(Pair0()), Idle)],
      cache := Some(pair), live := "r1", issued := {"r0", "r1"}, posts := [Post("r0", "r0", false)], grants := 1)
  }

  function FirstRefresh(expiresIn: real): seq<Step> {
    [Begin(0, true), Acquire(0), Decide(0, true), Answer(0, Body("a1", Some("r1"), Some(expiresIn))), Write(0)]
  }

  lemma RunMore(w: World, steps: seq<Step>, s: Step)
    ensures Run(w, steps + [s]) == Do(Run(w, steps), s)
  {
    assert (steps + [s])[..|steps|] == steps;
  }

  lemma RunFive(w: World, a: Step, b: Step, c: Step, d: Step, e: Step)
    ensures Run(w, [a, b, c, d, e]) == Do(Do(Do(Do(Do(w, a), b), c), d), e)
  {
    RunMore(w, [], a);
    RunMore(w, [a], b);
    RunMore(w, [a, b], c);
    RunMore(w, [a, b, c], d);
    RunMore(w, [a, b, c, d], e);
    assert [] + [a] == [a] && [a] + [b] == [a, b] && [a, b] + [c] == [a, b, c] && [a, b, c] + [d] == [a, b, c, d];
    assert [a, b, c, d] + [e] == [a, b, c, d, e];
  }

  lemma FirstPost()
    ensures var w := TwoProcesses();
      var v := Do(Do(Do(w, Begin(0, true)), Acquire(0)), Decide(0, true));
      v == w.(procs := [Proc(None, Some(Pair0()), Posted("r0")), w.procs[1]], lock := Some(0),
        posts := [Post("r0", "r0", false)])
  {
    var w := TwoProcesses();
    var v := Do(w, Begin(0, true));
    assert v == w.(procs := [Proc(None, Some(Pair0()), Waiting(Some(Pair0()))), w.procs[1]]);
    assert Do(v, Acquire(0))
        == w.(procs := [Proc(None, Some(Pair0()), Holding(Some(Pair0()))), w.procs[1]], lock := Some(0));
  }

  lemma FirstGrant(w: World, expiresIn: real)
    requires w == TwoProcesses().(procs := [Proc(None, Some(Pair0()), Posted("r0")), TwoProcesses().procs[1]],
      lock := Some(0), posts := [Post("r0", "r0", false)])
    ensures Do(Do(w, Answer(0, Body("a1", Some("r1"), Some(expiresIn)))), Write(0)) == Refreshed(expiresIn)
  {
    assert "r1" != "" && "r1"[1] != "r0"[1];
  }

  lemma RunFirstRefresh(expiresIn: real)
    ensures Run(TwoProcesses(), FirstRefresh(expiresIn)) == Refreshed(expiresIn)
  {
    var w := TwoProcesses();
    RunFive(w, Begin(0, true), Acquire(0), Decide(0, true), Answer(0, Body("a1", Some("r1"), Some(expiresIn))),
      Write(0));
    FirstPost();
    FirstGrant(Do(Do(Do(w, Begin(0, true)), Acquire(0)), Decide(0, true)), expiresIn);
  }

  /** From the common start, a grant that lasts 10 seconds leaves its holder a pair it may hand out though it is not
      good for the skew of 30 seconds. */
  lemma ShortGrantMissesSkew()
    ensures Start(TwoProcesses())
    ensures var v := Run(TwoProcesses(), FirstRefresh(10.0));
      |v.procs| == 2 && v.procs[0].pc.Idle? && v.procs[0].mem.Some? && !Usable(v.procs[0].mem.value, v.now, v.skew)
  {
    RunFirstRefresh(10.0);
  }

  /** Then process 1 cannot read the cache, falls back on the seed and posts the token process 0 has used up. */
  lemma UnreadableCachePostsConsumed()
    ensures Start(TwoProcesses())
    ensures var v := Run(TwoProcesses(), FirstRefresh(300.0) + [Begin(1, false)] + [Acquire(1)] + [Decide(1, false)]);
      |v.posts| == 2 && v.posts[1] == Post("r0", "r1", true)
  {
    var w, steps := TwoProcesses(), FirstRefresh(300.0);
    RunFirstRefresh(300.0);
    RunMore(w, steps, Begin(1, false));
    RunMore(w, steps + [Begin(1, false)], Acquire(1));
    RunMore(w, steps + [Begin(1, false)] + [Acquire(1)], Decide(1, false));
    var v := Refreshed(300.0);
    var v2 := Do(Do(v, Begin(1, false)), Acquire(1));
    assert v2.procs[1] == Proc(None, Some(Pair0()), Holding(Some(Pair0()))) && v2.live == "r1" && v2.cache == v.cache
        && v2.posts == v.posts;
  }

  // ---------------------------------------------------------------------------
  // One refresh

  /** Every grant the server makes lasts past `horizon` by more than the skew. */
  predicate Outlives(w: World, s: Step, horizon: real) {
    && Do(w, s).now <= horizon
    && (s.Answer? ==> horizon + w.skew < w.now + s.body.expiresIn.GetOr(DEFAULT_EXPIRES))
    && (s.Begin? || s.Decide? ==> s.readable)
  }

  ghost predicate OutlivesAll(w: World, steps: seq<Step>, horizon: real)
    decreases |steps|
  {
    steps == [] || (OutlivesAll(w, steps[..|steps| - 1], horizon)
      && Outlives(Run(w, steps[..|steps| - 1]), steps[|steps| - 1], horizon))
  }

  /** No more than `n` grants; once there are `n`, the newest pair is cached or about to be, and good to the horizon. */
  ghost predicate Settled(w: World, n: nat, horizon: real) {
    && w.grants <= n
    && (w.grants == n ==>
          if Writing(w) then Usable(w.procs[w.lock.value].pc.pair, horizon, w.skew)
          else w.cache.Some? && Usable(w.cache.value, horizon, w.skew) && forall p: nat :: p < |w.procs| ==>
              !w.procs[p].pc.Posted?)
  }

  lemma StepSettles(w: World, s: Step, n: nat, horizon: real)
    requires ChainIntact(w) && Settled(w, n, horizon) && !LosesGrant(w, s) && Outlives(w, s, horizon)
      && w.now <= horizon
    ensures Settled(Do(w, s), n, horizon)
  {
  }

  /** Processes racing on one expired pair refresh once, if new tokens outlive the race by more than the skew; and not
      at all while the cached pair is good. */
  lemma {:induction false} RaceRefreshesOnce(w: World, steps: seq<Step>, horizon: real)
    requires Start(w) && KeepsGrants(w, steps) && OutlivesAll(w, steps, horizon) && w.now <= horizon
    ensures Run(w, steps).grants <= 1 && Run(w, steps).now <= horizon && Settled(Run(w, steps), 1, horizon)
    ensures w.cache.Some? && Usable(w.cache.value, horizon, w.skew) ==>
      Run(w, steps).grants == 0 && Settled(Run(w, steps), 0, horizon)
    decreases |steps|
  {
    if steps != [] {
      var init, s := steps[..|steps| - 1], steps[|steps| - 1];
      RaceRefreshesOnce(w, init, horizon);
      NeverPostsConsumed(w, init);
      StepSettles(Run(w, init), s, 1, horizon);
      if w.cache.Some? && Usable(w.cache.value, horizon, w.skew) { StepSettles(Run(w, init), s, 0, horizon); }
    }
  }

  // ---------------------------------------------------------------------------
  // A lost grant

  /** Nobody holds the live token any more. */
  ghost predicate ChainLost(w: World) {
    && w.live in w.issued
    && HoldsOnly(w.cache, w.issued - {w.live})
    && forall p: nat :: p < |w.procs| ==> ProcHolds(w.procs[p], w.issued - {w.live})
  }

  predicate Rotates(body: Body) {
    body.refresh.Some? && body.refresh.value != ""
  }

  /** A grant whose reply is lost, or whose holder dies before the cache is written, loses the chain exactly when the
      server rotated the token. */
  lemma LostGrantExactly(w: World, p: nat, body: Body)
    requires ChainIntact(w) && p < |w.procs| && w.procs[p].pc.Posted? && w.procs[p].pc.token == w.live
      && Honest(w, body)
    ensures if Rotates(body) then ChainLost(Do(w, LoseReply(p, body))) else ChainIntact(Do(w, LoseReply(p, body)))
    ensures var v := Do(Do(w, Answer(p, body)), Crash(p)); if Rotates(body) then ChainLost(v) else ChainIntact(v)
  {
    assert w.lock == Some(p);
    CrashIsLostReply(w, p, body);
    ForgettingKeepsVerdict(Do(w, LoseReply(p, body)), p);
  }

  lemma ForgettingKeepsVerdict(w: World, p: nat)
    requires p < |w.procs| && w.procs[p].pc.Idle?
    ensures var v := w.(procs := w.procs[p := Proc(None, w.procs[p].seed, Idle)]);
      (ChainLost(w) ==> ChainLost(v)) && (ChainIntact(w) ==> ChainIntact(v))
  {
  }

  lemma CrashIsLostReply(w: World, p: nat, body: Body)
    requires p < |w.procs| && w.procs[p].pc.Posted? && w.procs[p].pc.token == w.live && Honest(w, body)
    ensures var v := Do(w, LoseReply(p, body));
      Do(Do(w, Answer(p, body)), Crash(p)) == v.(procs := v.procs[p := Proc(None, w.procs[p].seed, Idle)])
  {
  }

  /** Losing one rotated grant is final: whatever the processes do afterwards, the server never grants again. */
  lemma {:induction false} LostChainStaysLost(w: World, steps: seq<Step>)
    requires ChainLost(w)
    ensures ChainLost(Run(w, steps)) && Run(w, steps).grants == w.grants
    decreases |steps|
  {
    if steps != [] {
      LostChainStaysLost(w, steps[..|steps| - 1]);
      StepStaysLost(Run(w, steps[..|steps| - 1]), steps[|steps| - 1]);
    }
  }

  lemma StepStaysLost(w: World, s: Step)
    requires ChainLost(w)
    ensures ChainLost(Do(w, s)) && Do(w, s).grants == w.grants
  {
  }

  // ---------------------------------------------------------------------------
  // The store object

  /** The critical section of process `p` as machine steps, with the endpoint's reply to its post if it makes one. */
  function Section(w: World, p: nat, readable: bool, reply: Option<Body>): World {
    var v := Do(Do(w, Acquire(p)), Decide(p, readable));
    match reply
    case None => Do(v, Fault(p))
    case Some(body) => Do(Do(v, Answer(p, body)), Write(p))
  }

  lemma SectionReadsCache(w: World, p: nat)
    requires p < |w.procs| && w.procs[p].pc.Waiting? && w.lock.None?
    requires w.cache.Some? && Usable(w.cache.value, w.now, w.skew)
    ensures Section(w, p, true, None) == w.(procs := w.procs[p := w.procs[p].(mem := w.cache, pc := Idle)])
  {
  }

  lemma SectionGivesUp(w: World, p: nat, readable: bool)
    requires p < |w.procs| && w.procs[p].pc.Waiting? && w.lock.None?
    requires !(Read(w, readable).Some? && Usable(w.cache.value, w.now, w.skew))
    ensures var v := Section(w, p, readable, None);
      v.procs == w.procs[p := w.procs[p].(pc := Idle)] && v.cache == w.cache && v.lock.None? && v.skew == w.skew
  {
  }

  lemma {:induction false} SectionRenews(w: World, p: nat, readable: bool, body: Body)
    requires p < |w.procs| && w.procs[p].pc.Waiting? && w.lock.None?
    requires !(Read(w, readable).Some? && Usable(w.cache.value, w.now, w.skew))
    requires var link := Read(w, readable).Or(w.procs[p].pc.stale).Or(w.procs[p].mem).Or(w.procs[p].seed);
      link.Some? && link.value.refresh != "" && link.value.refresh == w.live
    requires Honest(w, body)
    ensures var v := Section(w, p, readable, Some(body));
      var renewed := Some(FromResponse(body, w.live, w.now));
      v.procs == w.procs[p := w.procs[p].(mem := renewed, pc := Idle)] && v.cache == renewed && v.lock.None?
        && v.skew == w.skew
  {
  }

  /** No grant was needed, or the granted pair lasts longer than the skew. */
  predicate OutlivesSkew(reply: Option<Body>, skew: real) {
    reply.None? || skew < reply.value.expiresIn.GetOr(DEFAULT_EXPIRES)
  }

  class TokenCache {
    var pair: Option<Pair>

    constructor ()
      ensures pair == None
    {
      pair := None;
    }
  }

  class MasTokenStore {
    const cache: TokenCache
    const seed: Option<Pair>
    const skew: real
    var tokens: Option<Pair>

    constructor (cache: TokenCache, refresh: string, access: string, expiresIn: real, skew: real, now: real)
      ensures this.cache == cache && this.skew == skew && tokens == None
      ensures seed == if refresh == "" then None else Some(Pair(access, refresh, now + expiresIn))
    {
      this.cache, this.skew, this.tokens := cache, skew, None;
      this.seed := if refresh == "" then None else Some(Pair(access, refresh, now + expiresIn));
    }

    /** The store is process `p` of the world, about to enter the critical section. */
    ghost predicate At(w: World, p: nat, pc: Pc)
      reads this, cache
    {
      && p < |w.procs| && w.procs[p] == Proc(tokens, seed, pc)
      && w.cache == cache.pair && w.skew == skew && w.lock.None?
    }

    /** `_refresh_locked`: what it does to the cache and to the process is exactly its steps of the machine. */
    method RefreshLocked(ghost w: World, ghost p: nat, stale: Option<Pair>, now: real, readable: bool,
        endpoint: string -> Option<Body>)
      returns (r: Option<Pair>, ghost reply: Option<Body>)
      requires At(w, p, Waiting(stale)) && now == w.now
      requires forall t :: endpoint(t).Some? ==> t == w.live && Honest(w, endpoint(t).value)
      modifies this, cache
      ensures At(Section(w, p, readable, reply), p, Idle)
      ensures r.Some? ==> tokens == r && (reply.Some? ==> cache.pair == r)
      ensures r.Some? ==> (Usable(r.value, now, skew) <==> OutlivesSkew(reply, skew))
    {
      reply := None;
      var current := if readable then cache.pair else None;
      if current.Some? && Usable(current.value, now, skew) {
        SectionReadsCache(w, p);
        tokens := current;
        return current, reply;
      }
      var link := current.Or(stale).Or(tokens).Or(seed);
      if link.None? || link.value.refresh == "" {
        SectionGivesUp(w, p, readable);
        return None, reply;
      }
      var body := endpoint(link.value.refresh);
      reply := body;
      if body.None? {
        SectionGivesUp(w, p, readable);
        return None, reply;
      }
      SectionRenews(w, p, readable, body.value);
      var renewed := FromResponse(body.value, link.value.refresh, now);
      cache.pair := Some(renewed);
      tokens := Some(renewed);
      return tokens, reply;
    }

    /** `access_token`: a usable pair in the cache, in memory or in the seed is handed out without the lock. */
    method AccessToken(ghost w: World, ghost p: nat, now: real, readable: bool, endpoint: string -> Option<Body>)
      returns (r: Option<string>, ghost reply: Option<Body>)
      requires At(w, p, Idle) && now == w.now
      requires forall t :: endpoint(t).Some? ==> t == w.live && Honest(w, endpoint(t).value)
      modifies this, cache
      ensures var begun := Do(w, Begin(p, readable));
        At(if begun.procs[p].pc.Idle? then begun else Section(begun, p, readable, reply), p, Idle)
      ensures r.Some? ==> tokens.Some? && r.value == tokens.value.access
      ensures r.Some? ==> (Usable(tokens.value, now, skew) <==> OutlivesSkew(reply, skew))
    {
      reply := None;
      var pair := (if readable then cache.pair else None).Or(tokens).Or(seed);
      if pair.Some? && Usable(pair.value, now, skew) {
        tokens := pair;
        return Some(pair.value.access), reply;
      }
      var refreshed;
      refreshed, reply := RefreshLocked(Do(w, Begin(p, readable)), p, pair, now, readable, endpoint);
      if refreshed.None? { return None, reply; }
      return Some(refreshed.value.access), reply;
    }
  }
}

/** Evaluation of an analysis program, with one cached resolution per selector name. */
module AnalysisEval {
  import opened Prelude
  import opened Json
  import opened Analysis

  datatype Data = Scalar(number: Float) | Array(numbers: seq<Float>)

  datatype Error = NoData(name: string) | Unresolved(name: string) | Failed | TooLarge
  datatype Outcome = Ok(data: Data) | Err(error: Error)

  /** The numeric kernels; `None` is a domain, division or overflow error. */
  datatype Ops = Ops(
    binary: (BinaryOp, Float, Float) -> Option<Float>,
    unary: (UnaryOp, Float) -> Option<Float>,
    reduce: (ReduceOp, seq<Float>, Option<real>) -> Option<Float>,
    spread: (ReduceOp, seq<Float>, Option<int>) -> Option<seq<Float>>)

  /** The reductions whose result is a sequence again. */
  predicate Spreads(op: ReduceOp) {
    op.Histogram? || op.FftPeak? || op.FftFreq?
  }

  function All(rs: seq<Option<Float>>): Outcome {
    if exists i :: 0 <= i < |rs| && rs[i].None? then Err(Failed)
    else Ok(Array(seq(|rs|, i requires 0 <= i < |rs| => rs[i].value)))
  }

  function One(r: Option<Float>): Outcome {
    if r.None? then Err(Failed) else Ok(Scalar(r.value))
  }

  /** Broadcasting; two arrays must have one length, and an exponent must be a scalar. */
  function Combine(op: BinaryOp, a: Data, b: Data, ops: Ops): Outcome {
    if op == Pow && b.Array? then Err(Failed)
    else match (a, b)
      case (Scalar(x), Scalar(y)) => One(ops.binary(op, x, y))
      case (Array(xs), Scalar(y)) => All(seq(|xs|, i requires 0 <= i < |xs| => ops.binary(op, xs[i], y)))
      case (Scalar(x), Array(ys)) => All(seq(|ys|, i requires 0 <= i < |ys| => ops.binary(op, x, ys[i])))
      case (Array(xs), Array(ys)) =>
        if |xs| != |ys| then Err(Failed)
        else All(seq(|xs|, i requires 0 <= i < |xs| => ops.binary(op, xs[i], ys[i])))
  }

  function Apply(op: UnaryOp, a: Data, ops: Ops): Outcome {
    match a
    case Scalar(x) => One(ops.unary(op, x))
    case Array(xs) => All(seq(|xs|, i requires 0 <= i < |xs| => ops.unary(op, xs[i])))
  }

  function Collapse(op: ReduceOp, a: Data, q: Option<real>, bins: Option<int>, ops: Ops): Outcome {
    var values := if a.Array? then a.numbers else [a.number];
    if values == [] then Err(Failed)
    else if Spreads(op) then
      match ops.spread(op, values, bins)
      case None => Err(Failed)
      case Some(xs) => Ok(Array(xs))
    else One(ops.reduce(op, values, q))
  }

  /** Element `i` of a value; a scalar is the same everywhere. */
  function Element(d: Data, i: nat): Float
    requires d.Array? ==> i < |d.numbers|
  {
    if d.Array? then d.numbers[i] else d.number
  }

  predicate SameShape(a: Data, b: Data) {
    a.Array? && b.Array? ==> |a.numbers| == |b.numbers|
  }

  function Length(a: Data, b: Data): nat {
    if a.Array? then |a.numbers| else if b.Array? then |b.numbers| else 1
  }

  /** Every element of the operands meets its partner, left before right, and their operation is defined. */
  ghost predicate Pointwise(op: BinaryOp, a: Data, b: Data, ops: Ops) {
    && SameShape(a, b) && !(op == Pow && b.Array?)
    && forall i: nat | i < Length(a, b) :: ops.binary(op, Element(a, i), Element(b, i)).Some?
  }

  ghost predicate PointwiseResult(op: BinaryOp, a: Data, b: Data, ops: Ops, r: Data)
    requires SameShape(a, b)
  {
    && (r.Array? <==> a.Array? || b.Array?) && Length(r, r) == Length(a, b)
    && forall i: nat | i < Length(a, b) :: Some(Element(r, i)) == ops.binary(op, Element(a, i), Element(b, i))
  }

  /** Broadcasting is elementwise: it succeeds exactly when the shapes agree, an exponent is a scalar and every
      element's operation is defined, and then each element is the operation on the operands' elements. */
  lemma CombineIsElementwise(op: BinaryOp, a: Data, b: Data, ops: Ops)
    ensures var r := Combine(op, a, b, ops);
      (r.Ok? <==> Pointwise(op, a, b, ops)) && (r.Ok? ==> PointwiseResult(op, a, b, ops, r.data))
  {
    if SameShape(a, b) && !(op == Pow && b.Array?) {
      if a.Array? || b.Array? { ArraysElementwise(op, a, b, ops); } else { ScalarsElementwise(op, a, b, ops); }
    }
  }

  lemma ScalarsElementwise(op: BinaryOp, a: Data, b: Data, ops: Ops)
    requires a.Scalar? && b.Scalar?
    ensures var r := Combine(op, a, b, ops);
      (r.Ok? <==> Pointwise(op, a, b, ops)) && (r.Ok? ==> PointwiseResult(op, a, b, ops, r.data))
  {
    var one := ops.binary(op, a.number, b.number);
    assert one == ops.binary(op, Element(a, 0), Element(b, 0));
  }

  lemma ArraysElementwise(op: BinaryOp, a: Data, b: Data, ops: Ops)
    requires SameShape(a, b) && !(op == Pow && b.Array?) && (a.Array? || b.Array?)
    ensures var r := Combine(op, a, b, ops);
      (r.Ok? <==> Pointwise(op, a, b, ops)) && (r.Ok? ==> PointwiseResult(op, a, b, ops, r.data))
  {
    var rs := seq(Length(a, b), i requires 0 <= i < Length(a, b) => ops.binary(op, Element(a, i), Element(b, i)));
    CombineAll(op, a, b, ops, rs);
    if Pointwise(op, a, b, ops) {
      forall i: nat | i < |rs| ensures rs[i].Some? { assert ops.binary(op, Element(a, i), Element(b, i)).Some?; }
    } else {
      var i: nat :| i < Length(a, b) && ops.binary(op, Element(a, i), Element(b, i)).None?;
      assert rs[i].None?;
    }
  }

  lemma CombineAll(op: BinaryOp, a: Data, b: Data, ops: Ops, rs: seq<Option<Float>>)
    requires SameShape(a, b) && !(op == Pow && b.Array?) && (a.Array? || b.Array?) && |rs| == Length(a, b)
    requires forall i: nat | i < |rs| :: rs[i] == ops.binary(op, Element(a, i), Element(b, i))
    ensures Combine(op, a, b, ops) == All(rs)
  {
    match (a, b)
    case (Array(xs), Scalar(y)) => assert rs == seq(|xs|, i requires 0 <= i < |xs| => ops.binary(op, xs[i], y));
    case (Scalar(x), Array(ys)) => assert rs == seq(|ys|, i requires 0 <= i < |ys| => ops.binary(op, x, ys[i]));
    case (Array(xs), Array(ys)) => assert rs == seq(|xs|, i requires 0 <= i < |xs| => ops.binary(op, xs[i], ys[i]));
    case _ =>
  }

  /** `_eval`, for any way of giving a reference its data. */
  function Eval(e: Expr, at: Ref -> Outcome, ops: Ops): Outcome {
    match e
    case Const(value) => Ok(Scalar(value))
    case Var(ref) => at(ref)
    case Binary(op, left, right) =>
      var l := Eval(left, at, ops);
      if l.Err? then l
      else
        var r := Eval(right, at, ops);
        if r.Err? then r else Combine(op, l.data, r.data, ops)
    case Unary(op, operand) =>
      var a := Eval(operand, at, ops);
      if a.Err? then a else Apply(op, a.data, ops)
    case Reduce(op, operand, q, bins) =>
      var a := Eval(operand, at, ops);
      if a.Err? then a else Collapse(op, a.data, q, bins, ops)
  }

  // ---------------------------------------------------------------------------
  // Resolution

  type Resolver = Ref -> Option<seq<Float>>

  /** `_merge_ref`: node attributes win, then the declaration's. */
  function Merge(ref: Ref, declared: Option<Ref>): Ref {
    match declared
    case None => ref
    case Some(d) => Ref(ref.name, ref.record.Or(d.record), ref.component.Or(d.component), ref.iteration.Or(d.iteration))
  }

  function Resolve(ref: Ref, selectors: seq<Ref>, resolve: Resolver): Outcome {
    var values := resolve(Merge(ref, Declared(selectors, ref.name)));
    if values.None? then Err(Unresolved(ref.name)) else Ok(Array(values.value))
  }

  datatype Cache = Cache(data: map<string, Data>) | NoCache(error: Error)

  /** `_typecheck` over the first references, in order. */
  function Fill(refs: seq<Ref>, selectors: seq<Ref>, resolve: Resolver): Cache
    decreases |refs|
  {
    if refs == [] then Cache(map[])
    else
      var before := Fill(refs[..|refs| - 1], selectors, resolve);
      var last := refs[|refs| - 1];
      if before.NoCache? then before
      else
        match Resolve(last, selectors, resolve)
        case Err(e) => NoCache(e)
        case Ok(d) => Cache(before.data[last.name := d])
  }

  method Typecheck(e: Expr, selectors: seq<Ref>, resolve: Resolver) returns (cache: Cache)
    ensures cache == Fill(FirstSeen(Visits(e)), selectors, resolve)
  {
    var refs := SelectorRefs(e);
    var data: map<string, Data> := map[];
    for i := 0 to |refs|
      invariant Fill(refs[..i], selectors, resolve) == Cache(data)
    {
      FillNext(refs, i, selectors, resolve);
      var outcome := Resolve(refs[i], selectors, resolve);
      if outcome.Err? {
        FillFails(refs, i + 1, selectors, resolve);
        return NoCache(outcome.error);
      }
      data := data[refs[i].name := outcome.data];
    }
    assert refs[..|refs|] == refs;
    return Cache(data);
  }

  lemma FillNext(refs: seq<Ref>, i: nat, selectors: seq<Ref>, resolve: Resolver)
    requires i < |refs| && Fill(refs[..i], selectors, resolve).Cache?
    ensures Fill(refs[..i + 1], selectors, resolve) ==
      match Resolve(refs[i], selectors, resolve)
      case Err(e) => NoCache(e)
      case Ok(d) => Cache(Fill(refs[..i], selectors, resolve).data[refs[i].name := d])
  {
    assert refs[..i + 1][..i] == refs[..i];
  }

  lemma {:induction false} FillFails(refs: seq<Ref>, i: nat, selectors: seq<Ref>, resolve: Resolver)
    requires i <= |refs| && Fill(refs[..i], selectors, resolve).NoCache?
    ensures Fill(refs, selectors, resolve) == Fill(refs[..i], selectors, resolve)
    decreases |refs|
  {
    if i == |refs| {
      assert refs[..i] == refs;
    } else {
      assert refs[..|refs| - 1][..i] == refs[..i];
      FillFails(refs[..|refs| - 1], i, selectors, resolve);
    }
  }

  function Cached(data: map<string, Data>): Ref -> Outcome {
    (ref: Ref) => if ref.name in data then Ok(data[ref.name]) else Err(NoData(ref.name))
  }

  function Direct(selectors: seq<Ref>, resolve: Resolver): Ref -> Outcome {
    (ref: Ref) => Resolve(ref, selectors, resolve)
  }

  function EvalCached(e: Expr, selectors: seq<Ref>, resolve: Resolver, ops: Ops): Outcome {
    match Fill(FirstSeen(Visits(e)), selectors, resolve)
    case NoCache(error) => Err(error)
    case Cache(data) => Eval(e, Cached(data), ops)
  }

  // ---------------------------------------------------------------------------
  // The cache refines direct resolution

  /** Evaluation depends only on the data of the references that occur. */
  lemma {:induction false} EvalDependsOnOccurrences(e: Expr, f: Ref -> Outcome, g: Ref -> Outcome, ops: Ops)
    requires forall r :: Occurs(r, e) ==> f(r) == g(r)
    ensures Eval(e, f, ops) == Eval(e, g, ops)
  {
    match e
    case Binary(_, left, right) =>
      EvalDependsOnOccurrences(left, f, g, ops);
      EvalDependsOnOccurrences(right, f, g, ops);
    case Unary(_, operand) => EvalDependsOnOccurrences(operand, f, g, ops);
    case Reduce(_, operand, _, _) => EvalDependsOnOccurrences(operand, f, g, ops);
    case Var(ref) => assert Occurs(ref, e);
    case _ =>
  }

  /** Nothing is skipped: one reference without data fails the whole expression. */
  lemma {:induction false} EveryOccurrenceIsNeeded(e: Expr, f: Ref -> Outcome, r: Ref, ops: Ops)
    requires Occurs(r, e) && f(r).Err?
    ensures Eval(e, f, ops).Err?
  {
    match e
    case Binary(_, left, right) =>
      if Occurs(r, left) { EveryOccurrenceIsNeeded(left, f, r, ops); }
      else { EveryOccurrenceIsNeeded(right, f, r, ops); }
    case Unary(_, operand) => EveryOccurrenceIsNeeded(operand, f, r, ops);
    case Reduce(_, operand, _, _) => EveryOccurrenceIsNeeded(operand, f, r, ops);
    case Var(_) =>
  }

  /** The cache holds each reference's own resolution, or the failure of one of them. */
  ghost predicate Holds(c: Cache, refs: seq<Ref>, selectors: seq<Ref>, resolve: Resolver) {
    && (c.Cache? ==> forall r :: r in refs ==> r.name in c.data && Resolve(r, selectors, resolve) == Ok(c.data[r.name]))
    && (c.NoCache? ==> c.error.Unresolved? && exists r :: r in refs && Resolve(r, selectors, resolve) == Err(c.error))
  }

  lemma {:induction false} FillHolds(refs: seq<Ref>, selectors: seq<Ref>, resolve: Resolver)
    requires UniqueNames(refs)
    ensures Holds(Fill(refs, selectors, resolve), refs, selectors, resolve)
    decreases |refs|
  {
    if refs != [] {
      var init, last := refs[..|refs| - 1], refs[|refs| - 1];
      FillHolds(init, selectors, resolve);
      assert refs == init + [last];
      forall r | r in init ensures r.name != last.name {
        var i :| 0 <= i < |init| && init[i] == r;
        assert refs[i] == r;
      }
    }
  }

  /** References of one name ask for one selector. */
  ghost predicate MergedAgree(e: Expr, selectors: seq<Ref>) {
    forall r, s :: Occurs(r, e) && Occurs(s, e) && r.name == s.name ==> Merged(r, selectors) == Merged(s, selectors)
  }

  function Merged(r: Ref, selectors: seq<Ref>): Ref {
    Merge(r, Declared(selectors, r.name))
  }

  /** The reference that stands for a name. */
  lemma Representative(e: Expr, r: Ref) returns (s: Ref)
    requires Occurs(r, e)
    ensures s in FirstSeen(Visits(e)) && s.name == r.name && Occurs(s, e)
  {
    VisitsAreOccurrences(e, r);
    FirstSeenNames(Visits(e));
    var first := FirstSeen(Visits(e));
    var i :| 0 <= i < |first| && first[i].name == r.name;
    s := first[i];
    VisitsAreOccurrences(e, s);
  }

  /** When the references of each name ask for one selector, under any deterministic resolver: one cached resolution per
      name gives the value that resolving every variable node separately gives, it fails exactly when that fails, and no
      variable is ever found without data. */
  lemma {:induction false} CachedIsDirect(e: Expr, selectors: seq<Ref>, resolve: Resolver, ops: Ops)
    requires MergedAgree(e, selectors)
    ensures var c, d := EvalCached(e, selectors, resolve, ops), Eval(e, Direct(selectors, resolve), ops);
      (c.Ok? <==> d.Ok?) && (c.Ok? ==> c == d) && !(c.Err? && c.error.NoData?)
  {
    match Fill(FirstSeen(Visits(e)), selectors, resolve)
    case NoCache(error) => FailsAsDirect(e, selectors, resolve, ops, error);
    case Cache(data) => FullCacheIsDirect(e, selectors, resolve, ops, data);
  }

  lemma {:induction false} FailsAsDirect(e: Expr, selectors: seq<Ref>, resolve: Resolver, ops: Ops, error: Error)
    requires Fill(FirstSeen(Visits(e)), selectors, resolve) == NoCache(error)
    ensures Eval(e, Direct(selectors, resolve), ops).Err? && error.Unresolved?
  {
    var refs := FirstSeen(Visits(e));
    FirstSeenNames(Visits(e));
    FillHolds(refs, selectors, resolve);
    var r :| r in refs && Resolve(r, selectors, resolve) == Err(error);
    VisitsAreOccurrences(e, r);
    EveryOccurrenceIsNeeded(e, Direct(selectors, resolve), r, ops);
  }

  lemma {:induction false} FullCacheIsDirect(e: Expr, selectors: seq<Ref>, resolve: Resolver, ops: Ops,
      data: map<string, Data>)
    requires MergedAgree(e, selectors) && Fill(FirstSeen(Visits(e)), selectors, resolve) == Cache(data)
    ensures var d := Eval(e, Direct(selectors, resolve), ops);
      Eval(e, Cached(data), ops) == d && !(d.Err? && d.error.NoData?)
  {
    forall r | Occurs(r, e)
      ensures Cached(data)(r) == Direct(selectors, resolve)(r)
    {
      HeldAsResolved(e, selectors, resolve, data, r);
    }
    EvalDependsOnOccurrences(e, Cached(data), Direct(selectors, resolve), ops);
    DirectHasData(e, selectors, resolve, ops);
  }

  lemma {:induction false} HeldAsResolved(e: Expr, selectors: seq<Ref>, resolve: Resolver, data: map<string, Data>,
      r: Ref)
    requires MergedAgree(e, selectors) && Fill(FirstSeen(Visits(e)), selectors, resolve) == Cache(data) && Occurs(r, e)
    ensures r.name in data && Resolve(r, selectors, resolve) == Ok(data[r.name])
  {
    var refs := FirstSeen(Visits(e));
    FirstSeenNames(Visits(e));
    FillHolds(refs, selectors, resolve);
    var s := Representative(e, r);
    assert Merged(r, selectors) == Merged(s, selectors);
  }

  /** And only then: references of one name that ask for two selectors have a resolver that fills the whole cache
      although direct resolution fails. */
  lemma DisagreementMisleads(e: Expr, selectors: seq<Ref>, ops: Ops, x: Float) returns (resolve: Resolver)
    requires !MergedAgree(e, selectors)
    ensures Fill(FirstSeen(Visits(e)), selectors, resolve).Cache?
    ensures Eval(e, Direct(selectors, resolve), ops).Err?
  {
    var a, b :| Occurs(a, e) && Occurs(b, e) && a.name == b.name && Merged(a, selectors) != Merged(b, selectors);
    var s := Representative(e, a);
    var odd := if Merged(a, selectors) != Merged(s, selectors) then a else b;
    resolve := AllBut(Merged(odd, selectors), x);
    FirstSeenNames(Visits(e));
    FillsAllBut(FirstSeen(Visits(e)), selectors, s, Merged(odd, selectors), x);
    EveryOccurrenceIsNeeded(e, Direct(selectors, resolve), odd, ops);
  }

  /** The resolver that knows every selector but one. */
  function AllBut(refused: Ref, x: Float): Resolver {
    (r: Ref) => if r == refused then None else Some([x])
  }

  lemma FillsAllBut(refs: seq<Ref>, selectors: seq<Ref>, s: Ref, refused: Ref, x: Float)
    requires UniqueNames(refs) && s in refs && s.name == refused.name && Merged(s, selectors) != refused
    ensures Fill(refs, selectors, AllBut(refused, x)).Cache?
  {
    FillHolds(refs, selectors, AllBut(refused, x));
  }

  lemma {:induction false} DirectHasData(e: Expr, selectors: seq<Ref>, resolve: Resolver, ops: Ops)
    ensures var d := Eval(e, Direct(selectors, resolve), ops); !(d.Err? && d.error.NoData?)
  {
    match e
    case Binary(_, left, right) =>
      DirectHasData(left, selectors, resolve, ops);
      DirectHasData(right, selectors, resolve, ops);
    case Unary(_, operand) => DirectHasData(operand, selectors, resolve, ops);
    case Reduce(_, operand, _, _) => DirectHasData(operand, selectors, resolve, ops);
    case _ =>
  }

  // ---------------------------------------------------------------------------
  // Whole programs

  datatype Payload = Payload(result: Data, points: Option<Data>)
  datatype Answer = Done(payload: Payload) | Refused(error: Error)

  predicate Oversized(d: Data) {
    d.Array? && |d.numbers| > MAX_POINTS_OUT
  }

  /** `evaluate`, for any way of evaluating an expression: the result, then the parallel expression, then the size
      cap. */
  function Answered(p: Program, run: Expr -> Outcome): Answer {
    var result := run(p.output);
    if result.Err? then Refused(result.error)
    else
      var points := if p.points.Some? then run(p.points.value) else Ok(result.data);
      if points.Err? then Refused(points.error)
      else if Oversized(result.data) then Refused(TooLarge)
      else Done(Payload(result.data, if p.points.Some? then Some(points.data) else None))
  }

  function CachedRun(selectors: seq<Ref>, resolve: Resolver, ops: Ops): Expr -> Outcome {
    (e: Expr) => EvalCached(e, selectors, resolve, ops)
  }

  function DirectRun(selectors: seq<Ref>, resolve: Resolver, ops: Ops): Expr -> Outcome {
    (e: Expr) => Eval(e, Direct(selectors, resolve), ops)
  }

  method Evaluate(p: Program, resolve: Resolver, ops: Ops) returns (answer: Answer)
    ensures answer == Answered(p, CachedRun(p.selectors, resolve, ops))
  {
    var cache := Typecheck(p.output, p.selectors, resolve);
    if cache.NoCache? { return Refused(cache.error); }
    var result := Eval(p.output, Cached(cache.data), ops);
    if result.Err? { return Refused(result.error); }
    var points: Option<Data> := None;
    if p.points.Some? {
      cache := Typecheck(p.points.value, p.selectors, resolve);
      if cache.NoCache? { return Refused(cache.error); }
      var parallel := Eval(p.points.value, Cached(cache.data), ops);
      if parallel.Err? { return Refused(parallel.error); }
      points := Some(parallel.data);
    }
    if Oversized(result.data) { return Refused(TooLarge); }
    return Done(Payload(result.data, points));
  }

  lemma AgreeParts(a: seq<Ref>, b: seq<Ref>)
    requires Agree(a + b)
    ensures Agree(a) && Agree(b)
  {
    var all := a + b;
    assert forall i :: 0 <= i < |a| ==> all[i] == a[i];
    assert forall i :: 0 <= i < |b| ==> all[|a| + i] == b[i];
  }

  /** A validated program's references agree within each of its expressions. */
  lemma ValidAgrees(p: Program, magnitude: Float -> nat)
    requires Analysis.Valid(p, magnitude)
    ensures Agree(Visits(p.output)) && (p.points.Some? ==> Agree(Visits(p.points.value)))
  {
    var roots := Roots(p);
    assert [p.output][..0] == [];
    assert AllVisits([p.output]) == AllVisits([]) + Visits(p.output) == Visits(p.output);
    if p.points.Some? {
      assert roots[..|roots| - 1] == [p.output];
      assert AllVisits(roots) == Visits(p.output) + Visits(p.points.value);
      AgreeParts(Visits(p.output), Visits(p.points.value));
    } else {
      assert roots == [p.output];
    }
  }

  /** For every program that passes validation and every deterministic resolver, the evaluator's answer is that of
      resolving each variable node on its own; it refuses exactly when that would fail, and never for missing data. */
  lemma EvaluatorRefinesDirect(p: Program, magnitude: Float -> nat, resolve: Resolver, ops: Ops)
    requires Analysis.Valid(p, magnitude)
    ensures var c := Answered(p, CachedRun(p.selectors, resolve, ops));
      var d := Answered(p, DirectRun(p.selectors, resolve, ops));
      (c.Done? <==> d.Done?) && (c.Done? ==> c == d) && !(c.Refused? && c.error.NoData?)
  {
    ValidAgrees(p, magnitude);
    AgreeMeansMerged(p.output, p.selectors);
    CachedIsDirect(p.output, p.selectors, resolve, ops);
    if p.points.Some? {
      AgreeMeansMerged(p.points.value, p.selectors);
      CachedIsDirect(p.points.value, p.selectors, resolve, ops);
    }
  }

  lemma AgreeMeansMerged(e: Expr, selectors: seq<Ref>)
    requires Agree(Visits(e))
    ensures MergedAgree(e, selectors)
  {
    forall r, s | Occurs(r, e) && Occurs(s, e) && r.name == s.name ensures r == s {
      VisitsAreOccurrences(e, r);
      VisitsAreOccurrences(e, s);
      var i, j :| 0 <= i < |Visits(e)| && 0 <= j < |Visits(e)| && Visits(e)[i] == r && Visits(e)[j] == s;
    }
  }

}

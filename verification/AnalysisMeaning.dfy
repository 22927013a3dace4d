/** What an analysis program means, said without evaluating it, and that the evaluator answers exactly that. */
module AnalysisMeaning {
  import opened Prelude
  import opened Json
  import opened Analysis
  import opened AnalysisEval

  // ---------------------------------------------------------------------------
  // The selector a reference asks for

  /** An attribute the node gives wins; one it does not give is the declaration's. */
  predicate Chosen<T(==)>(own: Option<T>, declared: Option<T>, chosen: Option<T>) {
    (own.Some? ==> chosen == own) && (own.None? ==> chosen == declared)
  }

  /** `s` is what reference `r` asks for, attribute by attribute. */
  ghost predicate Asks(r: Ref, selectors: seq<Ref>, s: Ref) {
    && s.name == r.name
    && (forall d | d in selectors && d.name == r.name ::
          Chosen(r.record, d.record, s.record) && Chosen(r.component, d.component, s.component)
          && Chosen(r.iteration, d.iteration, s.iteration))
    && ((forall d | d in selectors :: d.name != r.name) ==> s == r)
  }

  lemma {:induction false} AsksExactly(r: Ref, selectors: seq<Ref>, s: Ref)
    requires UniqueNames(selectors)
    ensures Asks(r, selectors, s) <==> s == Merged(r, selectors)
  {
    forall d ensures Declared(selectors, r.name) == Some(d) <==> d in selectors && d.name == r.name {
      DeclaredIsTheOne(selectors, r.name, d);
    }
    match Declared(selectors, r.name)
    case Some(d) =>
      assert d in selectors && d.name == r.name;
      assert forall x | x in selectors && x.name == r.name :: x == d;
    case None =>
      assert forall x | x in selectors :: x.name != r.name;
  }

  // ---------------------------------------------------------------------------
  // The values an expression has

  function Elements(a: Data): seq<Float> {
    seq(Length(a, a), i requires 0 <= i < Length(a, a) => Element(a, i))
  }

  /** Every element of the result is the operation on the operand's element at its place. */
  ghost predicate Mapped(op: UnaryOp, a: Data, ops: Ops, d: Data) {
    && (d.Array? <==> a.Array?) && Length(d, d) == Length(a, a)
    && forall i: nat | i < Length(a, a) :: ops.unary(op, Element(a, i)) == Some(Element(d, i))
  }

  /** A reduction of something: a histogram or a transform is a sequence by its own bins, anything else one number by
      its own quantile. */
  ghost predicate Reduced(op: ReduceOp, a: Data, q: Option<real>, bins: Option<int>, ops: Ops, d: Data) {
    && Elements(a) != []
    && (d.Array? <==> op.Histogram? || op.FftPeak? || op.FftFreq?)
    && if d.Array? then ops.spread(op, Elements(a), bins) == Some(d.numbers)
       else ops.reduce(op, Elements(a), q) == Some(d.number)
  }

  ghost predicate Means(e: Expr, selectors: seq<Ref>, resolve: Resolver, ops: Ops, d: Data) {
    match e
    case Const(value) => d == Scalar(value)
    case Var(ref) => exists s :: Asks(ref, selectors, s) && d.Array? && resolve(s) == Some(d.numbers)
    case Binary(op, left, right) =>
      exists a, b ::
        && Means(left, selectors, resolve, ops, a) && Means(right, selectors, resolve, ops, b)
        && Pointwise(op, a, b, ops) && PointwiseResult(op, a, b, ops, d)
    case Unary(op, operand) => exists a :: Means(operand, selectors, resolve, ops, a) && Mapped(op, a, ops, d)
    case Reduce(op, operand, q, bins) =>
      exists a :: Means(operand, selectors, resolve, ops, a) && Reduced(op, a, q, bins, ops, d)
  }

  /** A value is its kind and its elements. */
  lemma SameElements(a: Data, b: Data)
    requires (a.Array? <==> b.Array?) && Length(a, a) == Length(b, b)
    requires forall i: nat | i < Length(a, a) :: Element(a, i) == Element(b, i)
    ensures a == b
  {
    if a.Array? {
      assert forall i | 0 <= i < |a.numbers| :: a.numbers[i] == Element(a, i) == Element(b, i) == b.numbers[i];
    } else {
      assert Element(a, 0) == Element(b, 0);
    }
  }

  lemma CombineExactly(op: BinaryOp, a: Data, b: Data, ops: Ops, d: Data)
    ensures Combine(op, a, b, ops) == Ok(d) <==> Pointwise(op, a, b, ops) && PointwiseResult(op, a, b, ops, d)
  {
    CombineIsElementwise(op, a, b, ops);
    var r := Combine(op, a, b, ops);
    if r.Ok? && PointwiseResult(op, a, b, ops, d) {
      forall i: nat | i < Length(d, d) ensures Element(d, i) == Element(r.data, i) {
        assert Some(Element(d, i)) == ops.binary(op, Element(a, i), Element(b, i)) == Some(Element(r.data, i));
      }
      SameElements(d, r.data);
    }
  }

  lemma ApplyExactly(op: UnaryOp, a: Data, ops: Ops, d: Data)
    ensures Apply(op, a, ops) == Ok(d) <==> Mapped(op, a, ops, d)
  {
    if a.Array? { ApplyArray(op, a.numbers, ops, d); } else { ApplyScalar(op, a.number, ops, d); }
  }

  lemma ApplyScalar(op: UnaryOp, x: Float, ops: Ops, d: Data)
    ensures Apply(op, Scalar(x), ops) == Ok(d) <==> Mapped(op, Scalar(x), ops, d)
  {
    assert Element(Scalar(x), 0) == x;
    if d.Scalar? { assert Element(d, 0) == d.number; }
  }

  lemma ApplyArray(op: UnaryOp, xs: seq<Float>, ops: Ops, d: Data)
    ensures Apply(op, Array(xs), ops) == Ok(d) <==> Mapped(op, Array(xs), ops, d)
  {
    var rs := seq(|xs|, i requires 0 <= i < |xs| => ops.unary(op, xs[i]));
    assert Apply(op, Array(xs), ops) == All(rs);
    if Apply(op, Array(xs), ops) == Ok(d) {
      forall i: nat | i < |xs| ensures ops.unary(op, Element(Array(xs), i)) == Some(Element(d, i)) {
        assert rs[i].Some?;
      }
    } else if Mapped(op, Array(xs), ops, d) {
      forall i: nat | i < |xs| ensures rs[i] == Some(d.numbers[i]) {
        assert ops.unary(op, Element(Array(xs), i)) == Some(Element(d, i));
      }
      SameElements(All(rs).data, d);
    }
  }

  lemma CollapseExactly(op: ReduceOp, a: Data, q: Option<real>, bins: Option<int>, ops: Ops, d: Data)
    ensures Collapse(op, a, q, bins, ops) == Ok(d) <==> Reduced(op, a, q, bins, ops, d)
  {
    var values := if a.Array? then a.numbers else [a.number];
    assert Elements(a) == values;
  }

  /** Evaluation, each variable resolved on its own, yields a value exactly when it is what the expression means. */
  lemma {:induction false} MeansExactly(e: Expr, selectors: seq<Ref>, resolve: Resolver, ops: Ops, d: Data)
    requires UniqueNames(selectors)
    ensures Means(e, selectors, resolve, ops, d) <==> Eval(e, Direct(selectors, resolve), ops) == Ok(d)
    decreases e, 0
  {
    match e
    case Const(_) =>
    case Var(ref) => VariableMeans(ref, selectors, resolve, ops, d);
    case Binary(op, left, right) =>
      OperandMeans(left, selectors, resolve, ops);
      OperandMeans(right, selectors, resolve, ops);
      forall a, b
        ensures Combine(op, a, b, ops) == Ok(d) <==> Pointwise(op, a, b, ops) && PointwiseResult(op, a, b, ops, d)
      {
        CombineExactly(op, a, b, ops, d);
      }
    case Unary(op, operand) =>
      OperandMeans(operand, selectors, resolve, ops);
      forall a ensures Apply(op, a, ops) == Ok(d) <==> Mapped(op, a, ops, d) { ApplyExactly(op, a, ops, d); }
    case Reduce(op, operand, q, bins) =>
      OperandMeans(operand, selectors, resolve, ops);
      forall a ensures Collapse(op, a, q, bins, ops) == Ok(d) <==> Reduced(op, a, q, bins, ops, d) {
        CollapseExactly(op, a, q, bins, ops, d);
      }
  }

  lemma {:induction false} OperandMeans(e: Expr, selectors: seq<Ref>, resolve: Resolver, ops: Ops)
    requires UniqueNames(selectors)
    ensures forall a :: Means(e, selectors, resolve, ops, a) <==> Eval(e, Direct(selectors, resolve), ops) == Ok(a)
    decreases e, 1
  {
    forall a ensures Means(e, selectors, resolve, ops, a) <==> Eval(e, Direct(selectors, resolve), ops) == Ok(a) {
      MeansExactly(e, selectors, resolve, ops, a);
    }
  }

  lemma VariableMeans(r: Ref, selectors: seq<Ref>, resolve: Resolver, ops: Ops, d: Data)
    requires UniqueNames(selectors)
    ensures Means(Var(r), selectors, resolve, ops, d) <==> Eval(Var(r), Direct(selectors, resolve), ops) == Ok(d)
  {
    forall s ensures Asks(r, selectors, s) <==> s == Merged(r, selectors) { AsksExactly(r, selectors, s); }
    assert Asks(r, selectors, Merged(r, selectors));
  }

  // ---------------------------------------------------------------------------
  // Programs

  /** What a program answers: the value of its expression, no longer than the cap, beside that of its parallel
      expression if it has one. */
  ghost predicate Answers(p: Program, resolve: Resolver, ops: Ops, payload: Payload) {
    && Means(p.output, p.selectors, resolve, ops, payload.result)
    && (payload.result.Array? ==> |payload.result.numbers| <= 4096)
    && (payload.points.Some? <==> p.points.Some?)
    && (p.points.Some? ==> Means(p.points.value, p.selectors, resolve, ops, payload.points.value))
  }

  /** A validated program is evaluated, with its cache, to exactly what it means; if it means nothing it is refused. */
  lemma AnswersExactly(p: Program, magnitude: Float -> nat, resolve: Resolver, ops: Ops, payload: Payload)
    requires Analysis.Valid(p, magnitude)
    ensures Answered(p, CachedRun(p.selectors, resolve, ops)) == Done(payload) <==> Answers(p, resolve, ops, payload)
  {
    EvaluatorRefinesDirect(p, magnitude, resolve, ops);
    OperandMeans(p.output, p.selectors, resolve, ops);
    if p.points.Some? { OperandMeans(p.points.value, p.selectors, resolve, ops); }
  }

}

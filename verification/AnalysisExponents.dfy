/** To which exponents the evaluation of a program raises: validation bounds the literal ones only. */
module AnalysisExponents {
  import opened Prelude
  import opened Json
  import opened Analysis
  import opened AnalysisEval

  /** The exponents something is raised to, in order of evaluation. */
  function Raised(e: Expr, at: Ref -> Outcome, ops: Ops): seq<Float> {
    match e
    case Const(_) | Var(_) => []
    case Unary(_, operand) => Raised(operand, at, ops)
    case Reduce(_, operand, _, _) => Raised(operand, at, ops)
    case Binary(op, left, right) =>
      if Eval(left, at, ops).Err? then Raised(left, at, ops)
      else
        var r := Eval(right, at, ops);
        var own := if op == Pow && r.Ok? && r.data.Scalar? then [r.data.number] else [];
        Raised(left, at, ops) + Raised(right, at, ops) + own
  }

  /** Whatever value it has is a sequence. */
  predicate ArrayValued(e: Expr) {
    match e
    case Const(_) => false
    case Var(_) => true
    case Unary(_, operand) => ArrayValued(operand)
    case Reduce(op, _, _, _) => Spreads(op)
    case Binary(_, left, right) => ArrayValued(left) || ArrayValued(right)
  }

  /** Somewhere in it a sequence stands as an exponent, which is refused. */
  predicate Doomed(e: Expr) {
    match e
    case Const(_) | Var(_) => false
    case Unary(_, operand) => Doomed(operand)
    case Reduce(_, operand, _, _) => Doomed(operand)
    case Binary(op, left, right) => Doomed(left) || Doomed(right) || (op == Pow && ArrayValued(right))
  }

  /** Every exponent that evaluation can reach is a literal that passes `ok`. */
  predicate Curbed(e: Expr, ok: Float -> bool) {
    match e
    case Const(_) | Var(_) => true
    case Unary(_, operand) => Curbed(operand, ok)
    case Reduce(_, operand, _, _) => Curbed(operand, ok)
    case Binary(op, left, right) =>
      && Curbed(left, ok)
      && (Doomed(left)
          || (Curbed(right, ok)
              && (Doomed(right) || op != Pow || ArrayValued(right) || (right.Const? && ok(right.value)))))
  }

  ghost predicate AllOk(xs: seq<Float>, ok: Float -> bool) {
    forall x :: x in xs ==> ok(x)
  }

  /** Selectors resolve to sequences. */
  ghost predicate Sequences(at: Ref -> Outcome) {
    forall r :: at(r).Ok? ==> at(r).data.Array?
  }

  lemma {:induction false} ShapeIsStatic(e: Expr, at: Ref -> Outcome, ops: Ops)
    requires Sequences(at)
    ensures Eval(e, at, ops).Ok? ==> (Eval(e, at, ops).data.Array? <==> ArrayValued(e))
  {
    match e
    case Const(_) | Var(_) =>
    case Unary(_, operand) => ShapeIsStatic(operand, at, ops);
    case Reduce(_, operand, _, _) => ShapeIsStatic(operand, at, ops);
    case Binary(_, left, right) =>
      ShapeIsStatic(left, at, ops);
      ShapeIsStatic(right, at, ops);
  }

  lemma {:induction false} DoomedFails(e: Expr, at: Ref -> Outcome, ops: Ops)
    requires Sequences(at) && Doomed(e)
    ensures Eval(e, at, ops).Err?
  {
    match e
    case Unary(_, operand) => DoomedFails(operand, at, ops);
    case Reduce(_, operand, _, _) => DoomedFails(operand, at, ops);
    case Binary(op, left, right) =>
      if Doomed(left) { DoomedFails(left, at, ops); }
      else if Doomed(right) { DoomedFails(right, at, ops); }
      else { ShapeIsStatic(right, at, ops); }
  }

  lemma {:induction false} CurbedStaysOk(e: Expr, ok: Float -> bool, at: Ref -> Outcome, ops: Ops)
    requires Sequences(at) && Curbed(e, ok)
    ensures AllOk(Raised(e, at, ops), ok)
  {
    match e
    case Const(_) | Var(_) =>
    case Unary(_, operand) => CurbedStaysOk(operand, ok, at, ops);
    case Reduce(_, operand, _, _) => CurbedStaysOk(operand, ok, at, ops);
    case Binary(op, left, right) =>
      CurbedStaysOk(left, ok, at, ops);
      if Eval(left, at, ops).Ok? {
        if Doomed(left) { DoomedFails(left, at, ops); }
        CurbedStaysOk(right, ok, at, ops);
        if Eval(right, at, ops).Ok? {
          if Doomed(right) { DoomedFails(right, at, ops); }
          ShapeIsStatic(right, at, ops);
        }
      }
  }

  // ---------------------------------------------------------------------------
  // Data and kernels that reach every exponent

  /** Kernels that yield one number, whatever they are given. */
  function Only(x: Float): Ops {
    Ops((op, a, b) => Some(x), (op, a) => Some(x), (op, xs, q) => Some(x), (op, xs, bins) => Some([x]))
  }

  function Same(x: Float): Ref -> Outcome {
    (r: Ref) => Ok(Array([x]))
  }

  lemma {:induction false} OnlyYields(e: Expr, x: Float)
    requires !Doomed(e)
    ensures Eval(e, Same(x), Only(x)) ==
      if ArrayValued(e) then Ok(Array([x])) else Ok(Scalar(if e.Const? then e.value else x))
  {
    match e
    case Const(_) | Var(_) =>
    case Unary(_, operand) => OnlyYields(operand, x);
    case Reduce(_, operand, _, _) => OnlyYields(operand, x);
    case Binary(_, left, right) =>
      OnlyYields(left, x);
      OnlyYields(right, x);
  }

  lemma {:induction false} UncurbedRaises(e: Expr, ok: Float -> bool, x: Float)
    requires !Curbed(e, ok) && !ok(x)
    ensures !AllOk(Raised(e, Same(x), Only(x)), ok)
  {
    match e
    case Unary(_, operand) => UncurbedRaises(operand, ok, x);
    case Reduce(_, operand, _, _) => UncurbedRaises(operand, ok, x);
    case Binary(op, left, right) =>
      var all := Raised(e, Same(x), Only(x));
      if !Curbed(left, ok) {
        UncurbedRaises(left, ok, x);
        Included(Raised(left, Same(x), Only(x)), all, ok);
      } else {
        OnlyYields(left, x);
        if !Curbed(right, ok) {
          UncurbedRaises(right, ok, x);
          Included(Raised(right, Same(x), Only(x)), all, ok);
        } else {
          OnlyYields(right, x);
          assert all[|all| - 1] in all;
        }
      }
  }

  lemma Included(xs: seq<Float>, ys: seq<Float>, ok: Float -> bool)
    requires !AllOk(xs, ok) && forall x :: x in xs ==> x in ys
    ensures !AllOk(ys, ok)
  {
  }

  // ---------------------------------------------------------------------------
  // Whole programs, as the evaluator runs them

  function RaisedCached(e: Expr, selectors: seq<Ref>, resolve: Resolver, ops: Ops): seq<Float> {
    match Fill(FirstSeen(Visits(e)), selectors, resolve)
    case NoCache(_) => []
    case Cache(data) => Raised(e, Cached(data), ops)
  }

  function ProgramRaised(p: Program, resolve: Resolver, ops: Ops): seq<Float> {
    RaisedCached(p.output, p.selectors, resolve, ops)
    + if p.points.Some? && EvalCached(p.output, p.selectors, resolve, ops).Ok?
      then RaisedCached(p.points.value, p.selectors, resolve, ops) else []
  }

  predicate ProgramCurbed(p: Program, ok: Float -> bool) {
    Curbed(p.output, ok) && (p.points.None? || Doomed(p.output) || Curbed(p.points.value, ok))
  }

  /** Whatever the selectors hold and the numeric kernels compute, every exponent passes `ok`. */
  ghost predicate AlwaysOk(p: Program, ok: Float -> bool) {
    forall resolve: Resolver, ops: Ops :: AllOk(ProgramRaised(p, resolve, ops), ok)
  }

  lemma {:induction false} FilledWithSequences(refs: seq<Ref>, selectors: seq<Ref>, resolve: Resolver)
    ensures var c := Fill(refs, selectors, resolve); c.Cache? ==> forall n :: n in c.data ==> c.data[n].Array?
    decreases |refs|
  {
    if refs != [] { FilledWithSequences(refs[..|refs| - 1], selectors, resolve); }
  }

  lemma {:induction false} CachedAreSequences(data: map<string, Data>)
    requires forall n :: n in data ==> data[n].Array?
    ensures Sequences(Cached(data))
  {
    forall r | Cached(data)(r).Ok? ensures Cached(data)(r).data.Array? { assert r.name in data; }
  }

  lemma CurbedProgramStaysOk(p: Program, ok: Float -> bool, resolve: Resolver, ops: Ops)
    requires ProgramCurbed(p, ok)
    ensures AllOk(ProgramRaised(p, resolve, ops), ok)
  {
    ExpressionStaysOk(p.output, ok, p.selectors, resolve, ops);
    if p.points.Some? && EvalCached(p.output, p.selectors, resolve, ops).Ok? {
      ExpressionStaysOk(p.points.value, ok, p.selectors, resolve, ops);
    }
  }

  lemma ExpressionStaysOk(e: Expr, ok: Float -> bool, selectors: seq<Ref>, resolve: Resolver, ops: Ops)
    ensures Curbed(e, ok) ==> AllOk(RaisedCached(e, selectors, resolve, ops), ok)
    ensures Doomed(e) ==> EvalCached(e, selectors, resolve, ops).Err?
  {
    FilledWithSequences(FirstSeen(Visits(e)), selectors, resolve);
    var c := Fill(FirstSeen(Visits(e)), selectors, resolve);
    if c.Cache? {
      CachedAreSequences(c.data);
      if Curbed(e, ok) { CurbedStaysOk(e, ok, Cached(c.data), ops); }
      if Doomed(e) { DoomedFails(e, Cached(c.data), ops); }
    }
  }

  lemma {:induction false} RaisedDependsOnOccurrences(e: Expr, f: Ref -> Outcome, g: Ref -> Outcome, ops: Ops)
    requires forall r :: Occurs(r, e) ==> f(r) == g(r)
    ensures Raised(e, f, ops) == Raised(e, g, ops)
  {
    match e
    case Const(_) | Var(_) =>
    case Unary(_, operand) => RaisedDependsOnOccurrences(operand, f, g, ops);
    case Reduce(_, operand, _, _) => RaisedDependsOnOccurrences(operand, f, g, ops);
    case Binary(_, left, right) =>
      EvalDependsOnOccurrences(left, f, g, ops);
      EvalDependsOnOccurrences(right, f, g, ops);
      RaisedDependsOnOccurrences(left, f, g, ops);
      RaisedDependsOnOccurrences(right, f, g, ops);
  }

  function Constantly(x: Float): Resolver {
    (r: Ref) => Some([x])
  }

  lemma {:induction false} ConstantlyFills(refs: seq<Ref>, selectors: seq<Ref>, x: Float)
    ensures var c := Fill(refs, selectors, Constantly(x));
      c.Cache? && (forall r :: r in refs ==> r.name in c.data) && forall n :: n in c.data ==> c.data[n] == Array([x])
    decreases |refs|
  {
    if refs != [] {
      var init, last := refs[..|refs| - 1], refs[|refs| - 1];
      ConstantlyFills(init, selectors, x);
      assert refs == init + [last];
    }
  }

  /** With one number behind every selector, the evaluator's cache is that number everywhere. */
  lemma ConstantlyIsSame(e: Expr, selectors: seq<Ref>, x: Float, ops: Ops)
    ensures RaisedCached(e, selectors, Constantly(x), ops) == Raised(e, Same(x), ops)
    ensures EvalCached(e, selectors, Constantly(x), ops) == Eval(e, Same(x), ops)
  {
    ConstantlyFills(FirstSeen(Visits(e)), selectors, x);
    var c := Fill(FirstSeen(Visits(e)), selectors, Constantly(x));
    forall r | Occurs(r, e) ensures Cached(c.data)(r) == Same(x)(r) { var s := Representative(e, r); }
    RaisedDependsOnOccurrences(e, Cached(c.data), Same(x), ops);
    EvalDependsOnOccurrences(e, Cached(c.data), Same(x), ops);
  }

  /** Exactly when the exponents of a program are under control, for any standard some number fails: when each one that
      evaluation can reach is a literal that meets it. */
  lemma ExponentsOkExactly(p: Program, ok: Float -> bool, x: Float)
    requires !ok(x)
    ensures AlwaysOk(p, ok) <==> ProgramCurbed(p, ok)
  {
    if ProgramCurbed(p, ok) {
      forall resolve: Resolver, ops: Ops
        ensures AllOk(ProgramRaised(p, resolve, ops), ok)
      {
        CurbedProgramStaysOk(p, ok, resolve, ops);
      }
    } else {
      var all := ProgramRaised(p, Constantly(x), Only(x));
      ConstantlyIsSame(p.output, p.selectors, x, Only(x));
      if !Curbed(p.output, ok) {
        UncurbedRaises(p.output, ok, x);
        Included(Raised(p.output, Same(x), Only(x)), all, ok);
      } else {
        OnlyYields(p.output, x);
        ConstantlyIsSame(p.points.value, p.selectors, x, Only(x));
        UncurbedRaises(p.points.value, ok, x);
        Included(Raised(p.points.value, Same(x), Only(x)), all, ok);
      }
    }
  }

  // ---------------------------------------------------------------------------
  // Given kernels: an operand without variables counts by its value

  predicate Closed(e: Expr) {
    match e
    case Const(_) => true
    case Var(_) => false
    case Unary(_, operand) => Closed(operand)
    case Reduce(_, operand, _, _) => Closed(operand)
    case Binary(_, left, right) => Closed(left) && Closed(right)
  }

  function NoDatum(): Ref -> Outcome {
    (r: Ref) => Err(NoData(r.name))
  }

  /** What a closed expression evaluates to. */
  function Constant(e: Expr, ops: Ops): Outcome {
    Eval(e, NoDatum(), ops)
  }

  /** A sequence as an exponent, or a closed part that has no value: it fails whatever the data. */
  predicate Fails(e: Expr, ops: Ops) {
    || (Closed(e) && Constant(e, ops).Err?)
    || match e
       case Const(_) | Var(_) => false
       case Unary(_, operand) => Fails(operand, ops)
       case Reduce(_, operand, _, _) => Fails(operand, ops)
       case Binary(op, left, right) => Fails(left, ops) || Fails(right, ops) || (op == Pow && ArrayValued(right))
  }

  /** Every exponent that evaluation can reach is free of variables and has a value that passes `ok`. */
  predicate CurbedBy(e: Expr, ok: Float -> bool, ops: Ops) {
    match e
    case Const(_) | Var(_) => true
    case Unary(_, operand) => CurbedBy(operand, ok, ops)
    case Reduce(_, operand, _, _) => CurbedBy(operand, ok, ops)
    case Binary(op, left, right) =>
      && CurbedBy(left, ok, ops)
      && (Fails(left, ops)
          || (CurbedBy(right, ok, ops)
              && (Fails(right, ops) || op != Pow || ArrayValued(right) || (Closed(right) && Passes(right, ok, ops)))))
  }

  predicate Passes(e: Expr, ok: Float -> bool, ops: Ops) {
    var r := Constant(e, ops);
    r.Ok? && r.data.Scalar? && ok(r.data.number)
  }

  lemma {:induction false} ClosedIsConstant(e: Expr, at: Ref -> Outcome, ops: Ops)
    requires Closed(e)
    ensures Eval(e, at, ops) == Constant(e, ops)
  {
    match e
    case Const(_) =>
    case Unary(_, operand) => ClosedIsConstant(operand, at, ops);
    case Reduce(_, operand, _, _) => ClosedIsConstant(operand, at, ops);
    case Binary(_, left, right) =>
      ClosedIsConstant(left, at, ops);
      ClosedIsConstant(right, at, ops);
  }

  lemma {:induction false} FailsIsErr(e: Expr, at: Ref -> Outcome, ops: Ops)
    requires Sequences(at) && Fails(e, ops)
    ensures Eval(e, at, ops).Err?
  {
    if Closed(e) && Constant(e, ops).Err? {
      ClosedIsConstant(e, at, ops);
    } else {
      match e
      case Unary(_, operand) => FailsIsErr(operand, at, ops);
      case Reduce(_, operand, _, _) => FailsIsErr(operand, at, ops);
      case Binary(op, left, right) =>
        if Fails(left, ops) { FailsIsErr(left, at, ops); }
        else if Fails(right, ops) { FailsIsErr(right, at, ops); }
        else { ShapeIsStatic(right, at, ops); }
    }
  }

  lemma {:induction false} CurbedByStaysOk(e: Expr, ok: Float -> bool, at: Ref -> Outcome, ops: Ops)
    requires Sequences(at) && CurbedBy(e, ok, ops)
    ensures AllOk(Raised(e, at, ops), ok)
  {
    match e
    case Const(_) | Var(_) =>
    case Unary(_, operand) => CurbedByStaysOk(operand, ok, at, ops);
    case Reduce(_, operand, _, _) => CurbedByStaysOk(operand, ok, at, ops);
    case Binary(op, left, right) =>
      CurbedByStaysOk(left, ok, at, ops);
      if Eval(left, at, ops).Ok? {
        if Fails(left, ops) { FailsIsErr(left, at, ops); }
        CurbedByStaysOk(right, ok, at, ops);
        if Eval(right, at, ops).Ok? {
          if Fails(right, ops) { FailsIsErr(right, at, ops); }
          ShapeIsStatic(right, at, ops);
          if Closed(right) { ClosedIsConstant(right, at, ops); }
        }
      }
  }

  predicate ProgramCurbedBy(p: Program, ok: Float -> bool, ops: Ops) {
    CurbedBy(p.output, ok, ops) && (p.points.None? || Fails(p.output, ops) || CurbedBy(p.points.value, ok, ops))
  }

  lemma ExpressionStaysOkBy(e: Expr, ok: Float -> bool, selectors: seq<Ref>, resolve: Resolver, ops: Ops)
    ensures CurbedBy(e, ok, ops) ==> AllOk(RaisedCached(e, selectors, resolve, ops), ok)
    ensures Fails(e, ops) ==> EvalCached(e, selectors, resolve, ops).Err?
  {
    FilledWithSequences(FirstSeen(Visits(e)), selectors, resolve);
    var c := Fill(FirstSeen(Visits(e)), selectors, resolve);
    if c.Cache? {
      CachedAreSequences(c.data);
      if CurbedBy(e, ok, ops) { CurbedByStaysOk(e, ok, Cached(c.data), ops); }
      if Fails(e, ops) { FailsIsErr(e, Cached(c.data), ops); }
    }
  }

  /** For the kernels at hand, whatever the selectors hold: it is enough that each exponent evaluation can reach is free
      of variables and evaluates to a number that meets the standard. */
  lemma ConstantExponentsStayOk(p: Program, ok: Float -> bool, resolve: Resolver, ops: Ops)
    requires ProgramCurbedBy(p, ok, ops)
    ensures AllOk(ProgramRaised(p, resolve, ops), ok)
  {
    ExpressionStaysOkBy(p.output, ok, p.selectors, resolve, ops);
    if p.points.Some? && EvalCached(p.output, p.selectors, resolve, ops).Ok? {
      ExpressionStaysOkBy(p.points.value, ok, p.selectors, resolve, ops);
    }
  }

  lemma {:induction false} DoomedIsFails(e: Expr, ops: Ops)
    ensures Doomed(e) ==> Fails(e, ops)
  {
    match e
    case Const(_) | Var(_) =>
    case Unary(_, operand) => DoomedIsFails(operand, ops);
    case Reduce(_, operand, _, _) => DoomedIsFails(operand, ops);
    case Binary(_, left, right) =>
      DoomedIsFails(left, ops);
      DoomedIsFails(right, ops);
  }

  /** Literals that meet the standard are a case of this, under all kernels. */
  lemma {:induction false} CurbedIsCurbedBy(e: Expr, ok: Float -> bool, ops: Ops)
    ensures Curbed(e, ok) ==> CurbedBy(e, ok, ops)
  {
    match e
    case Const(_) | Var(_) =>
    case Unary(_, operand) => CurbedIsCurbedBy(operand, ok, ops);
    case Reduce(_, operand, _, _) => CurbedIsCurbedBy(operand, ok, ops);
    case Binary(_, left, right) =>
      CurbedIsCurbedBy(left, ok, ops);
      CurbedIsCurbedBy(right, ok, ops);
      DoomedIsFails(left, ops);
      DoomedIsFails(right, ops);
  }

  /** `a ** (two + three)`. */
  function SumPower(two: Float, three: Float): Program {
    Program(Binary(Pow, Plain("a"), Binary(Add, Const(two), Const(three))), [], None)
  }

  lemma {:induction false} SumOfLiterals(two: Float, three: Float, five: Float, ok: Float -> bool, ops: Ops)
    requires ops.binary(Add, two, three) == Some(five) && ok(five)
    ensures var e := Binary(Add, Const(two), Const(three));
      Closed(e) && Passes(e, ok, ops) && CurbedBy(e, ok, ops) && !Doomed(e) && !ArrayValued(e)
  {
    LiteralIsClosed(two, ok, ops);
    LiteralIsClosed(three, ok, ops);
  }

  lemma {:induction false} LiteralIsClosed(c: Float, ok: Float -> bool, ops: Ops)
    ensures var e := Const(c);
      Closed(e) && Constant(e, ops) == Ok(Scalar(c)) && CurbedBy(e, ok, ops) && !Doomed(e) && !ArrayValued(e)
  {
  }

  /** A closed exponent that is no literal. */
  lemma {:induction false} ClosedExponent(base: Expr, right: Expr, ok: Float -> bool, ops: Ops)
    requires base.Var? && !right.Const? && Closed(right) && Passes(right, ok, ops) && CurbedBy(right, ok, ops)
    requires !Doomed(right) && !ArrayValued(right)
    ensures !Curbed(Binary(Pow, base, right), ok) && CurbedBy(Binary(Pow, base, right), ok, ops)
  {
    assert !Doomed(base) && Curbed(base, ok) && CurbedBy(base, ok, ops);
  }

  /** No literal exponent, yet always the one its sum comes to. */
  lemma SumPowerIsCurbed(two: Float, three: Float, five: Float, ok: Float -> bool, resolve: Resolver, ops: Ops)
    requires ops.binary(Add, two, three) == Some(five) && ok(five)
    ensures !ProgramCurbed(SumPower(two, three), ok) && AllOk(ProgramRaised(SumPower(two, three), resolve, ops), ok)
  {
    SumOfLiterals(two, three, five, ok, ops);
    ClosedExponent(Plain("a"), Binary(Add, Const(two), Const(three)), ok, ops);
    ConstantExponentsStayOk(SumPower(two, three), ok, resolve, ops);
  }

  // ---------------------------------------------------------------------------
  // Valid programs

  /** `int(abs(value))`, the size validation looks at. */
  function Magnitude(value: Float -> real): Float -> nat {
    (x: Float) => (if value(x) < 0.0 then -value(x) else value(x)).Floor
  }

  /** What a literal exponent passes validation by: its sign is dropped and its fraction cut off. */
  predicate Admitted(v: real) {
    -(MAX_EXPONENT + 1) as real < v < (MAX_EXPONENT + 1) as real
  }

  /** What an exponent is documented to be. */
  predicate Promised(v: real) {
    0.0 <= v <= MAX_EXPONENT as real
  }

  lemma AdmittedExactly(value: Float -> real, x: Float)
    ensures Magnitude(value)(x) <= MAX_EXPONENT <==> Admitted(value(x))
  {
  }

  lemma {:induction false} LiteralsAdmitted(e: Expr, value: Float -> real)
    requires Exponent(e, Magnitude(value)) <= MAX_EXPONENT
    ensures Curbed(e, x => true) <==> Curbed(e, x => Admitted(value(x)))
  {
    match e
    case Const(_) | Var(_) =>
    case Unary(_, operand) => LiteralsAdmitted(operand, value);
    case Reduce(_, operand, _, _) => LiteralsAdmitted(operand, value);
    case Binary(op, left, right) =>
      LiteralsAdmitted(left, value);
      LiteralsAdmitted(right, value);
      if right.Const? { AdmittedExactly(value, right.value); }
  }

  /** A valid program's exponents stay below 13 in size, whatever the data, exactly when each one that evaluation can
      reach is a literal. */
  lemma ValidExponentsBoundedExactly(p: Program, value: Float -> real, x: Float)
    requires Analysis.Valid(p, Magnitude(value)) && !Admitted(value(x))
    ensures AlwaysOk(p, y => Admitted(value(y))) <==> ProgramCurbed(p, y => true)
  {
    ExponentsOkExactly(p, y => Admitted(value(y)), x);
    assert p.output in Roots(p);
    LiteralsAdmitted(p.output, value);
    if p.points.Some? {
      assert p.points.value in Roots(p);
      LiteralsAdmitted(p.points.value, value);
    }
  }

  /** They are what the evaluator documents, in [0, 12], exactly when each such literal is. */
  lemma PromisedExponentsExactly(p: Program, value: Float -> real, x: Float)
    requires !Promised(value(x))
    ensures AlwaysOk(p, y => Promised(value(y))) <==> ProgramCurbed(p, y => Promised(value(y)))
  {
    ExponentsOkExactly(p, y => Promised(value(y)), x);
  }

  // ---------------------------------------------------------------------------
  // Valid programs that do not keep the promise

  function Plain(name: string): Expr {
    Var(Ref(name, None, None, None))
  }

  /** The selector's values raised to their own sum. */
  function OwnSumPower(): Program {
    Program(Binary(Pow, Plain("a"), Reduce(Sum, Plain("a"), None, None)), [], None)
  }

  lemma {:induction false} SingleRoot(e: Expr, magnitude: Float -> nat)
    ensures var p := Program(e, [], None);
      Analysis.Valid(p, magnitude) <==> Size(e) <= MAX_NODES && Limited(e, magnitude) && Unambiguous(Visits(e), [])
  {
    var p := Program(e, [], None);
    assert Roots(p) == [e] && [e][..0] == [] && AllVisits([e]) == AllVisits([]) + Visits(e) == Visits(e);
    assert TotalSize([e]) == TotalSize([]) + Size(e);
    assert e in Roots(p);
  }

  lemma OwnSumPowerIsValid(magnitude: Float -> nat)
    ensures Analysis.Valid(OwnSumPower(), magnitude)
  {
    var e, r := OwnSumPower().output, Ref("a", None, None, None);
    SingleRoot(e, magnitude);
    assert Visits(Reduce(Sum, Plain("a"), None, None)) == Visits(Plain("a")) == [r];
    assert Visits(e) == [r, r];
    assert Size(Reduce(Sum, Plain("a"), None, None)) == 2 && Depth(Reduce(Sum, Plain("a"), None, None)) == 2;
    assert Exponent(Reduce(Sum, Plain("a"), None, None), magnitude) == 0;
  }

  lemma OwnSumPowerRaises(x: Float, ops: Ops)
    requires ops.reduce(Sum, [x], None) == Some(x)
    ensures Raised(OwnSumPower().output, Same(x), ops) == [x]
  {
    var sum := Reduce(Sum, Plain("a"), None, None);
    assert Eval(Plain("a"), Same(x), ops) == Ok(Array([x]));
    assert Eval(sum, Same(x), ops) == Ok(Scalar(x));
    assert Raised(sum, Same(x), ops) == [] && Raised(Plain("a"), Same(x), ops) == [];
  }

  /** It passes validation, and raises to whatever number its selector holds. */
  lemma ValidProgramRaisesToAnything(magnitude: Float -> nat, x: Float, ops: Ops)
    requires ops.reduce(Sum, [x], None) == Some(x)
    ensures Analysis.Valid(OwnSumPower(), magnitude)
    ensures ProgramRaised(OwnSumPower(), Constantly(x), ops) == [x]
  {
    OwnSumPowerIsValid(magnitude);
    ConstantlyIsSame(OwnSumPower().output, [], x, ops);
    OwnSumPowerRaises(x, ops);
  }

  function LiteralPower(c: Float): Program {
    Program(Binary(Pow, Plain("a"), Const(c)), [], None)
  }

  lemma {:induction false} TipMeasures(e: Expr, magnitude: Float -> nat)
    requires e.Const? || e.Var?
    ensures Size(e) == 1 && Depth(e) == 1 && Exponent(e, magnitude) == 0 && Visits(e) == OwnRef(e)
  {
  }

  lemma {:induction false} LiteralPowerMeasures(base: Expr, c: Float, magnitude: Float -> nat)
    requires base.Var?
    ensures var e := Binary(Pow, base, Const(c));
      Size(e) == 3 && Depth(e) == 2 && Exponent(e, magnitude) == magnitude(c) && Visits(e) == [base.ref]
  {
    TipMeasures(base, magnitude);
    TipMeasures(Const(c), magnitude);
  }

  lemma {:induction false} LiteralPowerValidExactly(c: Float, value: Float -> real)
    ensures Analysis.Valid(LiteralPower(c), Magnitude(value)) <==> Admitted(value(c))
  {
    var e := LiteralPower(c).output;
    SingleRoot(e, Magnitude(value));
    AdmittedExactly(value, c);
    LiteralPowerMeasures(Plain("a"), c, Magnitude(value));
    assert Unambiguous(Visits(e), []) by { assert Declared([], "a") == None; }
    assert Limited(e, Magnitude(value)) <==> Admitted(value(c));
  }

  lemma {:induction false} LiteralPowerRaises(c: Float, x: Float, ops: Ops)
    ensures Raised(LiteralPower(c).output, Same(x), ops) == [c]
  {
    assert Eval(Plain("a"), Same(x), ops) == Ok(Array([x])) && Eval(Const(c), Same(x), ops) == Ok(Scalar(c));
    assert Raised(Plain("a"), Same(x), ops) == [] && Raised(Const(c), Same(x), ops) == [];
  }

  /** A literal exponent passes validation exactly when its size is below 13: -12.5 and 12.5 pass, though neither is in
      [0, 12]. */
  lemma {:induction false} LiteralPasses(c: Float, value: Float -> real, x: Float, ops: Ops)
    ensures Analysis.Valid(LiteralPower(c), Magnitude(value)) <==> Admitted(value(c))
    ensures ProgramRaised(LiteralPower(c), Constantly(x), ops) == [c]
    ensures Admitted(-12.5) && !Promised(-12.5) && Admitted(12.5) && !Promised(12.5)
  {
    LiteralPowerValidExactly(c, value);
    ConstantlyIsSame(LiteralPower(c).output, [], x, ops);
    LiteralPowerRaises(c, x, ops);
  }
}

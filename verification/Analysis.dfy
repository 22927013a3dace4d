/** Declarative analysis programs: validation, and evaluation with one cached resolution per selector name. */
module Analysis {
  import opened Prelude
  import opened Json

  const MAX_NODES := 256
  const MAX_DEPTH := 32
  const MAX_SELECTORS := 8
  const MAX_EXPONENT := 12
  const MAX_POINTS_OUT := 4096

  datatype Iteration = At(index: int) | Tagged(tag: string)

  /** A named selector; absent attributes are left to the declaration, then to the name alone. */
  datatype Ref = Ref(name: string, record: Option<string>, component: Option<string>, iteration: Option<Iteration>)

  datatype BinaryOp = Add | Sub | Mul | Div | Pow
  datatype UnaryOp = Neg | Abs | Sqrt | Log | Exp | Sin | Cos | Tanh | Sign
  datatype ReduceOp =
    | Sum | Mean | Std | Minimum | Maximum | Median | Argmax | Argmin | Quantile
    | Histogram | FftPeak | FftFreq

  datatype Expr =
    | Const(value: Float)
    | Var(ref: Ref)
    | Binary(bop: BinaryOp, left: Expr, right: Expr)
    | Unary(uop: UnaryOp, operand: Expr)
    | Reduce(rop: ReduceOp, operand: Expr, q: Option<real>, bins: Option<int>)

  datatype Program = Program(output: Expr, selectors: seq<Ref>, points: Option<Expr>)

  function Roots(p: Program): seq<Expr> {
    [p.output] + if p.points.Some? then [p.points.value] else []
  }

  // ---------------------------------------------------------------------------
  // References of an expression

  predicate Occurs(r: Ref, e: Expr) {
    match e
    case Const(_) => false
    case Var(ref) => r == ref
    case Binary(_, left, right) => Occurs(r, left) || Occurs(r, right)
    case Unary(_, operand) => Occurs(r, operand)
    case Reduce(_, operand, _, _) => Occurs(r, operand)
  }

  /** In the order the work stacks meet them: the right operand is popped first. */
  function Visits(e: Expr): seq<Ref> {
    match e
    case Const(_) => []
    case Var(ref) => [ref]
    case Binary(_, left, right) => Visits(right) + Visits(left)
    case Unary(_, operand) => Visits(operand)
    case Reduce(_, operand, _, _) => Visits(operand)
  }

  lemma {:induction false} VisitsAreOccurrences(e: Expr, r: Ref)
    ensures r in Visits(e) <==> Occurs(r, e)
  {
    match e
    case Binary(_, left, right) =>
      VisitsAreOccurrences(left, r);
      VisitsAreOccurrences(right, r);
    case Unary(_, operand) => VisitsAreOccurrences(operand, r);
    case Reduce(_, operand, _, _) => VisitsAreOccurrences(operand, r);
    case _ =>
  }

  function Children(e: Expr): seq<Expr> {
    match e
    case Const(_) | Var(_) => []
    case Binary(_, left, right) => [left, right]
    case Unary(_, operand) => [operand]
    case Reduce(_, operand, _, _) => [operand]
  }

  function Size(e: Expr): nat {
    match e
    case Const(_) | Var(_) => 1
    case Binary(_, left, right) => 1 + Size(left) + Size(right)
    case Unary(_, operand) => 1 + Size(operand)
    case Reduce(_, operand, _, _) => 1 + Size(operand)
  }

  function StackVisits(stack: seq<Expr>): seq<Ref>
    decreases |stack|
  {
    if stack == [] then [] else Visits(stack[|stack| - 1]) + StackVisits(stack[..|stack| - 1])
  }

  function StackSize(stack: seq<Expr>): nat
    decreases |stack|
  {
    if stack == [] then 0 else Size(stack[|stack| - 1]) + StackSize(stack[..|stack| - 1])
  }

  lemma PopVisits(rest: seq<Expr>, e: Expr)
    ensures StackVisits(rest + [e]) == Visits(e) + StackVisits(rest)
    ensures StackSize(rest + [e]) == Size(e) + StackSize(rest)
  {
    assert (rest + [e])[..|rest|] == rest;
  }

  lemma PushVisits(rest: seq<Expr>, e: Expr)
    ensures StackVisits(rest + Children(e)) == (if e.Var? then [] else Visits(e)) + StackVisits(rest)
    ensures StackSize(rest + Children(e)) == Size(e) - 1 + StackSize(rest)
  {
    match e
    case Const(_) | Var(_) => assert rest + Children(e) == rest;
    case Binary(_, left, right) =>
      PopVisits(rest, left);
      PopVisits(rest + [left], right);
      assert rest + Children(e) == (rest + [left]) + [right];
      assert Visits(right) + (Visits(left) + StackVisits(rest)) == (Visits(right) + Visits(left)) + StackVisits(rest);
    case Unary(_, operand) => PopVisits(rest, operand);
    case Reduce(_, operand, _, _) => PopVisits(rest, operand);
  }

  function OwnRef(e: Expr): seq<Ref> {
    if e.Var? then [e.ref] else []
  }

  /** Popping a node, taking its own reference and pushing its children changes nothing that is still to come. */
  lemma StackStep(met: seq<Ref>, rest: seq<Expr>, e: Expr, all: seq<Ref>)
    requires met + StackVisits(rest + [e]) == all
    ensures met + OwnRef(e) + StackVisits(rest + Children(e)) == all
      && StackSize(rest + Children(e)) < StackSize(rest + [e])
  {
    StackMove(rest, e);
    var more := StackVisits(rest + Children(e));
    Associates(met, OwnRef(e), more);
  }

  lemma StackMove(rest: seq<Expr>, e: Expr)
    ensures OwnRef(e) + StackVisits(rest + Children(e)) == StackVisits(rest + [e])
    ensures StackSize(rest + Children(e)) < StackSize(rest + [e])
  {
    PopVisits(rest, e);
    PushVisits(rest, e);
  }

  lemma Associates(a: seq<Ref>, b: seq<Ref>, c: seq<Ref>)
    ensures a + (b + c) == a + b + c
  {
  }

  /** `_iter_var_refs`: a work stack. */
  method IterVarRefs(e: Expr) returns (refs: seq<Ref>)
    ensures refs == Visits(e)
  {
    refs := [];
    var stack := [e];
    assert StackVisits([e]) == Visits(e) by { PopVisits([], e); assert [] + [e] == [e]; }
    while stack != []
      invariant refs + StackVisits(stack) == Visits(e)
      decreases StackSize(stack)
    {
      var current, rest := stack[|stack| - 1], stack[..|stack| - 1];
      assert stack == rest + [current];
      StackStep(refs, rest, current, Visits(e));
      refs := refs + OwnRef(current);
      stack := rest + Children(current);
    }
  }

  /** The first reference of each name, in order. */
  function FirstSeen(rs: seq<Ref>): (r: seq<Ref>)
    decreases |rs|
  {
    if rs == [] then []
    else
      var before := FirstSeen(rs[..|rs| - 1]);
      if Mentions(before, rs[|rs| - 1].name) then before else before + [rs[|rs| - 1]]
  }

  predicate Mentions(rs: seq<Ref>, name: string) {
    exists i :: 0 <= i < |rs| && rs[i].name == name
  }

  /** `_selector_refs`: the same walk, keeping the first reference of each name. */
  method SelectorRefs(e: Expr) returns (refs: seq<Ref>)
    ensures refs == FirstSeen(Visits(e))
  {
    refs := [];
    ghost var met: seq<Ref> := [];
    var stack := [e];
    assert StackVisits([e]) == Visits(e) by { PopVisits([], e); assert [] + [e] == [e]; }
    while stack != []
      invariant met + StackVisits(stack) == Visits(e) && refs == FirstSeen(met)
      decreases StackSize(stack)
    {
      var current, rest := stack[|stack| - 1], stack[..|stack| - 1];
      assert stack == rest + [current];
      StackStep(met, rest, current, Visits(e));
      KeepFirst(met, current);
      if current.Var? && !Mentions(refs, current.ref.name) { refs := refs + [current.ref]; }
      met := met + OwnRef(current);
      stack := rest + Children(current);
    }
    assert met + [] == met;
  }

  lemma KeepFirst(met: seq<Ref>, e: Expr)
    ensures FirstSeen(met + OwnRef(e)) ==
      FirstSeen(met) + if e.Var? && !Mentions(FirstSeen(met), e.ref.name) then [e.ref] else []
  {
    if e.Var? { assert (met + [e.ref])[..|met|] == met; } else { assert met + [] == met; }
  }

  /** Every name met is kept once, by a reference that was met. */
  lemma {:induction false} FirstSeenNames(rs: seq<Ref>)
    ensures forall r :: r in rs ==> Mentions(FirstSeen(rs), r.name)
    ensures forall r :: r in FirstSeen(rs) ==> r in rs
    ensures forall i, j :: 0 <= i < j < |FirstSeen(rs)| ==> FirstSeen(rs)[i].name != FirstSeen(rs)[j].name
    decreases |rs|
  {
    if rs != [] {
      var init, last := rs[..|rs| - 1], rs[|rs| - 1];
      FirstSeenNames(init);
      var before, after := FirstSeen(init), FirstSeen(rs);
      assert rs == init + [last];
      forall r | r in rs ensures Mentions(after, r.name) {
        if r in init {
          var i :| 0 <= i < |before| && before[i].name == r.name;
          assert after[i].name == r.name;
        } else if after != before {
          assert after[|before|].name == r.name;
        }
      }
      assert forall i :: 0 <= i < |before| ==> after[i] == before[i];
    }
  }

  // ---------------------------------------------------------------------------
  // Validation

  predicate UniqueNames(rs: seq<Ref>) {
    forall i, j :: 0 <= i < j < |rs| ==> rs[i].name != rs[j].name
  }

  /** `_selector_cap`. */
  method SelectorCap(selectors: seq<Ref>) returns (ok: bool)
    ensures ok <==> |selectors| <= MAX_SELECTORS && UniqueNames(selectors)
  {
    if |selectors| > MAX_SELECTORS { return false; }
    var seen: set<string> := {};
    for i := 0 to |selectors|
      invariant seen == set k | 0 <= k < i :: selectors[k].name
      invariant UniqueNames(selectors[..i])
    {
      if selectors[i].name in seen {
        ghost var k :| 0 <= k < i && selectors[k].name == selectors[i].name;
        return false;
      }
      seen := seen + {selectors[i].name};
    }
    assert selectors[..|selectors|] == selectors;
    return true;
  }

  function Declared(selectors: seq<Ref>, name: string): Option<Ref>
    decreases |selectors|
  {
    if selectors == [] then None
    else if selectors[|selectors| - 1].name == name then Some(selectors[|selectors| - 1])
    else Declared(selectors[..|selectors| - 1], name)
  }

  predicate Differ<T(==)>(a: Option<T>, b: Option<T>) {
    a.Some? && b.Some? && a != b
  }

  /** A reference attribute contradicts the declaration of its name. */
  predicate Contradicts(r: Ref, selectors: seq<Ref>) {
    var d := Declared(selectors, r.name);
    d.Some? && (Differ(r.record, d.value.record) || Differ(r.component, d.value.component)
      || Differ(r.iteration, d.value.iteration))
  }

  /** Names being unique, the declaration of a name is the one of that name. */
  lemma {:induction false} DeclaredIsTheOne(selectors: seq<Ref>, name: string, d: Ref)
    requires UniqueNames(selectors)
    ensures Declared(selectors, name) == Some(d) <==> d in selectors && d.name == name
    decreases |selectors|
  {
    if selectors != [] {
      var init, last := selectors[..|selectors| - 1], selectors[|selectors| - 1];
      DeclaredIsTheOne(init, name, d);
      assert selectors == init + [last];
      if d in init { assert d.name != last.name; }
    }
  }

  /** A reference is refused exactly when it and a declaration of its name both give some attribute, differently. */
  lemma {:induction false} ContradictsExactly(r: Ref, selectors: seq<Ref>)
    requires UniqueNames(selectors)
    ensures Contradicts(r, selectors) <==>
      exists d :: d in selectors && d.name == r.name
        && ((r.record.Some? && d.record.Some? && r.record.value != d.record.value)
            || (r.component.Some? && d.component.Some? && r.component.value != d.component.value)
            || (r.iteration.Some? && d.iteration.Some? && r.iteration.value != d.iteration.value))
  {
    forall d ensures Declared(selectors, r.name) == Some(d) <==> d in selectors && d.name == r.name {
      DeclaredIsTheOne(selectors, r.name, d);
    }
    var d := Declared(selectors, r.name);
    if d.Some? { assert d.value in selectors; }
  }

  predicate Agree(rs: seq<Ref>) {
    forall i, j :: 0 <= i < j < |rs| && rs[i].name == rs[j].name ==> rs[i] == rs[j]
  }

  function AllVisits(es: seq<Expr>): seq<Ref>
    decreases |es|
  {
    if es == [] then [] else AllVisits(es[..|es| - 1]) + Visits(es[|es| - 1])
  }

  ghost predicate Unambiguous(rs: seq<Ref>, selectors: seq<Ref>) {
    Agree(rs) && forall r :: r in rs ==> !Contradicts(r, selectors)
  }

  /** `seen` holds a met reference for exactly the names met. */
  ghost predicate Recorded(met: seq<Ref>, seen: map<string, Ref>) {
    && (forall n :: n in seen ==> seen[n].name == n && seen[n] in met)
    && (forall r :: r in met ==> r.name in seen && seen[r.name] == r)
  }

  /** Both conflict checks on one reference, against those met before it. */
  lemma ConflictExactly(met: seq<Ref>, seen: map<string, Ref>, selectors: seq<Ref>, r: Ref)
    requires Unambiguous(met, selectors) && Recorded(met, seen)
    ensures var bad := Contradicts(r, selectors) || (r.name in seen && seen[r.name] != r);
      if bad then !Unambiguous(met + [r], selectors)
      else Unambiguous(met + [r], selectors) && Recorded(met + [r], if r.name in seen then seen else seen[r.name := r])
  {
    var all := met + [r];
    assert all[|met|] == r && r in all;
    if r.name in seen && seen[r.name] != r {
      var k :| 0 <= k < |met| && met[k] == seen[r.name];
      assert all[k] == met[k];
    } else {
      assert forall x :: x in all <==> x in met || x == r;
      forall i, j | 0 <= i < j < |all| && all[i].name == all[j].name ensures all[i] == all[j] { }
    }
  }

  lemma AmbiguityGrows(a: seq<Ref>, b: seq<Ref>, selectors: seq<Ref>)
    requires a <= b && !Unambiguous(a, selectors)
    ensures !Unambiguous(b, selectors)
  {
    assert forall i :: 0 <= i < |a| ==> a[i] == b[i];
  }

  lemma {:induction false} VisitsPrefix(roots: seq<Expr>, i: nat)
    requires i <= |roots|
    ensures AllVisits(roots[..i]) <= AllVisits(roots)
    decreases |roots|
  {
    if i == |roots| {
      assert roots[..i] == roots;
    } else {
      assert roots[..|roots| - 1][..i] == roots[..i];
      VisitsPrefix(roots[..|roots| - 1], i);
    }
  }

  /** One expression's references, against the declarations and those met before. */
  method CheckExpression(e: Expr, selectors: seq<Ref>, seen: map<string, Ref>, ghost met: seq<Ref>)
      returns (ok: bool, seen': map<string, Ref>)
    requires Unambiguous(met, selectors) && Recorded(met, seen)
    ensures ok <==> Unambiguous(met + Visits(e), selectors)
    ensures ok ==> Recorded(met + Visits(e), seen')
  {
    seen' := seen;
    var refs := IterVarRefs(e);
    assert met + refs[..0] == met;
    for j := 0 to |refs|
      invariant Unambiguous(met + refs[..j], selectors) && Recorded(met + refs[..j], seen')
    {
      var ref := refs[j];
      ConflictExactly(met + refs[..j], seen', selectors, ref);
      assert (met + refs[..j]) + [ref] == met + refs[..j + 1];
      if Contradicts(ref, selectors) || (ref.name in seen' && seen'[ref.name] != ref) {
        AmbiguityGrows(met + refs[..j + 1], met + refs, selectors);
        return false, seen';
      }
      if ref.name !in seen' { seen' := seen'[ref.name := ref]; }
    }
    assert refs[..|refs|] == refs;
    return true, seen';
  }

  /** `_reject_attribute_conflicts`: references are compared with the declaration of their name and with the first
      reference of their name in the whole program. */
  method RejectAttributeConflicts(p: Program) returns (ok: bool)
    ensures ok <==> Unambiguous(AllVisits(Roots(p)), p.selectors)
  {
    var seen: map<string, Ref> := map[];
    var roots := Roots(p);
    for i := 0 to |roots|
      invariant Unambiguous(AllVisits(roots[..i]), p.selectors) && Recorded(AllVisits(roots[..i]), seen)
    {
      assert roots[..i + 1][..i] == roots[..i];
      ok, seen := CheckExpression(roots[i], p.selectors, seen, AllVisits(roots[..i]));
      if !ok {
        VisitsPrefix(roots, i + 1);
        AmbiguityGrows(AllVisits(roots[..i + 1]), AllVisits(roots), p.selectors);
        return false;
      }
    }
    assert roots[..|roots|] == roots;
    return true;
  }

  /** Depth of the deepest node, the root being at depth 1. */
  function Depth(e: Expr): nat {
    match e
    case Const(_) | Var(_) => 1
    case Binary(_, left, right) => 1 + MaxNat(Depth(left), Depth(right))
    case Unary(_, operand) => 1 + Depth(operand)
    case Reduce(_, operand, _, _) => 1 + Depth(operand)
  }

  /** The largest literal exponent; an exponent that is not a literal counts as nothing. */
  function Exponent(e: Expr, magnitude: Float -> nat): nat {
    match e
    case Const(_) | Var(_) => 0
    case Binary(op, left, right) =>
      var own := if op == Pow && right.Const? then magnitude(right.value) else 0;
      MaxNat(own, MaxNat(Exponent(left, magnitude), Exponent(right, magnitude)))
    case Unary(_, operand) => Exponent(operand, magnitude)
    case Reduce(_, operand, _, _) => Exponent(operand, magnitude)
  }

  /** `_measure`: one recursion with a depth accumulator. */
  method Measure(e: Expr, depth: nat, magnitude: Float -> nat) returns (count: nat, deepest: nat, exponent: nat)
    requires depth > 0
    ensures count == Size(e) && deepest == depth - 1 + Depth(e) && exponent == Exponent(e, magnitude)
    decreases e
  {
    count, deepest := 1, depth;
    exponent := if e.Binary? && e.bop == Pow && e.right.Const? then magnitude(e.right.value) else 0;
    match e {
      case Const(_) | Var(_) =>
      case Binary(_, left, right) =>
        var n, d, x := Measure(left, depth + 1, magnitude);
        count, deepest, exponent := count + n, MaxNat(deepest, d), MaxNat(exponent, x);
        n, d, x := Measure(right, depth + 1, magnitude);
        count, deepest, exponent := count + n, MaxNat(deepest, d), MaxNat(exponent, x);
      case Unary(_, operand) =>
        var n, d, x := Measure(operand, depth + 1, magnitude);
        count, deepest, exponent := count + n, MaxNat(deepest, d), MaxNat(exponent, x);
      case Reduce(_, operand, _, _) =>
        var n, d, x := Measure(operand, depth + 1, magnitude);
        count, deepest, exponent := count + n, MaxNat(deepest, d), MaxNat(exponent, x);
    }
  }

  function TotalSize(es: seq<Expr>): nat
    decreases |es|
  {
    if es == [] then 0 else TotalSize(es[..|es| - 1]) + Size(es[|es| - 1])
  }

  predicate Limited(e: Expr, magnitude: Float -> nat) {
    Depth(e) <= MAX_DEPTH && Exponent(e, magnitude) <= MAX_EXPONENT
  }

  ghost predicate Valid(p: Program, magnitude: Float -> nat) {
    && |p.selectors| <= MAX_SELECTORS && UniqueNames(p.selectors)
    && TotalSize(Roots(p)) <= MAX_NODES
    && (forall e :: e in Roots(p) ==> Limited(e, magnitude))
    && Unambiguous(AllVisits(Roots(p)), p.selectors)
  }

  lemma {:induction false} TotalSizeGrows(es: seq<Expr>, i: nat)
    requires i <= |es|
    ensures TotalSize(es[..i]) <= TotalSize(es)
    decreases |es|
  {
    if i == |es| {
      assert es[..i] == es;
    } else {
      assert es[..|es| - 1][..i] == es[..i];
      TotalSizeGrows(es[..|es| - 1], i);
    }
  }

  /** `_selector_cap` and `_enforce_limits`: the running node total may stop the loop at any expression, but the verdict
      is that of the whole program. */
  method Validate(p: Program, magnitude: Float -> nat) returns (ok: bool)
    ensures ok <==> Valid(p, magnitude)
  {
    ok := SelectorCap(p.selectors);
    if !ok { return false; }
    var roots, nodes := Roots(p), 0;
    for i := 0 to |roots|
      invariant nodes == TotalSize(roots[..i]) && nodes <= MAX_NODES
      invariant forall k :: 0 <= k < i ==> Limited(roots[k], magnitude)
    {
      assert roots[..i + 1][..i] == roots[..i];
      var count, depth, exponent := Measure(roots[i], 1, magnitude);
      nodes := nodes + count;
      if nodes > MAX_NODES || depth > MAX_DEPTH || exponent > MAX_EXPONENT {
        TotalSizeGrows(roots, i + 1);
        assert roots[i] in roots;
        return false;
      }
    }
    assert roots[..|roots|] == roots;
    ok := RejectAttributeConflicts(p);
  }
}

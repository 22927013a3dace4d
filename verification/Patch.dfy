/** The dotted-path patch of a JSON specification, and the duplicate check over patched specifications. */
module Patch {
  import opened Prelude
  import opened Json

  /** One place in an object or a list. */
  datatype Step = AtKey(key: string) | AtIndex(index: nat)

  predicate IsDigits(s: string) {
    s != "" && forall i :: 0 <= i < |s| ==> '0' <= s[i] <= '9'
  }

  function Number(digits: string): int
    requires forall i :: 0 <= i < |digits| ==> '0' <= digits[i] <= '9'
  {
    if digits == "" then 0 else Number(digits[..|digits| - 1]) * 10 + (digits[|digits| - 1] as int - '0' as int)
  }

  /** The integer a segment spells: an optional minus sign and decimal digits. */
  function ListIndex(part: string): Option<int> {
    if IsDigits(part) then Some(Number(part))
    else if part != "" && part[0] == '-' && IsDigits(part[1..]) then Some(-Number(part[1..]))
    else None
  }

  /** The element of a list of `n` a segment addresses; negative indices count from the end. */
  function Position(part: string, n: nat): Option<nat> {
    var i := ListIndex(part);
    if i.None? || i.value + n < 0 || i.value >= n then None
    else if i.value < 0 then Some(n + i.value) else Some(i.value)
  }

  /** How a number is written. */
  function Decimal(k: nat): (s: string)
    ensures IsDigits(s)
  {
    (if k < 10 then "" else Decimal(k / 10)) + [(k % 10 + '0' as int) as char]
  }

  lemma {:induction false} DecimalReadsBack(k: nat)
    ensures Number(Decimal(k)) == k
  {
    var s := Decimal(k);
    var init := if k < 10 then "" else Decimal(k / 10);
    assert s[..|s| - 1] == init;
    if k >= 10 { DecimalReadsBack(k / 10); }
  }

  /** In a list of `n`, "k" addresses element k and "-k" the element k from the end; beyond either end there is none. */
  lemma IndicesCountFromTheEnd(k: nat, n: nat)
    ensures Position(Decimal(k), n) == if k < n then Some(k) else None
    ensures k > 0 ==> Position("-" + Decimal(k), n) == if k <= n then Some(n - k) else None
  {
    DecimalReadsBack(k);
    var minus := "-" + Decimal(k);
    assert minus[0] == '-' && minus[1..] == Decimal(k);
  }

  /** Nothing else addresses an element: only digits, perhaps behind one minus sign, do. */
  lemma OnlyNumbersAddress(part: string, n: nat)
    requires Position(part, n).Some?
    ensures part != "" && forall i :: 0 <= i < |part| ==>
      '0' <= part[i] <= '9' || (i == 0 && |part| > 1 && part[i] == '-')
  {
    if !IsDigits(part) {
      assert forall i :: 0 < i < |part| ==> part[i] == part[1..][i - 1];
    }
  }

  /** The current node, not the spelling, decides what a segment means. */
  function StepOf(v: Value, part: string): Option<Step> {
    match v
    case Obj(o) => if part in o then Some(AtKey(part)) else None
    case Arr(xs) => var i := Position(part, |xs|); if i.Some? then Some(AtIndex(i.value)) else None
    case _ => None
  }

  function Child(v: Value, s: Step): Option<Value> {
    match (v, s)
    case (Obj(o), AtKey(k)) => if k in o then Some(o[k]) else None
    case (Arr(xs), AtIndex(i)) => if i < |xs| then Some(xs[i]) else None
    case _ => None
  }

  /** The value at a location. */
  function At(v: Value, steps: seq<Step>): Option<Value>
    decreases |steps|
  {
    if steps == [] then Some(v)
    else
      var c := Child(v, steps[0]);
      if c.None? then None else At(c.value, steps[1..])
  }

  /** The location a path addresses in `v`. */
  function Locate(v: Value, parts: seq<string>): Option<seq<Step>>
    decreases |parts|
  {
    if parts == [] then Some([])
    else
      var s := StepOf(v, parts[0]);
      if s.None? then None
      else
        var rest := Locate(Child(v, s.value).value, parts[1..]);
        if rest.None? then None else Some([s.value] + rest.value)
  }

  /** The value at the end of a path. */
  function Look(v: Value, parts: seq<string>): Option<Value> {
    var steps := Locate(v, parts);
    if steps.None? then None else At(v, steps.value)
  }

  // ---------------------------------------------------------------------------
  // The two walks

  predicate Node(v: Value) {
    v.Obj? || v.Arr?
  }

  /** `_leaf_target_exists`: a cursor follows the path; the last segment must name a present key or an element. */
  method LeafTargetExists(spec: Value, parts: seq<string>) returns (exists_: bool)
    requires parts != []
    ensures exists_ <==> Locate(spec, parts).Some?
  {
    var node := spec;
    for i := 0 to |parts| - 1
      invariant Locate(spec, parts).Some? <==> Locate(node, parts[i..]).Some?
    {
      var part := parts[i];
      assert parts[i..][0] == part && parts[i..][1..] == parts[i + 1..] && parts[i + 1..] != [];
      var child := Null;
      if node.Obj? {
        if part in node.fields { child := node.fields[part]; }
      } else if node.Arr? && ListIndex(part).Some? {
        var index := ListIndex(part).value;
        if -|node.items| <= index < |node.items| {
          child := node.items[if index < 0 then |node.items| + index else index];
        }
      } else {
        return false;
      }
      if !Node(child) { return false; }
      node := child;
    }
    var last := parts[|parts| - 1];
    assert parts[|parts| - 1..] == [last];
    match node {
      case Obj(o) => return last in o;
      case Arr(xs) =>
        if ListIndex(last).None? { return false; }
        return -|xs| <= ListIndex(last).value < |xs|;
      case _ => return false;
    }
  }

  datatype Error = NoObject | NoNumericIndex | OutOfRange
  datatype Result = Ok(value: Value) | Err(error: Error)

  /** `_patch_child` on one intermediate segment: in an object the child must itself be a node; a list element need
      not. */
  function PatchChild(v: Value, part: string): Result {
    match v
    case Obj(o) => if part in o && Node(o[part]) then Ok(o[part]) else Err(NoObject)
    case Arr(xs) =>
      if ListIndex(part).None? then Err(NoNumericIndex)
      else if Position(part, |xs|).None? then Err(OutOfRange)
      else Ok(xs[Position(part, |xs|).value])
    case _ => Err(NoObject)
  }

  function Replace(v: Value, s: Step, x: Value): Value {
    match (v, s)
    case (Obj(o), AtKey(k)) => Obj(o[k := x])
    case (Arr(xs), AtIndex(i)) => if i < |xs| then Arr(xs[i := x]) else v
    case _ => v
  }

  /** `_patch_spec`.  The last segment of an object may be a new key; that is what the target check is for. */
  function PatchSpec(v: Value, parts: seq<string>, x: Value): Result
    requires parts != []
    decreases |parts|
  {
    if |parts| == 1 then
      match v
      case Obj(o) => Ok(Replace(v, AtKey(parts[0]), x))
      case Arr(xs) =>
        if ListIndex(parts[0]).None? then Err(NoNumericIndex)
        else if Position(parts[0], |xs|).None? then Err(OutOfRange)
        else Ok(Replace(v, AtIndex(Position(parts[0], |xs|).value), x))
      case _ => Err(NoObject)
    else
      var child := PatchChild(v, parts[0]);
      if child.Err? then child
      else
        var patched := PatchSpec(child.value, parts[1..], x);
        if patched.Err? then patched else Ok(Replace(v, StepOf(v, parts[0]).value, patched.value))
  }

  // ---------------------------------------------------------------------------
  // Lens laws

  /** Writing at a location. */
  function Put(v: Value, steps: seq<Step>, x: Value): Value
    decreases |steps|
  {
    if steps == [] then x
    else
      var c := Child(v, steps[0]);
      if c.None? then v else Replace(v, steps[0], Put(c.value, steps[1..], x))
  }

  lemma {:induction false} LocatedIsThere(v: Value, parts: seq<string>)
    requires Locate(v, parts).Some?
    ensures At(v, Locate(v, parts).value).Some? && |Locate(v, parts).value| == |parts|
    decreases |parts|
  {
    if parts != [] {
      var s := StepOf(v, parts[0]).value;
      LocatedIsThere(Child(v, s).value, parts[1..]);
      assert Locate(v, parts).value[1..] == Locate(Child(v, s).value, parts[1..]).value;
    }
  }

  /** If the target exists the patch never raises, and it is the write at that location. */
  lemma {:induction false} PatchIsPut(v: Value, parts: seq<string>, x: Value)
    requires parts != [] && Locate(v, parts).Some?
    ensures PatchSpec(v, parts, x) == Ok(Put(v, Locate(v, parts).value, x))
    decreases |parts|
  {
    var s := StepOf(v, parts[0]).value;
    var c := Child(v, s).value;
    assert Locate(v, parts).value[1..] == Locate(c, parts[1..]).value;
    if |parts| > 1 {
      assert Node(c) by { assert StepOf(c, parts[1..][0]).Some?; }
      PatchIsPut(c, parts[1..], x);
    } else {
      assert Locate(c, parts[1..]) == Some([]);
    }
  }

  lemma {:induction false} PutThenAt(v: Value, steps: seq<Step>, x: Value)
    requires At(v, steps).Some?
    ensures At(Put(v, steps, x), steps) == Some(x)
    decreases |steps|
  {
    if steps != [] { PutThenAt(Child(v, steps[0]).value, steps[1..], x); }
  }

  lemma {:induction false} PutBack(v: Value, steps: seq<Step>)
    requires At(v, steps).Some?
    ensures Put(v, steps, At(v, steps).value) == v
    decreases |steps|
  {
    if steps != [] {
      var c := Child(v, steps[0]).value;
      PutBack(c, steps[1..]);
      match v
      case Obj(o) => assert o[steps[0].key := c] == o;
      case Arr(xs) => assert xs[steps[0].index := c] == xs;
      case _ =>
    }
  }

  lemma {:induction false} PutTwice(v: Value, steps: seq<Step>, x: Value, y: Value)
    requires At(v, steps).Some?
    ensures Put(Put(v, steps, x), steps, y) == Put(v, steps, y)
    decreases |steps|
  {
    if steps != [] {
      var c := Child(v, steps[0]).value;
      PutTwice(c, steps[1..], x, y);
      var p := Put(c, steps[1..], x);
      assert Child(Replace(v, steps[0], p), steps[0]) == Some(p);
      match v
      case Obj(o) => assert o[steps[0].key := p][steps[0].key := Put(c, steps[1..], y)]
        == o[steps[0].key := Put(c, steps[1..], y)];
      case Arr(xs) => assert xs[steps[0].index := p][steps[0].index := Put(c, steps[1..], y)]
        == xs[steps[0].index := Put(c, steps[1..], y)];
      case _ =>
    }
  }

  /** Two locations part ways before either ends. */
  predicate Diverge(a: seq<Step>, b: seq<Step>)
    decreases |a|
  {
    a != [] && b != [] && (a[0] != b[0] || Diverge(a[1..], b[1..]))
  }

  lemma {:induction false} PutElsewhere(v: Value, steps: seq<Step>, x: Value, other: seq<Step>)
    requires At(v, steps).Some? && Diverge(steps, other)
    ensures At(Put(v, steps, x), other) == At(v, other)
    decreases |steps|
  {
    var c := Child(v, steps[0]).value;
    if steps[0] == other[0] {
      PutElsewhere(c, steps[1..], x, other[1..]);
      assert Child(Put(v, steps, x), other[0]) == Some(Put(c, steps[1..], x));
    } else {
      assert Child(Put(v, steps, x), other[0]) == Child(v, other[0]);
    }
  }

  /** The same kind of node with the same keys, or of the same length. */
  predicate SameFrame(v: Value, w: Value) {
    match (v, w)
    case (Obj(o), Obj(p)) => o.Keys == p.Keys
    case (Arr(xs), Arr(ys)) => |xs| == |ys|
    case _ => false
  }

  lemma {:induction false} PutKeepsFrames(v: Value, steps: seq<Step>, x: Value, n: nat)
    requires At(v, steps).Some? && n < |steps|
    ensures At(v, steps[..n]).Some? && At(Put(v, steps, x), steps[..n]).Some?
    ensures SameFrame(At(v, steps[..n]).value, At(Put(v, steps, x), steps[..n]).value)
    decreases |steps|
  {
    var c := Child(v, steps[0]).value;
    if n > 0 {
      PutKeepsFrames(c, steps[1..], x, n - 1);
      assert steps[..n][1..] == steps[1..][..n - 1];
      assert Child(Put(v, steps, x), steps[0]) == Some(Put(c, steps[1..], x));
    }
  }

  lemma {:induction false} PutKeepsLocation(v: Value, parts: seq<string>, x: Value)
    requires Locate(v, parts).Some?
    ensures Locate(Put(v, Locate(v, parts).value, x), parts) == Locate(v, parts)
    decreases |parts|
  {
    if parts != [] {
      var steps := Locate(v, parts).value;
      var s := StepOf(v, parts[0]).value;
      var c := Child(v, s).value;
      LocatedIsThere(v, parts);
      assert steps[1..] == Locate(c, parts[1..]).value;
      PutKeepsLocation(c, parts[1..], x);
      var p := Put(c, steps[1..], x);
      assert StepOf(Replace(v, s, p), parts[0]) == Some(s) && Child(Replace(v, s, p), s) == Some(p);
    }
  }

  /** When the target exists the patch succeeds and is a lawful lens on it: it reads back, writing back what was there
      changes nothing, a second patch overrides the first; every other location is unchanged and no object on the path
      gains or loses a key, no list an element. */
  lemma {:induction false} PatchIsALens(v: Value, parts: seq<string>, x: Value, y: Value)
    requires parts != [] && Locate(v, parts).Some?
    ensures PatchSpec(v, parts, x).Ok?
    ensures var w := PatchSpec(v, parts, x).value;
      && Look(w, parts) == Some(x)
      && Look(v, parts).Some? && PatchSpec(v, parts, Look(v, parts).value) == Ok(v)
      && PatchSpec(w, parts, y) == PatchSpec(v, parts, y)
      && (forall other :: Diverge(Locate(v, parts).value, other) ==> At(w, other) == At(v, other))
      && (forall n: nat | n < |parts| :: SameFrameAt(v, w, Locate(v, parts).value, n))
  {
    var steps := Locate(v, parts).value;
    LocatedIsThere(v, parts);
    PatchIsPut(v, parts, x);
    PatchIsPut(v, parts, y);
    var w := Put(v, steps, x);
    PutKeepsLocation(v, parts, x);
    PutThenAt(v, steps, x);
    PatchIsPut(v, parts, Look(v, parts).value);
    PutBack(v, steps);
    PatchIsPut(w, parts, y);
    PutTwice(v, steps, x, y);
    forall other | Diverge(steps, other) ensures At(w, other) == At(v, other) { PutElsewhere(v, steps, x, other); }
    forall n: nat | n < |parts| ensures SameFrameAt(v, w, steps, n) { PutKeepsFrames(v, steps, x, n); }
  }

  predicate SameFrameAt(v: Value, w: Value, steps: seq<Step>, n: nat) {
    n <= |steps| && At(v, steps[..n]).Some? && At(w, steps[..n]).Some?
      && SameFrame(At(v, steps[..n]).value, At(w, steps[..n]).value)
  }

  /** Without the check the patch succeeds in one more case exactly: the last segment is a key its object lacks, and
      then that object gains it. */
  lemma {:induction false} PatchSucceedsExactly(v: Value, parts: seq<string>, x: Value)
    requires parts != []
    ensures PatchSpec(v, parts, x).Ok? <==> Locate(v, parts).Some? || LacksOnlyLast(v, parts)
    decreases |parts|
  {
    if |parts| == 1 {
      if StepOf(v, parts[0]).Some? { assert Locate(Child(v, StepOf(v, parts[0]).value).value, parts[1..]) == Some([]); }
    } else {
      var init, rest := parts[..|parts| - 1], parts[1..];
      if PatchChild(v, parts[0]).Ok? {
        var c := PatchChild(v, parts[0]).value;
        var s := StepOf(v, parts[0]).value;
        assert Child(v, s) == Some(c);
        PatchSucceedsExactly(c, rest, x);
        assert init[1..] == rest[..|rest| - 1];
      } else {
        assert Locate(v, parts).None? by {
          if StepOf(v, parts[0]).Some? { assert StepOf(Child(v, StepOf(v, parts[0]).value).value, rest[0]).None?; }
        }
        if StepOf(v, parts[0]).Some? {
          var c := Child(v, StepOf(v, parts[0]).value).value;
          NoNodeBelow(c, init[1..]);
        }
      }
    }
  }

  predicate LacksOnlyLast(v: Value, parts: seq<string>)
    requires parts != []
  {
    var parent := Look(v, parts[..|parts| - 1]);
    parent.Some? && parent.value.Obj? && parts[|parts| - 1] !in parent.value.fields
  }

  lemma NoNodeBelow(c: Value, parts: seq<string>)
    requires !Node(c)
    ensures Look(c, parts).Some? ==> !Look(c, parts).value.Obj?
  {
  }

  // ---------------------------------------------------------------------------
  // Duplicates

  /** The part of a specification the cluster hashes. */
  function SimOf(spec: Value): Value {
    if spec.Obj? && "sim" in spec.fields then spec.fields["sim"] else Null
  }

  /** `_duplicate_leaf_error`: the first leaf whose payload an earlier leaf has, and that earlier leaf. */
  method DuplicateLeaf(specs: seq<Value>) returns (pair: Option<(nat, nat)>)
    ensures pair.None? <==> forall i, j :: 0 <= i < j < |specs| ==> SimOf(specs[i]) != SimOf(specs[j])
    ensures pair.Some? ==>
      pair.value.0 < pair.value.1 < |specs| && SimOf(specs[pair.value.0]) == SimOf(specs[pair.value.1])
    ensures pair.Some? ==> forall i, j :: 0 <= i < j < pair.value.1 ==> SimOf(specs[i]) != SimOf(specs[j])
  {
    var seen: map<Value, nat> := map[];
    for j := 0 to |specs|
      invariant forall s :: s in seen ==> seen[s] < j && SimOf(specs[seen[s]]) == s
      invariant forall i :: 0 <= i < j ==> SimOf(specs[i]) in seen
      invariant forall i, k :: 0 <= i < k < j ==> SimOf(specs[i]) != SimOf(specs[k])
    {
      var sim := SimOf(specs[j]);
      if sim in seen { return Some((seen[sim], j)); }
      seen := seen[sim := j];
    }
    return None;
  }

  /** Patched below `sim`, two leaves collide exactly when their values are equal; patched anywhere else, always. */
  lemma PatchedCollideExactly(v: Value, parts: seq<string>, x: Value, y: Value)
    requires parts != [] && Locate(v, parts).Some?
    ensures PatchSpec(v, parts, x).Ok? && PatchSpec(v, parts, y).Ok?
    ensures SimOf(PatchSpec(v, parts, x).value) == SimOf(PatchSpec(v, parts, y).value) <==>
      (v.Obj? && parts[0] == "sim" ==> x == y)
  {
    PatchIsALens(v, parts, x, y);
    PatchIsALens(v, parts, y, x);
    PatchIsPut(v, parts, x);
    PatchIsPut(v, parts, y);
    var steps := Locate(v, parts).value;
    LocatedIsThere(v, parts);
    var s := StepOf(v, parts[0]).value;
    var c := Child(v, s).value;
    assert steps[0] == s && steps[1..] == Locate(c, parts[1..]).value;
    if v.Obj? && parts[0] == "sim" {
      var a, b := Put(c, steps[1..], x), Put(c, steps[1..], y);
      LocatedIsThere(c, parts[1..]);
      PutThenAt(c, steps[1..], x);
      PutThenAt(c, steps[1..], y);
      assert a == b ==> x == y;
    }
  }
}

/** Fitting results into the wire budget by striding. */
module Shrink {
  import opened Prelude
  import opened Json

  const MAX_RESULT_BYTES := 48 * 1024
  const SLICE_MAX_POINTS := 4096

  // ---------------------------------------------------------------------------
  // Strides

  /** Python's `xs[::step]`. */
  function Every(xs: seq<Value>, step: nat): (r: seq<Value>)
    requires step > 0
  {
    seq((|xs| + step - 1) / step, i requires 0 <= i < (|xs| + step - 1) / step =>
      Picked(xs, i, step))
  }

  function Picked(xs: seq<Value>, i: nat, step: nat): Value
    requires step > 0 && i < (|xs| + step - 1) / step
  {
    StrideInside(|xs|, i, step);
    xs[i * step]
  }

  lemma StrideInside(n: nat, i: nat, step: nat)
    requires step > 0
    ensures i < (n + step - 1) / step <==> i * step < n
  {
    var q := (n + step - 1) / step;
    assert q * step <= n + step - 1 < q * step + step;
    if i < q { assert (i + 1) * step <= q * step; } else { assert i * step >= q * step; }
  }

  lemma EveryAt(xs: seq<Value>, step: nat, i: nat)
    requires step > 0
    ensures i < |Every(xs, step)| <==> i * step < |xs|
    ensures i < |Every(xs, step)| ==> Every(xs, step)[i] == xs[i * step]
  {
    StrideInside(|xs|, i, step);
  }

  /** Striding twice is striding once. */
  lemma EveryEvery(xs: seq<Value>, a: nat, b: nat)
    requires a > 0 && b > 0
    ensures a * b > 0 && Every(Every(xs, a), b) == Every(xs, a * b)
  {
    assert a * b > 0;
    var zs, ws := Every(Every(xs, a), b), Every(xs, a * b);
    EveryEveryAt(xs, a, b, |zs|);
    EveryEveryAt(xs, a, b, |ws|);
    forall i: nat | i < |zs| ensures zs[i] == ws[i] { EveryEveryAt(xs, a, b, i); }
  }

  lemma EveryEveryAt(xs: seq<Value>, a: nat, b: nat, i: nat)
    requires a > 0 && b > 0 && a * b > 0
    ensures var zs, ws := Every(Every(xs, a), b), Every(xs, a * b);
      (i < |zs| <==> i < |ws|) && (i < |zs| && i < |ws| ==> zs[i] == ws[i])
  {
    EveryAt(Every(xs, a), b, i);
    EveryAt(xs, a, i * b);
    EveryAt(xs, a * b, i);
    assert i * b * a == i * (a * b);
  }

  function Power2(k: nat): (p: nat)
    ensures p > 0
  {
    if k == 0 then 1 else 2 * Power2(k - 1)
  }

  // ---------------------------------------------------------------------------
  // Slices

  datatype Slice = Fits(data: seq<Value>) | TooLarge

  /** The points a slice starts from: the caller's stride, then the hard cap. */
  function Capped(data: seq<Value>, downsample: Option<int>): seq<Value> {
    var d := if downsample.Some? && downsample.value > 1 then Every(data, downsample.value) else data;
    if |d| > SLICE_MAX_POINTS then d[..SLICE_MAX_POINTS] else d
  }

  /** The loop goes on past its `j`-th stride: more than one point, and they do not fit. */
  predicate GoesOn(all: seq<Value>, size: seq<Value> -> nat, j: nat) {
    |Every(all, Power2(j))| > 1 && size(Every(all, Power2(j))) > MAX_RESULT_BYTES
  }

  /** `r` is the first power-of-two stride of `all` that fits, the `k`-th; or not even one point of it does. */
  ghost predicate FirstFit(all: seq<Value>, size: seq<Value> -> nat, k: nat, r: Slice) {
    && (forall j: nat :: j < k ==> GoesOn(all, size, j))
    && match r
       case Fits(points) => points == Every(all, Power2(k)) && size(points) <= MAX_RESULT_BYTES
       case TooLarge => |Every(all, Power2(k))| <= 1 && size(Every(all, Power2(k))) > MAX_RESULT_BYTES
  }

  lemma NextStride(all: seq<Value>, k: nat)
    ensures Every(Every(all, Power2(k)), 2) == Every(all, Power2(k + 1))
  {
    EveryEvery(all, Power2(k), 2);
    assert Power2(k) * 2 == Power2(k + 1);
  }

  /** `_cap_slice` always ends. */
  method CapSlice(data: seq<Value>, downsample: Option<int>, size: seq<Value> -> nat) returns (r: Slice)
    ensures exists k: nat :: FirstFit(Capped(data, downsample), size, k, r)
  {
    var points := data;
    if downsample.Some? && downsample.value > 1 { points := Every(points, downsample.value); }
    if |points| > SLICE_MAX_POINTS { points := points[..SLICE_MAX_POINTS]; }
    ghost var all := Capped(data, downsample);
    ghost var k: nat := 0;
    assert points == Every(all, Power2(0));
    while |points| > 1 && size(points) > MAX_RESULT_BYTES
      invariant points == Every(all, Power2(k))
      invariant forall j: nat :: j < k ==> GoesOn(all, size, j)
      decreases |points|
    {
      NextStride(all, k);
      assert GoesOn(all, size, k);
      points := Every(points, 2);
      k := k + 1;
    }
    r := if size(points) > MAX_RESULT_BYTES then TooLarge else Fits(points);
    assert FirstFit(all, size, k, r);
  }

  function Spacing(downsample: Option<int>): nat {
    if downsample.Some? && downsample.value > 1 then downsample.value else 1
  }

  /** Point `i` of any slice that is returned is point `i * d * 2^k` of the data: evenly spaced from the first. */
  lemma SliceIsEven(data: seq<Value>, downsample: Option<int>, k: nat, i: nat)
    requires i < |Every(Capped(data, downsample), Power2(k))|
    ensures var at := i * Power2(k) * Spacing(downsample);
      at < |data| && Every(Capped(data, downsample), Power2(k))[i] == data[at]
  {
    var c := Capped(data, downsample);
    EveryAt(c, Power2(k), i);
    if downsample.Some? && downsample.value > 1 { EveryAt(data, downsample.value, i * Power2(k)); }
  }

  /** The steps from point to point take `n` points of that spacing to the end of the data. */
  predicate Reaches(data: seq<Value>, n: nat, power: nat, d: nat) {
    n * power * d >= |data|
  }

  lemma Doubled(x: nat, y: nat)
    ensures 2 * x * y == 2 * (x * y)
  {
  }

  lemma {:induction false} Power2Adds(a: nat, b: nat)
    ensures Power2(a) * Power2(b) == Power2(a + b)
  {
    if a > 0 {
      Power2Adds(a - 1, b);
      Doubled(Power2(a - 1), Power2(b));
    }
  }

  lemma {:induction false} Power2Grows(a: nat, b: nat)
    requires a < b
    ensures Power2(a) < Power2(b)
  {
    if a + 1 < b { Power2Grows(a, b - 1); }
  }

  lemma StrideCount(n: nat, step: nat, q: nat)
    requires step > 0 && n == q * step
    ensures (n + step - 1) / step == q
  {
    StrideInside(n, q, step);
    if q > 0 {
      StrideInside(n, q - 1, step);
      assert (q - 1) * step == n - step;
    }
  }

  /** The cap is a power of two, so the loop divides it evenly. */
  lemma CapDivides(all: seq<Value>, k: nat)
    requires |all| == SLICE_MAX_POINTS && (k > 0 ==> |Every(all, Power2(k - 1))| > 1)
    ensures |Every(all, Power2(k))| * Power2(k) == SLICE_MAX_POINTS
  {
    TwelveDoublings();
    if k > 12 {
      EveryAt(all, Power2(k - 1), 1);
      if k - 1 > 12 { Power2Grows(12, k - 1); }
      assert false;
    }
    Power2Adds(k, 12 - k);
    assert Power2(12 - k) * Power2(k) == Power2(k) * Power2(12 - k);
    StrideCount(|all|, Power2(k), Power2(12 - k));
  }

  lemma TwelveDoublings()
    ensures Power2(12) == SLICE_MAX_POINTS
  {
    assert Power2(4) == 16;
    Power2Adds(4, 4);
    Power2Adds(4, 8);
  }

  lemma StrideCovers(n: nat, step: nat)
    requires step > 0
    ensures ((n + step - 1) / step) * step >= n
  {
    StrideInside(n, (n + step - 1) / step, step);
  }

  /** Whichever stride the loop ends with, the points it returns span the data exactly when the hard cap did not cut any
      off. */
  lemma SliceSpansExactly(data: seq<Value>, downsample: Option<int>, size: seq<Value> -> nat, k: nat, r: Slice)
    requires FirstFit(Capped(data, downsample), size, k, r) && r.Fits?
    ensures Reaches(data, |r.data|, Power2(k), Spacing(downsample)) <==>
      |Every(data, Spacing(downsample))| <= SLICE_MAX_POINTS
  {
    var c, d := Capped(data, downsample), Spacing(downsample);
    var all := Every(data, d);
    if d == 1 { EveryOne(data); }
    if |all| <= SLICE_MAX_POINTS {
      assert c == all;
      StrideCovers(|c|, Power2(k));
      StrideCovers(|data|, d);
      Scales(|c|, |r.data| * Power2(k), d);
    } else {
      if k > 0 { assert GoesOn(c, size, k - 1); }
      CapDivides(c, k);
      EveryAt(data, d, SLICE_MAX_POINTS);
    }
  }

  lemma Scales(a: nat, b: nat, d: nat)
    requires a <= b
    ensures a * d <= b * d
  {
  }

  lemma EveryOne(xs: seq<Value>)
    ensures Every(xs, 1) == xs
  {
    forall i: nat | i < |xs| ensures Every(xs, 1)[i] == xs[i] { EveryAt(xs, 1, i); }
  }

  /** Of 5000 values the last 904 are cut off, whatever their size. */
  lemma LongSliceIsCut(data: seq<Value>, size: seq<Value> -> nat, k: nat, r: Slice)
    requires |data| == 5000 && FirstFit(Capped(data, None), size, k, r) && r.Fits?
    ensures !Reaches(data, |r.data|, Power2(k), 1) && Capped(data, None) == data[..SLICE_MAX_POINTS]
  {
    EveryOne(data);
    SliceSpansExactly(data, None, size, k, r);
  }

  // ---------------------------------------------------------------------------
  // Keeping the ends

  function Last(xs: seq<Value>): Value
    requires xs != []
  {
    xs[|xs| - 1]
  }

  function KeepLast(picked: seq<Value>, xs: seq<Value>): seq<Value>
    requires picked != [] && xs != []
  {
    if Last(picked) != Last(xs) then picked + [Last(xs)] else picked
  }

  /** `_stride`. */
  function Stride(xs: seq<Value>, max: nat): seq<Value>
    requires max > 0
  {
    if |xs| <= max then xs
    else
      var step := (|xs| + max - 1) / max;
      EveryAt(xs, step, 0);
      KeepLast(Every(xs, step), xs)
  }

  /** The positions in `b` of the elements of `a`, in order. */
  ghost predicate Picks(a: seq<Value>, b: seq<Value>, at: seq<nat>) {
    && |at| == |a|
    && (forall i :: 0 <= i < |at| ==> at[i] < |b| && a[i] == b[at[i]])
    && forall i, j :: 0 <= i < j < |at| ==> at[i] < at[j]
  }

  /** `a` is a subsequence of `b` with the same first and last value. */
  ghost predicate Thinned(a: seq<Value>, b: seq<Value>) {
    && (exists at :: Picks(a, b, at))
    && (a == [] <==> b == []) && (b != [] ==> a[0] == b[0] && Last(a) == Last(b))
  }

  lemma ThinnedSelf(a: seq<Value>)
    ensures Thinned(a, a)
  {
    assert Picks(a, a, seq(|a|, i => i));
  }

  lemma ThinnedTwice(a: seq<Value>, b: seq<Value>, c: seq<Value>)
    requires Thinned(a, b) && Thinned(b, c)
    ensures Thinned(a, c)
  {
    var f :| Picks(a, b, f);
    var g :| Picks(b, c, g);
    var h := seq(|a|, i requires 0 <= i < |a| => g[f[i]]);
    assert Picks(a, c, h);
  }

  lemma OneStepOn(i: nat, step: nat)
    ensures (i + 1) * step == i * step + step
  {
  }

  lemma {:induction false} FurtherOn(i: nat, j: nat, step: nat)
    requires i < j && step > 0
    ensures i * step < j * step
  {
    OneStepOn(j - 1, step);
    if i < j - 1 { FurtherOn(i, j - 1, step); }
  }

  lemma {:induction false} Multiples(n: nat, step: nat) returns (at: seq<nat>)
    requires step > 0
    ensures |at| == n && (forall i | 0 <= i < n :: at[i] == i * step) && forall i, j | 0 <= i < j < n :: at[i] < at[j]
  {
    at := seq(n, i requires 0 <= i < n => i * step);
    forall i, j | 0 <= i < j < n ensures at[i] < at[j] { FurtherOn(i, j, step); }
  }

  lemma {:induction false} StridedIsThinned(xs: seq<Value>, step: nat)
    requires step > 0 && xs != []
    ensures Every(xs, step) != [] && Thinned(KeepLast(Every(xs, step), xs), xs)
  {
    var ys := Every(xs, step);
    EveryAt(xs, step, 0);
    var at := Multiples(|ys|, step);
    forall i: nat | i < |ys| ensures at[i] < |xs| && ys[i] == xs[at[i]] { EveryAt(xs, step, i); }
    var zs := KeepLast(ys, xs);
    if zs == ys {
      assert Picks(zs, xs, at);
    } else {
      var top := |xs| - 1;
      forall i | 0 <= i < |at| ensures at[i] < top {
        if i < |at| - 1 { assert at[i] < at[|at| - 1]; }
      }
      assert Picks(zs, xs, at + [top]);
    }
  }

  /** The last position a stride picks. */
  function LastPick(n: nat, step: nat): (p: nat)
    requires n > 0 && step > 0
    ensures p < n
  {
    StrideInside(n, (n - 1) / step, step);
    (n - 1) / step * step
  }

  lemma KeepLastLength(xs: seq<Value>, step: nat)
    requires xs != [] && step > 0
    ensures Every(xs, step) != []
    ensures |KeepLast(Every(xs, step), xs)|
      == |Every(xs, step)| + if xs[LastPick(|xs|, step)] == Last(xs) then 0 else 1
  {
    LastPicked(|xs|, step);
    EveryAt(xs, step, (|xs| - 1) / step);
    EveryAt(xs, step, (|xs| - 1) / step + 1);
  }

  lemma LastPicked(n: nat, step: nat)
    requires n > 0 && step > 0
    ensures var q := (n - 1) / step; q * step == LastPick(n, step) < n <= (q + 1) * step
  {
    assert ((n - 1) / step + 1) * step == (n - 1) / step * step + step;
  }

  /** Lists that belong together (edges and counts, frequencies and amplitudes) are strided one by one.  Of equal length
      before, they are of equal length after exactly when both or neither end with the value last picked. */
  lemma {:induction false} PairedExactly(xs: seq<Value>, ys: seq<Value>, step: nat)
    requires |xs| == |ys| > 0 && step > 0
    ensures Every(xs, step) != [] && Every(ys, step) != []
    ensures |KeepLast(Every(xs, step), xs)| == |KeepLast(Every(ys, step), ys)| <==>
      (xs[LastPick(|xs|, step)] == Last(xs) <==> ys[LastPick(|ys|, step)] == Last(ys))
  {
    KeepLastLength(xs, step);
    KeepLastLength(ys, step);
    SamePicks(xs, ys, step);
  }

  lemma {:induction false} SamePicks(xs: seq<Value>, ys: seq<Value>, step: nat)
    requires |xs| == |ys| && step > 0
    ensures |Every(xs, step)| == |Every(ys, step)|
  {
  }

  /** A strided array keeps both ends and exceeds the cap by at most the last point. */
  lemma {:induction false} StrideKeepsEnds(xs: seq<Value>, max: nat)
    requires max > 0
    ensures Thinned(Stride(xs, max), xs) && |Stride(xs, max)| <= max + 1 && (|xs| <= max ==> Stride(xs, max) == xs)
  {
    if |xs| <= max {
      ThinnedSelf(xs);
    } else {
      var step := Ceiling(|xs|, max);
      StridedIsThinned(xs, step);
      FewStrides(xs, step, max);
    }
  }

  lemma Ceiling(n: nat, max: nat) returns (step: nat)
    requires 0 < max < n
    ensures step == (n + max - 1) / max && step > 0 && max * step >= n
  {
    step := (n + max - 1) / max;
    assert max * step + (n + max - 1) % max == n + max - 1;
  }

  lemma {:induction false} FewStrides(xs: seq<Value>, step: nat, max: nat)
    requires step > 0 && max * step >= |xs|
    ensures |Every(xs, step)| <= max
  {
    EveryAt(xs, step, max);
  }

  // ---------------------------------------------------------------------------
  // Plugin summaries

  datatype Entry = List(values: seq<Value>) | Other(value: Value)
  datatype Field = Field(key: string, entry: Entry)

  /** A summary, in insertion order. */
  type Summary = seq<Field>

  function SetFlag(s: Summary): Summary {
    var flag := Field("downsampled", Other(Bool(true)));
    if s == [] then [flag]
    else if s[0].key == "downsampled" then [flag] + s[1..]
    else [s[0]] + SetFlag(s[1..])
  }

  /** What a summary holds under a key. */
  function Held(s: Summary, key: string): Option<Entry> {
    if s == [] then None else if s[0].key == key then Some(s[0].entry) else Held(s[1..], key)
  }

  /** A shortened summary says so, and holds under every other key what it held. */
  lemma {:induction false} FlagExactly(s: Summary, key: string)
    ensures Held(SetFlag(s), key) == if key == "downsampled" then Some(Other(Bool(true))) else Held(s, key)
  {
    var flag := Field("downsampled", Other(Bool(true)));
    if s == [] {
      assert [flag][1..] == [];
    } else if s[0].key == "downsampled" {
      assert ([flag] + s[1..])[1..] == s[1..];
    } else {
      FlagExactly(s[1..], key);
      assert ([s[0]] + SetFlag(s[1..]))[1..] == SetFlag(s[1..]);
    }
  }

  /** Every other value, and the last. */
  function Halve(xs: seq<Value>): seq<Value> {
    if |xs| <= 1 then xs
    else
      EveryAt(xs, 2, 0);
      KeepLast(Every(xs, 2), xs)
  }

  /** Four edges and four counts, of which only the counts end in a value just picked. */
  lemma PairedListsDrift()
    ensures |Halve([Int(1), Int(2), Int(3), Int(4)])| == 3 && |Halve([Int(1), Int(2), Int(3), Int(3)])| == 2
  {
    var xs, ys := [Int(1), Int(2), Int(3), Int(4)], [Int(1), Int(2), Int(3), Int(3)];
    KeepLastLength(xs, 2);
    KeepLastLength(ys, 2);
    EveryAt(xs, 2, 2);
    EveryAt(ys, 2, 2);
    EveryAt(xs, 2, 1);
    EveryAt(ys, 2, 1);
  }

  function HalveEntry(e: Entry): Entry {
    if e.List? then List(Halve(e.values)) else e
  }

  function Round(s: Summary): (r: Summary)
    ensures |r| == |s|
  {
    seq(|s|, i requires 0 <= i < |s| => s[i].(entry := HalveEntry(s[i].entry)))
  }

  /** Some list has more than one value. */
  predicate Shrinkable(s: Summary) {
    exists i :: 0 <= i < |s| && s[i].entry.List? && |s[i].entry.values| > 1
  }

  /** What endless halving leaves of a list: its ends. */
  function Ends(xs: seq<Value>): seq<Value> {
    if |xs| <= 1 then xs else if xs[0] == Last(xs) then [xs[0]] else [xs[0], Last(xs)]
  }

  function EndsOf(e: Entry): Entry {
    if e.List? then List(Ends(e.values)) else e
  }

  function Cut(s: Summary): (r: Summary)
    ensures |r| == |s|
  {
    seq(|s|, i requires 0 <= i < |s| => s[i].(entry := EndsOf(s[i].entry)))
  }

  ghost predicate Shrunk(a: Summary, b: Summary) {
    && |a| == |b|
    && forall i :: 0 <= i < |a| ==> a[i].key == b[i].key && ShrunkEntry(a[i].entry, b[i].entry)
  }

  ghost predicate ShrunkEntry(a: Entry, b: Entry) {
    if b.List? then a.List? && Thinned(a.values, b.values) else a == b
  }

  /** Dropping values never makes a summary larger. */
  ghost predicate Monotone(size: Summary -> nat) {
    forall a, b :: Shrunk(a, b) ==> size(a) <= size(b)
  }

  lemma {:induction false} HalveThins(xs: seq<Value>)
    ensures Thinned(Halve(xs), xs) && Ends(Halve(xs)) == Ends(xs)
    ensures |Halve(xs)| <= |xs| && (|Halve(xs)| == |xs| <==> Halve(xs) == xs) && (Halve(xs) == xs <==> Ends(xs) == xs)
  {
    if |xs| <= 1 {
      ThinnedSelf(xs);
    } else {
      LongHalveThins(xs);
      HalveShortens(xs);
      if |xs| == 2 { EndsOfTwo(xs); }
    }
  }

  lemma {:induction false} LongHalveThins(xs: seq<Value>)
    requires |xs| >= 2
    ensures Thinned(Halve(xs), xs) && Ends(Halve(xs)) == Ends(xs)
  {
    StridedIsThinned(xs, 2);
    EveryAt(xs, 2, 0);
    ThinnedKeepsEnds(Halve(xs), xs);
  }

  lemma {:induction false} EndsOfTwo(xs: seq<Value>)
    requires |xs| == 2
    ensures |Ends(xs)| <= 2 && (|Ends(xs)| == 2 ==> Ends(xs) == xs)
  {
  }

  lemma {:induction false} HalveShortens(xs: seq<Value>)
    requires |xs| >= 2
    ensures if |xs| == 2 then Halve(xs) == Ends(xs) else |Halve(xs)| < |xs| && Halve(xs) != xs
  {
    var ys, n := Every(xs, 2), |xs|;
    assert |ys| == (n + 1) / 2;
    EveryAt(xs, 2, 0);
    if n == 2 {
      assert ys == [xs[0]];
    } else if n == 3 {
      EveryAt(xs, 2, 1);
      assert Last(ys) == Last(xs);
    }
  }

  lemma ThinnedKeepsEnds(a: seq<Value>, b: seq<Value>)
    requires Thinned(a, b) && |b| >= 2 && (|a| == 1 ==> b[0] == Last(b))
    ensures Ends(a) == Ends(b)
  {
  }

  lemma EndsThin(xs: seq<Value>)
    ensures Thinned(Ends(xs), xs)
  {
    if |xs| <= 1 { ThinnedSelf(xs); }
    else if xs[0] == Last(xs) { assert Picks(Ends(xs), xs, [0]); }
    else { assert Picks(Ends(xs), xs, [0, |xs| - 1]); }
  }

  /** The cut summary can be shortened no further exactly when no list has two different ends. */
  lemma {:induction false} CutShrinkableExactly(s: Summary)
    ensures Shrinkable(Cut(s)) <==> exists i :: 0 <= i < |s| && s[i].entry.List? && EndsDiffer(s[i].entry.values)
  {
    var c := Cut(s);
    forall i | 0 <= i < |s| && s[i].entry.List? ensures |c[i].entry.values| > 1 <==> EndsDiffer(s[i].entry.values) {
      assert c[i].entry.values == Ends(s[i].entry.values);
    }
  }

  predicate EndsDiffer(xs: seq<Value>) {
    |xs| >= 2 && xs[0] != xs[|xs| - 1]
  }

  lemma RoundShrinks(s: Summary)
    ensures Shrunk(Round(s), s) && Shrunk(Cut(s), s) && Cut(Round(s)) == Cut(s)
  {
    forall i | 0 <= i < |s|
      ensures ShrunkEntry(Round(s)[i].entry, s[i].entry) && ShrunkEntry(Cut(s)[i].entry, s[i].entry)
      ensures Cut(Round(s))[i] == Cut(s)[i]
    {
      if s[i].entry.List? {
        HalveThins(s[i].entry.values);
        EndsThin(s[i].entry.values);
      }
    }
  }

  lemma ShrunkTwice(a: Summary, b: Summary, c: Summary)
    requires Shrunk(a, b) && Shrunk(b, c)
    ensures Shrunk(a, c)
  {
    forall i | 0 <= i < |a| ensures a[i].key == c[i].key && ShrunkEntry(a[i].entry, c[i].entry) {
      if c[i].entry.List? { ThinnedTwice(a[i].entry.values, b[i].entry.values, c[i].entry.values); }
    }
  }

  function TotalLength(s: Summary): nat {
    if s == [] then 0 else (if s[0].entry.List? then |s[0].entry.values| else 0) + TotalLength(s[1..])
  }

  /** A round either changes nothing, and then only ends are left, or shortens some list. */
  lemma {:induction false} RoundShortens(s: Summary)
    ensures TotalLength(Round(s)) <= TotalLength(s)
    ensures TotalLength(Round(s)) == TotalLength(s) ==> Round(s) == s && Cut(s) == s
  {
    if s != [] {
      RoundShortens(s[1..]);
      assert Round(s)[1..] == Round(s[1..]) && Cut(s)[1..] == Cut(s[1..]);
      if s[0].entry.List? { HalveThins(s[0].entry.values); }
      if TotalLength(Round(s)) == TotalLength(s) {
        assert Round(s) == [Round(s)[0]] + Round(s)[1..] && Cut(s) == [Cut(s)[0]] + Cut(s)[1..];
        assert s == [s[0]] + s[1..];
      }
    }
  }

  /** The loop of `_bound_plugin` ends: what is left when every list is cut to its ends fits, or has no two-value
      list. */
  predicate Ending(s: Summary, size: Summary -> nat) {
    size(Cut(s)) <= MAX_RESULT_BYTES || !Shrinkable(Cut(s))
  }

  function Rounds(s: Summary, k: nat): Summary {
    if k == 0 then s else Round(Rounds(s, k - 1))
  }

  /** The loop leaves at its `k`-th test. */
  predicate Leaves(s: Summary, size: Summary -> nat, k: nat) {
    size(Rounds(s, k)) <= MAX_RESULT_BYTES || !Shrinkable(Rounds(s, k))
  }

  lemma {:induction false} RoundsShrink(s: Summary, k: nat)
    ensures Shrunk(Rounds(s, k), s) && Cut(Rounds(s, k)) == Cut(s)
  {
    if k == 0 {
      forall i | 0 <= i < |s| && s[i].entry.List?
        ensures Thinned(s[i].entry.values, s[i].entry.values)
      {
        ThinnedSelf(s[i].entry.values);
      }
    } else {
      RoundsShrink(s, k - 1);
      RoundShrinks(Rounds(s, k - 1));
      ShrunkTwice(Rounds(s, k), Rounds(s, k - 1), s);
    }
  }

  lemma {:induction false} RoundsReachCut(s: Summary, k: nat) returns (n: nat)
    ensures Rounds(s, n) == Cut(s) && n >= k
    decreases TotalLength(Rounds(s, k))
  {
    RoundsShrink(s, k);
    RoundShortens(Rounds(s, k));
    if TotalLength(Rounds(s, k + 1)) == TotalLength(Rounds(s, k)) {
      n := k;
    } else {
      n := RoundsReachCut(s, k + 1);
    }
  }

  // ---------------------------------------------------------------------------
  // Lists that belong together, round after round

  function Halved(xs: seq<Value>, k: nat): seq<Value> {
    if k == 0 then xs else Halve(Halved(xs, k - 1))
  }

  lemma {:induction false} RoundsHalve(s: Summary, k: nat, i: nat)
    requires i < |s| && s[i].entry.List?
    ensures |Rounds(s, k)| == |s| && Rounds(s, k)[i].entry == List(Halved(s[i].entry.values, k))
  {
    if k > 0 { RoundsHalve(s, k - 1, i); }
  }

  /** After `k` rounds the last value stands behind the strided ones: it already did, at an even place, or it is not the
      value picked last. */
  predicate Tailed(xs: seq<Value>, k: nat)
    requires xs != []
  {
    k > 0 && (
      || (Tailed(xs, k - 1) && |Every(xs, Power2(k - 1))| % 2 == 0)
      || xs[LastPick(|xs|, Power2(k))] != Last(xs))
  }

  function Tail(xs: seq<Value>, k: nat): seq<Value>
    requires xs != []
  {
    if Tailed(xs, k) then [Last(xs)] else []
  }

  lemma {:induction false} EverySnoc(xs: seq<Value>, v: Value)
    ensures Every(xs + [v], 2) == Every(xs, 2) + if |xs| % 2 == 0 then [v] else []
  {
    var zs, ws := Every(xs + [v], 2), Every(xs, 2);
    forall i: nat | i < |zs| ensures i < |ws| ==> zs[i] == ws[i] {
      EveryAt(xs + [v], 2, i);
      EveryAt(xs, 2, i);
    }
    EveryAt(xs + [v], 2, |xs| / 2);
  }

  lemma {:induction false} LastEvery(xs: seq<Value>, step: nat)
    requires xs != [] && step > 0
    ensures Every(xs, step) != [] && Last(Every(xs, step)) == xs[LastPick(|xs|, step)]
  {
    LastPicked(|xs|, step);
    EveryAt(xs, step, (|xs| - 1) / step);
    EveryAt(xs, step, (|xs| - 1) / step + 1);
  }

  /** The list after `k` rounds is `es` strided values and perhaps the last one, `l`. */
  ghost predicate EndsRight(es: seq<Value>, ts: seq<Value>, l: Value) {
    es != [] && (ts == [l] || (ts == [] && Last(es) == l))
  }

  lemma {:induction false} HalveTailed(es: seq<Value>, ts: seq<Value>, l: Value)
    requires EndsRight(es, ts, l)
    ensures var fs := Every(es, 2);
      && fs != []
      && Halve(es + ts) == fs + if (ts != [] && |es| % 2 == 0) || Last(fs) != l then [l] else []
  {
    LastEvery(es, 2);
    if ts == [] {
      assert es + ts == es;
      if |es| == 1 { assert Every(es, 2) == es; }
    } else {
      EverySnoc(es, l);
    }
  }

  lemma {:induction false} TailAfter(xs: seq<Value>, k: nat, es: seq<Value>, fs: seq<Value>)
    requires xs != [] && k > 0 && es == Every(xs, Power2(k - 1)) && fs == Every(xs, Power2(k))
    ensures fs != []
    ensures Tail(xs, k) == if (Tail(xs, k - 1) != [] && |es| % 2 == 0) || Last(fs) != Last(xs) then [Last(xs)] else []
  {
    LastEvery(xs, Power2(k));
  }

  lemma {:induction false} EveryDoubled(xs: seq<Value>, k: nat)
    requires k > 0
    ensures Every(Every(xs, Power2(k - 1)), 2) == Every(xs, Power2(k))
  {
    EveryEvery(xs, Power2(k - 1), 2);
    assert Power2(k - 1) * 2 == Power2(k);
  }

  /** What `k` rounds leave of a list, told from the list itself. */
  lemma {:induction false} HalvedIs(xs: seq<Value>, k: nat)
    requires xs != []
    ensures Halved(xs, k) == Every(xs, Power2(k)) + Tail(xs, k)
    ensures EndsRight(Every(xs, Power2(k)), Tail(xs, k), Last(xs))
  {
    if k == 0 {
      EveryOne(xs);
      assert Every(xs, 1) + [] == xs;
    } else {
      var es, fs := Every(xs, Power2(k - 1)), Every(xs, Power2(k));
      HalvedIs(xs, k - 1);
      EveryDoubled(xs, k);
      HalveTailed(es, Tail(xs, k - 1), Last(xs));
      TailAfter(xs, k, es, fs);
    }
  }

  /** How many of `n` values a stride picks. */
  function PickedCount(n: nat, step: nat): nat
    requires step > 0
  {
    (n + step - 1) / step
  }

  lemma {:induction false} HalvedLength(xs: seq<Value>, k: nat)
    requires xs != []
    ensures |Halved(xs, k)| == PickedCount(|xs|, Power2(k)) + if Tailed(xs, k) then 1 else 0
  {
    HalvedIs(xs, k);
  }

  /** Two lists of one length have one length after `k` rounds exactly when both or neither then carry their last value
      behind the strided ones. */
  lemma {:induction false} PairedRoundsExactly(xs: seq<Value>, ys: seq<Value>, k: nat)
    requires |xs| == |ys| > 0
    ensures |Halved(xs, k)| == |Halved(ys, k)| <==> (Tailed(xs, k) <==> Tailed(ys, k))
  {
    HalvedLength(xs, k);
    HalvedLength(ys, k);
  }

  lemma UnshrinkableIsCut(s: Summary)
    requires !Shrinkable(s)
    ensures Cut(s) == s
  {
  }

  /** For a size that never grows when values are dropped, the loop ends exactly under that condition; otherwise a list
      of two different values keeps it over budget for ever. */
  lemma EndsExactly(s: Summary, size: Summary -> nat)
    requires Monotone(size)
    ensures Ending(s, size) <==> exists k: nat :: Leaves(s, size, k)
  {
    if Ending(s, size) {
      var n := RoundsReachCut(s, 0);
      assert Leaves(s, size, n);
    }
    if k: nat :| Leaves(s, size, k) {
      var r := Rounds(s, k);
      RoundsShrink(s, k);
      RoundShrinks(r);
      if size(r) <= MAX_RESULT_BYTES {
        assert size(Cut(r)) <= size(r);
      } else {
        UnshrinkableIsCut(r);
      }
    }
  }

  function TextOf(v: Value): nat {
    if v.Str? then |v.text| else 0
  }

  /** The characters of the strings in a list. */
  function ListText(vs: seq<Value>): nat
    decreases |vs|
  {
    if vs == [] then 0 else ListText(vs[..|vs| - 1]) + TextOf(vs[|vs| - 1])
  }

  /** The characters of the strings in all lists: no encoding of a summary is shorter. */
  function Text(s: Summary): nat {
    if s == [] then 0 else (if s[0].entry.List? then ListText(s[0].entry.values) else 0) + Text(s[1..])
  }

  lemma {:induction false} ListTextGrows(vs: seq<Value>, i: nat)
    requires i <= |vs|
    ensures ListText(vs[..i]) <= ListText(vs)
    decreases |vs|
  {
    if i == |vs| {
      assert vs[..i] == vs;
    } else {
      assert vs[..|vs| - 1][..i] == vs[..i];
      ListTextGrows(vs[..|vs| - 1], i);
    }
  }

  lemma {:induction false} PickedText(a: seq<Value>, b: seq<Value>, at: seq<nat>)
    requires Picks(a, b, at)
    ensures ListText(a) <= ListText(b)
    decreases |a|
  {
    if a != [] {
      var n := |a| - 1;
      var m := at[n];
      assert Picks(a[..n], b[..m], at[..n]);
      PickedText(a[..n], b[..m], at[..n]);
      assert b[..m + 1][..m] == b[..m];
      ListTextGrows(b, m + 1);
    }
  }

  lemma {:induction false} TextShrinks(a: Summary, b: Summary)
    requires Shrunk(a, b)
    ensures Text(a) <= Text(b)
  {
    if a != [] {
      assert ShrunkEntry(a[0].entry, b[0].entry);
      forall i | 0 <= i < |a[1..]|
        ensures a[1..][i].key == b[1..][i].key && ShrunkEntry(a[1..][i].entry, b[1..][i].entry)
      {
        assert a[1..][i] == a[i + 1] && b[1..][i] == b[i + 1];
      }
      TextShrinks(a[1..], b[1..]);
      if b[0].entry.List? {
        var at :| Picks(a[0].entry.values, b[0].entry.values, at);
        PickedText(a[0].entry.values, b[0].entry.values, at);
      }
    }
  }

  /** Counting those characters is itself a size that never grows. */
  lemma TextIsMonotone()
    ensures Monotone(Text)
  {
    forall a, b | Shrunk(a, b) ensures Text(a) <= Text(b) { TextShrinks(a, b); }
  }

  lemma {:induction false} ListTextSnoc(vs: seq<Value>, v: Value)
    ensures ListText(vs + [v]) == ListText(vs) + TextOf(v)
  {
    assert (vs + [v])[..|vs|] == vs;
  }

  lemma {:induction false} TwoStringsText(a: string, b: string)
    ensures ListText([Str(a), Str(b)]) == |a| + |b|
  {
    ListTextSnoc([], Str(a));
    ListTextSnoc([Str(a)], Str(b));
    assert [] + [Str(a)] == [Str(a)] && [Str(a)] + [Str(b)] == [Str(a), Str(b)];
  }

  /** The loop starts on the summary with the flag set. */
  lemma {:induction false} FlaggedText(f: Field)
    requires f.entry.List? && f.key != "downsampled"
    ensures SetFlag([f]) == [f, Field("downsampled", Other(Bool(true)))]
    ensures Text(SetFlag([f])) == ListText(f.entry.values)
  {
    var flag := Field("downsampled", Other(Bool(true)));
    assert [f][1..] == [] && SetFlag([f][1..]) == [flag];
    assert [f, flag][1..] == [flag] && [flag][1..] == [];
    assert Text([flag]) == 0;
  }

  lemma {:induction false} EndsAreCut(f: Field, g: Field)
    requires f.entry.List? && Ends(f.entry.values) == f.entry.values && !g.entry.List?
    ensures Cut([f, g]) == [f, g]
  {
  }

  /** A list with more than one value in a summary that is its own cut and too large. */
  lemma {:induction false} StillTooLarge(s: Summary, size: Summary -> nat)
    requires Monotone(size) && size(s) > MAX_RESULT_BYTES && Cut(s) == s && Shrinkable(s)
    ensures forall k: nat :: !Leaves(s, size, k)
  {
    EndsExactly(s, size);
  }

  /** Two different strings of 25000 characters in one list keep the loop going for ever, for any size that never grows
      when values are dropped and counts at least the characters. */
  lemma {:induction false} TwoStringsNeverEnd(a: string, b: string, size: Summary -> nat)
    requires |a| == |b| == 25000 && a != b && Monotone(size) && forall s :: size(s) >= Text(s)
    ensures forall k: nat :: !Leaves(SetFlag([Field("x", List([Str(a), Str(b)]))]), size, k)
  {
    var f := Field("x", List([Str(a), Str(b)]));
    var s := SetFlag([f]);
    TwoStringsText(a, b);
    FlaggedText(f);
    EndsAreCut(f, s[1]);
    assert s[0].entry.List? && |s[0].entry.values| > 1;
    StillTooLarge(s, size);
  }

  /** `r` is `f` after `k` rounds, every one of which was needed. */
  ghost predicate Needed(f: Summary, size: Summary -> nat, k: nat, r: Summary) {
    r == Rounds(f, k) && forall j: nat | j < k :: TooLargeAfter(f, size, j)
  }

  predicate TooLargeAfter(f: Summary, size: Summary -> nat, j: nat) {
    size(Rounds(f, j)) > MAX_RESULT_BYTES
  }

  lemma {:induction false} OneMoreNeeded(f: Summary, size: Summary -> nat, k: nat, r: Summary, j: nat)
    requires Needed(f, size, k, r) && size(r) > MAX_RESULT_BYTES && j == k + 1
    ensures Needed(f, size, j, Round(r))
  {
    assert TooLargeAfter(f, size, k);
  }

  /** `_bound_plugin`: what it returns fits, and is the summary with its lists thinned between unchanged ends, no more
      often than needed. */
  method BoundPlugin(s: Summary, size: Summary -> nat) returns (r: Option<Summary>)
    requires Monotone(size) && (size(s) <= MAX_RESULT_BYTES || Ending(SetFlag(s), size))
    ensures size(s) <= MAX_RESULT_BYTES ==> r == Some(s)
    ensures r.Some? ==> size(r.value) <= MAX_RESULT_BYTES && (r.value == s || Shrunk(r.value, SetFlag(s)))
    ensures r.Some? && r.value != s ==> exists k: nat :: Needed(SetFlag(s), size, k, r.value)
    ensures r.None? <==>
      size(s) > MAX_RESULT_BYTES && size(Cut(SetFlag(s))) > MAX_RESULT_BYTES && !Shrinkable(Cut(SetFlag(s)))
  {
    if size(s) <= MAX_RESULT_BYTES { return Some(s); }
    var bounded := SetFlag(s);
    ghost var f, k: nat := bounded, 0;
    while size(bounded) > MAX_RESULT_BYTES
      invariant Needed(f, size, k, bounded)
      decreases TotalLength(bounded)
    {
      RoundsShrink(f, k);
      if !Shrinkable(bounded) {
        UnshrinkableIsCut(bounded);
        return None;
      }
      RoundShortens(bounded);
      OneMoreNeeded(f, size, k, bounded, k + 1);
      bounded := Round(bounded);
      k := k + 1;
    }
    RoundsShrink(f, k);
    RoundShrinks(bounded);
    return Some(bounded);
  }
}

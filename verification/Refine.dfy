/** Sweep refinement: which point is best, whether the sweep has converged, what to simulate next. */
module Refine {
  import opened Prelude

  const EPSILON := 0.000000000001
  const FRACTION := 0.1
  const COUNT := 2
  const REL_TOL := 0.05

  /** A sweep point and its analysed score, if it has one. */
  datatype Point = Point(name: string, score: Option<real>)

  /** An analysed point with its position on the swept axis. */
  datatype Sample = Sample(name: string, score: real, coord: real)

  datatype Suggestion = Suggestion(name: string, offset: real, value: real)

  function Abs(x: real): real {
    if x < 0.0 then -x else x
  }

  /** `math.isclose(x, 0.0, abs_tol=_EPSILON)`. */
  predicate IsZero(x: real) {
    Abs(x) <= EPSILON
  }

  // ---------------------------------------------------------------------------
  // Samples

  /** The analysed points in insertion order, as far as their positions are known. */
  function Located(points: seq<Point>, coordinates: map<string, real>): seq<Sample> {
    if points == [] then []
    else
      (if points[0].score.Some? && points[0].name in coordinates
       then [Sample(points[0].name, points[0].score.value, coordinates[points[0].name])] else [])
      + Located(points[1..], coordinates)
  }

  function Analysed(points: seq<Point>): nat {
    if points == [] then 0 else (if points[0].score.Some? then 1 else 0) + Analysed(points[1..])
  }

  /** Every analysed point has a position. */
  predicate Complete(points: seq<Point>, coordinates: map<string, real>) {
    Located(points, coordinates) != [] && |Located(points, coordinates)| == Analysed(points)
  }

  /** A frame is complete exactly when some point is analysed and each analysed point has a position; it then holds each
      of them with its score and position. */
  lemma {:induction false} CompleteExactly(points: seq<Point>, coordinates: map<string, real>)
    ensures Complete(points, coordinates) <==>
      && (exists i :: 0 <= i < |points| && points[i].score.Some?)
      && forall i :: 0 <= i < |points| && points[i].score.Some? ==> points[i].name in coordinates
  {
    LocatedCounts(points, coordinates);
    if exists i :: 0 <= i < |points| && points[i].score.Some? && points[i].name in coordinates {
      var i :| 0 <= i < |points| && points[i].score.Some? && points[i].name in coordinates;
      LocatedHolds(points, coordinates, Sample(points[i].name, points[i].score.value, coordinates[points[i].name]));
    } else if Located(points, coordinates) != [] {
      LocatedHolds(points, coordinates, Located(points, coordinates)[0]);
    }
  }

  lemma {:induction false} LocatedHolds(points: seq<Point>, coordinates: map<string, real>, s: Sample)
    ensures s in Located(points, coordinates) <==>
      s.name in coordinates && s.coord == coordinates[s.name] && Point(s.name, Some(s.score)) in points
  {
    if points != [] {
      LocatedHolds(points[1..], coordinates, s);
      assert points == [points[0]] + points[1..];
    }
  }

  lemma {:induction false} LocatedCounts(points: seq<Point>, coordinates: map<string, real>)
    ensures |Located(points, coordinates)| <= Analysed(points)
    ensures |Located(points, coordinates)| == Analysed(points) <==>
      forall i :: 0 <= i < |points| && points[i].score.Some? ==> points[i].name in coordinates
  {
    if points != [] {
      var rest := points[1..];
      LocatedCounts(rest, coordinates);
      assert forall i :: 0 < i < |points| ==> points[i] == rest[i - 1];
      assert forall i :: 0 <= i < |rest| ==> rest[i] == points[i + 1];
    }
  }

  /** The first sample with the greatest score. */
  function Best(ss: seq<Sample>): (i: nat)
    requires ss != []
    ensures i < |ss| && (forall j :: 0 <= j < |ss| ==> ss[j].score <= ss[i].score) && forall j :: 0 <= j < i ==>
      ss[j].score < ss[i].score
  {
    if |ss| == 1 then 0
    else
      var init := ss[..|ss| - 1];
      var i := Best(init);
      assert forall j :: 0 <= j < |init| ==> init[j] == ss[j];
      if ss[|ss| - 1].score > ss[i].score then |ss| - 1 else i
  }

  function Insert(s: Sample, ss: seq<Sample>): (r: seq<Sample>)
    ensures |r| == |ss| + 1
  {
    if ss == [] then [s]
    else if s.coord < ss[0].coord then [s] + ss
    else [ss[0]] + Insert(s, ss[1..])
  }

  /** The stable sort by position. */
  function Sorted(ss: seq<Sample>): (r: seq<Sample>)
    ensures |r| == |ss|
  {
    if ss == [] then [] else Insert(ss[|ss| - 1], Sorted(ss[..|ss| - 1]))
  }

  lemma {:induction false} InsertAdds(s: Sample, ss: seq<Sample>)
    ensures multiset(Insert(s, ss)) == multiset(ss) + multiset{s}
  {
    if ss != [] {
      assert ss == [ss[0]] + ss[1..];
      InsertAdds(s, ss[1..]);
    }
  }

  /** Sorting keeps every sample exactly as often. */
  lemma {:induction false} SortedPermutes(ss: seq<Sample>)
    ensures multiset(Sorted(ss)) == multiset(ss)
  {
    if ss != [] {
      assert ss == ss[..|ss| - 1] + [ss[|ss| - 1]];
      SortedPermutes(ss[..|ss| - 1]);
      InsertAdds(ss[|ss| - 1], Sorted(ss[..|ss| - 1]));
    }
  }

  ghost predicate Ascending(ss: seq<Sample>) {
    forall i, j :: 0 <= i < j < |ss| ==> ss[i].coord <= ss[j].coord
  }

  lemma {:induction false} InsertAscends(s: Sample, ss: seq<Sample>)
    requires Ascending(ss)
    ensures Ascending(Insert(s, ss))
  {
    if ss != [] && s.coord >= ss[0].coord {
      InsertAscends(s, ss[1..]);
      InsertAdds(s, ss[1..]);
      var r := Insert(s, ss[1..]);
      forall i | 0 <= i < |r| ensures ss[0].coord <= r[i].coord {
        assert r[i] in multiset(r);
        assert r[i] in multiset(ss[1..]) || r[i] == s;
        if r[i] in ss[1..] {
          var j :| 0 <= j < |ss[1..]| && ss[1..][j] == r[i];
          assert ss[j + 1] == r[i];
        }
      }
    }
  }

  lemma {:induction false} SortedAscends(ss: seq<Sample>)
    ensures Ascending(Sorted(ss))
  {
    if ss != [] {
      SortedAscends(ss[..|ss| - 1]);
      InsertAscends(ss[|ss| - 1], Sorted(ss[..|ss| - 1]));
    }
  }

  /** The samples at one position, in order. */
  function SameSpot(ss: seq<Sample>, x: real): seq<Sample> {
    if ss == [] then [] else (if ss[0].coord == x then [ss[0]] else []) + SameSpot(ss[1..], x)
  }

  lemma {:induction false} SameSpotSnoc(ss: seq<Sample>, s: Sample, x: real)
    ensures SameSpot(ss + [s], x) == SameSpot(ss, x) + if s.coord == x then [s] else []
  {
    if ss == [] {
      assert ss + [s] == [s] && [s][1..] == [];
    } else {
      SameSpotSnoc(ss[1..], s, x);
      assert (ss + [s])[1..] == ss[1..] + [s];
    }
  }

  lemma {:induction false} InsertIsStable(s: Sample, ss: seq<Sample>, x: real)
    requires Ascending(ss)
    ensures SameSpot(Insert(s, ss), x) == SameSpot(ss, x) + if s.coord == x then [s] else []
  {
    if ss == [] {
      assert [s][1..] == [];
    } else if s.coord < ss[0].coord {
      assert ([s] + ss)[1..] == ss;
      if s.coord == x { NoneThere(ss, x); }
    } else {
      InsertIsStable(s, ss[1..], x);
      assert ([ss[0]] + Insert(s, ss[1..]))[1..] == Insert(s, ss[1..]);
    }
  }

  lemma {:induction false} NoneThere(ss: seq<Sample>, x: real)
    requires forall i :: 0 <= i < |ss| ==> ss[i].coord != x
    ensures SameSpot(ss, x) == []
  {
    if ss != [] { NoneThere(ss[1..], x); }
  }

  /** The sort is stable: samples at one position stay in their order. */
  lemma {:induction false} SortedIsStable(ss: seq<Sample>, x: real)
    ensures SameSpot(Sorted(ss), x) == SameSpot(ss, x)
  {
    if ss != [] {
      var init, last := ss[..|ss| - 1], ss[|ss| - 1];
      SortedIsStable(init, x);
      SortedAscends(init);
      InsertIsStable(last, Sorted(init), x);
      SameSpotSnoc(init, last, x);
      assert ss == init + [last];
    }
  }

  // ---------------------------------------------------------------------------
  // Edges and steps

  predicate DistinctCoords(ss: seq<Sample>) {
    forall i, j :: 0 <= i < j < |ss| ==> ss[i].coord != ss[j].coord
  }

  /** `_improving_edge` on a complete frame: the side the best sample, first along the axis, is the strict edge of. */
  function ImprovingEdge(ss: seq<Sample>): int {
    var ordered := Sorted(ss);
    if |ordered| < 2 || !DistinctCoords(ordered) then 0
    else
      var i := Best(ordered);
      if i == 0 && ordered[0].score > ordered[1].score then -1
      else if i == |ordered| - 1 && ordered[i].score > ordered[i - 1].score then 1
      else 0
  }

  /** The low end is an improving edge exactly when its score is no less than any and above its neighbor's; the high end
      exactly when its score is above all others. */
  lemma EdgeExactly(ss: seq<Sample>)
    ensures var o, n := Sorted(ss), |Sorted(ss)|;
      var apart := n >= 2 && forall i, j :: 0 <= i < j < n ==> o[i].coord != o[j].coord;
      && (ImprovingEdge(ss) == -1 <==>
            apart && o[0].score > o[1].score && forall k :: 0 <= k < n ==> o[k].score <= o[0].score)
      && (ImprovingEdge(ss) == 1 <==> apart && forall k :: 0 <= k < n - 1 ==> o[k].score < o[n - 1].score)
      && -1 <= ImprovingEdge(ss) <= 1
  {
    var o, n := Sorted(ss), |Sorted(ss)|;
    if n >= 2 {
      if Best(o) != 0 { assert o[0].score < o[Best(o)].score; }
    }
  }

  function NonZero(step: real): real {
    if IsZero(step) then 0.0 else step
  }

  function EdgeStep(ordered: seq<Sample>, fraction: real): real {
    if |ordered| < 2 then 0.0
    else
      var last := ordered[|ordered| - 1].coord;
      var step := Abs(last - ordered[0].coord) * fraction;
      NonZero(if IsZero(step) then Abs(last) * fraction else step)
  }

  /** The distance to the nearest other sample. */
  function Nearest(ss: seq<Sample>, name: string, at: real): Option<real> {
    if ss == [] then None
    else
      var rest := Nearest(ss[1..], name, at);
      var gap := Abs(ss[0].coord - at);
      if ss[0].name == name then rest
      else if rest.Some? && rest.value < gap then rest else Some(gap)
  }

  function Part(whole: real, fraction: real): real {
    whole * fraction
  }

  function InteriorStep(ordered: seq<Sample>, name: string, at: real, fraction: real): real {
    var step := Part(Nearest(ordered, name, at).GetOr(Abs(at)), fraction);
    NonZero(if IsZero(step) then Part(Abs(at), fraction) else step)
  }

  /** A step is what it is unless it is as good as zero, then what the fallback is, and zero if that is, too. */
  predicate StepIs(step: real, first: real, fallback: real) {
    if -0.000000000001 <= first <= 0.000000000001
    then step == if -0.000000000001 <= fallback <= 0.000000000001 then 0.0 else fallback
    else step == first
  }

  /** The step beyond an edge is the fraction of the tested range; of the upper end, if the range is as good as
      nothing. */
  lemma {:induction false} EdgeStepExactly(ss: seq<Sample>, fraction: real, low: nat, high: nat)
    requires |ss| >= 2 && low < |ss| && high < |ss|
    requires forall k :: 0 <= k < |ss| ==> ss[low].coord <= ss[k].coord <= ss[high].coord
    ensures StepIs(EdgeStep(Sorted(ss), fraction), Part(ss[high].coord - ss[low].coord, fraction),
              Part(Abs(ss[high].coord), fraction))
  {
    SortedEnds(ss, low, high);
    StepOfEnds(Sorted(ss), fraction);
    assert Abs(ss[high].coord - ss[low].coord) == ss[high].coord - ss[low].coord;
  }

  lemma {:induction false} SortedEnds(ss: seq<Sample>, low: nat, high: nat)
    requires ss != [] && low < |ss| && high < |ss|
    requires forall k :: 0 <= k < |ss| ==> ss[low].coord <= ss[k].coord <= ss[high].coord
    ensures Sorted(ss)[0].coord == ss[low].coord && Sorted(ss)[|ss| - 1].coord == ss[high].coord
  {
    var o := Sorted(ss);
    SortedAscends(ss);
    SortedPermutes(ss);
    EndsOfAscending(o, ss[low], ss[high]) by {
      assert ss[low] in multiset(ss) && ss[high] in multiset(ss);
      assert ss[low] in multiset(o) && ss[high] in multiset(o);
    }
    assert o[0] in multiset(o) && o[|o| - 1] in multiset(o);
    assert o[0] in ss && o[|o| - 1] in ss;
  }

  lemma EndsOfAscending(o: seq<Sample>, a: Sample, b: Sample)
    requires Ascending(o) && a in o && b in o
    ensures o[0].coord <= a.coord && b.coord <= o[|o| - 1].coord
  {
  }

  lemma {:induction false} StepOfEnds(o: seq<Sample>, fraction: real)
    requires |o| >= 2
    ensures var first, last := o[0].coord, o[|o| - 1].coord;
      StepIs(EdgeStep(o, fraction), Part(Abs(last - first), fraction), Part(Abs(last), fraction))
  {
  }

  /** The nearest gap is that of some other sample and no larger than any; without another sample there is none. */
  lemma {:induction false} NearestExactly(ss: seq<Sample>, name: string, at: real)
    ensures var r := Nearest(ss, name, at);
      && (r.Some? ==> exists k :: 0 <= k < |ss| && ss[k].name != name && Abs(ss[k].coord - at) == r.value)
      && forall k :: 0 <= k < |ss| && ss[k].name != name ==> r.Some? && r.value <= Abs(ss[k].coord - at)
  {
    if ss != [] {
      NearestExactly(ss[1..], name, at);
      assert forall k :: 0 < k < |ss| ==> ss[k] == ss[1..][k - 1];
      var rest := Nearest(ss[1..], name, at);
      if rest.Some? {
        var k :| 0 <= k < |ss[1..]| && ss[1..][k].name != name && Abs(ss[1..][k].coord - at) == rest.value;
        assert ss[k + 1].name != name && Abs(ss[k + 1].coord - at) == rest.value;
      }
    }
  }

  /** The step around an interior optimum is the fraction of the nearest gap, of its own position without another. */
  lemma {:induction false} InteriorStepExactly(ss: seq<Sample>, name: string, at: real, fraction: real)
    ensures StepIs(InteriorStep(ss, name, at, fraction), Part(Nearest(ss, name, at).GetOr(Abs(at)), fraction),
              Part(Abs(at), fraction))
  {
  }

  function Offset(step: real, i: nat): real {
    if i % 2 == 0 then step * (i / 2 + 1) as real else -(step * (i / 2 + 1) as real)
  }

  /** `_offsets`: nearest first, alternating sides. */
  method Offsets(step: real, count: nat) returns (r: seq<real>)
    ensures |r| == count && forall i :: 0 <= i < count ==> r[i] == Offset(step, i)
  {
    r := [];
    var magnitude := 1;
    while |r| < count
      invariant |r| <= count && (|r| == 2 * (magnitude - 1) || (|r| == count && |r| == 2 * magnitude - 3))
      invariant magnitude >= 1
      invariant forall i :: 0 <= i < |r| ==> r[i] == Offset(step, i)
    {
      OffsetPair(step, magnitude);
      r := r + [step * magnitude as real];
      if |r| < count { r := r + [-(step * magnitude as real)]; }
      magnitude := magnitude + 1;
    }
  }

  lemma OffsetPair(step: real, m: nat)
    requires m > 0
    ensures Offset(step, 2 * m - 2) == step * m as real && Offset(step, 2 * m - 1) == -(step * m as real)
  {
    assert (2 * m - 2) / 2 + 1 == m && (2 * m - 1) / 2 + 1 == m;
  }

  /** The suggestions at offsets `at(0)`, `at(1)`, ... around a sample, non-positive ones dropped. */
  function Around(best: Sample, at: nat -> real, n: nat): seq<Suggestion> {
    if n == 0 then []
    else
      var before := Around(best, at, n - 1);
      if best.coord + at(n - 1) > 0.0
      then before + [Suggestion(best.name, at(n - 1), best.coord + at(n - 1))] else before
  }

  /** What is suggested is the best point moved by the offset it names, to a positive value; and each offset that leads
      to one is suggested. */
  lemma {:induction false} AroundExactly(best: Sample, at: nat -> real, n: nat, s: Suggestion)
    ensures s in Around(best, at, n) <==>
      && s.name == best.name && s.value == best.coord + s.offset && s.value > 0.0
      && exists k: nat :: k < n && at(k) == s.offset
  {
    if n > 0 {
      AroundExactly(best, at, n - 1, s);
      if exists k: nat :: k < n && at(k) == s.offset {
        var k: nat :| k < n && at(k) == s.offset;
        assert k < n - 1 || k == n - 1;
      }
    }
  }

  function Reach(step: real, i: nat): real {
    step * (i + 1) as real
  }

  /** `_one_sided_offsets`. */
  function Outward(direction: int, step: real): nat -> real {
    (i: nat) => if direction < 0 then -Reach(step, i) else Reach(step, i)
  }

  function BothSides(step: real): nat -> real {
    (i: nat) => Offset(step, i)
  }

  /** The suggestions around the best sample, the first of the greatest score in insertion order. */
  function Suggest(ss: seq<Sample>, direction: int, step: real, count: nat): seq<Suggestion>
    requires ss != []
  {
    Around(ss[Best(ss)], if direction != 0 then Outward(direction, step) else BothSides(step), count)
  }

  /** `refine_around` on a complete frame. The best sample is the first in insertion order, the edge is judged along the
      axis. */
  function RefineAround(ss: seq<Sample>, fraction: real, count: nat): seq<Suggestion>
    requires ss != []
  {
    var best := ss[Best(ss)];
    var direction := ImprovingEdge(ss);
    var step := if direction != 0 then EdgeStep(Sorted(ss), fraction)
        else InteriorStep(Sorted(ss), best.name, best.coord, fraction);
    if IsZero(step) then [] else Suggest(ss, direction, step, count)
  }

  /** Samples `i` and `j` have the greatest and the second greatest score. */
  predicate TopTwo(ss: seq<Sample>, i: nat, j: nat) {
    i < |ss| && j < |ss| && i != j && ss[i].score >= ss[j].score && forall k :: 0 <= k < |ss| && k != i ==>
      ss[k].score <= ss[j].score
  }

  function Without(ss: seq<Sample>, i: nat): (r: seq<Sample>)
    requires i < |ss|
    ensures |r| == |ss| - 1 && (forall k :: 0 <= k < i ==> r[k] == ss[k]) && forall k :: i < k < |ss| ==>
      r[k - 1] == ss[k]
  {
    ss[..i] + ss[i + 1..]
  }

  /** The second entry of the scores sorted downwards. */
  function Second(ss: seq<Sample>): real
    requires |ss| >= 2
  {
    var others := Without(ss, Best(ss));
    others[Best(others)].score
  }

  lemma {:induction false} SecondIsSecond(ss: seq<Sample>) returns (j: nat)
    requires |ss| >= 2
    ensures TopTwo(ss, Best(ss), j) && Second(ss) == ss[j].score
  {
    var i := Best(ss);
    var others := Without(ss, i);
    var h := Best(others);
    j := if h < i then h else h + 1;
    assert others[h] == ss[j];
    forall k | 0 <= k < |ss| && k != i ensures ss[k].score <= ss[j].score {
      var m := if k < i then k else k - 1;
      assert others[m] == ss[k] && others[m].score <= others[h].score;
    }
  }

  /** The relative improvement of the best score over the second is within the tolerance. */
  predicate Close(best: real, second: real, relTol: real) {
    var scale := if IsZero(best) then 1.0 else Abs(best);
    (best - second) / scale <= relTol
  }

  /** `is_converged` on a complete frame. */
  predicate IsConverged(ss: seq<Sample>, relTol: real) {
    |ss| >= 2 && Close(ss[Best(ss)].score, Second(ss), relTol) && ImprovingEdge(ss) == 0
  }

  /** The two scores differ by at most the tolerance, relative to the greater unless that is as good as zero. */
  predicate Level(best: real, second: real, relTol: real) {
    var scale := if -0.000000000001 <= best <= 0.000000000001 then 1.0 else if best < 0.0 then -best else best;
    best - second <= Part(scale, relTol)
  }

  /** Samples `i` and `j` are the two best: none is above `i`, and none but `i` is above `j`. */
  predicate BestTwo(ss: seq<Sample>, i: nat, j: nat) {
    && i < |ss| && j < |ss| && i != j
    && (forall k | 0 <= k < |ss| :: ss[k].score <= ss[i].score)
    && forall k | 0 <= k < |ss| && k != i :: ss[k].score <= ss[j].score
  }

  /** A sweep has converged exactly when its optimum is at no improving edge and its two greatest scores are level. */
  lemma {:induction false} ConvergedExactly(ss: seq<Sample>, relTol: real, i: nat, j: nat)
    requires BestTwo(ss, i, j)
    ensures IsConverged(ss, relTol) <==> Level(ss[i].score, ss[j].score, relTol) && ImprovingEdge(ss) == 0
  {
    TopTwoScores(ss, i, j);
    CloseExactly(ss[i].score, ss[j].score, relTol);
  }

  lemma CloseExactly(best: real, second: real, relTol: real)
    ensures Close(best, second, relTol) <==> Level(best, second, relTol)
  {
    Relative(best - second, if IsZero(best) then 1.0 else Abs(best), relTol);
  }

  lemma {:induction false} TopTwoScores(ss: seq<Sample>, i: nat, j: nat)
    requires BestTwo(ss, i, j)
    ensures ss[Best(ss)].score == ss[i].score && Second(ss) == ss[j].score
  {
    var h := SecondIsSecond(ss);
  }

  lemma Relative(d: real, scale: real, tol: real)
    requires scale > 0.0
    ensures d / scale <= tol <==> d <= Part(scale, tol)
  {
    var q := d / scale;
    assert q * scale == d;
    assert (tol - q) * scale == Part(scale, tol) - d;
    if q <= tol { assert (tol - q) * scale >= 0.0; } else { assert (q - tol) * scale > 0.0; }
  }

  /** One score alone has converged to nothing. */
  lemma OneIsNotConverged(ss: seq<Sample>, relTol: real)
    requires |ss| < 2
    ensures !IsConverged(ss, relTol)
  {
  }

  /** `summary` on a complete frame: nothing is suggested for a converged sweep. */
  function Suggestions(ss: seq<Sample>, relTol: real): seq<Suggestion>
    requires ss != []
  {
    if IsConverged(ss, relTol) then [] else RefineAround(ss, FRACTION, COUNT)
  }

  // ---------------------------------------------------------------------------
  // An edge optimum extends the range

  /** Beyond every tested position, on the given side. */
  ghost predicate Beyond(ss: seq<Sample>, direction: int, x: real) {
    forall i :: 0 <= i < |ss| ==> if direction < 0 then x < ss[i].coord else x > ss[i].coord
  }

  ghost predicate AllBeyond(ss: seq<Sample>, direction: int, r: seq<Suggestion>) {
    forall k :: 0 <= k < |r| ==> Beyond(ss, direction, r[k].value)
  }

  ghost predicate StrictlyOutward(direction: int, r: seq<Suggestion>) {
    forall i, j :: 0 <= i < j < |r| ==> if direction < 0 then r[i].value > r[j].value else r[i].value < r[j].value
  }

  /** Sample `i` is the only one with the best score, and lies at an end of the tested range. */
  ghost predicate UniqueEdgeOptimum(ss: seq<Sample>, i: nat, direction: int) {
    && i < |ss| && |ss| >= 2 && (direction == -1 || direction == 1)
    && (forall j :: 0 <= j < |ss| && j != i ==> ss[j].score < ss[i].score)
    && forall j :: 0 <= j < |ss| && j != i ==>
      if direction < 0 then ss[i].coord < ss[j].coord else ss[i].coord > ss[j].coord
  }

  lemma SortedMembers(ss: seq<Sample>, s: Sample)
    ensures s in Sorted(ss) <==> s in ss
  {
    SortedPermutes(ss);
    assert s in multiset(Sorted(ss)) <==> s in multiset(ss);
  }

  lemma DistinctSorted(ss: seq<Sample>)
    requires DistinctCoords(ss)
    ensures DistinctCoords(Sorted(ss))
  {
    var ordered := Sorted(ss);
    forall i, j | 0 <= i < j < |ordered| ensures ordered[i].coord != ordered[j].coord {
      SortedMembers(ss, ordered[i]);
      SortedMembers(ss, ordered[j]);
      if ordered[i].coord == ordered[j].coord {
        assert ordered[i] == ordered[j];
        SortedPermutes(ss);
        OneOfEach(ss, ordered[i]);
        TwoOf(ordered, i, j);
        assert false;
      }
    }
  }

  lemma {:induction false} OneOfEach(ss: seq<Sample>, s: Sample)
    requires DistinctCoords(ss)
    ensures multiset(ss)[s] <= 1
  {
    if ss != [] {
      assert ss == [ss[0]] + ss[1..];
      OneOfEach(ss[1..], s);
      if s == ss[0] { assert s !in ss[1..]; }
    }
  }

  lemma TwoOf(ss: seq<Sample>, i: nat, j: nat)
    requires i < j < |ss| && ss[i] == ss[j]
    ensures multiset(ss)[ss[i]] >= 2
  {
    assert ss == ss[..j] + [ss[j]] + ss[j + 1..];
    assert ss[..j][i] == ss[i];
    assert ss[i] in multiset(ss[..j]);
  }

  /** Along the axis the unique edge optimum is the first or the last, and the edge is seen. */
  lemma EdgeIsSeen(ss: seq<Sample>, i: nat, direction: int)
    requires DistinctCoords(ss) && UniqueEdgeOptimum(ss, i, direction)
    ensures ImprovingEdge(ss) == direction && Best(ss) == i
  {
    var ordered := Sorted(ss);
    DistinctSorted(ss);
    SortedAscends(ss);
    SortedMembers(ss, ss[i]);
    var k :| 0 <= k < |ordered| && ordered[k] == ss[i];
    forall m | 0 <= m < |ordered| && m != k
      ensures ordered[m].score < ordered[k].score
      ensures if direction < 0 then ordered[k].coord < ordered[m].coord else ordered[k].coord > ordered[m].coord
    {
      SortedMembers(ss, ordered[m]);
      var j :| 0 <= j < |ss| && ss[j] == ordered[m];
      if m < k { assert ordered[m].coord != ordered[k].coord; } else { assert ordered[k].coord != ordered[m].coord; }
    }
    assert k == if direction < 0 then 0 else |ordered| - 1;
    assert Best(ordered) == k;
  }

  lemma ReachGrows(step: real, i: nat)
    requires step > 0.0
    ensures Reach(step, 0) == step && Reach(step, i) >= step && Reach(step, i + 1) > Reach(step, i)
  {
    assert (i + 1 + 1) as real == (i + 1) as real + 1.0 && (i + 1) as real >= 1.0;
    assert step * ((i + 1) as real + 1.0) == step * (i + 1) as real + step;
    assert step * ((i + 1) as real - 1.0) >= 0.0;
  }

  /** The distance of a value from `from`, outward. */
  function Out(direction: int, from: real, x: real): real {
    if direction < 0 then from - x else x - from
  }

  /** Suggestions on one side are at least a step out, no further than the last offset, and ever further out. */
  lemma {:induction false} AroundValues(best: Sample, direction: int, step: real, n: nat)
    requires step > 0.0
    ensures var r := Around(best, Outward(direction, step), n);
      && StrictlyOutward(direction, r)
      && forall k :: 0 <= k < |r| ==> n > 0 && step <= Out(direction, best.coord, r[k].value) <= Reach(step, n - 1)
  {
    if n > 0 {
      AroundValues(best, direction, step, n - 1);
      ReachGrows(step, n - 1);
      if n > 1 { ReachGrows(step, n - 2); }
    }
  }

  /** With every position known and distinct and a unique best score that is an edge: the sweep is never called
      converged, and every suggestion lies strictly beyond the tested range on the improving side, in outward order. */
  lemma {:induction false} EdgeOptimumExtendsRange(ss: seq<Sample>, i: nat, direction: int, fraction: real,
      count: nat, relTol: real)
    requires DistinctCoords(ss) && UniqueEdgeOptimum(ss, i, direction) && fraction > 0.0
    ensures !IsConverged(ss, relTol)
    ensures var r, step := RefineAround(ss, fraction, count), EdgeStep(Sorted(ss), fraction);
      && StrictlyOutward(direction, r) && AllBeyond(ss, direction, r)
      && (r != [] <==> step > 0.0 && SomePositive(ss[i].coord, direction, step, count))
  {
    EdgeIsSeen(ss, i, direction);
    RefinesAtEdge(ss, fraction, count);
    var step := EdgeStep(Sorted(ss), fraction);
    if step > 0.0 {
      FromEdgeOutward(ss, i, direction, step, count);
      AroundKeepsSome(ss[i], direction, step, count);
    }
  }

  /** Some of `n` suggestions outward is positive: the first when they descend, the last when they ascend. */
  predicate SomePositive(from: real, direction: int, step: real, n: nat) {
    n > 0 && if direction < 0 then from - step > 0.0 else from + Reach(step, n - 1) > 0.0
  }

  lemma {:induction false} AroundKeepsSome(best: Sample, direction: int, step: real, n: nat)
    requires step > 0.0
    ensures Around(best, Outward(direction, step), n) != [] <==> SomePositive(best.coord, direction, step, n)
  {
    if n > 0 {
      AroundKeepsSome(best, direction, step, n - 1);
      ReachGrows(step, n - 1);
      if n > 1 { ReachGrows(step, n - 2); }
    }
  }

  /** The same for `summary` on the campaign's points and positions, with its own tolerance, step and number. */
  lemma SummaryExtendsRange(points: seq<Point>, coordinates: map<string, real>, i: nat, direction: int)
    requires Complete(points, coordinates) && DistinctCoords(Located(points, coordinates))
    requires UniqueEdgeOptimum(Located(points, coordinates), i, direction)
    ensures var ss := Located(points, coordinates);
      var r := Suggestions(ss, REL_TOL);
      !IsConverged(ss, REL_TOL) && StrictlyOutward(direction, r) && AllBeyond(ss, direction, r)
  {
    EdgeOptimumExtendsRange(Located(points, coordinates), i, direction, FRACTION, COUNT, REL_TOL);
  }

  lemma FromEdgeOutward(ss: seq<Sample>, i: nat, direction: int, step: real, count: nat)
    requires UniqueEdgeOptimum(ss, i, direction) && step > 0.0 && i == Best(ss)
    ensures var r := Suggest(ss, direction, step, count); StrictlyOutward(direction, r) && AllBeyond(ss, direction, r)
  {
    AroundValues(ss[i], direction, step, count);
    var r := Around(ss[i], Outward(direction, step), count);
    forall k | 0 <= k < |r|
      ensures Beyond(ss, direction, r[k].value)
    {
      assert Out(direction, ss[i].coord, r[k].value) >= step;
    }
  }

  lemma EdgeStepSign(ordered: seq<Sample>, fraction: real)
    requires fraction > 0.0
    ensures EdgeStep(ordered, fraction) >= 0.0
  {
    if |ordered| >= 2 {
      var last := ordered[|ordered| - 1].coord;
      assert Abs(last - ordered[0].coord) * fraction >= 0.0;
      assert Abs(last) * fraction >= 0.0;
    }
  }

  /** `n` alternating offsets of so much reach this far. */
  function Span(step: real, n: nat): real {
    step * ((n + 1) / 2) as real
  }

  /** Around an interior optimum all suggestions stay closer to it than any other tested position, so none repeats or
      passes one, for every step fraction and number with which the furthest offset is less than the whole distance. */
  lemma {:induction false} InteriorStaysBetween(ss: seq<Sample>, k: nat, fraction: real, count: nat)
    requires ss != [] && ImprovingEdge(ss) == 0 && k < |ss| && ss[k].name != ss[Best(ss)].name
    requires fraction > 0.0 && Span(fraction, count) < 1.0
    requires AllApart(ss, ss[Best(ss)], fraction)
    ensures Closer(RefineAround(ss, fraction, count), ss[Best(ss)].coord, Abs(ss[k].coord - ss[Best(ss)].coord))
  {
    var i := Best(ss);
    SampleApart(ss, ss[i], k, fraction);
    var step := StepAmong(Sorted(ss), ss[i], ss[k], fraction);
    StepStaysInside(ss[i], step, Abs(ss[k].coord - ss[i].coord), fraction, count);
    assert RefineAround(ss, fraction, count) == Around(ss[i], BothSides(step), count);
  }

  lemma {:induction false} StepStaysInside(best: Sample, step: real, gap: real, fraction: real, count: nat)
    requires 0.0 < step <= Part(gap, fraction) && gap >= 0.0 && Span(fraction, count) < 1.0
    ensures Closer(Around(best, BothSides(step), count), best.coord, gap)
  {
    BothSidesNear(best, step, count);
    SpanInside(step, gap, fraction, count);
  }

  lemma {:induction false} SpanInside(step: real, gap: real, fraction: real, n: nat)
    requires 0.0 < step <= Part(gap, fraction) && gap >= 0.0 && Span(fraction, n) < 1.0
    ensures Span(step, n) < gap
  {
    PositiveFactor(gap, fraction);
    var m := ((n + 1) / 2) as real;
    Regroup(gap, fraction, m, Part(gap, fraction), Span(fraction, n));
    PartInside(step, gap, Part(gap, fraction), m, Span(fraction, n));
  }

  lemma {:induction false} Regroup(a: real, b: real, c: real, ab: real, bc: real)
    requires ab == a * b && bc == b * c
    ensures ab * c == a * bc
  {
  }

  lemma {:induction false} PartInside(step: real, gap: real, whole: real, m: real, part: real)
    requires step <= whole && m >= 0.0 && whole * m == gap * part && gap > 0.0 && part < 1.0
    ensures step * m < gap
  {
    assert (whole - step) * m >= 0.0;
    assert gap * (1.0 - part) > 0.0;
  }

  lemma {:induction false} PositiveFactor(a: real, b: real)
    requires Part(a, b) > 0.0 && a >= 0.0
    ensures a > 0.0
  {
  }

  lemma {:induction false} PartGrows(a: real, b: real, fraction: real)
    requires a <= b && fraction > 0.0
    ensures Part(a, fraction) <= Part(b, fraction) && (a >= 0.0 ==> Part(a, fraction) >= 0.0)
  {
    assert (b - a) * fraction >= 0.0;
  }

  lemma {:induction false} SpanGrows(step: real, m: nat, n: nat)
    requires m <= n && step > 0.0
    ensures Span(step, m) <= Span(step, n)
  {
    TimesGrows(step, ((m + 1) / 2) as real, ((n + 1) / 2) as real, Span(step, m), Span(step, n));
  }

  lemma {:induction false} TimesGrows(x: real, a: real, b: real, xa: real, xb: real)
    requires x > 0.0 && a <= b && xa == x * a && xb == x * b
    ensures xa <= xb
  {
    assert x * (b - a) >= 0.0;
  }

  lemma {:induction false} SampleApart(ss: seq<Sample>, best: Sample, k: nat, fraction: real)
    requires k < |ss| && AllApart(ss, best, fraction)
    ensures ss[k] in Sorted(ss) && AllApart(Sorted(ss), best, fraction)
  {
    var ordered := Sorted(ss);
    SortedMembers(ss, ss[k]);
    forall h | 0 <= h < |ordered| && ordered[h].name != best.name
      ensures Apart(ordered[h], best, fraction)
    {
      SortedMembers(ss, ordered[h]);
    }
  }

  ghost predicate AllApart(ss: seq<Sample>, best: Sample, fraction: real) {
    forall h :: 0 <= h < |ss| && ss[h].name != best.name ==> Apart(ss[h], best, fraction)
  }

  /** Far enough apart for a fraction of the distance to count as a step. */
  ghost predicate Apart(s: Sample, best: Sample, fraction: real) {
    !IsZero(Part(Abs(s.coord - best.coord), fraction))
  }

  /** Off the position, by less than `gap`. */
  ghost predicate Closer(r: seq<Suggestion>, at: real, gap: real) {
    forall s :: s in r ==> 0.0 < Abs(s.value - at) < gap
  }

  lemma {:induction false} StepAmong(ordered: seq<Sample>, best: Sample, s: Sample, fraction: real)
      returns (step: real)
    requires s in ordered && s.name != best.name && AllApart(ordered, best, fraction) && fraction > 0.0
    ensures step == InteriorStep(ordered, best.name, best.coord, fraction) && !IsZero(step)
    ensures 0.0 < step <= Part(Abs(s.coord - best.coord), fraction)
  {
    var m :| 0 <= m < |ordered| && ordered[m] == s;
    step := StepIsFraction(ordered, best, m, fraction);
  }

  lemma {:induction false} StepIsFraction(ordered: seq<Sample>, best: Sample, m: nat, fraction: real)
      returns (step: real)
    requires m < |ordered| && ordered[m].name != best.name && AllApart(ordered, best, fraction) && fraction > 0.0
    ensures step == InteriorStep(ordered, best.name, best.coord, fraction) && !IsZero(step)
    ensures 0.0 < step <= Part(Abs(ordered[m].coord - best.coord), fraction)
  {
    NearestIsLeast(ordered, best.name, best.coord, m);
    NearestIsSome(ordered, best.name, best.coord);
    var gap := Nearest(ordered, best.name, best.coord).value;
    var h :| 0 <= h < |ordered| && ordered[h].name != best.name && gap == Abs(ordered[h].coord - best.coord);
    assert Apart(ordered[h], best, fraction);
    step := Part(gap, fraction);
    PartGrows(gap, Abs(ordered[m].coord - best.coord), fraction);
    NearestStep(ordered, best, gap, fraction);
  }

  lemma {:induction false} NearestStep(ordered: seq<Sample>, best: Sample, gap: real, fraction: real)
    requires Nearest(ordered, best.name, best.coord) == Some(gap) && !IsZero(Part(gap, fraction))
    ensures InteriorStep(ordered, best.name, best.coord, fraction) == Part(gap, fraction)
  {
  }

  lemma {:induction false} NearestIsLeast(ss: seq<Sample>, name: string, at: real, m: nat)
    requires m < |ss| && ss[m].name != name
    ensures Nearest(ss, name, at).Some? && Nearest(ss, name, at).value <= Abs(ss[m].coord - at)
  {
    if m > 0 { NearestIsLeast(ss[1..], name, at, m - 1); }
  }

  lemma {:induction false} NearestIsSome(ss: seq<Sample>, name: string, at: real)
    ensures var n := Nearest(ss, name, at);
      n.Some? ==> exists h :: 0 <= h < |ss| && ss[h].name != name && n.value == Abs(ss[h].coord - at)
  {
    if ss != [] {
      NearestIsSome(ss[1..], name, at);
      var n, rest := Nearest(ss, name, at), Nearest(ss[1..], name, at);
      if n.Some? && n == rest {
        var h :| 0 <= h < |ss[1..]| && ss[1..][h].name != name && rest.value == Abs(ss[1..][h].coord - at);
        assert ss[h + 1] == ss[1..][h];
      }
    }
  }

  /** Offset `i` is the end of a span of `i + 1`. */
  lemma {:induction false} OffsetSpan(step: real, i: nat)
    requires step > 0.0
    ensures 0.0 < Abs(Offset(step, i)) <= Span(step, i + 1)
  {
    assert (i + 1 + 1) / 2 == i / 2 + 1;
    TimesGrows(step, 1.0, (i / 2 + 1) as real, step, Span(step, i + 1));
  }

  lemma {:induction false} BothSidesNear(best: Sample, step: real, n: nat)
    requires step > 0.0
    ensures forall s :: s in Around(best, BothSides(step), n) ==> 0.0 < Abs(s.value - best.coord) <= Span(step, n)
  {
    if n > 0 {
      BothSidesNear(best, step, n - 1);
      OffsetSpan(step, n - 1);
      SpanGrows(step, n - 1, n);
    }
  }

  // ---------------------------------------------------------------------------
  // Ties

  /** The edge of the tested range on one side. */
  function EdgeCoord(ss: seq<Sample>, direction: int): real
    requires ss != []
  {
    var ordered := Sorted(ss);
    if direction < 0 then ordered[0].coord else ordered[|ordered| - 1].coord
  }

  lemma EdgeBounds(ss: seq<Sample>, direction: int, x: real)
    requires ss != []
    ensures Beyond(ss, direction, x) <==>
      if direction < 0 then x < EdgeCoord(ss, direction) else x > EdgeCoord(ss, direction)
  {
    var ordered := Sorted(ss);
    SortedAscends(ss);
    var e := ordered[if direction < 0 then 0 else |ordered| - 1];
    SortedMembers(ss, e);
    var k :| 0 <= k < |ss| && ss[k] == e;
    forall i | 0 <= i < |ss| ensures if direction < 0 then e.coord <= ss[i].coord else e.coord >= ss[i].coord {
      SortedMembers(ss, ss[i]);
      var m :| 0 <= m < |ordered| && ordered[m] == ss[i];
    }
  }

  lemma {:induction false} SuggestsBeyondExactly(ss: seq<Sample>, d: int, step: real, count: nat)
    requires ss != [] && (forall i :: 0 <= i < |ss| ==> ss[i].coord > 0.0)
    requires (d == -1 || d == 1) && step > 0.0 && count > 0
    ensures AllBeyond(ss, d, Suggest(ss, d, step, count)) <==> Abs(ss[Best(ss)].coord - EdgeCoord(ss, d)) < step
  {
    InRange(ss, Best(ss), d);
    BeyondExactly(ss, ss[Best(ss)], d, step, count, Suggest(ss, d, step, count));
  }

  /** At an improving edge those are the suggestions made. */
  lemma RefinesAtEdge(ss: seq<Sample>, fraction: real, count: nat)
    requires ss != [] && fraction > 0.0 && ImprovingEdge(ss) != 0
    ensures ImprovingEdge(ss) == -1 || ImprovingEdge(ss) == 1
    ensures var step := EdgeStep(Sorted(ss), fraction);
      step >= 0.0 && RefineAround(ss, fraction, count) ==
        if step == 0.0 then [] else Suggest(ss, ImprovingEdge(ss), step, count)
  {
    EdgeStepSign(Sorted(ss), fraction);
  }

  /** Ties for the best score are broken by insertion order in one place and along the axis in the other.  At positive
      positions, which the refiner assumes, all suggestions made at an improving edge lie beyond the range exactly when
      none is made for want of a step or the sample they start from is less than one step from that edge. */
  lemma {:induction false} EdgeSuggestionsExactly(ss: seq<Sample>, fraction: real, count: nat)
    requires ss != [] && (forall i :: 0 <= i < |ss| ==> ss[i].coord > 0.0)
    requires fraction > 0.0 && count > 0 && ImprovingEdge(ss) != 0
    ensures var d, step := ImprovingEdge(ss), EdgeStep(Sorted(ss), fraction);
      AllBeyond(ss, d, RefineAround(ss, fraction, count)) <==>
        step == 0.0 || Abs(ss[Best(ss)].coord - EdgeCoord(ss, d)) < step
  {
    RefinesAtEdge(ss, fraction, count);
    EdgeSuggestionsFrom(ss, ImprovingEdge(ss), EdgeStep(Sorted(ss), fraction), count,
      RefineAround(ss, fraction, count));
  }

  lemma {:induction false} EdgeSuggestionsFrom(ss: seq<Sample>, d: int, step: real, count: nat, r: seq<Suggestion>)
    requires ss != [] && (forall i :: 0 <= i < |ss| ==> ss[i].coord > 0.0)
    requires (d == -1 || d == 1) && step >= 0.0 && count > 0
      && r == if step == 0.0 then [] else Suggest(ss, d, step, count)
    ensures AllBeyond(ss, d, r) <==> step == 0.0 || Abs(ss[Best(ss)].coord - EdgeCoord(ss, d)) < step
  {
    if step > 0.0 { SuggestsBeyondExactly(ss, d, step, count); }
  }

  lemma {:induction false} BeyondExactly(ss: seq<Sample>, best: Sample, d: int, step: real, count: nat,
      r: seq<Suggestion>)
    requires ss != [] && (d == -1 || d == 1) && step > 0.0 && count > 0 && best.coord > 0.0 && EdgeCoord(ss, d) > 0.0
    requires Out(d, best.coord, EdgeCoord(ss, d)) >= 0.0
    requires r == Around(best, Outward(d, step), count)
    ensures AllBeyond(ss, d, r) <==> Abs(best.coord - EdgeCoord(ss, d)) < step
  {
    var edge := EdgeCoord(ss, d);
    AroundValues(best, d, step, count);
    forall k | 0 <= k < |r|
      ensures Beyond(ss, d, r[k].value) <==> Out(d, edge, r[k].value) > 0.0
    {
      EdgeBounds(ss, d, r[k].value);
    }
    FirstSuggestion(best, d, step, count);
    if Abs(best.coord - edge) >= step { assert !Beyond(ss, d, r[0].value); }
  }

  lemma InRange(ss: seq<Sample>, i: nat, direction: int)
    requires i < |ss| && (forall k :: 0 <= k < |ss| ==> ss[k].coord > 0.0)
    ensures EdgeCoord(ss, direction) > 0.0 && Out(direction, ss[i].coord, EdgeCoord(ss, direction)) >= 0.0
  {
    EdgeBounds(ss, direction, ss[i].coord);
    var ordered := Sorted(ss);
    SortedMembers(ss, ordered[if direction < 0 then 0 else |ordered| - 1]);
  }

  /** The first offset is kept when it stays positive. */
  lemma {:induction false} FirstSuggestion(best: Sample, direction: int, step: real, n: nat)
    requires n > 0 && step > 0.0
    ensures var r, first := Around(best, Outward(direction, step), n),
      if direction < 0 then best.coord - step else best.coord + step;
      first > 0.0 ==> r != [] && r[0].value == first
  {
    ReachGrows(step, 0);
    if n > 1 {
      FirstSuggestion(best, direction, step, n - 1);
    } else {
      assert Around(best, Outward(direction, step), 0) == [];
    }
  }

  /** Three positions 3, 2, 1 in that insertion order with scores 5, 1, 5: the low edge improves, but the suggestions
      start from position 3 and not all of them leave the tested range. */
  lemma {:induction false} TieStaysInside()
    ensures var ss := [Sample("c", 5.0, 3.0), Sample("b", 1.0, 2.0), Sample("a", 5.0, 1.0)];
      ImprovingEdge(ss) == -1 && !AllBeyond(ss, -1, RefineAround(ss, FRACTION, COUNT))
  {
    var a, b, c := Sample("a", 5.0, 1.0), Sample("b", 1.0, 2.0), Sample("c", 5.0, 3.0);
    SortThree(a, b, c);
    assert Best([c, b, a]) == 0 by { assert [c, b, a][0] == c && [c, b, a][1] == b && [c, b, a][2] == a; }
    EdgeSuggestionsExactly([c, b, a], FRACTION, COUNT);
  }

  lemma SortedSnoc(ss: seq<Sample>, s: Sample)
    ensures Sorted(ss + [s]) == Insert(s, Sorted(ss))
  {
    assert (ss + [s])[..|ss|] == ss;
  }

  lemma SortThree(a: Sample, b: Sample, c: Sample)
    requires a.coord < b.coord < c.coord
    ensures Sorted([c, b, a]) == [a, b, c]
  {
    SortedSnoc([], c);
    SortedSnoc([c], b);
    SortedSnoc([c, b], a);
    assert [] + [c] == [c] && [c] + [b] == [c, b] && [c, b] + [a] == [c, b, a];
    assert [b] + [c] == [b, c] && [a] + [b, c] == [a, b, c];
  }

  // ---------------------------------------------------------------------------
  // Close to zero

  lemma SortTwo(a: Sample, b: Sample)
    requires a.coord < b.coord
    ensures Sorted([a, b]) == [a, b]
  {
    SortedSnoc([], a);
    SortedSnoc([a], b);
    assert [] + [a] == [a] && [a] + [b] == [a, b];
    assert [a][1..] == [];
  }

  /** Two positions 0.05 and 1.05 with scores 2 and 1: the low edge improves and the sweep is not converged, but one
      step of 0.1 down is negative, so nothing is suggested. */
  lemma {:induction false} NearZeroSuggestsNothing(a: Sample, b: Sample)
    requires a == Sample("a", 2.0, 0.05) && b == Sample("b", 1.0, 1.05)
    ensures ImprovingEdge([a, b]) == -1 && !IsConverged([a, b], REL_TOL) && Suggestions([a, b], REL_TOL) == []
  {
    var ss := [a, b];
    SortTwo(a, b);
    assert UniqueEdgeOptimum(ss, 0, -1);
    EdgeIsSeen(ss, 0, -1);
    EdgeOptimumExtendsRange(ss, 0, -1, FRACTION, COUNT, REL_TOL);
    assert EdgeStep([a, b], FRACTION) == 0.1;
    assert !SomePositive(0.05, -1, 0.1, COUNT);
  }
}

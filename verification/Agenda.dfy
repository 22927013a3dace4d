/** The agenda tree: nested groups of simulations, addressed by slash-joined paths.

    A tree holds only names.  The records of its leaves live in one sequence in
    flattening order, so leaf `i` of the tree is record `i` of the campaign. */
module Agenda {
  import opened Prelude

  type Name = string
  type Path = seq<Name>

  /** The ordered children of one group. */
  datatype Kids =
    | End
    | Sim(name: Name, rest: Kids)
    | Group(name: Name, kids: Kids, rest: Kids)

  function Count(k: Kids): nat {
    match k
    case End => 0
    case Sim(_, rest) => 1 + Count(rest)
    case Group(_, kids, rest) => Count(kids) + Count(rest)
  }

  function Names(k: Kids): set<Name> {
    match k
    case End => {}
    case Sim(n, rest) => {n} + Names(rest)
    case Group(n, _, rest) => {n} + Names(rest)
  }

  /** Entry names are non-empty, do not start with a dot and hold no slash. */
  predicate LegalName(n: Name) {
    n != "" && n[0] != '.' && '/' !in n
  }

  /** Names are legal, and unique within each group. */
  predicate WellFormed(k: Kids) {
    match k
    case End => true
    case Sim(n, rest) => LegalName(n) && n !in Names(rest) && WellFormed(rest)
    case Group(n, kids, rest) => LegalName(n) && n !in Names(rest) && WellFormed(kids) && WellFormed(rest)
  }

  function Under(n: Name, paths: seq<Path>): (r: seq<Path>)
    ensures |r| == |paths|
    ensures forall i :: 0 <= i < |r| ==> r[i] == [n] + paths[i]
  {
    seq(|paths|, i requires 0 <= i < |paths| => [n] + paths[i])
  }

  /** The leaf paths, depth first in insertion order. */
  function Paths(k: Kids): (r: seq<Path>)
    ensures |r| == Count(k)
  {
    match k
    case End => []
    case Sim(n, rest) => [[n]] + Paths(rest)
    case Group(n, kids, rest) => Under(n, Paths(kids)) + Paths(rest)
  }

  /** Walk to the leaf named by `path`; a group is not a leaf. `off` is the index of the first leaf of `k`. */
  function Walk(k: Kids, off: nat, path: Path): Option<nat> {
    if path == [] then None else
    match k
    case End => None
    case Sim(n, rest) =>
      if n != path[0] then Walk(rest, off + 1, path)
      else if |path| == 1 then Some(off) else None
    case Group(n, kids, rest) =>
      if n != path[0] then Walk(rest, off + Count(kids), path)
      else if |path| == 1 then None else Walk(kids, off, path[1..])
  }

  lemma {:induction false} PathHeads(k: Kids, i: nat)
    requires i < Count(k)
    ensures Paths(k)[i] != [] && Paths(k)[i][0] in Names(k)
  {
    match k
    case Sim(n, rest) =>
      if i > 0 { PathHeads(rest, i - 1); }
    case Group(n, kids, rest) =>
      if i >= Count(kids) { PathHeads(rest, i - Count(kids)); }
  }

  lemma {:induction false} WalkReachesLeaf(k: Kids, off: nat, i: nat)
    requires WellFormed(k) && i < Count(k)
    ensures Walk(k, off, Paths(k)[i]) == Some(off + i)
  {
    PathHeads(k, i);
    match k
    case Sim(n, rest) =>
      if i > 0 {
        PathHeads(rest, i - 1);
        WalkReachesLeaf(rest, off + 1, i - 1);
      }
    case Group(n, kids, rest) =>
      if i < Count(kids) {
        PathHeads(kids, i);
        WalkReachesLeaf(kids, off, i);
        assert Paths(k)[i] == [n] + Paths(kids)[i];
        assert Paths(k)[i][1..] == Paths(kids)[i];
      } else {
        PathHeads(rest, i - Count(kids));
        WalkReachesLeaf(rest, off + Count(kids), i - Count(kids));
      }
  }

  lemma {:induction false} WalkStaysInside(k: Kids, off: nat, path: Path)
    requires Walk(k, off, path).Some?
    ensures off <= Walk(k, off, path).value < off + Count(k)
    ensures Paths(k)[Walk(k, off, path).value - off] == path
  {
    match k
    case Sim(n, rest) =>
      if n != path[0] { WalkStaysInside(rest, off + 1, path); }
    case Group(n, kids, rest) =>
      if n != path[0] { WalkStaysInside(rest, off + Count(kids), path); }
      else { WalkStaysInside(kids, off, path[1..]); }
  }

  lemma PathsDistinct(k: Kids)
    requires WellFormed(k)
    ensures forall i, j :: 0 <= i < j < Count(k) ==> Paths(k)[i] != Paths(k)[j]
  {
    forall i, j | 0 <= i < j < Count(k) ensures Paths(k)[i] != Paths(k)[j] {
      WalkReachesLeaf(k, 0, i);
      WalkReachesLeaf(k, 0, j);
    }
  }

  // ---------------------------------------------------------------------------
  // Slash-joined path text

  function Join(path: Path): string
    requires path != []
  {
    if |path| == 1 then path[0] else path[0] + "/" + Join(path[1..])
  }

  /** Text split at every slash. */
  function Split(text: string): (r: Path)
    ensures r != []
  {
    if text == "" then [""]
    else if text[0] == '/' then [""] + Split(text[1..])
    else var r := Split(text[1..]); [[text[0]] + r[0]] + r[1..]
  }

  lemma {:induction false} SplitName(n: Name, tail: string)
    requires '/' !in n
    ensures Split(n) == [n]
    ensures Split(n + "/" + tail) == [n] + Split(tail)
  {
    if n == "" {
      assert n + "/" + tail == "/" + tail;
    } else {
      SplitName(n[1..], tail);
      assert (n + "/" + tail)[1..] == n[1..] + "/" + tail;
      assert [n[0]] + n[1..] == n;
    }
  }

  lemma {:induction false} SplitInvertsJoin(path: Path)
    requires path != [] && forall n :: n in path ==> '/' !in n
    ensures Split(Join(path)) == path
  {
    if |path| == 1 {
      SplitName(path[0], "");
    } else {
      SplitInvertsJoin(path[1..]);
      SplitName(path[0], Join(path[1..]));
    }
  }

  /** The leaf addressed by path text. */
  function LeafAt(k: Kids, text: string): Option<nat> {
    Walk(k, 0, Split(text))
  }

  lemma {:induction false} PathNamesLegal(k: Kids, i: nat)
    requires WellFormed(k) && i < Count(k)
    ensures forall n :: n in Paths(k)[i] ==> LegalName(n)
  {
    match k
    case Sim(n, rest) =>
      if i > 0 { PathNamesLegal(rest, i - 1); }
    case Group(n, kids, rest) =>
      if i < Count(kids) { PathNamesLegal(kids, i); }
      else { PathNamesLegal(rest, i - Count(kids)); }
  }

  /** Path text is a faithful address: it reaches the leaf it was built from, and only text that spells a
      leaf's path reaches anything. */
  lemma {:induction false} LeafAtInvertsFlattening(k: Kids, i: nat, text: string)
    requires WellFormed(k) && i < Count(k)
    ensures Paths(k)[i] != [] && LeafAt(k, Join(Paths(k)[i])) == Some(i)
    ensures LeafAt(k, text) == Some(i) <==> Split(text) == Paths(k)[i]
  {
    PathHeads(k, i);
    PathNamesLegal(k, i);
    SplitInvertsJoin(Paths(k)[i]);
    WalkReachesLeaf(k, 0, i);
    if LeafAt(k, text) == Some(i) {
      WalkStaysInside(k, 0, Split(text));
    }
  }

  // ---------------------------------------------------------------------------
  // Growth

  /** The documented expansion primitive: one more simulation, after the existing entries. */
  function Append(k: Kids, n: Name): Kids {
    match k
    case End => Sim(n, End)
    case Sim(m, rest) => Sim(m, Append(rest, n))
    case Group(m, kids, rest) => Group(m, kids, Append(rest, n))
  }

  lemma {:induction false} AppendKeepsLeaves(k: Kids, n: Name)
    requires WellFormed(k) && LegalName(n) && n !in Names(k)
    ensures WellFormed(Append(k, n)) && Names(Append(k, n)) == Names(k) + {n}
    ensures Paths(Append(k, n)) == Paths(k) + [[n]]
  {
    match k
    case End =>
    case Sim(m, rest) =>
      AppendKeepsLeaves(rest, n);
      assert [[m]] + (Paths(rest) + [[n]]) == Paths(k) + [[n]];
    case Group(m, kids, rest) =>
      AppendKeepsLeaves(rest, n);
      assert Under(m, Paths(kids)) + (Paths(rest) + [[n]]) == Paths(k) + [[n]];
  }

  // ---------------------------------------------------------------------------
  // Entries a dependency can name

  datatype Entry = LeafEntry(leaf: nat) | GroupEntry(kids: Kids, off: nat)

  /** The entry called `n` among siblings `k`. */
  function EntryNamed(k: Kids, off: nat, n: Name): Option<Entry> {
    match k
    case End => None
    case Sim(m, rest) => if m == n then Some(LeafEntry(off)) else EntryNamed(rest, off + 1, n)
    case Group(m, kids, rest) =>
      if m == n then Some(GroupEntry(kids, off)) else EntryNamed(rest, off + Count(kids), n)
  }

  /** The innermost group holding leaf `off + i`, with the index of its first leaf. */
  function Siblings(top: Kids, topOff: nat, k: Kids, off: nat, i: nat): (Kids, nat)
    decreases k
  {
    match k
    case End => (top, topOff)
    case Sim(_, rest) => if i == 0 then (top, topOff) else Siblings(top, topOff, rest, off + 1, i - 1)
    case Group(_, kids, rest) =>
      if i < Count(kids) then Siblings(kids, off, kids, off, i)
      else Siblings(top, topOff, rest, off + Count(kids), i - Count(kids))
  }

  /** The entry at a full path. */
  function EntryAt(k: Kids, off: nat, path: Path): Option<Entry>
    decreases |path|
  {
    if path == [] then None
    else
      match EntryNamed(k, off, path[0])
      case Some(GroupEntry(kids, koff)) =>
        if |path| == 1 then Some(GroupEntry(kids, koff)) else EntryAt(kids, koff, path[1..])
      case Some(LeafEntry(i)) => if |path| == 1 then Some(LeafEntry(i)) else None
      case None => None
  }

  function LastSegment(text: string): Name {
    Split(text)[|Split(text)| - 1]
  }

  /** The sibling of leaf `i` with a name. */
  function SiblingNamed(root: Kids, i: nat, n: Name): Option<Entry> {
    var (group, off) := Siblings(root, 0, root, 0, i);
    EntryNamed(group, off, n)
  }

  /** Three rules in turn, the first hit deciding: a sibling of that name, the entry the name spells from the root, a
      sibling named like its last part. */
  function ResolveDependency(root: Kids, i: nat, dep: string): Option<Entry> {
    SiblingNamed(root, i, dep).Or(EntryAt(root, 0, Split(dep))).Or(SiblingNamed(root, i, LastSegment(dep)))
  }

  /** For the names a dependency list may hold, the full-path rule looks at the root entries only and the last rule
      finds nothing the first did not. */
  lemma LastRuleAddsNothing(root: Kids, i: nat, dep: Name)
    requires '/' !in dep
    ensures ResolveDependency(root, i, dep) == SiblingNamed(root, i, dep).Or(EntryNamed(root, 0, dep))
  {
    SplitName(dep, "");
  }

  /** For a path-style name, which a dependency list may not hold, it does: from `b` in group `g`, the name `x/a`
      reaches its sibling `a`. */
  lemma LastRuleWouldMatter()
    ensures var root := Group("g", Sim("a", Sim("b", End)), End);
      ResolveDependency(root, 1, "x/a") == Some(LeafEntry(0)) && !LegalName("x/a")
  {
    var kids := Sim("a", Sim("b", End));
    var root := Group("g", kids, End);
    assert Count(kids) == 2 && Siblings(root, 0, root, 0, 1) == (kids, 0);
    SplitName("x", "a");
    SplitName("a", "");
    assert "x" + "/" + "a" == "x/a" && Split("x/a") == ["x", "a"];
    assert "x"[0] != "g"[0] && "b"[0] != "a"[0] && |"x/a"| == 3 && "x/a"[1] == '/';
    assert EntryNamed(kids, 0, "x/a") == None && EntryAt(root, 0, ["x", "a"]) == None;
    assert EntryNamed(kids, 0, "a") == Some(LeafEntry(0));
  }

  /** The leaf indices below an entry. */
  predicate Below(e: Entry, j: nat) {
    match e
    case LeafEntry(i) => j == i
    case GroupEntry(kids, off) => off <= j < off + Count(kids)
  }

  predicate AllOf(k: Kids, off: nat, marks: seq<bool>) {
    match k
    case End => true
    case Sim(_, rest) => off < |marks| && marks[off] && AllOf(rest, off + 1, marks)
    case Group(_, kids, rest) => AllOf(kids, off, marks) && AllOf(rest, off + Count(kids), marks)
  }

  predicate AnyOf(k: Kids, off: nat, marks: seq<bool>) {
    match k
    case End => false
    case Sim(_, rest) => (off < |marks| && marks[off]) || AnyOf(rest, off + 1, marks)
    case Group(_, kids, rest) => AnyOf(kids, off, marks) || AnyOf(rest, off + Count(kids), marks)
  }

  /** Every marked leaf below the entry (an empty group holds vacuously). */
  predicate SubtreeAll(e: Entry, marks: seq<bool>) {
    match e
    case LeafEntry(i) => i < |marks| && marks[i]
    case GroupEntry(kids, off) => AllOf(kids, off, marks)
  }

  predicate SubtreeAny(e: Entry, marks: seq<bool>) {
    match e
    case LeafEntry(i) => i < |marks| && marks[i]
    case GroupEntry(kids, off) => AnyOf(kids, off, marks)
  }

  lemma {:induction false} KidsAreTheirLeaves(k: Kids, off: nat, marks: seq<bool>)
    requires off + Count(k) <= |marks|
    ensures AllOf(k, off, marks) <==> forall j :: off <= j < off + Count(k) ==> marks[j]
    ensures AnyOf(k, off, marks) <==> exists j :: off <= j < off + Count(k) && marks[j]
  {
    match k
    case End =>
    case Sim(_, rest) =>
      KidsAreTheirLeaves(rest, off + 1, marks);
    case Group(_, kids, rest) =>
      KidsAreTheirLeaves(kids, off, marks);
      KidsAreTheirLeaves(rest, off + Count(kids), marks);
  }

  /** The entry covers leaves from `off` to `off + n` only. */
  predicate Covered(e: Entry, off: nat, n: nat) {
    match e
    case LeafEntry(i) => off <= i < off + n
    case GroupEntry(kids, koff) => off <= koff && koff + Count(kids) <= off + n
  }

  lemma {:induction false} EntryNamedCovered(k: Kids, off: nat, n: Name)
    requires EntryNamed(k, off, n).Some?
    ensures Covered(EntryNamed(k, off, n).value, off, Count(k))
  {
    match k
    case Sim(m, rest) =>
      if m != n { EntryNamedCovered(rest, off + 1, n); }
    case Group(m, kids, rest) =>
      if m != n { EntryNamedCovered(rest, off + Count(kids), n); }
  }

  lemma {:induction false} EntryAtCovered(k: Kids, off: nat, path: Path)
    requires EntryAt(k, off, path).Some?
    ensures Covered(EntryAt(k, off, path).value, off, Count(k))
    decreases |path|
  {
    EntryNamedCovered(k, off, path[0]);
    if |path| > 1 {
      var e := EntryNamed(k, off, path[0]).value;
      EntryAtCovered(e.kids, e.off, path[1..]);
    }
  }

  lemma {:induction false} SiblingsInside(top: Kids, topOff: nat, k: Kids, off: nat, i: nat)
    requires topOff <= off && off + Count(k) <= topOff + Count(top)
    ensures var r := Siblings(top, topOff, k, off, i); topOff <= r.1 && r.1 + Count(r.0) <= topOff + Count(top)
    decreases k
  {
    match k
    case End =>
    case Sim(_, rest) =>
      if i != 0 { SiblingsInside(top, topOff, rest, off + 1, i - 1); }
    case Group(_, kids, rest) =>
      if i < Count(kids) { SiblingsInside(kids, off, kids, off, i); }
      else { SiblingsInside(top, topOff, rest, off + Count(kids), i - Count(kids)); }
  }

  /** What a resolved dependency ranges over are leaves of the tree, and the recursive subtree tests are
      exactly the for-all and exists tests over those leaves. */
  lemma SubtreeIsItsLeaves(root: Kids, i: nat, dep: string, marks: seq<bool>)
    requires |marks| == Count(root) && ResolveDependency(root, i, dep).Some?
    ensures var e := ResolveDependency(root, i, dep).value;
      && (forall j: nat :: Below(e, j) ==> j < |marks|)
      && (SubtreeAll(e, marks) <==> forall j: nat :: Below(e, j) ==> marks[j])
      && (SubtreeAny(e, marks) <==> exists j: nat :: Below(e, j) && marks[j])
  {
    var e := ResolveDependency(root, i, dep).value;
    ResolvedCovered(root, i, dep);
    match e
    case LeafEntry(leaf) => assert Below(e, leaf);
    case GroupEntry(kids, koff) =>
      KidsAreTheirLeaves(kids, koff, marks);
      assert forall j: nat :: Below(e, j) <==> koff <= j < koff + Count(kids);
  }

  lemma SiblingCovered(root: Kids, i: nat, n: Name)
    requires SiblingNamed(root, i, n).Some?
    ensures Covered(SiblingNamed(root, i, n).value, 0, Count(root))
  {
    var (group, off) := Siblings(root, 0, root, 0, i);
    SiblingsInside(root, 0, root, 0, i);
    EntryNamedCovered(group, off, n);
  }

  lemma ResolvedCovered(root: Kids, i: nat, dep: string)
    requires ResolveDependency(root, i, dep).Some?
    ensures Covered(ResolveDependency(root, i, dep).value, 0, Count(root))
  {
    if SiblingNamed(root, i, dep).Some? { SiblingCovered(root, i, dep); }
    else if EntryAt(root, 0, Split(dep)).Some? { EntryAtCovered(root, 0, Split(dep)); }
    else { SiblingCovered(root, i, LastSegment(dep)); }
  }

  // ---------------------------------------------------------------------------
  // What a dependency names, told by paths

  /** Whether leaf `a`, whose path is `p`, lies below the entry called `n`: exactly if its path starts with the name,
      and then it goes on inside the entry. */
  ghost predicate Heads(e: Option<Entry>, n: Name, a: nat, p: Path) {
    p != [] &&
    match e
    case None => p[0] != n
    case Some(LeafEntry(i)) => (i == a <==> p[0] == n) && (p[0] == n ==> p == [n])
    case Some(GroupEntry(kids, koff)) =>
      && WellFormed(kids) && (koff <= a < koff + Count(kids) <==> p[0] == n)
      && (p[0] == n ==> p == [n] + Paths(kids)[a - koff])
  }

  lemma {:induction false} EntryNamedWellFormed(k: Kids, off: nat, n: Name)
    requires WellFormed(k) && EntryNamed(k, off, n).Some?
    ensures EntryNamed(k, off, n).value.GroupEntry? ==> WellFormed(EntryNamed(k, off, n).value.kids)
  {
    match k
    case Sim(m, rest) =>
      if m != n { EntryNamedWellFormed(rest, off + 1, n); }
    case Group(m, kids, rest) =>
      if m != n { EntryNamedWellFormed(rest, off + Count(kids), n); }
  }

  /** How many leaves the first entry has. */
  function FirstCount(k: Kids): nat
    requires !k.End?
  {
    if k.Sim? then 1 else Count(k.kids)
  }

  lemma {:induction false} PathInRest(k: Kids, j: nat)
    requires !k.End? && WellFormed(k) && j < Count(k)
    ensures if j < FirstCount(k) then Paths(k)[j] != [] && Paths(k)[j][0] == k.name
      else Paths(k)[j] == Paths(k.rest)[j - FirstCount(k)] && Paths(k)[j] != [] && Paths(k)[j][0] != k.name
  {
    if j < FirstCount(k) {
      PathHeads(k, j);
    } else {
      PathsBehind(k, j);
      PathHeads(k.rest, j - FirstCount(k));
    }
  }

  lemma {:induction false} PathsBehind(k: Kids, j: nat)
    requires !k.End? && FirstCount(k) <= j < Count(k)
    ensures Paths(k)[j] == Paths(k.rest)[j - FirstCount(k)]
  {
    match k
    case Sim(n, rest) => assert Paths(k) == [[n]] + Paths(rest);
    case Group(n, kids, rest) => assert Paths(k) == Under(n, Paths(kids)) + Paths(rest);
  }

  lemma {:induction false} HeadsOwn(k: Kids, off: nat, j: nat)
    requires !k.End? && WellFormed(k) && j < Count(k)
    ensures Heads(EntryNamed(k, off, k.name), k.name, off + j, Paths(k)[j])
  {
    PathInRest(k, j);
  }

  lemma {:induction false} HeadsBehind(k: Kids, off: nat, n: Name, j: nat)
    requires !k.End? && WellFormed(k) && n != k.name && j < FirstCount(k)
    ensures Heads(EntryNamed(k, off, n), n, off + j, Paths(k)[j])
  {
    PathInRest(k, j);
    var e := EntryNamed(k.rest, off + FirstCount(k), n);
    assert EntryNamed(k, off, n) == e;
    if e.Some? {
      EntryNamedCovered(k.rest, off + FirstCount(k), n);
      EntryNamedWellFormed(k.rest, off + FirstCount(k), n);
    }
  }

  lemma {:induction false} EntryNamedHeads(k: Kids, off: nat, n: Name, j: nat)
    requires WellFormed(k) && j < Count(k)
    ensures Heads(EntryNamed(k, off, n), n, off + j, Paths(k)[j])
  {
    if k.name == n {
      HeadsOwn(k, off, j);
    } else if j < FirstCount(k) {
      HeadsBehind(k, off, n, j);
    } else {
      EntryNamedHeads(k.rest, off + FirstCount(k), n, j - FirstCount(k));
      PathInRest(k, j);
      assert EntryNamed(k, off, n) == EntryNamed(k.rest, off + FirstCount(k), n);
    }
  }

  /** The entry at a path covers exactly the leaves whose paths extend it; where there is none, no leaf's path does. */
  lemma {:induction false} EntryAtIsPrefix(k: Kids, off: nat, path: Path, j: nat)
    requires WellFormed(k) && j < Count(k) && path != []
    ensures EntryAt(k, off, path).Some? && Below(EntryAt(k, off, path).value, off + j) <==> path <= Paths(k)[j]
    decreases |path|
  {
    var n, p := path[0], Paths(k)[j];
    EntryNamedHeads(k, off, n, j);
    if |path| == 1 {
      assert path == [n];
    } else {
      match EntryNamed(k, off, n)
      case Some(GroupEntry(kids, koff)) =>
        if p[0] == n {
          EntryAtIsPrefix(kids, koff, path[1..], off + j - koff);
          assert path == [n] + path[1..] && p[1..] == Paths(kids)[off + j - koff];
          assert path <= p <==> path[1..] <= p[1..];
        } else if EntryAt(kids, koff, path[1..]).Some? {
          EntryAtCovered(kids, koff, path[1..]);
        }
      case _ =>
    }
  }

  lemma {:induction false} EntryAtSnoc(k: Kids, off: nat, group: Path, n: Name)
    requires group != []
    ensures EntryAt(k, off, group + [n]) ==
      match EntryAt(k, off, group)
      case Some(GroupEntry(kids, koff)) => EntryNamed(kids, koff, n)
      case _ => None
    decreases |group|
  {
    var path := group + [n];
    assert path[1..] == group[1..] + [n];
    if |group| == 1 {
      assert group[1..] == [] && path[1..] == [n];
    } else {
      match EntryNamed(k, off, group[0])
      case Some(GroupEntry(kids, koff)) => EntryAtSnoc(kids, koff, group[1..], n);
      case _ =>
    }
  }

  /** The path of the group a leaf is in. */
  function Parent(k: Kids, i: nat): Path
    requires i < Count(k)
  {
    PathHeads(k, i);
    Paths(k)[i][..|Paths(k)[i]| - 1]
  }

  /** `group`, whose first leaf is `goff`, is where leaf `i` of `k` lies, or `top` if the leaf is an entry of `k`. */
  ghost predicate Groups(top: Kids, topOff: nat, k: Kids, off: nat, i: nat, group: Kids, goff: nat)
    requires i < Count(k)
  {
    if Parent(k, i) == [] then group == top && goff == topOff
    else EntryAt(k, off, Parent(k, i)) == Some(GroupEntry(group, goff))
  }

  lemma {:induction false} EntryAtBehind(k: Kids, off: nat, path: Path)
    requires !k.End? && path != [] && path[0] != k.name
    ensures EntryAt(k, off, path) == EntryAt(k.rest, off + FirstCount(k), path)
  {
    assert EntryNamed(k, off, path[0]) == EntryNamed(k.rest, off + FirstCount(k), path[0]);
  }

  lemma {:induction false} ParentBehind(k: Kids, i: nat)
    requires !k.End? && WellFormed(k) && FirstCount(k) <= i < Count(k)
    ensures Parent(k, i) == Parent(k.rest, i - FirstCount(k)) && (Parent(k, i) != [] ==> Parent(k, i)[0] != k.name)
  {
    PathInRest(k, i);
  }

  /** An entry in front changes nothing for the leaves behind it. */
  lemma {:induction false} GroupsBehind(top: Kids, topOff: nat, k: Kids, off: nat, i: nat, group: Kids, goff: nat)
    requires !k.End? && WellFormed(k) && FirstCount(k) <= i < Count(k)
    requires Groups(top, topOff, k.rest, off + FirstCount(k), i - FirstCount(k), group, goff)
    ensures Groups(top, topOff, k, off, i, group, goff)
  {
    ParentBehind(k, i);
    if Parent(k, i) != [] { EntryAtBehind(k, off, Parent(k, i)); }
  }

  lemma {:induction false} GroupsInside(top: Kids, topOff: nat, n: Name, kids: Kids, rest: Kids, off: nat, i: nat,
      group: Kids, goff: nat)
    requires i < Count(kids) && Groups(kids, off, kids, off, i, group, goff)
    ensures Groups(top, topOff, Group(n, kids, rest), off, i, group, goff)
  {
    var k := Group(n, kids, rest);
    PathHeads(kids, i);
    PathHeads(k, i);
    assert Paths(k)[i] == [n] + Paths(kids)[i];
    assert Parent(k, i) == [n] + Parent(kids, i);
    assert Parent(k, i)[1..] == Parent(kids, i);
  }

  /** The siblings of a leaf are the entries of the group at its path without the last name. */
  lemma {:induction false} SiblingsAreTheGroup(top: Kids, topOff: nat, k: Kids, off: nat, i: nat)
    requires WellFormed(k) && i < Count(k)
    ensures var r := Siblings(top, topOff, k, off, i); Groups(top, topOff, k, off, i, r.0, r.1)
    decreases k
  {
    var r := Siblings(top, topOff, k, off, i);
    PathHeads(k, i);
    if i >= FirstCount(k) {
      SiblingsAreTheGroup(top, topOff, k.rest, off + FirstCount(k), i - FirstCount(k));
      GroupsBehind(top, topOff, k, off, i, r.0, r.1);
    } else if k.Group? {
      SiblingsAreTheGroup(k.kids, off, k.kids, off, i);
      GroupsInside(top, topOff, k.name, k.kids, k.rest, off, i, r.0, r.1);
    }
  }

  /** A sibling of leaf `i` is the entry of that name in the group at the leaf's path without its last name. */
  lemma {:induction false} SiblingByPath(root: Kids, i: nat, n: Name)
    requires WellFormed(root) && i < Count(root)
    ensures SiblingNamed(root, i, n) == EntryAt(root, 0, Parent(root, i) + [n])
  {
    SiblingsAreTheGroup(root, 0, root, 0, i);
    var g := Parent(root, i);
    if g == [] {
      assert g + [n] == [n];
    } else {
      EntryAtSnoc(root, 0, g, n);
    }
  }

  /** The path a dependency name stands for. */
  function Target(root: Kids, i: nat, dep: string): Path
    requires i < Count(root)
  {
    var group := Parent(root, i);
    if EntryAt(root, 0, group + [dep]).Some? then group + [dep]
    else if EntryAt(root, 0, Split(dep)).Some? then Split(dep)
    else group + [LastSegment(dep)]
  }

  /** A dependency resolves to the entry at its path: beside the leaf if there is one of that name, else from the root,
      else beside the leaf by its last part.  It ranges over exactly the leaves whose paths extend that. */
  lemma {:induction false} ResolvesByPath(root: Kids, i: nat, dep: string, j: nat)
    requires WellFormed(root) && i < Count(root) && j < Count(root)
    ensures ResolveDependency(root, i, dep) == EntryAt(root, 0, Target(root, i, dep))
    ensures ResolveDependency(root, i, dep).Some? && Below(ResolveDependency(root, i, dep).value, j) <==>
      Target(root, i, dep) <= Paths(root)[j]
    ensures '/' !in dep ==> Target(root, i, dep) == Parent(root, i) + [dep] || Target(root, i, dep) == [dep]
  {
    SiblingByPath(root, i, dep);
    SiblingByPath(root, i, LastSegment(dep));
    EntryAtIsPrefix(root, 0, Target(root, i, dep), j);
    if '/' !in dep { SplitName(dep, ""); }
  }
}

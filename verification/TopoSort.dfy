/** Ordering packages so that every one follows what it imports: depth-first, with cycle and depth errors. */
module TopoSort {
  import opened StringOrder

  const MAX_DEPTH := 1024

  /** The local imports of each package; a name without an entry imports nothing. */
  type Graph = map<string, seq<string>>

  function Deps(g: Graph, x: string): seq<string> {
    if x in g then g[x] else []
  }

  // ---------- the algorithm ----------

  datatype Mark = Unvisited | Visiting | Visited

  datatype State = State(marks: map<string, Mark>, order: seq<string>)

  function MarkOf(s: State, x: string): Mark {
    if x in s.marks then s.marks[x] else Unvisited
  }

  datatype Outcome = Sorted(state: State) | Cyclic(name: string) | TooDeep(name: string)

  /** Visits a package and, before it is placed, everything it imports. The depth bound comes first. */
  function Visit(g: Graph, x: string, depth: nat, s: State): Outcome
    requires depth <= MAX_DEPTH + 1
    decreases MAX_DEPTH + 2 - depth, 0
  {
    if depth > MAX_DEPTH then TooDeep(x)
    else match MarkOf(s, x)
      case Visiting => Cyclic(x)
      case Visited => Sorted(s)
      case Unvisited =>
        var r := VisitEach(g, Deps(g, x), depth + 1, s.(marks := s.marks[x := Visiting]));
        if r.Sorted? then Sorted(State(r.state.marks[x := Visited], r.state.order + [x])) else r
  }

  function VisitEach(g: Graph, xs: seq<string>, depth: nat, s: State): Outcome
    requires depth <= MAX_DEPTH + 1
    decreases MAX_DEPTH + 2 - depth, |xs| + 1
  {
    if xs == [] then Sorted(s)
    else
      var front := VisitEach(g, xs[..|xs| - 1], depth, s);
      if front.Sorted? then Visit(g, xs[|xs| - 1], depth, front.state) else front
  }

  const START := State(map[], [])

  // ---------- walks ----------

  predicate Edge(g: Graph, x: string, y: string) {
    y in Deps(g, x)
  }

  ghost predicate Walk(g: Graph, p: seq<string>) {
    p != [] && forall i :: 0 <= i < |p| - 1 ==> Edge(g, p[i], p[i + 1])
  }

  ghost predicate WalkTo(g: Graph, p: seq<string>, x: string, y: string) {
    Walk(g, p) && p[0] == x && p[|p| - 1] == y
  }

  ghost predicate Reaches(g: Graph, x: string, y: string) {
    exists p :: WalkTo(g, p, x, y)
  }

  /** A walk of at least one edge back to where it started. */
  ghost predicate Cycle(g: Graph, p: seq<string>, x: string) {
    |p| > 1 && WalkTo(g, p, x, x)
  }

  /** A walk of more than MAX_DEPTH edges. */
  ghost predicate LongWalk(g: Graph, p: seq<string>) {
    Walk(g, p) && |p| == MAX_DEPTH + 2
  }

  lemma ReachesSelf(g: Graph, x: string)
    ensures Reaches(g, x, x)
  {
    assert WalkTo(g, [x], x, x);
  }

  lemma EdgeReaches(g: Graph, x: string, y: string, z: string)
    requires Edge(g, x, y) && Reaches(g, y, z)
    ensures Reaches(g, x, z)
  {
    var p :| WalkTo(g, p, y, z);
    var q := [x] + p;
    assert forall i :: 0 < i < |q| ==> q[i] == p[i - 1];
    assert WalkTo(g, q, x, z);
  }

  /** Reachable from one of them. */
  ghost predicate FromAny(g: Graph, xs: seq<string>, y: string) {
    exists i :: 0 <= i < |xs| && Reaches(g, xs[i], y)
  }

  lemma FromAnySnoc(g: Graph, xs: seq<string>, y: string)
    requires xs != [] && (FromAny(g, xs[..|xs| - 1], y) || Reaches(g, xs[|xs| - 1], y))
    ensures FromAny(g, xs, y)
  {
    hide Reaches;
    var n := |xs| - 1;
    if FromAny(g, xs[..n], y) {
      var i :| 0 <= i < n && Reaches(g, xs[..n][i], y);
      assert Reaches(g, xs[i], y);
    }
  }

  ghost predicate AllIn(xs: seq<string>, order: seq<string>) {
    forall i :: 0 <= i < |xs| ==> xs[i] in order
  }

  lemma AllInSnoc(xs: seq<string>, order: seq<string>, more: seq<string>)
    requires xs != [] && AllIn(xs[..|xs| - 1], order) && order <= more && xs[|xs| - 1] in more
    ensures AllIn(xs, more)
  {
    var n := |xs| - 1;
    forall i | 0 <= i < |xs| ensures xs[i] in more {
      if i < n {
        assert xs[..n][i] in order;
      }
    }
  }

  // ---------- what a visit keeps ----------

  /** Each package appears once, after everything it imports. */
  ghost predicate Placed(g: Graph, order: seq<string>) {
    && (forall i, j :: 0 <= i < j < |order| ==> order[i] != order[j])
    && (forall i, y :: 0 <= i < |order| && Edge(g, order[i], y) ==> y in order[..i])
  }

  /** The packages being visited are those on the path; those visited are those in the order. */
  ghost predicate Inv(g: Graph, s: State, path: seq<string>) {
    && (forall x :: MarkOf(s, x) == Visiting <==> x in path)
    && (forall x :: MarkOf(s, x) == Visited <==> x in s.order)
    && Placed(g, s.order)
  }

  /** What the order has gained is reachable from `x`. */
  ghost predicate GainedFrom(g: Graph, s: State, s': State, x: string) {
    s.order <= s'.order && forall y :: y in s'.order && y !in s.order ==> Reaches(g, x, y)
  }

  ghost predicate Explains(g: Graph, r: Outcome, root: string)
    requires !r.Sorted?
  {
    match r
    case Cyclic(x) => exists p :: Cycle(g, p, x)
    case TooDeep(x) => exists p :: LongWalk(g, p) && p[0] == root && p[|p| - 1] == x
  }

  ghost predicate VisitGood(g: Graph, x: string, s: State, path: seq<string>, r: Outcome) {
    if r.Sorted? then Inv(g, r.state, path) && GainedFrom(g, s, r.state, x) && x in r.state.order
    else Explains(g, r, (path + [x])[0])
  }

  lemma {:induction false} VisitCorrect(g: Graph, x: string, s: State, path: seq<string>)
    requires Inv(g, s, path) && Walk(g, path + [x]) && |path| <= MAX_DEPTH + 1
    ensures VisitGood(g, x, s, path, Visit(g, x, |path|, s))
    decreases MAX_DEPTH + 2 - |path|, 0
  {
    if |path| > MAX_DEPTH {
      assert LongWalk(g, path + [x]);
    } else {
      match MarkOf(s, x)
      case Visiting => CycleFound(g, path, x);
      case Visited =>
      case Unvisited =>
        var s1 := s.(marks := s.marks[x := Visiting]);
        Entered(g, s, path, x);
        EachCorrect(g, Deps(g, x), s1, path + [x]);
        var r := VisitEach(g, Deps(g, x), |path| + 1, s1);
        if r.Sorted? {
          Left(g, s, s1, r.state, path, x);
        }
    }
  }

  lemma CycleFound(g: Graph, path: seq<string>, x: string)
    requires Walk(g, path + [x]) && x in path
    ensures exists p :: Cycle(g, p, x)
  {
    var i :| 0 <= i < |path| && path[i] == x;
    var all := path + [x];
    var p := all[i..];
    assert forall k :: 0 <= k < |p| ==> p[k] == all[i + k];
    assert Cycle(g, p, x);
  }

  lemma Entered(g: Graph, s: State, path: seq<string>, x: string)
    requires Inv(g, s, path) && MarkOf(s, x) == Unvisited
    ensures Inv(g, s.(marks := s.marks[x := Visiting]), path + [x])
  {
    hide Placed;
    var s1 := s.(marks := s.marks[x := Visiting]);
    forall y ensures MarkOf(s1, y) == Visiting <==> y in path + [x] {
    }
  }

  ghost predicate EachGood(g: Graph, xs: seq<string>, s: State, path: seq<string>, r: Outcome)
    requires path != []
  {
    if r.Sorted? then
      && Inv(g, r.state, path) && s.order <= r.state.order && AllIn(xs, r.state.order)
      && (forall y :: y in r.state.order && y !in s.order ==> FromAny(g, xs, y))
    else Explains(g, r, path[0])
  }

  lemma {:induction false} EachCorrect(g: Graph, xs: seq<string>, s: State, path: seq<string>)
    requires Inv(g, s, path) && Walk(g, path) && |path| <= MAX_DEPTH + 1
    requires forall i :: 0 <= i < |xs| ==> Edge(g, path[|path| - 1], xs[i])
    ensures EachGood(g, xs, s, path, VisitEach(g, xs, |path|, s))
    decreases MAX_DEPTH + 2 - |path|, |xs| + 1
  {
    hide Inv, Reaches;
    if xs != [] {
      var n := |xs| - 1;
      EachCorrect(g, xs[..n], s, path);
      var front := VisitEach(g, xs[..n], |path|, s);
      if front.Sorted? {
        WalkOn(g, path, xs[n]);
        VisitCorrect(g, xs[n], front.state, path);
        var r := Visit(g, xs[n], |path|, front.state);
        if r.Sorted? {
          EachSnoc(g, xs, s, path, front, r);
        }
      }
    }
  }

  lemma EachSnoc(g: Graph, xs: seq<string>, s: State, path: seq<string>, front: Outcome, r: Outcome)
    requires xs != [] && path != [] && front.Sorted? && r.Sorted?
    requires EachGood(g, xs[..|xs| - 1], s, path, front) && VisitGood(g, xs[|xs| - 1], front.state, path, r)
    ensures EachGood(g, xs, s, path, r)
  {
    hide Inv, Reaches, FromAny, AllIn;
    var n := |xs| - 1;
    AllInSnoc(xs, front.state.order, r.state.order);
    forall y | y in r.state.order && y !in s.order ensures FromAny(g, xs, y) {
      FromAnySnoc(g, xs, y);
    }
  }

  lemma WalkOn(g: Graph, path: seq<string>, x: string)
    requires Walk(g, path) && Edge(g, path[|path| - 1], x)
    ensures Walk(g, path + [x])
  {
  }

  /** Once its imports are placed, the package can be. */
  lemma Left(g: Graph, s: State, s1: State, s2: State, path: seq<string>, x: string)
    requires Inv(g, s, path) && MarkOf(s, x) == Unvisited && s1 == s.(marks := s.marks[x := Visiting])
    requires EachGood(g, Deps(g, x), s1, path + [x], Sorted(s2))
    ensures VisitGood(g, x, s, path, Sorted(State(s2.marks[x := Visited], s2.order + [x])))
  {
    hide Reaches, Placed, Edge, FromAny, Inv, MarkOf;
    var s3 := State(s2.marks[x := Visited], s2.order + [x]);
    LeftMarks(g, s, s2, path, x);
    PlacedSnoc(g, s2.order, x);
    ReachesSelf(g, x);
    forall y | y in s3.order && y !in s.order ensures Reaches(g, x, y) {
      if y != x {
        FromDeps(g, x, y);
      }
    }
    LeftInv(g, s2, path, x);
  }

  lemma FromDeps(g: Graph, x: string, y: string)
    requires FromAny(g, Deps(g, x), y)
    ensures Reaches(g, x, y)
  {
    hide Reaches;
    var i :| 0 <= i < |Deps(g, x)| && Reaches(g, Deps(g, x)[i], y);
    DepEdge(g, x, i);
    EdgeReaches(g, x, Deps(g, x)[i], y);
  }

  lemma DepEdge(g: Graph, x: string, i: nat)
    requires i < |Deps(g, x)|
    ensures Edge(g, x, Deps(g, x)[i])
  {
  }

  lemma LeftMarks(g: Graph, s: State, s2: State, path: seq<string>, x: string)
    requires Inv(g, s, path) && MarkOf(s, x) == Unvisited && Inv(g, s2, path + [x])
    ensures x !in path && x !in s2.order && Placed(g, s2.order)
  {
    hide Placed;
    assert x in path + [x];
    assert MarkOf(s2, x) == Visiting;
  }

  lemma LeftInv(g: Graph, s2: State, path: seq<string>, x: string)
    requires Inv(g, s2, path + [x]) && x !in path && Placed(g, s2.order + [x])
    ensures Inv(g, State(s2.marks[x := Visited], s2.order + [x]), path)
  {
    hide Placed;
    var s3 := State(s2.marks[x := Visited], s2.order + [x]);
    forall y ensures (MarkOf(s3, y) == Visiting <==> y in path) && (MarkOf(s3, y) == Visited <==> y in s3.order) {
      assert y in path + [x] <==> y in path || y == x;
    }
  }

  lemma PlacedSnoc(g: Graph, order: seq<string>, x: string)
    requires Placed(g, order) && x !in order && forall i :: 0 <= i < |Deps(g, x)| ==> Deps(g, x)[i] in order
    ensures Placed(g, order + [x])
  {
    var all := order + [x];
    forall i, y | 0 <= i < |all| && Edge(g, all[i], y) ensures y in all[..i] {
      if i < |order| {
        assert all[..i] == order[..i];
      } else {
        assert all[..i] == order;
      }
    }
  }

  // ---------- the sort ----------

  /** A list that names every key. */
  ghost predicate Lists(g: Graph, ks: seq<string>) {
    forall x :: x in ks <==> x in g
  }

  ghost predicate ExplainedFrom(g: Graph, r: Outcome, ks: seq<string>)
    requires !r.Sorted?
  {
    exists i :: 0 <= i < |ks| && Explains(g, r, ks[i])
  }

  ghost predicate RootsGood(g: Graph, ks: seq<string>, r: Outcome) {
    if r.Sorted? then Inv(g, r.state, []) && AllIn(ks, r.state.order) && forall y :: y in r.state.order ==> FromAny(g, ks, y)
    else ExplainedFrom(g, r, ks)
  }

  lemma {:induction false} RootsCorrect(g: Graph, ks: seq<string>)
    ensures RootsGood(g, ks, VisitEach(g, ks, 0, START))
    decreases |ks|
  {
    hide Reaches, Placed, Explains, FromAny, AllIn;
    if ks == [] {
      StartGood(g);
    } else {
      var n := |ks| - 1;
      RootsCorrect(g, ks[..n]);
      var front, r := VisitEach(g, ks[..n], 0, START), VisitEach(g, ks, 0, START);
      if front.Sorted? {
        assert [] + [ks[n]] == [ks[n]];
        VisitCorrect(g, ks[n], front.state, []);
        if r.Sorted? {
          RootsSnoc(g, ks, front.state, r.state);
        } else {
          assert Explains(g, r, ks[n]);
        }
      } else {
        var i :| 0 <= i < n && Explains(g, front, ks[..n][i]);
        assert Explains(g, r, ks[i]);
      }
    }
  }

  lemma StartGood(g: Graph)
    ensures RootsGood(g, [], Sorted(START))
  {
  }

  lemma RootsSnoc(g: Graph, ks: seq<string>, s: State, s': State)
    requires ks != [] && RootsGood(g, ks[..|ks| - 1], Sorted(s)) && VisitGood(g, ks[|ks| - 1], s, [], Sorted(s'))
    ensures RootsGood(g, ks, Sorted(s'))
  {
    hide Reaches, FromAny, AllIn, Inv;
    AllInSnoc(ks, s.order, s'.order);
    forall y | y in s'.order ensures FromAny(g, ks, y) {
      FromAnySnoc(g, ks, y);
    }
  }

  /** Along a walk, positions in the order go down. */
  lemma {:induction false} WalkDescends(g: Graph, order: seq<string>, p: seq<string>, i: nat)
    requires Placed(g, order) && Walk(g, p) && i < |order| && order[i] == p[0]
    ensures exists j :: 0 <= j <= i - (|p| - 1) && j < |order| && order[j] == p[|p| - 1]
    decreases |p|
  {
    if |p| == 1 {
      assert order[i] == p[0];
    } else {
      assert Edge(g, p[0], p[1]);
      var j :| 0 <= j < i && order[..i][j] == p[1];
      assert Walk(g, p[1..]) by { assert forall k :: 0 <= k < |p| - 1 ==> p[1..][k] == p[k + 1]; }
      WalkDescends(g, order, p[1..], j);
      var l :| 0 <= l <= j - (|p[1..]| - 1) && l < |order| && order[l] == p[1..][|p[1..]| - 1];
      assert 0 <= l <= i - (|p| - 1) && order[l] == p[|p| - 1];
    }
  }

  /** Reachable from some package of the graph. */
  ghost predicate Needed(g: Graph, y: string) {
    exists x :: x in g && Reaches(g, x, y)
  }

  /** What a successful sort means: exactly the reachable packages, each once and after its imports, in a graph without cycles. */
  ghost predicate IsOrderOf(g: Graph, order: seq<string>) {
    && Placed(g, order)
    && (forall y :: y in order <==> Needed(g, y))
    && (forall p, x :: !Cycle(g, p, x))
  }

  lemma PlacedReaches(g: Graph, order: seq<string>, x: string, y: string)
    requires Placed(g, order) && x in order && Reaches(g, x, y)
    ensures y in order
  {
    var p :| WalkTo(g, p, x, y);
    var i :| 0 <= i < |order| && order[i] == x;
    WalkDescends(g, order, p, i);
  }

  lemma PlacedIsAcyclic(g: Graph, order: seq<string>, p: seq<string>, x: string)
    requires Placed(g, order) && x in order
    ensures !Cycle(g, p, x)
  {
    if Cycle(g, p, x) {
      var i :| 0 <= i < |order| && order[i] == x;
      WalkDescends(g, order, p, i);
    }
  }

  /** The sort's verdict, for any listing of the packages. */
  lemma SortVerdict(g: Graph, ks: seq<string>)
    requires Lists(g, ks)
    ensures var r := VisitEach(g, ks, 0, START);
      && (r.Sorted? ==> IsOrderOf(g, r.state.order))
      && (r.Cyclic? ==> exists p :: Cycle(g, p, r.name))
      && (r.TooDeep? ==> exists p :: LongWalk(g, p) && p[0] in g && p[|p| - 1] == r.name)
  {
    RootsCorrect(g, ks);
    var r := VisitEach(g, ks, 0, START);
    hide VisitEach, Explains;
    if r.Sorted? {
      SortedIsOrder(g, ks, r.state);
    } else {
      var i :| 0 <= i < |ks| && Explains(g, r, ks[i]);
      ExplainedRoot(g, r, ks[i]);
    }
  }

  lemma ExplainedRoot(g: Graph, r: Outcome, root: string)
    requires !r.Sorted? && Explains(g, r, root) && root in g
    ensures r.Cyclic? ==> exists p :: Cycle(g, p, r.name)
    ensures r.TooDeep? ==> exists p :: LongWalk(g, p) && p[0] in g && p[|p| - 1] == r.name
  {
    hide LongWalk, Cycle;
  }

  lemma SortedIsOrder(g: Graph, ks: seq<string>, s: State)
    requires Lists(g, ks) && RootsGood(g, ks, Sorted(s))
    ensures IsOrderOf(g, s.order)
  {
    hide Reaches, Placed, Cycle, Lists, AllIn, FromAny, Needed;
    InvPlaced(g, s);
    hide Inv;
    forall y ensures y in s.order <==> Needed(g, y) {
      OrderedIffNeeded(g, ks, s.order, y);
    }
    forall p, x ensures !Cycle(g, p, x) {
      CycleInside(g, p, x);
      if x in g {
        KeyPlaced(g, ks, s.order, x);
        PlacedIsAcyclic(g, s.order, p, x);
      }
    }
  }

  lemma InvPlaced(g: Graph, s: State)
    requires Inv(g, s, [])
    ensures Placed(g, s.order)
  {
    hide Placed, MarkOf;
  }

  lemma OrderedIffNeeded(g: Graph, ks: seq<string>, order: seq<string>, y: string)
    requires Lists(g, ks) && Placed(g, order) && AllIn(ks, order) && (y in order ==> FromAny(g, ks, y))
    ensures y in order <==> Needed(g, y)
  {
    hide Reaches, Placed, AllIn;
    if y in order {
      var i :| 0 <= i < |ks| && Reaches(g, ks[i], y);
      assert ks[i] in g;
    } else if Needed(g, y) {
      var x :| x in g && Reaches(g, x, y);
      KeyPlaced(g, ks, order, x);
      PlacedReaches(g, order, x, y);
    }
  }

  lemma KeyPlaced(g: Graph, ks: seq<string>, order: seq<string>, x: string)
    requires Lists(g, ks) && AllIn(ks, order) && x in g
    ensures x in order
  {
    var i :| 0 <= i < |ks| && ks[i] == x;
  }

  /** Every package on a cycle imports something, so it has an entry. */
  lemma CycleInside(g: Graph, p: seq<string>, x: string)
    ensures Cycle(g, p, x) ==> x in g
  {
    if Cycle(g, p, x) {
      assert Edge(g, p[0], p[1]);
    }
  }

  /** Without a cycle and without a walk beyond the depth limit, sorting succeeds. */
  lemma SortSucceeds(g: Graph, ks: seq<string>)
    requires Lists(g, ks) && (forall p, x :: !Cycle(g, p, x)) && (forall p :: !LongWalk(g, p))
    ensures VisitEach(g, ks, 0, START).Sorted?
  {
    SortVerdict(g, ks);
  }
}

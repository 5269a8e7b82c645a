/** The package sorter: it marks and places packages in place, starting from the packages in ascending order. */
module ImportOrder {
  import opened Wrappers
  import opened StringOrder
  import opened TopoSort

  // ---------- the graph ----------

  /** A parsed package: for each file its imports, with None for a path that does not unquote. */
  type Package = seq<seq<Option<string>>>

  function FileImports(local: set<string>, imports: seq<Option<string>>): seq<string> {
    if imports == [] then []
    else
      var n := |imports| - 1;
      var front := FileImports(local, imports[..n]);
      if imports[n].Some? && imports[n].value in local then front + [imports[n].value] else front
  }

  function LocalImports(local: set<string>, files: Package): seq<string> {
    if files == [] then [] else LocalImports(local, files[..|files| - 1]) + FileImports(local, files[|files| - 1])
  }

  /** The dependencies are exactly the local imports of the package's files. */
  lemma {:induction false} LocalImportsExact(local: set<string>, files: Package, y: string)
    ensures y in LocalImports(local, files) <==> y in local && exists f :: 0 <= f < |files| && Some(y) in files[f]
  {
    if files != [] {
      var n := |files| - 1;
      LocalImportsExact(local, files[..n], y);
      FileImportsExact(local, files[n], y);
      assert forall f :: 0 <= f < n ==> files[..n][f] == files[f];
    }
  }

  lemma {:induction false} FileImportsExact(local: set<string>, imports: seq<Option<string>>, y: string)
    ensures y in FileImports(local, imports) <==> y in local && Some(y) in imports
  {
    if imports != [] {
      FileImportsExact(local, imports[..|imports| - 1], y);
    }
  }

  method BuildDependencyGraph(parsed: map<string, Package>) returns (g: Graph)
    ensures g.Keys == parsed.Keys && forall x :: x in parsed ==> g[x] == LocalImports(parsed.Keys, parsed[x])
  {
    g := map[];
    var rest := parsed.Keys;
    while rest != {}
      invariant rest <= parsed.Keys && g.Keys == parsed.Keys - rest
      invariant forall x :: x in g ==> g[x] == LocalImports(parsed.Keys, parsed[x])
      decreases rest
    {
      var x :| x in rest;
      var files := parsed[x];
      var deps: seq<string> := [];
      for f := 0 to |files|
        invariant deps == LocalImports(parsed.Keys, files[..f])
      {
        assert files[..f + 1][..f] == files[..f];
        ghost var before := deps;
        assert before + FileImports(parsed.Keys, files[f][..0]) == before;
        for i := 0 to |files[f]|
          invariant deps == before + FileImports(parsed.Keys, files[f][..i])
        {
          assert files[f][..i + 1][..i] == files[f][..i];
          if files[f][i].Some? && files[f][i].value in parsed {
            deps := deps + [files[f][i].value];
          }
        }
        assert files[f][..|files[f]|] == files[f];
      }
      assert files[..|files|] == files;
      g := g[x := deps];
      rest := rest - {x};
    }
  }

  // ---------- the sorter ----------

  datatype Fault = CyclicImport(name: string) | DepthLimit(name: string)

  function FaultOf(r: Outcome): Option<Fault> {
    match r
    case Sorted(_) => None
    case Cyclic(x) => Some(CyclicImport(x))
    case TooDeep(x) => Some(DepthLimit(x))
  }

  lemma {:induction false} FaultStays(g: Graph, xs: seq<string>, i: nat, depth: nat, s: TopoSort.State)
    requires i <= |xs| && depth <= MAX_DEPTH + 1 && !VisitEach(g, xs[..i], depth, s).Sorted?
    ensures VisitEach(g, xs, depth, s) == VisitEach(g, xs[..i], depth, s)
    decreases |xs| - i
  {
    if i == |xs| {
      assert xs[..i] == xs;
    } else {
      assert xs[..i + 1][..i] == xs[..i];
      FaultStays(g, xs, i + 1, depth, s);
    }
  }

  class Sorter {
    var marks: map<string, Mark>
    var order: seq<string>

    constructor ()
      ensures Now() == START
    {
      marks, order := map[], [];
    }

    function Now(): TopoSort.State
      reads this
    {
      TopoSort.State(marks, order)
    }

    method VisitPackage(g: Graph, x: string, depth: nat) returns (fault: Option<Fault>)
      requires depth <= MAX_DEPTH + 1
      modifies this
      ensures var r := Visit(g, x, depth, old(Now())); fault == FaultOf(r) && (r.Sorted? ==> Now() == r.state)
      decreases MAX_DEPTH + 2 - depth, 0
    {
      if depth > MAX_DEPTH {
        return Some(DepthLimit(x));
      }
      var mark := MarkOf(Now(), x);
      if mark == Visiting {
        return Some(CyclicImport(x));
      }
      if mark == Visited {
        return None;
      }
      marks := marks[x := Visiting];
      fault := VisitPackages(g, Deps(g, x), depth + 1);
      if fault.Some? {
        return;
      }
      marks := marks[x := Visited];
      order := order + [x];
    }

    method VisitPackages(g: Graph, xs: seq<string>, depth: nat) returns (fault: Option<Fault>)
      requires depth <= MAX_DEPTH + 1
      modifies this
      ensures var r := VisitEach(g, xs, depth, old(Now())); fault == FaultOf(r) && (r.Sorted? ==> Now() == r.state)
      decreases MAX_DEPTH + 2 - depth, |xs| + 1
    {
      hide Visit;
      for i := 0 to |xs|
        invariant VisitEach(g, xs[..i], depth, old(Now())) == Sorted(Now())
      {
        assert xs[..i + 1][..i] == xs[..i];
        fault := VisitPackage(g, xs[i], depth);
        if fault.Some? {
          FaultStays(g, xs, i + 1, depth, old(Now()));
          return;
        }
      }
      assert xs[..|xs|] == xs;
      return None;
    }
  }

  /** The packages of a map, in the order a sort puts them, whatever order the map yields them in. */
  method SortedKeys(g: Graph) returns (ks: seq<string>)
    ensures Ascending(ks) && multiset(ks) == multiset(g.Keys)
  {
    var keys: seq<string> := [];
    var rest := g.Keys;
    while rest != {}
      invariant rest <= g.Keys && multiset(keys) == multiset(g.Keys - rest)
      decreases rest
    {
      var k :| k in rest;
      assert g.Keys - (rest - {k}) == (g.Keys - rest) + {k};
      keys := keys + [k];
      rest := rest - {k};
    }
    assert g.Keys - {} == g.Keys;
    ks := Sort(keys);
  }

  datatype Result = Order(order: seq<string>) | Refused(fault: Fault)

  function ResultOf(r: Outcome): Result {
    match r
    case Sorted(s) => Order(s.order)
    case Cyclic(x) => Refused(CyclicImport(x))
    case TooDeep(x) => Refused(DepthLimit(x))
  }

  /** Sorts a graph: a valid order, or a package on a real cycle, or the end of a walk that is too long. */
  method SortPackages(g: Graph) returns (r: Result)
    ensures r.Order? ==> IsOrderOf(g, r.order)
    ensures r.Refused? && r.fault.CyclicImport? ==> exists p :: Cycle(g, p, r.fault.name)
    ensures r.Refused? && r.fault.DepthLimit? ==> exists p :: LongWalk(g, p) && p[0] in g && p[|p| - 1] == r.fault.name
    ensures (forall p, x :: !Cycle(g, p, x)) && (forall p :: !LongWalk(g, p)) ==> r.Order?
    ensures forall ks :: Ascending(ks) && multiset(ks) == multiset(g.Keys) ==> r == ResultOf(VisitEach(g, ks, 0, START))
  {
    var keys := SortedKeys(g);
    KeysListed(g, keys);
    SortVerdict(g, keys);
    hide VisitEach, IsOrderOf, LongWalk, Cycle;
    var sorter := new Sorter();
    var fault := sorter.VisitPackages(g, keys, 0);
    forall ks | Ascending(ks) && multiset(ks) == multiset(g.Keys) ensures ks == keys {
      AscendingUnique(ks, keys);
    }
    if fault.Some? {
      r := Refused(fault.value);
    } else {
      r := Order(sorter.order);
    }
  }

  lemma KeysListed(g: Graph, ks: seq<string>)
    requires multiset(ks) == multiset(g.Keys)
    ensures Lists(g, ks)
  {
    forall x ensures x in ks <==> x in g {
      assert x in multiset(ks) <==> x in multiset(g.Keys);
    }
  }
}

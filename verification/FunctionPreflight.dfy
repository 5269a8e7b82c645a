/** The preflight over a payload's functions, and the reconstruction it has to cover. */
module FunctionPreflight {
  import opened Wrappers
  import opened Descriptors
  import opened TableGraph
  import opened FunctionTables
  import TP = TypePreflight

  // ---------- the preflight ----------

  /** Bounds each declared length by the payload and charges it. */
  method ChargeVectors(b: TP.Budget, room: nat, counts: seq<nat>) returns (ok: bool)
    modifies b`vectors
    ensures ok <==> AllFit(counts, room) && Sum(counts) <= old(b.vectors)
    ensures ok ==> old(b.vectors) == b.vectors + Sum(counts)
  {
    assert counts[..0] == [];
    for i := 0 to |counts|
      invariant AllFit(counts[..i], room)
      invariant old(b.vectors) == b.vectors + Sum(counts[..i])
    {
      assert counts[..i + 1][..i] == counts[..i];
      if counts[i] > room {
        return false;
      }
      if counts[i] > b.vectors {
        SumPrefix(counts, i + 1);
        return false;
      }
      b.vectors := b.vectors - counts[i];
    }
    assert counts[..|counts|] == counts;
    ok := true;
  }

  /** Charges every vector of one function, its call sites' and its interface method sets'. */
  method ValidateFunctionVectors(b: TP.Budget, f: Fn, room: nat) returns (ok: bool)
    modifies b`vectors
    ensures ok <==> AllFit(Counts(f), room) && Sum(Counts(f)) <= old(b.vectors)
    ensures ok ==> old(b.vectors) == b.vectors + Sum(Counts(f))
  {
    hide ChargedCounts;
    CountsSplit(f, room);
    ok := ChargeVectors(b, room, ChargedCounts(f));
    if ok {
      ok := ValidateCallVectors(b, f.callSites, room);
    }
    if ok {
      ok := ValidateMethodVectors(b, f.interfaceMethods, room);
    }
  }

  method ValidateCallVectors(b: TP.Budget, sites: seq<CallSite>, room: nat) returns (ok: bool)
    modifies b`vectors
    ensures ok <==> AllFit(SiteCounts(sites), room) && Sum(SiteCounts(sites)) <= old(b.vectors)
    ensures ok ==> old(b.vectors) == b.vectors + Sum(SiteCounts(sites))
  {
    assert sites[..0] == [];
    for i := 0 to |sites|
      invariant AllFit(SiteCounts(sites[..i]), room)
      invariant old(b.vectors) == b.vectors + Sum(SiteCounts(sites[..i]))
    {
      var pair := [sites[i].arguments, sites[i].results];
      SiteStep(sites, i);
      SumConcat(SiteCounts(sites[..i]), pair);
      FitConcat(SiteCounts(sites[..i]), pair, room);
      ok := ChargeVectors(b, room, pair);
      if !ok {
        SitePrefix(sites, i + 1, room);
        return;
      }
    }
    assert sites[..|sites|] == sites;
    ok := true;
  }

  lemma SiteStep(sites: seq<CallSite>, i: nat)
    requires i < |sites|
    ensures SiteCounts(sites[..i + 1]) == SiteCounts(sites[..i]) + [sites[i].arguments, sites[i].results]
  {
    assert sites[..i + 1][..i] == sites[..i];
  }

  lemma {:induction false} SitePrefix(sites: seq<CallSite>, k: nat, room: nat)
    requires k <= |sites|
    ensures Sum(SiteCounts(sites[..k])) <= Sum(SiteCounts(sites))
    ensures AllFit(SiteCounts(sites), room) ==> AllFit(SiteCounts(sites[..k]), room)
    decreases |sites| - k
  {
    if k == |sites| {
      assert sites[..k] == sites;
    } else {
      SitePrefix(sites, k + 1, room);
      SiteStep(sites, k);
      var pair := [sites[k].arguments, sites[k].results];
      SumConcat(SiteCounts(sites[..k]), pair);
      FitConcat(SiteCounts(sites[..k]), pair, room);
    }
  }

  method ValidateMethodVectors(b: TP.Budget, sets: seq<nat>, room: nat) returns (ok: bool)
    modifies b`vectors
    ensures ok <==> AllFit(sets, room) && Sum(sets) <= old(b.vectors)
    ensures ok ==> old(b.vectors) == b.vectors + Sum(sets)
  {
    assert sets[..0] == [];
    for i := 0 to |sets|
      invariant AllFit(sets[..i], room)
      invariant old(b.vectors) == b.vectors + Sum(sets[..i])
    {
      assert sets[..i + 1] == sets[..i] + [sets[i]];
      SumConcat(sets[..i], [sets[i]]);
      ok := ChargeVectors(b, room, [sets[i]]);
      if !ok {
        SumPrefix(sets, i + 1);
        assert [sets[i]][0] == sets[i];
        return;
      }
      assert [sets[i]][0] == sets[i];
    }
    assert sets[..|sets|] == sets;
    ok := true;
  }

  /** What walking a list of type entries achieved, between two states of the walk. */
  ghost predicate TypesWalked(g: Graph, room: nat, before: seq<Offset>, after: seq<Offset>, spent: int, entries: seq<Option<Offset>>) {
    TP.Segment(g, room, before, after, spent - |entries|) && TP.Entered(g, after, entries, false)
  }

  lemma TypesJoin(g: Graph, room: nat, a: seq<Offset>, b: seq<Offset>, c: seq<Offset>, u: int, v: int, xs: seq<Option<Offset>>, ys: seq<Option<Offset>>)
    requires TypesWalked(g, room, a, b, u, xs) && TypesWalked(g, room, b, c, v, ys)
    ensures TypesWalked(g, room, a, c, u + v, xs + ys)
  {
    TP.SegmentJoin(g, room, a, b, c, u - |xs|, v - |ys|);
    TP.EnteredGrows(g, b, c, xs, false);
    hide TP.Segment, TP.KindOk;
    forall i | 0 <= i < |xs + ys| && (xs + ys)[i].Some?
      ensures (xs + ys)[i].value in c && (xs + ys)[i].value in g && TP.KindOk(g[(xs + ys)[i].value], false)
    {
      if i < |xs| {
        assert (xs + ys)[i] == xs[i];
      } else {
        assert (xs + ys)[i] == ys[i - |xs|];
      }
    }
  }

  lemma TypesEmpty(g: Graph, room: nat, order: seq<Offset>, visited: set<Offset>)
    requires TP.Fresh(g, order, visited)
    ensures TypesWalked(g, room, order, order, 0, [])
  {
    TP.SegmentEmpty(g, room, order);
  }

  /** Some path from the entries ends in an illegal or oversized table, or is too long. */
  ghost predicate BadPath(g: Graph, room: nat, entries: seq<Option<Offset>>) {
    !(TP.WellFormed(g, entries, room) && TP.Shallow(g, entries))
  }

  /** Why a walk over type entries stopped with `left` units: a bad path, or too few units. */
  ghost predicate TypesRefused(g: Graph, room: nat, before: seq<Offset>, after: seq<Offset>, left: int, entries: seq<Option<Offset>>) {
    BadPath(g, room, entries) || TP.Overspent(g, before, after, left - |entries|)
  }

  lemma BadPathGrows(g: Graph, room: nat, xs: seq<Option<Offset>>, ys: seq<Option<Offset>>, zs: seq<Option<Offset>>)
    requires BadPath(g, room, ys)
    ensures BadPath(g, room, xs + ys + zs)
  {
    var all := xs + ys + zs;
    RootsGrow(xs, ys, zs);
    if !TP.WellFormed(g, ys, room) {
      var p :| TP.FromRoot(g, ys, p) && !(TP.KindOk(g[p[|p| - 1]], |p| > 1) && TP.CountsOk(g[p[|p| - 1]], room));
      assert TP.FromRoot(g, all, p);
    } else {
      var p :| TP.FromRoot(g, ys, p) && |p| - 1 > MAX_TYPE_DEPTH;
      assert TP.FromRoot(g, all, p);
    }
  }

  lemma RootsGrow(xs: seq<Option<Offset>>, ys: seq<Option<Offset>>, zs: seq<Option<Offset>>)
    ensures TP.Roots(ys) <= TP.Roots(xs + ys + zs) && TP.Roots(xs) <= TP.Roots(xs + ys + zs)
  {
    var all := xs + ys + zs;
    forall o | o in TP.Roots(ys) ensures o in TP.Roots(all) {
      var i :| 0 <= i < |ys| && ys[i].Some? && ys[i].value == o;
      assert all[|xs| + i] == ys[i];
    }
    forall o | o in TP.Roots(xs) ensures o in TP.Roots(all) {
      var i :| 0 <= i < |xs| && xs[i].Some? && xs[i].value == o;
      assert all[i] == xs[i];
    }
  }

  lemma TypesRefusedAfter(g: Graph, room: nat, a: seq<Offset>, b: seq<Offset>, c: seq<Offset>, spent: int, left: int,
                          xs: seq<Option<Offset>>, ys: seq<Option<Offset>>, zs: seq<Option<Offset>>)
    requires TypesWalked(g, room, a, b, spent, xs) && TypesRefused(g, room, b, c, left - spent, ys)
    ensures TypesRefused(g, room, a, c, left, xs + ys + zs)
  {
    hide TP.Segment, TP.Overspent, TP.Entered;
    if BadPath(g, room, ys) {
      BadPathGrows(g, room, xs, ys, zs);
    } else {
      TP.OverspentJoin(g, room, a, b, c, spent - |xs|, left - spent - |ys|);
      TP.OverspentLess(g, a, c, left - |xs| - |ys|, left - |xs + ys + zs|);
    }
  }

  lemma EntriesRefused(g: Graph, room: nat, before: seq<Offset>, after: seq<Offset>, left: int, rs: seq<Option<Offset>>,
                       e: TP.PreflightError, p: seq<Offset>)
    requires |rs| <= room && (p != [] ==> TP.Reason(g, e, p, 0, room) && p[0] in TP.Roots(rs))
    requires p == [] ==> (e == TP.CountTooLong && |rs| > room) || e == TP.OverBudget
    requires e == TP.OverBudget ==> TP.Overspent(g, before, after, left - |rs|)
    ensures TypesRefused(g, room, before, after, left, rs)
  {
    if e != TP.OverBudget {
      assert TP.FromRoot(g, rs, p);
    }
  }

  /** The tables charged from index `from` on are reachable from the entries. */
  ghost predicate Touched(g: Graph, entries: seq<Option<Offset>>, order: seq<Offset>, from: nat) {
    TP.ReachedFrom(g, TP.Roots(entries), order, from)
  }

  lemma TouchedJoin(g: Graph, a: nat, b: seq<Offset>, c: seq<Offset>, xs: seq<Option<Offset>>, ys: seq<Option<Offset>>, zs: seq<Option<Offset>>)
    requires a <= |b| && b <= c && Touched(g, xs, b, a) && Touched(g, ys, c, |b|)
    ensures Touched(g, xs + ys + zs, c, a)
  {
    hide TP.Reach;
    RootsGrow(xs, ys, zs);
    forall i | a <= i < |c| ensures TP.Reached(g, TP.Roots(xs + ys + zs), c[i]) {
      if i < |b| {
        assert TP.Reached(g, TP.Roots(xs), b[i]);
        var r :| r in TP.Roots(xs) && TP.Reach(g, r, b[i]);
      } else {
        assert TP.Reached(g, TP.Roots(ys), c[i]);
        var r :| r in TP.Roots(ys) && TP.Reach(g, r, c[i]);
      }
    }
  }

  lemma TouchedNone(g: Graph, entries: seq<Option<Offset>>, order: seq<Offset>)
    ensures Touched(g, entries, order, |order|)
  {
  }

  /** Everything in the function's three lists was charged and has a legal kind. */
  ghost predicate ListsEntered(f: Fn, g: Graph, order: seq<Offset>) {
    forall o: Offset :: InLists(f, o) ==> o in order && o in g && TP.KindOk(g[o], false)
  }

  lemma WalkedLists(f: Fn, g: Graph, room: nat, before: seq<Offset>, after: seq<Offset>, spent: int)
    requires TypesWalked(g, room, before, after, spent, TypeEntries(f))
    ensures ListsEntered(f, g, after)
  {
    hide TP.Segment, TP.KindOk;
    var es := TypeEntries(f);
    forall o: Offset | InLists(f, o) ensures o in after && o in g && TP.KindOk(g[o], false) {
      assert Some(o) in es;
      var i :| 0 <= i < |es| && es[i] == Some(o);
      assert es[i].Some? && es[i].value == o;
    }
  }

  /** Walks the type entries of one function. */
  method ValidateFunctionTypes(b: TP.Budget, g: Graph, f: Fn, room: nat) returns (ok: bool)
    requires Closed(g) && b.Valid(g) && RefsIn(g, f.typeTable) && RefsIn(g, f.generalConstants) && RefsIn(g, f.typeNames)
    modifies b`types, b`visited, b`order
    ensures b.Valid(g) && old(b.order) <= b.order && Touched(g, TypeEntries(f), b.order, |old(b.order)|)
    ensures ok ==> TypesWalked(g, room, old(b.order), b.order, old(b.types) - b.types, TypeEntries(f))
    ensures ok ==> ListsEntered(f, g, b.order) && |f.typeTable| <= room && |f.generalConstants| <= room && |f.typeNames| <= room
    ensures !ok && |f.typeTable| <= room && |f.generalConstants| <= room && |f.typeNames| <= room ==>
      TypesRefused(g, room, old(b.order), b.order, old(b.types), TypeEntries(f))
  {
    hide TP.Fresh, TypesWalked, TypesRefused, Touched, ListsEntered;
    assert TypeEntries(f) == [] + f.typeTable + (f.generalConstants + f.typeNames) == f.typeTable + f.generalConstants + f.typeNames;
    assert TypeEntries(f) == (f.typeTable + f.generalConstants) + f.typeNames + [];
    assert f.typeTable == [] + f.typeTable + [] && f.typeTable + f.generalConstants == f.typeTable + f.generalConstants + [];
    ghost var o0, t0 := b.order, b.types;
    TypesEmpty(g, room, b.order, b.visited);
    TouchedNone(g, [], b.order);
    ok := WalkEntries(b, g, f.typeTable, room);
    ghost var o1, t1 := b.order, b.types;
    TouchedJoin(g, |o0|, o0, o1, [], f.typeTable, f.generalConstants + f.typeNames);
    if !ok {
      if |f.typeTable| <= room { TypesRefusedAfter(g, room, o0, o0, o1, 0, t0, [], f.typeTable, f.generalConstants + f.typeNames); }
      return;
    }
    TouchedJoin(g, |o0|, o0, o1, [], f.typeTable, []);
    ok := WalkEntries(b, g, f.generalConstants, room);
    ghost var o2, t2 := b.order, b.types;
    TouchedJoin(g, |o0|, o1, o2, f.typeTable, f.generalConstants, f.typeNames);
    if !ok {
      if |f.generalConstants| <= room { TypesRefusedAfter(g, room, o0, o1, o2, t0 - t1, t0, f.typeTable, f.generalConstants, f.typeNames); }
      return;
    }
    TypesJoin(g, room, o0, o1, o2, t0 - t1, t1 - t2, f.typeTable, f.generalConstants);
    TouchedJoin(g, |o0|, o1, o2, f.typeTable, f.generalConstants, []);
    ok := WalkEntries(b, g, f.typeNames, room);
    TouchedJoin(g, |o0|, o2, b.order, f.typeTable + f.generalConstants, f.typeNames, []);
    if !ok {
      if |f.typeNames| <= room { TypesRefusedAfter(g, room, o0, o2, b.order, t0 - t2, t0, f.typeTable + f.generalConstants, f.typeNames, []); }
      return;
    }
    TypesJoin(g, room, o0, o2, b.order, t0 - t2, t2 - b.types, f.typeTable + f.generalConstants, f.typeNames);
    WalkedLists(f, g, room, o0, b.order, t0 - b.types);
  }

  /** Walks one list of root entries. */
  method WalkEntries(b: TP.Budget, g: Graph, rs: seq<Option<Offset>>, room: nat) returns (ok: bool)
    requires Closed(g) && b.Valid(g) && RefsIn(g, rs)
    modifies b`types, b`visited, b`order
    ensures b.Valid(g) && old(b.order) <= b.order && Touched(g, rs, b.order, |old(b.order)|)
    ensures ok ==> TypesWalked(g, room, old(b.order), b.order, old(b.types) - b.types, rs) && |rs| <= room
    ensures !ok && |rs| <= room ==> TypesRefused(g, room, old(b.order), b.order, old(b.types), rs)
  {
    hide TP.Segment, TP.Entered, TP.Fresh, TP.Reason, TP.ReachedFrom, TP.Overspent;
    var err, p := b.ValidateEntries(g, rs, 0, room);
    ok := err.None?;
    if !ok && |rs| <= room {
      EntriesRefused(g, room, old(b.order), b.order, old(b.types), rs, err.value, p);
    }
  }

  // ---------- the function tree ----------

  /** What the preflight of some occurrences achieved. */
  ghost predicate Covered(fg: FnGraph, g: Graph, room: nat, vs: seq<Visit>, functions: int, vectors: int,
                          before: seq<Offset>, after: seq<Offset>, types: int)
  {
    && VisitsOk(fg, vs, room) && functions == |vs| && vectors == VectorsOf(fg, vs)
    && TypesWalked(g, room, before, after, types, EntriesOf(fg, vs))
  }

  lemma CoveredJoin(fg: FnGraph, g: Graph, room: nat, vs: seq<Visit>, ws: seq<Visit>, f1: int, f2: int, v1: int, v2: int,
                    a: seq<Offset>, b: seq<Offset>, c: seq<Offset>, t1: int, t2: int)
    requires Covered(fg, g, room, vs, f1, v1, a, b, t1) && Covered(fg, g, room, ws, f2, v2, b, c, t2)
    ensures Covered(fg, g, room, vs + ws, f1 + f2, v1 + v2, a, c, t1 + t2)
  {
    hide VisitsOk, VectorsOf, EntriesOf, TypesWalked;
    VisitsConcat(fg, vs, ws, room);
    TypesJoin(g, room, a, b, c, t1, t2, EntriesOf(fg, vs), EntriesOf(fg, ws));
  }

  lemma CoveredNone(fg: FnGraph, g: Graph, room: nat, order: seq<Offset>, visited: set<Offset>)
    requires TP.Fresh(g, order, visited)
    ensures Covered(fg, g, room, [], 0, 0, order, order, 0)
  {
    TypesEmpty(g, room, order, visited);
  }

  /**
   * Why the preflight of some occurrences stopped: one of them fails its checks, they are too many, they
   * declare too many elements, or their type entries were refused.
   */
  ghost predicate Refused(fg: FnGraph, g: Graph, room: nat, vs: seq<Visit>, functions: int, vectors: int,
                          before: seq<Offset>, after: seq<Offset>, types: int)
  {
    || !VisitsOk(fg, vs, room) || |vs| > functions || VectorsOf(fg, vs) > vectors
    || TypesRefused(g, room, before, after, types, EntriesOf(fg, vs))
  }

  lemma RefusedAfter(fg: FnGraph, g: Graph, room: nat, vs: seq<Visit>, ws: seq<Visit>, zs: seq<Visit>, f1: int, f: int, v1: int, v: int,
                     a: seq<Offset>, b: seq<Offset>, c: seq<Offset>, t1: int, t: int)
    requires Covered(fg, g, room, vs, f1, v1, a, b, t1) && Refused(fg, g, room, ws, f - f1, v - v1, b, c, t - t1)
    ensures Refused(fg, g, room, vs + ws + zs, f, v, a, c, t)
  {
    hide VisitsOk, VectorsOf, EntriesOf, TypesWalked, TypesRefused;
    VisitsConcat(fg, vs, ws, room);
    VisitsConcat(fg, vs + ws, zs, room);
    if TypesRefused(g, room, b, c, t - t1, EntriesOf(fg, ws)) {
      TypesRefusedAfter(g, room, a, b, c, t1, t, EntriesOf(fg, vs), EntriesOf(fg, ws), EntriesOf(fg, zs));
    }
  }

  /** The tables charged while walking the occurrences are reachable from their entries. */
  ghost predicate TouchedBy(fg: FnGraph, g: Graph, vs: seq<Visit>, order: seq<Offset>, from: nat) {
    Touched(g, EntriesOf(fg, vs), order, from)
  }

  lemma TouchedByJoin(fg: FnGraph, g: Graph, room: nat, a: nat, b: seq<Offset>, c: seq<Offset>, vs: seq<Visit>, ws: seq<Visit>, zs: seq<Visit>)
    requires a <= |b| && b <= c && TouchedBy(fg, g, vs, b, a) && TouchedBy(fg, g, ws, c, |b|)
    ensures TouchedBy(fg, g, vs + ws + zs, c, a)
  {
    hide Touched, EntriesOf;
    VisitsConcat(fg, vs, ws, room);
    VisitsConcat(fg, vs + ws, zs, room);
    TouchedJoin(g, a, b, c, EntriesOf(fg, vs), EntriesOf(fg, ws), EntriesOf(fg, zs));
  }

  /** The outcome of validating some occurrences, whichever it is. */
  ghost predicate Outcome(ok: bool, fg: FnGraph, g: Graph, room: nat, vs: seq<Visit>, f0: int, f1: int, v0: int, v1: int,
                          before: seq<Offset>, after: seq<Offset>, t0: int, t1: int)
  {
    && before <= after && TouchedBy(fg, g, vs, after, |before|)
    && (ok ==> Covered(fg, g, room, vs, f0 - f1, v0 - v1, before, after, t0 - t1))
    && (!ok ==> Refused(fg, g, room, vs, f0, v0, before, after, t0))
  }

  lemma OutcomeNone(fg: FnGraph, g: Graph, room: nat, f: int, v: int, order: seq<Offset>, visited: set<Offset>, t: int)
    requires TP.Fresh(g, order, visited)
    ensures Outcome(true, fg, g, room, [], f, f, v, v, order, order, t, t)
  {
    CoveredNone(fg, g, room, order, visited);
    TouchedNone(g, EntriesOf(fg, []), order);
  }

  /** One occurrence's outcome follows one that covered those before it; `zs` comes after when this one failed. */
  lemma OutcomeJoin(ok: bool, fg: FnGraph, g: Graph, room: nat, vs: seq<Visit>, ws: seq<Visit>, zs: seq<Visit>,
                    f0: int, f1: int, f2: int, v0: int, v1: int, v2: int, a: seq<Offset>, b: seq<Offset>, c: seq<Offset>, t0: int, t1: int, t2: int)
    requires Outcome(true, fg, g, room, vs, f0, f1, v0, v1, a, b, t0, t1)
    requires Outcome(ok, fg, g, room, ws, f1, f2, v1, v2, b, c, t1, t2)
    ensures ok ==> Outcome(true, fg, g, room, vs + ws, f0, f2, v0, v2, a, c, t0, t2)
    ensures !ok ==> Outcome(false, fg, g, room, vs + ws + zs, f0, f2, v0, v2, a, c, t0, t2)
  {
    hide Covered, Refused, TouchedBy;
    TouchedByJoin(fg, g, room, |a|, b, c, vs, ws, zs);
    TouchedByJoin(fg, g, room, |a|, b, c, vs, ws, []);
    assert vs + ws + [] == vs + ws;
    if ok {
      CoveredJoin(fg, g, room, vs, ws, f0 - f1, f1 - f2, v0 - v1, v1 - v2, a, b, c, t0 - t1, t1 - t2);
    } else {
      RefusedAfter(fg, g, room, vs, ws, zs, f0 - f1, f0, v0 - v1, v0, a, b, c, t0 - t1, t0);
    }
  }

  /** Validates one function occurrence and everything below it. */
  method ValidateFunctionTree(b: TP.Budget, fg: FnGraph, g: Graph, r: Option<Offset>, depth: nat, room: nat) returns (ok: bool)
    requires Closed(g) && WellLinked(fg, g) && b.Valid(g) && RefsIn(fg, [r])
    modifies b
    ensures b.Valid(g)
    ensures Outcome(ok, fg, g, room, Occurrences(fg, r, depth), old(b.functions), b.functions, old(b.vectors), b.vectors,
                    old(b.order), b.order, old(b.types), b.types)
    decreases FunctionLevels(depth), 0
  {
    hide TP.Fresh, Counts, Sum, Outcome, Occurrences;
    OccurrencesAre(fg, r, depth);
    if r.None? {
      OutcomeNone(fg, g, room, b.functions, b.vectors, b.order, b.visited, b.types);
      return true;
    }
    assert [r][0] == r;
    var o := r.value;
    if depth > MAX_FUNCTION_DEPTH {
      TooDeepOutcome(fg, g, room, o, depth, b.functions, b.vectors, b.order, b.types);
      return false;
    }
    ok := ValidateFunction(b, fg, g, o, depth, room);
    ghost var f, v, order, t := b.functions, b.vectors, b.order, b.types;
    ghost var me := [Visit(o, depth)];
    if !ok {
      OutcomeExtend(fg, g, room, me, Below(fg, o, depth), old(b.functions), f, old(b.vectors), v, old(b.order), order, old(b.types), t);
      return;
    }
    ok := ValidateBelow(b, fg, g, o, depth, room);
    OutcomeJoin(ok, fg, g, room, me, Below(fg, o, depth), [], old(b.functions), f, b.functions, old(b.vectors), v, b.vectors,
                old(b.order), order, b.order, old(b.types), t, b.types);
    assert me + Below(fg, o, depth) + [] == me + Below(fg, o, depth);
  }

  lemma OccurrencesAre(fg: FnGraph, r: Option<Offset>, depth: nat)
    requires RefsIn(fg, [r])
    ensures r.None? ==> Occurrences(fg, r, depth) == []
    ensures r.Some? ==> r.value in fg
    ensures r.Some? && depth > MAX_FUNCTION_DEPTH ==> Occurrences(fg, r, depth) == [Visit(r.value, depth)]
    ensures r.Some? && depth <= MAX_FUNCTION_DEPTH ==> Occurrences(fg, r, depth) == [Visit(r.value, depth)] + Below(fg, r.value, depth)
  {
    assert [r][0] == r;
  }

  lemma TypesRefusedMore(g: Graph, room: nat, a: seq<Offset>, c: seq<Offset>, left: int, ys: seq<Option<Offset>>, zs: seq<Option<Offset>>)
    requires TypesRefused(g, room, a, c, left, ys)
    ensures TypesRefused(g, room, a, c, left, ys + zs)
  {
    assert [] + ys + zs == ys + zs;
    if BadPath(g, room, ys) {
      BadPathGrows(g, room, [], ys, zs);
    } else {
      TP.OverspentLess(g, a, c, left - |ys|, left - |ys + zs|);
    }
  }

  lemma OutcomeExtend(fg: FnGraph, g: Graph, room: nat, vs: seq<Visit>, zs: seq<Visit>, f0: int, f1: int, v0: int, v1: int,
                      a: seq<Offset>, b: seq<Offset>, t0: int, t1: int)
    requires Outcome(false, fg, g, room, vs, f0, f1, v0, v1, a, b, t0, t1)
    ensures Outcome(false, fg, g, room, vs + zs, f0, f1, v0, v1, a, b, t0, t1)
  {
    hide VisitsOk, VectorsOf, EntriesOf, TypesRefused, Touched;
    VisitsConcat(fg, vs, zs, room);
    TouchedNone(g, [], a);
    TouchedJoin(g, |a|, a, b, [], EntriesOf(fg, vs), EntriesOf(fg, zs));
    assert [] + EntriesOf(fg, vs) + EntriesOf(fg, zs) == EntriesOf(fg, vs) + EntriesOf(fg, zs);
    if TypesRefused(g, room, a, b, t0, EntriesOf(fg, vs)) {
      TypesRefusedMore(g, room, a, b, t0, EntriesOf(fg, vs), EntriesOf(fg, zs));
    }
  }

  lemma TooDeepOutcome(fg: FnGraph, g: Graph, room: nat, o: Offset, depth: nat, f: int, v: int, order: seq<Offset>, t: int)
    requires depth > MAX_FUNCTION_DEPTH
    ensures Outcome(false, fg, g, room, [Visit(o, depth)], f, f, v, v, order, order, t, t)
  {
    assert [Visit(o, depth)][0].depth > MAX_FUNCTION_DEPTH;
    TouchedNone(g, EntriesOf(fg, [Visit(o, depth)]), order);
  }

  lemma OneEntry(fg: FnGraph, o: Offset, depth: nat)
    requires o in fg
    ensures EntriesOf(fg, [Visit(o, depth)]) == TypeEntries(fg[o])
  {
    var me := [Visit(o, depth)];
    assert me[..0] == [] && me[0] == Visit(o, depth);
    assert EntriesOf(fg, me[..0]) == [];
  }

  lemma TypeListsFit(f: Fn, room: nat)
    requires AllFit(Counts(f), room)
    ensures |f.typeTable| <= room && |f.generalConstants| <= room && |f.typeNames| <= room && |f.functions| <= room
  {
    CountsSplit(f, room);
    var c := ChargedCounts(f);
    assert c[11] == |f.generalConstants| && c[12] == |f.typeTable| && c[13] == |f.typeNames| && c[16] == |f.functions|;
  }

  /** Charges one function occurrence: itself, its vectors and its type entries. */
  method ValidateFunction(b: TP.Budget, fg: FnGraph, g: Graph, o: Offset, depth: nat, room: nat) returns (ok: bool)
    requires Closed(g) && WellLinked(fg, g) && b.Valid(g) && o in fg && depth <= MAX_FUNCTION_DEPTH
    modifies b
    ensures b.Valid(g)
    ensures Outcome(ok, fg, g, room, [Visit(o, depth)], old(b.functions), b.functions, old(b.vectors), b.vectors,
                    old(b.order), b.order, old(b.types), b.types)
    ensures ok ==> |fg[o].functions| <= room
  {
    hide TP.Fresh, Counts, Sum, TypeEntries, TypesWalked, TypesRefused, Touched, AllFit, VisitsOk, VectorsOf, EntriesOf;
    OneEntry(fg, o, depth);
    OneVisit(fg, o, depth, room);
    TouchedNone(g, TypeEntries(fg[o]), b.order);
    if b.functions == 0 {
      return false;
    }
    b.functions := b.functions - 1;
    ok := ValidateFunctionVectors(b, fg[o], room);
    if !ok { return; }
    TypeListsFit(fg[o], room);
    ok := ValidateFunctionTypes(b, g, fg[o], room);
  }

  /** Validates the children of a function, then its variable initialiser, one level deeper. */
  method ValidateBelow(b: TP.Budget, fg: FnGraph, g: Graph, o: Offset, depth: nat, room: nat) returns (ok: bool)
    requires Closed(g) && WellLinked(fg, g) && b.Valid(g) && o in fg && depth <= MAX_FUNCTION_DEPTH
    modifies b
    ensures b.Valid(g)
    ensures |fg[o].functions| <= room ==>
      Outcome(ok, fg, g, room, Below(fg, o, depth), old(b.functions), b.functions, old(b.vectors), b.vectors,
              old(b.order), b.order, old(b.types), b.types)
    ensures ok ==> |fg[o].functions| <= room
    decreases FunctionLevels(depth + 1), 2
  {
    hide TP.Fresh, Outcome, Occurrences, OccurrencesOf;
    if |fg[o].functions| > room {
      return false;
    }
    ghost var children, init := OccurrencesOf(fg, fg[o].functions, depth + 1), Occurrences(fg, fg[o].variableInit, depth + 1);
    ok := ValidateFunctions(b, fg, g, fg[o].functions, depth + 1, room);
    ghost var f, v, order, t := b.functions, b.vectors, b.order, b.types;
    if !ok {
      OutcomeExtend(fg, g, room, children, init, old(b.functions), f, old(b.vectors), v, old(b.order), order, old(b.types), t);
      return;
    }
    ok := ValidateFunctionTree(b, fg, g, fg[o].variableInit, depth + 1, room);
    OutcomeJoin(ok, fg, g, room, children, init, [], old(b.functions), f, b.functions, old(b.vectors), v, b.vectors,
                old(b.order), order, b.order, old(b.types), t, b.types);
    assert children + init + [] == children + init;
  }

  method ValidateFunctions(b: TP.Budget, fg: FnGraph, g: Graph, rs: seq<Option<Offset>>, depth: nat, room: nat) returns (ok: bool)
    requires Closed(g) && WellLinked(fg, g) && b.Valid(g) && RefsIn(fg, rs)
    modifies b
    ensures b.Valid(g)
    ensures Outcome(ok, fg, g, room, OccurrencesOf(fg, rs, depth), old(b.functions), b.functions, old(b.vectors), b.vectors,
                    old(b.order), b.order, old(b.types), b.types)
    decreases FunctionLevels(depth), 1
  {
    hide TP.Fresh, Outcome, Occurrences;
    OutcomeNone(fg, g, room, b.functions, b.vectors, b.order, b.visited, b.types);
    assert rs[..0] == [];
    for i := 0 to |rs|
      invariant b.Valid(g)
      invariant Outcome(true, fg, g, room, OccurrencesOf(fg, rs[..i], depth), old(b.functions), b.functions, old(b.vectors), b.vectors,
                        old(b.order), b.order, old(b.types), b.types)
    {
      ghost var f, v, order, t := b.functions, b.vectors, b.order, b.types;
      ok := ValidateFunctionTree(b, fg, g, rs[i], depth, room);
      assert rs[..i + 1][..i] == rs[..i];
      SplitOccurrences(fg, rs, i + 1, depth);
      OutcomeJoin(ok, fg, g, room, OccurrencesOf(fg, rs[..i], depth), Occurrences(fg, rs[i], depth), OccurrencesOf(fg, rs[i + 1..], depth),
                  old(b.functions), f, b.functions, old(b.vectors), v, b.vectors, old(b.order), order, b.order, old(b.types), t, b.types);
      if !ok { return; }
    }
    assert rs[..|rs|] == rs;
    ok := true;
  }

  /** What an accepted file set guarantees: its functions fit the budgets, and its type tables are well formed. */
  ghost predicate Accepted(fs: FileSet, fg: FnGraph, g: Graph, room: nat) {
    var vs := FileVisits(fs, fg);
    && VisitsOk(fg, vs, room) && |vs| <= MAXIMUM_DECODED_FUNCTION_OCCURRENCES
    && VectorsOf(fg, vs) + fs.entrypoints + fs.initialisers + |fs.packageVariables| <= MAXIMUM_DECODED_VECTOR_ELEMENTS
    && fs.entrypoints <= room && fs.initialisers <= room && |fs.packageVariables| <= room
    && TP.WellFormed(g, FileEntries(fs, fg), room)
  }

  /** No path of type tables is too long, and the distinct type tables are worth no more units than the payload earns. */
  ghost predicate Plain(fs: FileSet, fg: FnGraph, g: Graph, room: nat) {
    TP.Shallow(g, FileEntries(fs, fg)) && TP.Affordable(g, FileEntries(fs, fg), TP.TypeUnitAllowance(room))
  }

  /** A table of a known kind, nil only where a list holds it, basic only as a scalar, with lists that fit. */
  ghost predicate Legal(c: Cell, nested: bool, room: nat) {
    && |c.fields| <= room && |c.params| <= room && |c.results| <= room
    && ((c.kind == 0 && (c.attrs.basicKind <= 16 || c.attrs.basicKind == 24 || c.attrs.basicKind == 26)) || 1 <= c.kind <= 9 || (c.kind == 10 && !nested))
  }

  /** Every path of tables from a listed descriptor ends in a legal one. */
  ghost predicate TablesLegal(fs: FileSet, fg: FnGraph, g: Graph, room: nat) {
    forall p :: IsPath(g, p) && Listed(fs, fg, p[0]) ==> Legal(g[p[|p| - 1]], |p| > 1, room)
  }

  /** The tables charged, each once: those that a listed descriptor leads to. */
  ghost predicate ChargedFor(fs: FileSet, fg: FnGraph, g: Graph, charged: seq<Offset>) {
    && (forall i, j :: 0 <= i < j < |charged| ==> charged[i] != charged[j]) && (forall i :: 0 <= i < |charged| ==> charged[i] in g)
    && (forall o: Offset :: o in charged <==> exists a :: Listed(fs, fg, a) && TP.Reach(g, a, o))
  }

  /** What acceptance guarantees, told by the fields of the tables: short paths of functions whose lengths fit, and for every list legal types, charged within the allowance. */
  ghost predicate Checked(fs: FileSet, fg: FnGraph, g: Graph, room: nat, charged: seq<Offset>) {
    && PathsFit(fs, fg, room) && fs.entrypoints <= room && fs.initialisers <= room && |fs.packageVariables| <= room
    && TablesLegal(fs, fg, g, room) && ChargedFor(fs, fg, g, charged)
    && |FileEntries(fs, fg)| + |charged| + TP.FieldSlots(g, charged) + TP.ParamSlots(g, charged) + TP.ResultSlots(g, charged) <= TP.TypeUnitAllowance(room)
  }

  lemma RootsListed(fs: FileSet, fg: FnGraph, room: nat)
    requires PathsFit(fs, fg, room)
    ensures forall o: Offset :: o in TP.Roots(FileEntries(fs, fg)) <==> Listed(fs, fg, o)
  {
    hide FileEntries, Listed, PathsFit;
    forall o: Offset ensures o in TP.Roots(FileEntries(fs, fg)) <==> Listed(fs, fg, o) {
      EntriesExact(fs, fg, room, o);
      var es := FileEntries(fs, fg);
      if Some(o) in es {
        var i :| 0 <= i < |es| && es[i] == Some(o);
        assert es[i].Some? && es[i].value == o;
      }
    }
  }

  /** Well-formed entries are legal tables from every list. */
  lemma LegalExactly(fs: FileSet, fg: FnGraph, g: Graph, room: nat)
    requires PathsFit(fs, fg, room)
    ensures TP.WellFormed(g, FileEntries(fs, fg), room) <==> TablesLegal(fs, fg, g, room)
    ensures TP.Shallow(g, FileEntries(fs, fg)) <==> forall p :: IsPath(g, p) && Listed(fs, fg, p[0]) ==> |p| - 1 <= 256
  {
    hide FileEntries, Listed, PathsFit, TP.Roots;
    RootsListed(fs, fg, room);
    var es := FileEntries(fs, fg);
    if TP.WellFormed(g, es, room) {
      forall p | IsPath(g, p) && Listed(fs, fg, p[0]) ensures Legal(g[p[|p| - 1]], |p| > 1, room) {
        assert TP.FromRoot(g, es, p);
      }
    }
    if TP.Shallow(g, es) {
      forall p | IsPath(g, p) && Listed(fs, fg, p[0]) ensures |p| - 1 <= 256 {
        assert TP.FromRoot(g, es, p);
      }
    }
  }

  /** Acceptance but for the limits on numbers, told by paths and fields. */
  lemma AcceptedExactly(fs: FileSet, fg: FnGraph, g: Graph, room: nat)
    ensures Accepted(fs, fg, g, room) <==>
      && PathsFit(fs, fg, room) && TablesLegal(fs, fg, g, room) && fs.entrypoints <= room && fs.initialisers <= room && |fs.packageVariables| <= room
      && |FileVisits(fs, fg)| <= 65536 && VectorsOf(fg, FileVisits(fs, fg)) + fs.entrypoints + fs.initialisers + |fs.packageVariables| <= 1048576
  {
    hide FileVisits, FileEntries, VectorsOf, VisitsOk, PathsFit, TablesLegal, TP.WellFormed;
    VisitsExact(fs, fg, room);
    if PathsFit(fs, fg, room) {
      LegalExactly(fs, fg, g, room);
    }
  }

  lemma ChargedExactly(fs: FileSet, fg: FnGraph, g: Graph, room: nat, charged: seq<Offset>, visited: set<Offset>, spent: int)
    requires PathsFit(fs, fg, room) && TP.Fresh(g, charged, visited)
    requires TypesWalked(g, room, [], charged, spent, FileEntries(fs, fg)) && Touched(g, FileEntries(fs, fg), charged, 0)
    ensures ChargedFor(fs, fg, g, charged) && TP.Cost(g, charged) == spent - |FileEntries(fs, fg)|
  {
    hide FileEntries, Listed, PathsFit, TP.Reach, TP.Roots, TP.Segment, TP.Entered;
    var es := FileEntries(fs, fg);
    RootsListed(fs, fg, room);
    TP.SegmentCost(g, room, charged, spent - |es|);
    forall o: Offset ensures o in charged <==> exists a :: Listed(fs, fg, a) && TP.Reach(g, a, o) {
      if a :| Listed(fs, fg, a) && TP.Reach(g, a, o) {
        assert TP.Reached(g, TP.Roots(es), o);
        TP.ReachedIsCovered(g, room, es, charged, spent - |es|, o);
      }
    }
  }

  /** The whole preflight of a payload. */
  method ValidateFunctionExpansion(fs: FileSet, fg: FnGraph, g: Graph, room: nat) returns (ok: bool, ghost charged: seq<Offset>)
    requires Closed(g) && WellLinked(fg, g) && RefsIn(fg, [fs.root]) && RefsIn(fg, [fs.variableInit]) && RefsIn(g, fs.packageVariables)
    ensures ok ==> Accepted(fs, fg, g, room) && Checked(fs, fg, g, room, charged)
    ensures Accepted(fs, fg, g, room) && Plain(fs, fg, g, room) ==> ok
  {
    charged := [];
    hide Checked, Outcome, Occurrences, TP.WellFormed, TP.Shallow, TP.Affordable, TypesWalked, TypesRefused, Touched, VisitsOk, VectorsOf, EntriesOf,
         Sum, AllFit;
    var b := new TP.Budget(MAXIMUM_DECODED_FUNCTION_OCCURRENCES, MAXIMUM_DECODED_VECTOR_ELEMENTS, TP.TypeUnitAllowance(room));
    assert b.Valid(g);
    Few(fs.entrypoints, fs.initialisers, |fs.packageVariables|, 0, room);
    ok := ChargeVectors(b, room, [fs.entrypoints, fs.initialisers, |fs.packageVariables|]);
    if !ok { return; }
    ghost var v0, t0 := b.vectors, b.types;
    ghost var first, second := Occurrences(fg, fs.root, 0), Occurrences(fg, fs.variableInit, 0);
    ok := ValidateFunctionTree(b, fg, g, fs.root, 0, room);
    ghost var f1, v1, o1, t1 := b.functions, b.vectors, b.order, b.types;
    if !ok {
      OutcomeExtend(fg, g, room, first, second, MAXIMUM_DECODED_FUNCTION_OCCURRENCES, f1, v0, v1, [], o1, t0, t1);
      RefusedFile(fs, fg, g, room, f1, v0, v1, o1, t1);
      return;
    }
    ok := ValidateFunctionTree(b, fg, g, fs.variableInit, 0, room);
    OutcomeJoin(ok, fg, g, room, first, second, [], MAXIMUM_DECODED_FUNCTION_OCCURRENCES, f1, b.functions, v0, v1, b.vectors,
                [], o1, b.order, t0, t1, b.types);
    assert first + second + [] == first + second;
    if !ok {
      RefusedFile(fs, fg, g, room, b.functions, v0, b.vectors, b.order, b.types);
      return;
    }
    ghost var o2, t2 := b.order, b.types;
    ok := WalkEntries(b, g, fs.packageVariables, room);
    Conclude(ok, fs, fg, g, room, b.functions, v0, b.vectors, o2, b.order, t2, b.types, b.visited);
    charged := b.order;
    if ok {
      CheckedAfter(fs, fg, g, room, b.functions, v0, b.vectors, o2, b.order, t2, b.types, b.visited);
    }
  }

  lemma CheckedAfter(fs: FileSet, fg: FnGraph, g: Graph, room: nat, f: nat, v0: nat, v1: nat,
                     middle: seq<Offset>, after: seq<Offset>, t1: nat, t2: nat, visited: set<Offset>)
    requires Outcome(true, fg, g, room, FileVisits(fs, fg), MAXIMUM_DECODED_FUNCTION_OCCURRENCES, f, v0, v1, [], middle, TP.TypeUnitAllowance(room), t1)
    requires TypesWalked(g, room, middle, after, t1 - t2, fs.packageVariables) && Accepted(fs, fg, g, room)
    requires middle <= after && Touched(g, fs.packageVariables, after, |middle|) && TP.Fresh(g, after, visited)
    ensures Checked(fs, fg, g, room, after)
  {
    hide FileVisits, VectorsOf, VisitsOk, EntriesOf, TypesWalked, Touched, PathsFit, TablesLegal, ChargedFor, TP.Fresh, TP.WellFormed;
    var inner, t0 := EntriesOf(fg, FileVisits(fs, fg)), TP.TypeUnitAllowance(room);
    assert inner + fs.packageVariables + [] == FileEntries(fs, fg);
    TypesJoin(g, room, [], middle, after, t0 - t1, t1 - t2, inner, fs.packageVariables);
    TouchedJoin(g, 0, middle, after, inner, fs.packageVariables, []);
    VisitsExact(fs, fg, room);
    LegalExactly(fs, fg, g, room);
    ChargedExactly(fs, fg, g, room, after, visited, t0 - t2);
    ChargedIn(fs, fg, g, after);
    TP.CostTold(g, after);
  }

  lemma ChargedIn(fs: FileSet, fg: FnGraph, g: Graph, charged: seq<Offset>)
    requires ChargedFor(fs, fg, g, charged)
    ensures forall i :: 0 <= i < |charged| ==> charged[i] in g
  {
  }

  lemma RefusedFile(fs: FileSet, fg: FnGraph, g: Graph, room: nat, f: nat, v0: nat, v1: nat, order: seq<Offset>, t: nat)
    requires Outcome(false, fg, g, room, FileVisits(fs, fg), MAXIMUM_DECODED_FUNCTION_OCCURRENCES, f, v0, v1, [], order, TP.TypeUnitAllowance(room), t)
    requires v0 + fs.entrypoints + fs.initialisers + |fs.packageVariables| == MAXIMUM_DECODED_VECTOR_ELEMENTS
    requires forall i, j :: 0 <= i < j < |order| ==> order[i] != order[j]
    requires forall i :: 0 <= i < |order| ==> order[i] in g
    ensures !(Accepted(fs, fg, g, room) && Plain(fs, fg, g, room))
  {
    hide VisitsOk, VectorsOf, EntriesOf;
    var vs := FileVisits(fs, fg);
    if TypesRefused(g, room, [], order, TP.TypeUnitAllowance(room), EntriesOf(fg, vs)) {
      TypesRefusedMore(g, room, [], order, TP.TypeUnitAllowance(room), EntriesOf(fg, vs), fs.packageVariables);
      TouchedNone(g, [], []);
      TouchedJoin(g, 0, [], order, [], EntriesOf(fg, vs), fs.packageVariables);
      assert [] + EntriesOf(fg, vs) + fs.packageVariables == FileEntries(fs, fg);
      Unaffordable(g, room, FileEntries(fs, fg), order);
    }
  }

  lemma Unaffordable(g: Graph, room: nat, entries: seq<Option<Offset>>, order: seq<Offset>)
    requires TypesRefused(g, room, [], order, TP.TypeUnitAllowance(room), entries) && Touched(g, entries, order, 0)
    requires forall i, j :: 0 <= i < j < |order| ==> order[i] != order[j]
    requires forall i :: 0 <= i < |order| ==> order[i] in g
    ensures !(TP.WellFormed(g, entries, room) && TP.Shallow(g, entries) && TP.Affordable(g, entries, TP.TypeUnitAllowance(room)))
  {
    hide TP.WellFormed, TP.Shallow;
    if !BadPath(g, room, entries) {
      assert order[0..] == order;
      assert TP.ReachableList(g, entries, order);
    }
  }

  lemma Conclude(ok: bool, fs: FileSet, fg: FnGraph, g: Graph, room: nat, f: nat, v0: nat, v1: nat,
                 middle: seq<Offset>, after: seq<Offset>, t1: nat, t2: nat, visited: set<Offset>)
    requires Outcome(true, fg, g, room, FileVisits(fs, fg), MAXIMUM_DECODED_FUNCTION_OCCURRENCES, f, v0, v1, [], middle, TP.TypeUnitAllowance(room), t1)
    requires ok ==> TypesWalked(g, room, middle, after, t1 - t2, fs.packageVariables)
    requires !ok ==> TypesRefused(g, room, middle, after, t1, fs.packageVariables)
    requires middle <= after && Touched(g, fs.packageVariables, after, |middle|) && TP.Fresh(g, after, visited)
    requires fs.entrypoints <= room && fs.initialisers <= room && |fs.packageVariables| <= room
    requires v0 + fs.entrypoints + fs.initialisers + |fs.packageVariables| == MAXIMUM_DECODED_VECTOR_ELEMENTS
    ensures ok ==> Accepted(fs, fg, g, room)
    ensures !ok ==> !(Accepted(fs, fg, g, room) && Plain(fs, fg, g, room))
  {
    hide FileVisits, VectorsOf, VisitsOk, EntriesOf, TypesWalked, TypesRefused, Touched;
    var entries, inner, t0 := FileEntries(fs, fg), EntriesOf(fg, FileVisits(fs, fg)), TP.TypeUnitAllowance(room);
    assert inner + fs.packageVariables + [] == entries;
    if ok {
      TypesJoin(g, room, [], middle, after, t0 - t1, t1 - t2, inner, fs.packageVariables);
      WalkedIsWellFormed(g, room, after, t0 - t2, entries);
    } else {
      TypesRefusedAfter(g, room, [], middle, after, t0 - t1, t0, inner, fs.packageVariables, []);
      TouchedJoin(g, 0, middle, after, inner, fs.packageVariables, []);
      Unaffordable(g, room, entries, after);
    }
  }

  lemma WalkedIsWellFormed(g: Graph, room: nat, after: seq<Offset>, spent: int, entries: seq<Option<Offset>>)
    requires TypesWalked(g, room, [], after, spent, entries)
    ensures TP.WellFormed(g, entries, room)
  {
    hide TP.Segment, TP.Entered, TP.KindOk, TP.CountsOk;
    forall p | TP.FromRoot(g, entries, p) ensures TP.KindOk(g[p[|p| - 1]], |p| > 1) && TP.CountsOk(g[p[|p| - 1]], room) {
      TP.WalkCoversPath(g, room, entries, after, spent - |entries|, p);
    }
  }

  // ---------- the reconstruction ----------

  datatype UnpackError = NestingExceeded | CorruptCount

  /** The vector lengths of one function in the order reconstruction bounds them, children excluded. */
  function CountsBeforeChildren(f: Fn): seq<nat> {
    LeadingCounts(f) + ([|f.interfaceMethods|] + f.interfaceMethods) +
    ([|f.typeNames|, |f.callSites|] + SiteCounts(f.callSites)) + [f.upvalues, f.structLayouts, |f.functions|]
  }

  function CountsAfterChildren(f: Fn): seq<nat> {
    [f.namedResults, f.methodTable]
  }

  lemma Both(a: seq<nat>, b: seq<nat>, room: nat)
    ensures Sum(a + b) == Sum(a) + Sum(b)
    ensures AllFit(a + b, room) <==> AllFit(a, room) && AllFit(b, room)
  {
    SumConcat(a, b);
    FitConcat(a, b, room);
  }

  /** Reconstruction bounds exactly the lengths the preflight charged, in another order. */
  lemma SameCounts(f: Fn, room: nat)
    ensures Sum(Counts(f)) == Sum(CountsBeforeChildren(f)) + Sum(CountsAfterChildren(f))
    ensures AllFit(Counts(f), room) <==> AllFit(CountsBeforeChildren(f), room) && AllFit(CountsAfterChildren(f), room)
  {
    hide LeadingCounts, SiteCounts, Sum, AllFit;
    var lead, sites, sets := LeadingCounts(f), SiteCounts(f.callSites), f.interfaceMethods;
    var tn, cs, uv, fn := |f.typeNames|, |f.callSites|, f.upvalues, |f.functions|;
    var nr, mt, sl, im := f.namedResults, f.methodTable, f.structLayouts, |f.interfaceMethods|;
    Few(tn, cs, uv, fn, room);
    Few(nr, mt, sl, im, room);
    Few(im, 0, 0, 0, room);
    Few(uv, sl, fn, 0, room);
    Both(lead, [tn, cs, uv, fn], room);
    Both(lead + [tn, cs, uv, fn], [nr, mt, sl, im], room);
    Both(ChargedCounts(f), sites, room);
    Both(ChargedCounts(f) + sites, sets, room);
    Both([im], sets, room);
    Both(lead, [im] + sets, room);
    Both([tn, cs], sites, room);
    Both(lead + ([im] + sets), [tn, cs] + sites, room);
    Both(lead + ([im] + sets) + ([tn, cs] + sites), [uv, sl, fn], room);
  }

  /** A running reconstruction: how many functions were rebuilt and how many vector elements were read. */
  class Reconstruction {
    var rebuilt: nat
    var elements: nat
    ghost var visits: seq<Visit>

    constructor ()
      ensures rebuilt == 0 && elements == 0 && visits == []
    {
      rebuilt, elements, visits := 0, 0, [];
    }

    /** Reads vectors of the given declared lengths, refusing the first that exceeds the payload. */
    method ReadVectors(counts: seq<nat>, room: nat) returns (ok: bool)
      modifies this`elements
      ensures ok <==> AllFit(counts, room)
      ensures ok ==> elements == old(elements) + Sum(counts)
    {
      assert counts[..0] == [];
      for i := 0 to |counts|
        invariant AllFit(counts[..i], room) && elements == old(elements) + Sum(counts[..i])
      {
        assert counts[..i + 1][..i] == counts[..i];
        if counts[i] > room {
          return false;
        }
        elements := elements + counts[i];
      }
      assert counts[..|counts|] == counts;
      ok := true;
    }

    /** Rebuilds one function occurrence, its children and its variable initialiser. */
    method UnpackFunction(fg: FnGraph, o: Offset, depth: nat, room: nat) returns (err: Option<UnpackError>)
      requires o in fg && FunctionsLinked(fg)
      modifies this
      ensures err.None? <==> VisitsOk(fg, Occurrences(fg, Some(o), depth), room)
      ensures err.None? ==> Rebuilt(fg, old(rebuilt), old(elements), old(visits), rebuilt, elements, visits, Occurrences(fg, Some(o), depth))
      decreases FunctionLevels(depth), 0
    {
      hide Counts, CountsBeforeChildren, CountsAfterChildren, Sum, VisitsOk, VectorsOf, Occurrences, OccurrencesOf;
      Expand(fg, o, depth, room);
      if depth > MAX_FUNCTION_DEPTH {
        return Some(NestingExceeded);
      }
      ghost var children, init := OccurrencesOf(fg, fg[o].functions, depth + 1), Occurrences(fg, fg[o].variableInit, depth + 1);
      visits := visits + [Visit(o, depth)];
      var ok := ReadVectors(CountsBeforeChildren(fg[o]), room);
      if !ok { return Some(CorruptCount); }
      err := UnpackChildren(fg, fg[o].functions, depth + 1, room);
      if err.Some? { return; }
      ok := ReadVectors(CountsAfterChildren(fg[o]), room);
      if !ok { return Some(CorruptCount); }
      if fg[o].variableInit.Some? {
        assert [fg[o].variableInit][0].value in fg;
        err := UnpackFunction(fg, fg[o].variableInit.value, depth + 1, room);
        if err.Some? { return; }
      } else {
        NoVisits(fg, depth + 1, room);
      }
      rebuilt := rebuilt + 1;
      assert visits == old(visits) + ([Visit(o, depth)] + (children + init));
      return None;
    }

    method UnpackChildren(fg: FnGraph, rs: seq<Option<Offset>>, depth: nat, room: nat) returns (err: Option<UnpackError>)
      requires RefsIn(fg, rs) && FunctionsLinked(fg)
      modifies this
      ensures err.None? <==> VisitsOk(fg, OccurrencesOf(fg, rs, depth), room)
      ensures err.None? ==> Rebuilt(fg, old(rebuilt), old(elements), old(visits), rebuilt, elements, visits, OccurrencesOf(fg, rs, depth))
      decreases FunctionLevels(depth), 1
    {
      hide VisitsOk, VectorsOf, Occurrences;
      NoVisits(fg, depth, room);
      assert rs[..0] == [];
      for i := 0 to |rs|
        invariant VisitsOk(fg, OccurrencesOf(fg, rs[..i], depth), room)
        invariant Rebuilt(fg, old(rebuilt), old(elements), old(visits), rebuilt, elements, visits, OccurrencesOf(fg, rs[..i], depth))
      {
        assert rs[..i + 1][..i] == rs[..i];
        VisitsConcat(fg, OccurrencesOf(fg, rs[..i], depth), Occurrences(fg, rs[i], depth), room);
        if rs[i].Some? {
          err := UnpackFunction(fg, rs[i].value, depth, room);
          if err.Some? {
            PrefixOk(fg, rs, i + 1, depth, room);
            return;
          }
        }
      }
      assert rs[..|rs|] == rs;
      return None;
    }
  }

  ghost predicate FunctionsLinked(fg: FnGraph) {
    forall o :: o in fg ==> RefsIn(fg, fg[o].functions) && RefsIn(fg, [fg[o].variableInit])
  }

  /** The occurrences rebuilt between two states, and what reading them added. */
  ghost predicate Rebuilt(fg: FnGraph, r0: nat, e0: nat, v0: seq<Visit>, r1: nat, e1: nat, v1: seq<Visit>, vs: seq<Visit>) {
    r1 == r0 + |vs| && e1 == e0 + VectorsOf(fg, vs) && v1 == v0 + vs
  }

  lemma NoVisits(fg: FnGraph, depth: nat, room: nat)
    ensures Occurrences(fg, None, depth) == [] && VisitsOk(fg, [], room) && VectorsOf(fg, []) == 0
  {
  }

  lemma Expand(fg: FnGraph, o: Offset, depth: nat, room: nat)
    requires o in fg
    ensures depth > MAX_FUNCTION_DEPTH ==> !VisitsOk(fg, Occurrences(fg, Some(o), depth), room)
    ensures depth <= MAX_FUNCTION_DEPTH ==>
      var children, init := OccurrencesOf(fg, fg[o].functions, depth + 1), Occurrences(fg, fg[o].variableInit, depth + 1);
      && Occurrences(fg, Some(o), depth) == [Visit(o, depth)] + (children + init)
      && VectorsOf(fg, Occurrences(fg, Some(o), depth)) ==
           Sum(CountsBeforeChildren(fg[o])) + Sum(CountsAfterChildren(fg[o])) + VectorsOf(fg, children) + VectorsOf(fg, init)
      && (VisitsOk(fg, Occurrences(fg, Some(o), depth), room) <==>
           && AllFit(CountsBeforeChildren(fg[o]), room) && AllFit(CountsAfterChildren(fg[o]), room)
           && VisitsOk(fg, children, room) && VisitsOk(fg, init, room))
  {
    hide Counts, CountsBeforeChildren, CountsAfterChildren, Sum, AllFit;
    var me := [Visit(o, depth)];
    if depth > MAX_FUNCTION_DEPTH {
      assert Occurrences(fg, Some(o), depth)[0] == Visit(o, depth);
    } else {
      var children, init := OccurrencesOf(fg, fg[o].functions, depth + 1), Occurrences(fg, fg[o].variableInit, depth + 1);
      VisitsConcat(fg, children, init, room);
      VisitsConcat(fg, me, children + init, room);
      SameCounts(fg[o], room);
      OneVisit(fg, o, depth, room);
    }
  }

  lemma OneVisit(fg: FnGraph, o: Offset, depth: nat, room: nat)
    requires o in fg && depth <= MAX_FUNCTION_DEPTH
    ensures VectorsOf(fg, [Visit(o, depth)]) == Sum(Counts(fg[o]))
    ensures VisitsOk(fg, [Visit(o, depth)], room) <==> AllFit(Counts(fg[o]), room)
  {
    hide Counts, Sum, AllFit;
    var me := [Visit(o, depth)];
    assert me[..0] == [] && me[0] == Visit(o, depth);
    assert VectorsOf(fg, me[..0]) == 0;
  }

  lemma {:induction false} PrefixOk(fg: FnGraph, rs: seq<Option<Offset>>, k: nat, depth: nat, room: nat)
    requires k <= |rs|
    ensures VisitsOk(fg, OccurrencesOf(fg, rs, depth), room) ==> VisitsOk(fg, OccurrencesOf(fg, rs[..k], depth), room)
    decreases |rs| - k
  {
    hide VisitsOk, Occurrences;
    if k == |rs| {
      assert rs[..k] == rs;
    } else {
      PrefixOk(fg, rs, k + 1, depth, room);
      assert rs[..k + 1][..k] == rs[..k];
      VisitsConcat(fg, OccurrencesOf(fg, rs[..k], depth), Occurrences(fg, rs[k], depth), room);
    }
  }

  /** Rebuilds both root functions of a file set and reads its own vectors. */
  method UnpackFileSet(fs: FileSet, fg: FnGraph, room: nat) returns (err: Option<UnpackError>, rebuilt: nat, elements: nat)
    requires FunctionsLinked(fg) && RefsIn(fg, [fs.root]) && RefsIn(fg, [fs.variableInit])
    ensures err.None? <==>
      VisitsOk(fg, FileVisits(fs, fg), room) && fs.entrypoints <= room && fs.initialisers <= room && |fs.packageVariables| <= room
    ensures err.None? ==> rebuilt == |FileVisits(fs, fg)|
    ensures err.None? ==> elements == VectorsOf(fg, FileVisits(fs, fg)) + fs.entrypoints + fs.initialisers + |fs.packageVariables|
  {
    hide VisitsOk, VectorsOf, Occurrences, Sum, AllFit, FunctionsLinked;
    rebuilt, elements, err := 0, 0, None;
    var r := new Reconstruction();
    NoVisits(fg, 0, room);
    VisitsConcat(fg, Occurrences(fg, fs.root, 0), Occurrences(fg, fs.variableInit, 0), room);
    if fs.root.Some? {
      assert [fs.root][0].value in fg;
      err := r.UnpackFunction(fg, fs.root.value, 0, room);
      if err.Some? { return; }
    }
    if fs.variableInit.Some? {
      assert [fs.variableInit][0].value in fg;
      err := r.UnpackFunction(fg, fs.variableInit.value, 0, room);
      if err.Some? { return; }
    }
    Few(fs.entrypoints, fs.initialisers, |fs.packageVariables|, 0, room);
    var ok := r.ReadVectors([fs.entrypoints, fs.initialisers, |fs.packageVariables|], room);
    if !ok { return Some(CorruptCount), rebuilt, elements; }
    rebuilt, elements := r.rebuilt, r.elements;
  }

  /** Preflight, then reconstruction: once the preflight accepts, no function-level check can fail. */
  method LoadFunctions(fs: FileSet, fg: FnGraph, g: Graph, room: nat)
    returns (accepted: bool, err: Option<UnpackError>, rebuilt: nat, elements: nat, ghost charged: seq<Offset>)
    requires Closed(g) && WellLinked(fg, g) && RefsIn(fg, [fs.root]) && RefsIn(fg, [fs.variableInit]) && RefsIn(g, fs.packageVariables)
    ensures accepted ==> Accepted(fs, fg, g, room) && Checked(fs, fg, g, room, charged) && err.None?
    ensures Accepted(fs, fg, g, room) && Plain(fs, fg, g, room) ==> accepted
    ensures accepted ==> rebuilt == |FileVisits(fs, fg)| <= MAXIMUM_DECODED_FUNCTION_OCCURRENCES
    ensures accepted ==> elements <= MAXIMUM_DECODED_VECTOR_ELEMENTS
  {
    hide VisitsOk, VectorsOf, FileVisits, TP.WellFormed, EntriesOf, Plain, Checked;
    err, rebuilt, elements := None, 0, 0;
    accepted, charged := ValidateFunctionExpansion(fs, fg, g, room);
    if accepted {
      err, rebuilt, elements := UnpackFileSet(fs, fg, room);
    }
  }
}

/** The function tables of a payload: which functions a file set leads to, and what each of them declares. */
module FunctionTables {
  import opened Wrappers
  import opened TableGraph

  const MAX_FUNCTION_DEPTH := 256
  const MAXIMUM_DECODED_FUNCTION_OCCURRENCES := 0x1_0000
  const MAXIMUM_DECODED_VECTOR_ELEMENTS := 0x10_0000

  // ---------- the function tables of a payload ----------

  datatype CallSite = CallSite(arguments: nat, results: nat)

  /** One function table: the declared lengths of its vectors, and what the preflight follows. */
  datatype Fn = Fn(
    registerCounts: nat, parameterKinds: nat, parameterRegisters: nat, resultKinds: nat, body: nat,
    boolConstants: nat, intConstants: nat, floatConstants: nat, uintConstants: nat, complexConstants: nat,
    stringConstants: nat, generalConstants: seq<Option<Offset>>, typeTable: seq<Option<Offset>>,
    typeNames: seq<Option<Offset>>, callSites: seq<CallSite>, upvalues: nat, functions: seq<Option<Offset>>,
    namedResults: nat, methodTable: nat, structLayouts: nat, interfaceMethods: seq<nat>,
    variableInit: Option<Offset>)

  type FnGraph = map<Offset, Fn>

  datatype FileSet = FileSet(
    root: Option<Offset>, variableInit: Option<Offset>, entrypoints: nat, initialisers: nat,
    packageVariables: seq<Option<Offset>>)

  /** References lead to function tables and type tables of the payload. */
  ghost predicate WellLinked(fg: FnGraph, g: Graph) {
    forall o :: o in fg ==>
      && RefsIn(fg, fg[o].functions) && RefsIn(fg, [fg[o].variableInit])
      && RefsIn(g, fg[o].generalConstants) && RefsIn(g, fg[o].typeTable) && RefsIn(g, fg[o].typeNames)
  }

  // ---------- occurrences ----------

  datatype Visit = Visit(offset: Offset, depth: nat)

  function FunctionLevels(depth: nat): nat {
    if depth > MAX_FUNCTION_DEPTH then 0 else MAX_FUNCTION_DEPTH + 1 - depth
  }

  /** Every occurrence of a function below a reference, in visiting order; one past the depth bound is not expanded. */
  function Occurrences(fg: FnGraph, r: Option<Offset>, depth: nat): seq<Visit>
    decreases FunctionLevels(depth), 0
  {
    if r.None? || r.value !in fg then []
    else if depth > MAX_FUNCTION_DEPTH then [Visit(r.value, depth)]
    else [Visit(r.value, depth)] + Below(fg, r.value, depth)
  }

  function Below(fg: FnGraph, o: Offset, depth: nat): seq<Visit>
    requires o in fg && depth <= MAX_FUNCTION_DEPTH
    decreases FunctionLevels(depth + 1), 2
  {
    OccurrencesOf(fg, fg[o].functions, depth + 1) + Occurrences(fg, fg[o].variableInit, depth + 1)
  }

  function OccurrencesOf(fg: FnGraph, rs: seq<Option<Offset>>, depth: nat): seq<Visit>
    decreases FunctionLevels(depth), 1, |rs|
  {
    if rs == [] then [] else OccurrencesOf(fg, rs[..|rs| - 1], depth) + Occurrences(fg, rs[|rs| - 1], depth)
  }

  // ---------- what one function declares ----------

  /** The vector lengths in the order the preflight charges them. */
  function ChargedCounts(f: Fn): seq<nat> {
    LeadingCounts(f) + [|f.typeNames|, |f.callSites|, f.upvalues, |f.functions|] +
    [f.namedResults, f.methodTable, f.structLayouts, |f.interfaceMethods|]
  }

  function LeadingCounts(f: Fn): seq<nat> {
    [f.registerCounts, f.parameterKinds, f.parameterRegisters, f.resultKinds, f.body, f.boolConstants,
     f.intConstants, f.floatConstants, f.uintConstants, f.complexConstants, f.stringConstants,
     |f.generalConstants|, |f.typeTable|]
  }

  function Sum(ns: seq<nat>): nat {
    if ns == [] then 0 else Sum(ns[..|ns| - 1]) + ns[|ns| - 1]
  }

  predicate AllFit(ns: seq<nat>, room: nat) {
    forall i :: 0 <= i < |ns| ==> ns[i] <= room
  }

  function SiteCounts(sites: seq<CallSite>): seq<nat> {
    if sites == [] then []
    else SiteCounts(sites[..|sites| - 1]) + [sites[|sites| - 1].arguments, sites[|sites| - 1].results]
  }

  function Counts(f: Fn): seq<nat> {
    ChargedCounts(f) + SiteCounts(f.callSites) + f.interfaceMethods
  }

  /** The type entries of one function that the preflight walks. */
  function TypeEntries(f: Fn): seq<Option<Offset>> {
    f.typeTable + f.generalConstants + f.typeNames
  }

  function VectorsOf(fg: FnGraph, vs: seq<Visit>): nat {
    if vs == [] then 0
    else VectorsOf(fg, vs[..|vs| - 1]) + (if vs[|vs| - 1].offset in fg then Sum(Counts(fg[vs[|vs| - 1].offset])) else 0)
  }

  function EntriesOf(fg: FnGraph, vs: seq<Visit>): seq<Option<Offset>> {
    if vs == [] then []
    else EntriesOf(fg, vs[..|vs| - 1]) + (if vs[|vs| - 1].offset in fg then TypeEntries(fg[vs[|vs| - 1].offset]) else [])
  }

  /** The visit is within the depth bound and every declared length fits the payload. */
  predicate VisitOk(fg: FnGraph, v: Visit, room: nat) {
    v.depth <= MAX_FUNCTION_DEPTH && v.offset in fg && AllFit(Counts(fg[v.offset]), room)
  }

  predicate VisitsOk(fg: FnGraph, vs: seq<Visit>, room: nat) {
    forall i :: 0 <= i < |vs| ==> VisitOk(fg, vs[i], room)
  }

  lemma {:induction false} SumConcat(a: seq<nat>, b: seq<nat>)
    ensures Sum(a + b) == Sum(a) + Sum(b)
  {
    if b == [] {
      assert a + b == a;
    } else {
      assert (a + b)[..|a + b| - 1] == a + b[..|b| - 1];
      SumConcat(a, b[..|b| - 1]);
    }
  }

  lemma SumPrefix(ns: seq<nat>, k: nat)
    requires k <= |ns|
    ensures Sum(ns[..k]) <= Sum(ns)
  {
    assert ns == ns[..k] + ns[k..];
    SumConcat(ns[..k], ns[k..]);
  }

  lemma FitConcat(a: seq<nat>, b: seq<nat>, room: nat)
    ensures AllFit(a + b, room) <==> AllFit(a, room) && AllFit(b, room)
  {
    forall i | 0 <= i < |b| ensures (a + b)[|a| + i] == b[i] {}
    assert forall i :: 0 <= i < |a| ==> (a + b)[i] == a[i];
  }

  lemma CountsSplit(f: Fn, room: nat)
    ensures Sum(Counts(f)) == Sum(ChargedCounts(f)) + Sum(SiteCounts(f.callSites)) + Sum(f.interfaceMethods)
    ensures AllFit(Counts(f), room) <==>
      AllFit(ChargedCounts(f), room) && AllFit(SiteCounts(f.callSites), room) && AllFit(f.interfaceMethods, room)
  {
    hide ChargedCounts, SiteCounts;
    SumConcat(ChargedCounts(f) + SiteCounts(f.callSites), f.interfaceMethods);
    SumConcat(ChargedCounts(f), SiteCounts(f.callSites));
    FitConcat(ChargedCounts(f) + SiteCounts(f.callSites), f.interfaceMethods, room);
    FitConcat(ChargedCounts(f), SiteCounts(f.callSites), room);
  }

  lemma {:induction false} VisitsConcat(fg: FnGraph, a: seq<Visit>, b: seq<Visit>, room: nat)
    ensures VectorsOf(fg, a + b) == VectorsOf(fg, a) + VectorsOf(fg, b)
    ensures EntriesOf(fg, a + b) == EntriesOf(fg, a) + EntriesOf(fg, b)
    ensures VisitsOk(fg, a + b, room) <==> VisitsOk(fg, a, room) && VisitsOk(fg, b, room)
    decreases |b|
  {
    hide Counts, Sum, TypeEntries, VisitOk;
    if b == [] {
      assert a + b == a;
    } else {
      var n := |b| - 1;
      assert (a + b)[..|a + b| - 1] == a + b[..n];
      VisitsConcat(fg, a, b[..n], room);
      assert EntriesOf(fg, a + b) == EntriesOf(fg, a) + EntriesOf(fg, b);
      assert forall i :: 0 <= i < |a| ==> (a + b)[i] == a[i];
      assert forall i :: 0 <= i < |b| ==> (a + b)[|a| + i] == b[i];
    }
  }

  lemma {:induction false} SplitOccurrences(fg: FnGraph, rs: seq<Option<Offset>>, k: nat, depth: nat)
    requires k <= |rs|
    ensures OccurrencesOf(fg, rs, depth) == OccurrencesOf(fg, rs[..k], depth) + OccurrencesOf(fg, rs[k..], depth)
    decreases |rs|
  {
    hide Occurrences;
    if k == |rs| {
      assert rs[..k] == rs && rs[k..] == [];
    } else {
      var n := |rs| - 1;
      SplitOccurrences(fg, rs[..n], k, depth);
      assert rs[..n][..k] == rs[..k] && rs[k..][..|rs| - k - 1] == rs[..n][k..] && rs[k..][|rs| - k - 1] == rs[n];
    }
  }

  lemma Few(a: nat, b: nat, c: nat, d: nat, room: nat)
    ensures Sum([a]) == a && Sum([a, b]) == a + b && Sum([a, b, c]) == a + b + c && Sum([a, b, c, d]) == a + b + c + d
    ensures AllFit([a], room) <==> a <= room
    ensures AllFit([a, b], room) <==> a <= room && b <= room
    ensures AllFit([a, b, c], room) <==> a <= room && b <= room && c <= room
    ensures AllFit([a, b, c, d], room) <==> a <= room && b <= room && c <= room && d <= room
  {
    var x := [a, b, c, d];
    assert [a][..0] == [] && [a, b][..1] == [a] && [a, b, c][..2] == [a, b] && x[..3] == [a, b, c];
    assert x[0] == a && x[1] == b && x[2] == c && x[3] == d;
    assert [a, b, c][0] == a && [a, b, c][1] == b && [a, b, c][2] == c;
    assert [a, b][0] == a && [a, b][1] == b && [a][0] == a;
  }

  function FileVisits(fs: FileSet, fg: FnGraph): seq<Visit> {
    Occurrences(fg, fs.root, 0) + Occurrences(fg, fs.variableInit, 0)
  }

  function FileEntries(fs: FileSet, fg: FnGraph): seq<Option<Offset>> {
    EntriesOf(fg, FileVisits(fs, fg)) + fs.packageVariables
  }

  // ---------- the same, told by paths and fields ----------

  /** A function leads to its children and to its variable initialiser. */
  predicate Leads(f: Fn, o: Offset) {
    Some(o) in f.functions || f.variableInit == Some(o)
  }

  ghost predicate IsCallPath(fg: FnGraph, p: seq<Offset>) {
    p != [] && (forall i :: 0 <= i < |p| ==> p[i] in fg) && forall i :: 0 <= i < |p| - 1 ==> Leads(fg[p[i]], p[i + 1])
  }

  /** A path of functions from one of the two root functions. */
  ghost predicate FromFile(fs: FileSet, fg: FnGraph, p: seq<Offset>) {
    IsCallPath(fg, p) && (fs.root == Some(p[0]) || fs.variableInit == Some(p[0]))
  }

  /** Every length the function declares is at most the payload's. */
  ghost predicate LengthsFit(f: Fn, room: nat) {
    && f.registerCounts <= room && f.parameterKinds <= room && f.parameterRegisters <= room && f.resultKinds <= room && f.body <= room
    && f.boolConstants <= room && f.intConstants <= room && f.floatConstants <= room && f.uintConstants <= room && f.complexConstants <= room
    && f.stringConstants <= room && |f.generalConstants| <= room && |f.typeTable| <= room && |f.typeNames| <= room && |f.callSites| <= room
    && f.upvalues <= room && |f.functions| <= room && f.namedResults <= room && f.methodTable <= room && f.structLayouts <= room
    && |f.interfaceMethods| <= room && (forall s :: s in f.callSites ==> s.arguments <= room && s.results <= room)
    && (forall n :: n in f.interfaceMethods ==> n <= room)
  }

  function SiteTotal(sites: seq<CallSite>): nat {
    if sites == [] then 0 else sites[0].arguments + sites[0].results + SiteTotal(sites[1..])
  }

  function SetTotal(sets: seq<nat>): nat {
    if sets == [] then 0 else sets[0] + SetTotal(sets[1..])
  }

  /** All those lengths together. */
  function LengthTotal(f: Fn): nat {
    f.registerCounts + f.parameterKinds + f.parameterRegisters + f.resultKinds + f.body + f.boolConstants + f.intConstants
    + f.floatConstants + f.uintConstants + f.complexConstants + f.stringConstants + |f.generalConstants| + |f.typeTable|
    + |f.typeNames| + |f.callSites| + f.upvalues + |f.functions| + f.namedResults + f.methodTable + f.structLayouts
    + |f.interfaceMethods| + SiteTotal(f.callSites) + SetTotal(f.interfaceMethods)
  }

  lemma {:induction false} SitesAre(sites: seq<CallSite>, room: nat)
    ensures Sum(SiteCounts(sites)) == SiteTotal(sites)
    ensures AllFit(SiteCounts(sites), room) <==> forall s :: s in sites ==> s.arguments <= room && s.results <= room
    decreases |sites|
  {
    if sites != [] {
      hide Sum, AllFit, SiteCounts, SiteTotal;
      SitesAre(sites[1..], room);
      SitesCons(sites);
      SitesTotalCons(sites);
      var pair := [sites[0].arguments, sites[0].results];
      SumConcat(pair, SiteCounts(sites[1..]));
      FitConcat(pair, SiteCounts(sites[1..]), room);
      Few(sites[0].arguments, sites[0].results, 0, 0, room);
      assert sites == [sites[0]] + sites[1..];
    }
  }

  lemma SitesTotalCons(sites: seq<CallSite>)
    requires sites != []
    ensures SiteTotal(sites) == sites[0].arguments + sites[0].results + SiteTotal(sites[1..])
  {
  }

  lemma {:induction false} SitesCons(sites: seq<CallSite>)
    requires sites != []
    ensures SiteCounts(sites) == [sites[0].arguments, sites[0].results] + SiteCounts(sites[1..])
    decreases |sites|
  {
    var n := |sites| - 1;
    if n > 0 {
      SitesCons(sites[..n]);
      assert sites[..n][1..] == sites[1..][..n - 1] && sites[1..][n - 1] == sites[n];
    }
  }

  lemma {:induction false} SetsAre(sets: seq<nat>, room: nat)
    ensures Sum(sets) == SetTotal(sets)
    ensures AllFit(sets, room) <==> forall n :: n in sets ==> n <= room
    decreases |sets|
  {
    if sets != [] {
      SetsAre(sets[1..], room);
      Few(sets[0], 0, 0, 0, room);
      SumConcat([sets[0]], sets[1..]);
      assert sets == [sets[0]] + sets[1..];
      FitConcat([sets[0]], sets[1..], room);
      hide AllFit, Sum, SetTotal;
      assert sets[0] in sets && forall n :: n in sets <==> n == sets[0] || n in sets[1..];
    }
  }

  lemma LeadingAre(f: Fn, room: nat)
    ensures Sum(LeadingCounts(f)) == f.registerCounts + f.parameterKinds + f.parameterRegisters + f.resultKinds + f.body + f.boolConstants + f.intConstants
      + f.floatConstants + f.uintConstants + f.complexConstants + f.stringConstants + |f.generalConstants| + |f.typeTable|
    ensures AllFit(LeadingCounts(f), room) <==>
      && f.registerCounts <= room && f.parameterKinds <= room && f.parameterRegisters <= room && f.resultKinds <= room && f.body <= room
      && f.boolConstants <= room && f.intConstants <= room && f.floatConstants <= room && f.uintConstants <= room && f.complexConstants <= room
      && f.stringConstants <= room && |f.generalConstants| <= room && |f.typeTable| <= room
  {
    hide Sum, AllFit;
    var a := [f.registerCounts, f.parameterKinds, f.parameterRegisters, f.resultKinds];
    var b := [f.body, f.boolConstants, f.intConstants, f.floatConstants];
    var c := [f.uintConstants, f.complexConstants, f.stringConstants, |f.generalConstants|];
    assert LeadingCounts(f) == a + (b + (c + [|f.typeTable|]));
    Few(a[0], a[1], a[2], a[3], room);
    Few(b[0], b[1], b[2], b[3], room);
    Few(c[0], c[1], c[2], c[3], room);
    Few(|f.typeTable|, 0, 0, 0, room);
    SumConcat(a, b + (c + [|f.typeTable|]));
    SumConcat(b, c + [|f.typeTable|]);
    SumConcat(c, [|f.typeTable|]);
    FitConcat(a, b + (c + [|f.typeTable|]), room);
    FitConcat(b, c + [|f.typeTable|], room);
    FitConcat(c, [|f.typeTable|], room);
  }

  /** What is charged for a function, and bounded, is every length it declares and no other. */
  lemma LengthsExact(f: Fn, room: nat)
    ensures Sum(Counts(f)) == LengthTotal(f)
    ensures AllFit(Counts(f), room) <==> LengthsFit(f, room)
  {
    CountsSplit(f, room);
    SitesAre(f.callSites, room);
    SetsAre(f.interfaceMethods, room);
    LeadingAre(f, room);
    hide Sum, AllFit, LeadingCounts, SiteCounts, SiteTotal, SetTotal;
    var lead, x, y := LeadingCounts(f), [|f.typeNames|, |f.callSites|, f.upvalues, |f.functions|], [f.namedResults, f.methodTable, f.structLayouts, |f.interfaceMethods|];
    Few(x[0], x[1], x[2], x[3], room);
    Few(y[0], y[1], y[2], y[3], room);
    SumConcat(lead + x, y);
    SumConcat(lead, x);
    FitConcat(lead + x, y, room);
    FitConcat(lead, x, room);
  }

  lemma {:induction false} AmongAll(fg: FnGraph, rs: seq<Option<Offset>>, depth: nat, k: nat, v: Visit)
    requires k < |rs| && v in Occurrences(fg, rs[k], depth)
    ensures v in OccurrencesOf(fg, rs, depth)
    decreases |rs|
  {
    hide Occurrences;
    if k < |rs| - 1 {
      AmongAll(fg, rs[..|rs| - 1], depth, k, v);
    }
  }

  lemma CallTail(fg: FnGraph, p: seq<Offset>)
    requires IsCallPath(fg, p) && |p| > 1
    ensures IsCallPath(fg, p[1..]) && Leads(fg[p[0]], p[1])
  {
    forall i | 0 <= i < |p[1..]| - 1 ensures Leads(fg[p[1..][i]], p[1..][i + 1]) {
      assert Leads(fg[p[i + 1]], p[i + 2]);
    }
  }

  /** The end of every path within the bound, or one past it, is visited. */
  lemma {:induction false} PathVisited(fg: FnGraph, p: seq<Offset>, depth: nat)
    requires IsCallPath(fg, p) && depth + |p| - 1 <= MAX_FUNCTION_DEPTH + 1
    ensures Visit(p[|p| - 1], depth + |p| - 1) in Occurrences(fg, Some(p[0]), depth)
    decreases |p|
  {
    if |p| > 1 {
      CallTail(fg, p);
      PathVisited(fg, p[1..], depth + 1);
      hide OccurrencesOf, IsCallPath;
      var f, v := fg[p[0]], Visit(p[|p| - 1], depth + |p| - 1);
      assert p[1..][|p| - 2] == p[|p| - 1];
      if Some(p[1]) in f.functions {
        var k :| 0 <= k < |f.functions| && f.functions[k] == Some(p[1]);
        AmongAll(fg, f.functions, depth + 1, k, v);
      }
      assert v in Below(fg, p[0], depth);
    }
  }

  lemma CallCons(fg: FnGraph, o: Offset, p: seq<Offset>)
    requires IsCallPath(fg, p) && o in fg && Leads(fg[o], p[0])
    ensures IsCallPath(fg, [o] + p)
  {
    var q := [o] + p;
    forall i | 0 <= i < |q| - 1 ensures Leads(fg[q[i]], q[i + 1]) {
      if i > 0 {
        assert Leads(fg[p[i - 1]], p[i]);
      }
    }
  }

  /** And every visit is the end of a path. */
  lemma {:induction false} VisitedPath(fg: FnGraph, r: Option<Offset>, depth: nat, v: Visit) returns (p: seq<Offset>)
    requires v in Occurrences(fg, r, depth)
    ensures IsCallPath(fg, p) && r == Some(p[0]) && v == Visit(p[|p| - 1], depth + |p| - 1)
    decreases FunctionLevels(depth), 0
  {
    var o := r.value;
    p := [o];
    if v != Visit(o, depth) {
      hide OccurrencesOf, IsCallPath;
      var f := fg[o];
      var q;
      if v in OccurrencesOf(fg, f.functions, depth + 1) {
        var k;
        k, q := VisitedAmong(fg, f.functions, depth + 1, v);
      } else {
        q := VisitedPath(fg, f.variableInit, depth + 1, v);
      }
      CallCons(fg, o, q);
      p := [o] + q;
      assert p[|p| - 1] == q[|q| - 1];
    }
  }

  lemma PathIsNot(fg: FnGraph, p: seq<Offset>)
    requires IsCallPath(fg, p)
    ensures p != []
  {
  }

  lemma {:induction false} VisitedAmong(fg: FnGraph, rs: seq<Option<Offset>>, depth: nat, v: Visit) returns (k: nat, p: seq<Offset>)
    requires v in OccurrencesOf(fg, rs, depth)
    ensures k < |rs| && p != [] && IsCallPath(fg, p) && rs[k] == Some(p[0]) && v == Visit(p[|p| - 1], depth + |p| - 1)
    decreases FunctionLevels(depth), 1, |rs|
  {
    hide Occurrences, IsCallPath;
    var n := |rs| - 1;
    if v in Occurrences(fg, rs[n], depth) {
      k := n;
      p := VisitedPath(fg, rs[n], depth, v);
      assert p != [] by { PathIsNot(fg, p); }
    } else {
      k, p := VisitedAmong(fg, rs[..n], depth, v);
    }
  }

  lemma CallPrefix(fg: FnGraph, p: seq<Offset>, k: nat)
    requires IsCallPath(fg, p) && 0 < k <= |p|
    ensures IsCallPath(fg, p[..k])
  {
    forall i | 0 <= i < k - 1 ensures Leads(fg[p[..k][i]], p[..k][i + 1]) {
      assert Leads(fg[p[i]], p[i + 1]);
    }
  }

  /** Every path of functions is short, and its last function declares lengths that fit. */
  ghost predicate PathsFit(fs: FileSet, fg: FnGraph, room: nat) {
    forall p :: FromFile(fs, fg, p) ==> |p| - 1 <= 256 && LengthsFit(fg[p[|p| - 1]], room)
  }

  lemma InFileVisits(fs: FileSet, fg: FnGraph, p: seq<Offset>)
    requires FromFile(fs, fg, p) && |p| - 1 <= MAX_FUNCTION_DEPTH + 1
    ensures Visit(p[|p| - 1], |p| - 1) in FileVisits(fs, fg)
  {
    PathVisited(fg, p, 0);
    hide Occurrences, IsCallPath;
  }

  lemma FileVisitIsPath(fs: FileSet, fg: FnGraph, v: Visit) returns (p: seq<Offset>)
    requires v in FileVisits(fs, fg)
    ensures FromFile(fs, fg, p) && v == Visit(p[|p| - 1], |p| - 1)
  {
    hide Occurrences;
    if v in Occurrences(fg, fs.root, 0) {
      p := VisitedPath(fg, fs.root, 0, v);
    } else {
      p := VisitedPath(fg, fs.variableInit, 0, v);
    }
  }

  /** The functions visited pass their checks exactly if all paths do. */
  lemma VisitsExact(fs: FileSet, fg: FnGraph, room: nat)
    ensures VisitsOk(fg, FileVisits(fs, fg), room) <==> PathsFit(fs, fg, room)
  {
    hide FileVisits, Counts, AllFit, LengthsFit;
    var vs := FileVisits(fs, fg);
    if VisitsOk(fg, vs, room) {
      forall p | FromFile(fs, fg, p) ensures |p| - 1 <= 256 && LengthsFit(fg[p[|p| - 1]], room) {
        PathFits(fs, fg, room, p);
      }
    }
    if PathsFit(fs, fg, room) {
      forall i | 0 <= i < |vs| ensures VisitOk(fg, vs[i], room) {
        var p := FileVisitIsPath(fs, fg, vs[i]);
        LengthsExact(fg[p[|p| - 1]], room);
      }
    }
  }

  lemma PathFits(fs: FileSet, fg: FnGraph, room: nat, p: seq<Offset>)
    requires VisitsOk(fg, FileVisits(fs, fg), room) && FromFile(fs, fg, p)
    ensures |p| - 1 <= 256 && LengthsFit(fg[p[|p| - 1]], room)
  {
    hide FileVisits, Counts, AllFit, LengthsFit;
    var vs := FileVisits(fs, fg);
    if |p| - 1 > MAX_FUNCTION_DEPTH {
      var q := p[..MAX_FUNCTION_DEPTH + 2];
      CallPrefix(fg, p, MAX_FUNCTION_DEPTH + 2);
      InFileVisits(fs, fg, q);
      assert false;
    }
    InFileVisits(fs, fg, p);
    var i :| 0 <= i < |vs| && vs[i] == Visit(p[|p| - 1], |p| - 1);
    assert VisitOk(fg, vs[i], room);
    LengthsExact(fg[p[|p| - 1]], room);
  }

  /** The descriptor is in a list of the function: its type table, its general constants or its type names. */
  predicate InLists(f: Fn, o: Offset) {
    Some(o) in f.typeTable || Some(o) in f.generalConstants || Some(o) in f.typeNames
  }

  /** It is in a list of some function on a path, or among the package variables. */
  ghost predicate Listed(fs: FileSet, fg: FnGraph, o: Offset) {
    Some(o) in fs.packageVariables || exists p :: FromFile(fs, fg, p) && InLists(fg[p[|p| - 1]], o)
  }

  lemma {:induction false} EntriesAre(fg: FnGraph, vs: seq<Visit>, o: Offset)
    ensures Some(o) in EntriesOf(fg, vs) <==> exists v :: v in vs && v.offset in fg && InLists(fg[v.offset], o)
    decreases |vs|
  {
    if vs != [] {
      var n := |vs| - 1;
      EntriesAre(fg, vs[..n], o);
      assert vs == vs[..n] + [vs[n]];
    }
  }

  /** The entries walked are the descriptors listed. */
  lemma EntriesExact(fs: FileSet, fg: FnGraph, room: nat, o: Offset)
    requires PathsFit(fs, fg, room)
    ensures Some(o) in FileEntries(fs, fg) <==> Listed(fs, fg, o)
  {
    hide EntriesOf, LengthsFit, FileVisits;
    var vs := FileVisits(fs, fg);
    EntriesAre(fg, vs, o);
    if v :| v in vs && v.offset in fg && InLists(fg[v.offset], o) {
      var p := FileVisitIsPath(fs, fg, v);
      assert Listed(fs, fg, o);
    }
    if p :| FromFile(fs, fg, p) && InLists(fg[p[|p| - 1]], o) {
      InFileVisits(fs, fg, p);
      var v := Visit(p[|p| - 1], |p| - 1);
      assert v in vs && v.offset in fg && InLists(fg[v.offset], o);
    }
  }

  /** All lengths declared by the functions visited, one visit after the other. */
  lemma VectorsSnoc(fg: FnGraph, vs: seq<Visit>, v: Visit)
    ensures VectorsOf(fg, []) == 0
    ensures VectorsOf(fg, vs + [v]) == VectorsOf(fg, vs) + (if v.offset in fg then LengthTotal(fg[v.offset]) else 0)
  {
    hide Counts, Sum, LengthTotal;
    assert (vs + [v])[..|vs|] == vs;
    if v.offset in fg {
      LengthsExact(fg[v.offset], 0);
    }
  }
}

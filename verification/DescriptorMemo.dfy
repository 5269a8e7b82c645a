/** What the memoised import accepts, exactly: every table must be within the depth bound on the first path that leads to it. */
module DescriptorMemo {
  import opened Wrappers
  import opened TableGraph
  import opened FirstPaths
  import opened DescriptorCodec

  /** The memo is asked first, and nothing but depth is refused. */
  const IMPORT := Rule(MAX_CODEC_DEPTH, {}, false)

  /** The import goes through and leaves these tables in the memo. */
  ghost predicate Leaves<T>(r: Recalled<T>, v: Option<set<Offset>>) {
    r.outcome.Value? == v.Some? && (v.Some? ==> r.memo.Keys == v.value)
  }

  lemma {:induction false} PointerLeaves(g: Graph, o: Offset, depth: nat, memo: map<Offset, Type>)
    requires DataGraph(g) && o in g
    ensures Leaves(RecallPointer(g, o, depth, memo), Visit(IMPORT, g, o, depth, memo.Keys))
    decreases LevelsLeft(depth), 1
  {
    hide DataGraph, Recall, VisitAll, FirstPaths.Children;
    if o !in memo {
      if depth >= MAX_CODEC_DEPTH {
        TooDeep(g, o, depth, memo);
      } else {
        TableLeaves(g, o, depth, memo);
      }
    }
  }

  lemma TooDeep(g: Graph, o: Offset, depth: nat, memo: map<Offset, Type>)
    requires depth >= MAX_CODEC_DEPTH
    ensures Recall(g, o, depth, memo).outcome.Panic?
  {
  }

  lemma {:induction false} TableLeaves(g: Graph, o: Offset, depth: nat, memo: map<Offset, Type>)
    requires DataGraph(g) && o in g && depth < MAX_CODEC_DEPTH
    ensures Leaves(Recall(g, o, depth, memo), VisitAll(IMPORT, g, FirstPaths.Children(g[o]), depth + 1, memo.Keys))
    decreases LevelsLeft(depth), 0
  {
    hide RecallChild, RecallItems, RecallSlots, VisitAll, OfItems, OfSlots, OfOption;
    var c, d := g[o], depth + 1;
    var os := FirstPaths.Children(c);
    forall x | x in os ensures x in g {
      ChildrenAre(c, x);
    }
    var k := PointersLeave(g, o, depth, memo);
    VisitConcat(IMPORT, g, Pointers(c) + OfSlots(c.fields) + OfItems(c.params), OfItems(c.results), d, memo.Keys);
    VisitConcat(IMPORT, g, Pointers(c) + OfSlots(c.fields), OfItems(c.params), d, memo.Keys);
    VisitConcat(IMPORT, g, Pointers(c), OfSlots(c.fields), d, memo.Keys);
    if k.Some? {
      SlotsLeave(g, c.fields, d, k.value);
      var fs := RecallSlots(g, c.fields, d, k.value);
      if fs.outcome.Value? {
        ItemsLeave(g, c.params, d, fs.memo);
        var ps := RecallItems(g, c.params, d, fs.memo);
        if ps.outcome.Value? {
          ItemsLeave(g, c.results, d, ps.memo);
        }
      }
    }
  }

  /** The memo after elem, key and value. */
  lemma {:induction false} PointersLeave(g: Graph, o: Offset, depth: nat, memo: map<Offset, Type>) returns (after: Option<map<Offset, Type>>)
    requires DataGraph(g) && o in g && depth < MAX_CODEC_DEPTH
    ensures var v := VisitAll(IMPORT, g, Pointers(g[o]), depth + 1, memo.Keys); v.Some? == after.Some? && (v.Some? ==> after.value.Keys == v.value)
    ensures var c := g[o]; var e := RecallChild(g, c.elem, depth + 1, memo); var k := RecallChild(g, c.key, depth + 1, e.memo);
      var v := RecallChild(g, c.value, depth + 1, k.memo);
      after == if e.outcome.Panic? || k.outcome.Panic? || v.outcome.Panic? then None else Some(v.memo)
    decreases LevelsLeft(depth + 1), 4
  {
    hide RecallChild, VisitAll, OfOption, DataGraph;
    var c, d := g[o], depth + 1;
    var e := RecallChild(g, c.elem, d, memo);
    var k := RecallChild(g, c.key, d, e.memo);
    var v := RecallChild(g, c.value, d, k.memo);
    ChildLeaves(g, o, c.elem, depth, memo);
    VisitConcat(IMPORT, g, OfOption(c.elem) + OfOption(c.key), OfOption(c.value), d, memo.Keys);
    VisitConcat(IMPORT, g, OfOption(c.elem), OfOption(c.key), d, memo.Keys);
    if e.outcome.Value? {
      ChildLeaves(g, o, c.key, depth, e.memo);
      if k.outcome.Value? {
        ChildLeaves(g, o, c.value, depth, k.memo);
      }
    }
    after := if e.outcome.Panic? || k.outcome.Panic? || v.outcome.Panic? then None else Some(v.memo);
  }

  lemma {:induction false} ChildLeaves(g: Graph, o: Offset, r: Option<Offset>, depth: nat, memo: map<Offset, Type>)
    requires DataGraph(g) && o in g && depth < MAX_CODEC_DEPTH && (r == g[o].elem || r == g[o].key || r == g[o].value)
    ensures Leaves(RecallChild(g, r, depth + 1, memo), VisitAll(IMPORT, g, OfOption(r), depth + 1, memo.Keys))
    decreases LevelsLeft(depth + 1), 3
  {
    hide RecallPointer, Visit;
    if r.Some? {
      assert Refers(g[o], r.value);
      PointerLeaves(g, r.value, depth + 1, memo);
      VisitOne(IMPORT, g, r.value, depth + 1, memo.Keys);
    } else {
      VisitOne(IMPORT, g, o, depth + 1, memo.Keys);
    }
  }

  lemma {:induction false} ItemsLeave(g: Graph, rs: seq<Option<Offset>>, depth: nat, memo: map<Offset, Type>)
    requires DataGraph(g) && None !in rs && (forall i :: 0 <= i < |rs| && rs[i].Some? ==> rs[i].value in g)
    ensures Leaves(RecallItems(g, rs, depth, memo), VisitAll(IMPORT, g, OfItems(rs), depth, memo.Keys))
    decreases LevelsLeft(depth), 3, |rs|
  {
    hide RecallPointer, Visit, VisitAll, DataGraph;
    if rs == [] {
      VisitOne(IMPORT, g, 0, depth, memo.Keys);
    } else {
      var n := |rs| - 1;
      assert rs[n] in rs;
      ItemsLeave(g, rs[..n], depth, memo);
      var front := RecallItems(g, rs[..n], depth, memo);
      VisitConcat(IMPORT, g, OfItems(rs[..n]), [rs[n].value], depth, memo.Keys);
      if front.outcome.Value? {
        PointerLeaves(g, rs[n].value, depth, front.memo);
        VisitOne(IMPORT, g, rs[n].value, depth, front.memo.Keys);
      }
    }
  }

  lemma {:induction false} SlotsLeave(g: Graph, ss: seq<Slot>, depth: nat, memo: map<Offset, Type>)
    requires DataGraph(g) && (forall i :: 0 <= i < |ss| ==> ss[i].typ.Some? && ss[i].typ.value in g)
    ensures Leaves(RecallSlots(g, ss, depth, memo), VisitAll(IMPORT, g, OfSlots(ss), depth, memo.Keys))
    decreases LevelsLeft(depth), 3, |ss|
  {
    hide RecallPointer, Visit, VisitAll, DataGraph;
    if ss == [] {
      VisitOne(IMPORT, g, 0, depth, memo.Keys);
    } else {
      var n := |ss| - 1;
      SlotsLeave(g, ss[..n], depth, memo);
      var front := RecallSlots(g, ss[..n], depth, memo);
      VisitConcat(IMPORT, g, OfSlots(ss[..n]), [ss[n].typ.value], depth, memo.Keys);
      if front.outcome.Value? {
        PointerLeaves(g, ss[n].typ.value, depth, front.memo);
        VisitOne(IMPORT, g, ss[n].typ.value, depth, front.memo.Keys);
      }
    }
  }

  /** The memoised import accepts a graph, cyclic or not, if and only if every table below is within the bound on the first path to it. */
  lemma MemoAccepts(g: Graph, o: Offset)
    requires DataGraph(g) && o in g
    ensures Recall(g, o, 0, map[]).outcome.Value? <==> forall p :: IsFirst(g, p) && p[0] == o ==> |p| <= MAX_CODEC_DEPTH
  {
    hide Recall, VisitAll, FirstPaths.Children, FirstStep, DataGraph, Visit, Leads, Refers;
    var memo: map<Offset, Type> := map[];
    assert memo.Keys == {};
    TableLeaves(g, o, 0, memo);
    FirstVisit(g, o);
    assert Closed(g) by { DataIsClosed(g); }
    VisitExact(IMPORT, g, o, 0, {});
    assert Short(IMPORT, g, o, 0, {}) <==> forall p :: IsFirst(g, p) && p[0] == o ==> |p| <= MAX_CODEC_DEPTH by { ShortImport(g, o); }
  }

  lemma ShortImport(g: Graph, o: Offset)
    ensures Short(IMPORT, g, o, 0, {}) <==> forall p :: IsFirst(g, p) && p[0] == o ==> |p| <= MAX_CODEC_DEPTH
  {
    hide FirstPaths.Children, FirstStep;
    FirstNotEmpty(g);
    if Short(IMPORT, g, o, 0, {}) {
      forall p | IsFirst(g, p) && p[0] == o ensures |p| <= MAX_CODEC_DEPTH {
        assert Fits(IMPORT, g, 0, p);
      }
    }
  }

  lemma DataIsClosed(g: Graph)
    requires DataGraph(g)
    ensures Closed(g)
  {
  }

  lemma FirstVisit(g: Graph, o: Offset)
    requires o in g
    ensures Visit(IMPORT, g, o, 0, {}).Some? == VisitAll(IMPORT, g, FirstPaths.Children(g[o]), 1, {}).Some?
  {
    hide VisitAll, FirstPaths.Children;
  }
}

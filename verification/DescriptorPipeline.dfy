/** Packing and decoding together: what is written is read back, and it is written once. */
module DescriptorPipeline {
  import opened Wrappers
  import opened Descriptors
  import opened StructuralKey
  import opened TableGraph
  import opened DescriptorPacker
  import opened Decoder = DescriptorDecoder
  import Codec = DescriptorCodec
  import FP = FirstPaths

  // ---------- written nodes unfold to their meaning ----------

  /** A written table unfolds to exactly the descriptor it stands for, shared or not. */
  lemma {:induction false} MeaningUnfolds(nodes: Heap, next: Offset, m: Meaning, o: Offset, d: Desc)
    requires NodesOk(nodes, next, m) && RefTo(m, o, SDesc(d))
    ensures Unfolds(View(nodes), o, d)
    decreases d, 2
  {
    var g, n := View(nodes), nodes[o];
    assert Represents(m, n, m[o]);
    hide UnfoldsOpt, UnfoldsList, UnfoldsFields, NodesOk, CellAt;
    assert g[o] == CellAt(nodes, n);
    OptMeaning(nodes, next, m, n.elem, d.elem);
    OptMeaning(nodes, next, m, n.key, d.key);
    OptMeaning(nodes, next, m, n.value, d.value);
    FieldsMeaning(nodes, next, m, n.fields, d.fields);
    ListMeaning(nodes, next, m, n.params, d.params);
    ListMeaning(nodes, next, m, n.results, d.results);
  }

  lemma {:induction false} OptMeaning(nodes: Heap, next: Offset, m: Meaning, o: Offset, d: Option<Desc>)
    requires NodesOk(nodes, next, m) && OptRef(m, o, d)
    ensures UnfoldsOpt(View(nodes), Child(nodes, o), d)
    decreases d, 3
  {
    if d.Some? {
      assert Represents(m, nodes[o], m[o]);
      MeaningUnfolds(nodes, next, m, o, d.value);
    }
  }

  lemma {:induction false} ListMeaning(nodes: Heap, next: Offset, m: Meaning, o: Offset, ds: seq<Desc>)
    requires NodesOk(nodes, next, m) && ListRef(m, o, ds)
    ensures UnfoldsList(View(nodes), Children(nodes, Items(nodes, o)), ds)
    ensures None !in Children(nodes, Items(nodes, o))
    decreases ds, 3
  {
    if ds != [] {
      assert Represents(m, nodes[o], m[o]);
      var items := Items(nodes, o);
      forall i | 0 <= i < |ds|
        ensures Child(nodes, items[i]).Some? && UnfoldsSlot(View(nodes), Child(nodes, items[i]), ds[i])
      {
        assert RefTo(m, items[i], SDesc(ds[i]));
        assert Represents(m, nodes[items[i]], m[items[i]]);
        MeaningUnfolds(nodes, next, m, items[i], ds[i]);
      }
    }
  }

  lemma {:induction false} FieldMeaning(nodes: Heap, next: Offset, m: Meaning, o: Offset, f: Field)
    requires NodesOk(nodes, next, m) && RefTo(m, o, SField(f))
    ensures SlotAt(nodes, o).typ.Some? && UnfoldsField(View(nodes), SlotAt(nodes, o), f)
    decreases f, 3
  {
    assert Represents(m, nodes[o], m[o]);
    var t := nodes[o].typ;
    assert Represents(m, nodes[t], m[t]);
    MeaningUnfolds(nodes, next, m, t, f.typ);
  }

  lemma {:induction false} FieldsMeaning(nodes: Heap, next: Offset, m: Meaning, o: Offset, fs: seq<Field>)
    requires NodesOk(nodes, next, m) && FieldsRef(m, o, fs)
    ensures UnfoldsFields(View(nodes), Slots(nodes, Items(nodes, o)), fs)
    ensures forall i :: 0 <= i < |fs| ==> Slots(nodes, Items(nodes, o))[i].typ.Some?
    decreases fs, 4
  {
    if fs != [] {
      assert Represents(m, nodes[o], m[o]);
      var items := Items(nodes, o);
      forall i | 0 <= i < |fs|
        ensures SlotAt(nodes, items[i]).typ.Some? && UnfoldsField(View(nodes), SlotAt(nodes, items[i]), fs[i])
      {
        assert RefTo(m, items[i], SField(fs[i]));
        FieldMeaning(nodes, next, m, items[i], fs[i]);
      }
    }
  }

  // ---------- decoding a tree succeeds exactly up to the depth bound ----------

  /** Every list in the tree is no longer than the payload. */
  ghost predicate ListsFit(d: Desc, room: nat)
    decreases d, 0
  {
    && OptFits(d.elem, room) && OptFits(d.key, room) && OptFits(d.value, room)
    && FieldsFit(d.fields, room) && ListFits(d.params, room) && ListFits(d.results, room)
  }

  ghost predicate OptFits(o: Option<Desc>, room: nat)
    decreases o, 1
  {
    o.Some? ==> ListsFit(o.value, room)
  }

  ghost predicate ListFits(ds: seq<Desc>, room: nat)
    decreases ds, 1
  {
    |ds| <= room && forall i :: 0 <= i < |ds| ==> ListsFit(ds[i], room)
  }

  ghost predicate FieldFits(f: Field, room: nat)
    decreases f, 1
  {
    ListsFit(f.typ, room)
  }

  ghost predicate FieldsFit(fs: seq<Field>, room: nat)
    decreases fs, 2
  {
    |fs| <= room && forall i :: 0 <= i < |fs| ==> FieldFits(fs[i], room)
  }

  /** Following an edge keeps the lists fitting. */
  lemma StepFits(g: Graph, o: Offset, d: Desc, next: Offset, e: Desc, room: nat)
    requires Unfolds(g, o, d) && Refers(g[o], next) && Unfolds(g, next, e) && ListsFit(d, room)
    ensures ListsFit(e, room)
  {
    var c := g[o];
    if c.elem == Some(next) {
      UnfoldsUnique(g, next, d.elem.value, e);
    } else if c.key == Some(next) {
      UnfoldsUnique(g, next, d.key.value, e);
    } else if c.value == Some(next) {
      UnfoldsUnique(g, next, d.value.value, e);
    } else if i :| 0 <= i < |c.fields| && c.fields[i].typ == Some(next) {
      FieldUnfolds(g, c.fields, d.fields, i);
      UnfoldsUnique(g, next, d.fields[i].typ, e);
      assert FieldFits(d.fields[i], room);
    } else if Some(next) in c.params {
      var i :| 0 <= i < |c.params| && c.params[i] == Some(next);
      SlotUnfolds(g, c.params, d.params, i);
      UnfoldsUnique(g, next, d.params[i], e);
    } else {
      var i :| 0 <= i < |c.results| && c.results[i] == Some(next);
      SlotUnfolds(g, c.results, d.results, i);
      UnfoldsUnique(g, next, d.results[i], e);
    }
  }

  lemma {:induction false} PathFits(g: Graph, p: seq<Offset>, d: Desc, room: nat)
    requires IsPath(g, p) && Unfolds(g, p[0], d) && ListsFit(d, room)
    ensures |p| - 1 <= Height(d) && CellOk(g[p[|p| - 1]], room)
    decreases |p|
  {
    if |p| > 1 {
      assert Refers(g[p[0]], p[1]);
      var e := StepDescends(g, p[0], d, p[1]);
      StepFits(g, p[0], d, p[1], e, room);
      TailPath(g, p);
      PathFits(g, p[1..], e, room);
      assert p[1..][|p| - 2] == p[|p| - 1];
    }
  }

  lemma {:induction false} ListHeightBound(ds: seq<Desc>, b: nat)
    requires forall i :: 0 <= i < |ds| ==> Height(ds[i]) < b
    ensures ListHeight(ds) <= b
  {
    if ds != [] {
      ListHeightBound(ds[1..], b);
    }
  }

  lemma {:induction false} FieldsHeightBound(fs: seq<Field>, b: nat)
    requires forall i :: 0 <= i < |fs| ==> Height(fs[i].typ) < b
    ensures FieldsHeight(fs) <= b
  {
    if fs != [] {
      FieldsHeightBound(fs[1..], b);
    }
  }

  lemma {:induction false} DecodedFits(g: Graph, o: Offset, d: Desc, depth: nat, room: nat)
    requires Closed(g) && AllSolid(g) && Unfolds(g, o, d) && Decode(g, o, depth, room).Ok?
    ensures depth + Height(d) <= MAX_TYPE_DEPTH && ListsFit(d, room)
    decreases d, 2
  {
    var c := g[o];
    OptDecodedFits(g, o, c.elem, d.elem, depth, room);
    OptDecodedFits(g, o, c.key, d.key, depth, room);
    OptDecodedFits(g, o, c.value, d.value, depth, room);
    FieldsDecodedFit(g, o, d.fields, depth, room);
    ListDecodedFits(g, o, c.params, d.params, depth, room);
    ListDecodedFits(g, o, c.results, d.results, depth, room);
  }

  lemma {:induction false} OptDecodedFits(g: Graph, o: Offset, r: Option<Offset>, d: Option<Desc>, depth: nat, room: nat)
    requires Closed(g) && AllSolid(g) && o in g && Decode(g, o, depth, room).Ok? && UnfoldsOpt(g, r, d)
    requires r.Some? ==> Refers(g[o], r.value)
    ensures depth + OptHeight(d) <= MAX_TYPE_DEPTH && OptFits(d, room)
    decreases d, 3
  {
    if d.Some? {
      ChildDecodes(g, o, r.value, depth, room);
      DecodedFits(g, r.value, d.value, depth + 1, room);
    }
  }

  lemma {:induction false} ListDecodedFits(g: Graph, o: Offset, rs: seq<Option<Offset>>, ds: seq<Desc>, depth: nat, room: nat)
    requires Closed(g) && AllSolid(g) && o in g && Decode(g, o, depth, room).Ok? && UnfoldsList(g, rs, ds)
    requires rs == g[o].params || rs == g[o].results
    ensures depth + ListHeight(ds) <= MAX_TYPE_DEPTH && ListFits(ds, room)
    decreases ds, 3
  {
    forall i | 0 <= i < |ds| ensures depth + 1 + Height(ds[i]) <= MAX_TYPE_DEPTH && ListsFit(ds[i], room) {
      assert rs[i] in rs;
      SlotUnfolds(g, rs, ds, i);
      ChildDecodes(g, o, rs[i].value, depth, room);
      DecodedFits(g, rs[i].value, ds[i], depth + 1, room);
    }
    ListHeightBound(ds, MAX_TYPE_DEPTH - depth);
  }

  lemma {:induction false} FieldsDecodedFit(g: Graph, o: Offset, fs: seq<Field>, depth: nat, room: nat)
    requires Closed(g) && AllSolid(g) && o in g && Decode(g, o, depth, room).Ok? && UnfoldsFields(g, g[o].fields, fs)
    ensures depth + FieldsHeight(fs) <= MAX_TYPE_DEPTH && FieldsFit(fs, room)
    decreases fs, 4
  {
    forall i | 0 <= i < |fs| ensures depth + 1 + Height(fs[i].typ) <= MAX_TYPE_DEPTH && FieldFits(fs[i], room) {
      FieldUnfolds(g, g[o].fields, fs, i);
      FieldDecodedFits(g, o, g[o].fields[i].typ.value, fs[i], depth, room);
    }
    FieldsHeightBound(fs, MAX_TYPE_DEPTH - depth);
  }

  lemma {:induction false} FieldDecodedFits(g: Graph, o: Offset, next: Offset, f: Field, depth: nat, room: nat)
    requires Closed(g) && AllSolid(g) && o in g && Decode(g, o, depth, room).Ok?
    requires Refers(g[o], next) && Unfolds(g, next, f.typ)
    ensures depth + 1 + Height(f.typ) <= MAX_TYPE_DEPTH && FieldFits(f, room)
    decreases f, 3
  {
    ChildDecodes(g, o, next, depth, room);
    DecodedFits(g, next, f.typ, depth + 1, room);
  }

  /** Plain decoding gives a solid table's tree back exactly when the tree is low enough and its lists fit. */
  lemma DecodeOfTree(g: Graph, o: Offset, d: Desc, depth: nat, room: nat)
    requires Closed(g) && AllSolid(g) && Unfolds(g, o, d)
    ensures Decode(g, o, depth, room) == Ok(d) <==> depth + Height(d) <= MAX_TYPE_DEPTH && ListsFit(d, room)
    ensures Decode(g, o, depth, room).Ok? ==> Decode(g, o, depth, room) == Ok(d)
  {
    UnfoldingRefines(g, o, depth, room, d);
    if Decode(g, o, depth, room).Ok? {
      DecodedFits(g, o, d, depth, room);
    } else if depth + Height(d) <= MAX_TYPE_DEPTH && ListsFit(d, room) {
      forall p | IsPath(g, p) && p[0] == o ensures PathOk(g, p, depth, room) {
        PathFits(g, p, d, room);
      }
      OkPathsDecode(g, o, depth, room);
    }
  }

  lemma TableIsSolid(nodes: Heap, next: Offset, m: Meaning, o: Offset)
    requires NodesOk(nodes, next, m) && o in nodes && nodes[o].TableNode?
    ensures Solid(CellAt(nodes, nodes[o]))
  {
    var n := nodes[o];
    assert Represents(m, n, m[o]);
    var d := m[o].desc;
    ListMeaning(nodes, next, m, n.params, d.params);
    ListMeaning(nodes, next, m, n.results, d.results);
    FieldsMeaning(nodes, next, m, n.fields, d.fields);
    hide NodesOk, Represents, View, Unfolds, UnfoldsSlot, UnfoldsField;
  }

  lemma PackedIsSolid(nodes: Heap, next: Offset, m: Meaning)
    requires NodesOk(nodes, next, m)
    ensures AllSolid(View(nodes))
  {
    hide NodesOk, Solid, CellAt;
    forall o | o in View(nodes) ensures Solid(View(nodes)[o]) {
      TableIsSolid(nodes, next, m, o);
    }
  }

  /** A packed descriptor decodes to itself exactly when it is low enough and its lists fit the payload. */
  lemma PackedDecodes(nodes: Heap, next: Offset, m: Meaning, o: Offset, d: Desc, room: nat)
    requires NodesOk(nodes, next, m) && RefTo(m, o, SDesc(d))
    ensures Closed(View(nodes)) && o in View(nodes)
    ensures Decode(View(nodes), o, 0, room) == Ok(d) <==> Height(d) <= MAX_TYPE_DEPTH && ListsFit(d, room)
  {
    ViewClosed(nodes);
    MeaningUnfolds(nodes, next, m, o, d);
    PackedIsSolid(nodes, next, m);
    DecodeOfTree(View(nodes), o, d, 0, room);
  }

  // ---------- what was packed fits its payload ----------

  /** A list that was written is one of the payload's vectors, so a payload as long as its vectors bounds every list. */
  lemma {:induction false} WrittenFits(nodes: Heap, next: Offset, m: Meaning, o: Offset, d: Desc, room: nat)
    requires NodesOk(nodes, next, m) && RefTo(m, o, SDesc(d)) && VectorsFit(nodes, room)
    ensures ListsFit(d, room)
    decreases d, 2
  {
    hide NodesOk, VectorsFit;
    var n := TableOf(nodes, next, m, o, d);
    OptWrittenFits(nodes, next, m, n.elem, d.elem, room);
    OptWrittenFits(nodes, next, m, n.key, d.key, room);
    OptWrittenFits(nodes, next, m, n.value, d.value, room);
    FieldsWrittenFit(nodes, next, m, n.fields, d.fields, room);
    ListWrittenFits(nodes, next, m, n.params, d.params, room);
    ListWrittenFits(nodes, next, m, n.results, d.results, room);
  }

  ghost function TableOf(nodes: Heap, next: Offset, m: Meaning, o: Offset, d: Desc): (n: Node)
    requires NodesOk(nodes, next, m) && RefTo(m, o, SDesc(d))
    ensures n.TableNode? && OptRef(m, n.elem, d.elem) && OptRef(m, n.key, d.key) && OptRef(m, n.value, d.value)
    ensures FieldsRef(m, n.fields, d.fields) && ListRef(m, n.params, d.params) && ListRef(m, n.results, d.results)
  {
    assert Represents(m, nodes[o], m[o]);
    nodes[o]
  }

  lemma {:induction false} OptWrittenFits(nodes: Heap, next: Offset, m: Meaning, o: Offset, d: Option<Desc>, room: nat)
    requires NodesOk(nodes, next, m) && OptRef(m, o, d) && VectorsFit(nodes, room)
    ensures OptFits(d, room)
    decreases d, 3
  {
    if d.Some? {
      WrittenFits(nodes, next, m, o, d.value, room);
    }
  }

  lemma {:induction false} ListWrittenFits(nodes: Heap, next: Offset, m: Meaning, o: Offset, ds: seq<Desc>, room: nat)
    requires NodesOk(nodes, next, m) && ListRef(m, o, ds) && VectorsFit(nodes, room)
    ensures ListFits(ds, room)
    decreases ds, 3
  {
    if ds != [] {
      assert Represents(m, nodes[o], m[o]);
      forall i | 0 <= i < |ds| ensures ListsFit(ds[i], room) {
        WrittenFits(nodes, next, m, nodes[o].items[i], ds[i], room);
      }
    }
  }

  lemma {:induction false} FieldsWrittenFit(nodes: Heap, next: Offset, m: Meaning, o: Offset, fs: seq<Field>, room: nat)
    requires NodesOk(nodes, next, m) && FieldsRef(m, o, fs) && VectorsFit(nodes, room)
    ensures FieldsFit(fs, room)
    decreases fs, 3
  {
    if fs != [] {
      assert Represents(m, nodes[o], m[o]);
      forall i | 0 <= i < |fs| ensures FieldFits(fs[i], room) {
        var r := nodes[o].items[i];
        assert Represents(m, nodes[r], m[r]);
        WrittenFits(nodes, next, m, nodes[r].typ, fs[i].typ, room);
      }
    }
  }

  // ---------- sharing is maximal ----------

  lemma {:induction false} InjectiveImage(s: set<Offset>, m: Meaning)
    requires s <= m.Keys && forall a, b :: a in s && b in s && m[a] == m[b] ==> a == b
    ensures |set o | o in s :: m[o]| == |s|
    decreases s
  {
    if s != {} {
      var x :| x in s;
      InjectiveImage(s - {x}, m);
      assert (set o | o in s :: m[o]) == (set o | o in s - {x} :: m[o]) + {m[x]};
    }
  }

  function TablesOf(nodes: Heap): set<Offset> {
    set o | o in nodes && nodes[o].TableNode?
  }

  /** With sharing on, nodes and things written correspond one to one, and descriptor tables to distinct subtrees. */
  lemma SharesMaximally(nodes: Heap, next: Offset, memo: Memo, m: Meaning)
    requires NodesOk(nodes, next, m) && MemoOk(memo, m) && memo.Some?
    ensures |nodes| == |m.Values|
    ensures |TablesOf(nodes)| == |set s | s in m.Values && s.SDesc?|
  {
    MeaningInjective(memo, m);
    InjectiveImage(m.Keys, m);
    assert (set o | o in m.Keys :: m[o]) == m.Values;
    assert |nodes| == |nodes.Keys| == |m.Keys|;
    TablesAreDescs(nodes, next, m);
    InjectiveImage(TablesOf(nodes), m);
  }

  lemma MeaningInjective(memo: Memo, m: Meaning)
    requires MemoOk(memo, m) && memo.Some?
    ensures forall a, b :: a in m && b in m && m[a] == m[b] ==> a == b
  {
    hide KeyOf;
    forall a, b | a in m && b in m && m[a] == m[b] ensures a == b {
      assert memo.value[KeyOf(m[a])] == a && memo.value[KeyOf(m[b])] == b;
    }
  }

  lemma TablesAreDescs(nodes: Heap, next: Offset, m: Meaning)
    requires NodesOk(nodes, next, m)
    ensures TablesOf(nodes) <= m.Keys
    ensures (set o | o in TablesOf(nodes) :: m[o]) == (set s | s in m.Values && s.SDesc?)
  {
    forall o | o in nodes ensures nodes[o].TableNode? <==> m[o].SDesc? {
      assert Represents(m, nodes[o], m[o]);
    }
    hide Represents;
    forall s | s in m.Values && s.SDesc? ensures s in set o | o in TablesOf(nodes) :: m[o] {
      var o :| o in m && m[o] == s;
      assert o in TablesOf(nodes);
    }
  }

  // ---------- the whole round trip ----------

  /** Packs every descriptor into one builder scope. */
  method PackAll(ds: seq<Desc>, sharing: bool) returns (b: Builder, packed: bool, offsets: seq<Offset>)
    ensures fresh(b) && b.Valid() && b.memo.Some? == sharing
    ensures packed <==> ListKindsFit(ds)
    ensures packed ==> |offsets| == |ds| && forall i :: 0 <= i < |ds| ==> RefTo(b.meaning, offsets[i], SDesc(ds[i]))
    ensures packed ==> b.meaning.Values == SubsItems(ds)
    ensures packed && sharing ==> |TablesOf(b.nodes)| == |set s | s in SubsItems(ds) && s.SDesc?|
  {
    hide NodesOk, MemoOk, Subs, SubsItems, KindsFit, DescKey;
    b := new Builder(sharing);
    offsets := [];
    NoKeys();
    assert ds[..0] == [];
    for i := 0 to |ds|
      invariant fresh(b) && b.Valid() && b.memo.Some? == sharing
      invariant |offsets| == i && forall j :: 0 <= j < i ==> RefTo(b.meaning, offsets[j], SDesc(ds[j]))
      invariant forall j :: 0 <= j < i ==> KindsFit(ds[j])
      invariant b.meaning.Values == SubsItems(ds[..i])
    {
      var r := b.PackDesc(ds[i]);
      if r.Panicked? {
        return b, false, offsets;
      }
      SubsStep(ds, i);
      offsets := offsets + [r.offset];
    }
    assert ds[..|ds|] == ds;
    packed := true;
    if sharing {
      SharesMaximally(b.nodes, b.next, b.memo, b.meaning);
    }
  }

  /** Decodes every offset with one shared cache. */
  method DecodeAll(g: Graph, offsets: seq<Offset>, room: nat) returns (out: seq<Result<Desc>>)
    requires Closed(g) && forall i :: 0 <= i < |offsets| ==> offsets[i] in g
    ensures |out| == |offsets|
    ensures forall i :: 0 <= i < |out| ==> Refines(Decode(g, offsets[i], 0, room), out[i])
    ensures forall i :: 0 <= i < |out| && out[i].Ok? ==> Remembered(g, room, offsets[i], out[i].value)
    ensures forall i :: 0 <= i < |out| && AllOk(out[..i]) ==> (out[i].Ok? <==> Accepts(g, offsets[i], 0, room, FP.BelowAll(g, offsets[..i])))
    ensures forall i :: 0 <= i < |out| && out[i].Err? ==> Explained(g, out[i].error, offsets[i], 0, room)
  {
    hide Unfolds, Decode, Clean, Accepts, FP.BelowAll, FP.Below, FP.Complete, Explained, FP.Visit, AllOk;
    out := [];
    var cache := new DecodeCache();
    NothingCached(g);
    assert offsets[..0] == [] && cache.data.Keys == {};
    for i := 0 to |offsets|
      invariant CacheOk(g, room, cache.data) && |out| == i
      invariant forall j :: 0 <= j < i ==> Refines(Decode(g, offsets[j], 0, room), out[j])
      invariant forall j :: 0 <= j < i && out[j].Ok? ==> Remembered(g, room, offsets[j], out[j].value)
      invariant forall j :: 0 <= j < i && AllOk(out[..j]) ==> (out[j].Ok? <==> Accepts(g, offsets[j], 0, room, FP.BelowAll(g, offsets[..j])))
      invariant forall j :: 0 <= j < i && out[j].Err? ==> Explained(g, out[j].error, offsets[j], 0, room)
      invariant FP.Complete(g, cache.data.Keys) && (AllOk(out) ==> cache.data.Keys == FP.BelowAll(g, offsets[..i]))
    {
      var r := cache.DecodeShared(g, offsets[i], 0, room);
      AllOkSnoc(out, r);
      BelowMore(g, offsets, i);
      ghost var before := out;
      out := out + [r];
      assert forall j :: 0 <= j <= i ==> out[..j] == if j <= |before| then before[..j] else out;
      assert out[..i] == before;
    }
  }

  ghost predicate AllOk(out: seq<Result<Desc>>) {
    forall i :: 0 <= i < |out| ==> out[i].Ok?
  }

  lemma AllOkSnoc(out: seq<Result<Desc>>, r: Result<Desc>)
    ensures AllOk([]) && (AllOk(out + [r]) <==> AllOk(out) && r.Ok?)
  {
    if AllOk(out + [r]) {
      assert forall i :: 0 <= i < |out| ==> (out + [r])[i] == out[i];
      assert (out + [r])[|out|] == r;
    }
  }

  lemma NothingCached(g: Graph)
    ensures FP.Complete(g, {}) && FP.BelowAll(g, []) == {} && AllOk([])
  {
  }

  lemma BelowMore(g: Graph, offsets: seq<Offset>, i: nat)
    requires i < |offsets|
    ensures FP.BelowAll(g, offsets[..i + 1]) == FP.BelowAll(g, offsets[..i]) + FP.Below(g, offsets[i])
  {
    hide FP.BelowAll, FP.Below;
    FP.BelowSnoc(g, offsets[..i + 1]);
    assert offsets[..i + 1][..i] == offsets[..i];
  }

  lemma ReadBack(nodes: Heap, next: Offset, m: Meaning, o: Offset, d: Desc, room: nat, r: Result<Desc>)
    requires NodesOk(nodes, next, m) && RefTo(m, o, SDesc(d))
    requires Closed(View(nodes)) && o in View(nodes)
    requires Refines(Decode(View(nodes), o, 0, room), r)
    requires r.Ok? ==> Remembered(View(nodes), room, o, r.value)
    requires VectorsFit(nodes, room)
    ensures Height(d) <= MAX_TYPE_DEPTH ==> r == Ok(d)
    ensures r.Ok? ==> r == Ok(d)
  {
    hide Decode, ListsFit, Clean, VectorsFit;
    WrittenFits(nodes, next, m, o, d, room);
    PackedDecodes(nodes, next, m, o, d, room);
    MeaningUnfolds(nodes, next, m, o, d);
    if r.Ok? {
      UnfoldsUnique(View(nodes), o, r.value, d);
    }
  }

  lemma TablesInView(nodes: Heap, next: Offset, m: Meaning, o: Offset, d: Desc)
    requires NodesOk(nodes, next, m) && RefTo(m, o, SDesc(d))
    ensures o in View(nodes)
  {
    assert Represents(m, nodes[o], m[o]);
  }

  /** Packs into one scope and decodes every offset with one cache; the payload is what was written and `rest` more bytes. */
  method WriteAndRead(ds: seq<Desc>, sharing: bool, rest: nat)
    returns (packed: bool, b: Builder, offsets: seq<Offset>, out: seq<Result<Desc>>)
    ensures packed <==> ListKindsFit(ds)
    ensures packed ==> b.Valid() && |out| == |offsets| == |ds|
    ensures packed ==> forall i :: 0 <= i < |ds| ==> RefTo(b.meaning, offsets[i], SDesc(ds[i]))
    ensures packed ==> forall i :: 0 <= i < |ds| && Height(ds[i]) <= MAX_TYPE_DEPTH ==> out[i] == Ok(ds[i])
    ensures packed ==> forall i :: 0 <= i < |ds| && out[i].Ok? ==> out[i] == Ok(ds[i])
  {
    hide NodesOk, MemoOk, Unfolds, ListsFit, Height, Decode, Clean, KindsFit, Closed, View;
    out := [];
    b, packed, offsets := PackAll(ds, sharing);
    if !packed {
      return;
    }
    var g, room := View(b.nodes), b.bytes + rest;
    ViewClosed(b.nodes);
    forall i | 0 <= i < |ds| ensures offsets[i] in g {
      TablesInView(b.nodes, b.next, b.meaning, offsets[i], ds[i]);
    }
    out := DecodeAll(g, offsets, room);
    forall i | 0 <= i < |ds|
      ensures Height(ds[i]) <= MAX_TYPE_DEPTH ==> out[i] == Ok(ds[i])
      ensures out[i].Ok? ==> out[i] == Ok(ds[i])
    {
      ReadBack(b.nodes, b.next, b.meaning, offsets[i], ds[i], room, out[i]);
    }
  }

  /** The round trip of descriptor data: refused exactly for a kind beyond a signed byte, and otherwise lossless up to the depth bound. */
  method RoundTrip(ds: seq<Desc>, sharing: bool, rest: nat) returns (packed: bool, out: seq<Result<Desc>>)
    ensures packed <==> ListKindsFit(ds)
    ensures packed ==> |out| == |ds|
    ensures packed ==> forall i :: 0 <= i < |ds| && Height(ds[i]) <= MAX_TYPE_DEPTH ==> out[i] == Ok(ds[i])
    ensures packed ==> forall i :: 0 <= i < |ds| && out[i].Ok? ==> out[i] == Ok(ds[i])
  {
    var b, offsets;
    packed, b, offsets, out := WriteAndRead(ds, sharing, rest);
  }

  // ---------- export, pack, decode, import ----------

  /** The exported form of a descriptor that export accepts. */
  ghost function Data(t: Codec.Type): Desc
    requires Codec.ExportAt(t, 0).Value?
  {
    Codec.ExportAt(t, 0).value
  }

  ghost predicate Storable(t: Codec.Type) {
    Codec.ExportAt(t, 0).Value? && KindsFit(Data(t))
  }

  /** A descriptor can be stored exactly if the data that holds it is not too high and its kinds fit a signed byte. */
  lemma StorableExactly(t: Codec.Type)
    ensures Storable(t) <==> exists d :: Codec.Stores(t, d) && Height(d) < 1024 && KindsFit(d)
    ensures Storable(t) ==> Codec.Stores(t, Data(t))
  {
    hide Codec.Stores, Codec.ExportAt, Height, KindsFit;
    forall d | Codec.Stores(t, d) ensures Codec.ExportAt(t, 0) == if Height(d) < 1024 then Codec.Value(d) else Codec.Panic {
      Codec.ExportExact(t, d, 0);
    }
    if Codec.ExportAt(t, 0).Value? {
      Codec.ExportStores(t, 0);
    }
  }

  /** What comes back holds what went in, but for lengths and directions that do not fit 32 bits. */
  ghost predicate Restored(t: Codec.Type, u: Codec.Type) {
    exists d :: Codec.Stores(t, d) && Codec.Copies(d, u)
  }

  lemma ClampedRestored(t: Codec.Type)
    requires Codec.ExportAt(t, 0).Value?
    ensures Restored(t, Codec.Clamped(t))
  {
    hide Codec.Stores, Codec.Copies, Codec.ExportAt, Codec.Clamped, Codec.ImportAt;
    Reimported(t);
    Codec.ExportStores(t, 0);
    Codec.ImportCopies(Data(t), 0);
  }

  lemma Reimported(t: Codec.Type)
    requires Codec.ExportAt(t, 0).Value?
    ensures Codec.ImportAt(Data(t), 0) == Codec.Value(Codec.Clamped(t))
    ensures Codec.Narrow(t) ==> Codec.Clamped(t) == t
  {
    Codec.ImportOfExport(t, 0);
    Codec.ClampedIdentity(t);
  }

  method ExportAll(ts: seq<Codec.Type>) returns (ok: bool, ds: seq<Desc>)
    ensures ok <==> forall i :: 0 <= i < |ts| ==> Codec.ExportAt(ts[i], 0).Value?
    ensures ok ==> |ds| == |ts| && forall i :: 0 <= i < |ts| ==> ds[i] == Data(ts[i])
  {
    ds := [];
    for i := 0 to |ts|
      invariant |ds| == i
      invariant forall j :: 0 <= j < i ==> Codec.ExportAt(ts[j], 0) == Codec.Value(ds[j])
    {
      var d := Codec.ExportAt(ts[i], 0);
      if d.Panic? {
        return false, ds;
      }
      ds := ds + [d.value];
    }
    ok := true;
  }

  /** The tables of a payload as a pointer graph of decoded data. */
  lemma PackedIsData(nodes: Heap, next: Offset, m: Meaning)
    requires NodesOk(nodes, next, m)
    ensures Codec.DataGraph(View(nodes))
  {
    ViewClosed(nodes);
    PackedIsSolid(nodes, next, m);
    forall o | o in View(nodes) ensures 0 <= View(nodes)[o].kind {
      assert Represents(m, nodes[o], m[o]);
    }
  }

  /** Descriptor data in memory. Decoding may share what pointers point to; a list entry is a copy with an address of its own. */
  datatype Placed = Placed(graph: Graph, root: Offset)

  ghost predicate Holds(p: Placed, d: Desc) {
    Codec.DataGraph(p.graph) && p.root in p.graph && Unfolds(p.graph, p.root, d)
  }

  /** The payload's own tables are such data, with list entries shared too. */
  lemma PayloadHolds(nodes: Heap, next: Offset, m: Meaning, o: Offset, d: Desc)
    requires NodesOk(nodes, next, m) && RefTo(m, o, SDesc(d))
    ensures Holds(Placed(View(nodes), o), d)
  {
    hide NodesOk, Unfolds, Codec.DataGraph;
    PackedIsData(nodes, next, m);
    TablesInView(nodes, next, m, o, d);
    MeaningUnfolds(nodes, next, m, o, d);
  }

  /** Importing an exported descriptor with a memo of its own gives the descriptor back, clamped, however its data is shared. */
  method ImportData(p: Placed, ghost t: Codec.Type) returns (r: Codec.Outcome<Codec.Type>)
    requires Codec.ExportAt(t, 0).Value? && Holds(p, Data(t))
    ensures r == Codec.Value(Codec.Clamped(t))
  {
    hide Unfolds, Codec.DataGraph, Codec.ExportAt, Codec.ImportAt, Codec.Clamped, Height;
    Reimported(t);
    Codec.ImportExact(Data(t), 0);
    r := Codec.ImportTypeDescriptor(p.graph, p.root);
  }

  /** Where decoding puts data is data that holds it. */
  ghost predicate Places(place: (nat, Desc) -> Placed) {
    forall i, d :: KindsFit(d) ==> Holds(place(i, d), d)
  }

  /** There is such a place for everything that can be packed. */
  method PlaceOne(d: Desc, sharing: bool) returns (p: Placed)
    requires KindsFit(d)
    ensures Holds(p, d)
  {
    hide NodesOk, MemoOk, Holds, KindsFit;
    var b, packed, offsets := PackAll([d], sharing);
    PayloadHolds(b.nodes, b.next, b.meaning, offsets[0], d);
    p := Placed(View(b.nodes), offsets[0]);
  }

  /** Imports everything that decoded, from where it was put. */
  method ImportAll(place: (nat, Desc) -> Placed, decoded: seq<Result<Desc>>, ghost ts: seq<Codec.Type>) returns (out: seq<Option<Codec.Type>>)
    requires |decoded| == |ts| && Places(place)
    requires forall i :: 0 <= i < |ts| && decoded[i].Ok? ==> Storable(ts[i]) && decoded[i].value == Data(ts[i])
    ensures |out| == |ts| && forall i :: 0 <= i < |ts| ==> out[i] == if decoded[i].Ok? then Some(Codec.Clamped(ts[i])) else None
  {
    hide Codec.ExportAt, Codec.Clamped, Holds, KindsFit;
    out := [];
    for i := 0 to |decoded|
      invariant |out| == i
      invariant forall j :: 0 <= j < i ==> out[j] == if decoded[j].Ok? then Some(Codec.Clamped(ts[j])) else None
    {
      if decoded[i].Ok? {
        var t := ImportData(place(i, decoded[i].value), ts[i]);
        out := out + [Some(t.value)];
      } else {
        out := out + [None];
      }
    }
  }

  /** Exports, packs, decodes and imports a list of descriptors through one payload, memos on throughout. What is imported is what was decoded, put in memory by `place`. */
  method StoreAndLoad(ts: seq<Codec.Type>, sharing: bool, rest: nat, place: (nat, Desc) -> Placed) returns (ok: bool, out: seq<Option<Codec.Type>>)
    requires Places(place)
    ensures ok <==> forall i :: 0 <= i < |ts| ==> Storable(ts[i])
    ensures ok ==> |out| == |ts| && forall i :: 0 <= i < |ts| && out[i].Some? ==> out[i] == Some(Codec.Clamped(ts[i])) && Restored(ts[i], out[i].value)
    ensures ok ==> forall i :: 0 <= i < |ts| && Height(Data(ts[i])) <= MAX_TYPE_DEPTH ==> out[i] == Some(Codec.Clamped(ts[i]))
    ensures ok ==> forall i :: 0 <= i < |ts| && Codec.Narrow(ts[i]) && Height(Data(ts[i])) <= MAX_TYPE_DEPTH ==> out[i] == Some(ts[i])
  {
    hide Codec.ExportAt, Codec.ImportAt, Codec.Clamped, Codec.Narrow, Height, KindsFit, NodesOk, MemoOk, VectorsFit, Places, Restored;
    var exported, trees := ExportAll(ts);
    out, ok := [], false;
    if !exported {
      return;
    }
    var packed, _, _, decoded := WriteAndRead(trees, sharing, rest);
    if !packed {
      return;
    }
    out := ImportAll(place, decoded, ts);
    forall i | 0 <= i < |ts| ensures (Codec.Narrow(ts[i]) ==> Codec.Clamped(ts[i]) == ts[i]) && Restored(ts[i], Codec.Clamped(ts[i])) {
      Reimported(ts[i]);
      ClampedRestored(ts[i]);
    }
    ok := true;
  }
}

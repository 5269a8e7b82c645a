/** The table graph a payload spells, and what it means for one of its tables to unfold to a descriptor. */
module TableGraph {
  import opened Wrappers
  import opened Descriptors

  type Offset = nat

  type int8 = x: int | -128 <= x < 128

  /** A kind as read: the payload's signed byte, or the unsigned byte of decoded data. */
  type kindbyte = x: int | -128 <= x < 256

  /** How deep a type may nest, for the loader and its preflight alike. */
  const MAX_TYPE_DEPTH := 256

  function Levels(depth: nat): nat {
    if depth > MAX_TYPE_DEPTH then 0 else MAX_TYPE_DEPTH + 1 - depth
  }

  // ---------- the builder's heap ----------

  /** An object of the payload. Offset 0 is the null reference. */
  datatype Node =
    | TableNode(kind: int8, attrs: Attrs, elem: Offset, key: Offset, value: Offset,
                fields: Offset, params: Offset, results: Offset)
    | FieldNode(text: FieldText, typ: Offset)
    | VectorNode(items: seq<Offset>)

  type Heap = map<Offset, Node>

  // ---------- what the accessors read ----------

  datatype Slot = Slot(text: FieldText, typ: Option<Offset>)

  /** One descriptor table as its accessors show it: None is a nil child. */
  datatype Cell = Cell(
    kind: kindbyte, attrs: Attrs, elem: Option<Offset>, key: Option<Offset>, value: Option<Offset>,
    fields: seq<Slot>, params: seq<Option<Offset>>, results: seq<Option<Offset>>)

  type Graph = map<Offset, Cell>

  predicate IsTable(h: Heap, o: Offset) {
    o != 0 && o in h && h[o].TableNode?
  }

  /** A reference that is null, or leads to no table, reads as nil. */
  function Child(h: Heap, o: Offset): Option<Offset> {
    if IsTable(h, o) then Some(o) else None
  }

  /** The items of a vector; an absent vector has length 0. */
  function Items(h: Heap, o: Offset): seq<Offset> {
    if o != 0 && o in h && h[o].VectorNode? then h[o].items else []
  }

  function SlotAt(h: Heap, o: Offset): Slot {
    if o != 0 && o in h && h[o].FieldNode? then Slot(h[o].text, Child(h, h[o].typ))
    else Slot(FieldText("", "", ""), None)
  }

  function Children(h: Heap, items: seq<Offset>): (r: seq<Option<Offset>>)
    ensures |r| == |items| && forall i :: 0 <= i < |r| ==> r[i] == Child(h, items[i])
  {
    seq(|items|, i requires 0 <= i < |items| => Child(h, items[i]))
  }

  function Slots(h: Heap, items: seq<Offset>): (r: seq<Slot>)
    ensures |r| == |items| && forall i :: 0 <= i < |r| ==> r[i] == SlotAt(h, items[i])
  {
    seq(|items|, i requires 0 <= i < |items| => SlotAt(h, items[i]))
  }

  function CellAt(h: Heap, t: Node): Cell
    requires t.TableNode?
  {
    Cell(t.kind, t.attrs, Child(h, t.elem), Child(h, t.key), Child(h, t.value),
         Slots(h, Items(h, t.fields)), Children(h, Items(h, t.params)), Children(h, Items(h, t.results)))
  }

  function View(h: Heap): Graph {
    map o | o in h && IsTable(h, o) :: CellAt(h, h[o])
  }

  // ---------- edges, closedness, paths ----------

  /** Every reference that is not nil leads somewhere. */
  predicate RefsIn<T>(m: map<Offset, T>, rs: seq<Option<Offset>>) {
    forall i :: 0 <= i < |rs| && rs[i].Some? ==> rs[i].value in m
  }

  predicate Refers(c: Cell, o: Offset) {
    || c.elem == Some(o) || c.key == Some(o) || c.value == Some(o)
    || (exists i :: 0 <= i < |c.fields| && c.fields[i].typ == Some(o))
    || Some(o) in c.params || Some(o) in c.results
  }

  ghost predicate Closed(g: Graph) {
    forall a: Offset, b: Offset :: a in g && Refers(g[a], b) ==> b in g
  }

  lemma ViewClosed(h: Heap)
    ensures Closed(View(h))
  {
    var g := View(h);
    forall a: Offset, b: Offset | a in g && Refers(g[a], b)
      ensures b in g
    {
      var c := g[a];
      if i :| 0 <= i < |c.fields| && c.fields[i].typ == Some(b) {
      } else if Some(b) in c.params {
        var i :| 0 <= i < |c.params| && c.params[i] == Some(b);
      } else if Some(b) in c.results {
        var i :| 0 <= i < |c.results| && c.results[i] == Some(b);
      }
      assert IsTable(h, b);
    }
  }

  ghost predicate IsPath(g: Graph, p: seq<Offset>) {
    && p != []
    && (forall i :: 0 <= i < |p| ==> p[i] in g)
    && forall i :: 0 <= i < |p| - 1 ==> Refers(g[p[i]], p[i + 1])
  }

  lemma ConsPath(g: Graph, o: Offset, p: seq<Offset>)
    requires o in g && IsPath(g, p) && Refers(g[o], p[0])
    ensures IsPath(g, [o] + p)
  {
    var q := [o] + p;
    forall i | 0 <= i < |q| - 1 ensures Refers(g[q[i]], q[i + 1]) {
      if i > 0 { assert Refers(g[p[i - 1]], p[i]); }
    }
  }

  /** A table without nil slots in its lists. */
  ghost predicate Solid(c: Cell) {
    None !in c.params && None !in c.results && forall i :: 0 <= i < |c.fields| ==> c.fields[i].typ.Some?
  }

  ghost predicate AllSolid(g: Graph) {
    forall o :: o in g ==> Solid(g[o])
  }

  // ---------- unfolding ----------

  /** Table o unfolds to the finite tree d. */
  ghost predicate Unfolds(g: Graph, o: Offset, d: Desc)
    decreases d, 0
  {
    && o in g && g[o].kind == d.kind && g[o].attrs == d.attrs
    && UnfoldsOpt(g, g[o].elem, d.elem) && UnfoldsOpt(g, g[o].key, d.key) && UnfoldsOpt(g, g[o].value, d.value)
    && UnfoldsFields(g, g[o].fields, d.fields)
    && UnfoldsList(g, g[o].params, d.params) && UnfoldsList(g, g[o].results, d.results)
  }

  ghost predicate UnfoldsOpt(g: Graph, r: Option<Offset>, o: Option<Desc>)
    decreases o, 1
  {
    r.None? == o.None? && (o.Some? ==> Unfolds(g, r.value, o.value))
  }

  /** A nil slot of a list holds the zero descriptor. */
  ghost predicate UnfoldsSlot(g: Graph, r: Option<Offset>, d: Desc)
    decreases d, 1
  {
    if r.None? then d == ZERO_DESC else Unfolds(g, r.value, d)
  }

  ghost predicate UnfoldsList(g: Graph, rs: seq<Option<Offset>>, ds: seq<Desc>)
    decreases ds, 2
  {
    |rs| == |ds| && forall i :: 0 <= i < |ds| ==> UnfoldsSlot(g, rs[i], ds[i])
  }

  ghost predicate UnfoldsField(g: Graph, s: Slot, f: Field)
    decreases f, 2
  {
    s.text == f.text && UnfoldsSlot(g, s.typ, f.typ)
  }

  ghost predicate UnfoldsFields(g: Graph, ss: seq<Slot>, fs: seq<Field>)
    decreases fs, 3
  {
    |ss| == |fs| && forall i :: 0 <= i < |fs| ==> UnfoldsField(g, ss[i], fs[i])
  }

  lemma FieldUnfolds(g: Graph, ss: seq<Slot>, fs: seq<Field>, i: nat)
    requires UnfoldsFields(g, ss, fs) && i < |fs|
    ensures ss[i].text == fs[i].text
    ensures if ss[i].typ.None? then fs[i].typ == ZERO_DESC else Unfolds(g, ss[i].typ.value, fs[i].typ)
  {
    assert UnfoldsField(g, ss[i], fs[i]);
    assert UnfoldsSlot(g, ss[i].typ, fs[i].typ);
  }

  lemma SlotUnfolds(g: Graph, rs: seq<Option<Offset>>, ds: seq<Desc>, i: nat)
    requires UnfoldsList(g, rs, ds) && i < |ds|
    ensures if rs[i].None? then ds[i] == ZERO_DESC else Unfolds(g, rs[i].value, ds[i])
  {
    assert UnfoldsSlot(g, rs[i], ds[i]);
  }

  lemma OptUnfolds(g: Graph, r: Option<Offset>, o: Option<Desc>)
    requires UnfoldsOpt(g, r, o) && r.Some?
    ensures o.Some? && Unfolds(g, r.value, o.value) && OptHeight(o) == 1 + Height(o.value)
  {
  }

  /** A table unfolds to at most one tree. */
  lemma {:induction false} UnfoldsUnique(g: Graph, o: Offset, d: Desc, e: Desc)
    requires Unfolds(g, o, d) && Unfolds(g, o, e)
    ensures d == e
    decreases d
  {
    UnfoldsOptUnique(g, g[o].elem, d.elem, e.elem);
    UnfoldsOptUnique(g, g[o].key, d.key, e.key);
    UnfoldsOptUnique(g, g[o].value, d.value, e.value);
    forall i | 0 <= i < |d.fields| ensures d.fields[i] == e.fields[i] {
      FieldUnfolds(g, g[o].fields, d.fields, i);
      FieldUnfolds(g, g[o].fields, e.fields, i);
      if g[o].fields[i].typ.Some? {
        UnfoldsUnique(g, g[o].fields[i].typ.value, d.fields[i].typ, e.fields[i].typ);
      }
    }
    UnfoldsListUnique(g, g[o].params, d.params, e.params);
    UnfoldsListUnique(g, g[o].results, d.results, e.results);
  }

  lemma {:induction false} UnfoldsOptUnique(g: Graph, r: Option<Offset>, d: Option<Desc>, e: Option<Desc>)
    requires UnfoldsOpt(g, r, d) && UnfoldsOpt(g, r, e)
    ensures d == e
    decreases d
  {
    if r.Some? {
      UnfoldsUnique(g, r.value, d.value, e.value);
    }
  }

  lemma {:induction false} UnfoldsListUnique(g: Graph, rs: seq<Option<Offset>>, ds: seq<Desc>, es: seq<Desc>)
    requires UnfoldsList(g, rs, ds) && UnfoldsList(g, rs, es)
    ensures ds == es
    decreases ds
  {
    forall i | 0 <= i < |ds| ensures ds[i] == es[i] {
      SlotUnfolds(g, rs, ds, i);
      SlotUnfolds(g, rs, es, i);
      if rs[i].Some? {
        UnfoldsUnique(g, rs[i].value, ds[i], es[i]);
      }
    }
  }

  // ---------- unfolding rules out cycles ----------

  /** Following an edge leads to a table that unfolds to a strictly lower tree. */
  lemma StepDescends(g: Graph, o: Offset, d: Desc, next: Offset) returns (e: Desc)
    requires Unfolds(g, o, d) && Refers(g[o], next)
    ensures Unfolds(g, next, e) && Height(e) < Height(d)
  {
    var c := g[o];
    if c.elem == Some(next) {
      OptUnfolds(g, c.elem, d.elem);
      e := d.elem.value;
    } else if c.key == Some(next) {
      OptUnfolds(g, c.key, d.key);
      e := d.key.value;
    } else if c.value == Some(next) {
      OptUnfolds(g, c.value, d.value);
      e := d.value.value;
    } else if i :| 0 <= i < |c.fields| && c.fields[i].typ == Some(next) {
      FieldUnfolds(g, c.fields, d.fields, i);
      FieldsHeightAt(d.fields, i);
      e := d.fields[i].typ;
    } else if Some(next) in c.params {
      var i :| 0 <= i < |c.params| && c.params[i] == Some(next);
      SlotUnfolds(g, c.params, d.params, i);
      ListHeightAt(d.params, i);
      e := d.params[i];
    } else {
      var i :| 0 <= i < |c.results| && c.results[i] == Some(next);
      SlotUnfolds(g, c.results, d.results, i);
      ListHeightAt(d.results, i);
      e := d.results[i];
    }
  }

  /** Along a path every table unfolds, and the k-th one to a tree at least k levels lower. */
  lemma {:induction false} PathDescends(g: Graph, p: seq<Offset>, d: Desc, k: nat) returns (e: Desc)
    requires IsPath(g, p) && Unfolds(g, p[0], d) && k < |p|
    ensures Unfolds(g, p[k], e) && Height(e) + k <= Height(d)
    decreases k
  {
    if k == 0 {
      e := d;
    } else {
      var before := PathDescends(g, p, d, k - 1);
      e := StepDescends(g, p[k - 1], before, p[k]);
    }
  }

  /** No table reachable from an unfolding one lies on a cycle. */
  lemma UnfoldingIsAcyclic(g: Graph, p: seq<Offset>, d: Desc, i: nat, j: nat)
    requires IsPath(g, p) && Unfolds(g, p[0], d) && i < j < |p|
    ensures p[i] != p[j]
    ensures |p| <= Height(d) + 1
  {
    var a := PathDescends(g, p, d, i);
    var tail := p[i..];
    assert IsPath(g, tail) by {
      assert forall k :: 0 <= k < |tail| ==> tail[k] == p[i + k];
      forall k | 0 <= k < |tail| - 1 ensures Refers(g[tail[k]], tail[k + 1]) {
        assert Refers(g[p[i + k]], p[i + k + 1]);
      }
    }
    var b := PathDescends(g, tail, a, j - i);
    if p[i] == p[j] {
      UnfoldsUnique(g, p[i], a, b);
      assert false;
    }
    var last := PathDescends(g, p, d, |p| - 1);
  }
}

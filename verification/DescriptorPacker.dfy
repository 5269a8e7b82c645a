/** Hash-consing packer: every distinct descriptor subtree, field and list is written once. */
module DescriptorPacker {
  import opened Wrappers
  import opened Descriptors
  import opened StructuralKey
  import opened TableGraph

  // ---------- everything below a shared thing ----------

  /** The subtrees, fields and non-empty lists of a descriptor, itself included. */
  function Subs(d: Desc): set<Shared>
    decreases d, 2
  {
    {SDesc(d)} + SubsBelow(d)
  }

  function SubsBelow(d: Desc): set<Shared>
    decreases d, 1
  {
    SubsOpt(d.elem) + SubsOpt(d.key) + SubsOpt(d.value) + SubsFields(d.fields) + SubsList(d.params) + SubsList(d.results)
  }

  function SubsOpt(o: Option<Desc>): set<Shared>
    decreases o, 3
  {
    if o.None? then {} else Subs(o.value)
  }

  function SubsList(ds: seq<Desc>): set<Shared>
    decreases ds, 4
  {
    if ds == [] then {} else {SDescs(ds)} + SubsItems(ds)
  }

  function SubsItems(ds: seq<Desc>): set<Shared>
    decreases ds, 3
  {
    if ds == [] then {} else SubsItems(ds[..|ds| - 1]) + Subs(ds[|ds| - 1])
  }

  function SubsField(f: Field): set<Shared>
    decreases f, 3
  {
    {SField(f)} + Subs(f.typ)
  }

  function SubsFields(fs: seq<Field>): set<Shared>
    decreases fs, 4
  {
    if fs == [] then {} else {SFields(fs)} + SubsFieldItems(fs)
  }

  function SubsFieldItems(fs: seq<Field>): set<Shared>
    decreases fs, 3
  {
    if fs == [] then {} else SubsFieldItems(fs[..|fs| - 1]) + SubsField(fs[|fs| - 1])
  }

  // ---------- when packing panics ----------

  /** Every kind in the tree fits the schema's signed byte. */
  predicate KindsFit(d: Desc)
    decreases d, 2
  {
    d.kind < 128 && KindsFitBelow(d)
  }

  predicate KindsFitBelow(d: Desc)
    decreases d, 1
  {
    && OptKindsFit(d.elem) && OptKindsFit(d.key) && OptKindsFit(d.value)
    && FieldsKindsFit(d.fields) && ListKindsFit(d.params) && ListKindsFit(d.results)
  }

  predicate OptKindsFit(o: Option<Desc>)
    decreases o, 3
  {
    o.Some? ==> KindsFit(o.value)
  }

  predicate ListKindsFit(ds: seq<Desc>)
    decreases ds, 3
  {
    forall i :: 0 <= i < |ds| ==> KindsFit(ds[i])
  }

  predicate FieldKindsFit(f: Field)
    decreases f, 3
  {
    KindsFit(f.typ)
  }

  predicate FieldsKindsFit(fs: seq<Field>)
    decreases fs, 4
  {
    forall i :: 0 <= i < |fs| ==> FieldKindsFit(fs[i])
  }

  // ---------- what the written nodes mean ----------

  type Meaning = map<Offset, Shared>

  ghost predicate RefTo(m: Meaning, o: Offset, s: Shared) {
    o != 0 && o in m && m[o] == s
  }

  ghost predicate OptRef(m: Meaning, o: Offset, d: Option<Desc>) {
    if d.None? then o == 0 else RefTo(m, o, SDesc(d.value))
  }

  ghost predicate ListRef(m: Meaning, o: Offset, ds: seq<Desc>) {
    if ds == [] then o == 0 else RefTo(m, o, SDescs(ds))
  }

  ghost predicate FieldsRef(m: Meaning, o: Offset, fs: seq<Field>) {
    if fs == [] then o == 0 else RefTo(m, o, SFields(fs))
  }

  /** The node, read with the meanings of the nodes it refers to, spells s. */
  ghost predicate Represents(m: Meaning, n: Node, s: Shared) {
    match s
    case SDesc(d) =>
      && n.TableNode? && n.kind == d.kind && n.attrs == d.attrs
      && OptRef(m, n.elem, d.elem) && OptRef(m, n.key, d.key) && OptRef(m, n.value, d.value)
      && FieldsRef(m, n.fields, d.fields) && ListRef(m, n.params, d.params) && ListRef(m, n.results, d.results)
    case SField(f) =>
      n.FieldNode? && n.text == f.text && RefTo(m, n.typ, SDesc(f.typ))
    case SDescs(ds) =>
      n.VectorNode? && ds != [] && |n.items| == |ds| && forall i :: 0 <= i < |ds| ==> RefTo(m, n.items[i], SDesc(ds[i]))
    case SFields(fs) =>
      n.VectorNode? && fs != [] && |n.items| == |fs| && forall i :: 0 <= i < |fs| ==> RefTo(m, n.items[i], SField(fs[i]))
  }

  type Memo = Option<map<string, Offset>>

  /** Every written node spells its meaning. */
  ghost predicate NodesOk(nodes: Heap, next: Offset, m: Meaning) {
    && next > 0 && m.Keys == nodes.Keys
    && (forall o :: o in nodes ==> 0 < o < next)
    && forall o :: o in nodes ==> Represents(m, nodes[o], m[o])
  }

  /** The memo holds exactly the key of each written node, at that node's offset. */
  ghost predicate MemoOk(memo: Memo, m: Meaning) {
    memo.Some? ==>
      && (forall o :: o in m ==> KeyOf(m[o]) in memo.value && memo.value[KeyOf(m[o])] == o)
      && (forall k :: k in memo.value ==> memo.value[k] in m && KeyOf(m[memo.value[k]]) == k)
  }

  lemma RepresentsGrows(m: Meaning, m': Meaning, n: Node, s: Shared)
    requires Grows(m, m') && Represents(m, n, s)
    ensures Represents(m', n, s)
  {
  }

  lemma ShareableMeaning(m: Meaning, n: Node, s: Shared)
    requires Represents(m, n, s)
    ensures Shareable(s)
  {
  }

  /** Appending one node keeps every older node's spelling. */
  lemma AppendKeeps(nodes: Heap, next: Offset, memo: Memo, m: Meaning, n: Node, s: Shared)
    requires NodesOk(nodes, next, m) && MemoOk(memo, m) && Represents(m, n, s)
    requires memo.Some? ==> KeyOf(s) !in memo.value
    ensures NodesOk(nodes[next := n], next + 1, m[next := s])
    ensures MemoOk(if memo.Some? then Some(memo.value[KeyOf(s) := next]) else None, m[next := s])
    ensures Grows(m, m[next := s]) && m[next := s].Values == m.Values + {s}
  {
    hide Represents, KeyOf;
    var m' := m[next := s];
    assert next !in m;
    forall o | o in nodes[next := n] ensures Represents(m', nodes[next := n][o], m'[o]) {
      if o == next {
        RepresentsGrows(m, m', n, s);
      } else {
        RepresentsGrows(m, m', nodes[o], m[o]);
      }
    }
    ValuesAfter(m, next, s);
  }

  lemma ValuesAfter(m: Meaning, o: Offset, s: Shared)
    requires o !in m
    ensures m[o := s].Values == m.Values + {s}
  {
    var m' := m[o := s];
    assert m'[o] == s;
    forall x | x in m.Values ensures x in m'.Values {
      var k :| k in m && m[k] == x;
      assert m'[k] == x;
    }
  }

  lemma Fit(d: Desc)
    ensures KindsFit(d) <==> d.kind < 128 && KindsFitBelow(d)
    ensures Subs(d) == {SDesc(d)} + SubsBelow(d)
  {
  }

  lemma NotFit(d: Desc)
    requires !KindsFitBelow(d)
    ensures !KindsFit(d)
  {
  }

  lemma WrittenKindFits(nodes: Heap, next: Offset, m: Meaning, o: Offset, d: Desc)
    requires NodesOk(nodes, next, m) && RefTo(m, o, SDesc(d))
    ensures d.kind < 128 && m.Values == m.Values + {SDesc(d)}
  {
    assert Represents(m, nodes[o], m[o]);
    assert m[o] in m.Values;
  }

  lemma VectorKeyStep(ds: seq<Desc>, i: nat)
    requires i < |ds|
    ensures "v" + Parts(DescKeys(ds[..i])) + KeyPart(DescKey(ds[i])) == "v" + Parts(DescKeys(ds[..i + 1]))
  {
    hide DescKey, KeyPart;
    var e := ds[..i + 1];
    assert e[..|e| - 1] == ds[..i] && e[|e| - 1] == ds[i];
    PartsAppend(DescKeys(ds[..i]), DescKey(ds[i]));
    Assoc("v", Parts(DescKeys(ds[..i])), KeyPart(DescKey(ds[i])));
  }

  lemma FieldVectorKeyStep(fs: seq<Field>, i: nat)
    requires i < |fs|
    ensures "fv" + Parts(FieldKeys(fs[..i])) + KeyPart(FieldKey(fs[i])) == "fv" + Parts(FieldKeys(fs[..i + 1]))
  {
    hide FieldKey, KeyPart;
    var e := fs[..i + 1];
    assert e[..|e| - 1] == fs[..i] && e[|e| - 1] == fs[i];
    PartsAppend(FieldKeys(fs[..i]), FieldKey(fs[i]));
    Assoc("fv", Parts(FieldKeys(fs[..i])), KeyPart(FieldKey(fs[i])));
  }

  lemma NoKeys()
    ensures "v" == "v" + Parts(DescKeys([])) && "fv" == "fv" + Parts(FieldKeys([]))
    ensures SubsItems([]) == {} && SubsFieldItems([]) == {}
  {
  }

  lemma SubsStep(ds: seq<Desc>, i: nat)
    requires i < |ds|
    ensures SubsItems(ds[..i + 1]) == SubsItems(ds[..i]) + Subs(ds[i])
  {
    var e := ds[..i + 1];
    assert e[..|e| - 1] == ds[..i] && e[|e| - 1] == ds[i];
  }

  lemma SubsFieldStep(fs: seq<Field>, i: nat)
    requires i < |fs|
    ensures SubsFieldItems(fs[..i + 1]) == SubsFieldItems(fs[..i]) + SubsField(fs[i])
  {
    var e := fs[..i + 1];
    assert e[..|e| - 1] == fs[..i] && e[|e| - 1] == fs[i];
  }

  // ---------- the builder ----------

  /** The fewest bytes a node takes: a vector has its length and one reference a slot, any other node a reference. */
  function Footprint(n: Node): nat {
    if n.VectorNode? then 4 + 4 * |n.items| else 4
  }

  /** No vector has more items than the payload has bytes. */
  ghost predicate VectorsFit(nodes: Heap, room: nat) {
    forall o :: o in nodes && nodes[o].VectorNode? ==> |nodes[o].items| <= room
  }

  datatype Packed = Panicked | Packed(offset: Offset, key: string)

  /** An append-only payload under construction, at least `bytes` long, with the memo of its sharing scope when one is open. */
  class Builder {
    var nodes: Heap
    var next: Offset
    var memo: Memo
    var bytes: nat
    ghost var meaning: Meaning

    ghost predicate Valid()
      reads this
    {
      NodesOk(nodes, next, meaning) && MemoOk(memo, meaning) && VectorsFit(nodes, bytes)
    }

    constructor (sharing: bool)
      ensures Valid() && nodes == map[] && meaning == map[] && memo.Some? == sharing
    {
      nodes, next, bytes, meaning := map[], 1, 0, map[];
      memo := if sharing then Some(map[]) else None;
    }

    /** The offset a key was already written at. */
    method Lookup(key: string, ghost s: Shared) returns (found: Option<Offset>)
      requires Valid() && Shareable(s) && key == KeyOf(s)
      ensures found.Some? ==> memo.Some? && RefTo(meaning, found.value, s)
      ensures found.None? && memo.Some? ==> KeyOf(s) !in memo.value
    {
      if memo.None? || key !in memo.value {
        return None;
      }
      var o := memo.value[key];
      ShareableMeaning(meaning, nodes[o], meaning[o]);
      KeyOfInjective(meaning[o], s);
      return Some(o);
    }

    /** Writes a node and remembers it under its key. */
    method Write(key: string, n: Node, ghost s: Shared) returns (o: Offset)
      requires Valid() && Represents(meaning, n, s) && key == KeyOf(s)
      requires memo.Some? ==> KeyOf(s) !in memo.value
      modifies this
      ensures Valid() && memo.Some? == old(memo).Some?
      ensures Grows(old(meaning), meaning) && Grows(old(nodes), nodes)
      ensures RefTo(meaning, o, s) && meaning.Values == old(meaning).Values + {s}
    {
      hide Represents, KeyOf;
      AppendKeeps(nodes, next, memo, meaning, n, s);
      o := next;
      nodes, meaning, next, bytes := nodes[next := n], meaning[next := s], next + 1, bytes + Footprint(n);
      if memo.Some? {
        memo := Some(memo.value[key := o]);
      }
    }

    /** Packs a descriptor, children first, and returns where it lies together with its key. */
    method PackDesc(d: Desc) returns (r: Packed)
      requires Valid()
      modifies this
      ensures Valid() && memo.Some? == old(memo).Some?
      ensures Grows(old(meaning), meaning) && Grows(old(nodes), nodes)
      ensures r.Packed? <==> KindsFit(d)
      ensures r.Packed? ==> RefTo(meaning, r.offset, SDesc(d)) && r.key == DescKey(d)
      ensures r.Packed? ==> meaning.Values == old(meaning).Values + Subs(d)
      decreases d, 2
    {
      hide NodesOk, MemoOk, Represents, NodeKey, KindsFit, Subs, SubsOpt, SubsList, SubsFields, OptKindsFit, ListKindsFit,
           FieldsKindsFit, OptKey, ListKey, FieldsKey, VectorsFit;
      var packed, elem, key, value := PackPointers(d);
      if !packed { NotFit(d); return Panicked; }
      var fields := PackFields(d.fields);
      if fields.Panicked? { NotFit(d); return Panicked; }
      var params := PackList(d.params);
      if params.Panicked? { NotFit(d); return Panicked; }
      var results := PackList(d.results);
      if results.Panicked? { NotFit(d); return Panicked; }
      assert meaning.Values == old(meaning).Values + SubsBelow(d);
      r := Place(d, elem, key, value, fields, params, results);
      Fit(d);
    }

    /** Packs the three pointer children in order. */
    method PackPointers(d: Desc) returns (packed: bool, elem: Packed, key: Packed, value: Packed)
      requires Valid()
      modifies this
      ensures Valid() && memo.Some? == old(memo).Some?
      ensures Grows(old(meaning), meaning) && Grows(old(nodes), nodes)
      ensures packed <==> OptKindsFit(d.elem) && OptKindsFit(d.key) && OptKindsFit(d.value)
      ensures packed ==> elem.Packed? && OptRef(meaning, elem.offset, d.elem) && elem.key == OptKey(d.elem)
      ensures packed ==> key.Packed? && OptRef(meaning, key.offset, d.key) && key.key == OptKey(d.key)
      ensures packed ==> value.Packed? && OptRef(meaning, value.offset, d.value) && value.key == OptKey(d.value)
      ensures packed ==> meaning.Values == old(meaning).Values + (SubsOpt(d.elem) + SubsOpt(d.key) + SubsOpt(d.value))
      decreases d, 1
    {
      hide NodesOk, MemoOk, SubsOpt, OptKindsFit, OptKey;
      packed, key, value := false, Panicked, Panicked;
      elem := PackOpt(d.elem);
      if elem.Panicked? { return; }
      key := PackOpt(d.key);
      if key.Panicked? { return; }
      value := PackOpt(d.value);
      packed := value.Packed?;
    }

    /** Shares or writes the table of a descriptor whose children are packed already. */
    method Place(d: Desc, elem: Packed, key: Packed, value: Packed, fields: Packed, params: Packed, results: Packed)
      returns (r: Packed)
      requires Valid()
      requires elem.Packed? && OptRef(meaning, elem.offset, d.elem) && elem.key == OptKey(d.elem)
      requires key.Packed? && OptRef(meaning, key.offset, d.key) && key.key == OptKey(d.key)
      requires value.Packed? && OptRef(meaning, value.offset, d.value) && value.key == OptKey(d.value)
      requires fields.Packed? && FieldsRef(meaning, fields.offset, d.fields) && fields.key == FieldsKey(d.fields)
      requires params.Packed? && ListRef(meaning, params.offset, d.params) && params.key == ListKey(d.params)
      requires results.Packed? && ListRef(meaning, results.offset, d.results) && results.key == ListKey(d.results)
      modifies this
      ensures Valid() && memo.Some? == old(memo).Some?
      ensures Grows(old(meaning), meaning) && Grows(old(nodes), nodes)
      ensures r.Packed? <==> d.kind < 128
      ensures r.Packed? ==> RefTo(meaning, r.offset, SDesc(d)) && r.key == DescKey(d)
      ensures r.Packed? ==> meaning.Values == old(meaning).Values + {SDesc(d)}
    {
      hide NodesOk, MemoOk, NodeKey;
      var text := NodeKey(d.kind, d.attrs, elem.key, key.key, value.key, fields.key, params.key, results.key);
      var found := Lookup(text, SDesc(d));
      if found.Some? {
        WrittenKindFits(nodes, next, meaning, found.value, d);
        return Packed(found.value, text);
      }
      if d.kind >= 128 {
        return Panicked;
      }
      var table := TableNode(d.kind, d.attrs, elem.offset, key.offset, value.offset, fields.offset, params.offset, results.offset);
      var o := Write(text, table, SDesc(d));
      return Packed(o, text);
    }

    method PackOpt(c: Option<Desc>) returns (r: Packed)
      requires Valid()
      modifies this
      ensures Valid() && memo.Some? == old(memo).Some?
      ensures Grows(old(meaning), meaning) && Grows(old(nodes), nodes)
      ensures r.Packed? <==> OptKindsFit(c)
      ensures r.Packed? ==> OptRef(meaning, r.offset, c) && r.key == OptKey(c)
      ensures r.Packed? ==> meaning.Values == old(meaning).Values + SubsOpt(c)
      decreases c, 3
    {
      hide NodesOk, MemoOk;
      if c.None? {
        return Packed(0, "");
      }
      r := PackDesc(c.value);
    }

    method PackList(ds: seq<Desc>) returns (r: Packed)
      requires Valid()
      modifies this
      ensures Valid() && memo.Some? == old(memo).Some?
      ensures Grows(old(meaning), meaning) && Grows(old(nodes), nodes)
      ensures r.Packed? <==> ListKindsFit(ds)
      ensures r.Packed? ==> ListRef(meaning, r.offset, ds) && r.key == ListKey(ds)
      ensures r.Packed? ==> meaning.Values == old(meaning).Values + SubsList(ds)
      decreases ds, 4
    {
      hide NodesOk, MemoOk, DescKey, Subs, SubsItems, KindsFit, DescKeys, Parts, KeyPart;
      if ds == [] {
        return Packed(0, "");
      }
      var offsets: seq<Offset> := [];
      var text := "v";
      NoKeys();
      assert ds[..0] == [];
      for i := 0 to |ds|
        invariant Valid() && memo.Some? == old(memo).Some?
        invariant Grows(old(meaning), meaning) && Grows(old(nodes), nodes)
        invariant |offsets| == i && forall j :: 0 <= j < i ==> RefTo(meaning, offsets[j], SDesc(ds[j]))
        invariant forall j :: 0 <= j < i ==> KindsFit(ds[j])
        invariant text == "v" + Parts(DescKeys(ds[..i]))
        invariant meaning.Values == old(meaning).Values + SubsItems(ds[..i])
      {
        var item := PackDesc(ds[i]);
        if item.Panicked? {
          return Panicked;
        }
        VectorKeyStep(ds, i);
        SubsStep(ds, i);
        offsets, text := offsets + [item.offset], text + KeyPart(item.key);
      }
      assert ds[..|ds|] == ds;
      r := PlaceVector(offsets, text, SDescs(ds));
    }

    /** Shares or writes a vector whose items are packed already. */
    method PlaceVector(offsets: seq<Offset>, text: string, ghost s: Shared) returns (r: Packed)
      requires Valid() && Represents(meaning, VectorNode(offsets), s) && text == KeyOf(s)
      modifies this
      ensures Valid() && memo.Some? == old(memo).Some?
      ensures Grows(old(meaning), meaning) && Grows(old(nodes), nodes)
      ensures r.Packed? && RefTo(meaning, r.offset, s) && r.key == text
      ensures meaning.Values == old(meaning).Values + {s}
    {
      hide NodesOk, MemoOk, KeyOf, Represents;
      ShareableMeaning(meaning, VectorNode(offsets), s);
      var found := Lookup(text, s);
      if found.Some? {
        assert meaning[found.value] in meaning.Values;
        return Packed(found.value, text);
      }
      var o := Write(text, VectorNode(offsets), s);
      return Packed(o, text);
    }

    method PackField(f: Field) returns (r: Packed)
      requires Valid()
      modifies this
      ensures Valid() && memo.Some? == old(memo).Some?
      ensures Grows(old(meaning), meaning) && Grows(old(nodes), nodes)
      ensures r.Packed? <==> FieldKindsFit(f)
      ensures r.Packed? ==> RefTo(meaning, r.offset, SField(f)) && r.key == FieldKey(f)
      ensures r.Packed? ==> meaning.Values == old(meaning).Values + SubsField(f)
      decreases f, 3
    {
      hide NodesOk, MemoOk, DescKey, FieldNodeKey, Subs, KindsFit;
      var typ := PackDesc(f.typ);
      if typ.Panicked? {
        return Panicked;
      }
      var text := FieldNodeKey(f.text, typ.key);
      var found := Lookup(text, SField(f));
      if found.Some? {
        assert meaning[found.value] in meaning.Values;
        return Packed(found.value, text);
      }
      var o := Write(text, FieldNode(f.text, typ.offset), SField(f));
      return Packed(o, text);
    }

    method PackFields(fs: seq<Field>) returns (r: Packed)
      requires Valid()
      modifies this
      ensures Valid() && memo.Some? == old(memo).Some?
      ensures Grows(old(meaning), meaning) && Grows(old(nodes), nodes)
      ensures r.Packed? <==> FieldsKindsFit(fs)
      ensures r.Packed? ==> FieldsRef(meaning, r.offset, fs) && r.key == FieldsKey(fs)
      ensures r.Packed? ==> meaning.Values == old(meaning).Values + SubsFields(fs)
      decreases fs, 4
    {
      hide NodesOk, MemoOk, FieldKey, SubsField, SubsFieldItems, FieldKindsFit, FieldKeys, Parts, KeyPart;
      if fs == [] {
        return Packed(0, "");
      }
      var offsets: seq<Offset> := [];
      var text := "fv";
      NoKeys();
      assert fs[..0] == [];
      for i := 0 to |fs|
        invariant Valid() && memo.Some? == old(memo).Some?
        invariant Grows(old(meaning), meaning) && Grows(old(nodes), nodes)
        invariant |offsets| == i && forall j :: 0 <= j < i ==> RefTo(meaning, offsets[j], SField(fs[j]))
        invariant forall j :: 0 <= j < i ==> FieldKindsFit(fs[j])
        invariant text == "fv" + Parts(FieldKeys(fs[..i]))
        invariant meaning.Values == old(meaning).Values + SubsFieldItems(fs[..i])
      {
        var item := PackField(fs[i]);
        if item.Panicked? {
          return Panicked;
        }
        FieldVectorKeyStep(fs, i);
        SubsFieldStep(fs, i);
        offsets, text := offsets + [item.offset], text + KeyPart(item.key);
      }
      assert fs[..|fs|] == fs;
      r := PlaceVector(offsets, text, SFields(fs));
    }
  }
}

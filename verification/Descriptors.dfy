/** Type descriptors: the serialisable tree that describes one Go type. */
module Descriptors {
  import opened Wrappers

  type uint8 = x: int | 0 <= x < 0x100

  type int32 = x: int | -0x8000_0000 <= x < 0x8000_0000

  /** The scalar fields of one descriptor other than its kind. */
  datatype Attrs = Attrs(
    basicKind: uint8, length: int32, dir: int32, isVariadic: bool, packagePath: string, name: string)

  /** The text fields of one struct field. */
  datatype FieldText = FieldText(name: string, tag: string, packagePath: string)

  /** A nil list and an empty list are the same sequence here. */
  datatype Desc = Desc(
    kind: uint8, attrs: Attrs, elem: Option<Desc>, key: Option<Desc>, value: Option<Desc>,
    fields: seq<Field>, params: seq<Desc>, results: seq<Desc>)

  datatype Field = Field(text: FieldText, typ: Desc)

  /** The zero value of a descriptor, which a list slot holds until it is filled. */
  const ZERO_DESC := Desc(0, Attrs(0, 0, 0, false, "", ""), None, None, None, [], [], [])

  function Max(a: nat, b: nat): nat {
    if a < b then b else a
  }

  /** Nesting height in edges: a descriptor without children has height 0. */
  function Height(d: Desc): nat
    decreases d, 2
  {
    Max(Max(OptHeight(d.elem), Max(OptHeight(d.key), OptHeight(d.value))),
        Max(FieldsHeight(d.fields), Max(ListHeight(d.params), ListHeight(d.results))))
  }

  /** One more than the height of an optional child, or 0 when there is none. */
  function OptHeight(o: Option<Desc>): nat
    decreases o, 3
  {
    match o
    case None => 0
    case Some(d) => 1 + Height(d)
  }

  function ListHeight(ds: seq<Desc>): nat
    decreases ds, 1
  {
    if ds == [] then 0 else Max(1 + Height(ds[0]), ListHeight(ds[1..]))
  }

  function FieldsHeight(fs: seq<Field>): nat
    decreases fs, 1
  {
    if fs == [] then 0 else Max(FieldHeight(fs[0]), FieldsHeight(fs[1..]))
  }

  function FieldHeight(f: Field): nat
    decreases f, 3
  {
    1 + Height(f.typ)
  }

  lemma {:induction false} ListHeightAt(ds: seq<Desc>, i: nat)
    requires i < |ds|
    ensures Height(ds[i]) < ListHeight(ds)
  {
    if i > 0 {
      ListHeightAt(ds[1..], i - 1);
    }
  }

  lemma {:induction false} FieldsHeightAt(fs: seq<Field>, i: nat)
    requires i < |fs|
    ensures Height(fs[i].typ) < FieldsHeight(fs)
  {
    if i > 0 {
      FieldsHeightAt(fs[1..], i - 1);
    }
  }

  lemma {:induction false} ListHeightAppend(ds: seq<Desc>, d: Desc)
    ensures ListHeight(ds + [d]) == Max(ListHeight(ds), 1 + Height(d))
  {
    if ds == [] {
      assert ds + [d] == [d] && [d][1..] == [];
    } else {
      assert (ds + [d])[1..] == ds[1..] + [d];
      ListHeightAppend(ds[1..], d);
    }
  }

  lemma {:induction false} FieldsHeightAppend(fs: seq<Field>, f: Field)
    ensures FieldsHeight(fs + [f]) == Max(FieldsHeight(fs), FieldHeight(f))
  {
    if fs == [] {
      assert fs + [f] == [f] && [f][1..] == [];
    } else {
      assert (fs + [f])[1..] == fs[1..] + [f];
      FieldsHeightAppend(fs[1..], f);
    }
  }
}

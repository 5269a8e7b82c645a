/** The length-prefixed key under which the packer shares a descriptor subtree. */
module StructuralKey {
  import opened Wrappers
  import opened Descriptors

  // ---------- decimal rendering ----------

  function Digit(n: nat): char
    requires n < 10
  {
    (48 + n) as char
  }

  predicate IsDigit(c: char) {
    '0' <= c <= '9'
  }

  function Decimal(n: nat): (s: string)
    ensures |s| > 0
    ensures forall i :: 0 <= i < |s| ==> IsDigit(s[i])
  {
    if n < 10 then [Digit(n)] else Decimal(n / 10) + [Digit(n % 10)]
  }

  function FormatInt(n: int): string {
    if n < 0 then "-" + Decimal(-n) else Decimal(n)
  }

  lemma {:induction false} DecimalInjective(m: nat, n: nat)
    requires Decimal(m) == Decimal(n)
    ensures m == n
    decreases m
  {
    var s, t := Decimal(m), Decimal(n);
    assert s[|s| - 1] == Digit(m % 10) && t[|t| - 1] == Digit(n % 10);
    if m >= 10 && n >= 10 {
      assert Decimal(m / 10) == s[..|s| - 1] == t[..|t| - 1] == Decimal(n / 10);
      DecimalInjective(m / 10, n / 10);
    }
  }

  lemma FormatIntInjective(m: int, n: int)
    requires FormatInt(m) == FormatInt(n)
    ensures m == n
  {
    assert FormatInt(m)[0] == FormatInt(n)[0];
    if m < 0 {
      assert n < 0;
      assert Decimal(-m) == FormatInt(m)[1..] == FormatInt(n)[1..] == Decimal(-n);
      DecimalInjective(-m, -n);
    } else {
      DecimalInjective(m, n);
    }
  }

  // ---------- splitting at the first separator ----------

  predicate Free(s: string, c: char) {
    forall i :: 0 <= i < |s| ==> s[i] != c
  }

  /** A separator that occurs in neither prefix splits equal texts at the same place. */
  lemma SplitAtSeparator(a: string, b: string, c: char, r: string, s: string)
    requires Free(a, c) && Free(b, c)
    requires a + [c] + r == b + [c] + s
    ensures a == b && r == s
  {
    var t := a + [c] + r;
    assert t[|a|] == c && t[|b|] == c;
    assert forall i :: 0 <= i < |b| ==> t[i] == b[i];
    assert forall i :: 0 <= i < |a| ==> t[i] == a[i];
    assert |a| == |b|;
    assert a == t[..|a|] && r == t[|a| + 1..];
    assert b == t[..|b|] && s == t[|b| + 1..];
  }

  lemma Assoc(a: string, b: string, c: string)
    ensures (a + b) + c == a + (b + c)
  {
  }

  lemma Untag(tag: string, a: string, b: string, c: string, d: string)
    requires tag + a + b == tag + c + d
    ensures a + b == c + d
  {
    assert a + b == (tag + a + b)[|tag|..];
    assert c + d == (tag + c + d)[|tag|..];
  }

  lemma SnocInjective<T>(a: seq<T>, x: T, b: seq<T>, y: T)
    requires a + [x] == b + [y]
    ensures a == b && x == y
  {
    var s := a + [x];
    assert a == s[..|s| - 1] && x == s[|s| - 1];
    assert b == (b + [y])[..|s| - 1] && y == (b + [y])[|s| - 1];
  }

  function KeyPart(part: string): string {
    Decimal(|part|) + [':'] + part
  }

  function KeyInt(value: int): string {
    FormatInt(value) + [',']
  }

  lemma KeyPartSplits(x: string, y: string, r: string, s: string)
    requires KeyPart(x) + r == KeyPart(y) + s
    ensures x == y && r == s
  {
    assert KeyPart(x) + r == Decimal(|x|) + [':'] + (x + r);
    assert KeyPart(y) + s == Decimal(|y|) + [':'] + (y + s);
    SplitAtSeparator(Decimal(|x|), Decimal(|y|), ':', x + r, y + s);
    DecimalInjective(|x|, |y|);
    assert x == (x + r)[..|x|] && y == (y + s)[..|y|];
    assert r == (x + r)[|x|..] && s == (y + s)[|y|..];
  }

  lemma KeyIntSplits(m: int, n: int, r: string, s: string)
    requires KeyInt(m) + r == KeyInt(n) + s
    ensures m == n && r == s
  {
    assert KeyInt(m) + r == FormatInt(m) + [','] + r;
    assert KeyInt(n) + s == FormatInt(n) + [','] + s;
    SplitAtSeparator(FormatInt(m), FormatInt(n), ',', r, s);
    FormatIntInjective(m, n);
  }

  // ---------- runs of parts ----------

  function Ints(values: seq<int>): string {
    if values == [] then "" else KeyInt(values[0]) + Ints(values[1..])
  }

  lemma {:induction false} IntsSplit(a: seq<int>, b: seq<int>, r: string, s: string)
    requires |a| == |b| && Ints(a) + r == Ints(b) + s
    ensures a == b && r == s
    decreases |a|
  {
    if a == [] {
      assert Ints(a) + r == r && Ints(b) + s == s;
    } else {
      Assoc(KeyInt(a[0]), Ints(a[1..]), r);
      Assoc(KeyInt(b[0]), Ints(b[1..]), s);
      KeyIntSplits(a[0], b[0], Ints(a[1..]) + r, Ints(b[1..]) + s);
      IntsSplit(a[1..], b[1..], r, s);
      assert a == [a[0]] + a[1..] && b == [b[0]] + b[1..];
    }
  }

  function Parts(keys: seq<string>): string {
    if keys == [] then "" else KeyPart(keys[0]) + Parts(keys[1..])
  }

  lemma {:induction false} PartsAppend(keys: seq<string>, k: string)
    ensures Parts(keys + [k]) == Parts(keys) + KeyPart(k)
  {
    if keys == [] {
      assert keys + [k] == [k];
      assert [k][1..] == [];
      assert Parts([k]) == KeyPart(k) + Parts([]);
    } else {
      assert (keys + [k])[1..] == keys[1..] + [k];
      PartsAppend(keys[1..], k);
    }
  }

  /** A run of length-prefixed parts spells exactly one sequence of parts. */
  lemma {:induction false} PartsInjective(a: seq<string>, b: seq<string>)
    requires Parts(a) == Parts(b)
    ensures a == b
    decreases |a|
  {
    if a == [] || b == [] {
      assert a == b;
    } else {
      KeyPartSplits(a[0], b[0], Parts(a[1..]), Parts(b[1..]));
      PartsInjective(a[1..], b[1..]);
      assert a == [a[0]] + a[1..] && b == [b[0]] + b[1..];
    }
  }

  lemma PartsFirst(a: seq<string>)
    requires a != []
    ensures |Parts(a)| > 0 && IsDigit(Parts(a)[0])
  {
  }

  // ---------- keys of descriptors, fields and their vectors ----------

  function BoolKeyValue(b: bool): int {
    if b then 1 else 0
  }

  function NodeInts(kind: uint8, h: Attrs): (r: seq<int>)
    ensures |r| == 5
  {
    [kind, h.basicKind, h.length, h.dir, BoolKeyValue(h.isVariadic)]
  }

  function NodeParts(h: Attrs, elemKey: string, keyKey: string, valueKey: string,
                     fieldsKey: string, paramsKey: string, resultsKey: string): (r: seq<string>)
    ensures |r| == 8
  {
    [h.packagePath, h.name, elemKey, keyKey, valueKey, fieldsKey, paramsKey, resultsKey]
  }

  /** The key of a node from its own scalars and its children's keys, "" for an absent child. */
  function NodeKey(kind: uint8, h: Attrs, elemKey: string, keyKey: string, valueKey: string,
                   fieldsKey: string, paramsKey: string, resultsKey: string): string
  {
    "d" + Ints(NodeInts(kind, h)) + Parts(NodeParts(h, elemKey, keyKey, valueKey, fieldsKey, paramsKey, resultsKey))
  }

  function FieldNodeKey(text: FieldText, typeKey: string): string {
    "f" + Parts([text.name, text.tag, text.packagePath, typeKey])
  }

  function VectorKey(keys: seq<string>): string {
    "v" + Parts(keys)
  }

  function FieldVectorKey(keys: seq<string>): string {
    "fv" + Parts(keys)
  }

  function DescKey(d: Desc): string
    decreases d, 2
  {
    NodeKey(d.kind, d.attrs, OptKey(d.elem), OptKey(d.key), OptKey(d.value),
            FieldsKey(d.fields), ListKey(d.params), ListKey(d.results))
  }

  function OptKey(o: Option<Desc>): string
    decreases o, 3
  {
    match o
    case None => ""
    case Some(d) => DescKey(d)
  }

  function FieldKey(f: Field): string
    decreases f, 0
  {
    FieldNodeKey(f.text, DescKey(f.typ))
  }

  function DescKeys(ds: seq<Desc>): (ks: seq<string>)
    ensures |ks| == |ds|
    decreases ds, 0
  {
    if ds == [] then [] else DescKeys(ds[..|ds| - 1]) + [DescKey(ds[|ds| - 1])]
  }

  function FieldKeys(fs: seq<Field>): (ks: seq<string>)
    ensures |ks| == |fs|
    decreases fs, 0
  {
    if fs == [] then [] else FieldKeys(fs[..|fs| - 1]) + [FieldKey(fs[|fs| - 1])]
  }

  function ListKey(ds: seq<Desc>): string
    decreases ds, 1
  {
    if ds == [] then "" else VectorKey(DescKeys(ds))
  }

  function FieldsKey(fs: seq<Field>): string
    decreases fs, 1
  {
    if fs == [] then "" else FieldVectorKey(FieldKeys(fs))
  }

  // ---------- injectivity ----------

  lemma NodeKeyInjective(
      kg: uint8, g: Attrs, e1: string, k1: string, v1: string, f1: string, p1: string, r1: string,
      kh: uint8, h: Attrs, e2: string, k2: string, v2: string, f2: string, p2: string, r2: string)
    requires NodeKey(kg, g, e1, k1, v1, f1, p1, r1) == NodeKey(kh, h, e2, k2, v2, f2, p2, r2)
    ensures kg == kh && g == h && e1 == e2 && k1 == k2 && v1 == v2 && f1 == f2 && p1 == p2 && r1 == r2
  {
    var a, b := NodeParts(g, e1, k1, v1, f1, p1, r1), NodeParts(h, e2, k2, v2, f2, p2, r2);
    var i, j := NodeInts(kg, g), NodeInts(kh, h);
    TaggedRuns(i, a, j, b);
    assert i[0] == j[0] && i[1] == j[1] && i[2] == j[2] && i[3] == j[3] && i[4] == j[4];
    assert a[0] == b[0] && a[1] == b[1] && a[2] == b[2] && a[3] == b[3];
    assert a[4] == b[4] && a[5] == b[5] && a[6] == b[6] && a[7] == b[7];
  }

  lemma TaggedRuns(i: seq<int>, a: seq<string>, j: seq<int>, b: seq<string>)
    requires "d" + Ints(i) + Parts(a) == "d" + Ints(j) + Parts(b) && |i| == |j|
    ensures i == j && a == b
  {
    Untag("d", Ints(i), Parts(a), Ints(j), Parts(b));
    IntsSplit(i, j, Parts(a), Parts(b));
    PartsInjective(a, b);
  }

  /** Equal keys mean equal descriptors. */
  lemma {:induction false} DescKeyInjective(a: Desc, b: Desc)
    requires DescKey(a) == DescKey(b)
    ensures a == b
    decreases a, 2
  {
    NodeKeyInjective(
      a.kind, a.attrs, OptKey(a.elem), OptKey(a.key), OptKey(a.value), FieldsKey(a.fields), ListKey(a.params), ListKey(a.results),
      b.kind, b.attrs, OptKey(b.elem), OptKey(b.key), OptKey(b.value), FieldsKey(b.fields), ListKey(b.params), ListKey(b.results));
    OptKeyInjective(a.elem, b.elem);
    OptKeyInjective(a.key, b.key);
    OptKeyInjective(a.value, b.value);
    FieldsKeyInjective(a.fields, b.fields);
    ListKeyInjective(a.params, b.params);
    ListKeyInjective(a.results, b.results);
  }

  lemma {:induction false} OptKeyInjective(a: Option<Desc>, b: Option<Desc>)
    requires OptKey(a) == OptKey(b)
    ensures a == b
    decreases a, 3
  {
    if a.Some? && b.Some? {
      DescKeyInjective(a.value, b.value);
    }
  }

  lemma {:induction false} ListKeyInjective(a: seq<Desc>, b: seq<Desc>)
    requires ListKey(a) == ListKey(b)
    ensures a == b
    decreases a, 1
  {
    if a != [] && b != [] {
      assert Parts(DescKeys(a)) == ListKey(a)[1..] == ListKey(b)[1..] == Parts(DescKeys(b));
      PartsInjective(DescKeys(a), DescKeys(b));
      DescKeysInjective(a, b);
    }
  }

  lemma {:induction false} DescKeysInjective(a: seq<Desc>, b: seq<Desc>)
    requires DescKeys(a) == DescKeys(b)
    ensures a == b
    decreases a, 0
  {
    hide NodeKey;
    if a != [] {
      assert |a| == |DescKeys(a)| == |b|;
      var n := |a| - 1;
      SnocInjective(DescKeys(a[..n]), DescKey(a[n]), DescKeys(b[..n]), DescKey(b[n]));
      DescKeyInjective(a[n], b[n]);
      DescKeysInjective(a[..n], b[..n]);
      assert a == a[..n] + [a[n]] && b == b[..n] + [b[n]];
    } else {
      assert |b| == |DescKeys(b)| == 0;
    }
  }

  lemma {:induction false} FieldKeyInjective(a: Field, b: Field)
    requires FieldKey(a) == FieldKey(b)
    ensures a == b
    decreases a, 0
  {
    var x := [a.text.name, a.text.tag, a.text.packagePath, DescKey(a.typ)];
    var y := [b.text.name, b.text.tag, b.text.packagePath, DescKey(b.typ)];
    assert Parts(x) == FieldKey(a)[1..] == FieldKey(b)[1..] == Parts(y);
    PartsInjective(x, y);
    assert x[0] == y[0] && x[1] == y[1] && x[2] == y[2] && x[3] == y[3];
    DescKeyInjective(a.typ, b.typ);
  }

  lemma {:induction false} FieldsKeyInjective(a: seq<Field>, b: seq<Field>)
    requires FieldsKey(a) == FieldsKey(b)
    ensures a == b
    decreases a, 1
  {
    if a != [] && b != [] {
      assert Parts(FieldKeys(a)) == FieldsKey(a)[2..] == FieldsKey(b)[2..] == Parts(FieldKeys(b));
      PartsInjective(FieldKeys(a), FieldKeys(b));
      FieldKeysInjective(a, b);
    }
  }

  lemma {:induction false} FieldKeysInjective(a: seq<Field>, b: seq<Field>)
    requires FieldKeys(a) == FieldKeys(b)
    ensures a == b
    decreases a, 0
  {
    hide FieldNodeKey, NodeKey;
    if a != [] {
      assert |a| == |FieldKeys(a)| == |b|;
      var n := |a| - 1;
      SnocInjective(FieldKeys(a[..n]), FieldKey(a[n]), FieldKeys(b[..n]), FieldKey(b[n]));
      FieldKeyInjective(a[n], b[n]);
      FieldKeysInjective(a[..n], b[..n]);
      assert a == a[..n] + [a[n]] && b == b[..n] + [b[n]];
    } else {
      assert |b| == |FieldKeys(b)| == 0;
    }
  }

  // ---------- one memo for four kinds of node ----------

  /** Everything the packer shares: a descriptor, a field, and the two non-empty kinds of list. */
  datatype Shared =
    | SDesc(desc: Desc)
    | SField(field: Field)
    | SDescs(descs: seq<Desc>)
    | SFields(fields: seq<Field>)

  ghost predicate Shareable(s: Shared) {
    (s.SDescs? ==> s.descs != []) && (s.SFields? ==> s.fields != [])
  }

  function KeyOf(s: Shared): string {
    match s
    case SDesc(d) => DescKey(d)
    case SField(f) => FieldKey(f)
    case SDescs(ds) => ListKey(ds)
    case SFields(fs) => FieldsKey(fs)
  }

  /** The tag that starts a key tells its kind of node. */
  function TagOf(key: string): (r: int)
  {
    if |key| < 2 then 0 else if key[0] == 'd' then 1 else if key[0] == 'v' then 2
    else if key[0] == 'f' && key[1] == 'v' then 4 else if key[0] == 'f' then 3 else 0
  }

  lemma KeyTag(s: Shared)
    requires Shareable(s)
    ensures TagOf(KeyOf(s)) == match s case SDesc(_) => 1 case SField(_) => 3 case SDescs(_) => 2 case SFields(_) => 4
  {
    match s
    case SDesc(d) =>
      assert KeyOf(s)[0] == 'd';
      assert |KeyInt(d.kind)| > 0;
    case SField(f) =>
      var parts := [f.text.name, f.text.tag, f.text.packagePath, DescKey(f.typ)];
      PartsFirst(parts);
      assert KeyOf(s)[0] == 'f' && KeyOf(s)[1] == Parts(parts)[0];
    case SDescs(ds) =>
      PartsFirst(DescKeys(ds));
      assert KeyOf(s)[0] == 'v';
    case SFields(fs) =>
      assert KeyOf(s)[0] == 'f' && KeyOf(s)[1] == 'v';
  }

  /** Keys are equal exactly when the shared things are: no two kinds ever collide. */
  lemma KeyOfInjective(a: Shared, b: Shared)
    requires Shareable(a) && Shareable(b)
    ensures KeyOf(a) == KeyOf(b) <==> a == b
  {
    if KeyOf(a) == KeyOf(b) {
      KeyTag(a);
      KeyTag(b);
      match a
      case SDesc(d) => DescKeyInjective(d, b.desc);
      case SField(f) => FieldKeyInjective(f, b.field);
      case SDescs(ds) => ListKeyInjective(ds, b.descs);
      case SFields(fs) => FieldsKeyInjective(fs, b.fields);
    }
  }
}

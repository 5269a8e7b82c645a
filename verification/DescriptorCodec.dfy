/** Export and import of type descriptors: the tree conversions, and the pointer memo over import. */
module DescriptorCodec {
  import opened Wrappers
  import opened Descriptors
  import opened TableGraph

  const MAX_CODEC_DEPTH := 1024

  // ---------- the interpreter's own descriptors ----------

  datatype TypeAttrs = TypeAttrs(
    basicKind: uint8, length: int, dir: int, isVariadic: bool, packagePath: string, name: string)

  datatype Type = Type(
    kind: uint8, attrs: TypeAttrs, element: Option<Type>, key: Option<Type>, value: Option<Type>,
    fields: seq<TypeField>, params: seq<Type>, results: seq<Type>)

  datatype TypeField = TypeField(text: FieldText, typ: Type)

  /** Clamping conversion to a 32-bit integer. */
  function IntToInt32(n: int): int32 {
    if n > 0x7FFF_FFFF then 0x7FFF_FFFF else if n < -0x8000_0000 then -0x8000_0000 else n
  }

  function AttrsToData(a: TypeAttrs): Attrs {
    Attrs(a.basicKind, IntToInt32(a.length), IntToInt32(a.dir), a.isVariadic, a.packagePath, a.name)
  }

  function AttrsOfData(a: Attrs): TypeAttrs {
    TypeAttrs(a.basicKind, a.length, a.dir, a.isVariadic, a.packagePath, a.name)
  }

  datatype Outcome<+T> = Value(value: T) | Panic {
    predicate IsFailure() { Panic? }
    function PropagateFailure<U>(): Outcome<U>
      requires Panic?
    {
      Panic
    }
    function Extract(): T
      requires Value?
    {
      value
    }
  }

  // ---------- export ----------

  function ExportAt(t: Type, depth: nat): Outcome<Desc>
    decreases t, 1
  {
    if depth >= MAX_CODEC_DEPTH then Panic
    else
      var elem :- ExportOpt(t.element, depth + 1);
      var key :- ExportOpt(t.key, depth + 1);
      var value :- ExportOpt(t.value, depth + 1);
      var fields :- ExportFields(t.fields, depth + 1);
      var params :- ExportList(t.params, depth + 1);
      var results :- ExportList(t.results, depth + 1);
      Value(Desc(t.kind, AttrsToData(t.attrs), elem, key, value, fields, params, results))
  }

  function ExportOpt(o: Option<Type>, depth: nat): Outcome<Option<Desc>>
    decreases o, 2
  {
    if o.None? then Value(None)
    else
      var d :- ExportAt(o.value, depth);
      Value(Some(d))
  }

  function ExportList(ts: seq<Type>, depth: nat): Outcome<seq<Desc>>
    decreases ts, 2
  {
    if ts == [] then Value([])
    else
      var front :- ExportList(ts[..|ts| - 1], depth);
      var last :- ExportAt(ts[|ts| - 1], depth);
      Value(front + [last])
  }

  function ExportField(f: TypeField, depth: nat): Outcome<Field>
    decreases f, 2
  {
    var typ :- ExportAt(f.typ, depth);
    Value(Field(f.text, typ))
  }

  function ExportFields(fs: seq<TypeField>, depth: nat): Outcome<seq<Field>>
    decreases fs, 3
  {
    if fs == [] then Value([])
    else
      var front :- ExportFields(fs[..|fs| - 1], depth);
      var last :- ExportField(fs[|fs| - 1], depth);
      Value(front + [last])
  }

  // ---------- import ----------

  function ImportAt(d: Desc, depth: nat): Outcome<Type>
    decreases d, 1
  {
    if depth >= MAX_CODEC_DEPTH then Panic
    else
      var element :- ImportOpt(d.elem, depth + 1);
      var key :- ImportOpt(d.key, depth + 1);
      var value :- ImportOpt(d.value, depth + 1);
      var fields :- ImportFields(d.fields, depth + 1);
      var params :- ImportList(d.params, depth + 1);
      var results :- ImportList(d.results, depth + 1);
      Value(Type(d.kind, AttrsOfData(d.attrs), element, key, value, fields, params, results))
  }

  function ImportOpt(o: Option<Desc>, depth: nat): Outcome<Option<Type>>
    decreases o, 2
  {
    if o.None? then Value(None)
    else
      var t :- ImportAt(o.value, depth);
      Value(Some(t))
  }

  function ImportList(ds: seq<Desc>, depth: nat): Outcome<seq<Type>>
    decreases ds, 2
  {
    if ds == [] then Value([])
    else
      var front :- ImportList(ds[..|ds| - 1], depth);
      var last :- ImportAt(ds[|ds| - 1], depth);
      Value(front + [last])
  }

  function ImportField(f: Field, depth: nat): Outcome<TypeField>
    decreases f, 2
  {
    var typ :- ImportAt(f.typ, depth);
    Value(TypeField(f.text, typ))
  }

  function ImportFields(fs: seq<Field>, depth: nat): Outcome<seq<TypeField>>
    decreases fs, 3
  {
    if fs == [] then Value([])
    else
      var front :- ImportFields(fs[..|fs| - 1], depth);
      var last :- ImportField(fs[|fs| - 1], depth);
      Value(front + [last])
  }

  // ---------- import undoes export up to clamping ----------

  /** The descriptor with every length and direction clamped to 32 bits. */
  function Clamped(t: Type): Type
    decreases t, 1
  {
    Type(t.kind, AttrsOfData(AttrsToData(t.attrs)), ClampedOpt(t.element), ClampedOpt(t.key), ClampedOpt(t.value),
         ClampedFields(t.fields), ClampedList(t.params), ClampedList(t.results))
  }

  function ClampedOpt(o: Option<Type>): Option<Type>
    decreases o, 2
  {
    if o.None? then None else Some(Clamped(o.value))
  }

  function ClampedList(ts: seq<Type>): seq<Type>
    decreases ts, 2
  {
    if ts == [] then [] else ClampedList(ts[..|ts| - 1]) + [Clamped(ts[|ts| - 1])]
  }

  function ClampedField(f: TypeField): TypeField
    decreases f, 2
  {
    TypeField(f.text, Clamped(f.typ))
  }

  function ClampedFields(fs: seq<TypeField>): seq<TypeField>
    decreases fs, 3
  {
    if fs == [] then [] else ClampedFields(fs[..|fs| - 1]) + [ClampedField(fs[|fs| - 1])]
  }

  /** Import accepts whatever export produced, at the same depth, and returns it clamped. */
  lemma {:induction false} ImportOfExport(t: Type, depth: nat)
    requires ExportAt(t, depth).Value?
    ensures ImportAt(ExportAt(t, depth).value, depth) == Value(Clamped(t))
    decreases t, 1
  {
    OptImportOfExport(t.element, depth + 1);
    OptImportOfExport(t.key, depth + 1);
    OptImportOfExport(t.value, depth + 1);
    FieldsImportOfExport(t.fields, depth + 1);
    ListImportOfExport(t.params, depth + 1);
    ListImportOfExport(t.results, depth + 1);
  }

  lemma {:induction false} OptImportOfExport(o: Option<Type>, depth: nat)
    requires ExportOpt(o, depth).Value?
    ensures ImportOpt(ExportOpt(o, depth).value, depth) == Value(ClampedOpt(o))
    decreases o, 2
  {
    if o.Some? {
      ImportOfExport(o.value, depth);
    }
  }

  lemma {:induction false} ListImportOfExport(ts: seq<Type>, depth: nat)
    requires ExportList(ts, depth).Value?
    ensures ImportList(ExportList(ts, depth).value, depth) == Value(ClampedList(ts))
    decreases ts, 2
  {
    if ts != [] {
      var n := |ts| - 1;
      ListImportOfExport(ts[..n], depth);
      ImportOfExport(ts[n], depth);
      var front, last := ExportList(ts[..n], depth).value, ExportAt(ts[n], depth).value;
      assert (front + [last])[..|front|] == front;
    }
  }

  lemma {:induction false} FieldImportOfExport(f: TypeField, depth: nat)
    requires ExportField(f, depth).Value?
    ensures ImportField(ExportField(f, depth).value, depth) == Value(ClampedField(f))
    decreases f, 2
  {
    ImportOfExport(f.typ, depth);
  }

  lemma {:induction false} FieldsImportOfExport(fs: seq<TypeField>, depth: nat)
    requires ExportFields(fs, depth).Value?
    ensures ImportFields(ExportFields(fs, depth).value, depth) == Value(ClampedFields(fs))
    decreases fs, 3
  {
    if fs != [] {
      var n := |fs| - 1;
      FieldsImportOfExport(fs[..n], depth);
      FieldImportOfExport(fs[n], depth);
      var front, last := ExportFields(fs[..n], depth).value, ExportField(fs[n], depth).value;
      assert (front + [last])[..|front|] == front;
    }
  }

  // ---------- when clamping changes nothing ----------

  predicate FitsInt32(n: int) {
    -0x8000_0000 <= n <= 0x7FFF_FFFF
  }

  /** Every length and direction in the tree fits 32 bits. */
  predicate Narrow(t: Type)
    decreases t, 1
  {
    && FitsInt32(t.attrs.length) && FitsInt32(t.attrs.dir)
    && NarrowOpt(t.element) && NarrowOpt(t.key) && NarrowOpt(t.value)
    && NarrowFields(t.fields) && NarrowList(t.params) && NarrowList(t.results)
  }

  predicate NarrowOpt(o: Option<Type>)
    decreases o, 2
  {
    o.Some? ==> Narrow(o.value)
  }

  predicate NarrowList(ts: seq<Type>)
    decreases ts, 2
  {
    forall i :: 0 <= i < |ts| ==> Narrow(ts[i])
  }

  predicate NarrowField(f: TypeField)
    decreases f, 2
  {
    Narrow(f.typ)
  }

  predicate NarrowFields(fs: seq<TypeField>)
    decreases fs, 3
  {
    forall i :: 0 <= i < |fs| ==> NarrowField(fs[i])
  }

  lemma {:induction false} ClampedIdentity(t: Type)
    ensures Clamped(t) == t <==> Narrow(t)
    decreases t, 1
  {
    OptClampedIdentity(t.element);
    OptClampedIdentity(t.key);
    OptClampedIdentity(t.value);
    FieldsClampedIdentity(t.fields);
    ListClampedIdentity(t.params);
    ListClampedIdentity(t.results);
  }

  lemma {:induction false} OptClampedIdentity(o: Option<Type>)
    ensures ClampedOpt(o) == o <==> NarrowOpt(o)
    decreases o, 2
  {
    if o.Some? {
      ClampedIdentity(o.value);
    }
  }

  lemma SnocEqual<T>(xs: seq<T>, front: seq<T>, last: T)
    requires |xs| > 0 && |front| == |xs| - 1
    ensures front + [last] == xs <==> front == xs[..|xs| - 1] && last == xs[|xs| - 1]
  {
    if front + [last] == xs {
      assert (front + [last])[..|xs| - 1] == front && (front + [last])[|xs| - 1] == last;
    }
  }

  lemma {:induction false} ListClampedIdentity(ts: seq<Type>)
    ensures |ClampedList(ts)| == |ts|
    ensures ClampedList(ts) == ts <==> NarrowList(ts)
    decreases ts, 2
  {
    if ts != [] {
      var n := |ts| - 1;
      ListClampedIdentity(ts[..n]);
      ClampedIdentity(ts[n]);
      SnocEqual(ts, ClampedList(ts[..n]), Clamped(ts[n]));
      assert NarrowList(ts) <==> NarrowList(ts[..n]) && Narrow(ts[n]);
    }
  }

  lemma {:induction false} FieldClampedIdentity(f: TypeField)
    ensures ClampedField(f) == f <==> NarrowField(f)
    decreases f, 2
  {
    ClampedIdentity(f.typ);
  }

  lemma {:induction false} FieldsClampedIdentity(fs: seq<TypeField>)
    ensures |ClampedFields(fs)| == |fs|
    ensures ClampedFields(fs) == fs <==> NarrowFields(fs)
    decreases fs, 3
  {
    if fs != [] {
      var n := |fs| - 1;
      FieldsClampedIdentity(fs[..n]);
      FieldClampedIdentity(fs[n]);
      SnocEqual(fs, ClampedFields(fs[..n]), ClampedField(fs[n]));
      assert NarrowFields(fs) <==> NarrowFields(fs[..n]) && NarrowField(fs[n]);
    }
  }

  /** Import after export is the identity exactly on descriptors whose lengths and directions fit 32 bits. */
  lemma ImportUndoesExport(t: Type, depth: nat)
    requires ExportAt(t, depth).Value?
    ensures ImportAt(ExportAt(t, depth).value, depth) == Value(t) <==> Narrow(t)
  {
    ImportOfExport(t, depth);
    ClampedIdentity(t);
  }

  // ---------- export undoes import ----------

  lemma {:induction false} ExportUndoesImport(d: Desc, depth: nat)
    requires ImportAt(d, depth).Value?
    ensures ExportAt(ImportAt(d, depth).value, depth) == Value(d)
    decreases d, 1
  {
    OptExportOfImport(d.elem, depth + 1);
    OptExportOfImport(d.key, depth + 1);
    OptExportOfImport(d.value, depth + 1);
    FieldsExportOfImport(d.fields, depth + 1);
    ListExportOfImport(d.params, depth + 1);
    ListExportOfImport(d.results, depth + 1);
  }

  lemma {:induction false} OptExportOfImport(o: Option<Desc>, depth: nat)
    requires ImportOpt(o, depth).Value?
    ensures ExportOpt(ImportOpt(o, depth).value, depth) == Value(o)
    decreases o, 2
  {
    if o.Some? {
      ExportUndoesImport(o.value, depth);
    }
  }

  lemma {:induction false} ListExportOfImport(ds: seq<Desc>, depth: nat)
    requires ImportList(ds, depth).Value?
    ensures ExportList(ImportList(ds, depth).value, depth) == Value(ds)
    decreases ds, 2
  {
    if ds != [] {
      var n := |ds| - 1;
      ListExportOfImport(ds[..n], depth);
      ExportUndoesImport(ds[n], depth);
      var front, last := ImportList(ds[..n], depth).value, ImportAt(ds[n], depth).value;
      assert (front + [last])[..|front|] == front;
      assert ds == ds[..n] + [ds[n]];
    }
  }

  lemma {:induction false} FieldExportOfImport(f: Field, depth: nat)
    requires ImportField(f, depth).Value?
    ensures ExportField(ImportField(f, depth).value, depth) == Value(f)
    decreases f, 2
  {
    ExportUndoesImport(f.typ, depth);
  }

  lemma {:induction false} FieldsExportOfImport(fs: seq<Field>, depth: nat)
    requires ImportFields(fs, depth).Value?
    ensures ExportFields(ImportFields(fs, depth).value, depth) == Value(fs)
    decreases fs, 3
  {
    if fs != [] {
      var n := |fs| - 1;
      FieldsExportOfImport(fs[..n], depth);
      FieldExportOfImport(fs[n], depth);
      var front, last := ImportFields(fs[..n], depth).value, ImportField(fs[n], depth).value;
      assert (front + [last])[..|front|] == front;
      assert fs == fs[..n] + [fs[n]];
    }
  }

  // ---------- what import accepts, exactly ----------

  /** The conversion import performs, without its depth bound. */
  function Converted(d: Desc): Type
    decreases d, 1
  {
    Type(d.kind, AttrsOfData(d.attrs), ConvertedOpt(d.elem), ConvertedOpt(d.key), ConvertedOpt(d.value),
         ConvertedFields(d.fields), ConvertedList(d.params), ConvertedList(d.results))
  }

  function ConvertedOpt(o: Option<Desc>): Option<Type>
    decreases o, 2
  {
    if o.None? then None else Some(Converted(o.value))
  }

  function ConvertedList(ds: seq<Desc>): seq<Type>
    decreases ds, 2
  {
    if ds == [] then [] else ConvertedList(ds[..|ds| - 1]) + [Converted(ds[|ds| - 1])]
  }

  function ConvertedField(f: Field): TypeField
    decreases f, 2
  {
    TypeField(f.text, Converted(f.typ))
  }

  function ConvertedFields(fs: seq<Field>): seq<TypeField>
    decreases fs, 3
  {
    if fs == [] then [] else ConvertedFields(fs[..|fs| - 1]) + [ConvertedField(fs[|fs| - 1])]
  }

  /** Plain import panics exactly on trees that reach the depth bound, and otherwise converts node by node. */
  lemma {:induction false} ImportExact(d: Desc, depth: nat)
    ensures ImportAt(d, depth) == if depth + Height(d) < MAX_CODEC_DEPTH then Value(Converted(d)) else Panic
    decreases d, 1
  {
    if depth < MAX_CODEC_DEPTH {
      OptImportExact(d.elem, depth);
      OptImportExact(d.key, depth);
      OptImportExact(d.value, depth);
      FieldsImportExact(d.fields, depth);
      ListImportExact(d.params, depth);
      ListImportExact(d.results, depth);
    }
  }

  lemma {:induction false} OptImportExact(o: Option<Desc>, depth: nat)
    requires depth < MAX_CODEC_DEPTH
    ensures ImportOpt(o, depth + 1) == if depth + OptHeight(o) < MAX_CODEC_DEPTH then Value(ConvertedOpt(o)) else Panic
    decreases o, 2
  {
    if o.Some? {
      ImportExact(o.value, depth + 1);
    }
  }

  lemma {:induction false} ListImportExact(ds: seq<Desc>, depth: nat)
    requires depth < MAX_CODEC_DEPTH
    ensures ImportList(ds, depth + 1) == if depth + ListHeight(ds) < MAX_CODEC_DEPTH then Value(ConvertedList(ds)) else Panic
    decreases ds, 2
  {
    if ds != [] {
      var n := |ds| - 1;
      ListImportExact(ds[..n], depth);
      ImportExact(ds[n], depth + 1);
      ListHeightAppend(ds[..n], ds[n]);
      assert ds[..n] + [ds[n]] == ds;
    }
  }

  lemma {:induction false} FieldImportExact(f: Field, depth: nat)
    requires depth < MAX_CODEC_DEPTH
    ensures ImportField(f, depth + 1) == if depth + FieldHeight(f) < MAX_CODEC_DEPTH then Value(ConvertedField(f)) else Panic
    decreases f, 2
  {
    ImportExact(f.typ, depth + 1);
  }

  lemma {:induction false} FieldsImportExact(fs: seq<Field>, depth: nat)
    requires depth < MAX_CODEC_DEPTH
    ensures ImportFields(fs, depth + 1) == if depth + FieldsHeight(fs) < MAX_CODEC_DEPTH then Value(ConvertedFields(fs)) else Panic
    decreases fs, 3
  {
    if fs != [] {
      var n := |fs| - 1;
      FieldsImportExact(fs[..n], depth);
      FieldImportExact(fs[n], depth);
      FieldsHeightAppend(fs[..n], fs[n]);
      assert fs[..n] + [fs[n]] == fs;
    }
  }

  // ---------- what the conversions copy ----------

  /** The descriptor holds what the data holds, field by field and child by child. */
  ghost predicate Copies(d: Desc, t: Type)
    decreases d, 1
  {
    && t.kind == d.kind && t.attrs.basicKind == d.attrs.basicKind && t.attrs.length == d.attrs.length && t.attrs.dir == d.attrs.dir
    && t.attrs.isVariadic == d.attrs.isVariadic && t.attrs.packagePath == d.attrs.packagePath && t.attrs.name == d.attrs.name
    && CopiesOpt(d.elem, t.element) && CopiesOpt(d.key, t.key) && CopiesOpt(d.value, t.value)
    && CopiesFields(d.fields, t.fields) && CopiesList(d.params, t.params) && CopiesList(d.results, t.results)
  }

  ghost predicate CopiesOpt(d: Option<Desc>, t: Option<Type>)
    decreases d, 2
  {
    if d.None? then t.None? else t.Some? && Copies(d.value, t.value)
  }

  ghost predicate CopiesList(ds: seq<Desc>, ts: seq<Type>)
    decreases ds, 2
  {
    |ts| == |ds| && forall i :: 0 <= i < |ds| ==> Copies(ds[i], ts[i])
  }

  ghost predicate CopiesField(f: Field, t: TypeField)
    decreases f, 2
  {
    t.text.name == f.text.name && t.text.tag == f.text.tag && t.text.packagePath == f.text.packagePath && Copies(f.typ, t.typ)
  }

  ghost predicate CopiesFields(fs: seq<Field>, ts: seq<TypeField>)
    decreases fs, 3
  {
    |ts| == |fs| && forall i :: 0 <= i < |fs| ==> CopiesField(fs[i], ts[i])
  }

  /** A number in 32 bits: itself if it fits, else the nearest that does. */
  ghost predicate Narrows(n: int, m: int) {
    if n > 2147483647 then m == 2147483647 else if n < -2147483648 then m == -2147483648 else m == n
  }

  /** The data holds what the descriptor holds, but for lengths and directions that do not fit. */
  ghost predicate Stores(t: Type, d: Desc)
    decreases t, 1
  {
    && d.kind == t.kind && d.attrs.basicKind == t.attrs.basicKind && Narrows(t.attrs.length, d.attrs.length) && Narrows(t.attrs.dir, d.attrs.dir)
    && d.attrs.isVariadic == t.attrs.isVariadic && d.attrs.packagePath == t.attrs.packagePath && d.attrs.name == t.attrs.name
    && StoresOpt(t.element, d.elem) && StoresOpt(t.key, d.key) && StoresOpt(t.value, d.value)
    && StoresFields(t.fields, d.fields) && StoresList(t.params, d.params) && StoresList(t.results, d.results)
  }

  ghost predicate StoresOpt(t: Option<Type>, d: Option<Desc>)
    decreases t, 2
  {
    if t.None? then d.None? else d.Some? && Stores(t.value, d.value)
  }

  ghost predicate StoresList(ts: seq<Type>, ds: seq<Desc>)
    decreases ts, 2
  {
    |ds| == |ts| && forall i :: 0 <= i < |ts| ==> Stores(ts[i], ds[i])
  }

  ghost predicate StoresField(t: TypeField, f: Field)
    decreases t, 2
  {
    f.text.name == t.text.name && f.text.tag == t.text.tag && f.text.packagePath == t.text.packagePath && Stores(t.typ, f.typ)
  }

  ghost predicate StoresFields(ts: seq<TypeField>, fs: seq<Field>)
    decreases ts, 3
  {
    |fs| == |ts| && forall i :: 0 <= i < |ts| ==> StoresField(ts[i], fs[i])
  }

  lemma {:induction false} ConvertedCopies(d: Desc)
    ensures Copies(d, Converted(d))
    decreases d, 1
  {
    ConvertedCopiesOpt(d.elem);
    ConvertedCopiesOpt(d.key);
    ConvertedCopiesOpt(d.value);
    ConvertedCopiesFields(d.fields);
    ConvertedCopiesList(d.params);
    ConvertedCopiesList(d.results);
  }

  lemma {:induction false} ConvertedCopiesOpt(o: Option<Desc>)
    ensures CopiesOpt(o, ConvertedOpt(o))
    decreases o, 2
  {
    if o.Some? {
      ConvertedCopies(o.value);
    }
  }

  lemma {:induction false} ConvertedCopiesList(ds: seq<Desc>)
    ensures CopiesList(ds, ConvertedList(ds))
    decreases ds, 2
  {
    hide Copies, Converted;
    if ds != [] {
      ConvertedCopiesList(ds[..|ds| - 1]);
      ConvertedCopies(ds[|ds| - 1]);
    }
  }

  lemma {:induction false} ConvertedCopiesField(f: Field)
    ensures CopiesField(f, ConvertedField(f))
    decreases f, 2
  {
    ConvertedCopies(f.typ);
  }

  lemma {:induction false} ConvertedCopiesFields(fs: seq<Field>)
    ensures CopiesFields(fs, ConvertedFields(fs))
    decreases fs, 3
  {
    hide CopiesField, ConvertedField;
    if fs != [] {
      ConvertedCopiesFields(fs[..|fs| - 1]);
      ConvertedCopiesField(fs[|fs| - 1]);
    }
  }

  /** Import copies: kind, attributes, children and field texts are where they were. */
  lemma ImportCopies(d: Desc, depth: nat)
    requires ImportAt(d, depth).Value?
    ensures Copies(d, ImportAt(d, depth).value)
  {
    hide Copies, Converted, ImportAt;
    ImportExact(d, depth);
    ConvertedCopies(d);
  }

  /** Export copies, clamps lengths and directions to 32 bits, and panics exactly on trees that reach the depth bound. */
  lemma {:induction false} ExportExact(t: Type, d: Desc, depth: nat)
    requires Stores(t, d)
    ensures ExportAt(t, depth) == if depth + Height(d) < 1024 then Value(d) else Panic
    decreases t, 1
  {
    if depth < MAX_CODEC_DEPTH {
      ExportExactOpt(t.element, d.elem, depth);
      ExportExactOpt(t.key, d.key, depth);
      ExportExactOpt(t.value, d.value, depth);
      ExportExactFields(t.fields, d.fields, depth);
      ExportExactList(t.params, d.params, depth);
      ExportExactList(t.results, d.results, depth);
    }
  }

  lemma {:induction false} ExportExactOpt(t: Option<Type>, d: Option<Desc>, depth: nat)
    requires StoresOpt(t, d) && depth < MAX_CODEC_DEPTH
    ensures ExportOpt(t, depth + 1) == if depth + OptHeight(d) < MAX_CODEC_DEPTH then Value(d) else Panic
    decreases t, 2
  {
    if t.Some? {
      ExportExact(t.value, d.value, depth + 1);
    }
  }

  lemma {:induction false} ExportExactList(ts: seq<Type>, ds: seq<Desc>, depth: nat)
    requires StoresList(ts, ds) && depth < MAX_CODEC_DEPTH
    ensures ExportList(ts, depth + 1) == if depth + ListHeight(ds) < MAX_CODEC_DEPTH then Value(ds) else Panic
    decreases ts, 2
  {
    hide Stores, ExportAt, Height;
    if ts != [] {
      var n := |ts| - 1;
      ExportExactList(ts[..n], ds[..n], depth);
      ExportExact(ts[n], ds[n], depth + 1);
      ListHeightAppend(ds[..n], ds[n]);
      assert ds[..n] + [ds[n]] == ds;
    }
  }

  lemma {:induction false} ExportExactField(t: TypeField, f: Field, depth: nat)
    requires StoresField(t, f) && depth < MAX_CODEC_DEPTH
    ensures ExportField(t, depth + 1) == if depth + FieldHeight(f) < MAX_CODEC_DEPTH then Value(f) else Panic
    decreases t, 2
  {
    ExportExact(t.typ, f.typ, depth + 1);
  }

  lemma {:induction false} ExportExactFields(ts: seq<TypeField>, fs: seq<Field>, depth: nat)
    requires StoresFields(ts, fs) && depth < MAX_CODEC_DEPTH
    ensures ExportFields(ts, depth + 1) == if depth + FieldsHeight(fs) < MAX_CODEC_DEPTH then Value(fs) else Panic
    decreases ts, 3
  {
    hide StoresField, ExportField, FieldHeight;
    if ts != [] {
      var n := |ts| - 1;
      ExportExactFields(ts[..n], fs[..n], depth);
      ExportExactField(ts[n], fs[n], depth);
      FieldsHeightAppend(fs[..n], fs[n]);
      assert fs[..n] + [fs[n]] == fs;
    }
  }

  /** Every descriptor can be held by data. */
  lemma {:induction false} Storing(t: Type) returns (d: Desc)
    ensures Stores(t, d)
    decreases t, 1
  {
    var elem := StoringOpt(t.element);
    var key := StoringOpt(t.key);
    var value := StoringOpt(t.value);
    var fields := StoringFields(t.fields);
    var params := StoringList(t.params);
    var results := StoringList(t.results);
    var a := t.attrs;
    d := Desc(t.kind, Attrs(a.basicKind, Nearest(a.length), Nearest(a.dir), a.isVariadic, a.packagePath, a.name), elem, key, value, fields, params, results);
  }

  function Nearest(n: int): (m: int32)
    ensures Narrows(n, m)
  {
    if n > 2147483647 then 2147483647 else if n < -2147483648 then -2147483648 else n
  }

  lemma {:induction false} StoringOpt(t: Option<Type>) returns (d: Option<Desc>)
    ensures StoresOpt(t, d)
    decreases t, 2
  {
    d := None;
    if t.Some? {
      var e := Storing(t.value);
      d := Some(e);
    }
  }

  lemma {:induction false} StoringList(ts: seq<Type>) returns (ds: seq<Desc>)
    ensures StoresList(ts, ds)
    decreases ts, 2
  {
    ds := [];
    if ts != [] {
      var front := StoringList(ts[..|ts| - 1]);
      var last := Storing(ts[|ts| - 1]);
      ds := front + [last];
    }
  }

  lemma {:induction false} StoringField(t: TypeField) returns (f: Field)
    ensures StoresField(t, f)
    decreases t, 2
  {
    var d := Storing(t.typ);
    f := Field(t.text, d);
  }

  lemma {:induction false} StoringFields(ts: seq<TypeField>) returns (fs: seq<Field>)
    ensures StoresFields(ts, fs)
    decreases ts, 3
  {
    fs := [];
    if ts != [] {
      var front := StoringFields(ts[..|ts| - 1]);
      var last := StoringField(ts[|ts| - 1]);
      fs := front + [last];
    }
  }

  /** What export produces. */
  lemma ExportStores(t: Type, depth: nat)
    requires ExportAt(t, depth).Value?
    ensures Stores(t, ExportAt(t, depth).value)
  {
    hide ExportAt, Stores;
    var d := Storing(t);
    ExportExact(t, d, depth);
  }

  // ---------- the pointer memo ----------

  /** No unfolding of the pointer is one plain import would accept at this depth. */
  ghost predicate Refuses(g: Graph, o: Offset, depth: nat) {
    forall d :: Unfolds(g, o, d) ==> ImportAt(d, depth).Panic?
  }

  lemma RefusesUp(g: Graph, o: Offset, next: Offset, depth: nat)
    requires o in g && Refers(g[o], next) && Refuses(g, next, depth + 1)
    ensures Refuses(g, o, depth)
  {
    forall d | Unfolds(g, o, d) ensures ImportAt(d, depth).Panic? {
      var e := StepDescends(g, o, d, next);
      ImportExact(e, depth + 1);
      ImportExact(d, depth);
    }
  }

  lemma RefusesDeep(g: Graph, o: Offset, depth: nat)
    requires depth >= MAX_CODEC_DEPTH
    ensures Refuses(g, o, depth)
  {
  }

  /** Decoded descriptor data as a pointer graph: kinds are unsigned, and a list slot is an element's own address. */
  ghost predicate DataGraph(g: Graph) {
    Closed(g) && AllSolid(g) && forall o :: o in g ==> 0 <= g[o].kind
  }

  function LevelsLeft(depth: nat): nat {
    if depth >= MAX_CODEC_DEPTH then 0 else MAX_CODEC_DEPTH - depth
  }

  lemma CellImported(g: Graph, o: Offset, d: Desc, t: Type)
    requires o in g && d.kind == g[o].kind && d.attrs == g[o].attrs
    requires UnfoldsOpt(g, g[o].elem, d.elem) && UnfoldsOpt(g, g[o].key, d.key) && UnfoldsOpt(g, g[o].value, d.value)
    requires UnfoldsFields(g, g[o].fields, d.fields)
    requires UnfoldsList(g, g[o].params, d.params) && UnfoldsList(g, g[o].results, d.results)
    requires t == Type(d.kind, AttrsOfData(d.attrs), ConvertedOpt(d.elem), ConvertedOpt(d.key), ConvertedOpt(d.value),
                       ConvertedFields(d.fields), ConvertedList(d.params), ConvertedList(d.results))
    ensures Imported(g, o, d, t)
  {
  }

  ghost predicate Imported(g: Graph, o: Offset, d: Desc, t: Type) {
    Unfolds(g, o, d) && t == Converted(d)
  }

  /** A memoised import is the one the plain recursion makes of the pointer's unfolding. */
  lemma ImportedEqualsPlain(g: Graph, o: Offset, d: Desc, t: Type, e: Desc, depth: nat)
    requires Imported(g, o, d, t) && Unfolds(g, o, e) && ImportAt(e, depth).Value?
    ensures ImportAt(e, depth) == Value(t)
  {
    UnfoldsUnique(g, o, d, e);
    ImportExact(e, depth);
  }

  // ---------- the memoised import, step by step ----------

  datatype Recalled<+T> = Recalled(outcome: Outcome<T>, memo: map<Offset, Type>)

  /** Import of one table, with the memo each child leaves to the next. */
  ghost function Recall(g: Graph, o: Offset, depth: nat, memo: map<Offset, Type>): Recalled<Type>
    decreases LevelsLeft(depth), 0
  {
    if depth >= MAX_CODEC_DEPTH || o !in g then Recalled(Panic, memo)
    else
      var c := g[o];
      var e := RecallChild(g, c.elem, depth + 1, memo);
      if e.outcome.Panic? then Recalled(Panic, e.memo) else
      var k := RecallChild(g, c.key, depth + 1, e.memo);
      if k.outcome.Panic? then Recalled(Panic, k.memo) else
      var v := RecallChild(g, c.value, depth + 1, k.memo);
      if v.outcome.Panic? then Recalled(Panic, v.memo) else
      var fs := RecallSlots(g, c.fields, depth + 1, v.memo);
      if fs.outcome.Panic? then Recalled(Panic, fs.memo) else
      var ps := RecallItems(g, c.params, depth + 1, fs.memo);
      if ps.outcome.Panic? then Recalled(Panic, ps.memo) else
      var rs := RecallItems(g, c.results, depth + 1, ps.memo);
      if rs.outcome.Panic? || c.kind < 0 then Recalled(Panic, rs.memo)
      else Recalled(Value(Type(c.kind, AttrsOfData(c.attrs), e.outcome.value, k.outcome.value, v.outcome.value,
                               fs.outcome.value, ps.outcome.value, rs.outcome.value)), rs.memo)
  }

  /** The memo is asked before the depth is looked at. */
  ghost function RecallPointer(g: Graph, o: Offset, depth: nat, memo: map<Offset, Type>): Recalled<Type>
    decreases LevelsLeft(depth), 1
  {
    if o in memo then Recalled(Value(memo[o]), memo)
    else
      var r := Recall(g, o, depth, memo);
      if r.outcome.Panic? then r else Recalled(r.outcome, r.memo[o := r.outcome.value])
  }

  ghost function RecallChild(g: Graph, c: Option<Offset>, depth: nat, memo: map<Offset, Type>): Recalled<Option<Type>>
    decreases LevelsLeft(depth), 2
  {
    if c.None? then Recalled(Value(None), memo)
    else
      var r := RecallPointer(g, c.value, depth, memo);
      Recalled(if r.outcome.Panic? then Panic else Value(Some(r.outcome.value)), r.memo)
  }

  ghost function RecallItems(g: Graph, rs: seq<Option<Offset>>, depth: nat, memo: map<Offset, Type>): Recalled<seq<Type>>
    decreases LevelsLeft(depth), 3, |rs|
  {
    if rs == [] then Recalled(Value([]), memo)
    else
      var n := |rs| - 1;
      var front := RecallItems(g, rs[..n], depth, memo);
      if front.outcome.Panic? || rs[n].None? then Recalled(Panic, front.memo)
      else
        var last := RecallPointer(g, rs[n].value, depth, front.memo);
        Recalled(if last.outcome.Panic? then Panic else Value(front.outcome.value + [last.outcome.value]), last.memo)
  }

  ghost function RecallSlots(g: Graph, ss: seq<Slot>, depth: nat, memo: map<Offset, Type>): Recalled<seq<TypeField>>
    decreases LevelsLeft(depth), 3, |ss|
  {
    if ss == [] then Recalled(Value([]), memo)
    else
      var n := |ss| - 1;
      var front := RecallSlots(g, ss[..n], depth, memo);
      if front.outcome.Panic? || ss[n].typ.None? then Recalled(Panic, front.memo)
      else
        var last := RecallPointer(g, ss[n].typ.value, depth, front.memo);
        Recalled(if last.outcome.Panic? then Panic else Value(front.outcome.value + [TypeField(ss[n].text, last.outcome.value)]), last.memo)
  }

  lemma NoLists(g: Graph, depth: nat, memo: map<Offset, Type>)
    ensures RecallItems(g, [], depth, memo) == Recalled(Value([]), memo) && RecallSlots(g, [], depth, memo) == Recalled(Value([]), memo)
  {
  }

  lemma SlotsSnoc(g: Graph, ss: seq<Slot>, i: nat, depth: nat, memo: map<Offset, Type>)
    requires i < |ss| && ss[i].typ.Some? && RecallSlots(g, ss[..i], depth, memo).outcome.Value?
    ensures var front := RecallSlots(g, ss[..i], depth, memo); var last := RecallPointer(g, ss[i].typ.value, depth, front.memo);
      RecallSlots(g, ss[..i + 1], depth, memo) ==
      Recalled(if last.outcome.Panic? then Panic else Value(front.outcome.value + [TypeField(ss[i].text, last.outcome.value)]), last.memo)
  {
    hide RecallPointer;
    assert ss[..i + 1][..i] == ss[..i];
  }

  lemma ItemsSnoc(g: Graph, rs: seq<Option<Offset>>, i: nat, depth: nat, memo: map<Offset, Type>)
    requires i < |rs| && rs[i].Some? && RecallItems(g, rs[..i], depth, memo).outcome.Value?
    ensures var front := RecallItems(g, rs[..i], depth, memo); var last := RecallPointer(g, rs[i].value, depth, front.memo);
      RecallItems(g, rs[..i + 1], depth, memo) ==
      Recalled(if last.outcome.Panic? then Panic else Value(front.outcome.value + [last.outcome.value]), last.memo)
  {
    hide RecallPointer;
    assert rs[..i + 1][..i] == rs[..i];
  }

  lemma ConvertedNone()
    ensures ConvertedFields([]) == [] && ConvertedList([]) == []
  {
  }

  lemma ConvertedListSnoc(ds: seq<Desc>, d: Desc)
    ensures ConvertedList(ds + [d]) == ConvertedList(ds) + [Converted(d)]
  {
    hide Converted;
    assert (ds + [d])[..|ds|] == ds;
  }

  lemma ImportedSlot(g: Graph, r: Option<Offset>, d: Desc, t: Type)
    requires r.Some? && Imported(g, r.value, d, t)
    ensures UnfoldsSlot(g, r, d) && t == Converted(d)
  {
  }

  lemma ConvertedSnoc(fs: seq<Field>, f: Field)
    ensures ConvertedFields(fs + [f]) == ConvertedFields(fs) + [TypeField(f.text, Converted(f.typ))]
  {
    hide Converted;
    assert (fs + [f])[..|fs|] == fs;
  }

  lemma {:induction false} ItemsPanicStays(g: Graph, rs: seq<Option<Offset>>, i: nat, depth: nat, memo: map<Offset, Type>)
    requires i <= |rs| && RecallItems(g, rs[..i], depth, memo).outcome.Panic?
    ensures RecallItems(g, rs, depth, memo) == RecallItems(g, rs[..i], depth, memo)
    decreases |rs| - i
  {
    if i == |rs| {
      assert rs[..i] == rs;
    } else {
      assert rs[..i + 1][..i] == rs[..i];
      ItemsPanicStays(g, rs, i + 1, depth, memo);
    }
  }

  lemma {:induction false} SlotsPanicStays(g: Graph, ss: seq<Slot>, i: nat, depth: nat, memo: map<Offset, Type>)
    requires i <= |ss| && RecallSlots(g, ss[..i], depth, memo).outcome.Panic?
    ensures RecallSlots(g, ss, depth, memo) == RecallSlots(g, ss[..i], depth, memo)
    decreases |ss| - i
  {
    if i == |ss| {
      assert ss[..i] == ss;
    } else {
      assert ss[..i + 1][..i] == ss[..i];
      SlotsPanicStays(g, ss, i + 1, depth, memo);
    }
  }

  /** Already-imported pointers of one descriptor graph. */
  class Importer {
    var memo: map<Offset, Type>
    ghost var trees: map<Offset, Desc>

    ghost predicate Valid(g: Graph)
      reads this
    {
      memo.Keys == trees.Keys && forall o :: o in memo ==> Imported(g, o, trees[o], memo[o])
    }

    constructor ()
      ensures memo == map[] && trees == map[]
    {
      memo, trees := map[], map[];
    }

    /** Imports the descriptor at o; `d` is the tree that was imported. */
    method ImportAtDepth(g: Graph, o: Offset, depth: nat) returns (r: Outcome<Type>, ghost d: Desc)
      requires DataGraph(g) && o in g && Valid(g)
      modifies this
      ensures Valid(g)
      ensures Recalled(r, memo) == Recall(g, o, depth, old(memo))
      ensures r.Value? ==> Imported(g, o, d, r.value)
      ensures r.Panic? ==> Refuses(g, o, depth)
      decreases LevelsLeft(depth), 0
    {
      hide Unfolds, UnfoldsList, UnfoldsFields, UnfoldsOpt, Converted, ConvertedList, ConvertedFields, ConvertedOpt, Refuses,
           RecallChild, RecallItems, RecallSlots;
      d := ZERO_DESC;
      if depth >= MAX_CODEC_DEPTH {
        RefusesDeep(g, o, depth);
        return Panic, d;
      }
      var c := g[o];
      var element, e := ImportChild(g, o, c.elem, depth);
      if element.Panic? { return Panic, d; }
      var key, k := ImportChild(g, o, c.key, depth);
      if key.Panic? { return Panic, d; }
      var value, v := ImportChild(g, o, c.value, depth);
      if value.Panic? { return Panic, d; }
      var fields, fs := ImportSlots(g, o, depth);
      if fields.Panic? { return Panic, d; }
      var params, ps := ImportItems(g, o, c.params, depth);
      if params.Panic? { return Panic, d; }
      var results, rs := ImportItems(g, o, c.results, depth);
      if results.Panic? { return Panic, d; }
      r := Value(Type(c.kind, AttrsOfData(c.attrs), element.value, key.value, value.value, fields.value, params.value, results.value));
      d := Desc(c.kind, c.attrs, e, k, v, fs, ps, rs);
      CellImported(g, o, d, r.value);
    }

    /** Imports a pointer, reusing what an earlier visit of the same pointer produced. */
    method ImportPointer(g: Graph, o: Offset, depth: nat) returns (r: Outcome<Type>, ghost d: Desc)
      requires DataGraph(g) && o in g && Valid(g)
      modifies this
      ensures Valid(g)
      ensures Recalled(r, memo) == RecallPointer(g, o, depth, old(memo))
      ensures r.Value? ==> Imported(g, o, d, r.value)
      ensures r.Panic? ==> Refuses(g, o, depth)
      decreases LevelsLeft(depth), 1
    {
      hide Recall;
      if o in memo {
        return Value(memo[o]), trees[o];
      }
      r, d := ImportAtDepth(g, o, depth);
      if r.Value? {
        memo, trees := memo[o := r.value], trees[o := d];
      }
    }

    /** Imports an optional child of o, one level below it. */
    method ImportChild(g: Graph, ghost o: Offset, c: Option<Offset>, depth: nat) returns (r: Outcome<Option<Type>>, ghost d: Option<Desc>)
      requires DataGraph(g) && o in g && Valid(g) && (c.Some? ==> Refers(g[o], c.value)) && depth < MAX_CODEC_DEPTH
      modifies this
      ensures Valid(g)
      ensures Recalled(r, memo) == RecallChild(g, c, depth + 1, old(memo))
      ensures r.Value? ==> UnfoldsOpt(g, c, d) && r.value == ConvertedOpt(d)
      ensures r.Panic? ==> Refuses(g, o, depth)
      decreases LevelsLeft(depth + 1), 2
    {
      if c.None? {
        return Value(None), None;
      }
      var t, e := ImportPointer(g, c.value, depth + 1);
      if t.Panic? {
        RefusesUp(g, o, c.value, depth);
        return Panic, None;
      }
      return Value(Some(t.value)), Some(e);
    }

    /** Imports the params or results of o. */
    method ImportItems(g: Graph, ghost o: Offset, rs: seq<Option<Offset>>, depth: nat) returns (r: Outcome<seq<Type>>, ghost ds: seq<Desc>)
      requires DataGraph(g) && o in g && Valid(g) && (rs == g[o].params || rs == g[o].results) && depth < MAX_CODEC_DEPTH
      modifies this
      ensures Valid(g)
      ensures Recalled(r, memo) == RecallItems(g, rs, depth + 1, old(memo))
      ensures r.Value? ==> UnfoldsList(g, rs, ds) && r.value == ConvertedList(ds)
      ensures r.Panic? ==> Refuses(g, o, depth)
      decreases LevelsLeft(depth + 1), 2
    {
      hide Unfolds, Converted, ConvertedList, Refuses, RecallPointer, RecallItems, Imported;
      NoLists(g, depth + 1, memo);
      ConvertedNone();
      ds := [];
      var out: seq<Type> := [];
      for i := 0 to |rs|
        invariant Valid(g) && |ds| == i
        invariant forall j :: 0 <= j < i ==> UnfoldsSlot(g, rs[j], ds[j])
        invariant out == ConvertedList(ds) && Recalled(Value(out), memo) == RecallItems(g, rs[..i], depth + 1, old(memo))
      {
        assert rs[i] in rs && Refers(g[o], rs[i].value);
        ItemsSnoc(g, rs, i, depth + 1, old(memo));
        var t, e := ImportPointer(g, rs[i].value, depth + 1);
        if t.Panic? {
          ItemsPanicStays(g, rs, i + 1, depth + 1, old(memo));
          RefusesUp(g, o, rs[i].value, depth);
          return Panic, ds;
        }
        ImportedSlot(g, rs[i], e, t.value);
        ConvertedListSnoc(ds, e);
        out, ds := out + [t.value], ds + [e];
      }
      assert rs[..|rs|] == rs;
      return Value(out), ds;
    }

    /** Imports the fields of o. */
    method ImportSlots(g: Graph, o: Offset, depth: nat) returns (r: Outcome<seq<TypeField>>, ghost fs: seq<Field>)
      requires DataGraph(g) && o in g && Valid(g) && depth < MAX_CODEC_DEPTH
      modifies this
      ensures Valid(g)
      ensures Recalled(r, memo) == RecallSlots(g, g[o].fields, depth + 1, old(memo))
      ensures r.Value? ==> UnfoldsFields(g, g[o].fields, fs) && r.value == ConvertedFields(fs)
      ensures r.Panic? ==> Refuses(g, o, depth)
      decreases LevelsLeft(depth + 1), 2
    {
      hide Unfolds, Converted, ConvertedFields, Refuses, RecallPointer, RecallSlots;
      NoLists(g, depth + 1, memo);
      ConvertedNone();
      fs := [];
      var ss := g[o].fields;
      var out: seq<TypeField> := [];
      for i := 0 to |ss|
        invariant Valid(g) && |fs| == i
        invariant forall j :: 0 <= j < i ==> UnfoldsField(g, ss[j], fs[j])
        invariant out == ConvertedFields(fs) && Recalled(Value(out), memo) == RecallSlots(g, ss[..i], depth + 1, old(memo))
      {
        assert ss[i].typ.Some? && Refers(g[o], ss[i].typ.value);
        SlotsSnoc(g, ss, i, depth + 1, old(memo));
        var t, e := ImportPointer(g, ss[i].typ.value, depth + 1);
        if t.Panic? {
          SlotsPanicStays(g, ss, i + 1, depth + 1, old(memo));
          RefusesUp(g, o, ss[i].typ.value, depth);
          return Panic, fs;
        }
        ghost var f := Field(ss[i].text, e);
        assert UnfoldsSlot(g, ss[i].typ, e);
        assert UnfoldsField(g, ss[i], f);
        ConvertedSnoc(fs, f);
        out, fs := out + [TypeField(ss[i].text, t.value)], fs + [f];
      }
      assert ss[..|ss|] == ss;
      return Value(out), fs;
    }
  }

  /** Imports a descriptor with a memo of its own: the plain recursion's result on every tree below the depth bound. */
  method ImportTypeDescriptor(g: Graph, o: Offset) returns (r: Outcome<Type>)
    requires DataGraph(g) && o in g
    ensures r == Recall(g, o, 0, map[]).outcome
    ensures forall d :: Unfolds(g, o, d) && Height(d) < MAX_CODEC_DEPTH ==> r == ImportAt(d, 0)
    ensures forall d :: Unfolds(g, o, d) && r.Value? ==> r.value == Converted(d) && Copies(d, r.value)
  {
    hide Recall, DataGraph, Height, ImportAt, Converted, Copies;
    var importer := new Importer();
    ghost var e;
    r, e := importer.ImportAtDepth(g, o, 0);
    forall d | Unfolds(g, o, d)
      ensures Height(d) < MAX_CODEC_DEPTH ==> r == ImportAt(d, 0)
      ensures r.Value? ==> r.value == Converted(d) && Copies(d, r.value)
    {
      ImportExact(d, 0);
      ConvertedCopies(d);
      if r.Value? {
        UnfoldsUnique(g, o, d, e);
      }
    }
  }

  // ---------- where the memo outlasts the plain recursion ----------

  function Rung(elem: Option<Offset>, key: Option<Offset>): Cell {
    Cell(0, ZERO_DESC.attrs, elem, key, None, [], [], [])
  }

  function RungAt(o: Offset, top: nat): Cell {
    if o == 0 then Rung(Some(1), Some(top + 1))
    else if o == top + 1 then Rung(Some(1), None)
    else if o == top then Rung(None, None)
    else Rung(Some(o + 1), None)
  }

  /** Tables 1 to `top` are a chain; table `top` + 1 and the root 0 both lead to its head. */
  function Ladder(n: nat, top: nat): Graph {
    if n == 0 then map[] else Ladder(n - 1, top)[n - 1 := RungAt(n - 1, top)]
  }

  lemma {:induction false} LadderAt(n: nat, top: nat)
    ensures forall o: Offset :: o in Ladder(n, top) <==> o < n
    ensures forall o: Offset :: o in Ladder(n, top) ==> Ladder(n, top)[o] == RungAt(o, top)
  {
    if n > 0 {
      LadderAt(n - 1, top);
    }
  }

  /** Every table from 0 to `top` + 1, and nothing else. */
  ghost predicate IsLadder(g: Graph, top: nat) {
    top >= 2 && (forall o: Offset :: o in g <==> o <= top + 1) && forall o: Offset :: o in g ==> g[o] == RungAt(o, top)
  }

  function Link(elem: Option<Desc>, key: Option<Desc>): Desc {
    Desc(0, ZERO_DESC.attrs, elem, key, None, [], [], [])
  }

  function Chain(o: Offset, top: nat): Desc
    requires 1 <= o <= top
    decreases top - o
  {
    if o == top then Link(None, None) else Link(Some(Chain(o + 1, top)), None)
  }

  lemma {:induction false} ChainUnfolds(g: Graph, o: Offset, top: nat)
    requires IsLadder(g, top) && 1 <= o <= top
    ensures Unfolds(g, o, Chain(o, top)) && Height(Chain(o, top)) == top - o
    decreases top - o
  {
    assert g[o] == RungAt(o, top);
    if o < top {
      ChainUnfolds(g, o + 1, top);
    }
  }

  /** A table whose pointer children are recalled is recalled. */
  lemma RungRecalled(g: Graph, o: Offset, depth: nat, memo: map<Offset, Type>, elem: Option<Offset>, key: Option<Offset>)
    requires o in g && g[o] == Rung(elem, key) && depth < MAX_CODEC_DEPTH
    requires elem.Some? ==> RecallPointer(g, elem.value, depth + 1, memo).outcome.Value?
    requires key.Some? ==> RecallPointer(g, key.value, depth + 1, RecallChild(g, elem, depth + 1, memo).memo).outcome.Value?
    ensures Recall(g, o, depth, memo).outcome.Value?
  {
    hide RecallPointer;
    var left := RecallChild(g, elem, depth + 1, memo).memo;
    NoLists(g, depth + 1, RecallChild(g, key, depth + 1, left).memo);
    hide RecallItems, RecallSlots;
  }

  lemma RecalledIsHeld(g: Graph, o: Offset, depth: nat, memo: map<Offset, Type>)
    requires Recall(g, o, depth, memo).outcome.Value?
    ensures var r := RecallPointer(g, o, depth, memo); r.outcome.Value? && o in r.memo
  {
    hide Recall;
  }

  /** Along the chain the depth never runs out, whatever the memo holds. */
  lemma {:induction false} ChainRecalled(g: Graph, o: Offset, top: nat, memo: map<Offset, Type>)
    requires IsLadder(g, top) && 1 <= o <= top < MAX_CODEC_DEPTH
    ensures var r := RecallPointer(g, o, o, memo); r.outcome.Value? && o in r.memo
    decreases top - o
  {
    hide Recall, RecallPointer;
    assert g[o] == RungAt(o, top);
    if o < top {
      ChainRecalled(g, o + 1, top, memo);
      RungRecalled(g, o, o, memo, Some(o + 1), None);
    } else {
      RungRecalled(g, o, o, memo, None, None);
    }
    RecalledIsHeld(g, o, o, memo);
  }

  lemma LadderRecalled(g: Graph, top: nat)
    requires IsLadder(g, top) && top < MAX_CODEC_DEPTH
    ensures Recall(g, 0, 0, map[]).outcome.Value?
  {
    var none: map<Offset, Type> := map[];
    ChainRecalled(g, 1, top, none);
    hide Recall;
    var held := RecallPointer(g, 1, 1, none).memo;
    assert RecallPointer(g, 1, 2, held).outcome.Value?;
    hide RecallPointer;
    assert g[0] == RungAt(0, top) && g[top + 1] == RungAt(top + 1, top);
    RungRecalled(g, top + 1, 1, held, Some(1), None);
    RecalledIsHeld(g, top + 1, 1, held);
    RungRecalled(g, 0, 0, none, Some(1), Some(top + 1));
  }

  lemma LadderUnfolds(g: Graph, top: nat) returns (d: Desc)
    requires IsLadder(g, top)
    ensures Unfolds(g, 0, d) && Height(d) == top + 1
  {
    var side := Link(Some(Chain(1, top)), None);
    ChainUnfolds(g, 1, top);
    hide Chain;
    assert g[0] == RungAt(0, top) && g[top + 1] == RungAt(top + 1, top);
    assert Unfolds(g, top + 1, side) && Height(side) == top;
    d := Link(Some(Chain(1, top)), Some(side));
  }

  lemma LadderIsData(g: Graph, top: nat)
    requires IsLadder(g, top)
    ensures DataGraph(g)
  {
    forall a: Offset, b: Offset | a in g && Refers(g[a], b) ensures b in g {
      assert g[a] == RungAt(a, top);
    }
    forall o | o in g ensures Solid(g[o]) && 0 <= g[o].kind {
      assert g[o] == RungAt(o, top);
    }
  }

  /** A graph whose second way to a chain is one level deeper than plain import allows, but the memo answers it. */
  lemma MemoOutlastsPlain(top: nat) returns (g: Graph, d: Desc)
    requires top + 1 == MAX_CODEC_DEPTH
    ensures DataGraph(g) && 0 in g && Unfolds(g, 0, d)
    ensures Recall(g, 0, 0, map[]).outcome.Value? && ImportAt(d, 0).Panic?
  {
    g := Ladder(top + 2, top);
    LadderAt(top + 2, top);
    hide Ladder, Unfolds, Recall, ImportAt, DataGraph;
    assert IsLadder(g, top);
    hide IsLadder;
    LadderIsData(g, top);
    LadderRecalled(g, top);
    d := LadderUnfolds(g, top);
    ImportExact(d, 0);
  }
}

/** What a submission may change: redeclarations are found, compilation only adds, and rollback undoes all but leftovers. */
module ReplHistory {
  import opened Wrappers
  import opened ReplModel
  import opened ReplLinking

  // ---------- redeclaration ----------

  ghost predicate Distinct(rs: seq<Record>) {
    forall i, j :: 0 <= i < j < |rs| ==> rs[i].name != rs[j].name
  }

  ghost predicate AllNew(names: map<Name, Kind>, rs: seq<Record>) {
    forall i :: 0 <= i < |rs| ==> rs[i].name !in names
  }

  /** The clash reported is the first one, and says where the name was declared. */
  ghost predicate IsFirstClash(names: map<Name, Kind>, rs: seq<Record>, i: nat, c: Clash) {
    && i < |rs| && rs[i].name == c.name && Distinct(rs[..i]) && AllNew(names, rs[..i])
    && (c.InSession? ==> c.name in names && names[c.name] == c.kind)
    && (c.InSubmission? ==> c.name !in names && exists j :: 0 <= j < i && rs[j].name == c.name)
  }

  lemma {:induction false} FirstClashExact(names: map<Name, Kind>, rs: seq<Record>)
    ensures FirstClash(names, rs).None? <==> Distinct(rs) && AllNew(names, rs)
    ensures FirstClash(names, rs).Some? ==> exists i: nat :: IsFirstClash(names, rs, i, FirstClash(names, rs).value)
  {
    if rs != [] {
      var n := |rs| - 1;
      FirstClashExact(names, rs[..n]);
      assert forall i :: 0 <= i < n ==> rs[..n][i] == rs[i];
      var front := FirstClash(names, rs[..n]);
      if front.Some? {
        var i: nat :| IsFirstClash(names, rs[..n], i, front.value);
        assert rs[..n][..i] == rs[..i];
        assert IsFirstClash(names, rs, i, front.value);
      } else if FirstClash(names, rs).Some? {
        assert IsFirstClash(names, rs, n, FirstClash(names, rs).value);
      }
    }
  }

  // ---------- compilation only adds ----------

  /** Everything but the tables that compilation fills is the same; functions were only appended, and so were instances of functions in the table. */
  ghost predicate Grown(lang: Language, m: Meta, r: Meta) {
    && Adds(lang, r.table.Keys, PoolOf(m), PoolOf(r)) && m.table.Keys <= r.table.Keys
    && r.imports == m.imports && r.importOrder == m.importOrder && r.records == m.records && r.names == m.names
    && r.submits == m.submits && r.compiledDecls == m.compiledDecls
  }

  /** No bank has fewer variables. */
  ghost predicate SlotsGrow(a: Counters, b: Counters) {
    forall bank :: Count(a, bank) <= Count(b, bank)
  }

  lemma {:induction false} RegisterNamesGrows(m: Meta, named: seq<Named>, bank: Name -> Bank)
    ensures var r := RegisterNames(m, named, bank); r == m.(globals := r.globals, slots := r.slots) && SlotsGrow(m.slots, r.slots)
  {
    if named != [] {
      RegisterNamesGrows(m, named[..|named| - 1], bank);
    }
  }

  lemma {:induction false} RegisterVarsGrows(m: Meta, ds: seq<Decl>, bank: Name -> Bank)
    ensures var r := RegisterVars(m, ds, bank); r == m.(globals := r.globals, slots := r.slots) && SlotsGrow(m.slots, r.slots)
  {
    if ds != [] {
      var n := |ds| - 1;
      RegisterVarsGrows(m, ds[..n], bank);
      if ds[n].General? {
        RegisterNamesGrows(RegisterVars(m, ds[..n], bank), ds[n].named, bank);
      }
    }
  }

  /** What compiling functions does to a session. */
  ghost predicate Filled(lang: Language, m: Meta, r: Meta) {
    && r == m.(functions := r.functions, specs := r.specs, table := r.table, methods := r.methods)
    && m.table.Keys <= r.table.Keys && Adds(lang, r.table.Keys, PoolOf(m), PoolOf(r))
  }

  lemma FilledNone(lang: Language, m: Meta)
    ensures Filled(lang, m, m)
  {
    AddsNone(lang, m.table.Keys, PoolOf(m));
  }

  lemma WiderAdds(lang: Language, keys: set<Key>, wider: set<Key>, x: Pool, r: Pool)
    requires Adds(lang, keys, x, r) && keys <= wider
    ensures Adds(lang, wider, x, r)
  {
  }

  lemma FilledTwice(lang: Language, m: Meta, x: Meta, r: Meta)
    requires Filled(lang, m, x) && Filled(lang, x, r)
    ensures Filled(lang, m, r)
  {
    hide Adds;
    WiderAdds(lang, x.table.Keys, r.table.Keys, PoolOf(m), PoolOf(x));
    AddsTwice(lang, r.table.Keys, PoolOf(m), PoolOf(x), PoolOf(r));
  }

  lemma OneFills(lang: Language, c: Compiled, d: Decl, b: Body)
    ensures Filled(lang, c.meta, CompileOne(lang, c, d, b).meta)
  {
    hide Adds, CompileBody;
    FilledNone(lang, c.meta);
    if c.stop == Going && !d.General? {
      var m := if d.Init? then c.meta else Enter(c.meta, d);
      BodyAdds(lang, Context(m.globals, m.table), PoolOf(m), b);
    }
  }

  lemma {:induction false} FuncsFill(lang: Language, m: Meta, ds: seq<Decl>, bodies: nat -> Body)
    ensures Filled(lang, m, CompileFuncs(lang, m, ds, bodies).meta)
  {
    hide Filled, CompileOne;
    if ds == [] {
      FilledNone(lang, m);
    } else {
      var n := |ds| - 1;
      FuncsFill(lang, m, ds[..n], bodies);
      OneFills(lang, CompileFuncs(lang, m, ds[..n], bodies), ds[n], bodies(n));
      FilledTwice(lang, m, CompileFuncs(lang, m, ds[..n], bodies).meta, CompileFuncs(lang, m, ds, bodies).meta);
    }
  }

  lemma LooseFills(lang: Language, c: Compiled, b: Body)
    ensures Filled(lang, c.meta, CompileLoose(lang, c, b).meta) && CompileLoose(lang, c, b).inits == c.inits
    ensures CompileLoose(lang, c, b).meta.table == c.meta.table && CompileLoose(lang, c, b).meta.methods == c.meta.methods
  {
    hide Adds, CompileItems;
    FilledNone(lang, c.meta);
    ItemsAdd(lang, Context(c.meta.globals, c.meta.table), PoolOf(c.meta), b.items);
  }

  /** The session before its functions are compiled. */
  function Registered(m: Meta, ds: seq<Decl>, a: Attempt): Meta {
    RegisterVars(m.(compiledInits := m.compiledInits + InitTexts(ds)), ds, a.bank)
  }

  lemma RegisteredIs(m: Meta, ds: seq<Decl>, a: Attempt)
    ensures var r := Registered(m, ds, a);
      r == m.(compiledInits := m.compiledInits + InitTexts(ds), globals := r.globals, slots := r.slots) && SlotsGrow(m.slots, r.slots)
  {
    RegisterVarsGrows(m.(compiledInits := m.compiledInits + InitTexts(ds)), ds, a.bank);
  }

  lemma NewFills(lang: Language, m: Meta, ds: seq<Decl>, a: Attempt)
    ensures Filled(lang, Registered(m, ds, a), CompileNew(lang, m, ds, a).meta)
    ensures CompileNew(lang, m, ds, a).inits == CompileFuncs(lang, Registered(m, ds, a), ds, a.bodies).inits
  {
    hide Filled, CompileLoose, CompileFuncs, RegisterVars;
    var x := Registered(m, ds, a);
    var c := CompileFuncs(lang, x, ds, a.bodies);
    FuncsFill(lang, x, ds, a.bodies);
    var d := CompileLoose(lang, c, a.variableInit);
    LooseFills(lang, c, a.variableInit);
    LooseFills(lang, d, a.evaluation);
    FilledTwice(lang, x, c.meta, d.meta);
    FilledTwice(lang, x, d.meta, CompileNew(lang, m, ds, a).meta);
  }

  lemma CompileNewGrows(lang: Language, m: Meta, ds: seq<Decl>, a: Attempt)
    ensures Grown(lang, m, CompileNew(lang, m, ds, a).meta) && CompileNew(lang, m, ds, a).meta.executedInits == m.executedInits
    ensures SlotsGrow(m.slots, CompileNew(lang, m, ds, a).meta.slots)
  {
    hide CompileNew, Registered, Adds, SlotsGrow;
    NewFills(lang, m, ds, a);
    RegisteredIs(m, ds, a);
  }

  // ---------- rollback ----------

  /** Every instance is one of a function in the table. */
  ghost predicate Linked(m: Meta) {
    forall i :: i in m.specs ==> i.callee in m.table
  }

  /** The same entries, and these more. */
  ghost predicate More(a: map<Instance, nat>, b: map<Instance, nat>, made: set<Instance>) {
    b.Keys == a.Keys + made && a.Keys !! made && forall i :: i in a ==> b[i] == a[i]
  }

  /** New instances of functions that were there before. */
  function NewOf(a: map<Instance, nat>, b: map<Instance, nat>, table: map<Key, nat>): set<Instance> {
    set i | i in b && i !in a && i.callee in table
  }

  /** Rolling back undoes everything a compilation and a run may have done, except method entries, reserved slots and new instances of older functions. */
  lemma RestoreUndoes(lang: Language, m: Meta, r: Meta)
    requires Grown(lang, m, r) && Linked(m)
    ensures var specs := Restore(r, Snap(m)).specs;
      && Restore(r, Snap(m)) == m.(methods := r.methods, slots := r.slots, specs := specs)
      && More(m.specs, specs, NewOf(m.specs, r.specs, m.table))
  {
    hide StillThere;
    KeptThere(m.specs, r.specs, m.table);
  }

  lemma KeptThere(a: map<Instance, nat>, b: map<Instance, nat>, table: map<Key, nat>)
    requires forall i :: i in a ==> i in b && b[i] == a[i] && i.callee in table
    ensures More(a, StillThere(b, table), NewOf(a, b, table))
  {
  }

  /** The instances of older functions that a submission is the first to make, and leaves if it fails. */
  function Made(lang: Language, m: Meta, a: Attempt): set<Instance> {
    var outcome := Submit(lang, m, a).outcome;
    if outcome.Uncompiled? || outcome.Failed? || outcome.Done? then
      NewOf(m.specs, Compile(lang, m, a.source.value, a).meta.specs, m.table)
    else {}
  }

  /** What rolling back a compilation leaves. */
  ghost predicate LeftBy(m: Meta, r: Meta, c: Meta) {
    && r == m.(methods := c.methods, slots := c.slots, specs := r.specs) && SlotsGrow(m.slots, r.slots)
    && More(m.specs, r.specs, NewOf(m.specs, c.specs, m.table))
  }

  lemma CompilationLeaves(lang: Language, m: Meta, s: Submission, a: Attempt)
    requires Linked(m)
    ensures var c := Compile(lang, m, s, a);
      LeftBy(m, Restore(c.meta, Snap(m)), c.meta) && LeftBy(m, Restore(RunInits(c.meta, c.inits, a), Snap(m)), c.meta)
  {
    hide Grown, CompileNew, Snap, Restore, NewOf, Linked, More, SlotsGrow, RunInits, NewDecls, Candidates, Retained;
    var added := NewDecls(Retained(m.records) + s.decls, NamesOf(Candidates(s.decls)), m.compiledInits);
    CompileNewGrows(lang, m, added, a);
    var c := Compile(lang, m, s, a);
    RunGrows(lang, m, c, a);
    RestoreUndoes(lang, m, c.meta);
    RestoreUndoes(lang, m, RunInits(c.meta, c.inits, a));
  }

  /** What a failed submission leaves: the session as it was, up to method entries, reserved slots and the instances it made. */
  lemma FailureKeeps(lang: Language, m: Meta, a: Attempt)
    requires !Submit(lang, m, a).outcome.Done? && !Submit(lang, m, a).outcome.Crashed? && Linked(m)
    ensures var r := Submit(lang, m, a).meta; r == m.(methods := r.methods, slots := r.slots, specs := r.specs)
    ensures var r := Submit(lang, m, a).meta; SlotsGrow(m.slots, r.slots) && More(m.specs, r.specs, Made(lang, m, a))
  {
    hide Compile, Candidates, FirstClash, Combined, Snap, Restore, NewOf, Linked, RunInits, Commit, More, SlotsGrow, CandidateImports;
    NothingMore(m);
    if a.source.Some? {
      CompilationLeaves(lang, m, a.source.value, a);
    }
  }

  lemma NothingMore(m: Meta)
    ensures More(m.specs, m.specs, {}) && SlotsGrow(m.slots, m.slots)
  {
  }

  lemma RunGrows(lang: Language, m: Meta, c: Compiled, a: Attempt)
    requires Grown(lang, m, c.meta)
    ensures Grown(lang, m, RunInits(c.meta, c.inits, a))
    ensures var r := RunInits(c.meta, c.inits, a); r == c.meta.(executedInits := r.executedInits)
  {
    hide Adds;
  }
}

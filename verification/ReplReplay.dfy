/** A history and the replay of its successes: exactly when failures leave no trace, and exactly when every success succeeds again. */
module ReplReplay {
  import opened Wrappers
  import opened ReplModel
  import opened ReplLinking
  import opened ReplHistory
  import opened ReplInvariant
  import opened ReplBuild

  // ---------- alike sessions ----------

  /** The same variables in the same banks. */
  ghost predicate SameBanks(a: Globals, b: Globals) {
    a.Keys == b.Keys && forall x :: x in a ==> a[x].bank == b[x].bank
  }

  /** Equal in everything but method entries, slot numbers, instances and code, which may embed them; the functions are as many. */
  ghost predicate Alike(m: Meta, n: Meta) {
    && m == n.(methods := m.methods, slots := m.slots, globals := m.globals, functions := m.functions, specs := m.specs)
    && |m.functions| == |n.functions| && SameBanks(m.globals, n.globals)
  }

  /** Alike, and with the same instances up to stale ones. */
  ghost predicate Level(m: Meta, n: Meta, stale: set<Instance>) {
    Alike(m, n) && Beside(PoolOf(m), PoolOf(n), stale)
  }

  lemma {:induction false} RegisterNamesAlike(m: Meta, n: Meta, named: seq<Named>, bank: Name -> Bank)
    requires Alike(m, n)
    ensures Alike(RegisterNames(m, named, bank), RegisterNames(n, named, bank))
  {
    if named != [] {
      RegisterNamesAlike(m, n, named[..|named| - 1], bank);
    }
  }

  lemma {:induction false} RegisterVarsAlike(m: Meta, n: Meta, ds: seq<Decl>, bank: Name -> Bank)
    requires Alike(m, n)
    ensures Alike(RegisterVars(m, ds, bank), RegisterVars(n, ds, bank))
  {
    hide Alike;
    if ds != [] {
      var k := |ds| - 1;
      RegisterVarsAlike(m, n, ds[..k], bank);
      if ds[k].General? {
        RegisterNamesAlike(RegisterVars(m, ds[..k], bank), RegisterVars(n, ds[..k], bank), ds[k].named, bank);
      }
    }
  }

  lemma RegisteredLevel(m: Meta, n: Meta, ds: seq<Decl>, a: Attempt, stale: set<Instance>)
    requires Level(m, n, stale)
    ensures Level(Registered(m, ds, a), Registered(n, ds, a), stale)
  {
    hide Beside, RegisterVars;
    var texts := m.compiledInits + InitTexts(ds);
    RegisterVarsAlike(m.(compiledInits := texts), n.(compiledInits := texts), ds, a.bank);
    RegisteredIs(m, ds, a);
    RegisteredIs(n, ds, a);
  }

  /** The two compilations are level, and made the same code if they started from the same. */
  ghost predicate LevelCourse(same: bool, c: Compiled, d: Compiled, r: Compiled, q: Compiled, stale: set<Instance>) {
    && Level(r.meta, q.meta, stale) && r.stop == q.stop && (c.inits == d.inits ==> r.inits == q.inits)
    && (same && c.meta.functions == d.meta.functions ==> r.meta.functions == q.meta.functions)
    && r.meta.globals == c.meta.globals && q.meta.globals == d.meta.globals
  }

  lemma EnteredLevel(m: Meta, n: Meta, d: Decl, stale: set<Instance>)
    requires Level(m, n, stale)
    ensures Level(Entered(m, d), Entered(n, d), stale) && Entered(m, d).table == Entered(n, d).table && PoolOf(Entered(m, d)) == PoolOf(m)
    ensures Entered(m, d).globals == m.globals
  {
    hide Beside, SameBanks;
  }

  lemma RefilledLevel(m: Meta, n: Meta, x: Pool, y: Pool, stale: set<Instance>)
    requires Alike(m, n) && Beside(x, y, stale)
    ensures Level(Refilled(m, x), Refilled(n, y), stale) && Refilled(m, x).globals == m.globals
  {
    hide Without, SameBanks;
  }

  lemma OneLevel(lang: Language, c: Compiled, d: Compiled, decl: Decl, b: Body, stale: set<Instance>, t: set<Instance>)
    requires Level(c.meta, d.meta, stale) && c.stop == d.stop && Safe(lang, if decl.General? then {} else AllUses(lang, b.items), t, stale)
    ensures LevelCourse(c.meta.globals == d.meta.globals, c, d, CompileOne(lang, c, decl, b), CompileOne(lang, d, decl, b), stale)
  {
    hide Safe, CompileBody, Beside, SameBanks, Refilled, Enter;
    if c.stop == Going && !decl.General? {
      var x, y := Entered(c.meta, decl), Entered(d.meta, decl);
      EnteredLevel(c.meta, d.meta, decl, stale);
      LevelSelf(d.meta);
      EnteredLevel(d.meta, d.meta, decl, {});
      BodyBeside(lang, Context(x.globals, x.table), Context(y.globals, y.table), PoolOf(x), PoolOf(y), b, stale, t);
      var r, q := CompileBody(lang, Context(x.globals, x.table), PoolOf(x), b), CompileBody(lang, Context(y.globals, y.table), PoolOf(y), b);
      RefilledLevel(x, y, r.pool, q.pool, stale);
      RefilledIs(x, r.pool);
      RefilledIs(y, q.pool);
    }
  }

  lemma RefilledIs(m: Meta, x: Pool)
    ensures Refilled(m, x).functions == x.functions && Refilled(m, x).globals == m.globals
  {
  }

  lemma LevelSelf(m: Meta)
    ensures Level(m, m, {})
  {
    assert Without(m.specs, {}) == m.specs;
  }

  lemma LooseLevel(lang: Language, c: Compiled, d: Compiled, b: Body, stale: set<Instance>, t: set<Instance>)
    requires Level(c.meta, d.meta, stale) && c.stop == d.stop && Safe(lang, AllUses(lang, b.items), t, stale)
    ensures LevelCourse(c.meta.globals == d.meta.globals, c, d, CompileLoose(lang, c, b), CompileLoose(lang, d, b), stale)
  {
    hide Safe, CompileItems, Beside, SameBanks, Refilled;
    if c.stop == Going {
      var x, y := c.meta, d.meta;
      ItemsBeside(lang, Context(x.globals, x.table), Context(y.globals, y.table), PoolOf(x), PoolOf(y), b.items, stale, t);
      var w, v := CompileItems(lang, Context(x.globals, x.table), PoolOf(x), b.items), CompileItems(lang, Context(y.globals, y.table), PoolOf(y), b.items);
      RefilledLevel(x, y, w.pool, v.pool, stale);
      RefilledIs(x, w.pool);
      RefilledIs(y, v.pool);
    }
  }

  lemma {:induction false} FuncsLevel(lang: Language, m: Meta, n: Meta, ds: seq<Decl>, bodies: nat -> Body, stale: set<Instance>, t: set<Instance>)
    requires Level(m, n, stale) && Safe(lang, FuncUses(lang, ds, bodies), t, stale)
    ensures LevelCourse(m.globals == n.globals, Compiled(m, [], Going), Compiled(n, [], Going),
      CompileFuncs(lang, m, ds, bodies), CompileFuncs(lang, n, ds, bodies), stale)
    ensures CompileFuncs(lang, m, ds, bodies).inits == CompileFuncs(lang, n, ds, bodies).inits
  {
    hide Level, CompileOne, Closed, AllUses;
    if ds != [] {
      var k := |ds| - 1;
      FuncsLevel(lang, m, n, ds[..k], bodies, stale, t);
      OneLevel(lang, CompileFuncs(lang, m, ds[..k], bodies), CompileFuncs(lang, n, ds[..k], bodies), ds[k], bodies(k), stale, t);
    }
  }

  lemma NewLevel(lang: Language, m: Meta, n: Meta, ds: seq<Decl>, a: Attempt, stale: set<Instance>, t: set<Instance>)
    requires Level(m, n, stale) && Safe(lang, Uses(lang, ds, a), t, stale)
    ensures var c, d := CompileNew(lang, m, ds, a), CompileNew(lang, n, ds, a);
      && Level(c.meta, d.meta, stale) && c.stop == d.stop && c.inits == d.inits
      && (m.functions == n.functions && c.meta.globals == d.meta.globals ==> c.meta.functions == d.meta.functions)
  {
    hide Level, CompileFuncs, CompileLoose, Closed, AllUses, FuncUses, RegisterVars;
    var x, y := Registered(m, ds, a), Registered(n, ds, a);
    RegisteredLevel(m, n, ds, a, stale);
    RegisteredIs(m, ds, a);
    RegisteredIs(n, ds, a);
    FuncsLevel(lang, x, y, ds, a.bodies, stale, t);
    var c, d := CompileFuncs(lang, x, ds, a.bodies), CompileFuncs(lang, y, ds, a.bodies);
    LooseLevel(lang, c, d, a.variableInit, stale, t);
    var c', d' := CompileLoose(lang, c, a.variableInit), CompileLoose(lang, d, a.variableInit);
    LooseLevel(lang, c', d', a.evaluation, stale, t);
    CompileNewIs(lang, m, ds, a);
    CompileNewIs(lang, n, ds, a);
  }

  lemma {:induction false} CommitImportsLevel(m: Meta, n: Meta, imps: seq<Import>, stale: set<Instance>)
    requires Level(m, n, stale)
    ensures Level(CommitImports(m, imps), CommitImports(n, imps), stale)
  {
    hide Beside, SameBanks;
    if imps != [] {
      CommitImportsLevel(m, n, imps[..|imps| - 1], stale);
    }
  }

  lemma {:induction false} CommitRecordsLevel(m: Meta, n: Meta, rs: seq<Record>, stale: set<Instance>)
    requires Level(m, n, stale)
    ensures Level(CommitRecords(m, rs), CommitRecords(n, rs), stale)
  {
    hide Beside, SameBanks;
    if rs != [] {
      CommitRecordsLevel(m, n, rs[..|rs| - 1], stale);
    }
  }

  lemma CommitLevel(m: Meta, n: Meta, imps: seq<Import>, rs: seq<Record>, stale: set<Instance>)
    requires Level(m, n, stale)
    ensures Level(Commit(m, imps, rs), Commit(n, imps, rs), stale)
  {
    hide Beside, SameBanks, CommitImports, CommitRecords;
    CommitImportsLevel(m, n, imps, stale);
    CommitRecordsLevel(CommitImports(m, imps), CommitImports(n, imps), rs, stale);
  }

  // ---------- what a submission compiles ----------

  /** The declarations a submission would compile. */
  function Compiles(m: Meta, s: Submission): seq<Decl> {
    NewDecls(s.decls, NamesOf(Candidates(s.decls)), m.compiledInits)
  }

  lemma AddedIsNew(m: Meta, s: Submission)
    requires Sound(m) && FirstClash(m.names, Candidates(s.decls)).None?
    ensures NewDecls(Retained(m.records) + s.decls, NamesOf(Candidates(s.decls)), m.compiledInits) == Compiles(m, s)
  {
    hide Sound, Candidates, FirstClash, NewDecls;
    OnlyNewDeclarations(m, s);
  }

  /** A success: nothing clashed, the file was accepted, it compiled and it ran. */
  lemma DoneIs(lang: Language, m: Meta, a: Attempt)
    requires Sound(m)
    ensures Submit(lang, m, a).outcome == Done <==>
      && a.source.Some? && FirstClash(m.names, Candidates(a.source.value.decls)).None?
      && lang.check(Combined(m, CandidateImports(m.imports.Keys, a.source.value.imports), a.source.value))
      && CompileNew(lang, m, Compiles(m, a.source.value), a).stop == Going && a.runs
    ensures Submit(lang, m, a).outcome == Done ==>
      var s := a.source.value;
      var c := CompileNew(lang, m, Compiles(m, s), a);
      Submit(lang, m, a).meta == Commit(RunInits(c.meta, c.inits, a), CandidateImports(m.imports.Keys, s.imports), Candidates(s.decls))
  {
    hide Sound, Candidates, FirstClash, Combined, CompileNew, Commit, RunInits, Compiles, Restore, CandidateImports;
    if a.source.Some? && FirstClash(m.names, Candidates(a.source.value.decls)).None? {
      AddedIsNew(m, a.source.value);
    }
  }

  /** The instances a submission needs. */
  ghost function Needed(lang: Language, m: Meta, a: Attempt): set<Instance> {
    if a.source.None? then {} else Needs(lang, Uses(lang, Compiles(m, a.source.value), a))
  }

  lemma {:induction false} FuncUsesKnown(lang: Language, ds: seq<Decl>, bodies: nat -> Body)
    ensures FuncUses(lang, ds, bodies) <= lang.templates.Keys
  {
    if ds != [] {
      FuncUsesKnown(lang, ds[..|ds| - 1], bodies);
      UsesKnown(lang, bodies(|ds| - 1).items);
    }
  }

  lemma UsesAreKnown(lang: Language, ds: seq<Decl>, a: Attempt)
    ensures Uses(lang, ds, a) <= lang.templates.Keys
  {
    FuncUsesKnown(lang, ds, a.bodies);
    UsesKnown(lang, a.variableInit.items);
    UsesKnown(lang, a.evaluation.items);
  }

  /** A submission that needs nothing stale cannot tell level sessions apart. */
  lemma SubmitLevel(lang: Language, m: Meta, n: Meta, a: Attempt, stale: set<Instance>)
    requires Sound(m) && Sound(n) && Level(m, n, stale) && stale <= lang.templates.Keys && Needed(lang, m, a) !! stale
    requires Submit(lang, m, a).outcome == Done
    ensures Submit(lang, n, a).outcome == Done && Level(Submit(lang, m, a).meta, Submit(lang, n, a).meta, stale)
    ensures var x, y := Submit(lang, m, a).meta, Submit(lang, n, a).meta;
      m.functions == n.functions && x.globals == y.globals ==> x.functions == y.functions
  {
    DoneIs(lang, m, a);
    DoneIs(lang, n, a);
    LevelText(m, n, a, stale);
    hide Submit, Sound, Level, CompileNew, Needs, Uses, Commit, RunInits, Candidates, FirstClash, Combined, Compiles, CandidateImports, Closed;
    var s := a.source.value;
    var ds := Compiles(m, s);
    var uses := Uses(lang, ds, a);
    UsesAreKnown(lang, ds, a);
    NeedsClosed(lang, uses);
    NewLevel(lang, m, n, ds, a, stale, Needs(lang, uses));
    var c, d := CompileNew(lang, m, ds, a), CompileNew(lang, n, ds, a);
    RunLevel(c, d, a, stale);
    CommitLevel(RunInits(c.meta, c.inits, a), RunInits(d.meta, d.inits, a), CandidateImports(m.imports.Keys, s.imports), Candidates(s.decls), stale);
    CommitTables(RunInits(c.meta, c.inits, a), CandidateImports(m.imports.Keys, s.imports), Candidates(s.decls));
    CommitTables(RunInits(d.meta, d.inits, a), CandidateImports(m.imports.Keys, s.imports), Candidates(s.decls));
  }

  lemma LevelText(m: Meta, n: Meta, a: Attempt, stale: set<Instance>)
    requires Level(m, n, stale) && a.source.Some?
    ensures m.imports == n.imports && m.names == n.names && Compiles(m, a.source.value) == Compiles(n, a.source.value)
    ensures var imps := CandidateImports(m.imports.Keys, a.source.value.imports); Combined(m, imps, a.source.value) == Combined(n, imps, a.source.value)
  {
    hide Beside, SameBanks;
  }

  lemma RunLevel(c: Compiled, d: Compiled, a: Attempt, stale: set<Instance>)
    requires Level(c.meta, d.meta, stale) && c.inits == d.inits
    ensures Level(RunInits(c.meta, c.inits, a), RunInits(d.meta, d.inits, a), stale)
    ensures var x := RunInits(c.meta, c.inits, a); x == c.meta.(executedInits := x.executedInits)
    ensures var y := RunInits(d.meta, d.inits, a); y == d.meta.(executedInits := y.executedInits)
  {
    hide Beside, SameBanks;
  }

  lemma {:induction false} CommitTables(m: Meta, imps: seq<Import>, rs: seq<Record>)
    ensures var r := Commit(m, imps, rs);
      && r.globals == m.globals && r.slots == m.slots && r.methods == m.methods && r.table == m.table && r.functions == m.functions
      && r.specs == m.specs && r.submits == m.submits + 1
  {
    CommitImportsTables(m, imps);
    CommitRecordsAre(CommitImports(m, imps), rs);
  }

  lemma {:induction false} CommitImportsTables(m: Meta, imps: seq<Import>)
    ensures var r := CommitImports(m, imps); r == m.(imports := r.imports, importOrder := r.importOrder)
  {
    if imps != [] {
      CommitImportsTables(m, imps[..|imps| - 1]);
    }
  }

  // ---------- a history with leftovers beside one without ----------

  /** The same in everything a verdict depends on. */
  ghost predicate SameText(m: Meta, n: Meta) {
    && m.imports == n.imports && m.importOrder == n.importOrder && m.records == n.records && m.names == n.names && m.submits == n.submits
    && m.compiledDecls == n.compiledDecls && m.compiledInits == n.compiledInits && m.table.Keys == n.table.Keys
  }

  /** One session has only instances, stale ones aside, that the other has too; and as many functions less as the rest would take. */
  ghost predicate Behind(lang: Language, x: Pool, y: Pool, stale: set<Instance>) {
    && stale <= x.specs.Keys && x.specs.Keys - stale <= y.specs.Keys
    && |x.functions| + Total(lang, y.specs.Keys) == |y.functions| + Total(lang, x.specs.Keys - stale)
  }

  ghost predicate Trails(lang: Language, m: Meta, n: Meta, stale: set<Instance>) {
    SameText(m, n) && Fit(lang, n) && Behind(lang, PoolOf(m), PoolOf(n), stale)
  }

  lemma BehindStep(lang: Language, x: Pool, y: Pool, x': Pool, y': Pool, stale: set<Instance>, keys: set<Key>, keys': set<Key>, uses: set<Instance>, own: nat)
    requires Behind(lang, x, y, stale) && Complete(lang, keys, x, x', uses, own) && Complete(lang, keys', y, y', uses, own)
    requires x.specs.Keys <= x'.specs.Keys && y.specs.Keys <= y'.specs.Keys && x'.specs.Keys <= x.specs.Keys + y'.specs.Keys
    ensures Behind(lang, x', y', stale)
  {
    hide Total, Good, Next;
    var a, b := x'.specs.Keys - x.specs.Keys, y'.specs.Keys - y.specs.Keys;
    TotalUnion(lang, x.specs.Keys - stale, a);
    TotalUnion(lang, y.specs.Keys, b);
    assert (x.specs.Keys - stale) + a == x'.specs.Keys - stale;
    assert y.specs.Keys + b == y'.specs.Keys;
  }

  /** The session and the outcome of a submission, as far as text goes. */
  lemma TextDone(lang: Language, m: Meta, n: Meta, a: Attempt)
    requires Sound(m) && Sound(n) && SameText(m, n) && Submit(lang, m, a).outcome == Done
    ensures a.source.Some? && Compiles(n, a.source.value) == Compiles(m, a.source.value)
    ensures CompileNew(lang, m, Compiles(m, a.source.value), a).stop == Going
    ensures Submit(lang, n, a).outcome == Done <==> CompileNew(lang, n, Compiles(m, a.source.value), a).stop == Going
  {
    DoneIs(lang, m, a);
    DoneIs(lang, n, a);
    hide Submit, Sound, CompileNew;
  }

  /** A success leaves the text part of two sessions the same. */
  lemma TextCommitted(lang: Language, m: Meta, n: Meta, a: Attempt)
    requires Sound(m) && Sound(n) && SameText(m, n) && Submit(lang, m, a).outcome == Done && Submit(lang, n, a).outcome == Done
    ensures SameText(Submit(lang, m, a).meta, Submit(lang, n, a).meta)
  {
    DoneIs(lang, m, a);
    DoneIs(lang, n, a);
    TextDone(lang, m, n, a);
    hide Submit, Sound, CompileNew, Commit, Candidates, Compiles, FirstClash, Combined, Whole, RunInits, KeysIn;
    var s := a.source.value;
    var ds := Compiles(m, s);
    var c, d := CompileNew(lang, m, ds, a), CompileNew(lang, n, ds, a);
    CompiledText(lang, m, ds, a);
    CompiledText(lang, n, ds, a);
    CommitText(RunInits(c.meta, c.inits, a), RunInits(d.meta, d.inits, a), CandidateImports(m.imports.Keys, s.imports), Candidates(s.decls));
  }

  lemma CompiledText(lang: Language, m: Meta, ds: seq<Decl>, a: Attempt)
    requires CompileNew(lang, m, ds, a).stop == Going
    ensures var c := CompileNew(lang, m, ds, a);
      var r := RunInits(c.meta, c.inits, a);
      && r.imports == m.imports && r.importOrder == m.importOrder && r.records == m.records && r.names == m.names && r.submits == m.submits
      && r.compiledDecls == m.compiledDecls && r.compiledInits == m.compiledInits + InitTexts(ds) && r.table.Keys == m.table.Keys + KeysIn(ds)
      && PoolOf(r) == PoolOf(c.meta)
  {
    hide CompileNew, Whole, Adds, Registered, KeysIn;
    NewWhole(lang, m, ds, a);
    NewFills(lang, m, ds, a);
    RegisteredIs(m, ds, a);
  }

  lemma {:induction false} CommitImportsText(m: Meta, n: Meta, imps: seq<Import>)
    requires SameText(m, n)
    ensures SameText(CommitImports(m, imps), CommitImports(n, imps))
  {
    if imps != [] {
      CommitImportsText(m, n, imps[..|imps| - 1]);
    }
  }

  lemma {:induction false} CommitRecordsText(m: Meta, n: Meta, rs: seq<Record>)
    requires SameText(m, n)
    ensures SameText(CommitRecords(m, rs), CommitRecords(n, rs))
  {
    if rs != [] {
      CommitRecordsText(m, n, rs[..|rs| - 1]);
    }
  }

  lemma CommitText(m: Meta, n: Meta, imps: seq<Import>, rs: seq<Record>)
    requires SameText(m, n)
    ensures SameText(Commit(m, imps, rs), Commit(n, imps, rs))
  {
    hide CommitImports, CommitRecords;
    CommitImportsText(m, n, imps);
    CommitRecordsText(CommitImports(m, imps), CommitImports(n, imps), rs);
  }

  /** A success in a trailing session succeeds in the other exactly if everything it needs is good, and it trails on. */
  lemma TrailsStep(lang: Language, m: Meta, n: Meta, a: Attempt, stale: set<Instance>)
    requires Sound(m) && Sound(n) && Trails(lang, m, n, stale) && Submit(lang, m, a).outcome == Done
    ensures Submit(lang, n, a).outcome == Done <==> Builds(lang, m.table.Keys, Compiles(m, a.source.value), a)
    ensures Submit(lang, n, a).outcome == Done ==> Trails(lang, Submit(lang, m, a).meta, Submit(lang, n, a).meta, stale)
    ensures Submit(lang, n, a).outcome == Done ==> Needed(lang, m, a) + n.specs.Keys <= Submit(lang, n, a).meta.specs.Keys
  {
    TextDone(lang, m, n, a);
    hide Submit, Sound, CompileNew, Compiles, Builds, Fit, Whole, Needs, Uses, AllOk;
    var ds := Compiles(m, a.source.value);
    NewWhole(lang, m, ds, a);
    NewGoesOn(lang, n, ds, a);
    if Submit(lang, n, a).outcome == Done {
      TrailsOn(lang, m, n, a, stale, ds);
    }
  }

  lemma TrailsOn(lang: Language, m: Meta, n: Meta, a: Attempt, stale: set<Instance>, ds: seq<Decl>)
    requires Sound(m) && Sound(n) && Trails(lang, m, n, stale) && Submit(lang, m, a).outcome == Done && Submit(lang, n, a).outcome == Done
    requires a.source.Some? && ds == Compiles(m, a.source.value)
    ensures Trails(lang, Submit(lang, m, a).meta, Submit(lang, n, a).meta, stale)
    ensures Needed(lang, m, a) + n.specs.Keys <= Submit(lang, n, a).meta.specs.Keys
  {
    TextDone(lang, m, n, a);
    TextCommitted(lang, m, n, a);
    DonePool(lang, m, a);
    DonePool(lang, n, a);
    hide Submit, Sound, CompileNew, Compiles, Builds, Needs, Uses, AllOk, Complete, Behind, SameText, OwnCount, KeysIn;
    var c, d := CompileNew(lang, m, ds, a), CompileNew(lang, n, ds, a);
    NewWhole(lang, m, ds, a);
    NewWhole(lang, n, ds, a);
    NewGoesOn(lang, n, ds, a);
    CompleteHas(lang, d.meta.table.Keys, PoolOf(n), PoolOf(d.meta), Uses(lang, ds, a), OwnCount(ds, a));
    FitClosed(lang, d.meta);
    NewWithin(lang, m, ds, a, d.meta.specs.Keys);
    NeedsLeast(lang, Uses(lang, ds, a), d.meta.specs.Keys);
    BehindStep(lang, PoolOf(m), PoolOf(n), PoolOf(c.meta), PoolOf(d.meta), stale, c.meta.table.Keys, d.meta.table.Keys, Uses(lang, ds, a), OwnCount(ds, a));
    FitFrom(lang, d.meta, Submit(lang, n, a).meta);
  }

  lemma CompleteHas(lang: Language, keys: set<Key>, x: Pool, r: Pool, uses: set<Instance>, own: nat)
    requires Complete(lang, keys, x, r, uses, own)
    ensures uses <= r.specs.Keys
  {
  }

  lemma FitClosed(lang: Language, m: Meta)
    requires Fit(lang, m)
    ensures Closed(lang, m.specs.Keys)
  {
  }

  lemma DonePool(lang: Language, m: Meta, a: Attempt)
    requires Sound(m) && Submit(lang, m, a).outcome == Done
    ensures a.source.Some?
    ensures var r, c := Submit(lang, m, a).meta, CompileNew(lang, m, Compiles(m, a.source.value), a).meta;
      PoolOf(r) == PoolOf(c) && r.table == c.table && r.globals == c.globals && r.slots == c.slots && r.methods == c.methods
  {
    DoneIs(lang, m, a);
    hide Submit, Sound, CompileNew, Commit, Candidates, Compiles, FirstClash, Combined;
    var s := a.source.value;
    var c := CompileNew(lang, m, Compiles(m, s), a);
    CommitTables(RunInits(c.meta, c.inits, a), CandidateImports(m.imports.Keys, s.imports), Candidates(s.decls));
  }

  // ---------- the conditions ----------

  /** Instances of functions of the session that failed submissions were the first to make, since it was last empty. */
  function Stale(lang: Language, events: seq<Event>): set<Instance> {
    if events == [] then {}
    else
      var n := |events| - 1;
      var m := After(lang, events[..n]);
      match events[n]
      case Reset => {}
      case Submitted(a) =>
        var outcome := Submit(lang, m, a).outcome;
        if outcome == Crashed then {} else if outcome == Done then Stale(lang, events[..n]) else Stale(lang, events[..n]) + Made(lang, m, a)
  }

  /** No success since the session was last empty needs a stale instance. */
  ghost predicate Untainted(lang: Language, events: seq<Event>) {
    if events == [] then true
    else
      var n := |events| - 1;
      var m := After(lang, events[..n]);
      match events[n]
      case Reset => true
      case Submitted(a) =>
        var outcome := Submit(lang, m, a).outcome;
        outcome == Crashed || (Untainted(lang, events[..n]) && (outcome == Done ==> Needed(lang, m, a) !! Stale(lang, events[..n])))
  }

  /** Everything the successes since the session was last empty need is good. */
  ghost predicate Rebuilds(lang: Language, events: seq<Event>) {
    if events == [] then true
    else
      var n := |events| - 1;
      var m := After(lang, events[..n]);
      match events[n]
      case Reset => true
      case Submitted(a) =>
        var outcome := Submit(lang, m, a).outcome;
        outcome == Crashed
        || (Rebuilds(lang, events[..n]) && (outcome == Done ==> Builds(lang, m.table.Keys, Compiles(m, a.source.value), a)))
  }

  // ---------- the theorem ----------

  /** How the history and the replay compare. */
  ghost predicate Compared(lang: Language, m: Meta, n: Meta, stale: set<Instance>, untainted: bool, rebuilds: bool) {
    && stale <= lang.templates.Keys && stale <= m.specs.Keys
    && (untainted ==> rebuilds && Level(m, n, stale))
    && (rebuilds ==> Trails(lang, m, n, stale) && (untainted <==> stale !! n.specs.Keys))
    && (!rebuilds ==> n.submits < m.submits)
  }

  lemma ComparedEmpty(lang: Language)
    ensures Compared(lang, EMPTY, EMPTY, {}, true, true)
  {
    LevelSelf(EMPTY);
    assert Total(lang, {}) == 0;
    assert EMPTY.specs.Keys - {} == {};
  }

  lemma SubmitCounts(lang: Language, m: Meta, a: Attempt)
    ensures var r := Submit(lang, m, a);
      r.meta.submits == if r.outcome == Done then m.submits + 1 else if r.outcome == Crashed then 0 else m.submits
  {
    hide Compile, Candidates, FirstClash, Combined, CandidateImports, Commit;
    if a.source.Some? {
      var s := a.source.value;
      var c := Compile(lang, m, s, a);
      CompileCounts(lang, m, s, a);
      CommitTables(RunInits(c.meta, c.inits, a), CandidateImports(m.imports.Keys, s.imports), Candidates(s.decls));
    }
  }

  lemma CompileCounts(lang: Language, m: Meta, s: Submission, a: Attempt)
    ensures Compile(lang, m, s, a).meta.submits == m.submits
  {
    hide CompileNew, NewDecls, Candidates, Retained, Adds, SlotsGrow;
    CompileNewGrows(lang, m, NewDecls(Retained(m.records) + s.decls, NamesOf(Candidates(s.decls)), m.compiledInits), a);
  }

  lemma ComparedFailure(lang: Language, m: Meta, n: Meta, a: Attempt, stale: set<Instance>, untainted: bool, rebuilds: bool)
    requires Compared(lang, m, n, stale, untainted, rebuilds) && Sound(m)
    requires var outcome := Submit(lang, m, a).outcome; outcome != Done && outcome != Crashed
    ensures Compared(lang, Submit(lang, m, a).meta, n, stale + Made(lang, m, a), untainted, rebuilds)
  {
    SoundLinked(m);
    FailureKeeps(lang, m, a);
    MadeKnown(lang, m, a);
    hide Submit, Made, Fit, Sound, Linked, SlotsGrow, Level, Behind, More;
    var m', made := Submit(lang, m, a).meta, Made(lang, m, a);
    MoreKeys(m.specs, m'.specs, made);
    if untainted {
      LevelMore(m, m', n, stale, made);
    }
    if rebuilds {
      BehindMore(lang, m, m', n, stale, made);
    }
  }

  lemma MoreKeys(a: map<Instance, nat>, b: map<Instance, nat>, made: set<Instance>)
    requires More(a, b, made)
    ensures b.Keys == a.Keys + made && a.Keys !! made
  {
  }

  lemma LevelMore(m: Meta, m': Meta, n: Meta, stale: set<Instance>, made: set<Instance>)
    requires Level(m, n, stale) && m' == m.(methods := m'.methods, slots := m'.slots, specs := m'.specs) && More(m.specs, m'.specs, made)
    ensures Level(m', n, stale + made) && stale + made !! n.specs.Keys
  {
    hide SameBanks;
    assert Without(m'.specs, stale + made) == Without(m.specs, stale);
  }

  lemma BehindMore(lang: Language, m: Meta, m': Meta, n: Meta, stale: set<Instance>, made: set<Instance>)
    requires Behind(lang, PoolOf(m), PoolOf(n), stale) && More(m.specs, m'.specs, made) && m'.functions == m.functions
    ensures Behind(lang, PoolOf(m'), PoolOf(n), stale + made)
  {
    hide Total;
    assert m'.specs.Keys - (stale + made) == m.specs.Keys - stale;
  }

  lemma MadeKnown(lang: Language, m: Meta, a: Attempt)
    ensures Made(lang, m, a) <= lang.templates.Keys
  {
    hide CompileNew, NewDecls, Candidates, Retained, SlotsGrow, FirstClash, Combined, Commit, Restore, RunInits, CandidateImports;
    if a.source.Some? {
      CompileNewGrows(lang, m, NewDecls(Retained(m.records) + a.source.value.decls, NamesOf(Candidates(a.source.value.decls)), m.compiledInits), a);
    }
  }

  lemma ComparedSuccess(lang: Language, m: Meta, n: Meta, a: Attempt, stale: set<Instance>, untainted: bool, rebuilds: bool)
    requires Compared(lang, m, n, stale, untainted, rebuilds) && Sound(m) && Sound(n) && Submit(lang, m, a).outcome == Done && a.source.Some?
    ensures Compared(lang, Submit(lang, m, a).meta, Submit(lang, n, a).meta, stale, untainted && Needed(lang, m, a) !! stale,
      rebuilds && Builds(lang, m.table.Keys, Compiles(m, a.source.value), a))
  {
    SubmitCounts(lang, m, a);
    SubmitCounts(lang, n, a);
    SpecsGrow(lang, m, a);
    hide Submit, Fit, Behind, Sound, Builds, Compiles, Needed, Level;
    if rebuilds {
      TrailsStep(lang, m, n, a, stale);
    }
    if untainted && Needed(lang, m, a) !! stale {
      SubmitLevel(lang, m, n, a, stale);
      LevelApart(Submit(lang, m, a).meta, Submit(lang, n, a).meta, stale);
    }
  }

  lemma LevelApart(m: Meta, n: Meta, stale: set<Instance>)
    requires Level(m, n, stale)
    ensures stale !! n.specs.Keys
  {
  }

  lemma SpecsGrow(lang: Language, m: Meta, a: Attempt)
    requires Sound(m) && Submit(lang, m, a).outcome == Done
    ensures m.specs.Keys <= Submit(lang, m, a).meta.specs.Keys
  {
    DonePool(lang, m, a);
    hide Submit, Sound, CompileNew, Compiles, Complete;
    DoneIs(lang, m, a);
    NewWhole(lang, m, Compiles(m, a.source.value), a);
  }

  lemma {:induction false} Follow(lang: Language, events: seq<Event>)
    ensures Compared(lang, After(lang, events), After(lang, Successes(lang, events)), Stale(lang, events), Untainted(lang, events), Rebuilds(lang, events))
    decreases |events|
  {
    hide Submit, Compared, Needed, Builds, Compiles;
    if events == [] {
      ComparedEmpty(lang);
    } else {
      var k := |events| - 1;
      Follow(lang, events[..k]);
      var front, m := Successes(lang, events[..k]), After(lang, events[..k]);
      AlwaysSound(lang, events[..k]);
      AlwaysSound(lang, front);
      assert forall e: Event :: (front + [e])[..|front|] == front;
      match events[k]
      case Reset => ComparedEmpty(lang);
      case Submitted(a) =>
        if Submit(lang, m, a).outcome == Done {
          DoneHasSource(lang, m, a);
          ComparedSuccess(lang, m, After(lang, front), a, Stale(lang, events[..k]), Untainted(lang, events[..k]), Rebuilds(lang, events[..k]));
        } else if Submit(lang, m, a).outcome == Crashed {
          CrashEmpties(lang, m, a);
          ComparedEmpty(lang);
        } else {
          ComparedFailure(lang, m, After(lang, front), a, Stale(lang, events[..k]), Untainted(lang, events[..k]), Rebuilds(lang, events[..k]));
        }
    }
  }

  lemma DoneHasSource(lang: Language, m: Meta, a: Attempt)
    requires Submit(lang, m, a).outcome == Done
    ensures a.source.Some?
  {
  }

  lemma CrashEmpties(lang: Language, m: Meta, a: Attempt)
    requires Submit(lang, m, a).outcome == Crashed
    ensures Submit(lang, m, a).meta == EMPTY
  {
  }

  /** Failures leave no trace exactly if no success needs an instance that a failure was the first to make. */
  lemma FailuresLeaveNoTrace(lang: Language, events: seq<Event>)
    ensures Alike(After(lang, events), After(lang, Successes(lang, events))) <==> Untainted(lang, events)
  {
    Follow(lang, events);
    hide After, Successes, Stale, Untainted, Rebuilds, Fit, Total, Without, SameBanks;
    var m, n, stale := After(lang, events), After(lang, Successes(lang, events)), Stale(lang, events);
    if !Untainted(lang, events) && Rebuilds(lang, events) {
      var i :| i in stale && i in n.specs;
      TotalLess(lang, m.specs.Keys - stale, n.specs.Keys);
    }
  }

  /** The replay succeeds throughout, since it was last empty, exactly if everything the successes need is good. */
  lemma SuccessesSucceed(lang: Language, events: seq<Event>)
    ensures After(lang, Successes(lang, events)).submits <= After(lang, events).submits
    ensures After(lang, Successes(lang, events)).submits == After(lang, events).submits <==> Rebuilds(lang, events)
    ensures Untainted(lang, events) ==> Rebuilds(lang, events)
  {
    Follow(lang, events);
    hide After, Successes, Stale, Untainted, Rebuilds, Fit, Total, Without, Behind, Level;
  }

  /** While no success needed a stale instance, the compiler breaks only on a submission that needs one. */
  lemma CrashNeedsStale(lang: Language, events: seq<Event>, a: Attempt)
    requires Untainted(lang, events) && Submit(lang, After(lang, events), a).outcome == Crashed
    ensures !(Needed(lang, After(lang, events), a) !! Stale(lang, events))
  {
    Follow(lang, events);
    AlwaysSound(lang, events);
    hide After, Successes, Stale, Untainted, Rebuilds, Submit, CompileNew, Fit, Level, Behind, Needed, Sound, SameText;
    CrashIs(lang, After(lang, events), a);
    if Needed(lang, After(lang, events), a) !! Stale(lang, events) {
      LevelGoesOn(lang, After(lang, events), After(lang, Successes(lang, events)), a, Stale(lang, events));
    }
  }

  lemma LevelGoesOn(lang: Language, m: Meta, n: Meta, a: Attempt, stale: set<Instance>)
    requires Level(m, n, stale) && Fit(lang, n) && stale <= lang.templates.Keys && a.source.Some? && Needed(lang, m, a) !! stale
    ensures CompileNew(lang, m, Compiles(m, a.source.value), a).stop != Broken
  {
    hide CompileNew, Fit, Level, Needs, Uses, Compiles, Closed;
    var ds := Compiles(m, a.source.value);
    UsesAreKnown(lang, ds, a);
    NeedsClosed(lang, Uses(lang, ds, a));
    NewLevel(lang, m, n, ds, a, stale, Needs(lang, Uses(lang, ds, a)));
    NewGoesOn(lang, n, ds, a);
  }

  lemma CrashIs(lang: Language, m: Meta, a: Attempt)
    requires Sound(m) && Submit(lang, m, a).outcome == Crashed
    ensures a.source.Some? && CompileNew(lang, m, Compiles(m, a.source.value), a).stop == Broken
  {
    hide Sound, Candidates, FirstClash, Combined, CompileNew, Commit, RunInits, Compiles, Restore, CandidateImports;
    AddedIsNew(m, a.source.value);
  }
}

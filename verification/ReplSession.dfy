/** The session object: its methods work on the tables in place, and together do what one submission is modelled to do. */
module ReplSession {
  import opened Wrappers
  import opened ReplModel
  import ReplFile
  import StringOrder

  // ---------- loops and the functions they compute ----------

  lemma TakeSnoc<T>(xs: seq<T>, i: nat)
    requires i < |xs|
    ensures xs[..i + 1][..i] == xs[..i] && |xs[..i + 1]| == i + 1 && xs[..i + 1][i] == xs[i] && xs[..i + 1] != []
  {
  }

  lemma PathsSnoc(imps: seq<Import>, i: Import)
    ensures PathsOf(imps + [i]) == PathsOf(imps) + {i.path}
  {
    var all := imps + [i];
    assert all[|imps|] == i && forall k :: 0 <= k < |imps| ==> all[k] == imps[k];
  }

  lemma {:induction false} ClashStays(names: map<Name, Kind>, rs: seq<Record>, i: nat)
    requires i <= |rs| && FirstClash(names, rs[..i]).Some?
    ensures FirstClash(names, rs) == FirstClash(names, rs[..i])
    decreases |rs| - i
  {
    if i == |rs| {
      assert rs[..i] == rs;
    } else {
      TakeSnoc(rs, i);
      ClashStays(names, rs, i + 1);
    }
  }

  lemma {:induction false} FailureStays(lang: Language, m: Meta, ds: seq<Decl>, bodies: nat -> Body, i: nat)
    requires i <= |ds| && CompileFuncs(lang, m, ds[..i], bodies).stop != Going
    ensures CompileFuncs(lang, m, ds, bodies) == CompileFuncs(lang, m, ds[..i], bodies)
    decreases |ds| - i
  {
    if i == |ds| {
      assert ds[..i] == ds;
    } else {
      TakeSnoc(ds, i);
      FailureStays(lang, m, ds, bodies, i + 1);
    }
  }

  lemma {:induction false} StopStays(lang: Language, ctx: Context, x: Pool, items: seq<Item>, i: nat)
    requires i <= |items| && CompileItems(lang, ctx, x, items[..i]).stop != Going
    ensures CompileItems(lang, ctx, x, items) == CompileItems(lang, ctx, x, items[..i])
    decreases |items| - i
  {
    if i == |items| {
      assert items[..i] == items;
    } else {
      TakeSnoc(items, i);
      StopStays(lang, ctx, x, items, i + 1);
    }
  }

  lemma {:induction false} SizeOfFront(items: seq<Item>, i: nat)
    requires i <= |items|
    ensures Size(items[..i]) <= Size(items)
    decreases |items| - i
  {
    if i == |items| {
      assert items[..i] == items;
    } else {
      TakeSnoc(items, i);
      SizeOfFront(items, i + 1);
    }
  }

  class Session {
    var imports: map<string, string>
    var importOrder: seq<string>
    var records: seq<Record>
    var names: map<Name, Kind>
    var submits: nat
    var functions: seq<Code>
    var table: map<Key, nat>
    var methods: map<Key, nat>
    var globals: Globals
    var slots: Counters
    var specs: map<Instance, nat>
    var executedInits: set<nat>
    var compiledDecls: set<Name>
    var compiledInits: set<string>

    function State(): Meta
      reads this
    {
      Meta(imports, importOrder, records, names, submits, functions, table, methods, globals, slots,
           specs, executedInits, compiledDecls, compiledInits)
    }

    constructor ()
      ensures State() == EMPTY
    {
      imports, importOrder, records, names, submits := map[], [], [], map[], 0;
      functions, table, methods, globals, slots, specs := [], map[], map[], map[], map[], map[];
      executedInits, compiledDecls, compiledInits := {}, {}, {};
    }

    /** Forgets everything, the service's store included. */
    method Reset()
      modifies this
      ensures State() == EMPTY
    {
      ResetTables();
      imports := map[];
      importOrder := [];
      records := [];
      names := map[];
      submits := 0;
    }

    method ResetTables()
      modifies this`functions, this`table, this`methods, this`globals, this`slots, this`specs, this`executedInits, this`compiledDecls, this`compiledInits
      ensures functions == [] && table == map[] && methods == map[] && globals == map[] && slots == map[] && specs == map[]
      ensures executedInits == {} && compiledDecls == {} && compiledInits == {}
    {
      functions := [];
      table := map[];
      methods := map[];
      globals := map[];
      slots := map[];
      specs := map[];
      executedInits := {};
      compiledDecls := {};
      compiledInits := {};
    }

    // ---------- candidates ----------

    method CandidateImportPaths(specs: seq<Import>) returns (out: seq<Import>)
      ensures out == CandidateImports(imports.Keys, specs)
    {
      out := [];
      var seen: set<string> := {};
      for i := 0 to |specs|
        invariant out == CandidateImports(imports.Keys, specs[..i]) && seen == PathsOf(out)
      {
        TakeSnoc(specs, i);
        if specs[i].path !in imports && specs[i].path !in seen {
          seen := seen + {specs[i].path};
          PathsSnoc(out, specs[i]);
          out := out + [specs[i]];
        }
      }
      assert specs[..|specs|] == specs;
    }

    method DetectRedeclaration(candidates: seq<Record>) returns (clash: Option<Clash>)
      ensures clash == FirstClash(names, candidates)
    {
      var inSubmission: set<Name> := {};
      for i := 0 to |candidates|
        invariant FirstClash(names, candidates[..i]) == None && inSubmission == NamesOf(candidates[..i])
      {
        TakeSnoc(candidates, i);
        var x := candidates[i].name;
        if x in names {
          ClashStays(names, candidates, i + 1);
          return Some(InSession(x, names[x]));
        }
        if x in inSubmission {
          ClashStays(names, candidates, i + 1);
          return Some(InSubmission(x));
        }
        inSubmission := inSubmission + {x};
      }
      assert candidates[..|candidates|] == candidates;
      return None;
    }

    /** The retained declarations, each text once. */
    method EmitRetained() returns (out: seq<Decl>)
      ensures out == Retained(records)
    {
      out := [];
      for i := 0 to |records|
        invariant out == Retained(records[..i])
      {
        TakeSnoc(records, i);
        if records[i].source !in out {
          out := out + [records[i].source];
        }
      }
      assert records[..|records|] == records;
    }

    method BuildCombinedSource(newImports: seq<Import>, s: Submission) returns (lines: seq<Line>)
      ensures lines == Combined(State(), newImports, s) && ReplFile.Spells(lines, ReplFile.KnownOf(State()) + newImports, Retained(records), s)
    {
      ReplFile.CombinedSpells(State(), newImports, s);
      var retained := EmitRetained();
      lines := [PackageLine] + KnownImports(importOrder, imports) + NewImports(newImports) + DeclLines(retained)
        + SubmittedLines(s.decls) + [EvalOpen] + StatementLines(s.statements) + [EvalClose];
    }

    /** What a caller may see: the paths in sorted order, the declared names in declaration order, the count of successes. */
    method Inspect() returns (paths: seq<string>, declared: seq<Named>, count: nat)
      ensures StringOrder.Ascending(paths) && multiset(paths) == multiset(importOrder)
      ensures |declared| == |records| && forall i :: 0 <= i < |records| ==> declared[i] == Named(records[i].name, records[i].kind)
      ensures count == submits
    {
      paths := StringOrder.Sort(importOrder);
      declared, count := [], submits;
      for i := 0 to |records|
        invariant |declared| == i && forall j :: 0 <= j < i ==> declared[j] == Named(records[j].name, records[j].kind)
      {
        declared := declared + [Named(records[i].name, records[i].kind)];
      }
    }

    // ---------- rollback and commit ----------

    method TakeSnapshot() returns (snapshot: Snapshot)
      ensures snapshot == Snap(State())
    {
      snapshot := Snapshot(|functions|, table, globals, executedInits, compiledDecls, compiledInits);
    }

    /** Drops the functions added since, and with them the instances recorded on those. */
    method TruncateFunctions(count: nat, kept: map<Key, nat>)
      modifies this`functions, this`specs
      ensures functions == (if count <= old(|functions|) then old(functions)[..count] else old(functions))
      ensures specs == StillThere(old(specs), kept)
    {
      if count <= |functions| {
        functions := functions[..count];
      }
      specs := StillThere(specs, kept);
    }

    method RestoreFrom(snapshot: Snapshot)
      modifies this
      ensures State() == Restore(old(State()), snapshot)
    {
      hide StillThere;
      TruncateFunctions(snapshot.count, snapshot.table);
      table := snapshot.table;
      globals := snapshot.globals;
      executedInits := snapshot.executedInits;
      compiledDecls := snapshot.compiledDecls;
      compiledInits := snapshot.compiledInits;
    }

    method CommitNewImports(newImports: seq<Import>)
      modifies this`imports, this`importOrder
      ensures State() == CommitImports(old(State()), newImports)
    {
      for i := 0 to |newImports|
        invariant State() == CommitImports(old(State()), newImports[..i])
      {
        TakeSnoc(newImports, i);
        if newImports[i].path !in imports {
          imports := imports[newImports[i].path := newImports[i].alias];
          importOrder := importOrder + [newImports[i].path];
        }
      }
      assert newImports[..|newImports|] == newImports;
    }

    method CommitCandidates(candidates: seq<Record>)
      modifies this`records, this`names, this`compiledDecls
      ensures State() == CommitRecords(old(State()), candidates)
    {
      for i := 0 to |candidates|
        invariant State() == CommitRecords(old(State()), candidates[..i])
      {
        TakeSnoc(candidates, i);
        records := records + [candidates[i]];
        names := names[candidates[i].name := candidates[i].kind];
        compiledDecls := compiledDecls + {candidates[i].name};
      }
      assert candidates[..|candidates|] == candidates;
    }

    method CommitSubmission(newImports: seq<Import>, candidates: seq<Record>)
      modifies this
      ensures State() == Commit(old(State()), newImports, candidates)
    {
      hide CommitImports, CommitRecords;
      CommitNewImports(newImports);
      CommitCandidates(candidates);
      submits := submits + 1;
    }

    // ---------- compilation ----------

    static method FilterDecls(ds: seq<Decl>, added: set<Name>, inits: set<string>) returns (out: seq<Decl>)
      ensures out == NewDecls(ds, added, inits)
    {
      out := [];
      for i := 0 to |ds|
        invariant out == NewDecls(ds[..i], added, inits)
      {
        TakeSnoc(ds, i);
        if Keeps(ds[i], added, inits) {
          out := out + [ds[i]];
        }
      }
      assert ds[..|ds|] == ds;
    }

    method MarkInits(ds: seq<Decl>)
      modifies this`compiledInits
      ensures compiledInits == old(compiledInits) + InitTexts(ds)
    {
      for i := 0 to |ds|
        invariant compiledInits == old(compiledInits) + InitTexts(ds[..i])
      {
        TakeSnoc(ds, i);
        assert InitTexts(ds[..i + 1]) == InitTexts(ds[..i]) + if ds[i].Init? then {ds[i].text} else {} by { InitTextsSnoc(ds, i); }
        if ds[i].Init? {
          compiledInits := compiledInits + {ds[i].text};
        }
      }
      assert ds[..|ds|] == ds;
    }

    method RegisterVariables(ds: seq<Decl>, bank: Name -> Bank)
      modifies this`globals, this`slots
      ensures State() == RegisterVars(old(State()), ds, bank)
    {
      for i := 0 to |ds|
        invariant State() == RegisterVars(old(State()), ds[..i], bank)
      {
        TakeSnoc(ds, i);
        if ds[i].General? {
          RegisterSpec(ds[i].named, bank);
        }
      }
      assert ds[..|ds|] == ds;
    }

    method RegisterSpec(named: seq<Named>, bank: Name -> Bank)
      modifies this`globals, this`slots
      ensures State() == RegisterNames(old(State()), named, bank)
    {
      for i := 0 to |named|
        invariant State() == RegisterNames(old(State()), named[..i], bank)
      {
        TakeSnoc(named, i);
        if named[i].kind == VarKind && named[i].name != "_" {
          var index := Count(slots, bank(named[i].name));
          globals := globals[named[i].name := Slot(bank(named[i].name), index)];
          slots := slots[bank(named[i].name) := index + 1];
        }
      }
      assert named[..|named|] == named;
    }

    // The bodies of functions, and what is met in them.

    method EmitItems(lang: Language, items: seq<Item>) returns (literals: seq<nat>, stop: Stop)
      modifies this`functions, this`specs
      ensures Worked(Pool(functions, specs), literals, stop) == CompileItems(lang, Context(globals, table), old(Pool(functions, specs)), items)
      decreases lang.templates.Keys - specs.Keys, Size(items), 1
    {
      ghost var ctx, x := Context(globals, table), Pool(functions, specs);
      literals, stop := [], Going;
      for i := 0 to |items|
        invariant stop == Going && Worked(Pool(functions, specs), literals, stop) == CompileItems(lang, ctx, x, items[..i])
      {
        TakeSnoc(items, i);
        SizeOfFront(items, i + 1);
        match items[i] {
          case Literal(b) =>
            literals := literals + [|functions|];
            stop := EmitBody(lang, b);
          case Use(instance, called) =>
            stop := Specialise(lang, instance, called);
        }
        if stop != Going {
          StopStays(lang, ctx, x, items, i + 1);
          return;
        }
      }
      assert items[..|items|] == items;
    }

    /** Appends a stub, compiles what the body meets, and fills the stub in. */
    method EmitBody(lang: Language, b: Body) returns (stop: Stop)
      modifies this`functions, this`specs
      ensures Built(Pool(functions, specs), stop) == CompileBody(lang, Context(globals, table), old(Pool(functions, specs)), b)
      decreases lang.templates.Keys - specs.Keys, Size(b.items), 2
    {
      var index := |functions|;
      functions := functions + [0];
      var literals: seq<nat>;
      literals, stop := EmitItems(lang, b.items);
      functions := functions[index := b.own(Linkage(globals, table, Chosen(specs, OwnUses(b.items)), literals))];
      if stop == Going && !b.ok {
        stop := Refused;
      }
    }

    /** Looks an instance up, or records it and compiles it. */
    method Specialise(lang: Language, i: Instance, called: bool) returns (stop: Stop)
      modifies this`functions, this`specs
      ensures Built(Pool(functions, specs), stop) == CompileUse(lang, Context(globals, table), old(Pool(functions, specs)), i, called)
      decreases lang.templates.Keys - specs.Keys, 0, 0
    {
      if i !in lang.templates {
        return Going;
      }
      if i.callee !in table {
        return Refused;
      }
      if i in specs {
        return if called && specs[i] >= |functions| then Broken else Going;
      }
      assert i in lang.templates.Keys - specs.Keys;
      specs := specs[i := |functions|];
      stop := EmitBody(lang, lang.templates[i]);
    }

    method CompileFunction(lang: Language, d: Decl, b: Body, inits: seq<nat>) returns (inits': seq<nat>, stop: Stop)
      requires !d.General?
      modifies this`functions, this`specs, this`table, this`methods
      ensures Compiled(State(), inits', stop) == CompileOne(lang, Compiled(old(State()), inits, Going), d, b)
    {
      hide CompileBody;
      var index := |functions|;
      inits' := inits;
      if d.Init? {
        inits' := inits + [index];
      } else {
        table := table[Key(d.receiver, d.name) := index];
        if d.receiver != "" {
          methods := methods[Key(d.receiver, d.name) := index];
        }
      }
      stop := EmitBody(lang, b);
    }

    method CompileFunctions(lang: Language, ds: seq<Decl>, bodies: nat -> Body) returns (inits: seq<nat>, stop: Stop)
      modifies this`functions, this`specs, this`table, this`methods
      ensures Compiled(State(), inits, stop) == CompileFuncs(lang, old(State()), ds, bodies)
    {
      hide CompileOne;
      inits, stop := [], Going;
      for i := 0 to |ds|
        invariant stop == Going && Compiled(State(), inits, Going) == CompileFuncs(lang, old(State()), ds[..i], bodies)
      {
        TakeSnoc(ds, i);
        SkipsGeneral(lang, Compiled(State(), inits, Going), ds[i], bodies(i));
        if !ds[i].General? {
          inits, stop := CompileFunction(lang, ds[i], bodies(i), inits);
          if stop != Going {
            FailureStays(lang, old(State()), ds, bodies, i + 1);
            return;
          }
        }
      }
      assert ds[..|ds|] == ds;
    }

    /** Compiles the variables' initialiser, or the statements. */
    method CompileCode(lang: Language, b: Body, ghost inits: seq<nat>) returns (stop: Stop)
      modifies this`functions, this`specs
      ensures Compiled(State(), inits, stop) == CompileLoose(lang, Compiled(old(State()), inits, Going), b)
    {
      hide CompileItems;
      var _, stopped := EmitItems(lang, b.items);
      stop := if stopped == Going && !b.ok then Refused else stopped;
    }

    method CompileSubmission(lang: Language, s: Submission, candidates: seq<Record>, a: Attempt) returns (inits: seq<nat>, stop: Stop)
      requires candidates == Candidates(s.decls)
      modifies this
      ensures Compiled(State(), inits, stop) == Compile(lang, old(State()), s, a)
    {
      hide CompileFuncs, CompileLoose, RegisterVars, NewDecls, Candidates, InitTexts, Retained;
      var retained := EmitRetained();
      var added := FilterDecls(retained + s.decls, NamesOf(candidates), compiledInits);
      MarkInits(added);
      RegisterVariables(added, a.bank);
      inits, stop := CompileFunctions(lang, added, a.bodies);
      StopsAtOnce(lang, Compiled(State(), inits, stop), a.variableInit);
      StopsAtOnce(lang, Compiled(State(), inits, stop), a.evaluation);
      if stop == Going {
        stop := CompileCode(lang, a.variableInit, inits);
        StopsAtOnce(lang, Compiled(State(), inits, stop), a.evaluation);
        if stop == Going {
          stop := CompileCode(lang, a.evaluation, inits);
        }
      }
    }

    /** Runs the new init functions; a failure stops after some of them. */
    method RunInitFunctions(inits: seq<nat>, a: Attempt)
      modifies this`executedInits
      ensures State() == RunInits(old(State()), inits, a)
    {
      var count := if a.runs || a.initsRun > |inits| then |inits| else a.initsRun;
      for i := 0 to count
        invariant executedInits == old(executedInits) + set j | 0 <= j < i :: inits[j]
      {
        executedInits := executedInits + {inits[i]};
      }
    }

    // ---------- one submission ----------

    /** A panic of the compiler is not caught: the process ends, and the session with it. */
    method SubmitAttempt(lang: Language, a: Attempt) returns (outcome: Outcome)
      modifies this
      ensures Step(State(), outcome) == Submit(lang, old(State()), a)
    {
      hide Combined, Compile, Commit, Restore, RunInits, Snap, Candidates, CandidateImports, FirstClash;
      if a.source.None? {
        return Unparsed;
      }
      var s := a.source.value;
      var newImports := CandidateImportPaths(s.imports);
      var candidates := Candidates(s.decls);
      var clash := DetectRedeclaration(candidates);
      if clash.Some? {
        return Redeclared(clash.value);
      }
      var lines := BuildCombinedSource(newImports, s);
      if !lang.check(lines) {
        return IllTyped;
      }
      var snapshot := TakeSnapshot();
      var inits, stop := CompileSubmission(lang, s, candidates, a);
      if stop == Broken {
        Reset();
        return Crashed;
      }
      if stop == Refused {
        RestoreFrom(snapshot);
        return Uncompiled;
      }
      RunInitFunctions(inits, a);
      if !a.runs {
        RestoreFrom(snapshot);
        return Failed;
      }
      CommitSubmission(newImports, candidates);
      return Done;
    }
  }

  lemma InitTextsSnoc(ds: seq<Decl>, i: nat)
    requires i < |ds|
    ensures InitTexts(ds[..i + 1]) == InitTexts(ds[..i]) + if ds[i].Init? then {ds[i].text} else {}
  {
  }

  lemma SkipsGeneral(lang: Language, c: Compiled, d: Decl, b: Body)
    ensures d.General? ==> CompileOne(lang, c, d, b) == c
  {
  }

  lemma StopsAtOnce(lang: Language, c: Compiled, b: Body)
    ensures c.stop != Going ==> CompileLoose(lang, c, b) == c
  {
  }
}

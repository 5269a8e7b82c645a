/** The invariant of a session's metadata over every history, and what it says about the file that is compiled. */
module ReplInvariant {
  import opened Wrappers
  import opened ReplModel
  import opened ReplLinking
  import opened ReplHistory

  // ---------- retained declarations ----------

  function WithNames(ds: seq<Decl>): seq<Decl> {
    if ds == [] then []
    else
      var n := |ds| - 1;
      if NamesIn(ds[n]) == [] then WithNames(ds[..n]) else WithNames(ds[..n]) + [ds[n]]
  }

  lemma {:induction false} CandidatesConcat(a: seq<Decl>, b: seq<Decl>)
    ensures Candidates(a + b) == Candidates(a) + Candidates(b)
    decreases |b|
  {
    hide NamesIn;
    if b == [] {
      assert a + b == a && Candidates(a) + [] == Candidates(a);
    } else {
      var n := |b| - 1;
      assert (a + b)[..|a + b| - 1] == a + b[..n] && (a + b)[|a + b| - 1] == b[n];
      CandidatesConcat(a, b[..n]);
      Assoc(Candidates(a), Candidates(b[..n]), RecordsOf(NamesIn(b[n]), b[n]));
    }
  }

  lemma Assoc(a: seq<Record>, b: seq<Record>, c: seq<Record>)
    ensures a + b + c == a + (b + c)
  {
  }

  /** Records of one declaration add it once. */
  lemma {:induction false} RetainedRun(rs: seq<Record>, named: seq<Named>, d: Decl)
    requires d !in Retained(rs)
    ensures Retained(rs + RecordsOf(named, d)) == if named == [] then Retained(rs) else Retained(rs) + [d]
    decreases |named|
  {
    var more := RecordsOf(named, d);
    if named == [] {
      assert rs + more == rs;
    } else {
      var n := |named| - 1;
      RetainedRun(rs, named[..n], d);
      assert more == RecordsOf(named[..n], d) + [Record(named[n].name, named[n].kind, d)];
      assert (rs + more)[..|rs + more| - 1] == rs + RecordsOf(named[..n], d);
    }
  }

  lemma {:induction false} SourceRecorded(rs: seq<Record>, d: Decl)
    ensures d in Retained(rs) <==> exists i :: 0 <= i < |rs| && rs[i].source == d
  {
    if rs != [] {
      var n := |rs| - 1;
      SourceRecorded(rs[..n], d);
      assert forall i :: 0 <= i < n ==> rs[..n][i] == rs[i];
    }
  }

  /** Every record comes from a declaration that introduces its name. */
  lemma {:induction false} CandidateOf(ds: seq<Decl>, i: nat)
    requires i < |Candidates(ds)|
    ensures var r := Candidates(ds)[i]; r.source in ds && Named(r.name, r.kind) in NamesIn(r.source)
  {
    if ds != [] {
      var n := |ds| - 1;
      if i < |Candidates(ds[..n])| {
        CandidateOf(ds[..n], i);
      } else {
        var j := i - |Candidates(ds[..n])|;
        assert Candidates(ds)[i] == RecordsOf(NamesIn(ds[n]), ds[n])[j];
      }
    }
  }

  /** Every name a declaration introduces is recorded, with that declaration. */
  lemma {:induction false} CandidateFor(ds: seq<Decl>, k: nat, j: nat)
    requires k < |ds| && j < |NamesIn(ds[k])|
    ensures Record(NamesIn(ds[k])[j].name, NamesIn(ds[k])[j].kind, ds[k]) in Candidates(ds)
  {
    hide NamesIn, Candidates;
    var n := |ds| - 1;
    CandidatesSnoc(ds);
    if k < n {
      CandidateFor(ds[..n], k, j);
    } else {
      assert RecordsOf(NamesIn(ds[n]), ds[n])[j] in Candidates(ds);
    }
  }

  lemma LastIsNew(ds: seq<Decl>)
    requires ds != [] && Distinct(Candidates(ds)) && NamesIn(ds[|ds| - 1]) != []
    ensures ds[|ds| - 1] !in Retained(Candidates(ds[..|ds| - 1]))
  {
    hide NamesIn, Candidates, Retained, Distinct;
    var n := |ds| - 1;
    var front, d := Candidates(ds[..n]), ds[n];
    SourceRecorded(front, d);
    CandidatesSnoc(ds);
    forall i | 0 <= i < |front| ensures front[i].source != d {
      CandidateOf(ds[..n], i);
      if front[i].source == d {
        var j :| 0 <= j < |NamesIn(d)| && NamesIn(d)[j] == Named(front[i].name, front[i].kind);
        DistinctAcross(front, RecordsOf(NamesIn(d), d), i, j);
      }
    }
  }

  lemma DistinctAcross(a: seq<Record>, b: seq<Record>, i: nat, j: nat)
    requires Distinct(a + b) && i < |a| && j < |b|
    ensures a[i].name != b[j].name
  {
    assert (a + b)[i] == a[i] && (a + b)[|a| + j] == b[j];
  }

  lemma CandidatesSnoc(ds: seq<Decl>)
    requires ds != []
    ensures var n := |ds| - 1; Candidates(ds) == Candidates(ds[..n]) + RecordsOf(NamesIn(ds[n]), ds[n])
  {
  }

  lemma DistinctPrefix(rs: seq<Record>, more: seq<Record>)
    requires Distinct(rs + more)
    ensures Distinct(rs) && Distinct(more)
  {
    assert forall i :: 0 <= i < |rs| ==> (rs + more)[i] == rs[i];
    assert forall i :: 0 <= i < |more| ==> (rs + more)[|rs| + i] == more[i];
  }

  /** With distinct names, the retained declarations are the named ones, each once and in order. */
  lemma {:induction false} RetainedOnce(ds: seq<Decl>)
    requires Distinct(Candidates(ds))
    ensures Retained(Candidates(ds)) == WithNames(ds) && Candidates(WithNames(ds)) == Candidates(ds)
  {
    hide NamesIn, Candidates, Retained, Distinct;
    if ds == [] {
      RetainedNone();
    } else {
      var n := |ds| - 1;
      var front, named := Candidates(ds[..n]), NamesIn(ds[n]);
      CandidatesSnoc(ds);
      DistinctPrefix(front, RecordsOf(named, ds[n]));
      RetainedOnce(ds[..n]);
      if named == [] {
        assert Candidates(ds) == front;
      } else {
        LastIsNew(ds);
        RetainedRun(front, named, ds[n]);
        assert WithNames(ds)[..|WithNames(ds)| - 1] == WithNames(ds[..n]);
        CandidatesSnoc(WithNames(ds));
      }
    }
  }

  lemma RetainedNone()
    ensures Candidates([]) == [] && Retained([]) == []
  {
  }

  // ---------- the invariant ----------

  /** The records are those of a list of declarations, with distinct names, and the name tables agree with them. */
  ghost predicate Recorded(m: Meta) {
    && (exists ds :: m.records == Candidates(ds))
    && Distinct(m.records)
    && m.names.Keys == NamesOf(m.records) && m.compiledDecls == NamesOf(m.records)
    && (forall i :: 0 <= i < |m.records| ==> m.names[m.records[i].name] == m.records[i].kind)
  }

  ghost predicate DistinctPaths(order: seq<string>) {
    forall i, j :: 0 <= i < j < |order| ==> order[i] != order[j]
  }

  /** The import order lists each imported path once. */
  ghost predicate Imported(m: Meta) {
    && DistinctPaths(m.importOrder)
    && (forall i :: 0 <= i < |m.importOrder| ==> m.importOrder[i] in m.imports)
    && (forall p :: p in m.imports ==> p in m.importOrder)
  }

  /** Indices lie in the function list, and every method in the table has its entry. */
  ghost predicate Tabled(m: Meta) {
    && (forall k :: k in m.table ==> m.table[k] < |m.functions|)
    && (forall k :: k in m.table && k.receiver != "" ==> k in m.methods && m.methods[k] == m.table[k])
    && (forall i :: i in m.executedInits ==> i < |m.functions|)
  }

  /** Variables own distinct slots of their banks, below the counters. */
  ghost predicate Slotted(m: Meta) {
    && (forall x :: x in m.globals ==> m.globals[x].index < Count(m.slots, m.globals[x].bank))
    && (forall x, y :: x in m.globals && y in m.globals && m.globals[x] == m.globals[y] ==> x == y)
  }

  /** Only declared names appear in the tables. */
  ghost predicate Confined(m: Meta, names: set<Name>) {
    (forall k :: k in m.table ==> k.name in names) && m.globals.Keys <= names
  }

  ghost predicate Sound(m: Meta) {
    Recorded(m) && Imported(m) && Tabled(m) && Slotted(m) && Linked(m) && Confined(m, m.names.Keys)
  }

  lemma EmptySound()
    ensures Sound(EMPTY)
  {
    assert EMPTY.records == Candidates([]);
  }

  // ---------- compilation keeps it ----------

  /** The declarations introduce only these names. */
  ghost predicate Introduces(ds: seq<Decl>, names: set<Name>) {
    forall i, j :: 0 <= i < |ds| && 0 <= j < |NamesIn(ds[i])| ==> NamesIn(ds[i])[j].name in names
  }

  lemma {:induction false} NotBlankIn(named: seq<Named>, i: nat)
    requires i < |named| && named[i].name != "_"
    ensures named[i] in NotBlank(named)
  {
    var n := |named| - 1;
    if i < n {
      NotBlankIn(named[..n], i);
    }
  }

  lemma {:induction false} RegisterNamesSlots(m: Meta, named: seq<Named>, bank: Name -> Bank, names: set<Name>)
    requires Slotted(m) && m.globals.Keys <= names
    requires forall i :: 0 <= i < |named| && named[i].name != "_" ==> named[i].name in names
    ensures var r := RegisterNames(m, named, bank); Slotted(r) && r.globals.Keys <= names
  {
    if named != [] {
      RegisterNamesSlots(m, named[..|named| - 1], bank, names);
    }
  }

  lemma {:induction false} RegisterVarsSlots(m: Meta, ds: seq<Decl>, bank: Name -> Bank, names: set<Name>)
    requires Slotted(m) && m.globals.Keys <= names && Introduces(ds, names)
    ensures var r := RegisterVars(m, ds, bank); Slotted(r) && r.globals.Keys <= names
  {
    hide Slotted;
    if ds != [] {
      var n := |ds| - 1;
      assert forall i :: 0 <= i < n ==> ds[..n][i] == ds[i];
      RegisterVarsSlots(m, ds[..n], bank, names);
      if ds[n].General? {
        var named := ds[n].named;
        forall i | 0 <= i < |named| && named[i].name != "_" ensures named[i].name in names {
          NotBlankIn(named, i);
          var j :| 0 <= j < |NamesIn(ds[n])| && NamesIn(ds[n])[j] == named[i];
        }
        RegisterNamesSlots(RegisterVars(m, ds[..n], bank), named, bank, names);
      }
    }
  }

  /** The same entries, apart from those under these names. */
  ghost predicate SameOutside(a: map<Key, nat>, b: map<Key, nat>, names: set<Name>) {
    forall k: Key :: k.name !in names ==> (k in a <==> k in b) && (k in a ==> a[k] == b[k])
  }

  /** What compiling functions named in `names` may have done to the tables of `m`. */
  ghost predicate Extended(m: Meta, c: Compiled, older: set<Name>, names: set<Name>) {
    && Tabled(c.meta) && (forall k :: k in c.meta.table ==> k.name in older + names)
    && SameOutside(m.methods, c.meta.methods, names) && |m.functions| <= |c.meta.functions|
    && (forall i :: 0 <= i < |c.inits| ==> |m.functions| <= c.inits[i] < |c.meta.functions|)
  }

  lemma EnterTables(m: Meta, c: Compiled, d: Decl, older: set<Name>, names: set<Name>, x: Pool)
    requires Extended(m, c, older, names) && d.Function? && d.name in names && |c.meta.functions| < |x.functions|
    ensures Extended(m, Compiled(Refilled(Enter(c.meta, d), x), c.inits, c.stop), older, names)
  {
    var key, r := Key(d.receiver, d.name), Refilled(Enter(c.meta, d), x);
    assert r.table == c.meta.table[key := |c.meta.functions|];
    assert SameOutside(c.meta.methods, r.methods, names);
  }

  lemma InitTables(m: Meta, c: Compiled, older: set<Name>, names: set<Name>, x: Pool)
    requires Extended(m, c, older, names) && |c.meta.functions| < |x.functions|
    ensures Extended(m, Compiled(Refilled(c.meta, x), c.inits + [|c.meta.functions|], c.stop), older, names)
  {
  }

  lemma SameExtended(m: Meta, c: Compiled, stop: Stop, older: set<Name>, names: set<Name>)
    requires Extended(m, c, older, names)
    ensures Extended(m, c.(stop := stop), older, names)
  {
  }

  lemma CompileOneTables(lang: Language, m: Meta, c: Compiled, d: Decl, b: Body, older: set<Name>, names: set<Name>)
    requires Extended(m, c, older, names) && (d.Function? ==> d.name in names)
    ensures Extended(m, CompileOne(lang, c, d, b), older, names)
  {
    hide CompileBody, Extended, Enter, Refilled;
    if c.stop == Going && !d.General? {
      var x := if d.Init? then c.meta else Enter(c.meta, d);
      var r := CompileBody(lang, Context(x.globals, x.table), PoolOf(x), b);
      EnterCount(c.meta, d);
      if d.Init? {
        InitTables(m, c, older, names, r.pool);
        SameExtended(m, Compiled(Refilled(x, r.pool), c.inits + [|c.meta.functions|], c.stop), r.stop, older, names);
      } else {
        EnterTables(m, c, d, older, names, r.pool);
        SameExtended(m, Compiled(Refilled(x, r.pool), c.inits, c.stop), r.stop, older, names);
      }
    }
  }

  lemma EnterCount(m: Meta, d: Decl)
    ensures d.Function? ==> Enter(m, d).functions == m.functions
  {
  }

  /** Compiling functions keeps the tables in order, and touches no entry under an older name. */
  lemma {:induction false} CompileFuncsTables(lang: Language, m: Meta, ds: seq<Decl>, bodies: nat -> Body, older: set<Name>, names: set<Name>)
    requires Tabled(m) && Introduces(ds, names) && (forall k :: k in m.table ==> k.name in older)
    ensures Extended(m, CompileFuncs(lang, m, ds, bodies), older, names)
  {
    hide Extended, Tabled, CompileOne;
    if ds == [] {
      ExtendedNone(m, older, names);
    } else {
      var n := |ds| - 1;
      assert forall i :: 0 <= i < n ==> ds[..n][i] == ds[i];
      CompileFuncsTables(lang, m, ds[..n], bodies, older, names);
      if ds[n].Function? {
        assert NamesIn(ds[n])[0].name == ds[n].name;
      }
      CompileOneTables(lang, m, CompileFuncs(lang, m, ds[..n], bodies), ds[n], bodies(n), older, names);
    }
  }

  lemma CompileLooseTables(lang: Language, m: Meta, c: Compiled, b: Body, older: set<Name>, names: set<Name>)
    requires Extended(m, c, older, names)
    ensures Extended(m, CompileLoose(lang, c, b), older, names)
  {
    hide CompileItems;
  }

  lemma ExtendedNone(m: Meta, older: set<Name>, names: set<Name>)
    requires Tabled(m) && (forall k :: k in m.table ==> k.name in older)
    ensures Extended(m, Compiled(m, [], Going), older, names)
  {
  }

  // ---------- what is compiled ----------

  lemma {:induction false} NewDeclsConcat(a: seq<Decl>, b: seq<Decl>, names: set<Name>, inits: set<string>)
    ensures NewDecls(a + b, names, inits) == NewDecls(a, names, inits) + NewDecls(b, names, inits)
    decreases |b|
  {
    hide Keeps;
    if b == [] {
      assert a + b == a;
    } else {
      var n := |b| - 1;
      assert (a + b)[..|a + b| - 1] == a + b[..n] && (a + b)[|a + b| - 1] == b[n];
      NewDeclsConcat(a, b[..n], names, inits);
    }
  }

  lemma {:induction false} NewDeclsNone(ds: seq<Decl>, names: set<Name>, inits: set<string>)
    requires forall i :: 0 <= i < |ds| ==> !Keeps(ds[i], names, inits)
    ensures NewDecls(ds, names, inits) == []
  {
    if ds != [] {
      NewDeclsNone(ds[..|ds| - 1], names, inits);
    }
  }

  lemma {:induction false} NewDeclsIntroduce(ds: seq<Decl>, names: set<Name>, inits: set<string>, all: set<Name>)
    requires Introduces(ds, all)
    ensures Introduces(NewDecls(ds, names, inits), all)
  {
    if ds != [] {
      var n := |ds| - 1;
      assert forall i :: 0 <= i < n ==> ds[..n][i] == ds[i];
      NewDeclsIntroduce(ds[..n], names, inits, all);
    }
  }

  lemma CandidatesIntroduce(ds: seq<Decl>)
    ensures Introduces(ds, NamesOf(Candidates(ds)))
  {
    forall i, j | 0 <= i < |ds| && 0 <= j < |NamesIn(ds[i])| ensures NamesIn(ds[i])[j].name in NamesOf(Candidates(ds)) {
      CandidateFor(ds, i, j);
    }
  }

  /** Of the combined file, exactly declarations of the submission are compiled: nothing retained is compiled again. */
  lemma OnlyNewDeclarations(m: Meta, s: Submission)
    requires Sound(m) && FirstClash(m.names, Candidates(s.decls)).None?
    ensures var names := NamesOf(Candidates(s.decls));
      NewDecls(Retained(m.records) + s.decls, names, m.compiledInits) == NewDecls(s.decls, names, m.compiledInits)
  {
    hide Tabled, Slotted, Imported, Distinct, Candidates, Retained;
    var names, retained := NamesOf(Candidates(s.decls)), Retained(m.records);
    FirstClashExact(m.names, Candidates(s.decls));
    NewDeclsConcat(retained, s.decls, names, m.compiledInits);
    var ds :| m.records == Candidates(ds);
    RetainedOnce(ds);
    CandidatesIntroduce(retained);
    forall i | 0 <= i < |retained| ensures !Keeps(retained[i], names, m.compiledInits) {
      WithNamesNamed(ds, i);
    }
    NewDeclsNone(retained, names, m.compiledInits);
  }

  lemma {:induction false} WithNamesNamed(ds: seq<Decl>, i: nat)
    requires i < |WithNames(ds)|
    ensures NamesIn(WithNames(ds)[i]) != []
  {
    if ds != [] {
      var n := |ds| - 1;
      if i < |WithNames(ds[..n])| {
        WithNamesNamed(ds[..n], i);
      }
    }
  }

  // ---------- a submission keeps the invariant ----------

  /** What a compilation of declarations named in `names` guarantees, whether it succeeded or not. */
  ghost predicate CompiledWell(lang: Language, m: Meta, c: Compiled, names: set<Name>) {
    && Extended(m, c, m.names.Keys, names) && Slotted(c.meta) && Confined(c.meta, m.names.Keys + names)
    && Grown(lang, m, c.meta) && SlotsGrow(m.slots, c.meta.slots) && c.meta.executedInits == m.executedInits
  }

  lemma CompileWell(lang: Language, m: Meta, s: Submission, a: Attempt)
    requires Sound(m) && FirstClash(m.names, Candidates(s.decls)).None?
    ensures CompiledWell(lang, m, Compile(lang, m, s, a), NamesOf(Candidates(s.decls)))
  {
    hide Slotted, Recorded, Imported, Linked, Extended, Grown, Candidates, NewDecls, FirstClash, Introduces, Registered, CompileNew, SlotsGrow, Tabled;
    var names := NamesOf(Candidates(s.decls));
    var added := NewDecls(s.decls, names, m.compiledInits);
    OnlyNewDeclarations(m, s);
    CandidatesIntroduce(s.decls);
    NewDeclsIntroduce(s.decls, names, m.compiledInits, names);
    CompileNewGrows(lang, m, added, a);
    RegisteredWell(m, added, a, names);
    var x := Registered(m, added, a);
    RegisteredIs(m, added, a);
    NewTables(lang, m, added, a, m.names.Keys, names);
    NewFills(lang, m, added, a);
    FilledSlots(lang, x, CompileNew(lang, m, added, a).meta);
    ExtendedFrom(m, x, CompileNew(lang, m, added, a), m.names.Keys, names);
    ConfinedAfter(m, x, CompileNew(lang, m, added, a), names);
  }

  lemma RegisteredWell(m: Meta, added: seq<Decl>, a: Attempt, names: set<Name>)
    requires Slotted(m) && Tabled(m) && Confined(m, m.names.Keys) && Introduces(added, names)
    ensures var x := Registered(m, added, a); Slotted(x) && Tabled(x) && x.globals.Keys <= m.names.Keys + names
  {
    hide Slotted, Introduces, RegisterVars, Tabled;
    var marked := m.(compiledInits := m.compiledInits + InitTexts(added));
    MarkedSlots(m, marked);
    WiderIntroduces(added, names, m.names.Keys + names);
    RegisterVarsSlots(marked, added, a.bank, m.names.Keys + names);
    RegisteredIs(m, added, a);
    SameTabled(m, Registered(m, added, a));
  }

  lemma SameTabled(m: Meta, r: Meta)
    requires Tabled(m) && r.table == m.table && r.functions == m.functions && r.methods == m.methods && r.executedInits == m.executedInits
    ensures Tabled(r)
  {
  }

  lemma MarkedSlots(m: Meta, marked: Meta)
    requires Slotted(m) && marked == m.(compiledInits := marked.compiledInits)
    ensures Slotted(marked)
  {
  }

  lemma WiderIntroduces(ds: seq<Decl>, names: set<Name>, wider: set<Name>)
    requires Introduces(ds, names) && names <= wider
    ensures Introduces(ds, wider)
  {
  }

  lemma NewTables(lang: Language, m: Meta, added: seq<Decl>, a: Attempt, older: set<Name>, names: set<Name>)
    requires var x := Registered(m, added, a); Tabled(x) && Introduces(added, names) && forall k :: k in x.table ==> k.name in older
    ensures Extended(Registered(m, added, a), CompileNew(lang, m, added, a), older, names)
  {
    hide Extended, Tabled, Introduces, CompileFuncs, CompileLoose, RegisterVars;
    var x := Registered(m, added, a);
    CompileFuncsTables(lang, x, added, a.bodies, older, names);
    var c := CompileFuncs(lang, x, added, a.bodies);
    CompileLooseTables(lang, x, c, a.variableInit, older, names);
    CompileLooseTables(lang, x, CompileLoose(lang, c, a.variableInit), a.evaluation, older, names);
  }

  lemma FilledSlots(lang: Language, m: Meta, r: Meta)
    requires Slotted(m) && Filled(lang, m, r)
    ensures Slotted(r) && r.globals == m.globals
  {
    hide Adds;
  }

  lemma ExtendedFrom(m: Meta, x: Meta, c: Compiled, older: set<Name>, names: set<Name>)
    requires Extended(x, c, older, names) && x.methods == m.methods && x.functions == m.functions
    ensures Extended(m, c, older, names)
  {
  }

  lemma ConfinedAfter(m: Meta, x: Meta, c: Compiled, names: set<Name>)
    requires Extended(m, c, m.names.Keys, names) && c.meta.globals == x.globals && x.globals.Keys <= m.names.Keys + names
    ensures Confined(c.meta, m.names.Keys + names)
  {
  }

  /** A failure leaves the session sound. */
  lemma RolledBackSound(lang: Language, m: Meta, c: Compiled, r: Meta, names: set<Name>)
    requires Sound(m) && CompiledWell(lang, m, c, names) && m.names.Keys !! names && LeftBy(m, r, c.meta)
    ensures Sound(r)
  {
    hide Recorded, Imported, Tabled, Slotted, Grown, More, NewOf;
    SameRecords(m, r);
    KeptTables(m, r, names);
    MoreSlots(m, r);
    LeftLinked(m, r, c.meta);
  }

  lemma LeftLinked(m: Meta, r: Meta, c: Meta)
    requires Linked(m) && More(m.specs, r.specs, NewOf(m.specs, c.specs, m.table)) && r.table == m.table
    ensures Linked(r)
  {
  }

  lemma SameRecords(m: Meta, r: Meta)
    requires Recorded(m) && Imported(m) && r.records == m.records && r.names == m.names && r.compiledDecls == m.compiledDecls
    requires r.imports == m.imports && r.importOrder == m.importOrder
    ensures Recorded(r) && Imported(r)
  {
    hide Distinct, Candidates, NamesOf;
    var ds :| m.records == Candidates(ds);
    assert r.records == Candidates(ds);
  }

  lemma KeptTables(m: Meta, r: Meta, names: set<Name>)
    requires Tabled(m) && Confined(m, m.names.Keys) && m.names.Keys !! names && SameOutside(m.methods, r.methods, names)
    requires r.table == m.table && r.functions == m.functions && r.executedInits == m.executedInits
    ensures Tabled(r)
  {
    assert forall k :: k in m.table ==> k.name !in names;
  }

  lemma MoreSlots(m: Meta, r: Meta)
    requires Slotted(m) && r.globals == m.globals && SlotsGrow(m.slots, r.slots)
    ensures Slotted(r)
  {
  }

  lemma {:induction false} CommitImportsKeeps(m: Meta, imps: seq<Import>)
    requires Imported(m)
    ensures var r := CommitImports(m, imps); Imported(r) && r == m.(imports := r.imports, importOrder := r.importOrder)
  {
    hide Imported;
    if imps != [] {
      var n := |imps| - 1;
      CommitImportsKeeps(m, imps[..n]);
      ImportKeeps(CommitImports(m, imps[..n]), imps[n]);
    }
  }

  lemma ImportKeeps(m: Meta, i: Import)
    requires Imported(m)
    ensures i.path !in m.imports ==> Imported(m.(imports := m.imports[i.path := i.alias], importOrder := m.importOrder + [i.path]))
  {
    if i.path !in m.imports {
      var order := m.importOrder + [i.path];
      assert order[|m.importOrder|] == i.path;
      forall p | p in m.imports[i.path := i.alias] ensures p in order {
        if p != i.path {
          assert p in m.importOrder;
        }
      }
    }
  }

  lemma {:induction false} CommitRecordsAre(m: Meta, rs: seq<Record>)
    ensures var r := CommitRecords(m, rs);
      && r == m.(records := m.records + rs, names := r.names, compiledDecls := m.compiledDecls + NamesOf(rs))
      && r.names.Keys == m.names.Keys + NamesOf(rs)
  {
    hide NamesOf;
    if rs == [] {
      assert m.records + [] == m.records && NamesOf([]) == {} by { NamesNone(); }
    } else {
      var n := |rs| - 1;
      CommitRecordsAre(m, rs[..n]);
      NamesSnoc(rs);
      assert m.records + rs == m.records + rs[..n] + [rs[n]];
    }
  }

  lemma NamesNone()
    ensures NamesOf([]) == {}
  {
  }

  lemma NamesSnoc(rs: seq<Record>)
    requires rs != []
    ensures NamesOf(rs) == NamesOf(rs[..|rs| - 1]) + {rs[|rs| - 1].name}
  {
  }

  /** A name keeps the kind of its record, or the kind it had. */
  lemma {:induction false} CommitRecordsKinds(m: Meta, rs: seq<Record>)
    requires Distinct(rs)
    ensures var r := CommitRecords(m, rs);
      && (forall x :: x in m.names && x !in NamesOf(rs) ==> x in r.names && r.names[x] == m.names[x])
      && (forall i :: 0 <= i < |rs| ==> rs[i].name in r.names && r.names[rs[i].name] == rs[i].kind)
  {
    if rs != [] {
      var n := |rs| - 1;
      CommitRecordsKinds(m, rs[..n]);
      assert forall i :: 0 <= i < n ==> rs[..n][i] == rs[i];
    }
  }

  lemma CommitRecordsKeeps(m: Meta, ds: seq<Decl>)
    requires Recorded(m) && FirstClash(m.names, Candidates(ds)).None?
    ensures Recorded(CommitRecords(m, Candidates(ds)))
  {
    hide Candidates, CommitRecords, FirstClash;
    var rs := Candidates(ds);
    FirstClashExact(m.names, rs);
    CommitRecordsAre(m, rs);
    var r := CommitRecords(m, rs);
    var before :| m.records == Candidates(before);
    CandidatesConcat(before, ds);
    assert r.records == Candidates(before + ds);
    JoinDistinct(m.records, rs);
    NamesConcat(m.records, rs);
    KindsAgree(m, rs);
  }

  lemma KindsAgree(m: Meta, rs: seq<Record>)
    requires Distinct(rs) && AllNew(m.names, rs) && m.names.Keys == NamesOf(m.records)
    requires forall i :: 0 <= i < |m.records| ==> m.names[m.records[i].name] == m.records[i].kind
    ensures var r := CommitRecords(m, rs); forall i :: 0 <= i < |m.records + rs| ==>
      (m.records + rs)[i].name in r.names && r.names[(m.records + rs)[i].name] == (m.records + rs)[i].kind
  {
    hide CommitRecords, Distinct;
    CommitRecordsKinds(m, rs);
    var all := m.records + rs;
    forall i | 0 <= i < |all| ensures var r := CommitRecords(m, rs); all[i].name in r.names && r.names[all[i].name] == all[i].kind {
      if i < |m.records| {
        assert all[i] == m.records[i] && m.records[i].name in NamesOf(m.records);
      } else {
        assert all[i] == rs[i - |m.records|];
      }
    }
  }

  lemma NamesConcat(a: seq<Record>, b: seq<Record>)
    ensures NamesOf(a + b) == NamesOf(a) + NamesOf(b)
  {
    forall x | x in NamesOf(a) + NamesOf(b) ensures x in NamesOf(a + b) {
      if x in NamesOf(a) {
        var i :| 0 <= i < |a| && a[i].name == x;
        assert (a + b)[i] == a[i];
      } else {
        var i :| 0 <= i < |b| && b[i].name == x;
        assert (a + b)[|a| + i] == b[i];
      }
    }
  }

  lemma JoinDistinct(a: seq<Record>, b: seq<Record>)
    requires Distinct(a) && Distinct(b) && forall i :: 0 <= i < |b| ==> b[i].name !in NamesOf(a)
    ensures Distinct(a + b)
  {
    forall i, j | 0 <= i < j < |a + b| ensures (a + b)[i].name != (a + b)[j].name {
      if i < |a| <= j {
        assert a[i].name in NamesOf(a) && (a + b)[j] == b[j - |a|];
      }
    }
  }

  /** A success leaves it sound too. */
  lemma CommittedSound(lang: Language, m: Meta, c: Compiled, a: Attempt, imps: seq<Import>, ds: seq<Decl>)
    requires Sound(m) && FirstClash(m.names, Candidates(ds)).None? && CompiledWell(lang, m, c, NamesOf(Candidates(ds)))
    ensures Sound(Commit(RunInits(c.meta, c.inits, a), imps, Candidates(ds)))
  {
    hide Candidates, CommitRecords, CommitImports, Recorded, Imported, FirstClash, Slotted, Tabled, Linked, Extended, SlotsGrow, RunInits, Grown;
    var r, rs := RunInits(c.meta, c.inits, a), Candidates(ds);
    RanRecords(lang, m, c, a);
    SameRecords(m, r);
    CommitImportsKeeps(r, imps);
    var i := CommitImports(r, imps);
    SameNames(r, i);
    CommitRecordsKeeps(i, ds);
    CommitRecordsAre(i, rs);
    var before, after := CommitRecords(i, rs), Commit(r, imps, rs);
    SameNames(before, after);
    RanTables(lang, m, c, a, NamesOf(rs));
    GrownLinked(lang, m, c.meta);
    SameLinked(c.meta, after);
    SameTables(r, after);
    SamePaths(i, after);
  }

  lemma SameNames(m: Meta, r: Meta)
    requires Recorded(m) && r.records == m.records && r.names == m.names && r.compiledDecls == m.compiledDecls
    ensures Recorded(r)
  {
    hide Distinct, Candidates, NamesOf;
    var ds :| m.records == Candidates(ds);
    assert r.records == Candidates(ds);
  }

  lemma SamePaths(m: Meta, r: Meta)
    requires Imported(m) && r.imports == m.imports && r.importOrder == m.importOrder
    ensures Imported(r)
  {
  }

  lemma SameTables(m: Meta, r: Meta)
    requires Tabled(m) && Slotted(m) && r.table == m.table && r.functions == m.functions && r.executedInits == m.executedInits
    requires r.methods == m.methods && r.globals == m.globals && r.slots == m.slots
    ensures Tabled(r) && Slotted(r)
  {
  }

  lemma RanTables(lang: Language, m: Meta, c: Compiled, a: Attempt, names: set<Name>)
    requires CompiledWell(lang, m, c, names)
    ensures Tabled(RunInits(c.meta, c.inits, a)) && Slotted(RunInits(c.meta, c.inits, a))
  {
    hide Grown, Confined;
  }

  lemma RanRecords(lang: Language, m: Meta, c: Compiled, a: Attempt)
    requires Grown(lang, m, c.meta)
    ensures var r := RunInits(c.meta, c.inits, a);
      && r == c.meta.(executedInits := r.executedInits)
      && r.records == m.records && r.names == m.names && r.compiledDecls == m.compiledDecls && r.imports == m.imports && r.importOrder == m.importOrder
  {
    hide Adds;
  }

  lemma GrownLinked(lang: Language, m: Meta, r: Meta)
    requires Linked(m) && Grown(lang, m, r)
    ensures Linked(r)
  {
  }

  lemma SameLinked(m: Meta, r: Meta)
    requires Linked(m) && r.specs == m.specs && r.table == m.table
    ensures Linked(r)
  {
  }

  /** A submission keeps the session sound, whatever its outcome. */
  lemma SubmitSound(lang: Language, m: Meta, a: Attempt)
    requires Sound(m)
    ensures Sound(Submit(lang, m, a).meta)
  {
    hide Sound, CompiledWell, Candidates, Compile, Commit, Restore, RunInits;
    EmptySound();
    if a.source.Some? && FirstClash(m.names, Candidates(a.source.value.decls)).None? {
      var s := a.source.value;
      var c := Compile(lang, m, s, a);
      CompileWell(lang, m, s, a);
      CommittedSound(lang, m, c, a, CandidateImports(m.imports.Keys, s.imports), s.decls);
      RolledBack(lang, m, a, s);
    }
  }

  lemma RolledBack(lang: Language, m: Meta, a: Attempt, s: Submission)
    requires Sound(m) && FirstClash(m.names, Candidates(s.decls)).None?
    ensures var c := Compile(lang, m, s, a); Sound(Restore(c.meta, Snap(m))) && Sound(Restore(RunInits(c.meta, c.inits, a), Snap(m)))
  {
    SoundLinked(m);
    hide Sound, CompiledWell, Candidates, Compile, Restore, RunInits, LeftBy, Linked;
    var c, names := Compile(lang, m, s, a), NamesOf(Candidates(s.decls));
    FirstClashExact(m.names, Candidates(s.decls));
    CompileWell(lang, m, s, a);
    CompilationLeaves(lang, m, s, a);
    AllNewNames(m, Candidates(s.decls));
    RolledBackSound(lang, m, c, Restore(c.meta, Snap(m)), names);
    RolledBackSound(lang, m, c, Restore(RunInits(c.meta, c.inits, a), Snap(m)), names);
  }

  lemma SoundLinked(m: Meta)
    requires Sound(m)
    ensures Linked(m)
  {
  }

  lemma AllNewNames(m: Meta, rs: seq<Record>)
    requires AllNew(m.names, rs)
    ensures m.names.Keys !! NamesOf(rs)
  {
  }

  /** Every history leaves a sound session. */
  lemma {:induction false} AlwaysSound(lang: Language, events: seq<Event>)
    ensures Sound(After(lang, events))
  {
    hide Sound, Submit;
    EmptySound();
    if events != [] {
      var n := |events| - 1;
      AlwaysSound(lang, events[..n]);
      if events[n].Submitted? {
        SubmitSound(lang, After(lang, events[..n]), events[n].attempt);
      }
    }
  }
}

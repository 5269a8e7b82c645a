/** Histories in which failed submissions show: slots, methods, code, and instances taken for other functions. */
module ReplExamples {
  import opened Wrappers
  import opened ReplModel
  import opened ReplLinking
  import opened ReplHistory
  import opened ReplInvariant
  import opened ReplBuild
  import opened ReplReplay
  import opened ReplLeftovers

  /** A body in which nothing is met: its code is the slot number of `y`. */
  const READS_Y := Body((l: Linkage) => if "y" in l.globals then l.globals["y"].index else 0, [], true)

  const MAX := Instance(Key("", "Max"), Fun("Max").text, "[int]")

  /** A body that calls `Max[int]`: its code is the index it calls. */
  const CALLS_MAX := Body((l: Linkage) => if MAX in l.instances then l.instances[MAX] else 0, [Use(MAX, true)], true)

  /** A language that admits every file, in which `Max[int]` is the one instance. */
  const LANG := Language(_ => true, map[MAX := READS_Y])

  function Declaring(ds: seq<Decl>, body: Body, runs: bool): Attempt {
    Attempt(Some(Submission([], ds, [])), _ => IntBank, _ => body, READS_Y, READS_Y, 0, runs)
  }

  function Doing(body: Body, runs: bool): Attempt {
    Attempt(Some(Submission([], [], ["statement"])), _ => IntBank, _ => READS_Y, READS_Y, body, 0, runs)
  }

  function Var(x: Name): Decl {
    General([Named(x, VarKind)], "var " + x + " int")
  }

  function Fun(x: Name): Decl {
    Function("", x, "func " + x)
  }

  const METHOD := Function("T", "M", "func (T) M() {}")

  // ---------- declarations with one name each ----------

  ghost predicate Single(d: Decl) {
    !d.Init? && |NamesIn(d)| == 1
  }

  function NameIn(d: Decl): Name {
    if NamesIn(d) == [] then "" else NamesIn(d)[0].name
  }

  /** All different, and new to a session. */
  ghost predicate Singles(ds: seq<Decl>, taken: set<Name>) {
    && (forall i :: 0 <= i < |ds| ==> Single(ds[i]) && NameIn(ds[i]) !in taken)
    && (forall i, j :: 0 <= i < j < |ds| ==> NameIn(ds[i]) != NameIn(ds[j]))
  }

  lemma {:induction false} SingleCount(ds: seq<Decl>)
    requires forall i :: 0 <= i < |ds| ==> Single(ds[i])
    ensures |Candidates(ds)| == |ds|
  {
    if ds != [] {
      var n := |ds| - 1;
      assert forall i :: 0 <= i < n ==> ds[..n][i] == ds[i];
      SingleCount(ds[..n]);
      assert Single(ds[n]);
      hide NamesIn;
    }
  }

  lemma SingleRecord(d: Decl)
    requires Single(d)
    ensures var rs := RecordsOf(NamesIn(d), d); |rs| == 1 && rs[0].name == NameIn(d)
  {
    hide NamesIn;
  }

  lemma {:induction false} SingleNames(ds: seq<Decl>, i: nat)
    requires i < |ds| == |Candidates(ds)| && forall k :: 0 <= k < |ds| ==> Single(ds[k])
    ensures Candidates(ds)[i].name == NameIn(ds[i])
  {
    hide Candidates, NamesIn, NameIn, RecordsOf;
    var n := |ds| - 1;
    assert Single(ds[n]);
    SingleRecord(ds[n]);
    CandidatesSnoc(ds);
    hide Single;
    assert forall k :: 0 <= k < n ==> ds[..n][k] == ds[k];
    SingleCount(ds[..n]);
    if i < n {
      SingleNames(ds[..n], i);
    }
  }

  lemma SinglesPass(ds: seq<Decl>, names: map<Name, Kind>)
    requires Singles(ds, names.Keys)
    ensures FirstClash(names, Candidates(ds)).None? && forall i :: 0 <= i < |ds| ==> NameIn(ds[i]) in NamesOf(Candidates(ds))
  {
    hide Candidates, NameIn, FirstClash;
    SingleCount(ds);
    forall i | 0 <= i < |ds| ensures Candidates(ds)[i].name == NameIn(ds[i]) {
      SingleNames(ds, i);
    }
    FirstClashExact(names, Candidates(ds));
    forall i | 0 <= i < |ds| ensures NameIn(ds[i]) in NamesOf(Candidates(ds)) {
      assert Candidates(ds)[i].name in NamesOf(Candidates(ds));
    }
  }

  lemma {:induction false} SingleNewDecls(ds: seq<Decl>, names: set<Name>, inits: set<string>)
    requires forall i :: 0 <= i < |ds| ==> Single(ds[i]) && NameIn(ds[i]) in names
    ensures NewDecls(ds, names, inits) == ds
  {
    if ds != [] {
      var n := |ds| - 1;
      assert forall i :: 0 <= i < n ==> ds[..n][i] == ds[i];
      SingleNewDecls(ds[..n], names, inits);
      assert ds == ds[..n] + [ds[n]];
      assert Single(ds[n]) && NamesIn(ds[n])[0].name in names;
    }
  }

  /** Such a submission is compiled as it stands, and what comes of it depends on its bodies only. */
  lemma Passes(m: Meta, a: Attempt)
    requires Sound(m) && a.source.Some? && a.source.value.imports == [] && Singles(a.source.value.decls, m.names.Keys)
    ensures var ds := a.source.value.decls; var c, r := CompileNew(LANG, m, ds, a), Submit(LANG, m, a);
      && Compiles(m, a.source.value) == ds
      && r.outcome == (if c.stop == Broken then Crashed else if c.stop == Refused then Uncompiled else if a.runs then Done else Failed)
  {
    hide Sound, Singles, CompileNew, Combined, Commit;
    var s := a.source.value;
    SinglesPass(s.decls, m.names);
    assert forall i :: 0 <= i < |s.decls| ==> Single(s.decls[i]) by { SinglesAre(s.decls, m.names.Keys); }
    SingleNewDecls(s.decls, NamesOf(Candidates(s.decls)), m.compiledInits);
    hide Candidates, FirstClash, NewDecls;
    AddedIsNew(m, s);
  }

  lemma CompilesIt(m: Meta, a: Attempt)
    requires Sound(m) && a.source.Some? && a.source.value.imports == [] && Singles(a.source.value.decls, m.names.Keys)
    ensures Compile(LANG, m, a.source.value, a) == CompileNew(LANG, m, a.source.value.decls, a)
  {
    hide Sound, Singles, CompileNew, Submit;
    var s := a.source.value;
    Passes(m, a);
    SinglesPass(s.decls, m.names);
    AddedIsNew(m, s);
    hide NewDecls, Candidates, Retained;
  }

  lemma SinglesAre(ds: seq<Decl>, taken: set<Name>)
    requires Singles(ds, taken)
    ensures forall i :: 0 <= i < |ds| ==> Single(ds[i])
  {
  }

  lemma SingleDecl(d: Decl, taken: set<Name>)
    requires Single(d) && NameIn(d) !in taken
    ensures Singles([d], taken)
  {
  }

  lemma OneVar(x: Name)
    requires x != "_"
    ensures Single(Var(x)) && NameIn(Var(x)) == x && VarNames([Var(x)]) == {x}
    ensures forall bank: Name -> Bank :: bank(x) == IntBank ==> VarsInBank([Var(x)], bank, IntBank) == 1
  {
    var named := [Named(x, VarKind)];
    assert named[..0] == [] && [Var(x)][..0] == [];
    assert NotBlank([]) == [] && VarNames([]) == {};
    assert NotBlank(named) == [] + [named[0]];
    assert named[0].name in VarsNamed(named);
    forall bank: Name -> Bank | bank(x) == IntBank ensures VarsInBank([Var(x)], bank, IntBank) == 1 {
      assert NamedInBank([], bank, IntBank) == 0 && VarsInBank([], bank, IntBank) == 0;
    }
  }

  // ---------- compiling them ----------

  lemma PlainBody(ctx: Context, x: Pool, b: Body)
    requires b.items == [] && b.ok
    ensures CompileBody(LANG, ctx, x, b) == Built(x.(functions := x.functions + [b.own(Linkage(ctx.globals, ctx.table, map[], []))]), Going)
  {
    assert Chosen(x.specs, OwnUses([])) == map[];
    var started := x.functions + [0];
    assert forall code: Code :: started[|x.functions| := code] == x.functions + [code];
  }

  lemma PlainLoose(c: Compiled, b: Body)
    requires b.items == [] && b.ok
    ensures CompileLoose(LANG, c, b) == c
  {
  }

  /** With a plain initialiser and plain statements compiling is registering variables and compiling functions. */
  lemma PlainNew(m: Meta, ds: seq<Decl>, a: Attempt)
    requires a.variableInit == READS_Y && a.evaluation == READS_Y
    ensures CompileNew(LANG, m, ds, a) == CompileFuncs(LANG, Registered(m, ds, a), ds, a.bodies)
  {
    hide CompileFuncs, CompileLoose, Registered, CompileNew;
    CompileNewIs(LANG, m, ds, a);
    var c := CompileFuncs(LANG, Registered(m, ds, a), ds, a.bodies);
    PlainLoose(c, a.variableInit);
    PlainLoose(c, a.evaluation);
  }

  /** A single function. */
  lemma FunCompiles(m: Meta, d: Decl, body: Body, runs: bool)
    requires d.Function?
    ensures var m' := Enter(m, d); var r := CompileBody(LANG, Context(m'.globals, m'.table), PoolOf(m), body);
      CompileNew(LANG, m, [d], Declaring([d], body, runs)) == Compiled(Refilled(m', r.pool), [], r.stop)
  {
    hide CompileBody, CompileNew;
    var a := Declaring([d], body, runs);
    PlainNew(m, [d], a);
    assert [d][..0] == [];
    var x := Registered(m, [d], a);
    assert x == m by {
      assert InitTexts([d]) == {} && m.compiledInits + {} == m.compiledInits;
      assert RegisterVars(m, [], a.bank) == m;
    }
    assert CompileFuncs(LANG, m, [], a.bodies) == Compiled(m, [], Going);
  }

  /** A single variable. */
  lemma VarCompiles(m: Meta, x: Name, runs: bool)
    ensures var a := Declaring([Var(x)], READS_Y, runs); CompileNew(LANG, m, [Var(x)], a).stop == Going
  {
    hide CompileNew, Registered;
    var a := Declaring([Var(x)], READS_Y, runs);
    PlainNew(m, [Var(x)], a);
    assert [Var(x)][..0] == [];
  }

  lemma AfterSnoc(events: seq<Event>, a: Attempt)
    requires Submit(LANG, After(LANG, events), a).outcome != Crashed
    ensures After(LANG, events + [Submitted(a)]) == Submit(LANG, After(LANG, events), a).meta
    ensures Successes(LANG, events + [Submitted(a)]) ==
      Successes(LANG, events) + if Submit(LANG, After(LANG, events), a).outcome == Done then [Submitted(a)] else []
  {
    hide Submit;
    assert (events + [Submitted(a)])[..|events|] == events;
  }

  lemma First(a: Attempt)
    requires Submit(LANG, EMPTY, a).outcome != Crashed
    ensures After(LANG, [Submitted(a)]) == Submit(LANG, EMPTY, a).meta
    ensures Successes(LANG, [Submitted(a)]) == if Submit(LANG, EMPTY, a).outcome == Done then [Submitted(a)] else []
  {
    hide Submit;
    var none: seq<Event> := [];
    assert none + [Submitted(a)] == [Submitted(a)] && After(LANG, none) == EMPTY;
    AfterSnoc(none, a);
  }

  // ---------- slots and methods ----------

  /** A failed `var x` leaves the session as it was, but for one reserved slot. */
  lemma FailedVar()
    ensures var a := Declaring([Var("x")], READS_Y, false); var r := Submit(LANG, EMPTY, a);
      && r.outcome == Failed && Sound(r.meta) && r.meta == EMPTY.(methods := r.meta.methods, slots := r.meta.slots, specs := r.meta.specs)
      && Count(r.meta.slots, IntBank) == 1 && Wasted(LANG, [Submitted(a)], IntBank) == 1 && After(LANG, [Submitted(a)]) == r.meta
  {
    hide Submit, Sound, CompileNew, SlotsGrow, More;
    var a := Declaring([Var("x")], READS_Y, false);
    EmptySound();
    OneVar("x");
    SingleDecl(Var("x"), {});
    VarCompiles(EMPTY, "x", false);
    Passes(EMPTY, a);
    SoundLinked(EMPTY);
    FailureKeeps(LANG, EMPTY, a);
    FailureReserves(LANG, EMPTY, a, IntBank);
    AlwaysSound(LANG, [Submitted(a)]);
    First(a);
    assert [Submitted(a)][..0] == [];
  }

  /** A failed `var x` moves the slot of a later `var y` of its bank. */
  lemma SlotsCanDiffer()
    ensures !Aligned(LANG, [Submitted(Declaring([Var("x")], READS_Y, false)), Submitted(Declaring([Var("y")], READS_Y, true))])
  {
    hide Submit, Sound, Vars, Wasted, CompileNew;
    var first, second := Submitted(Declaring([Var("x")], READS_Y, false)), Submitted(Declaring([Var("y")], READS_Y, true));
    FailedVar();
    OneVar("y");
    var m := After(LANG, [first]);
    SingleDecl(Var("y"), m.names.Keys);
    VarCompiles(m, "y", true);
    Passes(m, second.attempt);
    VarsOfCompiled(m, second.attempt.source.value);
    assert [first, second][..1] == [first];
    assert "y" in {"y"} && second.attempt.bank("y") == IntBank;
  }

  /** A failed method declaration leaves its entry behind. */
  lemma MethodsCanDiffer()
    ensures Leftover(LANG, [Submitted(Declaring([METHOD], READS_Y, false))]) == {Key("T", "M")}
  {
    hide Submit, Sound, CompileNew, Compiles;
    var a := Declaring([METHOD], READS_Y, false);
    EmptySound();
    SingleDecl(METHOD, {});
    FunCompiles(EMPTY, METHOD, READS_Y, false);
    PlainBody(Context(map[], Enter(EMPTY, METHOD).table), PoolOf(EMPTY), READS_Y);
    Passes(EMPTY, a);
    NewEnters(LANG, EMPTY, [METHOD], a);
    assert [Submitted(a)][..0] == [] && After(LANG, []) == EMPTY;
    assert [METHOD][..0] == [] && KeysIn([]) == {};
    assert Methods({Key("T", "M")}) == {Key("T", "M")};
  }

  // ---------- code ----------

  lemma ReaderSingles(taken: set<Name>)
    requires "y" !in taken && "g" !in taken
    ensures Singles([Var("y"), Fun("g")], taken)
  {
    OneVar("y");
    assert NameIn(Fun("g")) == "g";
  }

  /** With `y` declared, the code of `g` is the slot number `y` gets. */
  lemma ReaderCode(m: Meta)
    requires Sound(m) && m.names == map[] && m.functions == []
    ensures var r := Submit(LANG, m, Declaring([Var("y"), Fun("g")], READS_Y, true));
      r.outcome == Done && r.meta.functions == [Count(m.slots, IntBank)]
  {
    hide Submit, Sound, CompileNew;
    var ds := [Var("y"), Fun("g")];
    var a := Declaring(ds, READS_Y, true);
    ReaderSingles({});
    ReaderCompiles(m, a);
    Passes(m, a);
    DonePool(LANG, m, a);
  }

  lemma ReaderCompiles(m: Meta, a: Attempt)
    requires m.functions == [] && a == Declaring([Var("y"), Fun("g")], READS_Y, true)
    ensures var c := CompileNew(LANG, m, [Var("y"), Fun("g")], a); c.stop == Going && c.meta.functions == [Count(m.slots, IntBank)]
  {
    hide CompileNew, CompileBody;
    var ds := [Var("y"), Fun("g")];
    PlainNew(m, ds, a);
    ReaderRegisters(m, a);
    var x := Registered(m, ds, a);
    hide Registered;
    assert ds[..1] == [Var("y")] && [Var("y")][..0] == [];
    assert CompileFuncs(LANG, x, [], a.bodies) == Compiled(x, [], Going);
    assert CompileFuncs(LANG, x, [Var("y")], a.bodies) == Compiled(x, [], Going);
    var e := Enter(x, Fun("g"));
    PlainBody(Context(e.globals, e.table), PoolOf(e), READS_Y);
  }

  lemma ReaderRegisters(m: Meta, a: Attempt)
    requires a == Declaring([Var("y"), Fun("g")], READS_Y, true)
    ensures var x := Registered(m, [Var("y"), Fun("g")], a);
      x.functions == m.functions && "y" in x.globals && x.globals["y"].index == Count(m.slots, IntBank)
  {
    var ds, named := [Var("y"), Fun("g")], [Named("y", VarKind)];
    var marked := m.(compiledInits := m.compiledInits + InitTexts(ds));
    assert ds[..1] == [Var("y")] && [Var("y")][..0] == [] && named[..0] == [];
    assert RegisterVars(marked, [], a.bank) == marked && RegisterNames(marked, [], a.bank) == marked;
    assert RegisterNames(marked, named, a.bank) == Reserve(marked, "y", IntBank);
    assert RegisterVars(marked, [Var("y")], a.bank) == Reserve(marked, "y", IntBank);
  }

  /** A failed `var x` changes the code of a later function that reads `y`. */
  lemma CodeCanDiffer()
    ensures var events := [Submitted(Declaring([Var("x")], READS_Y, false)), Submitted(Declaring([Var("y"), Fun("g")], READS_Y, true))];
      After(LANG, events).functions == [1] && After(LANG, Successes(LANG, events)).functions == [0]
  {
    hide Submit, Sound, Wasted, After, Successes;
    var first, second := Declaring([Var("x")], READS_Y, false), Declaring([Var("y"), Fun("g")], READS_Y, true);
    FailedVar();
    EmptySound();
    ReaderCode(Submit(LANG, EMPTY, first).meta);
    ReaderCode(EMPTY);
    First(first);
    First(second);
    AfterSnoc([Submitted(first)], second);
    assert [Submitted(first)] + [Submitted(second)] == [Submitted(first), Submitted(second)];
    assert [] + [Submitted(second)] == [Submitted(second)];
  }

  // ---------- instances ----------

  const MAX_DECLARED := Declaring([Fun("Max")], READS_Y, true)
  const MAX_TRIED := Doing(CALLS_MAX, false)
  const MAX_USED := Declaring([Fun("g")], CALLS_MAX, true)

  /** What declaring a function comes to when its body compiles. */
  lemma Declared(m: Meta, x: Name, body: Body)
    requires Sound(m) && x !in m.names
    requires var e := Enter(m, Fun(x)); CompileBody(LANG, Context(e.globals, e.table), PoolOf(m), body).stop == Going
    ensures var e := Enter(m, Fun(x)); var pool := CompileBody(LANG, Context(e.globals, e.table), PoolOf(m), body).pool;
      var r := Submit(LANG, m, Declaring([Fun(x)], body, true));
      && r.outcome == Done && r.meta.functions == pool.functions && r.meta.specs == pool.specs && r.meta.table == e.table
      && r.meta.names == m.names[x := FuncKind] && Sound(r.meta)
  {
    hide Submit, Sound, CompileNew, CompileBody, Enter;
    var a := Declaring([Fun(x)], body, true);
    SingleDecl(Fun(x), m.names.Keys);
    FunCompiles(m, Fun(x), body, true);
    Passes(m, a);
    DonePool(LANG, m, a);
    SubmitSound(LANG, m, a);
    DeclaredNames(m, x, body);
  }

  lemma DeclaredNames(m: Meta, x: Name, body: Body)
    requires var r := Submit(LANG, m, Declaring([Fun(x)], body, true)); r.outcome == Done
    ensures var r := Submit(LANG, m, Declaring([Fun(x)], body, true)); r.meta.names == m.names[x := FuncKind]
  {
    hide Compile, Combined, FirstClash, Candidates, Fun, RunInits, CommitRecords;
    var a := Declaring([Fun(x)], body, true);
    var c := Compile(LANG, m, a.source.value, a);
    CompileKeepsNames(m, a);
    FunRecord(x);
    var d := RunInits(c.meta, c.inits, a);
    InitsKeepNames(c.meta, c.inits, a);
    assert CommitImports(d, []) == d;
    OneRecord(d, Record(x, FuncKind, Fun(x)));
  }

  lemma FunRecord(x: Name)
    ensures Candidates([Fun(x)]) == [Record(x, FuncKind, Fun(x))]
  {
    assert [Fun(x)][..0] == [] && Candidates([]) == [];
    assert Candidates([Fun(x)]) == [] + [Record(x, FuncKind, Fun(x))];
  }

  lemma InitsKeepNames(m: Meta, inits: seq<nat>, a: Attempt)
    ensures RunInits(m, inits, a).names == m.names
  {
  }

  lemma OneRecord(m: Meta, r: Record)
    ensures CommitRecords(m, [r]).names == m.names[r.name := r.kind]
  {
    assert [r][..0] == [] && CommitRecords(m, []) == m;
  }

  lemma CompileKeepsNames(m: Meta, a: Attempt)
    requires a.source.Some?
    ensures Compile(LANG, m, a.source.value, a).meta.names == m.names
  {
    hide CompileNew, NewDecls, Candidates, Retained, SlotsGrow;
    CompileNewGrows(LANG, m, NewDecls(Retained(m.records) + a.source.value.decls, NamesOf(Candidates(a.source.value.decls)), m.compiledInits), a);
  }

  /** Meeting `Max[int]`: an instance is made, or an index is found. */
  lemma MaxMet(ctx: Context, x: Pool)
    requires MAX.callee in ctx.table
    ensures var w := CompileItems(LANG, ctx, x, CALLS_MAX.items);
      if MAX in x.specs then w == Worked(x, [], if x.specs[MAX] < |x.functions| then Going else Broken)
      else w == Worked(Pool(x.functions + [READS_Y.own(Linkage(ctx.globals, ctx.table, map[], []))], x.specs[MAX := |x.functions|]), [], Going)
  {
    var items := [Use(MAX, true)];
    assert items[..0] == [] && CompileItems(LANG, ctx, x, []) == Worked(x, [], Going);
    if MAX !in x.specs {
      PlainBody(ctx, x.(specs := x.specs[MAX := |x.functions|]), READS_Y);
    }
    hide CompileBody;
    assert CompileItems(LANG, ctx, x, items).pool == CompileUse(LANG, ctx, x, MAX, true).pool;
  }

  /** A function that calls `Max[int]` is compiled to the index found or made. */
  lemma MaxCalled(ctx: Context, x: Pool)
    requires MAX.callee in ctx.table && (MAX in x.specs ==> x.specs[MAX] <= |x.functions|)
    ensures var r := CompileBody(LANG, ctx, x, CALLS_MAX); var n := |x.functions|;
      && r.stop == Going && |r.pool.functions| == n + (if MAX in x.specs then 1 else 2) && r.pool.functions[..n] == x.functions
      && r.pool.functions[n] == (if MAX in x.specs then x.specs[MAX] else n + 1)
      && r.pool.specs == if MAX in x.specs then x.specs else x.specs[MAX := n + 1]
  {
    var started := x.(functions := x.functions + [0]);
    MaxMet(ctx, started);
    var w := CompileItems(LANG, ctx, started, CALLS_MAX.items);
    hide CompileItems;
    assert CALLS_MAX.items[0] == Use(MAX, true);
    assert MAX in OwnUses(CALLS_MAX.items);
  }

  /** An index past the list breaks the compiler. */
  lemma MaxMissed(ctx: Context, x: Pool)
    requires MAX.callee in ctx.table && MAX in x.specs && x.specs[MAX] > |x.functions|
    ensures CompileBody(LANG, ctx, x, CALLS_MAX).stop == Broken
  {
    MaxMet(ctx, x.(functions := x.functions + [0]));
    hide CompileItems;
  }

  /** A session that declares `Max` only. */
  ghost predicate HasMax(m: Meta) {
    && Sound(m) && m.table == map[MAX.callee := 0] && m.names == map["Max" := FuncKind] && m.functions == [0]
    && (MAX in m.specs ==> m.specs[MAX] == 1)
  }

  lemma MaxDeclared()
    ensures var r := Submit(LANG, EMPTY, MAX_DECLARED); r.outcome == Done && HasMax(r.meta) && r.meta.specs == map[]
  {
    hide Submit, Sound;
    EmptySound();
    var e := Enter(EMPTY, Fun("Max"));
    PlainBody(Context(e.globals, e.table), PoolOf(EMPTY), READS_Y);
    Declared(EMPTY, "Max", READS_Y);
  }

  /** `g`, which calls `Max[int]`, calls itself if a stale index is found, and the new instance otherwise. */
  lemma MaxUsed(m: Meta)
    requires HasMax(m)
    ensures var r := Submit(LANG, m, MAX_USED); var g := Key("", "g");
      && r.outcome == Done && g in r.meta.table && r.meta.table[g] == 1
      && |r.meta.functions| == (if MAX in m.specs then 2 else 3) && r.meta.functions[1] == if MAX in m.specs then 1 else 2
  {
    hide Submit, Sound, CompileBody;
    var e := Enter(m, Fun("g"));
    MaxCalled(Context(e.globals, e.table), PoolOf(m));
    Declared(m, "g", CALLS_MAX);
  }

  /** Statements that call `Max[int]`: they crash the compiler if the instance is stale, and leave it stale if they fail. */
  lemma MaxInStatements(m: Meta, runs: bool)
    requires HasMax(m)
    ensures Submit(LANG, m, Doing(CALLS_MAX, runs)).outcome == (if MAX in m.specs then Crashed else if runs then Done else Failed)
  {
    hide Submit, Sound, CompileItems, CompileNew, Compiles;
    MaxMet(Context(m.globals, m.table), PoolOf(m));
    StatementsCompile(m, runs);
    Passes(m, Doing(CALLS_MAX, runs));
  }

  lemma MaxTried(m: Meta)
    requires HasMax(m) && MAX !in m.specs
    ensures var r := Submit(LANG, m, MAX_TRIED).meta; HasMax(r) && MAX in r.specs
  {
    hide Submit, Sound, Compile, More, SlotsGrow, Linked;
    TriedCompiles(m);
    MaxInStatements(m, false);
    SoundLinked(m);
    SubmitSound(LANG, m, MAX_TRIED);
    FailureKeeps(LANG, m, MAX_TRIED);
    FailureSpecs(m, MAX_TRIED);
    assert MAX in StillThere(m.specs[MAX := 1], m.table);
  }

  lemma TriedCompiles(m: Meta)
    requires HasMax(m) && MAX !in m.specs
    ensures MAX_TRIED.source.Some? && Compile(LANG, m, MAX_TRIED.source.value, MAX_TRIED).meta.specs == m.specs[MAX := 1]
  {
    hide Sound, CompileItems, CompileNew, Compile;
    assert MAX_TRIED.source.value.decls == [];
    MaxMet(Context(m.globals, m.table), PoolOf(m));
    StatementsCompile(m, false);
    CompilesIt(m, MAX_TRIED);
  }

  lemma StatementsCompile(m: Meta, runs: bool)
    ensures var a := Doing(CALLS_MAX, runs); var w := CompileItems(LANG, Context(m.globals, m.table), PoolOf(m), CALLS_MAX.items);
      CompileNew(LANG, m, [], a) == Compiled(Refilled(m, w.pool), [], w.stop)
  {
    var a := Doing(CALLS_MAX, runs);
    assert InitTexts([]) == {} && m.compiledInits + {} == m.compiledInits;
    assert Registered(m, [], a) == m;
    CompileNewIs(LANG, m, [], a);
    PlainLoose(Compiled(m, [], Going), a.variableInit);
    hide CompileItems, CompileNew;
  }

  lemma FailureSpecs(m: Meta, a: Attempt)
    requires Submit(LANG, m, a).outcome == Failed && a.source.Some?
    ensures Submit(LANG, m, a).meta.specs == StillThere(Compile(LANG, m, a.source.value, a).meta.specs, m.table)
  {
    hide Compile, Candidates, FirstClash, Combined, Commit, CandidateImports;
  }

  /** After a failed call of `Max[int]` a function that calls it calls itself; without the failure it calls the instance. */
  lemma StaleInstance()
    ensures var events := [Submitted(MAX_DECLARED), Submitted(MAX_TRIED), Submitted(MAX_USED)]; var g := Key("", "g");
      var m, n := After(LANG, events), After(LANG, Successes(LANG, events));
      && |m.functions| == 2 && g in m.table && m.table[g] == 1 && m.functions[1] == 1
      && |n.functions| == 3 && g in n.table && n.table[g] == 1 && n.functions[1] == 2
      && !Untainted(LANG, events)
  {
    hide Submit, HasMax, After, Successes;
    var m, m', first, second := TwoSteps();
    MaxUsed(m);
    MaxUsed(m');
    AfterSnoc(second, MAX_USED);
    AfterSnoc(first, MAX_USED);
    var events := [Submitted(MAX_DECLARED), Submitted(MAX_TRIED), Submitted(MAX_USED)];
    assert second + [Submitted(MAX_USED)] == events;
    FailuresLeaveNoTrace(LANG, events);
    if Untainted(LANG, events) {
      SameCounts(After(LANG, events), After(LANG, Successes(LANG, events)));
    }
  }

  lemma SameCounts(m: Meta, n: Meta)
    requires Alike(m, n)
    ensures |m.functions| == |n.functions|
  {
  }

  lemma TwoSteps() returns (m: Meta, m': Meta, first: seq<Event>, second: seq<Event>)
    ensures first == [Submitted(MAX_DECLARED)] && second == [Submitted(MAX_DECLARED), Submitted(MAX_TRIED)]
    ensures HasMax(m) && MAX !in m.specs && HasMax(m') && MAX in m'.specs
    ensures After(LANG, first) == m && After(LANG, second) == m' && Successes(LANG, first) == first && Successes(LANG, second) == first
  {
    hide Submit, HasMax, After, Successes;
    first, second := [Submitted(MAX_DECLARED)], [Submitted(MAX_DECLARED), Submitted(MAX_TRIED)];
    MaxDeclared();
    m := Submit(LANG, EMPTY, MAX_DECLARED).meta;
    MaxInStatements(m, false);
    MaxTried(m);
    m' := Submit(LANG, m, MAX_TRIED).meta;
    First(MAX_DECLARED);
    AfterSnoc(first, MAX_TRIED);
    assert first + [Submitted(MAX_TRIED)] == second;
  }

  /** After a failed call of `Max[int]` in a statement, calling it in a statement again makes the compiler panic. */
  lemma StaleCrash()
    ensures Submit(LANG, After(LANG, [Submitted(MAX_DECLARED), Submitted(MAX_TRIED)]), Doing(CALLS_MAX, true)).outcome == Crashed
  {
    hide Submit, HasMax, After, Successes;
    var _, m', _, _ := TwoSteps();
    MaxInStatements(m', true);
  }

  const MAX_TRIED_IN_F := Declaring([Fun("f")], CALLS_MAX, false)

  /** A failed declaration of a function that calls `Max[int]` leaves an index one further on. */
  lemma MaxTriedCompiles(m: Meta)
    requires HasMax(m) && MAX !in m.specs
    ensures Singles([Fun("f")], m.names.Keys)
    ensures var c := CompileNew(LANG, m, [Fun("f")], MAX_TRIED_IN_F); c.stop == Going && c.meta.specs == m.specs[MAX := 2]
  {
    hide Sound, CompileNew, CompileBody;
    var e := Enter(m, Fun("f"));
    SingleDecl(Fun("f"), m.names.Keys);
    FunCompiles(m, Fun("f"), CALLS_MAX, false);
    MaxCalled(Context(e.globals, e.table), PoolOf(m));
  }

  lemma MaxTriedInF(m: Meta)
    requires HasMax(m) && MAX !in m.specs
    ensures var r := Submit(LANG, m, MAX_TRIED_IN_F);
      && r.outcome == Failed && Sound(r.meta) && r.meta == m.(methods := r.meta.methods, slots := r.meta.slots, specs := r.meta.specs)
      && MAX in r.meta.specs && r.meta.specs[MAX] == 2
  {
    hide Submit, Sound, CompileNew, CompileBody, More, SlotsGrow, Linked, Compile, Singles;
    MaxTriedCompiles(m);
    Passes(m, MAX_TRIED_IN_F);
    SoundLinked(m);
    SubmitSound(LANG, m, MAX_TRIED_IN_F);
    FailureKeeps(LANG, m, MAX_TRIED_IN_F);
    FailureSpecs(m, MAX_TRIED_IN_F);
    CompilesIt(m, MAX_TRIED_IN_F);
    assert MAX in StillThere(m.specs[MAX := 2], m.table);
  }

  /** `func Max[T ...]`, then `func f() int { return Max[int](1, 2) }; panic("x")`, then `func g() int { return Max[int](3, 4) }`: the compiler panics. */
  lemma StaleCrashInFunction()
    ensures Submit(LANG, After(LANG, [Submitted(MAX_DECLARED), Submitted(MAX_TRIED_IN_F)]), MAX_USED).outcome == Crashed
  {
    hide Submit, Sound, CompileNew, CompileBody, After, Successes;
    MaxDeclared();
    var m := Submit(LANG, EMPTY, MAX_DECLARED).meta;
    MaxTriedInF(m);
    var m' := Submit(LANG, m, MAX_TRIED_IN_F).meta;
    First(MAX_DECLARED);
    AfterSnoc([Submitted(MAX_DECLARED)], MAX_TRIED_IN_F);
    assert [Submitted(MAX_DECLARED)] + [Submitted(MAX_TRIED_IN_F)] == [Submitted(MAX_DECLARED), Submitted(MAX_TRIED_IN_F)];
    var e := Enter(m', Fun("g"));
    SingleDecl(Fun("g"), m'.names.Keys);
    FunCompiles(m', Fun("g"), CALLS_MAX, true);
    MaxMissed(Context(e.globals, e.table), PoolOf(m'));
    Passes(m', MAX_USED);
  }
}

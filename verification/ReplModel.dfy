/** A session's metadata and what one submission does to it: candidates, checks, compilation, rollback and commit. */
module ReplModel {
  import opened Wrappers

  type Name = string
  type Code = int

  // ---------- submissions ----------

  datatype Kind = FuncKind | VarKind | ConstKind | TypeKind

  datatype Named = Named(name: Name, kind: Kind)

  /** A declaration. Its text stands for itself: equal texts are equal declarations. */
  datatype Decl =
    | Function(receiver: Name, name: Name, text: string)
    | Init(text: string)
    | General(named: seq<Named>, text: string)

  datatype Import = Import(path: string, alias: string)

  datatype Submission = Submission(imports: seq<Import>, decls: seq<Decl>, statements: seq<string>)

  function NotBlank(named: seq<Named>): seq<Named> {
    if named == [] then []
    else
      var n := |named| - 1;
      if named[n].name == "_" then NotBlank(named[..n]) else NotBlank(named[..n]) + [named[n]]
  }

  /** The names a declaration introduces; an init function introduces none. */
  function NamesIn(d: Decl): seq<Named> {
    match d
    case Function(_, x, _) => [Named(x, FuncKind)]
    case Init(_) => []
    case General(named, _) => NotBlank(named)
  }

  datatype Record = Record(name: Name, kind: Kind, source: Decl)

  function RecordsOf(named: seq<Named>, d: Decl): (r: seq<Record>)
    ensures |r| == |named| && forall i :: 0 <= i < |r| ==> r[i] == Record(named[i].name, named[i].kind, d)
  {
    seq(|named|, i requires 0 <= i < |named| => Record(named[i].name, named[i].kind, d))
  }

  /** One record for each name, in source order. */
  function Candidates(ds: seq<Decl>): seq<Record> {
    if ds == [] then []
    else Candidates(ds[..|ds| - 1]) + RecordsOf(NamesIn(ds[|ds| - 1]), ds[|ds| - 1])
  }

  function NamesOf(rs: seq<Record>): set<Name> {
    set i | 0 <= i < |rs| :: rs[i].name
  }

  function PathsOf(imps: seq<Import>): set<string> {
    set i | 0 <= i < |imps| :: imps[i].path
  }

  /** The imports not known yet, each path once. */
  function CandidateImports(known: set<string>, specs: seq<Import>): seq<Import> {
    if specs == [] then []
    else
      var n := |specs| - 1;
      var front := CandidateImports(known, specs[..n]);
      if specs[n].path in known || specs[n].path in PathsOf(front) then front else front + [specs[n]]
  }

  datatype Clash = InSession(name: Name, kind: Kind) | InSubmission(name: Name)

  /** The first name that is already declared, in the session or earlier in the submission. */
  function FirstClash(names: map<Name, Kind>, rs: seq<Record>): Option<Clash> {
    if rs == [] then None
    else
      var n := |rs| - 1;
      var front := FirstClash(names, rs[..n]);
      if front.Some? then front
      else if rs[n].name in names then Some(InSession(rs[n].name, names[rs[n].name]))
      else if rs[n].name in NamesOf(rs[..n]) then Some(InSubmission(rs[n].name))
      else None
  }

  // ---------- the session ----------

  datatype Key = Key(receiver: Name, name: Name)

  /** The service's store keeps one list of variables for each kind of register. */
  datatype Bank = IntBank | FloatBank | StringBank | BoolBank | UintBank | ComplexBank | GeneralBank

  datatype Slot = Slot(bank: Bank, index: nat)

  type Globals = map<Name, Slot>

  type Counters = map<Bank, nat>

  /** How many variables a bank holds. */
  function Count(slots: Counters, bank: Bank): nat {
    if bank in slots then slots[bank] else 0
  }

  /** A generic function, by its key and text, at type arguments. */
  datatype Instance = Instance(callee: Key, text: string, args: string)

  datatype Meta = Meta(
    imports: map<string, string>,
    importOrder: seq<string>,
    records: seq<Record>,
    names: map<Name, Kind>,
    submits: nat,
    functions: seq<Code>,
    table: map<Key, nat>,
    methods: map<Key, nat>,
    globals: Globals,
    slots: Counters,
    specs: map<Instance, nat>,
    executedInits: set<nat>,
    compiledDecls: set<Name>,
    compiledInits: set<string>)

  const EMPTY := Meta(map[], [], [], map[], 0, [], map[], map[], map[], map[], map[], {}, {}, {})

  /** The distinct declarations behind the records, in order of first occurrence. */
  function Retained(rs: seq<Record>): seq<Decl> {
    if rs == [] then []
    else
      var n := |rs| - 1;
      var front := Retained(rs[..n]);
      if rs[n].source in front then front else front + [rs[n].source]
  }

  datatype Line =
    | PackageLine
    | ImportLine(path: string, alias: string)
    | DeclLine(decl: Decl)
    | SubmittedLine(submitted: Decl)
    | EvalOpen
    | StatementLine(statement: string)
    | EvalClose

  function KnownImports(order: seq<string>, imports: map<string, string>): (r: seq<Line>)
    ensures |r| == |order|
  {
    seq(|order|, i requires 0 <= i < |order| => ImportLine(order[i], if order[i] in imports then imports[order[i]] else ""))
  }

  function NewImports(imps: seq<Import>): (r: seq<Line>)
    ensures |r| == |imps|
  {
    seq(|imps|, i requires 0 <= i < |imps| => ImportLine(imps[i].path, imps[i].alias))
  }

  function DeclLines(ds: seq<Decl>): (r: seq<Line>)
    ensures |r| == |ds|
  {
    seq(|ds|, i requires 0 <= i < |ds| => DeclLine(ds[i]))
  }

  function SubmittedLines(ds: seq<Decl>): (r: seq<Line>)
    ensures |r| == |ds|
  {
    seq(|ds|, i requires 0 <= i < |ds| => SubmittedLine(ds[i]))
  }

  function StatementLines(ss: seq<string>): (r: seq<Line>)
    ensures |r| == |ss|
  {
    seq(|ss|, i requires 0 <= i < |ss| => StatementLine(ss[i]))
  }

  /** The file that is type-checked: everything retained, then the submission. */
  function Combined(m: Meta, imps: seq<Import>, s: Submission): seq<Line> {
    [PackageLine] + KnownImports(m.importOrder, m.imports) + NewImports(imps) + DeclLines(Retained(m.records))
    + SubmittedLines(s.decls) + [EvalOpen] + StatementLines(s.statements) + [EvalClose]
  }

  // ---------- compilation ----------

  /** What code may embed: slots of variables, indices of functions, of the instances it uses and of the literals in it. */
  datatype Linkage = Linkage(globals: Globals, table: map<Key, nat>, instances: map<Instance, nat>, literals: seq<nat>)

  /** What compiling a body meets, in order: a function literal, or a use of an instance, by a call or as a value. */
  datatype Item = Literal(body: Body) | Use(instance: Instance, called: bool)

  /** A body: its own code, what is met in it, and whether it compiles once all that has. */
  datatype Body = Body(own: Linkage -> Code, items: seq<Item>, ok: bool)

  /** The type checker's verdict on a file, and the bodies of the instances it admits. */
  datatype Language = Language(check: seq<Line> -> bool, templates: map<Instance, Body>)

  /** One submission with the answers of the parser, the type checker, the compiler and the machine. */
  datatype Attempt = Attempt(
    source: Option<Submission>,
    bank: Name -> Bank,
    bodies: nat -> Body,
    variableInit: Body,
    evaluation: Body,
    initsRun: nat,
    runs: bool)

  /** The functions compiled so far, and where the instances are among them. */
  datatype Pool = Pool(functions: seq<Code>, specs: map<Instance, nat>)

  datatype Context = Context(globals: Globals, table: map<Key, nat>)

  /** Compilation goes on, ended with an error, or made the compiler itself panic. */
  datatype Stop = Going | Refused | Broken

  datatype Built = Built(pool: Pool, stop: Stop)

  datatype Worked = Worked(pool: Pool, literals: seq<nat>, stop: Stop)

  function SizeOf(item: Item): (r: nat)
    ensures r > 0 && (item.Literal? ==> r > Size(item.body.items))
  {
    if item.Literal? then 1 + Size(item.body.items) else 1
  }

  function Size(items: seq<Item>): nat {
    if items == [] then 0 else Size(items[..|items| - 1]) + SizeOf(items[|items| - 1])
  }

  /** The instances used by a body itself, not by a literal in it. */
  function OwnUses(items: seq<Item>): set<Instance> {
    set k | 0 <= k < |items| && items[k].Use? :: items[k].instance
  }

  function Chosen(specs: map<Instance, nat>, uses: set<Instance>): map<Instance, nat> {
    map i | i in specs && i in uses :: specs[i]
  }

  /** Compiles what a body meets, in order. */
  function CompileItems(lang: Language, ctx: Context, x: Pool, items: seq<Item>): (w: Worked)
    ensures |x.functions| <= |w.pool.functions| && x.specs.Keys <= w.pool.specs.Keys
    decreases lang.templates.Keys - x.specs.Keys, Size(items), 1
  {
    if items == [] then Worked(x, [], Going)
    else
      var n := |items| - 1;
      var w := CompileItems(lang, ctx, x, items[..n]);
      if w.stop != Going then w
      else match items[n]
        case Literal(b) =>
          var r := CompileBody(lang, ctx, w.pool, b);
          Worked(r.pool, w.literals + [|w.pool.functions|], r.stop)
        case Use(i, called) =>
          var r := CompileUse(lang, ctx, w.pool, i, called);
          Worked(r.pool, w.literals, r.stop)
  }

  /** Reserves the next index, compiles what the body meets, and puts the body's own code in its place. */
  function CompileBody(lang: Language, ctx: Context, x: Pool, b: Body): (r: Built)
    ensures |x.functions| < |r.pool.functions| && x.specs.Keys <= r.pool.specs.Keys
    decreases lang.templates.Keys - x.specs.Keys, Size(b.items), 2
  {
    var w := CompileItems(lang, ctx, x.(functions := x.functions + [0]), b.items);
    var code := b.own(Linkage(ctx.globals, ctx.table, Chosen(w.pool.specs, OwnUses(b.items)), w.literals));
    Built(w.pool.(functions := w.pool.functions[|x.functions| := code]), if w.stop == Going && !b.ok then Refused else w.stop)
  }

  /** Finds an instance or makes it, entering it before its body is compiled; calling what is not there breaks the compiler. */
  function CompileUse(lang: Language, ctx: Context, x: Pool, i: Instance, called: bool): (r: Built)
    ensures |x.functions| <= |r.pool.functions| && x.specs.Keys <= r.pool.specs.Keys
    decreases lang.templates.Keys - x.specs.Keys, 0, 0
  {
    if i !in lang.templates then Built(x, Going)
    else if i.callee !in ctx.table then Built(x, Refused)
    else if i in x.specs then Built(x, if called && x.specs[i] >= |x.functions| then Broken else Going)
    else
      assert i in lang.templates.Keys - x.specs.Keys;
      CompileBody(lang, ctx, x.(specs := x.specs[i := |x.functions|]), lang.templates[i])
  }

  predicate Keeps(d: Decl, added: set<Name>, compiledInits: set<string>) {
    if d.Init? then d.text !in compiledInits
    else exists i :: 0 <= i < |NamesIn(d)| && NamesIn(d)[i].name in added
  }

  /** The declarations of the file that are compiled this time. */
  function NewDecls(ds: seq<Decl>, added: set<Name>, compiledInits: set<string>): seq<Decl> {
    if ds == [] then []
    else
      var n := |ds| - 1;
      var front := NewDecls(ds[..n], added, compiledInits);
      if Keeps(ds[n], added, compiledInits) then front + [ds[n]] else front
  }

  function InitTexts(ds: seq<Decl>): set<string> {
    set i | 0 <= i < |ds| && ds[i].Init? :: ds[i].text
  }

  /** Reserves the next slot of its bank for a variable. */
  function Reserve(m: Meta, x: Name, bank: Bank): Meta {
    var index := Count(m.slots, bank);
    m.(globals := m.globals[x := Slot(bank, index)], slots := m.slots[bank := index + 1])
  }

  function RegisterNames(m: Meta, named: seq<Named>, bank: Name -> Bank): Meta {
    if named == [] then m
    else
      var n := |named| - 1;
      var before := RegisterNames(m, named[..n], bank);
      if named[n].kind == VarKind && named[n].name != "_" then Reserve(before, named[n].name, bank(named[n].name)) else before
  }

  function RegisterVars(m: Meta, ds: seq<Decl>, bank: Name -> Bank): Meta {
    if ds == [] then m
    else
      var n := |ds| - 1;
      var before := RegisterVars(m, ds[..n], bank);
      if ds[n].General? then RegisterNames(before, ds[n].named, bank) else before
  }

  datatype Compiled = Compiled(meta: Meta, inits: seq<nat>, stop: Stop)

  function PoolOf(m: Meta): Pool {
    Pool(m.functions, m.specs)
  }

  function Refilled(m: Meta, x: Pool): Meta {
    m.(functions := x.functions, specs := x.specs)
  }

  /** Enters a function in the tables; its index is the next one. */
  function Enter(m: Meta, d: Decl): Meta
    requires d.Function?
  {
    var key, index := Key(d.receiver, d.name), |m.functions|;
    m.(table := m.table[key := index], methods := if d.receiver == "" then m.methods else m.methods[key := index])
  }

  /** Enters a function in the tables and compiles its body. */
  function CompileOne(lang: Language, c: Compiled, d: Decl, b: Body): Compiled {
    if c.stop != Going || d.General? then c
    else
      var m := if d.Init? then c.meta else Enter(c.meta, d);
      var r := CompileBody(lang, Context(m.globals, m.table), PoolOf(m), b);
      Compiled(Refilled(m, r.pool), if d.Init? then c.inits + [|m.functions|] else c.inits, r.stop)
  }

  function CompileFuncs(lang: Language, m: Meta, ds: seq<Decl>, bodies: nat -> Body): Compiled {
    if ds == [] then Compiled(m, [], Going)
    else
      var n := |ds| - 1;
      CompileOne(lang, CompileFuncs(lang, m, ds[..n], bodies), ds[n], bodies(n))
  }

  /** Compiles a body that is no function of the session: the variables' initialiser, or the statements. */
  function CompileLoose(lang: Language, c: Compiled, b: Body): Compiled {
    if c.stop != Going then c
    else
      var m := c.meta;
      var w := CompileItems(lang, Context(m.globals, m.table), PoolOf(m), b.items);
      Compiled(Refilled(m, w.pool), c.inits, if w.stop == Going && !b.ok then Refused else w.stop)
  }

  /** Compiles what is new in the file: variables, functions, the initialiser, the statements. */
  function CompileNew(lang: Language, m: Meta, added: seq<Decl>, a: Attempt): Compiled {
    var marked := m.(compiledInits := m.compiledInits + InitTexts(added));
    var c := CompileFuncs(lang, RegisterVars(marked, added, a.bank), added, a.bodies);
    CompileLoose(lang, CompileLoose(lang, c, a.variableInit), a.evaluation)
  }

  function Compile(lang: Language, m: Meta, s: Submission, a: Attempt): Compiled {
    CompileNew(lang, m, NewDecls(Retained(m.records) + s.decls, NamesOf(Candidates(s.decls)), m.compiledInits), a)
  }

  /** Runs the init functions that have not run yet; a failure stops after `a.initsRun` of them. */
  function RunInits(m: Meta, inits: seq<nat>, a: Attempt): Meta {
    var count := if a.runs || a.initsRun > |inits| then |inits| else a.initsRun;
    m.(executedInits := m.executedInits + set i | 0 <= i < count :: inits[i])
  }

  // ---------- rollback and commit ----------

  datatype Snapshot = Snapshot(count: nat, table: map<Key, nat>, globals: Globals, executedInits: set<nat>,
                               compiledDecls: set<Name>, compiledInits: set<string>)

  function Snap(m: Meta): Snapshot {
    Snapshot(|m.functions|, m.table, m.globals, m.executedInits, m.compiledDecls, m.compiledInits)
  }

  /** The instances of functions that are still there: they are kept with the function they are instances of. */
  function StillThere(specs: map<Instance, nat>, table: map<Key, nat>): map<Instance, nat> {
    map i | i in specs && i.callee in table :: specs[i]
  }

  function Restore(m: Meta, s: Snapshot): Meta {
    m.(functions := if s.count <= |m.functions| then m.functions[..s.count] else m.functions,
       specs := StillThere(m.specs, s.table), table := s.table, globals := s.globals, executedInits := s.executedInits,
       compiledDecls := s.compiledDecls, compiledInits := s.compiledInits)
  }

  function CommitImports(m: Meta, imps: seq<Import>): Meta {
    if imps == [] then m
    else
      var n := |imps| - 1;
      var before := CommitImports(m, imps[..n]);
      if imps[n].path in before.imports then before
      else before.(imports := before.imports[imps[n].path := imps[n].alias], importOrder := before.importOrder + [imps[n].path])
  }

  function CommitRecords(m: Meta, rs: seq<Record>): Meta {
    if rs == [] then m
    else
      var n := |rs| - 1;
      var before := CommitRecords(m, rs[..n]);
      before.(records := before.records + [rs[n]], names := before.names[rs[n].name := rs[n].kind],
              compiledDecls := before.compiledDecls + {rs[n].name})
  }

  function Commit(m: Meta, imps: seq<Import>, rs: seq<Record>): Meta {
    var after := CommitRecords(CommitImports(m, imps), rs);
    after.(submits := after.submits + 1)
  }

  // ---------- one submission ----------

  datatype Outcome = Unparsed | Redeclared(clash: Clash) | IllTyped | Uncompiled | Crashed | Failed | Done

  datatype Step = Step(meta: Meta, outcome: Outcome)

  /** `lang.check` is the verdict on a combined file: its size, its syntax, its imports and its types. A crash ends the process, and with it the session. */
  function Submit(lang: Language, m: Meta, a: Attempt): Step {
    if a.source.None? then Step(m, Unparsed)
    else
      var s := a.source.value;
      var imps, rs := CandidateImports(m.imports.Keys, s.imports), Candidates(s.decls);
      var clash := FirstClash(m.names, rs);
      if clash.Some? then Step(m, Redeclared(clash.value))
      else if !lang.check(Combined(m, imps, s)) then Step(m, IllTyped)
      else
        var c := Compile(lang, m, s, a);
        if c.stop == Broken then Step(EMPTY, Crashed)
        else if c.stop == Refused then Step(Restore(c.meta, Snap(m)), Uncompiled)
        else
          var r := RunInits(c.meta, c.inits, a);
          if !a.runs then Step(Restore(r, Snap(m)), Failed) else Step(Commit(r, imps, rs), Done)
  }

  // ---------- histories ----------

  datatype Event = Submitted(attempt: Attempt) | Reset

  function After(lang: Language, events: seq<Event>): Meta {
    if events == [] then EMPTY
    else
      var m := After(lang, events[..|events| - 1]);
      match events[|events| - 1]
      case Reset => EMPTY
      case Submitted(a) => Submit(lang, m, a).meta
  }

  /** The history without the submissions that did not succeed; a crash, like a reset, leaves an empty session. */
  function Successes(lang: Language, events: seq<Event>): seq<Event> {
    if events == [] then []
    else
      var n := |events| - 1;
      var front := Successes(lang, events[..n]);
      match events[n]
      case Reset => front + [Reset]
      case Submitted(a) =>
        var outcome := Submit(lang, After(lang, events[..n]), a).outcome;
        if outcome == Done then front + [Submitted(a)] else if outcome == Crashed then front + [Reset] else front
  }
}

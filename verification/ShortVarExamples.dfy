/** Statements on either side of the condition. */
module ShortVarExamples {
  import opened Wrappers
  import opened GoAssign
  import opened AssignLowering
  import opened ShortVarLowering
  import opened ShortVarSequential
  import opened AssignTrace
  import opened AssignHistory
  import opened ShortVarHarmless
  import opened ShortVarLate
  import opened ShortVarStores
  import opened ShortVarExact

  // ---------- a simple test ----------

  /** Calls nothing, follows nothing and cannot fail. */
  predicate Calm(e: Expr) {
    match e
    case Lit(_) => true
    case Ident(_) => true
    case Binary(op, l, r) => !op.partial && Calm(l) && Calm(r)
    case Field(b, _) => Calm(b)
    case Index(b, i, elem) => elem.Mapped? && Calm(b) && Calm(i)
    case _ => false
  }

  lemma {:induction false} CalmTrace(e: Expr, sc: RegScopes, k: nat)
    requires Calm(e)
    ensures Calls(e) == 0 && Checks(e, sc, k) == {} && Pointers(e, sc, k) == {}
    decreases e
  {
    hide Sym;
    match e
    case Lit(_) =>
    case Ident(_) =>
    case Binary(_, l, r) => CalmTrace(l, sc, k); CalmTrace(r, sc, k);
    case Field(b, _) => CalmTrace(b, sc, k);
    case Index(b, i, _) => CalmTrace(b, sc, k); CalmTrace(i, sc, k);
  }

  lemma {:induction false} CalmBlanks(lhs: seq<Name>, rhs: seq<Expr>, sc: RegScopes)
    requires |lhs| == |rhs| && forall i :: 0 <= i < |lhs| && lhs[i] == BLANK ==> Calm(rhs[i])
    ensures CallsOf(rhs, All(|rhs|)) == CallsOf(rhs, Wanted(lhs)) && DuesOf(rhs, All(|rhs|), sc) == DuesOf(rhs, Wanted(lhs), sc)
    decreases |lhs|
  {
    hide Calm, Checks, Calls;
    if lhs != [] {
      var n := |lhs| - 1;
      AllPrefix(|rhs|);
      assert Wanted(lhs)[..n] == Wanted(lhs[..n]);
      CalmBlanks(lhs[..n], rhs[..n], sc);
      if lhs[n] == BLANK {
        CalmTrace(rhs[n], sc, CallsOf(rhs[..n], Wanted(lhs[..n])));
      }
    }
  }

  /** Statements are harmless whose blanks, and whose right sides after a boxed name or a named result, are calm. */
  lemma CalmIsHarmless(lhs: seq<Name>, rhs: seq<Expr>, sc: RegScopes)
    requires |lhs| == |rhs| && (forall i :: 0 <= i < |lhs| && lhs[i] == BLANK ==> Calm(rhs[i]))
    requires forall i, j :: 0 <= i < j < |lhs| && Exposed(lhs[i], sc) && lhs[j] != BLANK ==> Calm(rhs[j])
    ensures Harmless(lhs, rhs, sc)
  {
    hide Calm, Checks, Calls, Pointers, DuesOf, CallsOf, Exposed, Sym;
    CalmBlanks(lhs, rhs, sc);
    forall i | 0 <= i < |lhs| && lhs[i] == BLANK ensures Calls(rhs[i]) == 0 {
      CalmTrace(rhs[i], sc, 0);
    }
    forall i, j | 0 <= i < j < |lhs| && Exposed(lhs[i], sc) && lhs[j] != BLANK ensures Unaware(lhs, rhs, sc, i, j) {
      CalmTrace(rhs[j], sc, Start(lhs, rhs, j));
    }
  }

  // ---------- a box read too late ----------

  const INT: Kind := 1

  /** A variable in a register that is no named result. */
  function Local(v: Value): Slot {
    Slot(v, None, false)
  }

  const TOP: RegScopes := [map["x" := Place(0, Some(INT), false), "p" := Place(1, None, false)]]

  /** After `x := 1; p := &x`. */
  function PointsToX(ref: Value): Scopes {
    [map["x" := Slot(ref, Some(INT), false), "p" := Local(ref)]]
  }

  function HoldsOne(ref: Value): Memory {
    imap[Cell(ref, ByStar(INT)) := Num(1)]
  }

  lemma TurnsOfTwo(w: World, x: Name, y: Name, a: Expr, b: Expr, scopes: Scopes, mem: Memory)
    requires scopes != [] && x != BLANK && y != BLANK
    ensures var first := EvalBind(w, a, x, Env(scopes, mem));
      Interleaved(w, [x, y], [a, b], scopes, mem) == if first.Aborted? then first else EvalBind(w, b, y, Env(first.scopes, first.mem))
  {
    hide EvalBind;
    assert [x, y][..1] == [x] && [a, b][..1] == [a] && [x][..0] == [] && [a][..0] == [];
    assert Interleaved(w, [], [], scopes, mem) == Effect(scopes, mem);
    assert Interleaved(w, [x], [a], scopes, mem) == EvalBind(w, a, x, Env(scopes, mem));
  }

  lemma ValuesOfTwo(w: World, a: Expr, b: Expr, scopes: Scopes, mem: Memory)
    ensures var r := Eval(w, a, scopes, mem);
      EvalAll(w, [a, b], All(2), scopes, mem)
      == if r.Panicked? then AnyPanicked(r.mem) else ThenEval(w, AllReturned([r.value], r.mem), b, scopes)
  {
    hide Eval;
    AllPrefix(2);
    AllPrefix(1);
    assert [a, b][..1] == [a] && [a][..0] == [];
    assert EvalAll(w, [], [], scopes, mem) == AllReturned([], mem);
    assert All(1)[..0] == [];
    assert EvalAll(w, [a], All(1), scopes, mem) == if Eval(w, a, scopes, mem).Panicked? then AnyPanicked(Eval(w, a, scopes, mem).mem)
      else AllReturned([] + [Eval(w, a, scopes, mem).value], Eval(w, a, scopes, mem).mem);
  }

  lemma DeclareTwo(env: Env, x: Name, y: Name, u: Value, v: Value)
    requires env.scopes != [] && x != BLANK && y != BLANK
    ensures Declare(env, [x, y], [u, v]) == Bind(Bind(env, x, u), y, v)
  {
    hide Bind;
    assert [x, y][..1] == [x] && [u, v][..1] == [u] && [x][..0] == [] && [u][..0] == [];
    assert Declare(env, [], []) == env;
    assert Declare(env, [x], [u]) == Bind(env, x, u);
  }

  /** After `x := 1; p := &x`, the statement `x, y := 2, *p` gives y the value 1 in Go and 2 in the sequential form, which is chosen. */
  lemma ReadsTooLate(w: World, ref: Value)
    requires !w.isNil(ref)
    ensures !NeedsTwoPhase(["x", "y"], [Lit(2), Star(Ident("p"), INT)])
    ensures ShortVar(w, ["x", "y"], [Lit(2), Star(Ident("p"), INT)], PointsToX(ref), HoldsOne(ref))
         == Effect([PointsToX(ref)[0]["y" := Local(Num(1))]], imap[Cell(ref, ByStar(INT)) := Num(2)])
    ensures Interleaved(w, ["x", "y"], [Lit(2), Star(Ident("p"), INT)], PointsToX(ref), HoldsOne(ref))
         == Effect([PointsToX(ref)[0]["y" := Local(Num(2))]], imap[Cell(ref, ByStar(INT)) := Num(2)])
  {
    hide Eval, Lookup, EvalAll, Interleaved, Declare, PointsToX, HoldsOne;
    var a, b, scopes, mem := Lit(2), Star(Ident("p"), INT), PointsToX(ref), HoldsOne(ref);
    NotMentionedHere();
    BindsHere(ref, Num(1));
    BindsHere(ref, Num(2));
    SidesHere(w, ref);
    TurnsOfTwo(w, "x", "y", a, b, scopes, mem);
    ValuesOfTwo(w, a, b, scopes, mem);
    assert [Num(2)] + [Num(1)] == [Num(2), Num(1)];
    DeclareTwo(Env(scopes, mem), "x", "y", Num(2), Num(1));
  }

  lemma SidesHere(w: World, ref: Value)
    requires !w.isNil(ref)
    ensures var b, scopes, mem := Star(Ident("p"), INT), PointsToX(ref), HoldsOne(ref); var after := mem[Cell(ref, ByStar(INT)) := Num(2)];
      && Eval(w, Lit(2), scopes, mem) == Returned(Num(2), mem)
      && Eval(w, b, scopes, mem) == Returned(Num(1), mem) && Eval(w, b, scopes, after) == Returned(Num(2), after)
  {
    var scopes, mem := PointsToX(ref), HoldsOne(ref);
    var after := mem[Cell(ref, ByStar(INT)) := Num(2)];
    assert Lookup(scopes, "p") == Some(Local(ref));
    hide Lookup;
    assert Eval(w, Ident("p"), scopes, mem) == Returned(ref, mem) && Eval(w, Ident("p"), scopes, after) == Returned(ref, after);
  }

  lemma BindsHere(ref: Value, v: Value)
    ensures var env := Bind(Env(PointsToX(ref), HoldsOne(ref)), "x", Num(2));
      && PointsToX(ref) != [] && env == Env(PointsToX(ref), HoldsOne(ref)[Cell(ref, ByStar(INT)) := Num(2)])
      && Bind(env, "y", v) == Env([PointsToX(ref)[0]["y" := Local(v)]], imap[Cell(ref, ByStar(INT)) := Num(2)])
  {
    var scopes := PointsToX(ref);
    assert HoldsOne(ref)[Cell(ref, ByStar(INT)) := Num(2)] == imap[Cell(ref, ByStar(INT)) := Num(2)];
    assert scopes[..0] + [scopes[0]["y" := Local(v)]] == [scopes[0]["y" := Local(v)]];
  }

  lemma NotMentionedHere()
    ensures !NeedsTwoPhase(["x", "y"], [Lit(2), Star(Ident("p"), INT)])
  {
    assert "p" !in LeftNames(["x", "y"]);
    assert Idents(Lit(2)) == {} && Idents(Star(Ident("p"), INT)) == {"p"};
  }

  /** So the code that runs does not mean what Go means. */
  lemma CodeReadsTooLate(w: World, ref: Value, next: Reg, m: Machine)
    requires !w.isNil(ref) && Stands(TOP, PointsToX(ref), next, m) && m.mem == HoldsOne(ref)
    ensures !MeansGo(w, ["x", "y"], [Lit(2), Star(Ident("p"), INT)], {"y"}, TOP, PointsToX(ref), next, m)
  {
    hide Stands, MeansGo, Interleaved, ShortVar, NeedsTwoPhase;
    ReadsTooLate(w, ref);
    var one, two: map<Name, Slot> := PointsToX(ref)[0]["y" := Local(Num(1))], PointsToX(ref)[0]["y" := Local(Num(2))];
    assert one["y"] != two["y"];
    SequentialDiffers(w, ["x", "y"], [Lit(2), Star(Ident("p"), INT)], {"y"}, TOP, PointsToX(ref), next, m);
  }

  /** What a name bound to a value reads, and what a new name bound after it holds. */
  lemma BindThenRead(env: Env, x: Name, v: Value, y: Name, u: Value)
    requires env.scopes != [] && x in env.scopes[|env.scopes| - 1] && y !in env.scopes[|env.scopes| - 1] && x != y
    ensures var n := |env.scopes| - 1; var first := Bind(env, x, v);
      && Read(Lookup(first.scopes, x), first.mem) == v
      && var second := Bind(first, y, u); y in second.scopes[n] && second.scopes[n][y] == Local(u)
  {
  }

  /** Why the test exists: the sequential form of `x, y := v, x` is wrong wherever x is not v, and the test catches it. */
  lemma TestNeeded(w: World, v: int, scopes: Scopes, mem: Memory)
    requires scopes != [] && "x" in scopes[|scopes| - 1] && "y" !in scopes[|scopes| - 1] && Read(Lookup(scopes, "x"), mem) != Num(v)
    ensures NeedsTwoPhase(["x", "y"], [Lit(v), Ident("x")])
    ensures Interleaved(w, ["x", "y"], [Lit(v), Ident("x")], scopes, mem) != ShortVar(w, ["x", "y"], [Lit(v), Ident("x")], scopes, mem)
  {
    hide EvalAll, Interleaved, Declare, Bind, Lookup, Read, NeedsTwoPhase, EvalBind, Eval;
    var a, b, env, u := Lit(v), Ident("x"), Env(scopes, mem), Read(Lookup(scopes, "x"), mem);
    TestCatches(v);
    SidesRead(w, v, scopes, mem);
    TurnsOfTwo(w, "x", "y", a, b, scopes, mem);
    ValuesOfTwo(w, a, b, scopes, mem);
    assert [Num(v)] + [u] == [Num(v), u];
    DeclareTwo(env, "x", "y", Num(v), u);
    BindThenRead(env, "x", Num(v), "y", u);
    BindThenRead(env, "x", Num(v), "y", Num(v));
  }

  lemma TestCatches(v: int)
    ensures NeedsTwoPhase(["x", "y"], [Lit(v), Ident("x")])
  {
    var lhs := ["x", "y"];
    assert lhs[0] in LeftNames(lhs) && "x" in Idents(Ident("x")) * LeftNames(lhs) && [Lit(v), Ident("x")][1] == Ident("x");
  }

  lemma SidesRead(w: World, v: int, scopes: Scopes, mem: Memory)
    requires scopes != [] && "x" in scopes[|scopes| - 1] && "y" !in scopes[|scopes| - 1]
    ensures var env := Env(scopes, mem); var first := Bind(env, "x", Num(v));
      && Eval(w, Lit(v), scopes, mem) == Returned(Num(v), mem) && Eval(w, Ident("x"), scopes, mem) == Returned(Read(Lookup(scopes, "x"), mem), mem)
      && EvalBind(w, Lit(v), "x", env) == Effect(first.scopes, first.mem)
      && var second := Bind(first, "y", Num(v)); EvalBind(w, Ident("x"), "y", first) == Effect(second.scopes, second.mem)
  {
    hide Bind, Lookup, Read;
    BindThenRead(Env(scopes, mem), "x", Num(v), "y", Num(v));
  }

  // ---------- a check left out ----------

  /** With p nil, `_, y := *p, 2` panics in Go and gives y the value 2 in the sequential form, which is chosen. */
  lemma SkipsCheck(w: World, nothing: Value, mem: Memory)
    requires w.isNil(nothing)
    ensures !NeedsTwoPhase([BLANK, "y"], [Star(Ident("p"), INT), Lit(2)])
    ensures ShortVar(w, [BLANK, "y"], [Star(Ident("p"), INT), Lit(2)], [map["p" := Local(nothing)]], mem) == Aborted([map[]], mem)
    ensures Interleaved(w, [BLANK, "y"], [Star(Ident("p"), INT), Lit(2)], [map["p" := Local(nothing)]], mem)
         == Effect([map["p" := Local(nothing), "y" := Local(Num(2))]], mem)
  {
    var a, b: Expr, scopes: Scopes := Star(Ident("p"), INT), Lit(2), [map["p" := Local(nothing)]];
    assert "p" !in LeftNames([BLANK, "y"]);
    assert Idents(b) == {} && Idents(a) == {"p"};
    assert Lookup(scopes, "p") == Some(Local(nothing));
    assert Eval(w, Ident("p"), scopes, mem) == Returned(nothing, mem);
    assert Eval(w, a, scopes, mem) == Panicked(mem) && Eval(w, b, scopes, mem) == Returned(Num(2), mem);
    ValuesOfTwo(w, a, b, scopes, mem);
    assert [BLANK, "y"][..1] == [BLANK] && [a, b][..1] == [a] && [BLANK][..0] == [] && [a][..0] == [];
    assert Results(scopes)[0] == map[] && Results(scopes) == [map[]];
    assert Interleaved(w, [BLANK], [a], scopes, mem) == Interleaved(w, [], [], scopes, mem) == Effect(scopes, mem);
    assert scopes[..0] + [scopes[0]["y" := Local(Num(2))]] == [map["p" := Local(nothing), "y" := Local(Num(2))]];
  }

  // ---------- a named result bound too early ----------

  /** In `func f(p *int) (x int)`, x holding v. */
  function ResultX(v: Value, p: Value): Scopes {
    [map["x" := Slot(v, None, true), "p" := Local(p)]]
  }

  const RESULT_TOP: RegScopes := [map["x" := Place(0, None, true), "p" := Place(1, None, false)]]

  /** With p nil and x a named result, `x, y := 2, *p` panics: Go finds x as it was, the sequential form, which is chosen, finds 2. */
  lemma RecoveredTooLate(w: World, v: Value, nothing: Value, mem: Memory)
    requires w.isNil(nothing)
    ensures !NeedsTwoPhase(["x", "y"], [Lit(2), Star(Ident("p"), INT)])
    ensures ShortVar(w, ["x", "y"], [Lit(2), Star(Ident("p"), INT)], ResultX(v, nothing), mem) == Aborted([map["x" := Slot(v, None, true)]], mem)
    ensures Interleaved(w, ["x", "y"], [Lit(2), Star(Ident("p"), INT)], ResultX(v, nothing), mem)
         == Aborted([map["x" := Slot(Num(2), None, true)]], mem)
  {
    hide EvalAll, Interleaved, Declare, NeedsTwoPhase, Bind, ResultX, Results;
    var a, b, scopes := Lit(2), Star(Ident("p"), INT), ResultX(v, nothing);
    NotMentionedHere();
    NilSide(w, v, nothing, mem);
    NilSide(w, Num(2), nothing, mem);
    TurnsOfTwo(w, "x", "y", a, b, scopes, mem);
    ValuesOfTwo(w, a, b, scopes, mem);
    BindsResult(v, nothing, mem);
  }

  lemma BindsResult(v: Value, nothing: Value, mem: Memory)
    ensures Bind(Env(ResultX(v, nothing), mem), "x", Num(2)) == Env(ResultX(Num(2), nothing), mem)
  {
    var scopes := ResultX(v, nothing);
    assert scopes[0]["x" := Slot(Num(2), None, true)] == ResultX(Num(2), nothing)[0];
    assert scopes[..0] + [ResultX(Num(2), nothing)[0]] == ResultX(Num(2), nothing);
  }

  lemma NilSide(w: World, v: Value, nothing: Value, mem: Memory)
    requires w.isNil(nothing)
    ensures Eval(w, Star(Ident("p"), INT), ResultX(v, nothing), mem) == Panicked(mem)
    ensures Results(ResultX(v, nothing)) == [map["x" := Slot(v, None, true)]]
  {
    var scopes := ResultX(v, nothing);
    assert Lookup(scopes, "p") == Some(Local(nothing));
    assert Eval(w, Ident("p"), scopes, mem) == Returned(nothing, mem);
    assert Results(scopes)[0] == map["x" := Slot(v, None, true)];
  }

  /** So a function that recovers returns 2 where Go returns what x was. */
  lemma CodeRecoversTooLate(w: World, v: Value, nothing: Value, next: Reg, m: Machine)
    requires w.isNil(nothing) && v != Num(2) && Stands(RESULT_TOP, ResultX(v, nothing), next, m)
    ensures !MeansGo(w, ["x", "y"], [Lit(2), Star(Ident("p"), INT)], {"y"}, RESULT_TOP, ResultX(v, nothing), next, m)
  {
    hide Stands, MeansGo, Interleaved, ShortVar, NeedsTwoPhase;
    RecoveredTooLate(w, v, nothing, m.mem);
    var one, two: map<Name, Slot> := map["x" := Slot(v, None, true)], map["x" := Slot(Num(2), None, true)];
    assert one["x"] != two["x"];
    SequentialDiffers(w, ["x", "y"], [Lit(2), Star(Ident("p"), INT)], {"y"}, RESULT_TOP, ResultX(v, nothing), next, m);
  }

  // ---------- a field read too late ----------

  const STRUCT: Kind := 2

  /** After `p := &x` and `q := &T{...}`. */
  function StructsHere(ref: Value, other: Value): Scopes {
    [map["x" := Slot(ref, Some(STRUCT), false), "p" := Local(ref), "q" := Local(other)]]
  }

  const LHS := ["z", "x", "y"]
  const RHS := [Field(Star(Ident("p"), STRUCT), "g"), Star(Ident("q"), STRUCT), Field(Star(Ident("p"), STRUCT), "f")]

  lemma StructSides(w: World, scopes: Scopes, ref: Value, other: Value, mem: Memory)
    requires Lookup(scopes, "p") == Some(Local(ref)) && Lookup(scopes, "q") == Some(Local(other)) && !w.isNil(ref) && !w.isNil(other)
    ensures Eval(w, RHS[0], scopes, mem) == Returned(w.part(Load(mem, Cell(ref, ByStar(STRUCT))), "g"), mem)
    ensures Eval(w, RHS[1], scopes, mem) == Returned(Load(mem, Cell(other, ByStar(STRUCT))), mem)
    ensures Eval(w, RHS[2], scopes, mem) == Returned(w.part(Load(mem, Cell(ref, ByStar(STRUCT))), "f"), mem)
  {
    hide Lookup, Load;
    assert Eval(w, Ident("p"), scopes, mem) == Returned(ref, mem) && Eval(w, Ident("q"), scopes, mem) == Returned(other, mem);
    assert Eval(w, Star(Ident("p"), STRUCT), scopes, mem) == Returned(Load(mem, Cell(ref, ByStar(STRUCT))), mem);
  }

  /** What y holds in the end. */
  ghost predicate YHolds(r: Effect, v: Value) {
    r.Effect? && r.scopes != [] && "y" in r.scopes[|r.scopes| - 1] && r.scopes[|r.scopes| - 1]["y"] == Local(v)
  }

  lemma BindNewName(env: Env, x: Name, v: Value)
    requires |env.scopes| == 1 && x !in env.scopes[0]
    ensures Bind(env, x, v) == Env([env.scopes[0][x := Local(v)]], env.mem)
  {
    assert env.scopes[..0] == [];
  }

  /** After `x := T{...}; p := &x; q := &T{...}`, `z, x, y := p.g, *q, p.f` gives y the field of the old x in Go, of the new x in turns. */
  lemma FieldReadTooLate(w: World, ref: Value, other: Value, mem: Memory)
    requires !w.isNil(ref) && !w.isNil(other)
    ensures !NeedsTwoPhase(LHS, RHS)
    ensures YHolds(ShortVar(w, LHS, RHS, StructsHere(ref, other), mem), w.part(Load(mem, Cell(ref, ByStar(STRUCT))), "f"))
    ensures YHolds(Interleaved(w, LHS, RHS, StructsHere(ref, other), mem), w.part(Load(mem, Cell(other, ByStar(STRUCT))), "f"))
  {
    hide NeedsTwoPhase, Interleaved, ShortVar;
    StructsUnmentioned();
    StructsInGo(w, ref, other, mem);
    StructsInTurns(w, ref, other, mem);
  }

  lemma StructsUnmentioned()
    ensures !NeedsTwoPhase(LHS, RHS)
  {
    assert Idents(RHS[0]) == {"p", "g"} && Idents(RHS[1]) == {"q"} && Idents(RHS[2]) == {"p", "f"};
    assert LeftNames(LHS) <= {"z", "x", "y"};
  }

  lemma StructsLookup(ref: Value, other: Value, v: Value)
    ensures var scopes := StructsHere(ref, other); var more := [scopes[0]["z" := Local(v)]];
      && Lookup(scopes, "p") == Some(Local(ref)) && Lookup(scopes, "q") == Some(Local(other))
      && Lookup(more, "p") == Some(Local(ref)) && Lookup(more, "q") == Some(Local(other))
  {
  }

  lemma StructsInGo(w: World, ref: Value, other: Value, mem: Memory)
    requires !w.isNil(ref) && !w.isNil(other)
    ensures YHolds(ShortVar(w, LHS, RHS, StructsHere(ref, other), mem), w.part(Load(mem, Cell(ref, ByStar(STRUCT))), "f"))
  {
    hide Eval, EvalAll, Lookup, Load, Declare, Bind;
    var scopes, was := StructsHere(ref, other), Load(mem, Cell(ref, ByStar(STRUCT)));
    StructsLookup(ref, other, was);
    StructSides(w, scopes, ref, other, mem);
    var values := [w.part(was, "g"), Load(mem, Cell(other, ByStar(STRUCT))), w.part(was, "f")];
    ValuesOfThree(w, RHS[0], RHS[1], RHS[2], scopes, mem, values);
    assert RHS == [RHS[0], RHS[1], RHS[2]];
    DeclareThree(Env(scopes, mem), values);
  }

  lemma ValuesOfThree(w: World, a: Expr, b: Expr, c: Expr, scopes: Scopes, mem: Memory, values: seq<Value>)
    requires |values| == 3 && Eval(w, a, scopes, mem) == Returned(values[0], mem)
    requires Eval(w, b, scopes, mem) == Returned(values[1], mem) && Eval(w, c, scopes, mem) == Returned(values[2], mem)
    ensures EvalAll(w, [a, b, c], All(3), scopes, mem) == AllReturned(values, mem)
  {
    hide Eval;
    ValuesOfTwo(w, a, b, scopes, mem);
    AllPrefix(3);
    assert [a, b, c][..2] == [a, b];
    assert [values[0]] + [values[1]] + [values[2]] == values;
  }

  lemma DeclareThree(env: Env, values: seq<Value>)
    requires |env.scopes| == 1 && |values| == 3 && "z" !in env.scopes[0] && "y" !in env.scopes[0]
    requires "x" in env.scopes[0] && env.scopes[0]["x"].box.Some?
    ensures var r := Declare(env, LHS, values); YHolds(Effect(r.scopes, r.mem), values[2])
  {
    hide Bind, Declare;
    var two := Declare(env, ["z", "x"], [values[0], values[1]]);
    DeclareTwo(env, "z", "x", values[0], values[1]);
    BindNewName(env, "z", values[0]);
    BindBoxed(Bind(env, "z", values[0]), "x", values[1]);
    BindNewName(two, "y", values[2]);
    LastDeclared(env, values);
  }

  lemma LastDeclared(env: Env, values: seq<Value>)
    requires env.scopes != [] && |values| == 3
    ensures Declare(env, LHS, values) == Bind(Declare(env, ["z", "x"], [values[0], values[1]]), "y", values[2])
  {
    hide Bind;
    assert LHS[..2] == ["z", "x"] && values[..2] == [values[0], values[1]];
  }

  lemma BindBoxed(env: Env, x: Name, v: Value)
    requires env.scopes != [] && x in env.scopes[|env.scopes| - 1] && env.scopes[|env.scopes| - 1][x].box.Some?
    ensures Bind(env, x, v) == env.(mem := env.mem[BoxOf(env.scopes[|env.scopes| - 1][x]) := v])
  {
  }

  lemma StructsInTurns(w: World, ref: Value, other: Value, mem: Memory)
    requires !w.isNil(ref) && !w.isNil(other)
    ensures YHolds(Interleaved(w, LHS, RHS, StructsHere(ref, other), mem), w.part(Load(mem, Cell(other, ByStar(STRUCT))), "f"))
  {
    hide Eval, Lookup, Bind, Interleaved;
    var scopes, was, now := StructsHere(ref, other), Load(mem, Cell(ref, ByStar(STRUCT))), Load(mem, Cell(other, ByStar(STRUCT)));
    var more, c := [scopes[0]["z" := Local(w.part(was, "g"))]], Cell(ref, ByStar(STRUCT));
    StructsLookup(ref, other, w.part(was, "g"));
    StructSides(w, scopes, ref, other, mem);
    StructSides(w, more, ref, other, mem);
    StructSides(w, more, ref, other, mem[c := now]);
    BindNewName(Env(scopes, mem), "z", w.part(was, "g"));
    BindBoxed(Env(more, mem), "x", now);
    BindNewName(Env(more, mem[c := now]), "y", w.part(now, "f"));
    TurnsOfTwo(w, "z", "x", RHS[0], RHS[1], scopes, mem);
    assert LHS[..2] == ["z", "x"] && RHS[..2] == [RHS[0], RHS[1]];
    OneTurn(w, LHS, RHS, scopes, mem);
  }

  // ---------- no simpler condition ----------

  /** Reading memory after a boxed name is harmless if what is read is what was bound: `x, y := *p, *p`. */
  lemma SameReadHarmless(x: Name, y: Name, b: Expr, kind: Kind, sc: RegScopes)
    requires Calm(b) && x != BLANK && y != BLANK
    ensures Harmless([x, y], [Star(b, kind), Star(b, kind)], sc) && !Calm(Star(b, kind))
  {
    var lhs, e, t := [x, y], Star(b, kind), Sym(b, sc, 0);
    CalmTrace(b, sc, 0);
    assert Sym(e, sc, 0) == TStar(0, t, kind) && Checks(e, sc, 0) == {Due(0, NotNil(t))} && Pointers(e, sc, 0) == {Deref(t, kind)} && Calls(e) == 0;
    hide Sym, Checks, Pointers, Calls, Calm;
    TwiceTrace(x, y, e, sc, Due(0, NotNil(t)));
    hide DuesOf, CallsOf;
    assert Covered(Due(0, NotNil(t)), DuesOf([e, e], Wanted(lhs), sc));
    assert Unaware(lhs, [e, e], sc, 0, 1);
  }

  lemma TwiceTrace(x: Name, y: Name, e: Expr, sc: RegScopes, d: Due)
    requires x != BLANK && y != BLANK && Calls(e) == 0 && Checks(e, sc, 0) == {d}
    ensures var lhs, rhs := [x, y], [e, e];
      && Start(lhs, rhs, 0) == 0 && Start(lhs, rhs, 1) == 0
      && DuesOf(rhs, All(2), sc) == {d} && DuesOf(rhs, Wanted(lhs), sc) == {d} && DuesOf(rhs[..1], Wanted(lhs[..1]), sc) == {d}
  {
    hide Calls, Checks;
    var lhs, rhs := [x, y], [e, e];
    assert Wanted(lhs) == All(2) && Wanted(lhs[..1]) == All(1) && All(2)[..1] == All(1) && All(1)[..0] == [] && Wanted(lhs[..0]) == [];
    assert rhs[..1] == [e] && [e][..0] == [] && rhs[..0] == [];
    assert CallsOf([], []) == 0 && DuesOf([], [], sc) == {};
    assert CallsOf([e], All(1)) == 0 && DuesOf([e], All(1), sc) == {d};
  }
}

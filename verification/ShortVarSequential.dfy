/** The sequential form of `a, b := x, y`: what its code means, and the test that chooses between the forms. */
module ShortVarSequential {
  import opened Wrappers
  import opened GoAssign
  import opened AssignLowering
  import opened ShortVarLowering

  // ---------- the test ----------

  /** Every identifier in the expression, field and function names included. */
  function Idents(e: Expr): set<Name> {
    match e
    case Lit(_) => {}
    case Ident(x) => {x}
    case Binary(_, l, r) => Idents(l) + Idents(r)
    case Field(b, f) => Idents(b) + {f}
    case Index(b, i, _) => Idents(b) + Idents(i)
    case Star(b, _) => Idents(b)
    case Call(f, arg) => {f} + Idents(arg)
  }

  function LeftNames(lhs: seq<Name>): set<Name> {
    set i | 0 <= i < |lhs| && lhs[i] != BLANK :: lhs[i]
  }

  /** A declaration of several names, one of whose right sides mentions one of them. */
  predicate NeedsTwoPhase(lhs: seq<Name>, rhs: seq<Expr>) {
    |lhs| >= 2 && |rhs| == |lhs| && exists j :: 0 <= j < |rhs| && Idents(rhs[j]) * LeftNames(lhs) != {}
  }

  // ---------- the code ----------

  /** Evaluates and binds one name after the other; a blank name's right side is not compiled at all. */
  function Sequential(lhs: seq<Name>, rhs: seq<Expr>, defs: set<Name>, sc: RegScopes, next: Reg): (r: Bound)
    requires |lhs| == |rhs| && sc != []
    ensures |r.scopes| == |sc|
    decreases |lhs|
  {
    if lhs == [] then Bound([], sc, next)
    else
      var n := |lhs| - 1;
      var b := Sequential(lhs[..n], rhs[..n], defs, sc, next);
      if lhs[n] == BLANK then b
      else
        var c := CompileExpr(rhs[n], b.scopes, b.next);
        BindReg(Bound(b.code + c.code, b.scopes, b.next), lhs[n], defs, c.reg)
  }

  /** The form that is chosen. */
  function Lower(lhs: seq<Name>, rhs: seq<Expr>, defs: set<Name>, sc: RegScopes, next: Reg): Bound
    requires |lhs| == |rhs| && sc != []
  {
    if NeedsTwoPhase(lhs, rhs) then TwoPhase(lhs, rhs, defs, sc, next) else Sequential(lhs, rhs, defs, sc, next)
  }

  // ---------- its meaning ----------

  /** Evaluates one expression and binds one name. */
  function EvalBind(w: World, e: Expr, x: Name, env: Env): Effect
    requires env.scopes != []
  {
    match Eval(w, e, env.scopes, env.mem)
    case Returned(v, mem) => var r := Bind(Env(env.scopes, mem), x, v); Effect(r.scopes, r.mem)
    case Panicked(mem) => Aborted(Results(env.scopes), mem)
  }

  /** Evaluation and binding taken in turns, names that are blank left out. */
  function Interleaved(w: World, lhs: seq<Name>, rhs: seq<Expr>, scopes: Scopes, mem: Memory): (r: Effect)
    requires |lhs| == |rhs| && scopes != []
    ensures r.Effect? ==> |r.scopes| == |scopes|
    decreases |lhs|
  {
    if lhs == [] then Effect(scopes, mem)
    else
      var n := |lhs| - 1;
      var front := Interleaved(w, lhs[..n], rhs[..n], scopes, mem);
      if front.Aborted? || lhs[n] == BLANK then front else EvalBind(w, rhs[n], lhs[n], Env(front.scopes, front.mem))
  }

  /** What holds after the sequential form of a prefix. */
  ghost predicate SequentialDone(effect: Effect, m: Machine, b: Bound) {
    Realises(effect, m, b) && b.scopes != []
  }

  lemma EvalBindCorrect(w: World, b: Bound, e: Expr, x: Name, defs: set<Name>, env: Env, m: Machine)
    requires Holds(b, env, Run(w, b.code, m)) && env.scopes != [] && CanBind(x, defs, b.scopes[|b.scopes| - 1])
    ensures var c := CompileExpr(e, b.scopes, b.next); var r := BindReg(Bound(b.code + c.code, b.scopes, b.next), x, defs, c.reg);
      SequentialDone(EvalBind(w, e, x, env), Run(w, r.code, m), r)
  {
    hide Agree, Live, Run, CompileExpr, Eval, BindReg, Bind, Results, ResultPlaces;
    var c, m1 := CompileExpr(e, b.scopes, b.next), Run(w, b.code, m);
    var b1 := Bound(b.code + c.code, b.scopes, b.next);
    RunConcat(w, b.code, c.code, m);
    CompileExprCorrect(w, e, b.scopes, env.scopes, b.next, m1);
    var m2, last := Run(w, c.code, m1), Eval(w, e, env.scopes, m1.mem);
    AgreeKept(b.scopes, env.scopes, m1.regs, m2.regs, b.next);
    if last.Panicked? {
      RunBound(w, b1, x, defs, c.reg, m);
      ResultsAgree(b.scopes, env.scopes, m2.regs);
      BindKeepsResults(b1, x, defs, c.reg);
    } else {
      BindStep(w, b1, x, defs, c.reg, Env(env.scopes, last.mem), last.value, 0, 0, m);
    }
  }

  lemma RunBound(w: World, b: Bound, x: Name, defs: set<Name>, src: Reg, m: Machine)
    requires b.scopes != [] && Run(w, b.code, m).panicked
    ensures var r := BindReg(b, x, defs, src); Run(w, r.code, m) == Run(w, b.code, m) && r.scopes != []
  {
    RunSnoc(w, b.code, Move(b.next, src), m);
    if LookupReg(b.scopes, x).Some? {
      RunSnoc(w, b.code, Write(LookupReg(b.scopes, x).value, src), m);
    }
  }

  /** The names that can still be bound after a prefix. */
  lemma {:induction false} SequentialCanBind(lhs: seq<Name>, rhs: seq<Expr>, defs: set<Name>, sc: RegScopes, next: Reg, all: seq<Name>)
    requires |lhs| == |rhs| && sc != [] && CanBindAll(all, defs, sc)
    ensures CanBindAll(all, defs, Sequential(lhs, rhs, defs, sc, next).scopes)
    decreases |lhs|
  {
    hide CanBindAll, CompileExpr;
    if lhs != [] {
      var n := |lhs| - 1;
      SequentialCanBind(lhs[..n], rhs[..n], defs, sc, next, all);
      if lhs[n] != BLANK {
        var b := Sequential(lhs[..n], rhs[..n], defs, sc, next);
        var c := CompileExpr(rhs[n], b.scopes, b.next);
        BindableAfter(all, defs, Bound(b.code + c.code, b.scopes, b.next), lhs[n], c.reg);
      }
    }
  }

  /** The sequential form means evaluation and binding in turns, for every statement, world and state. */
  lemma {:induction false} SequentialCorrect(w: World, lhs: seq<Name>, rhs: seq<Expr>, defs: set<Name>,
                                             sc: RegScopes, scopes: Scopes, next: Reg, m: Machine)
    requires |lhs| == |rhs| && CanBindAll(lhs, defs, sc) && Holds(Bound([], sc, next), Env(scopes, m.mem), m) && scopes != []
    ensures var b := Sequential(lhs, rhs, defs, sc, next);
      SequentialDone(Interleaved(w, lhs, rhs, scopes, m.mem), Run(w, b.code, m), b)
    decreases |lhs|
  {
    hide Agree, Live, Run, CanBindAll, EvalBind, CompileExpr, BindReg, Results, ResultPlaces;
    if lhs == [] {
      RunNone(w, m);
    } else {
      var n := |lhs| - 1;
      PrefixCanBind(lhs, defs, sc);
      SequentialCorrect(w, lhs[..n], rhs[..n], defs, sc, scopes, next, m);
      var b, front := Sequential(lhs[..n], rhs[..n], defs, sc, next), Interleaved(w, lhs[..n], rhs[..n], scopes, m.mem);
      if lhs[n] != BLANK {
        var c := CompileExpr(rhs[n], b.scopes, b.next);
        SequentialCanBind(lhs[..n], rhs[..n], defs, sc, next, lhs);
        LastCanBind(lhs, defs, b.scopes);
        if front.Aborted? {
          var b1 := Bound(b.code + c.code, b.scopes, b.next);
          RunConcat(w, b.code, c.code, m);
          RunPanicked(w, c.code, Run(w, b.code, m));
          RunBound(w, b1, lhs[n], defs, c.reg, m);
          BindKeepsResults(b1, lhs[n], defs, c.reg);
        } else {
          EvalBindCorrect(w, b, rhs[n], lhs[n], defs, Env(front.scopes, front.mem), m);
        }
      }
    }
  }

  // ---------- a machine realises one effect ----------

  lemma AgreeOne(sc: RegScopes, a: Scopes, b: Scopes, regs: map<Reg, Value>)
    requires Agree(sc, a, regs) && Agree(sc, b, regs)
    ensures a == b
  {
    forall k | 0 <= k < |a| ensures a[k] == b[k] {
      forall x | x in a[k] ensures a[k][x] == b[k][x] {
        assert Has(sc, k, x);
      }
    }
  }

  lemma RealisesOne(a: Effect, b: Effect, m: Machine, r: Bound)
    requires Realises(a, m, r) && Realises(b, m, r)
    ensures a == b
  {
    hide Agree, ResultPlaces;
    if a.Effect? {
      AgreeOne(r.scopes, a.scopes, b.scopes, m.regs);
    } else {
      AgreeOne(ResultPlaces(r.scopes), a.results, b.results, m.regs);
    }
  }
}

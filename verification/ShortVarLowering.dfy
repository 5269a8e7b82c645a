/** Lowering of `a, b := x, y`: evaluating into temporaries, binding names, and the two-phase form made of both. */
module ShortVarLowering {
  import opened Wrappers
  import opened GoAssign
  import opened AssignLowering

  // ---------- evaluating a list into temporaries ----------

  datatype Pinned = Pinned(code: seq<Instr>, temps: seq<Reg>, next: Reg)

  /** Evaluates one more expression and, where asked, moves its value to a temporary of its own. */
  function PinMore(p: Pinned, e: Expr, keep: bool, sc: RegScopes): Pinned {
    var c := CompileExpr(e, sc, p.next);
    if keep then Pinned(p.code + (c.code + [Move(c.next, c.reg)]), p.temps + [c.next], c.next + 1)
    else Pinned(p.code + c.code, p.temps + [0], c.next)
  }

  function Pin(es: seq<Expr>, keep: seq<bool>, sc: RegScopes, next: Reg): (p: Pinned)
    requires |keep| == |es|
    ensures |p.temps| == |es|
    decreases |es|
  {
    if es == [] then Pinned([], [], next)
    else
      var n := |es| - 1;
      PinMore(Pin(es[..n], keep[..n], sc, next), es[n], keep[n], sc)
  }

  /** The kept values sit in temporaries at or above `next`. */
  ghost predicate Held(temps: seq<Reg>, keep: seq<bool>, values: seq<Value>, regs: map<Reg, Value>, next: Reg, limit: Reg) {
    && |temps| == |keep| == |values|
    && forall i :: 0 <= i < |keep| && keep[i] ==> next <= temps[i] < limit && Get(regs, temps[i]) == values[i]
  }

  ghost predicate PinsAll(r: AllReturned, m: Machine, m': Machine, p: Pinned, keep: seq<bool>, next: Reg) {
    match r
    case AllReturned(values, mem) =>
      !m'.panicked && m'.mem == mem && SameBelow(m.regs, m'.regs, next) && Held(p.temps, keep, values, m'.regs, next, p.next)
    case AnyPanicked(mem) => m'.panicked && m'.mem == mem && SameBelow(m.regs, m'.regs, next)
  }

  lemma AllPrefix(n: nat)
    requires n > 0
    ensures All(n)[..n - 1] == All(n - 1)
  {
  }

  /** The evaluation of a list, extended by one expression. */
  function ThenEval(w: World, front: AllReturned, e: Expr, scopes: Scopes): AllReturned {
    if front.AnyPanicked? then front
    else
      var last := Eval(w, e, scopes, front.mem);
      if last.Panicked? then AnyPanicked(last.mem) else AllReturned(front.values + [last.value], last.mem)
  }

  lemma {:induction false} PinCorrect(w: World, es: seq<Expr>, keep: seq<bool>, sc: RegScopes, scopes: Scopes, next: Reg, m: Machine)
    requires Agree(sc, scopes, m.regs) && Live(sc, next) && !m.panicked && |keep| == |es|
    ensures var p := Pin(es, keep, sc, next);
      next <= p.next && PinsAll(EvalAll(w, es, All(|es|), scopes, m.mem), m, Run(w, p.code, m), p, keep, next)
    decreases |es|
  {
    hide Agree, Live, Run, PinMore, Eval;
    if es == [] {
      RunNone(w, m);
    } else {
      var n := |es| - 1;
      AllPrefix(|es|);
      PinCorrect(w, es[..n], keep[..n], sc, scopes, next, m);
      var front := EvalAll(w, es[..n], All(n), scopes, m.mem);
      PinMoreCorrect(w, Pin(es[..n], keep[..n], sc, next), es[n], keep[n], keep[..n], front, sc, scopes, next, m);
      assert keep[..n] + [keep[n]] == keep;
      assert EvalAll(w, es, All(|es|), scopes, m.mem) == ThenEval(w, front, es[n], scopes);
    }
  }

  lemma PinMoreCorrect(w: World, p: Pinned, e: Expr, wanted: bool, keep: seq<bool>, front: AllReturned,
                       sc: RegScopes, scopes: Scopes, next: Reg, m: Machine)
    requires Agree(sc, scopes, m.regs) && Live(sc, next) && !m.panicked && next <= p.next
    requires PinsAll(front, m, Run(w, p.code, m), p, keep, next)
    ensures var q := PinMore(p, e, wanted, sc);
      next <= q.next && PinsAll(ThenEval(w, front, e, scopes), m, Run(w, q.code, m), q, keep + [wanted], next)
  {
    hide Agree, Live, Run, CompileExpr, Eval;
    var c, m1 := CompileExpr(e, sc, p.next), Run(w, p.code, m);
    LiveMore(sc, next, p.next);
    CompileBounds(e, sc, p.next);
    var tail := if wanted then c.code + [Move(c.next, c.reg)] else c.code;
    RunConcat(w, p.code, tail, m);
    if m1.panicked {
      RunPanicked(w, tail, m1);
    } else {
      AgreeKept(sc, scopes, m.regs, m1.regs, next);
      CompileExprCorrect(w, e, sc, scopes, p.next, m1);
      RunSnoc(w, c.code, Move(c.next, c.reg), m1);
      var last, m2 := Eval(w, e, scopes, m1.mem), Run(w, tail, m1);
      if last.Returned? {
        var temp, limit := if wanted then c.next else 0, if wanted then c.next + 1 else c.next;
        assert SameBelow(m1.regs, m2.regs, p.next);
        HeldMore(p.temps, keep, front.values, m1.regs, m2.regs, next, p.next, limit, temp, wanted, last.value);
      }
    }
  }

  lemma HeldMore(temps: seq<Reg>, keep: seq<bool>, values: seq<Value>, a: map<Reg, Value>, b: map<Reg, Value>,
                 next: Reg, limit: Reg, limit': Reg, temp: Reg, wanted: bool, v: Value)
    requires Held(temps, keep, values, a, next, limit) && SameBelow(a, b, limit) && limit <= limit'
    requires wanted ==> next <= temp < limit' && Get(b, temp) == v
    ensures Held(temps + [temp], keep + [wanted], values + [v], b, next, limit')
  {
  }

  // ---------- declaring from temporaries ----------

  datatype Bound = Bound(code: seq<Instr>, scopes: RegScopes, next: Reg)

  function DeclareVar(sc: RegScopes, x: Name, r: Reg): (s: RegScopes)
    requires sc != []
    ensures |s| == |sc|
  {
    sc[..|sc| - 1] + [sc[|sc| - 1][x := Place(r, None, false)]]
  }

  /** Moves the value in `src` to a variable's register or into its box. */
  function Write(p: Place, src: Reg): Instr {
    if p.box.Some? then WriteBox(p.reg, p.box.value, src) else Move(p.reg, src)
  }

  /** One name takes the value in `src`: a new variable in a fresh register, or the existing one. */
  function BindReg(b: Bound, x: Name, defs: set<Name>, src: Reg): (r: Bound)
    requires b.scopes != []
    ensures |r.scopes| == |b.scopes|
  {
    if x in defs then Bound(b.code + [Move(b.next, src)], DeclareVar(b.scopes, x, b.next), b.next + 1)
    else match LookupReg(b.scopes, x)
      case Some(p) => Bound(b.code + [Write(p, src)], b.scopes, b.next)
      case None => b
  }

  /** The declare phase: each name that is not blank is bound from its temporary. */
  function DeclareFrom(lhs: seq<Name>, temps: seq<Reg>, defs: set<Name>, sc: RegScopes, next: Reg): (r: Bound)
    requires |lhs| == |temps| && sc != []
    ensures |r.scopes| == |sc|
    decreases |lhs|
  {
    if lhs == [] then Bound([], sc, next)
    else
      var n := |lhs| - 1;
      var b := DeclareFrom(lhs[..n], temps[..n], defs, sc, next);
      if lhs[n] == BLANK then b else BindReg(b, lhs[n], defs, temps[n])
  }

  function Wanted(lhs: seq<Name>): (r: seq<bool>)
    ensures |r| == |lhs| && forall i :: 0 <= i < |lhs| ==> r[i] == (lhs[i] != BLANK)
  {
    seq(|lhs|, i requires 0 <= i < |lhs| => lhs[i] != BLANK)
  }

  /** The type checker's verdict: a name is new exactly when the innermost scope lacks it. */
  ghost predicate Resolved(lhs: seq<Name>, defs: set<Name>, sc: RegScopes) {
    sc != [] && forall i :: 0 <= i < |lhs| && lhs[i] != BLANK ==> (lhs[i] in defs <==> lhs[i] !in sc[|sc| - 1])
  }

  /** What of the verdict stays true while names are bound. */
  predicate CanBind(x: Name, defs: set<Name>, inner: map<Name, Place>) {
    if x in defs then x in inner ==> inner[x].box.None? && !inner[x].result else x in inner
  }

  ghost predicate CanBindAll(lhs: seq<Name>, defs: set<Name>, sc: RegScopes) {
    sc != [] && forall i :: 0 <= i < |lhs| && lhs[i] != BLANK ==> CanBind(lhs[i], defs, sc[|sc| - 1])
  }

  lemma BindableAfter(lhs: seq<Name>, defs: set<Name>, b: Bound, x: Name, src: Reg)
    requires CanBindAll(lhs, defs, b.scopes)
    ensures CanBindAll(lhs, defs, BindReg(b, x, defs, src).scopes)
  {
  }

  /** Where a variable of the extended scopes comes from. */
  ghost predicate Source(sc: RegScopes, s: RegScopes, x: Name, r: Reg, k: int, y: Name)
    requires Has(s, k, y)
  {
    if k == |sc| - 1 && y == x then s[k][y] == Place(r, None, false) else Has(sc, k, y) && s[k][y] == sc[k][y]
  }

  lemma DeclaredAt(sc: RegScopes, x: Name, r: Reg, k: int, y: Name)
    requires sc != [] && Has(DeclareVar(sc, x, r), k, y)
    ensures Source(sc, DeclareVar(sc, x, r), x, r, k, y)
  {
    var s, n := DeclareVar(sc, x, r), |sc| - 1;
    if k == n {
      assert s[k] == sc[n][x := Place(r, None, false)];
    } else {
      assert s[k] == sc[k];
    }
  }

  lemma LiveNew(sc: RegScopes, next: Reg, x: Name)
    requires Live(sc, next) && sc != []
    ensures Live(DeclareVar(sc, x, next), next + 1)
  {
    var s := DeclareVar(sc, x, next);
    forall k, y | Has(s, k, y) ensures Source(sc, s, x, next, k, y) {
      DeclaredAt(sc, x, next, k, y);
    }
    hide DeclareVar;
    forall k, y, l, z | Has(s, k, y) && Has(s, l, z) && s[k][y].reg == s[l][z].reg ensures k == l && y == z {
      assert Source(sc, s, x, next, k, y) && Source(sc, s, x, next, l, z);
    }
    forall k, y | Has(s, k, y) ensures s[k][y].reg < next + 1 {
      assert Source(sc, s, x, next, k, y);
    }
  }

  /** The scopes with `x` holding `v` in the innermost one. */
  function Holding(scopes: Scopes, x: Name, v: Value): Scopes
    requires scopes != []
  {
    scopes[..|scopes| - 1] + [scopes[|scopes| - 1][x := Renewed(scopes[|scopes| - 1], x, v)]]
  }

  lemma BindNew(sc: RegScopes, scopes: Scopes, regs: map<Reg, Value>, next: Reg, x: Name, v: Value)
    requires Agree(sc, scopes, regs) && Live(sc, next) && sc != [] && (x in sc[|sc| - 1] ==> !sc[|sc| - 1][x].result)
    ensures Agree(DeclareVar(sc, x, next), Holding(scopes, x, v), regs[next := v]) && Live(DeclareVar(sc, x, next), next + 1)
  {
    LiveNew(sc, next, x);
    var s, t, n := DeclareVar(sc, x, next), Holding(scopes, x, v), |sc| - 1;
    forall k | 0 <= k < |s| ensures s[k].Keys == t[k].Keys {
      if k == n {
        assert s[k] == sc[n][x := Place(next, None, false)] && t[k] == scopes[n][x := Renewed(scopes[n], x, v)];
      }
    }
    forall k, y | Has(s, k, y) ensures Fits(s[k][y], t[k][y], regs[next := v]) {
      NewFits(sc, scopes, regs, next, x, v, k, y);
    }
  }

  lemma NewFits(sc: RegScopes, scopes: Scopes, regs: map<Reg, Value>, next: Reg, x: Name, v: Value, k: int, y: Name)
    requires Agree(sc, scopes, regs) && Live(sc, next) && sc != [] && (x in sc[|sc| - 1] ==> !sc[|sc| - 1][x].result)
    requires Has(DeclareVar(sc, x, next), k, y)
    ensures y in Holding(scopes, x, v)[k] && Fits(DeclareVar(sc, x, next)[k][y], Holding(scopes, x, v)[k][y], regs[next := v])
  {
    var n := |sc| - 1;
    DeclaredAt(sc, x, next, k, y);
    if k == n && y == x {
      assert Holding(scopes, x, v)[k] == scopes[n][x := Renewed(scopes[n], x, v)];
      assert x in sc[n] ==> Has(sc, n, x) && Fits(sc[n][x], scopes[n][x], regs);
    } else {
      assert Fits(sc[k][y], scopes[k][y], regs);
    }
  }

  lemma BindExisting(sc: RegScopes, scopes: Scopes, regs: map<Reg, Value>, next: Reg, x: Name, v: Value)
    requires Agree(sc, scopes, regs) && Live(sc, next) && sc != [] && x in sc[|sc| - 1] && sc[|sc| - 1][x].box.None?
    ensures Agree(sc, Holding(scopes, x, v), regs[sc[|sc| - 1][x].reg := v])
  {
    var t, n := Holding(scopes, x, v), |sc| - 1;
    assert Has(sc, n, x);
    var after := regs[sc[n][x].reg := v];
    forall k, y | Has(sc, k, y) ensures Fits(sc[k][y], t[k][y], after) {
      if k == n && y == x {
        assert t[k][y] == Renewed(scopes[n], x, v) && Fits(sc[k][y], scopes[k][y], regs);
      } else {
        assert sc[k][y].reg != sc[n][x].reg && Fits(sc[k][y], scopes[k][y], regs);
      }
    }
  }

  /** Declaring a variable that was no named result leaves those alone. */
  lemma DeclareKeepsResults(sc: RegScopes, x: Name, r: Reg)
    requires sc != [] && (x in sc[|sc| - 1] ==> !sc[|sc| - 1][x].result)
    ensures ResultPlaces(DeclareVar(sc, x, r)) == ResultPlaces(sc)
  {
    var s, n := DeclareVar(sc, x, r), |sc| - 1;
    forall k | 0 <= k < |sc| ensures ResultPlaces(s)[k] == ResultPlaces(sc)[k] {
      assert k == n ==> s[k] == sc[n][x := Place(r, None, false)];
    }
  }

  lemma BindKeepsResults(b: Bound, x: Name, defs: set<Name>, src: Reg)
    requires b.scopes != [] && CanBind(x, defs, b.scopes[|b.scopes| - 1])
    ensures ResultPlaces(BindReg(b, x, defs, src).scopes) == ResultPlaces(b.scopes)
  {
    hide LookupReg;
    if x in defs {
      DeclareKeepsResults(b.scopes, x, b.next);
    }
  }

  // ---------- one binding ----------

  /** The code run so far leaves these variables in the registers, and this memory. */
  ghost predicate Holds(b: Bound, env: Env, m: Machine) {
    !m.panicked && m.mem == env.mem && Agree(b.scopes, env.scopes, m.regs) && Live(b.scopes, b.next) && b.scopes != []
  }

  /** No variable lives among the temporaries. */
  ghost predicate Clear(sc: RegScopes, lo: Reg, hi: Reg) {
    forall k, x :: Has(sc, k, x) ==> !(lo <= sc[k][x].reg < hi)
  }

  ghost predicate SameBetween(a: map<Reg, Value>, b: map<Reg, Value>, lo: Reg, hi: Reg) {
    forall r :: lo <= r < hi ==> Get(a, r) == Get(b, r)
  }

  lemma ClearNew(sc: RegScopes, lo: Reg, hi: Reg, x: Name, r: Reg)
    requires Clear(sc, lo, hi) && sc != [] && hi <= r
    ensures Clear(DeclareVar(sc, x, r), lo, hi)
  {
    var s := DeclareVar(sc, x, r);
    forall k, y | Has(s, k, y) ensures !(lo <= s[k][y].reg < hi) {
      DeclaredAt(sc, x, r, k, y);
    }
  }

  /** Binding a name to the value in `src` binds it in the environment, and disturbs no temporary. */
  lemma BindStep(w: World, b: Bound, x: Name, defs: set<Name>, src: Reg, env: Env, v: Value, lo: Reg, hi: Reg, m: Machine)
    requires Holds(b, env, Run(w, b.code, m)) && env.scopes != [] && Get(Run(w, b.code, m).regs, src) == v
    requires Clear(b.scopes, lo, hi) && hi <= b.next && CanBind(x, defs, b.scopes[|b.scopes| - 1])
    ensures var r, m1 := BindReg(b, x, defs, src), Run(w, b.code, m);
      && Holds(r, Bind(env, x, v), Run(w, r.code, m)) && Clear(r.scopes, lo, hi) && b.next <= r.next
      && SameBetween(m1.regs, Run(w, r.code, m).regs, lo, hi)
  {
    hide Agree, Live, Run;
    var m1, n := Run(w, b.code, m), |b.scopes| - 1;
    AgreePrefix(b.scopes, env.scopes, m1.regs, b.next);
    if x in b.scopes[n] {
      TopAgrees(b.scopes, env.scopes, m1.regs, b.next, x);
    }
    if x in defs {
      BindNew(b.scopes, env.scopes, m1.regs, b.next, x, v);
      ClearNew(b.scopes, lo, hi, x, b.next);
      RunSnoc(w, b.code, Move(b.next, src), m);
    } else {
      var p := b.scopes[n][x];
      RunSnoc(w, b.code, Write(p, src), m);
      assert Has(b.scopes, n, x);
      if p.box.None? {
        BindExisting(b.scopes, env.scopes, m1.regs, b.next, x, v);
      }
    }
  }

  // ---------- the declare phase ----------

  /** The names that can still be bound after a prefix. */
  lemma {:induction false} DeclareCanBind(lhs: seq<Name>, temps: seq<Reg>, defs: set<Name>, sc: RegScopes, next: Reg, all: seq<Name>)
    requires |lhs| == |temps| && sc != [] && CanBindAll(all, defs, sc)
    ensures CanBindAll(all, defs, DeclareFrom(lhs, temps, defs, sc, next).scopes)
    decreases |lhs|
  {
    hide CanBindAll, BindReg;
    if lhs != [] {
      var n := |lhs| - 1;
      DeclareCanBind(lhs[..n], temps[..n], defs, sc, next, all);
      if lhs[n] != BLANK {
        BindableAfter(all, defs, DeclareFrom(lhs[..n], temps[..n], defs, sc, next), lhs[n], temps[n]);
      }
    }
  }

  lemma {:induction false} DeclareFromResults(lhs: seq<Name>, temps: seq<Reg>, defs: set<Name>, sc: RegScopes, next: Reg)
    requires |lhs| == |temps| && sc != [] && CanBindAll(lhs, defs, sc)
    ensures ResultPlaces(DeclareFrom(lhs, temps, defs, sc, next).scopes) == ResultPlaces(sc)
    decreases |lhs|
  {
    hide CanBindAll, BindReg, ResultPlaces;
    if lhs != [] {
      var n := |lhs| - 1;
      PrefixCanBind(lhs, defs, sc);
      DeclareFromResults(lhs[..n], temps[..n], defs, sc, next);
      if lhs[n] != BLANK {
        var b := DeclareFrom(lhs[..n], temps[..n], defs, sc, next);
        DeclareCanBind(lhs[..n], temps[..n], defs, sc, next, lhs);
        LastCanBind(lhs, defs, b.scopes);
        BindKeepsResults(b, lhs[n], defs, temps[n]);
      }
    }
  }

  /** Declaring every name from its temporary has the effect of declaring the values. */
  lemma {:induction false} DeclareFromCorrect(w: World, lhs: seq<Name>, temps: seq<Reg>, values: seq<Value>, defs: set<Name>,
                                              sc: RegScopes, env: Env, lo: Reg, hi: Reg, m: Machine)
    requires Holds(Bound([], sc, lo), env, m) && CanBindAll(lhs, defs, sc) && lo <= hi && env.scopes != []
    requires |lhs| == |temps| == |values| && Held(temps, Wanted(lhs), values, m.regs, lo, hi)
    ensures var b := DeclareFrom(lhs, temps, defs, sc, hi);
      && Holds(b, Declare(env, lhs, values), Run(w, b.code, m)) && Clear(b.scopes, lo, hi) && hi <= b.next
      && SameBetween(m.regs, Run(w, b.code, m).regs, lo, hi)
    decreases |lhs|
  {
    hide Agree, Run, CanBindAll;
    if lhs == [] {
      RunNone(w, m);
      LiveMore(sc, lo, hi);
    } else {
      var n := |lhs| - 1;
      HeldPrefix(lhs, temps, values, m.regs, lo, hi);
      PrefixCanBind(lhs, defs, sc);
      DeclareFromCorrect(w, lhs[..n], temps[..n], values[..n], defs, sc, env, lo, hi, m);
      var b := DeclareFrom(lhs[..n], temps[..n], defs, sc, hi);
      if lhs[n] != BLANK {
        DeclareCanBind(lhs[..n], temps[..n], defs, sc, hi, lhs);
        LastCanBind(lhs, defs, b.scopes);
        BindStep(w, b, lhs[n], defs, temps[n], Declare(env, lhs[..n], values[..n]), values[n], lo, hi, m);
      }
    }
  }

  lemma PrefixCanBind(lhs: seq<Name>, defs: set<Name>, sc: RegScopes)
    requires lhs != [] && CanBindAll(lhs, defs, sc)
    ensures CanBindAll(lhs[..|lhs| - 1], defs, sc)
  {
  }

  lemma LastCanBind(lhs: seq<Name>, defs: set<Name>, sc: RegScopes)
    requires lhs != [] && CanBindAll(lhs, defs, sc) && lhs[|lhs| - 1] != BLANK
    ensures sc != [] && CanBind(lhs[|lhs| - 1], defs, sc[|sc| - 1])
  {
  }

  lemma HeldPrefix(lhs: seq<Name>, temps: seq<Reg>, values: seq<Value>, regs: map<Reg, Value>, lo: Reg, hi: Reg)
    requires lhs != [] && |temps| == |values| == |lhs| && Held(temps, Wanted(lhs), values, regs, lo, hi)
    ensures var n := |lhs| - 1;
      && Held(temps[..n], Wanted(lhs[..n]), values[..n], regs, lo, hi)
      && (lhs[n] != BLANK ==> lo <= temps[n] < hi && Get(regs, temps[n]) == values[n])
  {
    var n := |lhs| - 1;
    assert Wanted(lhs)[..n] == Wanted(lhs[..n]);
  }

  // ---------- the two-phase form ----------

  /** Evaluates every right side into a temporary, then declares. */
  function TwoPhase(lhs: seq<Name>, rhs: seq<Expr>, defs: set<Name>, sc: RegScopes, next: Reg): (r: Bound)
    requires |lhs| == |rhs| && sc != []
  {
    var p := Pin(rhs, Wanted(lhs), sc, next);
    var b := DeclareFrom(lhs, p.temps, defs, sc, p.next);
    Bound(p.code + b.code, b.scopes, b.next)
  }

  /** The machine and the scopes the code leaves are the statement's effect. */
  ghost predicate Realises(effect: Effect, m: Machine, b: Bound) {
    match effect
    case Effect(scopes, mem) => Holds(b, Env(scopes, mem), m)
    case Aborted(results, mem) => m.panicked && m.mem == mem && Agree(ResultPlaces(b.scopes), results, m.regs)
  }

  /** The two-phase form always has Go's meaning, and a panic finds every variable as it was. */
  lemma TwoPhaseCorrect(w: World, lhs: seq<Name>, rhs: seq<Expr>, defs: set<Name>, sc: RegScopes, scopes: Scopes, next: Reg, m: Machine)
    requires |lhs| == |rhs| && CanBindAll(lhs, defs, sc) && Holds(Bound([], sc, next), Env(scopes, m.mem), m) && scopes != []
    ensures var b := TwoPhase(lhs, rhs, defs, sc, next); var effect, m' := ShortVar(w, lhs, rhs, scopes, m.mem), Run(w, b.code, m);
      Realises(effect, m', b) && (effect.Aborted? ==> Agree(sc, scopes, m'.regs))
  {
    hide Agree, Live, Run, CanBindAll, ResultPlaces, Results;
    var p := Pin(rhs, Wanted(lhs), sc, next);
    PinCorrect(w, rhs, Wanted(lhs), sc, scopes, next, m);
    EvalAllLength(w, rhs, All(|rhs|), scopes, m.mem);
    var b, m1 := DeclareFrom(lhs, p.temps, defs, sc, p.next), Run(w, p.code, m);
    RunConcat(w, p.code, b.code, m);
    match EvalAll(w, rhs, All(|rhs|), scopes, m.mem)
    case AllReturned(values, mem) =>
      AgreeKept(sc, scopes, m.regs, m1.regs, next);
      DeclareFromCorrect(w, lhs, p.temps, values, defs, sc, Env(scopes, mem), next, p.next, m1);
    case AnyPanicked(mem) =>
      RunPanicked(w, b.code, m1);
      AgreeKept(sc, scopes, m.regs, m1.regs, next);
      ResultsAgree(sc, scopes, m1.regs);
      DeclareFromResults(lhs, p.temps, defs, sc, p.next);
  }
}

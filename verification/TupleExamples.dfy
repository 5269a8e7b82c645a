/** Statements that are not settled: what Go makes of them and what the code does. */
module TupleExamples {
  import opened Wrappers
  import opened GoAssign
  import opened AssignTrace
  import opened TupleHeld
  import opened TupleLowering
  import opened TupleSettled

  /** What a list is held as, if evaluating it changes nothing. */
  function HeldEach(w: World, es: seq<Expr>, holds: seq<Hold>, scopes: Scopes, mem: Memory, vs: seq<Value>): (r: seq<Held>)
    requires |es| == |holds| == |vs|
    ensures |r| == |es| && forall i :: 0 <= i < |es| ==> r[i] == HeldAs(w, es[i], holds[i], scopes, mem, vs[i])
  {
    seq(|es|, i requires 0 <= i < |es| => HeldAs(w, es[i], holds[i], scopes, mem, vs[i]))
  }

  lemma {:induction false} HoldEach(w: World, es: seq<Expr>, holds: seq<Hold>, scopes: Scopes, mem: Memory, vs: seq<Value>)
    requires |es| == |holds| == |vs| && forall i :: 0 <= i < |es| ==> Eval(w, es[i], scopes, mem) == Returned(vs[i], mem)
    ensures HoldAll(w, es, holds, scopes, mem) == AllHeld(HeldEach(w, es, holds, scopes, mem, vs), mem)
    decreases |es|
  {
    hide Eval, HeldAs;
    if es != [] {
      var k := |es| - 1;
      HoldEach(w, es[..k], holds[..k], scopes, mem, vs[..k]);
      assert HeldEach(w, es, holds, scopes, mem, vs) == HeldEach(w, es[..k], holds[..k], scopes, mem, vs[..k]) + [HeldAs(w, es[k], holds[k], scopes, mem, vs[k])];
    }
  }

  lemma TwoTargets(t: Target, u: Target)
    ensures AllOperands([t, u]) == Operands(t) + Operands(u) && AllHolds([t, u]) == OperandHolds(t) + OperandHolds(u)
    ensures [t, u][..1] == [t] && AllOperands([t]) == Operands(t)
  {
    hide Operands, OperandHolds;
    assert [t, u][..1] == [t] && [t][..0] == [];
    assert AllOperands([t]) == AllOperands([]) + Operands(t) && AllHolds([t]) == AllHolds([]) + OperandHolds(t);
  }

  lemma OneStore(w: World, t: Target, a: seq<Held>, h: Held, ops: seq<Value>, v: Value, env: Env)
    requires |a| == |Operands(t)| == |ops|
    ensures |AllOperands([t])| == |a| && StoreAllCurrent(w, [t], a, [h], env) == StoreCurrent(w, t, a, h, env)
    ensures StoreAll(w, [t], ops, [v], env) == Store(w, t, ops, v, env)
  {
    hide Operands, Store, StoreCurrent;
    assert [t][..0] == [] && AllOperands([t]) == AllOperands([]) + Operands(t);
    assert a[0..] == a && ops[0..] == ops && a[..0] == [] && ops[..0] == [] && [h][..0] == [] && [v][..0] == [];
  }

  /** A statement with two targets, by the machine and by Go. */
  lemma TwoStores(w: World, t: Target, u: Target, a: seq<Held>, b: seq<Held>, h: Held, i: Held, env: Env)
    requires |a| == |Operands(t)| && |b| == |Operands(u)|
    ensures |AllOperands([t, u])| == |a + b|
    ensures StoreAllCurrent(w, [t, u], a + b, [h, i], env)
      == var r := StoreCurrent(w, t, a, h, env); if r.Aborted? then r else StoreCurrent(w, u, b, i, Env(r.scopes, r.mem))
    ensures StoreAll(w, [t, u], Nows(a + b, env.scopes, env.mem), Nows([h, i], env.scopes, env.mem), env)
      == var r := Store(w, t, Nows(a, env.scopes, env.mem), Now(h, env.scopes, env.mem), env);
         if r.Aborted? then r else Store(w, u, Nows(b, env.scopes, env.mem), Now(i, env.scopes, env.mem), Env(r.scopes, r.mem))
  {
    hide Operands, Store, Now, StoreCurrent;
    TwoTargets(t, u);
    assert [h, i][..1] == [h] && (a + b)[..|a|] == a && (a + b)[|a|..] == b;
    var now, values := Nows(a + b, env.scopes, env.mem), Nows([h, i], env.scopes, env.mem);
    assert now[..|a|] == Nows(a, env.scopes, env.mem) && now[|a|..] == Nows(b, env.scopes, env.mem);
    assert values[..1] == [Now(h, env.scopes, env.mem)];
    OneStore(w, t, a, h, now[..|a|], values[0], env);
  }

  /** Both meanings of a statement with two targets and no calls. */
  lemma Both(w: World, t: Target, u: Target, rhs: seq<Expr>, refs: seq<bool>, scopes: Scopes, mem: Memory, vs: seq<Value>, a: seq<Held>, b: seq<Held>, h: Held, i: Held)
    requires |rhs| == |refs| == 2 && |a| == |Operands(t)| && |b| == |Operands(u)|
    requires var es := Operands(t) + Operands(u) + rhs;
      && |vs| == |es| && (forall e :: e in es ==> Calls(e) == 0) && (forall q :: 0 <= q < |es| ==> Eval(w, es[q], scopes, mem) == Returned(vs[q], mem))
      && HeldEach(w, es, OperandHolds(t) + OperandHolds(u) + ValueHolds(rhs, refs), scopes, mem, vs) == a + b + [h, i]
    ensures AssignCurrent(w, [t, u], rhs, refs, scopes, mem)
      == var r := StoreCurrent(w, t, a, h, Env(scopes, mem)); if r.Aborted? then r else StoreCurrent(w, u, b, i, Env(r.scopes, r.mem))
    ensures TupleAssign(w, [t, u], rhs, scopes, mem)
      == var r := Store(w, t, Nows(a, scopes, mem), Now(h, scopes, mem), Env(scopes, mem));
         if r.Aborted? then r else Store(w, u, Nows(b, scopes, mem), Now(i, scopes, mem), Env(r.scopes, r.mem))
  {
    hide Operands, OperandHolds, Eval, HeldAs, Store, Now, Calls, StoreAllCurrent, StoreAll, HoldAll, TupleAssign, AllOperands, Results;
    var es, holds := Operands(t) + Operands(u) + rhs, OperandHolds(t) + OperandHolds(u) + ValueHolds(rhs, refs);
    TwoTargets(t, u);
    HoldEach(w, es, holds, scopes, mem, vs);
    TwoStores(w, t, u, a, b, h, i, Env(scopes, mem));
    var held, k := a + b + [h, i], |AllOperands([t, u])|;
    assert HoldStatement(w, [t, u], rhs, refs, scopes, mem) == AllHeld(held, mem);
    assert held[..k] == a + b && held[k..] == [h, i];
    var now := Nows(held, scopes, mem);
    assert now[..k] == Nows(a + b, scopes, mem) && now[k..] == Nows([h, i], scopes, mem);
    ReadLastIsGo(w, [t, u], rhs, refs, scopes, mem);
  }

  // ---------- keys and bases ----------

  /** The variable is in a register and is v. */
  predicate Holds(scopes: Scopes, x: Name, v: Value) {
    InRegister(Lookup(scopes, x)) && Lookup(scopes, x).value.raw == v
  }

  /** The variable is in a box. */
  predicate InBox(scopes: Scopes, x: Name, box: Cell) {
    IsBoxed(Lookup(scopes, x)) && BoxOf(Lookup(scopes, x).value) == box
  }

  /** `k, m[k] = k2, v` with k a struct in a register: Go stores under the old k, the code under the new. */
  lemma StoredUnderNewKey(w: World, scopes: Scopes, mem: Memory, k: Value, k2: Value, m: Value, v: Value)
    requires Holds(scopes, "k", k) && Holds(scopes, "k2", k2) && Holds(scopes, "m", m) && Holds(scopes, "v", v) && w.assignable(m, k) && w.assignable(m, k2)
    ensures var ts, rhs, after := [ToIdent("k"), ToIndex(Ident("m"), Ident("k"), Mapped, Keep)], [Ident("k2"), Ident("v")], AssignVar(Env(scopes, mem), "k", k2).scopes;
      && TupleAssign(w, ts, rhs, scopes, mem) == Effect(after, mem[Cell(m, ByIndex(k, Mapped)) := v])
      && AssignCurrent(w, ts, rhs, [false, false], scopes, mem) == Effect(after, mem[Cell(m, ByIndex(k2, Mapped)) := v])
  {
    hide Lookup, AssignVar, TupleAssign, AssignCurrent;
    var t, u, rhs := ToIdent("k"), ToIndex(Ident("m"), Ident("k"), Mapped, Keep), [Ident("k2"), Ident("v")];
    var es, vs, held := [Ident("m"), Ident("k"), Ident("k2"), Ident("v")], [m, k, k2, v], [Plain(m), Follows("k"), Plain(k2), Plain(v)];
    assert Operands(t) + Operands(u) + rhs == es;
    assert HeldEach(w, es, OperandHolds(t) + OperandHolds(u) + ValueHolds(rhs, [false, false]), scopes, mem, vs) == held;
    assert held == [] + held[..2] + held[2..];
    Both(w, t, u, rhs, [false, false], scopes, mem, vs, [], held[..2], held[2], held[3]);
    AssignMem(Env(scopes, mem), "k", k2);
    AssignLookup(Env(scopes, mem), "k", k2, "k");
  }

  /** The same with k in a box, as after `p := &k`. */
  lemma StoredUnderNewBoxedKey(w: World, scopes: Scopes, mem: Memory, box: Cell, k2: Value, m: Value, v: Value)
    requires InBox(scopes, "k", box) && Holds(scopes, "k2", k2) && Holds(scopes, "m", m) && Holds(scopes, "v", v) && w.assignable(m, Load(mem, box)) && w.assignable(m, k2)
    ensures var ts, rhs := [ToIdent("k"), ToIndex(Ident("m"), Ident("k"), Mapped, Keep)], [Ident("k2"), Ident("v")];
      && TupleAssign(w, ts, rhs, scopes, mem).mem == mem[box := k2][Cell(m, ByIndex(Load(mem, box), Mapped)) := v]
      && AssignCurrent(w, ts, rhs, [false, false], scopes, mem).mem == mem[box := k2][Cell(m, ByIndex(k2, Mapped)) := v]
  {
    hide Lookup, AssignVar, TupleAssign, AssignCurrent;
    var t, u, rhs, k := ToIdent("k"), ToIndex(Ident("m"), Ident("k"), Mapped, Keep), [Ident("k2"), Ident("v")], Load(mem, box);
    var es, vs, held := [Ident("m"), Ident("k"), Ident("k2"), Ident("v")], [m, k, k2, v], [Plain(m), Views(box), Plain(k2), Plain(v)];
    assert Operands(t) + Operands(u) + rhs == es;
    assert HeldEach(w, es, OperandHolds(t) + OperandHolds(u) + ValueHolds(rhs, [false, false]), scopes, mem, vs) == held;
    assert held == [] + held[..2] + held[2..];
    Both(w, t, u, rhs, [false, false], scopes, mem, vs, [], held[..2], held[2], held[3]);
    AssignMem(Env(scopes, mem), "k", k2);
  }

  /** `*p, m[*p] = k2, v` with *p a struct: the same. */
  lemma StoredUnderNewPointee(w: World, scopes: Scopes, mem: Memory, kind: Kind, p: Value, k2: Value, m: Value, v: Value)
    requires Holds(scopes, "p", p) && Holds(scopes, "k2", k2) && Holds(scopes, "m", m) && Holds(scopes, "v", v) && !w.isNil(p)
    requires w.assignable(m, Load(mem, Cell(p, ByStar(kind)))) && w.assignable(m, k2)
    ensures var ts, rhs, at := [ToStar(Ident("p"), kind), ToIndex(Ident("m"), Star(Ident("p"), kind), Mapped, Keep)], [Ident("k2"), Ident("v")], Cell(p, ByStar(kind));
      && TupleAssign(w, ts, rhs, scopes, mem) == Effect(scopes, mem[at := k2][Cell(m, ByIndex(Load(mem, at), Mapped)) := v])
      && AssignCurrent(w, ts, rhs, [false, false], scopes, mem) == Effect(scopes, mem[at := k2][Cell(m, ByIndex(k2, Mapped)) := v])
  {
    hide Lookup, TupleAssign, AssignCurrent;
    var t, u, rhs, at := ToStar(Ident("p"), kind), ToIndex(Ident("m"), Star(Ident("p"), kind), Mapped, Keep), [Ident("k2"), Ident("v")], Cell(p, ByStar(kind));
    var es, vs := [Ident("p"), Ident("m"), Star(Ident("p"), kind), Ident("k2"), Ident("v")], [p, m, Load(mem, at), k2, v];
    var held := [Plain(p), Plain(m), Views(at), Plain(k2), Plain(v)];
    assert Operands(t) + Operands(u) + rhs == es;
    assert HeldEach(w, es, OperandHolds(t) + OperandHolds(u) + ValueHolds(rhs, [false, false]), scopes, mem, vs) == held;
    assert held == held[..1] + held[1..3] + held[3..];
    Both(w, t, u, rhs, [false, false], scopes, mem, vs, held[..1], held[1..3], held[3], held[4]);
  }

  /** `xs, xs[0] = ys, 1` with xs in a box: Go stores into the old xs, the code into ys. */
  lemma StoredIntoNewSlice(w: World, scopes: Scopes, mem: Memory, kind: Kind, box: Cell, ys: Value)
    requires InBox(scopes, "xs", box) && Holds(scopes, "ys", ys) && w.assignable(Load(mem, box), Num(0)) && w.assignable(ys, Num(0))
    ensures var ts, rhs := [ToIdent("xs"), ToIndex(Ident("xs"), Lit(0), Listed(kind), Copy)], [Ident("ys"), Lit(1)];
      && TupleAssign(w, ts, rhs, scopes, mem).mem == mem[box := ys][Cell(Load(mem, box), ByIndex(Num(0), Listed(kind))) := Num(1)]
      && AssignCurrent(w, ts, rhs, [true, false], scopes, mem).mem == mem[box := ys][Cell(ys, ByIndex(Num(0), Listed(kind))) := Num(1)]
  {
    hide Lookup, AssignVar, TupleAssign, AssignCurrent;
    var t, u, rhs := ToIdent("xs"), ToIndex(Ident("xs"), Lit(0), Listed(kind), Copy), [Ident("ys"), Lit(1)];
    var es, vs, held := [Ident("xs"), Lit(0), Ident("ys"), Lit(1)], [Load(mem, box), Num(0), ys, Num(1)], [Views(box), Plain(Num(0)), Plain(ys), Plain(Num(1))];
    assert Operands(t) + Operands(u) + rhs == es;
    assert HeldEach(w, es, OperandHolds(t) + OperandHolds(u) + ValueHolds(rhs, [true, false]), scopes, mem, vs) == held;
    assert held == [] + held[..2] + held[2..];
    Both(w, t, u, rhs, [true, false], scopes, mem, vs, [], held[..2], held[2], held[3]);
    AssignMem(Env(scopes, mem), "xs", ys);
  }

  // ---------- values ----------

  /** `*p, *q = *q, *p` with references at p and q: Go swaps them, the code leaves the one at q in both. */
  lemma ReferencesNotSwapped(w: World, scopes: Scopes, mem: Memory, kind: Kind, p: Value, q: Value)
    requires Holds(scopes, "p", p) && Holds(scopes, "q", q) && !w.isNil(p) && !w.isNil(q) && p != q
    ensures var ts, rhs := [ToStar(Ident("p"), kind), ToStar(Ident("q"), kind)], [Star(Ident("q"), kind), Star(Ident("p"), kind)];
      var a, b := Cell(p, ByStar(kind)), Cell(q, ByStar(kind));
      && TupleAssign(w, ts, rhs, scopes, mem) == Effect(scopes, mem[a := Load(mem, b)][b := Load(mem, a)])
      && AssignCurrent(w, ts, rhs, [true, true], scopes, mem) == Effect(scopes, mem[a := Load(mem, b)][b := Load(mem, b)])
  {
    hide Lookup, TupleAssign, AssignCurrent;
    var t, u, rhs := ToStar(Ident("p"), kind), ToStar(Ident("q"), kind), [Star(Ident("q"), kind), Star(Ident("p"), kind)];
    var a, b := Cell(p, ByStar(kind)), Cell(q, ByStar(kind));
    var es, vs, held := [Ident("p"), Ident("q"), Star(Ident("q"), kind), Star(Ident("p"), kind)], [p, q, Load(mem, b), Load(mem, a)], [Plain(p), Plain(q), Views(b), Views(a)];
    assert Operands(t) + Operands(u) + rhs == es;
    assert HeldEach(w, es, OperandHolds(t) + OperandHolds(u) + ValueHolds(rhs, [true, true]), scopes, mem, vs) == held;
    assert held == held[..1] + held[1..2] + held[2..];
    Both(w, t, u, rhs, [true, true], scopes, mem, vs, held[..1], held[1..2], held[2], held[3]);
  }
}

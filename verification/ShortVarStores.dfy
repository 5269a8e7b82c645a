/** A box written before a later right side is evaluated: what that side can tell. */
module ShortVarStores {
  import opened Wrappers
  import opened GoAssign
  import opened AssignLowering
  import opened ShortVarLowering
  import opened ShortVarSequential
  import opened AssignTrace
  import opened AssignHistory
  import opened ShortVarHarmless
  import opened ShortVarLate
  import opened FreeWorld
  import opened ShortVarNecessary

  /** No name is bound twice. */
  ghost predicate Distinct(lhs: seq<Name>) {
    forall i, j :: 0 <= i < j < |lhs| && lhs[i] != BLANK ==> lhs[i] != lhs[j]
  }

  function BoxCell(top: nat, x: Name, kind: Kind): Cell {
    Cell(Code(TVar(top, x)), ByStar(kind))
  }

  lemma {:induction false} CallsGrow(es: seq<Expr>, wanted: seq<bool>, m: nat)
    requires |wanted| == |es| && m <= |es|
    ensures CallsOf(es[..m], wanted[..m]) <= CallsOf(es, wanted)
    ensures forall j :: m <= j < |es| && wanted[j] && Calls(es[j]) > 0 ==> CallsOf(es[..m], wanted[..m]) < CallsOf(es, wanted)
    ensures (forall j :: m <= j < |es| && wanted[j] ==> Calls(es[j]) == 0) ==> CallsOf(es[..m], wanted[..m]) == CallsOf(es, wanted)
    decreases |es|
  {
    hide Calls;
    if m == |es| {
      assert es[..m] == es && wanted[..m] == wanted;
    } else {
      var n := |es| - 1;
      CallsGrow(es[..n], wanted[..n], m);
      assert es[..n][..m] == es[..m] && wanted[..n][..m] == wanted[..m];
    }
  }

  /** In epoch k the box still holds the value. */
  ghost predicate BoxHolds(mem: Memory, k: nat, box: Cell, v: Value) {
    k <= Tick(mem) && (Tick(mem) == k ==> Load(mem, box) == v)
  }

  /** Binding another name leaves the box alone. */
  lemma BindElsewhere(scopes: Scopes, env: Env, names: set<Name>, x: Name, v: Value, top: nat, y: Name, kind: Kind)
    requires scopes != [] && env.scopes != [] && SameOutside(scopes, env.scopes, names) && OwnBox(scopes, x) && x != y && top == |scopes| - 1
    ensures Load(Bind(env, x, v).mem, BoxCell(top, y, kind)) == Load(env.mem, BoxCell(top, y, kind))
    ensures Tick(Bind(env, x, v).mem) == Tick(env.mem)
  {
    assert TopBox(env.scopes, x) == TopBox(scopes, x);
    BindCell(env, x, v, BoxCell(top, y, kind));
    BindCell(env, x, v, TICK);
  }

  lemma EvalBindKeeps(rig: Rig, e: Expr, x: Name, sc: RegScopes, scopes: Scopes, env: Env, k: nat, names: set<Name>, from: nat, top: nat, y: Name, kind: Kind, v: Value)
    requires scopes != [] && env.scopes != [] && SameOutside(scopes, env.scopes, names) && OwnBox(scopes, x) && x != y && top == |scopes| - 1
    requires Visible(e, sc, scopes, names) && Tracks(env.mem, k, top, names) && from <= k && BoxHolds(env.mem, from, BoxCell(top, y, kind), v)
    ensures BoxHolds(EvalBind(Free(rig), e, x, env).mem, from, BoxCell(top, y, kind), v)
  {
    hide Visible, Eval, Code, Sym, Checks, Calls, Trips, Free, OwnBox, SameOutside, Tracks, Bind, Tick, Load, BoxCell;
    VisibleStill(e, sc, scopes, env.scopes, names);
    FreeEval(rig, e, sc, env.scopes, k, env.mem, top, names);
    TracksTick(env.mem, k, top, names);
    var last := Eval(Free(rig), e, env.scopes, env.mem);
    if last.Returned? {
      BindElsewhere(scopes, Env(env.scopes, last.mem), names, x, last.value, top, y, kind);
    }
  }

  /** Name i is bound to its value, in its box. */
  lemma BoxBound(rig: Rig, lhs: seq<Name>, rhs: seq<Expr>, sc: RegScopes, scopes: Scopes)
    requires |lhs| == |rhs| && lhs != [] && scopes != [] && Legible(lhs, rhs, sc, scopes)
    requires var n := |lhs| - 1; lhs[n] != BLANK && TopBox(scopes, lhs[n]).Some?
    ensures var n := |lhs| - 1; var r := Interleaved(Free(rig), lhs, rhs, scopes, FreeMem(0));
      r.Effect? ==> BoxHolds(r.mem, CallsOf(rhs, Wanted(lhs)), BoxOf(TopBox(scopes, lhs[n]).value), Code(Sym(rhs[n], sc, CallsOf(rhs[..n], Wanted(lhs[..n])))))
  {
    var n, top := |lhs| - 1, |scopes| - 1;
    FreeInterleaved(rig, lhs, rhs, sc, scopes);
    LegiblePrefix(lhs, rhs, sc, scopes, n);
    FreeInterleaved(rig, lhs[..n], rhs[..n], sc, scopes);
    hide Visible, Eval, Code, Sym, Checks, Calls, Trips, Free, Tracks, Bind, Tick, Load, DuesOf, CallsOf, LeftNames, Lookup;
    var front := Interleaved(Free(rig), lhs[..n], rhs[..n], scopes, FreeMem(0));
    if front.Effect? {
      var k, names, env := CallsOf(rhs[..n], Wanted(lhs[..n])), LeftNames(lhs[..n]), Env(front.scopes, front.mem);
      VisibleStill(rhs[n], sc, scopes, front.scopes, names);
      FreeEval(rig, rhs[n], sc, front.scopes, k, front.mem, top, names);
      var last := Eval(Free(rig), rhs[n], front.scopes, front.mem);
      if last.Returned? {
        assert TopBox(front.scopes, lhs[n]) == TopBox(scopes, lhs[n]);
        BindCell(Env(front.scopes, last.mem), lhs[n], last.value, BoxOf(TopBox(scopes, lhs[n]).value));
      }
    }
  }

  /** The value bound to name i, in the terms of the statement. */
  function BoundValue(lhs: seq<Name>, rhs: seq<Expr>, sc: RegScopes, i: nat): Value
    requires |lhs| == |rhs| && i < |lhs|
  {
    Code(Sym(rhs[i], sc, Start(lhs, rhs, i)))
  }

  lemma OneTurn(w: World, lhs: seq<Name>, rhs: seq<Expr>, scopes: Scopes, mem: Memory)
    requires |lhs| == |rhs| && lhs != [] && scopes != []
    ensures var n := |lhs| - 1; var front := Interleaved(w, lhs[..n], rhs[..n], scopes, mem);
      Interleaved(w, lhs, rhs, scopes, mem)
      == if front.Aborted? || lhs[n] == BLANK then front else EvalBind(w, rhs[n], lhs[n], Env(front.scopes, front.mem))
  {
  }

  lemma BoxKeptTurn(rig: Rig, lhs: seq<Name>, rhs: seq<Expr>, sc: RegScopes, scopes: Scopes, from: nat, y: Name, kind: Kind, v: Value)
    requires |lhs| == |rhs| && lhs != [] && scopes != [] && Legible(lhs, rhs, sc, scopes) && lhs[|lhs| - 1] != y
    requires var n := |lhs| - 1; from <= Start(lhs, rhs, n) && BoxHolds(Interleaved(Free(rig), lhs[..n], rhs[..n], scopes, FreeMem(0)).mem, from, BoxCell(|scopes| - 1, y, kind), v)
    ensures BoxHolds(Interleaved(Free(rig), lhs, rhs, scopes, FreeMem(0)).mem, from, BoxCell(|scopes| - 1, y, kind), v)
  {
    var n, top := |lhs| - 1, |scopes| - 1;
    LegiblePrefix(lhs, rhs, sc, scopes, n);
    FreeInterleaved(rig, lhs[..n], rhs[..n], sc, scopes);
    OneTurn(Free(rig), lhs, rhs, scopes, FreeMem(0));
    hide Interleaved, Visible, EvalBind, Sym, Calls, Trips, Free, FreeMem, SameOutside, Tracks, Tick, DuesOf, CallsOf, LeftNames, BoxHolds, OwnBox, TopBox, Code, BoxCell;
    var front := Interleaved(Free(rig), lhs[..n], rhs[..n], scopes, FreeMem(0));
    if front.Effect? && lhs[n] != BLANK {
      var k := Start(lhs, rhs, n);
      RunsTracks(rig, DuesOf(rhs[..n], Wanted(lhs[..n]), sc), 0, k, front.mem, top, LeftNames(lhs[..n]));
      EvalBindKeeps(rig, rhs[n], lhs[n], sc, scopes, Env(front.scopes, front.mem), k, LeftNames(lhs[..n]), from, top, y, kind, v);
    }
  }

  lemma OwnCell(lhs: seq<Name>, rhs: seq<Expr>, sc: RegScopes, scopes: Scopes, i: nat) returns (kind: Kind)
    requires Legible(lhs, rhs, sc, scopes) && i < |lhs| && lhs[i] != BLANK && scopes != [] && TopBox(scopes, lhs[i]).Some?
    ensures BoxOf(TopBox(scopes, lhs[i]).value) == BoxCell(|scopes| - 1, lhs[i], kind)
  {
    assert OwnBox(scopes, lhs[i]);
    kind := TopBox(scopes, lhs[i]).value.box.value;
  }

  /** Once name i was bound, its box holds its value until the next call. */
  lemma {:induction false} BoxKept(rig: Rig, lhs: seq<Name>, rhs: seq<Expr>, sc: RegScopes, scopes: Scopes, i: nat)
    requires |lhs| == |rhs| && scopes != [] && Legible(lhs, rhs, sc, scopes) && Distinct(lhs)
    requires i < |lhs| && lhs[i] != BLANK && TopBox(scopes, lhs[i]).Some?
    requires Interleaved(Free(rig), lhs[..i + 1], rhs[..i + 1], scopes, FreeMem(0)).Effect?
    ensures var r := Interleaved(Free(rig), lhs, rhs, scopes, FreeMem(0));
      BoxHolds(r.mem, Start(lhs, rhs, i + 1), BoxOf(TopBox(scopes, lhs[i]).value), BoundValue(lhs, rhs, sc, i))
    decreases |lhs|
  {
    hide Interleaved, Legible, Sym, Free, FreeMem, CallsOf, BoxHolds, TopBox, Code, BoxCell, BoxOf;
    var n := |lhs| - 1;
    if i == n {
      assert lhs[..i + 1] == lhs && rhs[..i + 1] == rhs;
      BoxBound(rig, lhs, rhs, sc, scopes);
    } else {
      LegiblePrefix(lhs, rhs, sc, scopes, n);
      assert lhs[..n][..i + 1] == lhs[..i + 1] && rhs[..n][..i + 1] == rhs[..i + 1] && lhs[..n][..i] == lhs[..i] && rhs[..n][..i] == rhs[..i];
      BoxKept(rig, lhs[..n], rhs[..n], sc, scopes, i);
      assert Wanted(lhs[..n])[..i + 1] == Wanted(lhs[..i + 1]);
      CallsGrow(rhs[..n], Wanted(lhs[..n]), i + 1);
      var kind := OwnCell(lhs, rhs, sc, scopes, i);
      BoxKeptTurn(rig, lhs, rhs, sc, scopes, Start(lhs, rhs, i + 1), lhs[i], kind, BoundValue(lhs, rhs, sc, i));
    }
  }

  lemma NotThatVar(e: Expr, sc: RegScopes, k: nat, l: nat, x: Name)
    requires x !in Idents(e)
    ensures Sym(e, sc, k) != TVar(l, x)
  {
  }

  /** No right side stands for the content of a box it does not mention. */
  lemma NotItsBox(e: Expr, sc: RegScopes, k: nat, l: nat, top: nat, x: Name, kind: Kind)
    requires x !in Idents(e)
    ensures Code(Sym(e, sc, k)) != Code(TStar(l, TVar(top, x), kind))
  {
    if Code(Sym(e, sc, k)) == Code(TStar(l, TVar(top, x), kind)) {
      CodeInjective(Sym(e, sc, k), TStar(l, TVar(top, x), kind));
      if e.Star? {
        NotThatVar(e.base, sc, k, top, x);
      }
      assert false;
    }
  }

  /** In Go's meaning a panic leaves the box as it was. */
  lemma GoBox(mem: Memory, k: nat, top: nat, x: Name, kind: Kind)
    requires Tracks(mem, k, 0, {})
    ensures Load(mem, BoxCell(top, x, kind)) == Code(TStar(k, TVar(top, x), kind))
  {
    StarCell(TVar(top, x), kind, k, mem, 0, {});
  }

  // ---------- a named result ----------

  /** A variable of the innermost scope. */
  function TopSlot(scopes: Scopes, x: Name): Option<Slot> {
    if scopes != [] && x in scopes[|scopes| - 1] then Some(scopes[|scopes| - 1][x]) else None
  }

  /** What is left of the variables. */
  function Remaining(r: Effect): Scopes {
    if r.Effect? then r.scopes else r.results
  }

  lemma BindOther(env: Env, x: Name, v: Value, y: Name)
    requires env.scopes != [] && x != y
    ensures TopSlot(Bind(env, x, v).scopes, y) == TopSlot(env.scopes, y)
  {
  }

  lemma ResultStays(scopes: Scopes, y: Name)
    requires TopSlot(scopes, y).Some? && TopSlot(scopes, y).value.result
    ensures TopSlot(Results(scopes), y) == TopSlot(scopes, y)
  {
  }

  /** A name that is not bound keeps its variable. */
  lemma {:induction false} TurnsOther(w: World, lhs: seq<Name>, rhs: seq<Expr>, scopes: Scopes, mem: Memory, y: Name)
    requires |lhs| == |rhs| && scopes != [] && y !in lhs
    ensures var r := Interleaved(w, lhs, rhs, scopes, mem); r.Effect? ==> TopSlot(r.scopes, y) == TopSlot(scopes, y)
    decreases |lhs|
  {
    hide Bind, TopSlot, Eval;
    if lhs != [] {
      var n := |lhs| - 1;
      TurnsOther(w, lhs[..n], rhs[..n], scopes, mem, y);
      var front := Interleaved(w, lhs[..n], rhs[..n], scopes, mem);
      if front.Effect? && lhs[n] != BLANK {
        var last := Eval(w, rhs[n], front.scopes, front.mem);
        BindOther(Env(front.scopes, last.mem), lhs[n], if last.Returned? then last.value else ZERO, y);
      }
    }
  }

  /** Once name i was bound, a named result keeps what it was bound to, through a panic too. */
  lemma {:induction false} ResultKept(w: World, lhs: seq<Name>, rhs: seq<Expr>, scopes: Scopes, mem: Memory, i: nat)
    requires |lhs| == |rhs| && scopes != [] && Distinct(lhs) && i < |lhs| && lhs[i] != BLANK
    requires var r := Interleaved(w, lhs[..i + 1], rhs[..i + 1], scopes, mem);
      r.Effect? && TopSlot(r.scopes, lhs[i]).Some? && TopSlot(r.scopes, lhs[i]).value.result
    ensures TopSlot(Remaining(Interleaved(w, lhs, rhs, scopes, mem)), lhs[i])
         == TopSlot(Interleaved(w, lhs[..i + 1], rhs[..i + 1], scopes, mem).scopes, lhs[i])
    decreases |lhs|
  {
    hide Bind, TopSlot, Eval, Results;
    var n := |lhs| - 1;
    if i == n {
      assert lhs[..i + 1] == lhs && rhs[..i + 1] == rhs;
    } else {
      assert lhs[..n][..i + 1] == lhs[..i + 1] && rhs[..n][..i + 1] == rhs[..i + 1];
      ResultKept(w, lhs[..n], rhs[..n], scopes, mem, i);
      var front := Interleaved(w, lhs[..n], rhs[..n], scopes, mem);
      if front.Effect? && lhs[n] != BLANK {
        var last := Eval(w, rhs[n], front.scopes, front.mem);
        BindOther(Env(front.scopes, last.mem), lhs[n], if last.Returned? then last.value else ZERO, lhs[i]);
        ResultStays(front.scopes, lhs[i]);
      }
    }
  }

  lemma BindTop(env: Env, x: Name, v: Value)
    requires TopSlot(env.scopes, x).Some? && TopSlot(env.scopes, x).value.box.None?
    ensures TopSlot(Bind(env, x, v).scopes, x) == Some(Slot(v, None, TopSlot(env.scopes, x).value.result))
  {
  }

  /** The last name, a variable in a register, is bound to its value. */
  lemma ResultBound(rig: Rig, lhs: seq<Name>, rhs: seq<Expr>, sc: RegScopes, scopes: Scopes)
    requires |lhs| == |rhs| && lhs != [] && scopes != [] && Legible(lhs, rhs, sc, scopes) && Distinct(lhs)
    requires var x := lhs[|lhs| - 1]; x != BLANK && TopSlot(scopes, x).Some? && TopSlot(scopes, x).value.box.None?
    ensures var n := |lhs| - 1; var r := Interleaved(Free(rig), lhs, rhs, scopes, FreeMem(0));
      r.Effect? ==> TopSlot(r.scopes, lhs[n]) == Some(Slot(Code(Sym(rhs[n], sc, Start(lhs, rhs, n))), None, TopSlot(scopes, lhs[n]).value.result))
  {
    var n, top := |lhs| - 1, |scopes| - 1;
    LegiblePrefix(lhs, rhs, sc, scopes, n);
    FreeInterleaved(rig, lhs[..n], rhs[..n], sc, scopes);
    OneTurn(Free(rig), lhs, rhs, scopes, FreeMem(0));
    assert lhs[n] !in lhs[..n];
    TurnsOther(Free(rig), lhs[..n], rhs[..n], scopes, FreeMem(0), lhs[n]);
    hide Interleaved, Visible, Eval, Code, Sym, Checks, Calls, Trips, Free, Tracks, Bind, Tick, Load, DuesOf, CallsOf, LeftNames, Lookup, TopSlot, OwnBox, TopBox;
    var front := Interleaved(Free(rig), lhs[..n], rhs[..n], scopes, FreeMem(0));
    if front.Effect? {
      var k, names := Start(lhs, rhs, n), LeftNames(lhs[..n]);
      RunsTracks(rig, DuesOf(rhs[..n], Wanted(lhs[..n]), sc), 0, k, front.mem, top, names);
      VisibleStill(rhs[n], sc, scopes, front.scopes, names);
      FreeEval(rig, rhs[n], sc, front.scopes, k, front.mem, top, names);
      var last := Eval(Free(rig), rhs[n], front.scopes, front.mem);
      if last.Returned? {
        BindTop(Env(front.scopes, last.mem), lhs[n], last.value);
      }
    }
  }

  lemma OwnSlot(sc: RegScopes, x: Name)
    requires Outlives(x, sc) && !Boxed(x, sc)
    ensures TopSlot(FreeScopes(sc, None), x) == Some(Slot(Code(TVar(|sc| - 1, x)), None, true))
  {
    hide Code;
    assert Has(sc, |sc| - 1, x);
  }

  lemma NotItself(e: Expr, sc: RegScopes, k: nat, l: nat, x: Name)
    requires x !in Idents(e)
    ensures Code(Sym(e, sc, k)) != Code(TVar(l, x))
  {
    NotThatVar(e, sc, k, l, x);
    hide Sym;
    if Code(Sym(e, sc, k)) == Code(TVar(l, x)) {
      CodeInjective(Sym(e, sc, k), TVar(l, x));
    }
  }

  // ---------- what shows ----------

  /** A statement that binds a box or a named result at i and evaluates something after it. */
  ghost predicate StoreThen(lhs: seq<Name>, rhs: seq<Expr>, sc: RegScopes, i: nat, j: nat) {
    && |lhs| == |rhs| && !NeedsTwoPhase(lhs, rhs) && sc != [] && Distinct(lhs) && i < j < |lhs| && Exposed(lhs[i], sc) && lhs[j] != BLANK
    && (forall m :: 0 <= m < |lhs| && lhs[m] == BLANK ==> Calls(rhs[m]) == 0)
  }

  /** A panic after a named result was bound shows it. */
  lemma ResultShows(rig: Rig, lhs: seq<Name>, rhs: seq<Expr>, sc: RegScopes, i: nat, j: nat)
    requires StoreThen(lhs, rhs, sc, i, j) && Outlives(lhs[i], sc) && !Boxed(lhs[i], sc)
    requires var scopes := FreeScopes(sc, None);
      && Interleaved(Free(rig), lhs[..i + 1], rhs[..i + 1], scopes, FreeMem(0)).Effect?
      && Interleaved(Free(rig), lhs, rhs, scopes, FreeMem(0)).Aborted?
    ensures Differs(rig, lhs, rhs, sc, None)
  {
    hide Legible, Interleaved, Free, FreeMem, CallsOf, Code, Sym, FreeScopes, TopSlot, NeedsTwoPhase, Idents, LeftNames, Results, Boxed, ShortVar;
    var scopes, x := FreeScopes(sc, None), lhs[i];
    OwnSlot(sc, x);
    ResultRemains(rig, lhs, rhs, sc, i, j);
    ResultStays(scopes, x);
    AbortedGo(Free(rig), lhs, rhs, scopes, FreeMem(0));
    OwnNameUnused(lhs, rhs, i);
    NotItself(rhs[i], sc, Start(lhs, rhs, i), |sc| - 1, x);
  }

  lemma OwnNameUnused(lhs: seq<Name>, rhs: seq<Expr>, i: nat)
    requires |lhs| == |rhs| >= 2 && i < |lhs| && lhs[i] != BLANK && !NeedsTwoPhase(lhs, rhs)
    ensures lhs[i] !in Idents(rhs[i])
  {
    hide Idents;
    assert Idents(rhs[i]) * LeftNames(lhs) == {};
    assert lhs[i] !in Idents(rhs[i]) * LeftNames(lhs) && lhs[i] in LeftNames(lhs);
  }

  lemma ResultRemains(rig: Rig, lhs: seq<Name>, rhs: seq<Expr>, sc: RegScopes, i: nat, j: nat)
    requires StoreThen(lhs, rhs, sc, i, j) && Outlives(lhs[i], sc) && !Boxed(lhs[i], sc)
    requires Interleaved(Free(rig), lhs[..i + 1], rhs[..i + 1], FreeScopes(sc, None), FreeMem(0)).Effect?
    ensures TopSlot(Remaining(Interleaved(Free(rig), lhs, rhs, FreeScopes(sc, None), FreeMem(0))), lhs[i])
         == Some(Slot(BoundValue(lhs, rhs, sc, i), None, true))
  {
    hide Legible, Interleaved, Free, FreeMem, CallsOf, Code, Sym, FreeScopes, TopSlot, NeedsTwoPhase;
    var scopes := FreeScopes(sc, None);
    FreeLegible(lhs, rhs, sc);
    LegiblePrefix(lhs, rhs, sc, scopes, i + 1);
    OwnSlot(sc, lhs[i]);
    assert lhs[..i + 1][..i] == lhs[..i] && rhs[..i + 1][..i] == rhs[..i];
    ResultBound(rig, lhs[..i + 1], rhs[..i + 1], sc, scopes);
    ResultKept(Free(rig), lhs, rhs, scopes, FreeMem(0), i);
  }

  lemma AbortedGo(w: World, lhs: seq<Name>, rhs: seq<Expr>, scopes: Scopes, mem: Memory)
    requires |lhs| == |rhs| && scopes != []
    ensures var go := ShortVar(w, lhs, rhs, scopes, mem); go.Aborted? ==> go.results == Results(scopes)
  {
    hide EvalAll, Declare;
    EvalAllLength(w, rhs, All(|rhs|), scopes, mem);
  }

  /** A panic after the store shows it. */
  lemma StoreShows(rig: Rig, lhs: seq<Name>, rhs: seq<Expr>, sc: RegScopes, i: nat, j: nat)
    requires StoreThen(lhs, rhs, sc, i, j) && Boxed(lhs[i], sc)
    requires var scopes := FreeScopes(sc, None);
      && Interleaved(Free(rig), lhs[..i + 1], rhs[..i + 1], scopes, FreeMem(0)).Effect?
      && Tick(Interleaved(Free(rig), lhs, rhs, scopes, FreeMem(0)).mem) == Start(lhs, rhs, i + 1)
      && ShortVar(Free(rig), lhs, rhs, scopes, FreeMem(0)).Aborted?
    ensures Differs(rig, lhs, rhs, sc, None)
  {
    hide Legible, AllVisible, Interleaved, EvalAll, ShortVar, Free, FreeMem, CallsOf, DuesOf, SpellsAll, Code, Calls, Tick, Load, Sym, Tracks, FreeScopes, Boxed, TopBox;
    var scopes := FreeScopes(sc, None);
    FreeLegible(lhs, rhs, sc);
    FreeShaped(sc, None);
    BoxedName(lhs[i], sc);
    BoxedShape(sc, scopes, lhs[i]);
    BoxKept(rig, lhs, rhs, sc, scopes, i);
    FreeEvalAll(rig, rhs, All(|rhs|), sc, scopes);
    GoTick(rig, lhs, rhs, sc, None);
    var go, top := ShortVar(Free(rig), lhs, rhs, scopes, FreeMem(0)), |scopes| - 1;
    var kind := OwnCell(lhs, rhs, sc, scopes, i);
    GoBox(go.mem, Tick(go.mem), top, lhs[i], kind);
    LeftHas(lhs, i);
    assert lhs[i] !in Idents(rhs[i]) * LeftNames(lhs);
    NotItsBox(rhs[i], sc, Start(lhs, rhs, i), Tick(go.mem), top, lhs[i], kind);
  }

  lemma BoxedName(x: Name, sc: RegScopes)
    requires Boxed(x, sc)
    ensures x != BLANK
  {
  }

  lemma LeftHas(lhs: seq<Name>, i: nat)
    requires i < |lhs| && lhs[i] != BLANK
    ensures lhs[i] in LeftNames(lhs)
  {
  }

  lemma DuesHave(lhs: seq<Name>, rhs: seq<Expr>, sc: RegScopes, j: nat)
    requires |lhs| == |rhs| && j < |lhs| && lhs[j] != BLANK
    ensures Checks(rhs[j], sc, Start(lhs, rhs, j)) <= DuesOf(rhs, Wanted(lhs), sc)
  {
    hide Checks, CallsOf;
    DuesGrow(lhs, rhs, sc, j + 1, |lhs|);
    assert rhs[..|lhs|] == rhs && lhs[..|lhs|] == lhs;
    assert rhs[..j + 1][..j] == rhs[..j] && Wanted(lhs[..j + 1])[..j] == Wanted(lhs[..j]);
  }

  /** A call after the store is seen by letting it panic. */
  lemma CallAfterStore(lhs: seq<Name>, rhs: seq<Expr>, sc: RegScopes, i: nat, j: nat)
    requires StoreThen(lhs, rhs, sc, i, j) && Calls(rhs[j]) > 0
    ensures Differs(Rig(None, Some(Start(lhs, rhs, i + 1))), lhs, rhs, sc, None)
  {
    hide Legible, AllVisible, Interleaved, EvalAll, ShortVar, Free, FreeMem, CallsOf, DuesOf, SpellsAll, Calls, Tick, Tracks, FreeScopes, SameOutside, NeedsTwoPhase;
    var k, scopes := Start(lhs, rhs, i + 1), FreeScopes(sc, None);
    var rig := Rig(None, Some(k));
    FreeLegible(lhs, rhs, sc);
    LegiblePrefix(lhs, rhs, sc, scopes, i + 1);
    FreeInterleaved(rig, lhs[..i + 1], rhs[..i + 1], sc, scopes);
    FreeInterleaved(rig, lhs, rhs, sc, scopes);
    FreeEvalAll(rig, rhs, All(|rhs|), sc, scopes);
    GoTick(rig, lhs, rhs, sc, None);
    CallsFewer(lhs, rhs);
    assert Wanted(lhs)[..i + 1] == Wanted(lhs[..i + 1]);
    CallsGrow(rhs, Wanted(lhs), i + 1);
    assert Trips(rig, DuesOf(rhs, Wanted(lhs), sc), CallsOf(rhs, Wanted(lhs)), k);
    assert Trips(rig, DuesOf(rhs, All(|rhs|), sc), CallsOf(rhs, All(|rhs|)), k);
    if Boxed(lhs[i], sc) {
      StoreShows(rig, lhs, rhs, sc, i, j);
    } else {
      ResultShows(rig, lhs, rhs, sc, i, j);
    }
  }

  /** A check after the store that was not made before is seen by letting it fail. */
  lemma CheckAfterStore(lhs: seq<Name>, rhs: seq<Expr>, sc: RegScopes, i: nat, j: nat, d: Due)
    requires StoreThen(lhs, rhs, sc, i, j) && d in Checks(rhs[j], sc, Start(lhs, rhs, j))
    requires forall m :: i < m < |lhs| && lhs[m] != BLANK ==> Calls(rhs[m]) == 0
    requires forall b :: b in DuesOf(rhs[..i + 1], Wanted(lhs[..i + 1]), sc) ==> b.check != d.check
    ensures Differs(Rig(Some(d.check), None), lhs, rhs, sc, None)
  {
    hide Legible, AllVisible, Interleaved, EvalAll, ShortVar, Free, FreeMem, CallsOf, DuesOf, SpellsAll, Calls, Tick, Tracks, FreeScopes, SameOutside, NeedsTwoPhase, Checks;
    var k, scopes := Start(lhs, rhs, i + 1), FreeScopes(sc, None);
    var rig := Rig(Some(d.check), None);
    FreeLegible(lhs, rhs, sc);
    LegiblePrefix(lhs, rhs, sc, scopes, i + 1);
    FreeInterleaved(rig, lhs[..i + 1], rhs[..i + 1], sc, scopes);
    FreeInterleaved(rig, lhs, rhs, sc, scopes);
    FreeEvalAll(rig, rhs, All(|rhs|), sc, scopes);
    GoTick(rig, lhs, rhs, sc, None);
    WantedTrace(lhs, rhs, sc);
    assert Wanted(lhs)[..i + 1] == Wanted(lhs[..i + 1]);
    CallsGrow(rhs, Wanted(lhs), i + 1);
    DuesHave(lhs, rhs, sc, j);
    DuesWithin(rhs, Wanted(lhs), sc);
    assert Trips(rig, DuesOf(rhs, Wanted(lhs), sc), CallsOf(rhs, Wanted(lhs)), d.epoch);
    assert Trips(rig, DuesOf(rhs, All(|rhs|), sc), CallsOf(rhs, All(|rhs|)), d.epoch);
    if Boxed(lhs[i], sc) {
      LateTick(rig, lhs, rhs, sc, i);
      StoreShows(rig, lhs, rhs, sc, i, j);
    } else {
      ResultShows(rig, lhs, rhs, sc, i, j);
    }
  }

  /** The count of calls never falls behind what it was when name i was bound. */
  lemma LateTick(rig: Rig, lhs: seq<Name>, rhs: seq<Expr>, sc: RegScopes, i: nat)
    requires |lhs| == |rhs| && !NeedsTwoPhase(lhs, rhs) && sc != [] && Distinct(lhs) && i < |lhs| && Boxed(lhs[i], sc)
    requires Interleaved(Free(rig), lhs[..i + 1], rhs[..i + 1], FreeScopes(sc, None), FreeMem(0)).Effect?
    ensures Start(lhs, rhs, i + 1) <= Tick(Interleaved(Free(rig), lhs, rhs, FreeScopes(sc, None), FreeMem(0)).mem)
  {
    hide Legible, Interleaved, Free, FreeMem, CallsOf, Tick, FreeScopes, NeedsTwoPhase, Boxed, TopBox, BoundValue;
    FreeLegible(lhs, rhs, sc);
    FreeShaped(sc, None);
    BoxedName(lhs[i], sc);
    BoxedShape(sc, FreeScopes(sc, None), lhs[i]);
    BoxKept(rig, lhs, rhs, sc, FreeScopes(sc, None), i);
  }
}

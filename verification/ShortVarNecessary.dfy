/** Why the condition on the sequential form is needed: a world, for each way to break it, that tells the difference. */
module ShortVarNecessary {
  import opened Wrappers
  import opened GoAssign
  import opened AssignLowering
  import opened ShortVarLowering
  import opened ShortVarSequential
  import opened AssignTrace
  import opened AssignHistory
  import opened ShortVarHarmless
  import opened ShortVarLate
  import opened FreeWorld

  // ---------- scopes whose variables spell out their names ----------

  /** The box of one innermost variable is where a pointer points that spells out `base`. */
  datatype Alias = Alias(name: Name, base: Term)

  function Raw(sc: RegScopes, alias: Option<Alias>, k: nat, x: Name): Value {
    if alias.Some? && k + 1 == |sc| && x == alias.value.name then Code(alias.value.base) else Code(TVar(k, x))
  }

  function FreeScopes(sc: RegScopes, alias: Option<Alias>): (scopes: Scopes)
    ensures |scopes| == |sc|
    ensures forall k :: 0 <= k < |sc| ==> scopes[k].Keys == sc[k].Keys
    ensures forall k, x :: Has(sc, k, x) ==> scopes[k][x] == Slot(Raw(sc, alias, k, x), sc[k][x].box, sc[k][x].result)
  {
    seq(|sc|, k requires 0 <= k < |sc| => map x | x in sc[k] :: Slot(Raw(sc, alias, k, x), sc[k][x].box, sc[k][x].result))
  }

  lemma FreeShaped(sc: RegScopes, alias: Option<Alias>)
    ensures Shaped(sc, FreeScopes(sc, alias))
  {
  }

  lemma FreeSpelled(sc: RegScopes, alias: Option<Alias>, x: Name)
    requires alias.None? || x != alias.value.name
    ensures Spelled(x, sc, FreeScopes(sc, alias))
  {
    FreeShaped(sc, alias);
    LevelFound(sc, FreeScopes(sc, alias), x);
    hide Shaped, Lookup, LookupReg, LevelOf;
    var l := LevelOf(sc, x);
    if LookupReg(sc, x).Some? {
      assert Has(sc, l, x);
    }
  }

  /** The pointer is not the box of a variable already. */
  ghost predicate Outside(sc: RegScopes, base: Term) {
    forall k: nat, x :: Has(sc, k, x) && sc[k][x].box.Some? ==> base != TVar(k, x)
  }

  lemma FreeApart(sc: RegScopes, alias: Option<Alias>)
    requires alias.Some? ==> Outside(sc, alias.value.base)
    ensures Apart(FreeScopes(sc, alias))
  {
    var scopes := FreeScopes(sc, alias);
    forall k, x, l, y | HasBox(scopes, k, x) && HasBox(scopes, l, y) && BoxOf(scopes[k][x]) == BoxOf(scopes[l][y]) ensures k == l && x == y {
      assert Has(sc, k, x) && Has(sc, l, y);
      RawApart(sc, alias, k, x, l, y);
    }
  }

  lemma RawApart(sc: RegScopes, alias: Option<Alias>, k: nat, x: Name, l: nat, y: Name)
    requires Has(sc, k, x) && Has(sc, l, y) && sc[k][x].box.Some? && sc[l][y].box.Some? && Raw(sc, alias, k, x) == Raw(sc, alias, l, y)
    requires alias.Some? ==> Outside(sc, alias.value.base)
    ensures k == l && x == y
  {
    hide Code;
    var a := if alias.Some? && k + 1 == |sc| && x == alias.value.name then alias.value.base else TVar(k, x);
    var b := if alias.Some? && l + 1 == |sc| && y == alias.value.name then alias.value.base else TVar(l, y);
    CodeInjective(a, b);
  }

  // ---------- Go's evaluation ----------

  ghost predicate AllVisible(es: seq<Expr>, sc: RegScopes, scopes: Scopes) {
    forall i :: 0 <= i < |es| ==> Visible(es[i], sc, scopes, {})
  }

  /** The values spell out the terms of the wanted expressions. */
  ghost predicate SpellsAll(es: seq<Expr>, wanted: seq<bool>, sc: RegScopes, values: seq<Value>)
    requires |wanted| == |es|
  {
    |values| == |es| && forall i :: 0 <= i < |es| && wanted[i] ==> values[i] == Code(Sym(es[i], sc, CallsOf(es[..i], wanted[..i])))
  }

  ghost predicate FreeAll(rig: Rig, es: seq<Expr>, wanted: seq<bool>, sc: RegScopes, r: AllReturned)
    requires |wanted| == |es|
  {
    && RunsTo(rig, DuesOf(es, wanted, sc), 0, CallsOf(es, wanted), r.AnyPanicked?, r.mem, 0, {})
    && (r.AllReturned? ==> SpellsAll(es, wanted, sc, r.values))
  }

  /** The values so far, and one more. */
  lemma SpellsMore(es: seq<Expr>, wanted: seq<bool>, sc: RegScopes, values: seq<Value>, v: Value)
    requires |wanted| == |es| && es != [] && SpellsAll(es[..|es| - 1], wanted[..|es| - 1], sc, values)
    requires var n := |es| - 1; wanted[n] ==> v == Code(Sym(es[n], sc, CallsOf(es[..n], wanted[..n])))
    ensures SpellsAll(es, wanted, sc, values + [v])
  {
    hide Code, Sym, CallsOf;
    var n := |es| - 1;
    forall i | 0 <= i < |es| && wanted[i] ensures (values + [v])[i] == Code(Sym(es[i], sc, CallsOf(es[..i], wanted[..i]))) {
      if i < n {
        assert es[..n][..i] == es[..i] && wanted[..n][..i] == wanted[..i] && es[..n][i] == es[i];
      }
    }
  }

  lemma {:induction false} FreeEvalAll(rig: Rig, es: seq<Expr>, wanted: seq<bool>, sc: RegScopes, scopes: Scopes)
    requires |wanted| == |es| && AllVisible(es, sc, scopes)
    ensures FreeAll(rig, es, wanted, sc, EvalAll(Free(rig), es, wanted, scopes, FreeMem(0)))
    decreases |es|
  {
    hide Visible, Eval, Code, Sym, Checks, Calls, Trips, Tracks, Free, Within, RunsTo, SpellsAll;
    if es == [] {
      FreshTracks(0, 0, {});
      NoMore(rig, 0, FreeMem(0), 0, {});
      SpellsNone(sc);
    } else {
      var n := |es| - 1;
      FreeEvalAll(rig, es[..n], wanted[..n], sc, scopes);
      var front, k := EvalAll(Free(rig), es[..n], wanted[..n], scopes, FreeMem(0)), CallsOf(es[..n], wanted[..n]);
      DuesWithin(es[..n], wanted[..n], sc);
      var dues := DuesOf(es[..n], wanted[..n], sc);
      assert dues + {} == dues;
      if !wanted[n] {
        if front.AllReturned? {
          SpellsMore(es, wanted, sc, front.values, ZERO);
        }
      } else {
        ChecksWithin(es[n], sc, k);
        if front.AnyPanicked? {
          RunsStopped(rig, dues, Checks(es[n], sc, k), 0, k, k + Calls(es[n]), front.mem, 0, {});
        } else {
          RunsTracks(rig, dues, 0, k, front.mem, 0, {});
          FreeEval(rig, es[n], sc, scopes, k, front.mem, 0, {});
          var last := Eval(Free(rig), es[n], scopes, front.mem);
          RunsOn(rig, dues, Checks(es[n], sc, k), 0, k, k + Calls(es[n]), front.mem, last.Panicked?, last.mem, 0, {});
          if last.Returned? {
            SpellsMore(es, wanted, sc, front.values, last.value);
          }
        }
      }
    }
  }

  lemma SpellsNone(sc: RegScopes)
    ensures SpellsAll([], [], sc, [])
  {
  }

  lemma RunsTracks(rig: Rig, dues: set<Due>, k: nat, end: nat, mem: Memory, top: nat, names: set<Name>)
    requires RunsTo(rig, dues, k, end, false, mem, top, names)
    ensures Tracks(mem, end, top, names) && Tick(mem) == end
  {
  }

  // ---------- the sequential form ----------

  /** Every right side reads variables not bound before it, and every box bound is its own variable's. */
  ghost predicate Legible(lhs: seq<Name>, rhs: seq<Expr>, sc: RegScopes, scopes: Scopes) {
    && |lhs| == |rhs| && scopes != []
    && (forall i :: 0 <= i < |lhs| ==> Visible(rhs[i], sc, scopes, LeftNames(lhs[..i])))
    && (forall i :: 0 <= i < |lhs| && lhs[i] != BLANK ==> OwnBox(scopes, lhs[i]))
  }

  ghost predicate OwnBox(scopes: Scopes, x: Name)
    requires scopes != []
  {
    TopBox(scopes, x).Some? ==> TopBox(scopes, x).value.raw == Code(TVar(|scopes| - 1, x))
  }

  lemma LegiblePrefix(lhs: seq<Name>, rhs: seq<Expr>, sc: RegScopes, scopes: Scopes, n: nat)
    requires Legible(lhs, rhs, sc, scopes) && n <= |lhs|
    ensures Legible(lhs[..n], rhs[..n], sc, scopes)
  {
    hide Visible, OwnBox;
    forall i | 0 <= i < n ensures Visible(rhs[..n][i], sc, scopes, LeftNames(lhs[..n][..i])) {
      assert lhs[..n][..i] == lhs[..i];
    }
  }

  /** Variables that were not bound are as before, boxes are where they were. */
  ghost predicate SameOutside(scopes: Scopes, now: Scopes, names: set<Name>) {
    && |now| == |scopes| && now != []
    && (forall y :: y !in names ==> Lookup(now, y) == Lookup(scopes, y))
    && (forall x :: TopBox(now, x) == TopBox(scopes, x))
  }

  ghost predicate FreeTurns(rig: Rig, lhs: seq<Name>, rhs: seq<Expr>, sc: RegScopes, scopes: Scopes, r: Effect)
    requires |lhs| == |rhs| && scopes != []
  {
    && RunsTo(rig, DuesOf(rhs, Wanted(lhs), sc), 0, CallsOf(rhs, Wanted(lhs)), r.Aborted?, r.mem, |scopes| - 1, LeftNames(lhs))
    && (r.Effect? ==> SameOutside(scopes, r.scopes, LeftNames(lhs)))
  }

  lemma BindOutside(scopes: Scopes, env: Env, names: set<Name>, x: Name, v: Value)
    requires scopes != [] && SameOutside(scopes, env.scopes, names)
    ensures SameOutside(scopes, Bind(env, x, v).scopes, names + {x})
  {
    hide Lookup;
    forall y | y !in names + {x} ensures Lookup(Bind(env, x, v).scopes, y) == Lookup(scopes, y) {
      BindLookup(env, x, v, y);
    }
    forall y ensures TopBox(Bind(env, x, v).scopes, y) == TopBox(scopes, y) {
      assert TopBox(env.scopes, y) == TopBox(scopes, y);
    }
  }

  lemma BindTracks(scopes: Scopes, env: Env, names: set<Name>, x: Name, v: Value, k: nat)
    requires scopes != [] && SameOutside(scopes, env.scopes, names) && OwnBox(scopes, x) && Tracks(env.mem, k, |scopes| - 1, names)
    ensures Tracks(Bind(env, x, v).mem, k, |scopes| - 1, names + {x})
  {
    hide Content, Code, Lookup, Load, Bind;
    var top := |scopes| - 1;
    assert TopBox(env.scopes, x) == TopBox(scopes, x);
    forall c: Cell | !Written(c, top, names + {x}) ensures Load(Bind(env, x, v).mem, c) == Content(k, c) {
      BindCell(env, x, v, c);
      assert x in names + {x};
      assert !Written(c, top, names);
    }
  }

  lemma TracksMore(mem: Memory, k: nat, top: nat, names: set<Name>, more: set<Name>)
    requires Tracks(mem, k, top, names) && names <= more
    ensures Tracks(mem, k, top, more)
  {
    hide Content, Load, Code;
    forall c: Cell | !Written(c, top, more) ensures Load(mem, c) == Content(k, c) {
      assert !Written(c, top, names);
    }
  }

  lemma RunsMore(rig: Rig, dues: set<Due>, k: nat, end: nat, panicked: bool, mem: Memory, top: nat, names: set<Name>, more: set<Name>)
    requires RunsTo(rig, dues, k, end, panicked, mem, top, names) && names <= more
    ensures RunsTo(rig, dues, k, end, panicked, mem, top, more)
  {
    TracksMore(mem, Tick(mem), top, names, more);
    hide Tracks, Tick, Trips;
  }

  lemma VisibleStill(e: Expr, sc: RegScopes, scopes: Scopes, now: Scopes, names: set<Name>)
    requires Visible(e, sc, scopes, names) && SameOutside(scopes, now, names)
    ensures Visible(e, sc, now, names)
  {
    hide Lookup, LookupReg, Code, LevelOf;
    forall x | x in Idents(e) ensures x !in names && Spelled(x, sc, now) {
      assert Spelled(x, sc, scopes);
    }
  }

  /** What is written at the end of a run does not count. */
  lemma RunsRewritten(rig: Rig, dues: set<Due>, k: nat, end: nat, mem: Memory, now: Memory, top: nat, names: set<Name>, more: set<Name>)
    requires RunsTo(rig, dues, k, end, false, mem, top, names) && Tracks(now, end, top, more)
    ensures RunsTo(rig, dues, k, end, false, now, top, more)
  {
    TracksTick(now, end, top, more);
    hide Tracks, Tick, Trips;
  }

  /** One evaluation and one binding in the free world. */
  lemma FreeEvalBind(rig: Rig, e: Expr, x: Name, sc: RegScopes, scopes: Scopes, env: Env, k: nat, names: set<Name>)
    requires scopes != [] && env.scopes != [] && SameOutside(scopes, env.scopes, names) && OwnBox(scopes, x)
    requires Visible(e, sc, scopes, names) && Tracks(env.mem, k, |scopes| - 1, names)
    ensures var r := EvalBind(Free(rig), e, x, env);
      && RunsTo(rig, Checks(e, sc, k), k, k + Calls(e), r.Aborted?, r.mem, |scopes| - 1, names + {x})
      && (r.Effect? ==> SameOutside(scopes, r.scopes, names + {x}))
  {
    hide Visible, Eval, Code, Sym, Checks, Calls, Trips, Free, OwnBox, SameOutside, Tracks, Bind, RunsTo, Tick;
    var top, end := |scopes| - 1, k + Calls(e);
    VisibleStill(e, sc, scopes, env.scopes, names);
    FreeEval(rig, e, sc, env.scopes, k, env.mem, top, names);
    var last := Eval(Free(rig), e, env.scopes, env.mem);
    if last.Panicked? {
      RunsMore(rig, Checks(e, sc, k), k, end, true, last.mem, top, names, names + {x});
    } else {
      SpellsTracks(rig, e, sc, k, env.mem, last, top, names);
      var mid := Env(env.scopes, last.mem);
      BindTracks(scopes, mid, names, x, last.value, end);
      BindOutside(scopes, mid, names, x, last.value);
      RunsRewritten(rig, Checks(e, sc, k), k, end, last.mem, Bind(mid, x, last.value).mem, top, names, names + {x});
    }
  }

  lemma LeftMore(lhs: seq<Name>)
    requires lhs != []
    ensures var n := |lhs| - 1; LeftNames(lhs) == if lhs[n] == BLANK then LeftNames(lhs[..n]) else LeftNames(lhs[..n]) + {lhs[n]}
  {
    var n := |lhs| - 1;
    forall x | x in LeftNames(lhs) ensures x == lhs[n] || x in LeftNames(lhs[..n]) {
      var i :| 0 <= i < |lhs| && lhs[i] != BLANK && lhs[i] == x;
      assert i < n ==> lhs[..n][i] == x;
    }
    forall x | x in LeftNames(lhs[..n]) ensures x in LeftNames(lhs) {
      var i :| 0 <= i < n && lhs[..n][i] != BLANK && lhs[..n][i] == x;
      assert lhs[i] == x;
    }
  }

  lemma {:induction false} FreeInterleaved(rig: Rig, lhs: seq<Name>, rhs: seq<Expr>, sc: RegScopes, scopes: Scopes)
    requires |lhs| == |rhs| && scopes != [] && Legible(lhs, rhs, sc, scopes)
    ensures FreeTurns(rig, lhs, rhs, sc, scopes, Interleaved(Free(rig), lhs, rhs, scopes, FreeMem(0)))
    decreases |lhs|
  {
    hide Visible, Eval, EvalBind, Code, Sym, Checks, Calls, Trips, Free, OwnBox, SameOutside, Tracks, RunsTo, Tick, Within, LeftNames;
    if lhs == [] {
      NoTurns(rig, scopes);
    } else {
      var n := |lhs| - 1;
      LegiblePrefix(lhs, rhs, sc, scopes, n);
      FreeInterleaved(rig, lhs[..n], rhs[..n], sc, scopes);
      var front := Interleaved(Free(rig), lhs[..n], rhs[..n], scopes, FreeMem(0));
      assert Wanted(lhs)[..n] == Wanted(lhs[..n]);
      LeftMore(lhs);
      var k, dues, top := CallsOf(rhs[..n], Wanted(lhs[..n])), DuesOf(rhs[..n], Wanted(lhs[..n]), sc), |scopes| - 1;
      assert dues + {} == dues;
      if lhs[n] != BLANK {
        var more := LeftNames(lhs[..n]) + {lhs[n]};
        DuesWithin(rhs[..n], Wanted(lhs[..n]), sc);
        ChecksWithin(rhs[n], sc, k);
        RunsMore(rig, dues, 0, k, front.Aborted?, front.mem, top, LeftNames(lhs[..n]), more);
        if front.Aborted? {
          RunsStopped(rig, dues, Checks(rhs[n], sc, k), 0, k, k + Calls(rhs[n]), front.mem, top, more);
        } else {
          RunsTracks(rig, dues, 0, k, front.mem, top, LeftNames(lhs[..n]));
          FreeEvalBind(rig, rhs[n], lhs[n], sc, scopes, Env(front.scopes, front.mem), k, LeftNames(lhs[..n]));
          var r := EvalBind(Free(rig), rhs[n], lhs[n], Env(front.scopes, front.mem));
          RunsOn(rig, dues, Checks(rhs[n], sc, k), 0, k, k + Calls(rhs[n]), front.mem, r.Aborted?, r.mem, top, more);
        }
      }
    }
  }

  lemma NoTurns(rig: Rig, scopes: Scopes)
    requires scopes != []
    ensures FreeTurns(rig, [], [], [], scopes, Effect(scopes, FreeMem(0)))
  {
    FreshTracks(0, |scopes| - 1, {});
    NoMore(rig, 0, FreeMem(0), |scopes| - 1, {});
    assert LeftNames([]) == {};
  }

  // ---------- a statement in the free world ----------

  lemma SideVisible(lhs: seq<Name>, rhs: seq<Expr>, sc: RegScopes, alias: Option<Alias>, i: nat)
    requires |lhs| == |rhs| && !NeedsTwoPhase(lhs, rhs) && i < |lhs| && (alias.Some? ==> alias.value.name !in Idents(rhs[i]))
    ensures Visible(rhs[i], sc, FreeScopes(sc, alias), LeftNames(lhs[..i])) && Visible(rhs[i], sc, FreeScopes(sc, alias), {})
  {
    hide NeedsTwoPhase, Idents, LeftNames, Spelled, Code;
    NotMentioned(lhs, rhs, i);
    forall x | x in Idents(rhs[i]) ensures x !in LeftNames(lhs[..i]) && Spelled(x, sc, FreeScopes(sc, alias)) {
      assert x !in Idents(rhs[i]) * LeftNames(lhs[..i]);
      FreeSpelled(sc, alias, x);
    }
  }

  lemma FreeOwnBox(sc: RegScopes, alias: Option<Alias>, x: Name)
    requires sc != [] && (alias.Some? ==> alias.value.name != x)
    ensures OwnBox(FreeScopes(sc, alias), x)
  {
    if TopBox(FreeScopes(sc, alias), x).Some? {
      assert Has(sc, |sc| - 1, x);
    }
  }

  lemma FreeLegible(lhs: seq<Name>, rhs: seq<Expr>, sc: RegScopes)
    requires |lhs| == |rhs| && !NeedsTwoPhase(lhs, rhs) && sc != []
    ensures Legible(lhs, rhs, sc, FreeScopes(sc, None)) && AllVisible(rhs, sc, FreeScopes(sc, None))
  {
    hide NeedsTwoPhase, Visible, OwnBox;
    var scopes := FreeScopes(sc, None);
    forall i | 0 <= i < |rhs| ensures Visible(rhs[i], sc, scopes, LeftNames(lhs[..i])) {
      SideVisible(lhs, rhs, sc, None, i);
    }
    forall i | 0 <= i < |rhs| ensures Visible(rhs[i], sc, scopes, {}) {
      SideVisible(lhs, rhs, sc, None, i);
    }
    forall i | 0 <= i < |lhs| ensures OwnBox(scopes, lhs[i]) {
      FreeOwnBox(sc, None, lhs[i]);
    }
  }

  /** What Go's meaning does, as far as the count of calls tells. */
  lemma GoTick(rig: Rig, lhs: seq<Name>, rhs: seq<Expr>, sc: RegScopes, alias: Option<Alias>)
    requires |lhs| == |rhs| && sc != []
    ensures var scopes := FreeScopes(sc, alias); var r := EvalAll(Free(rig), rhs, All(|rhs|), scopes, FreeMem(0));
      var go := ShortVar(Free(rig), lhs, rhs, scopes, FreeMem(0));
      go.Aborted? == r.AnyPanicked? && Tick(go.mem) == Tick(r.mem) && (go.Aborted? ==> go.mem == r.mem)
  {
    hide EvalAll, Free, FreeMem, Load, Declare, Code;
    var scopes := FreeScopes(sc, alias);
    var r := EvalAll(Free(rig), rhs, All(|rhs|), scopes, FreeMem(0));
    EvalAllLength(Free(rig), rhs, All(|rhs|), scopes, FreeMem(0));
    if r.AllReturned? {
      DeclareCell(Env(scopes, r.mem), lhs, r.values, TICK);
      if i :| IsBoxOf(scopes, lhs, i, TICK) {
        assert Has(sc, |sc| - 1, lhs[i]);
        NotTick(sc, alias, |sc| - 1, lhs[i]);
        assert false;
      }
    }
  }

  lemma NotTick(sc: RegScopes, alias: Option<Alias>, k: nat, x: Name)
    ensures Raw(sc, alias, k, x) != TICK.base
  {
    if alias.Some? {
      var t := alias.value.base;
      assert Code(t) != TICK.base by { assert Code(t).Pair? ==> Code(t).first != TICK.base.first; }
    }
  }

  /** The right sides as the free world evaluates them, in turns and all first. */
  ghost predicate Differs(rig: Rig, lhs: seq<Name>, rhs: seq<Expr>, sc: RegScopes, alias: Option<Alias>)
    requires |lhs| == |rhs| && sc != []
  {
    var scopes := FreeScopes(sc, alias);
    Interleaved(Free(rig), lhs, rhs, scopes, FreeMem(0)) != ShortVar(Free(rig), lhs, rhs, scopes, FreeMem(0))
  }

  lemma {:induction false} CallsFewer(lhs: seq<Name>, rhs: seq<Expr>)
    requires |lhs| == |rhs|
    ensures CallsOf(rhs, Wanted(lhs)) <= CallsOf(rhs, All(|rhs|))
    ensures forall i :: 0 <= i < |lhs| && lhs[i] == BLANK && Calls(rhs[i]) > 0 ==> CallsOf(rhs, Wanted(lhs)) < CallsOf(rhs, All(|rhs|))
    decreases |lhs|
  {
    hide Calls;
    if lhs != [] {
      var n := |lhs| - 1;
      AllPrefix(|rhs|);
      assert Wanted(lhs)[..n] == Wanted(lhs[..n]);
      CallsFewer(lhs[..n], rhs[..n]);
    }
  }

  /** A call left out is seen by counting calls. */
  lemma BlankCall(lhs: seq<Name>, rhs: seq<Expr>, sc: RegScopes, i: nat)
    requires |lhs| == |rhs| && !NeedsTwoPhase(lhs, rhs) && sc != [] && i < |lhs| && lhs[i] == BLANK && Calls(rhs[i]) > 0
    ensures Differs(Rig(None, None), lhs, rhs, sc, None)
  {
    hide NeedsTwoPhase, Legible, AllVisible, Interleaved, EvalAll, ShortVar, Free, FreeMem, CallsOf, DuesOf, Tracks, SpellsAll, SameOutside, Calls, Tick;
    var rig, scopes := Rig(None, None), FreeScopes(sc, None);
    FreeLegible(lhs, rhs, sc);
    FreeInterleaved(rig, lhs, rhs, sc, scopes);
    FreeEvalAll(rig, rhs, All(|rhs|), sc, scopes);
    GoTick(rig, lhs, rhs, sc, None);
    CallsFewer(lhs, rhs);
  }

  /** A check left out, and made by no other right side in time, is seen by letting it fail. */
  lemma BlankCheck(lhs: seq<Name>, rhs: seq<Expr>, sc: RegScopes, d: Due)
    requires |lhs| == |rhs| && !NeedsTwoPhase(lhs, rhs) && sc != []
    requires d in DuesOf(rhs, All(|rhs|), sc) && !Covered(d, DuesOf(rhs, Wanted(lhs), sc))
    ensures Differs(Rig(Some(d.check), None), lhs, rhs, sc, None)
  {
    hide NeedsTwoPhase, Legible, AllVisible, Interleaved, EvalAll, ShortVar, Free, FreeMem, CallsOf, DuesOf, Tracks, SpellsAll, SameOutside, Tick;
    var rig, scopes := Rig(Some(d.check), None), FreeScopes(sc, None);
    FreeLegible(lhs, rhs, sc);
    FreeInterleaved(rig, lhs, rhs, sc, scopes);
    FreeEvalAll(rig, rhs, All(|rhs|), sc, scopes);
    GoTick(rig, lhs, rhs, sc, None);
    DuesWithin(rhs, All(|rhs|), sc);
    var all, kept := DuesOf(rhs, All(|rhs|), sc), DuesOf(rhs, Wanted(lhs), sc);
    assert Trips(rig, all, CallsOf(rhs, All(|rhs|)), d.epoch);
    var turns := Interleaved(Free(rig), lhs, rhs, scopes, FreeMem(0));
    if turns.Aborted? {
      assert Due(Tick(turns.mem), d.check) in kept;
    }
  }
}

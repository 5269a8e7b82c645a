/** The lowering of `a, b := x, y` has Go's meaning exactly when two phases are chosen or the statement is harmless. */
module ShortVarExact {
  import opened Wrappers
  import opened GoAssign
  import opened AssignLowering
  import opened ShortVarLowering
  import opened ShortVarSequential
  import opened AssignTrace
  import opened AssignHistory
  import opened ShortVarHarmless
  import opened ShortVarLate
  import opened FreeWorld
  import opened ShortVarNecessary
  import opened ShortVarStores
  import opened ShortVarAliased

  // ---------- the meaning ----------

  /** A free world and scopes for it that tell the sequential form from Go's meaning. */
  ghost predicate TellsApart(rig: Rig, alias: Option<Alias>, lhs: seq<Name>, rhs: seq<Expr>, sc: RegScopes)
    requires |lhs| == |rhs| && sc != []
  {
    (alias.Some? ==> Outside(sc, alias.value.base)) && Differs(rig, lhs, rhs, sc, alias)
  }

  /** What is not harmless is told apart somewhere. */
  lemma HarmfulTold(lhs: seq<Name>, rhs: seq<Expr>, sc: RegScopes) returns (rig: Rig, alias: Option<Alias>)
    requires |lhs| == |rhs| && sc != [] && Distinct(lhs) && !NeedsTwoPhase(lhs, rhs) && !Harmless(lhs, rhs, sc)
    ensures TellsApart(rig, alias, lhs, rhs, sc)
  {
    hide NeedsTwoPhase, Distinct, Calls, DuesOf, Covered, Differs, Unaware, Exposed;
    alias := None;
    if i :| 0 <= i < |lhs| && lhs[i] == BLANK && Calls(rhs[i]) != 0 {
      BlankCall(lhs, rhs, sc, i);
      rig := Rig(None, None);
    } else if d :| d in DuesOf(rhs, All(|rhs|), sc) && !Covered(d, DuesOf(rhs, Wanted(lhs), sc)) {
      BlankCheck(lhs, rhs, sc, d);
      rig := Rig(Some(d.check), None);
    } else {
      assert !StoresUnseen(lhs, rhs, sc);
      rig, alias := AwareTold(lhs, rhs, sc);
    }
  }

  /** Right side j follows a pointer that may point to the box of name i, and right side i does not read through it. */
  predicate Reaches(lhs: seq<Name>, rhs: seq<Expr>, sc: RegScopes, i: nat, j: nat, b: Deref)
    requires |lhs| == |rhs| && i < |lhs| && j < |lhs|
  {
    && b in Pointers(rhs[j], sc, Start(lhs, rhs, j)) && BoxKind(lhs[i], sc) == Some(b.kind)
    && Sym(rhs[i], sc, Start(lhs, rhs, i)) != TStar(Start(lhs, rhs, j), b.base, b.kind)
  }

  lemma AwareTold(lhs: seq<Name>, rhs: seq<Expr>, sc: RegScopes) returns (rig: Rig, alias: Option<Alias>)
    requires |lhs| == |rhs| && sc != [] && Distinct(lhs) && !NeedsTwoPhase(lhs, rhs) && !StoresUnseen(lhs, rhs, sc)
    requires forall m :: 0 <= m < |lhs| && lhs[m] == BLANK ==> Calls(rhs[m]) == 0
    ensures TellsApart(rig, alias, lhs, rhs, sc)
  {
    hide NeedsTwoPhase, Distinct, Calls, DuesOf, CallsOf, Differs, Exposed, BoxKind, Sym, Checks, Pointers, Outside;
    var i: nat, j: nat :| i < j < |lhs| && Exposed(lhs[i], sc) && lhs[j] != BLANK && !Unaware(lhs, rhs, sc, i, j);
    alias := None;
    if m: nat :| i < m < |lhs| && lhs[m] != BLANK && Calls(rhs[m]) != 0 {
      CallAfterStore(lhs, rhs, sc, i, m);
      rig := Rig(None, Some(Start(lhs, rhs, i + 1)));
    } else if b :| Reaches(lhs, rhs, sc, i, j, b) {
      PointerAfterStore(lhs, rhs, sc, i, j, b);
      rig, alias := Rig(None, None), Some(Alias(lhs[i], b.base));
    } else {
      forall b | b in Pointers(rhs[j], sc, Start(lhs, rhs, j)) && BoxKind(lhs[i], sc) == Some(b.kind)
        ensures Sym(rhs[i], sc, Start(lhs, rhs, i)) == TStar(Start(lhs, rhs, j), b.base, b.kind)
      {
        assert !Reaches(lhs, rhs, sc, i, j, b);
      }
      var d :| d in Checks(rhs[j], sc, Start(lhs, rhs, j))
        && !exists b :: b in DuesOf(rhs[..i + 1], Wanted(lhs[..i + 1]), sc) && b.check == d.check;
      CheckAfterStore(lhs, rhs, sc, i, j, d);
      rig := Rig(Some(d.check), None);
    }
  }

  // ---------- the code ----------

  /** Registers that hold these variables, each variable in a box of its own. */
  ghost predicate Stands(sc: RegScopes, scopes: Scopes, next: Reg, m: Machine) {
    Holds(Bound([], sc, next), Env(scopes, m.mem), m) && Apart(scopes)
  }

  /** Running the chosen form has the effect Go gives the statement. */
  ghost predicate MeansGo(w: World, lhs: seq<Name>, rhs: seq<Expr>, defs: set<Name>, sc: RegScopes, scopes: Scopes, next: Reg, m: Machine)
    requires |lhs| == |rhs| && sc != [] && scopes != []
  {
    var b := Lower(lhs, rhs, defs, sc, next);
    Realises(ShortVar(w, lhs, rhs, scopes, m.mem), Run(w, b.code, m), b)
  }

  lemma AgreeShaped(sc: RegScopes, scopes: Scopes, regs: map<Reg, Value>)
    requires Agree(sc, scopes, regs)
    ensures Shaped(sc, scopes)
  {
    forall k, x | Has(sc, k, x) ensures scopes[k][x].box == sc[k][x].box && scopes[k][x].result == sc[k][x].result {
      assert Fits(sc[k][x], scopes[k][x], regs);
    }
  }

  lemma ResolvedBinds(lhs: seq<Name>, defs: set<Name>, sc: RegScopes)
    requires Resolved(lhs, defs, sc)
    ensures CanBindAll(lhs, defs, sc)
  {
  }

  /** Two phases, or a harmless statement: the code has Go's meaning in every world and state. */
  lemma LowerCorrect(w: World, lhs: seq<Name>, rhs: seq<Expr>, defs: set<Name>, sc: RegScopes, scopes: Scopes, next: Reg, m: Machine)
    requires |lhs| == |rhs| && Resolved(lhs, defs, sc) && scopes != [] && Stands(sc, scopes, next, m)
    requires NeedsTwoPhase(lhs, rhs) || Harmless(lhs, rhs, sc)
    ensures MeansGo(w, lhs, rhs, defs, sc, scopes, next, m)
  {
    hide Run, NeedsTwoPhase, Harmless, Apart, ShortVar, Interleaved, TwoPhase, Sequential, Live, CanBindAll, Agree, Shaped;
    ResolvedBinds(lhs, defs, sc);
    if NeedsTwoPhase(lhs, rhs) {
      TwoPhaseCorrect(w, lhs, rhs, defs, sc, scopes, next, m);
    } else {
      AgreeShaped(sc, scopes, m.regs);
      SequentialCorrect(w, lhs, rhs, defs, sc, scopes, next, m);
      HarmlessSuffices(w, lhs, rhs, sc, scopes, m.mem);
    }
  }

  /** Where the two meanings differ, the sequential code does not have Go's. */
  lemma SequentialDiffers(w: World, lhs: seq<Name>, rhs: seq<Expr>, defs: set<Name>, sc: RegScopes, scopes: Scopes, next: Reg, m: Machine)
    requires |lhs| == |rhs| && Resolved(lhs, defs, sc) && scopes != [] && Stands(sc, scopes, next, m) && !NeedsTwoPhase(lhs, rhs)
    requires Interleaved(w, lhs, rhs, scopes, m.mem) != ShortVar(w, lhs, rhs, scopes, m.mem)
    ensures !MeansGo(w, lhs, rhs, defs, sc, scopes, next, m)
  {
    hide Run, NeedsTwoPhase, Apart, ShortVar, Interleaved, Sequential, Live, CanBindAll, Agree, Realises;
    ResolvedBinds(lhs, defs, sc);
    SequentialCorrect(w, lhs, rhs, defs, sc, scopes, next, m);
    if MeansGo(w, lhs, rhs, defs, sc, scopes, next, m) {
      var b := Sequential(lhs, rhs, defs, sc, next);
      RealisesOne(Interleaved(w, lhs, rhs, scopes, m.mem), ShortVar(w, lhs, rhs, scopes, m.mem), Run(w, b.code, m), b);
    }
  }

  // ---------- a machine for given scopes ----------

  ghost predicate Holder(sc: RegScopes, r: Reg, k: int, x: Name) {
    Has(sc, k, x) && sc[k][x].reg == r
  }

  ghost function RegValue(sc: RegScopes, scopes: Scopes, r: Reg): Value
    requires Shaped(sc, scopes)
  {
    if exists k, x :: Holder(sc, r, k, x) then
      var k, x :| Holder(sc, r, k, x);
      scopes[k][x].raw
    else ZERO
  }

  ghost function MachineFor(sc: RegScopes, scopes: Scopes, next: Reg, mem: Memory): Machine
    requires Shaped(sc, scopes)
  {
    Machine(map r: Reg | 0 <= r < next :: RegValue(sc, scopes, r), mem, false)
  }

  lemma MachineHolds(sc: RegScopes, scopes: Scopes, next: Reg, mem: Memory)
    requires Shaped(sc, scopes) && Live(sc, next) && sc != []
    ensures Holds(Bound([], sc, next), Env(scopes, mem), MachineFor(sc, scopes, next, mem))
  {
    var m := MachineFor(sc, scopes, next, mem);
    forall k, x | Has(sc, k, x) ensures Fits(sc[k][x], scopes[k][x], m.regs) {
      assert Holder(sc, sc[k][x].reg, k, x);
    }
  }

  /** The code has Go's meaning, in every world and state, if and only if two phases are chosen or the statement is harmless. */
  lemma LowerExact(lhs: seq<Name>, rhs: seq<Expr>, defs: set<Name>, sc: RegScopes, next: Reg)
    requires |lhs| == |rhs| && Resolved(lhs, defs, sc) && Distinct(lhs) && Live(sc, next)
    ensures (forall w, scopes, m :: scopes != [] && Stands(sc, scopes, next, m) ==> MeansGo(w, lhs, rhs, defs, sc, scopes, next, m))
        <==> NeedsTwoPhase(lhs, rhs) || Harmless(lhs, rhs, sc)
  {
    hide NeedsTwoPhase, Harmless, MeansGo, Distinct, Live, Stands, Shaped;
    if NeedsTwoPhase(lhs, rhs) || Harmless(lhs, rhs, sc) {
      forall w, scopes, m | scopes != [] && Stands(sc, scopes, next, m) ensures MeansGo(w, lhs, rhs, defs, sc, scopes, next, m) {
        LowerCorrect(w, lhs, rhs, defs, sc, scopes, next, m);
      }
    } else {
      var rig, alias := HarmfulTold(lhs, rhs, sc);
      LowerWrong(rig, alias, lhs, rhs, defs, sc, next);
    }
  }

  lemma LowerWrong(rig: Rig, alias: Option<Alias>, lhs: seq<Name>, rhs: seq<Expr>, defs: set<Name>, sc: RegScopes, next: Reg)
    requires |lhs| == |rhs| && Resolved(lhs, defs, sc) && Live(sc, next) && !NeedsTwoPhase(lhs, rhs) && TellsApart(rig, alias, lhs, rhs, sc)
    ensures exists w, scopes, m :: scopes != [] && Stands(sc, scopes, next, m) && !MeansGo(w, lhs, rhs, defs, sc, scopes, next, m)
  {
    hide NeedsTwoPhase, Live, Shaped, Apart, Interleaved, ShortVar, FreeScopes, Holds, MeansGo, MachineFor, Outside;
    var scopes := FreeScopes(sc, alias);
    FreeShaped(sc, alias);
    FreeApart(sc, alias);
    MachineHolds(sc, scopes, next, FreeMem(0));
    var m := MachineFor(sc, scopes, next, FreeMem(0));
    MachineMem(sc, scopes, next, FreeMem(0));
    SequentialDiffers(Free(rig), lhs, rhs, defs, sc, scopes, next, m);
  }

  lemma MachineMem(sc: RegScopes, scopes: Scopes, next: Reg, mem: Memory)
    requires Shaped(sc, scopes)
    ensures MachineFor(sc, scopes, next, mem).mem == mem
  {
  }
}

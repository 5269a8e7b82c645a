/** Exactly when `a, x.f, xs[i], *p = ...` has Go's meaning, for all values of a given manner, in every world and state. */
module TupleExact {
  import opened Wrappers
  import opened GoAssign
  import opened AssignLowering
  import opened AssignTrace
  import opened TupleHeld
  import opened TupleLowering
  import opened TupleSettled
  import opened TupleUnsettled

  // ---------- how a value comes about ----------

  /** A value, as far as holding goes: copied, or a reference read through a pointer or from an element. */
  datatype Manner = Copied | ByPointer(kind: Kind) | ByElement(kind: Kind)

  function MannerOf(e: Expr, ref: bool): Manner {
    if !ref then Copied
    else match e
      case Star(_, kind) => ByPointer(kind)
      case Index(_, _, elem) => if elem.Listed? then ByElement(elem.kind) else Copied
      case _ => Copied
  }

  ghost predicate Mannered(rhs: seq<Expr>, refs: seq<bool>, manners: seq<Manner>) {
    |rhs| == |refs| == |manners| && forall i :: 0 <= i < |rhs| ==> MannerOf(rhs[i], refs[i]) == manners[i]
  }

  const ANY: Expr := Call("", Lit(0))

  /** A value of that manner that may be any. */
  function AnyOf(manner: Manner): Expr {
    match manner
    case Copied => ANY
    case ByPointer(kind) => Star(ANY, kind)
    case ByElement(kind) => Index(ANY, ANY, Listed(kind))
  }

  function SightFor(manner: Manner): Sight {
    match manner
    case Copied => Nowhere
    case ByPointer(kind) => OnPointee(ANY, kind)
    case ByElement(kind) => OnElement(ANY, ANY, kind)
  }

  /** No target may change a reference that a later one stores. */
  ghost predicate MannersSettled(ts: seq<Target>, manners: seq<Manner>, sc: RegScopes)
    requires |ts| == |manners|
  {
    forall i, j :: 0 <= i < j < |ts| && !ts[j].ToBlank? ==> !Hits(ts[i], SightFor(manners[j]), sc)
  }

  lemma MannersSuffice(ts: seq<Target>, rhs: seq<Expr>, refs: seq<bool>, manners: seq<Manner>, sc: RegScopes)
    requires |ts| == |rhs| && Mannered(rhs, refs, manners) && MannersSettled(ts, manners, sc)
    ensures ValuesSettled(ts, rhs, refs, sc)
  {
    hide Hits;
    forall i, j | 0 <= i < j < |ts| && !ts[j].ToBlank? ensures !Hits(ts[i], ValueSight(rhs[j], refs[j], sc), sc) {
      assert MannerOf(rhs[j], refs[j]) == manners[j];
      HitByManner(ts[i], rhs[j], refs[j], sc);
    }
  }

  lemma HitByManner(t: Target, e: Expr, ref: bool, sc: RegScopes)
    ensures Hits(t, ValueSight(e, ref, sc), sc) ==> Hits(t, SightFor(MannerOf(e, ref)), sc)
  {
    hide LookupReg;
  }

  // ---------- values that are n ----------

  /** A value of that manner that is n in a dull world. */
  function ValueN(manner: Manner, n: int): Expr {
    match manner
    case Copied => Lit(n)
    case ByPointer(kind) => Star(Lit(n + 1), kind)
    case ByElement(kind) => Index(Lit(n + 1), Lit(0), Listed(kind))
  }

  function ValuesN(manners: seq<Manner>, n: int): (r: seq<Expr>)
    ensures |r| == |manners| && forall i :: 0 <= i < |manners| ==> r[i] == ValueN(manners[i], n)
  {
    seq(|manners|, i requires 0 <= i < |manners| => ValueN(manners[i], n))
  }

  function RefsFor(manners: seq<Manner>): (r: seq<bool>)
    ensures |r| == |manners| && forall i :: 0 <= i < |manners| ==> r[i] == !manners[i].Copied?
  {
    seq(|manners|, i requires 0 <= i < |manners| => !manners[i].Copied?)
  }

  /** One more value, or the first ones. */
  lemma HoldN(w: World, manner: Manner, n: int, c: Value, sc: RegScopes, special: Name)
    requires w == Dull(c)
    ensures var e, hold, scopes, mem := ValueN(manner, n), ValueHold(ValueN(manner, n), !manner.Copied?), DullScopes(sc, special, c), DullMem(c, n);
      Eval(w, e, scopes, mem) == Returned(Num(n), mem) && AllN([HeldAs(w, e, hold, scopes, mem, Num(n))], n)
  {
    hide DullScopes;
  }

  lemma {:induction false} HoldsN(manners: seq<Manner>, n: int, c: Value, sc: RegScopes, special: Name)
    ensures var r := HoldAll(Dull(c), ValuesN(manners, n), ValueHolds(ValuesN(manners, n), RefsFor(manners)), DullScopes(sc, special, c), DullMem(c, n));
      r.AllHeld? && r.mem == DullMem(c, n) && AllN(r.held, n)
    decreases |manners|
  {
    hide Dull, DullScopes, DullMem, Eval, HeldAs;
    var es, refs := ValuesN(manners, n), RefsFor(manners);
    var holds := ValueHolds(es, refs);
    if manners != [] {
      var k := |manners| - 1;
      HoldsN(manners[..k], n, c, sc, special);
      assert ValuesN(manners[..k], n) == es[..k] && RefsFor(manners[..k]) == refs[..k];
      assert ValueHolds(es[..k], refs[..k]) == holds[..k];
      HoldN(Dull(c), manners[k], n, c, sc, special);
    }
  }

  lemma ManneredN(manners: seq<Manner>, n: int)
    ensures Mannered(ValuesN(manners, n), RefsFor(manners), manners)
  {
  }

  // ---------- an operand that is changed ----------

  /** The first that is: what changes it is itself unchanged. */
  lemma FirstDisturbed(ts: seq<Target>, sc: RegScopes, i: nat, j: nat, o: nat) returns (i': nat, j': nat, o': nat)
    requires Disturbs(ts, sc, i, j, o)
    ensures Disturbs(ts, sc, i', j', o') && forall l, p :: !Disturbs(ts, sc, l, i', p)
    decreases j
  {
    hide Hits, OperandSight, Operands;
    if l, p :| Disturbs(ts, sc, l, i, p) {
      i', j', o' := FirstDisturbed(ts, sc, l, i, p);
    } else {
      i', j', o' := i, j, o;
    }
  }

  lemma OperandSpotted(ts: seq<Target>, sc: RegScopes, special: Name, c: Value, n: int, j: nat, o: nat)
    requires Suits(ts, c, n) && j < |ts| && o < |Operands(ts[j])| && TypedTarget(ts[j], sc)
    ensures var q, s := CountTo(ts, j) + o, OperandSight(ts[j], o, sc);
      && CountTo(ts, j + 1) == CountTo(ts, j) + |Operands(ts[j])| && TypedSight(s, sc)
      && Spotted(s, OpsOf(ts, sc, special, c, n)[q], Val(Operands(ts[j])[o], sc, c), sc, special, c)
  {
    hide DullScopes, DullMem, Dull, Spotted, Val, Operands, OperandHolds, DullHeld, CountTo, LookupReg;
    OperandsAt(ts, j);
    var a, b := CountTo(ts, j), CountTo(ts, j + 1);
    var es, holds, q := AllOperands(ts), AllHolds(ts), a + o;
    assert es[a..b][o] == es[q] && holds[a..b][o] == holds[q];
    AboveEach(es, q);
    DullSight(es[q], holds[q], sc, special, c, n);
    assert TypedOperand(Operands(ts[j])[o], sc);
  }

  /** A changed operand leaves its mark on a cell of its own. */
  lemma ChangedOperand(ts: seq<Target>, values: seq<Held>, sc: RegScopes, n: int, i: nat, j: nat, o: nat) returns (cell: Cell)
    requires |values| == |ts| && AllN(values, n) && Typed(ts, sc) && Disturbs(ts, sc, i, j, o) && forall l, p :: !Disturbs(ts, sc, l, i, p)
    requires Suits(ts, CommonOf(ts[i], OperandSight(ts[j], o, sc)), n)
    ensures var s := OperandSight(ts[j], o, sc); var c, special := CommonOf(ts[i], s), SpecialOf(ts[i], s);
      var r := StoreAllCurrent(Dull(c), ts, OpsOf(ts, sc, special, c, n), values, StartOf(sc, special, c, n));
      r.Effect? && Odd(cell, n) && Load(r.mem, cell) == Num(n)
  {
    hide Hits, OperandSight, TypedTarget, TypedSight, Spotted, CommonOf, SpecialOf, Suits, Dull, DullScopes, DullMem, Upto, OpsOf, StartOf, CountTo, Lookup, Store, Operands, BoxesOff,
         StoreAllCurrent, Tame, Load, Odd, Val, AllN;
    var s := OperandSight(ts[j], o, sc);
    var c, special := CommonOf(ts[i], s), SpecialOf(ts[i], s);
    var ops, start := OpsOf(ts, sc, special, c, n), StartOf(sc, special, c, n);
    assert TypedTarget(ts[j], sc);
    OperandSpotted(ts, sc, special, c, n, j, o);
    var a, b := CountTo(ts, j), CountTo(ts, j + 1);
    HitStays(ts, values, sc, n, i, j, s, ops[a + o], Val(Operands(ts[j])[o], sc, c));
    var before := Upto(Dull(c), ts, ops, values, start, j);
    UptoStep(Dull(c), ts, ops, values, start, j);
    var now := Nows(ops[a..b], before.scopes, before.mem);
    assert now[o] == Num(n);
    BaseLow(ts, sc, special, c, n, j, Env(before.scopes, before.mem));
    TameValue(values, j, Env(before.scopes, before.mem), DullScopes(sc, special, c), c, n);
    cell := OddStore(ts[j], now, Env(before.scopes, before.mem), c, n, o);
    SuitsLarge(ts, c, n);
    StartTame(sc, special, c, n);
    DullNext(ts, ops, values, start, j, DullScopes(sc, special, c), c, n);
    DullOn(ts, ops, values, start, j + 1, |ts|, DullScopes(sc, special, c), c, n);
    UptoAll(Dull(c), ts, ops, values, start);
  }

  lemma BaseLow(ts: seq<Target>, sc: RegScopes, special: Name, c: Value, n: int, j: nat, env: Env)
    requires Suits(ts, c, n) && j < |ts| && |Operands(ts[j])| > 0 && TypedTarget(ts[j], sc) && Tame(env, DullScopes(sc, special, c), c, n)
    ensures CountTo(ts, j + 1) == CountTo(ts, j) + |Operands(ts[j])| && Now(OpsOf(ts, sc, special, c, n)[CountTo(ts, j)], env.scopes, env.mem) != Num(n + 1)
  {
    hide DullScopes, Spotted, Operands, OpsOf, CountTo, LookupReg, Tame, OperandSight, TypedSight;
    OperandSpotted(ts, sc, special, c, n, j, 0);
    OperandLow(OperandSight(ts[j], 0, sc), OpsOf(ts, sc, special, c, n)[CountTo(ts, j)], Val(Operands(ts[j])[0], sc, c), env, sc, special, c, n);
  }

  lemma TameValue(values: seq<Held>, k: nat, env: Env, start: Scopes, c: Value, n: int)
    requires k < |values| && AllN(values, n) && Tame(env, start, c, n)
    ensures Now(values[k], env.scopes, env.mem) == Num(n)
  {
    hide Lookup;
  }

  // ---------- the whole statement ----------

  /** What both meanings are there, given how the values are held. */
  lemma InDull(ts: seq<Target>, rhs: seq<Expr>, refs: seq<bool>, sc: RegScopes, special: Name, c: Value, n: int, vs: seq<Held>)
    requires |ts| == |rhs| == |refs| == |vs| && Suits(ts, c, n)
    requires HoldAll(Dull(c), rhs, ValueHolds(rhs, refs), DullScopes(sc, special, c), DullMem(c, n)) == AllHeld(vs, DullMem(c, n))
    ensures var start := StartOf(sc, special, c, n);
      && AssignCurrent(Dull(c), ts, rhs, refs, start.scopes, start.mem) == StoreAllCurrent(Dull(c), ts, OpsOf(ts, sc, special, c, n), vs, start)
      && ReadLast(Dull(c), ts, rhs, refs, start.scopes, start.mem)
         == StoreAll(Dull(c), ts, Vals(AllOperands(ts), sc, c), Nows(vs, start.scopes, start.mem), start)
  {
    hide Dull, DullScopes, DullMem, HoldAll, StoreAllCurrent, StoreAll, DullHelds, Now, Results;
    var es, holds, k := AllOperands(ts), AllHolds(ts), |AllOperands(ts)|;
    var ops, start := OpsOf(ts, sc, special, c, n), StartOf(sc, special, c, n);
    DullHold(es, holds, sc, special, c, n);
    HoldConcat(Dull(c), es, holds, rhs, ValueHolds(rhs, refs), start.scopes, start.mem);
    assert HoldStatement(Dull(c), ts, rhs, refs, start.scopes, start.mem) == AllHeld(ops + vs, start.mem);
    assert (ops + vs)[..k] == ops && (ops + vs)[k..] == vs;
    OpsShow(ts, sc, special, c, n);
    var now := Nows(ops + vs, start.scopes, start.mem);
    assert now[..k] == Nows(ops, start.scopes, start.mem) && now[k..] == Nows(vs, start.scopes, start.mem);
  }

  /** Go's meaning there. */
  lemma GoInDull(ts: seq<Target>, values: seq<Value>, sc: RegScopes, special: Name, c: Value, n: int)
    requires |values| == |ts| && Suits(ts, c, n)
    ensures var start := StartOf(sc, special, c, n); var r := StoreAll(Dull(c), ts, Vals(AllOperands(ts), sc, c), values, start);
      r.Effect? && LeftAlone(r.mem, c, n) && PlacesKept(start.scopes, r.scopes)
  {
    hide Lookup, LookupReg, DullScopes, LevelOf, StoreAll, Dull;
    var start, es := StartOf(sc, special, c, n), AllOperands(ts);
    forall q | 0 <= q < |es| ensures Val(es[q], sc, c) != Num(n) {
      AboveEach(es, q);
    }
    forall x | IsBoxed(Lookup(start.scopes, x)) ensures Lookup(start.scopes, x).value.raw != Num(n) {
      DullLookup(sc, special, c, x);
    }
    SamePlacesKept(start.scopes);
    GoRun(ts, Vals(es, sc, c), values, start, start.scopes, c, n);
  }

  /** The meanings differ, so the code does not have Go's. */
  lemma DifferentMem(w: World, ts: seq<Target>, rhs: seq<Expr>, refs: seq<bool>, layoutsMatch: bool, sc: RegScopes, scopes: Scopes, next: Reg, m: Machine, cell: Cell)
    requires |ts| == |rhs| == |refs| && Stands(sc, scopes, m) && Live(sc, next) && !IsFieldSwap(ts, rhs)
    requires var a, b := AssignCurrent(w, ts, rhs, refs, scopes, m.mem), ReadLast(w, ts, rhs, refs, scopes, m.mem);
      a.Effect? && b.Effect? && Load(a.mem, cell) != Load(b.mem, cell)
    ensures !MeansGo(w, ts, rhs, refs, layoutsMatch, sc, scopes, next, m)
  {
    hide Agree, Live, Run, Lower, TupleAssign, AssignCurrent, ReadLast, AllDeclared, FirstUndeclared, Load;
    LowerMeans(w, ts, rhs, refs, layoutsMatch, sc, scopes, next, m);
  }

  lemma NotSwap(ts: seq<Target>, rhs: seq<Expr>)
    requires |rhs| > 0 ==> !rhs[0].Field?
    ensures !IsFieldSwap(ts, rhs)
  {
  }

  /** The code has a meaning Go allows, whatever values of these manners are stored, in every world and state. */
  ghost predicate AlwaysGo(ts: seq<Target>, manners: seq<Manner>, sc: RegScopes, next: Reg)
    requires |ts| == |manners| && Live(sc, next)
  {
    forall w, rhs, refs, layoutsMatch, scopes, m :: Mannered(rhs, refs, manners) && Stands(sc, scopes, m) ==> MeansGo(w, ts, rhs, refs, layoutsMatch, sc, scopes, next, m)
  }

  function LargeFor(ts: seq<Target>, c: Value): int {
    Larger(Larger(AboveAll(AllOperands(ts)), if c.Num? then c.n + 1 else 0), 1)
  }

  /** A changed operand shows in some world. */
  lemma OperandMatters(ts: seq<Target>, manners: seq<Manner>, sc: RegScopes, next: Reg, i: nat, j: nat, o: nat)
    requires |ts| == |manners| && Live(sc, next) && Typed(ts, sc) && Disturbs(ts, sc, i, j, o) && forall l, p :: !Disturbs(ts, sc, l, i, p)
    ensures !AlwaysGo(ts, manners, sc, next)
  {
    hide Hits, OperandSight, TypedTarget, SpecialOf, Dull, DullScopes, DullMem, OpsOf, HoldAll, StoreAllCurrent, StoreAll, Stands, Live, MeansGo, Odd,
         AssignCurrent, ReadLast, Vals, Nows;
    var s := OperandSight(ts[j], o, sc);
    var c, special := CommonOf(ts[i], s), SpecialOf(ts[i], s);
    var n := LargeFor(ts, c);
    hide CommonOf;
    var rhs, refs := ValuesN(manners, n), RefsFor(manners);
    var start := StartOf(sc, special, c, n);
    HoldsN(manners, n, c, sc, special);
    var vs := HoldAll(Dull(c), rhs, ValueHolds(rhs, refs), start.scopes, start.mem).held;
    InDull(ts, rhs, refs, sc, special, c, n, vs);
    GoInDull(ts, Nows(vs, start.scopes, start.mem), sc, special, c, n);
    var cell := ChangedOperand(ts, vs, sc, n, i, j, o);
    var m := DullStands(sc, special, c, n, next);
    assert Load(ReadLast(Dull(c), ts, rhs, refs, start.scopes, start.mem).mem, cell) == c;
    NotSwap(ts, rhs);
    DifferentMem(Dull(c), ts, rhs, refs, false, sc, start.scopes, next, m, cell);
    ManneredN(manners, n);
  }

  lemma OperandsMatter(ts: seq<Target>, manners: seq<Manner>, sc: RegScopes, next: Reg)
    requires |ts| == |manners| && Live(sc, next) && Typed(ts, sc) && AlwaysGo(ts, manners, sc, next)
    ensures OperandsSettled(ts, sc)
  {
    hide Hits, OperandSight, TypedTarget, Live, AlwaysGo, Operands, Typed;
    forall i, j, o ensures !Disturbs(ts, sc, i, j, o) {
      if Disturbs(ts, sc, i, j, o) {
        var i', j', o' := FirstDisturbed(ts, sc, i, j, o);
        OperandMatters(ts, manners, sc, next, i', j', o');
        assert false;
      }
    }
  }

  lemma SettledIsEnough(ts: seq<Target>, manners: seq<Manner>, sc: RegScopes, next: Reg)
    requires |ts| == |manners| && Live(sc, next) && AllDeclared(ts, sc) && OperandsSettled(ts, sc) && MannersSettled(ts, manners, sc)
    ensures AlwaysGo(ts, manners, sc, next)
  {
    hide Hits, Stands, Live, MeansGo, OperandsSettled, MannersSettled, ValuesSettled, AllDeclared, Lower, FirstUndeclared;
    forall w, rhs, refs, layoutsMatch, scopes, m | Mannered(rhs, refs, manners) && Stands(sc, scopes, m) ensures MeansGo(w, ts, rhs, refs, layoutsMatch, sc, scopes, next, m) {
      MannersSuffice(ts, rhs, refs, manners, sc);
      LowerCorrect(w, ts, rhs, refs, layoutsMatch, sc, scopes, next, m);
    }
  }

  /** Where values are copied, the code has Go's meaning exactly if no target may change an operand of a later one. */
  lemma LowerExact(ts: seq<Target>, manners: seq<Manner>, sc: RegScopes, next: Reg)
    requires |ts| == |manners| && Live(sc, next) && AllDeclared(ts, sc) && Typed(ts, sc) && forall i :: 0 <= i < |ts| ==> manners[i].Copied?
    ensures AlwaysGo(ts, manners, sc, next) <==> OperandsSettled(ts, sc)
  {
    hide Live, AlwaysGo, OperandsSettled, AllDeclared, Typed;
    if OperandsSettled(ts, sc) {
      SettledIsEnough(ts, manners, sc, next);
    }
    if AlwaysGo(ts, manners, sc, next) {
      OperandsMatter(ts, manners, sc, next);
    }
  }

  // ---------- a reference that is changed ----------

  /** Where a store goes. */
  function Spot(t: Target, ops: seq<Value>, scopes: Scopes): Cell
    requires |ops| == |Operands(t)| && !t.ToBlank? && (t.ToIdent? ==> IsBoxed(Lookup(scopes, t.name)))
  {
    match t
    case ToIdent(y) => BoxOf(Lookup(scopes, y).value)
    case ToField(_, kind, _) => Cell(ops[0], ByStar(kind))
    case ToStar(_, kind) => Cell(ops[0], ByStar(kind))
    case ToIndex(_, _, elem, _) => Cell(ops[0], ByIndex(ops[1], elem))
  }

  lemma StoredAt(t: Target, ops: seq<Value>, v: Value, env: Env, c: Value, start: Scopes)
    requires |ops| == |Operands(t)| && !t.ToBlank? && (t.ToIdent? ==> IsBoxed(Lookup(start, t.name))) && PlacesKept(start, env.scopes)
    ensures var r := Store(Dull(c), t, ops, v, env); r.Effect? && Load(r.mem, Spot(t, ops, start)) == v
  {
    hide Lookup, AssignVar;
    if t.ToIdent? {
      AssignMem(env, t.name, v);
    }
  }

  /** Values that are n, and a last one that may be any. */
  function LastAny(manners: seq<Manner>, n: int): (r: seq<Expr>)
    requires manners != []
    ensures |r| == |manners|
  {
    ValuesN(manners[..|manners| - 1], n) + [AnyOf(manners[|manners| - 1])]
  }

  lemma LastAnyMannered(manners: seq<Manner>, n: int)
    requires manners != []
    ensures Mannered(LastAny(manners, n), RefsFor(manners), manners)
  {
  }

  lemma LastAnyHeld(manners: seq<Manner>, n: int, c: Value, sc: RegScopes, special: Name) returns (vs: seq<Held>, h: Held)
    requires manners != [] && Large(c, n) && !manners[|manners| - 1].Copied?
    ensures HoldAll(Dull(c), LastAny(manners, n), ValueHolds(LastAny(manners, n), RefsFor(manners)), DullScopes(sc, special, c), DullMem(c, n)) == AllHeld(vs + [h], DullMem(c, n))
    ensures |vs| == |manners| - 1 && AllN(vs, n) && Spotted(SightFor(manners[|manners| - 1]), h, c, sc, special, c)
    ensures Now(h, DullScopes(sc, special, c), DullMem(c, n)) == c
  {
    hide Dull, DullScopes, DullMem, Eval, Spotted, Now, AllN, LookupReg;
    var k := |manners| - 1;
    var last, es, refs := AnyOf(manners[k]), LastAny(manners, n), RefsFor(manners);
    HoldsN(manners[..k], n, c, sc, special);
    DullEval(last, sc, special, c, n);
    DullSight(last, Refer, sc, special, c, n);
    DullShows(last, Refer, sc, special, c, n);
    var front, holds := ValuesN(manners[..k], n), ValueHolds(es, refs);
    assert RefsFor(manners[..k]) == refs[..k] && es[..k] == front && holds[..k] == ValueHolds(front, refs[..k]);
    vs := HoldAll(Dull(c), front, holds[..k], DullScopes(sc, special, c), DullMem(c, n)).held;
    h := DullHeld(last, Refer, sc, special, c, n);
  }

  lemma FrontCounts(ts: seq<Target>)
    requires ts != []
    ensures var j := |ts| - 1; var k := |AllOperands(ts[..j])|;
      && CountTo(ts, j) == k && CountTo(ts, j + 1) == |AllOperands(ts)| == k + |Operands(ts[j])|
      && AllOperands(ts)[..k] == AllOperands(ts[..j]) && AllHolds(ts)[..k] == AllHolds(ts[..j]) && AllOperands(ts)[k..] == Operands(ts[j])
  {
    hide Operands, OperandHolds;
    var j := |ts| - 1;
    assert ts[..j + 1] == ts;
    OperandsAt(ts, j);
    OperandsGrow(ts, j);
    var es, k := AllOperands(ts), |AllOperands(ts[..j])|;
    assert es[k..|es|] == es[k..];
  }

  lemma FrontOps(ts: seq<Target>, sc: RegScopes, special: Name, c: Value, n: int)
    requires ts != [] && Suits(ts, c, n)
    ensures var j := |ts| - 1; var k := |AllOperands(ts[..j])|;
      && CountTo(ts, j) == k && CountTo(ts, j + 1) == |AllOperands(ts)| == k + |Operands(ts[j])| && Suits(ts[..j], c, n)
      && OpsOf(ts, sc, special, c, n)[..k] == OpsOf(ts[..j], sc, special, c, n)
      && Vals(AllOperands(ts), sc, c)[..k] == Vals(AllOperands(ts[..j]), sc, c) && Vals(AllOperands(ts), sc, c)[k..] == Vals(Operands(ts[j]), sc, c)
  {
    hide DullHelds, Vals, Operands, AllOperands, AllHolds, CountTo, AboveAll;
    var k := |AllOperands(ts[..|ts| - 1])|;
    FrontCounts(ts);
    AboveFront(AllOperands(ts), k);
    HeldsFront(AllOperands(ts), AllHolds(ts), sc, special, c, n, k);
    ValsSplit(AllOperands(ts), sc, c, k);
  }

  lemma HeldsFront(es: seq<Expr>, holds: seq<Hold>, sc: RegScopes, special: Name, c: Value, n: int, k: nat)
    requires |holds| == |es| && k <= |es|
    ensures DullHelds(es, holds, sc, special, c, n)[..k] == DullHelds(es[..k], holds[..k], sc, special, c, n)
  {
    hide DullHeld;
  }

  lemma ValsSplit(es: seq<Expr>, sc: RegScopes, c: Value, k: nat)
    requires k <= |es|
    ensures Vals(es, sc, c)[..k] == Vals(es[..k], sc, c) && Vals(es, sc, c)[k..] == Vals(es[k..], sc, c)
  {
    hide Val;
  }

  lemma {:induction false} AboveFront(es: seq<Expr>, k: nat)
    requires k <= |es|
    ensures AboveAll(es[..k]) <= AboveAll(es)
    decreases |es|
  {
    if k == |es| {
      assert es[..k] == es;
    } else {
      AboveFront(es[..|es| - 1], k);
      assert es[..|es| - 1][..k] == es[..k];
    }
  }

  /** A last value that an earlier target changes is stored changed. */
  lemma ChangedLast(ts: seq<Target>, vs: seq<Held>, h: Held, sc: RegScopes, n: int, i: nat, s: Sight)
    requires ts != [] && |vs| == |ts| - 1 && i < |vs| && AllN(vs, n) && Typed(ts, sc) && OperandsSettled(ts, sc) && Hits(ts[i], s, sc) && TypedSight(s, sc)
    requires var c := CommonOf(ts[i], s); Suits(ts, c, n) && Spotted(s, h, c, sc, SpecialOf(ts[i], s), c)
    requires var t := ts[|ts| - 1]; !t.ToBlank? && (t.ToIdent? ==> IsBoxed(Lookup(DullScopes(sc, SpecialOf(ts[i], s), CommonOf(ts[i], s)), t.name)))
    ensures var c, special, t := CommonOf(ts[i], s), SpecialOf(ts[i], s), ts[|ts| - 1];
      var r := StoreAllCurrent(Dull(c), ts, OpsOf(ts, sc, special, c, n), vs + [h], StartOf(sc, special, c, n));
      r.Effect? && Load(r.mem, Spot(t, Vals(Operands(t), sc, c), DullScopes(sc, special, c))) == Num(n)
  {
    hide Hits, TypedTarget, TypedSight, Spotted, CommonOf, SpecialOf, Suits, Dull, DullScopes, DullMem, OpsOf, CountTo, Lookup, Store, Operands, BoxesOff, Load, Val, Spot, AllN,
         Disturbs, OperandSight, PlacesKept, Now;
    var c, special, j := CommonOf(ts[i], s), SpecialOf(ts[i], s), |ts| - 1;
    var front, t, ops, start := ts[..j], ts[j], OpsOf(ts, sc, special, c, n), StartOf(sc, special, c, n);
    var k := |AllOperands(front)|;
    FrontOps(ts, sc, special, c, n);
    SettledPrefix(ts, sc);
    HitStays(front, vs, sc, n, i, j, s, h, c);
    UptoAll(Dull(c), front, ops[..k], vs, start);
    var b := StoreAllCurrent(Dull(c), front, ops[..k], vs, start);
    assert (vs + [h])[..j] == vs && ops[..|ops|] == ops;
    AtTarget(ts, vs + [h], sc, special, c, n, j);
    StoredAt(t, Vals(Operands(t), sc, c), Num(n), Env(b.scopes, b.mem), c, start.scopes);
    assert ops[k..CountTo(ts, j + 1)] == ops[k..];
  }

  /** By Go it is stored as it was. */
  lemma UnchangedLast(ts: seq<Target>, values: seq<Value>, sc: RegScopes, special: Name, c: Value, n: int)
    requires ts != [] && |values| == |ts| && Suits(ts, c, n)
    requires var t := ts[|ts| - 1]; !t.ToBlank? && (t.ToIdent? ==> IsBoxed(Lookup(DullScopes(sc, special, c), t.name)))
    ensures var t := ts[|ts| - 1]; var r := StoreAll(Dull(c), ts, Vals(AllOperands(ts), sc, c), values, StartOf(sc, special, c, n));
      r.Effect? && Load(r.mem, Spot(t, Vals(Operands(t), sc, c), DullScopes(sc, special, c))) == values[|ts| - 1]
  {
    hide Suits, Dull, DullScopes, DullMem, CountTo, Lookup, Store, Operands, Load, Val, Spot, PlacesKept;
    var j := |ts| - 1;
    var k, start := |AllOperands(ts[..j])|, StartOf(sc, special, c, n);
    FrontOps(ts, sc, special, c, n);
    GoInDull(ts[..j], values[..j], sc, special, c, n);
    var b := StoreAll(Dull(c), ts[..j], Vals(AllOperands(ts[..j]), sc, c), values[..j], start);
    StoredAt(ts[j], Vals(Operands(ts[j]), sc, c), values[j], Env(b.scopes, b.mem), c, start.scopes);
  }

  /** The target is in memory: a variable in a register that is given a reference of this kind goes on showing what is there, which is not part of this model. */
  predicate InMemory(t: Target, sc: RegScopes) {
    t.ToIdent? ==> LookupReg(sc, t.name).Some? && LookupReg(sc, t.name).value.box.Some?
  }

  lemma ReferenceMatters(ts: seq<Target>, manners: seq<Manner>, sc: RegScopes, next: Reg, i: nat)
    requires |ts| == |manners| && i < |ts| - 1 && Live(sc, next) && Typed(ts, sc) && OperandsSettled(ts, sc)
    requires var j := |ts| - 1; !ts[j].ToBlank? && InMemory(ts[j], sc) && Hits(ts[i], SightFor(manners[j]), sc)
    ensures !AlwaysGo(ts, manners, sc, next)
  {
    hide Hits, TypedTarget, SpecialOf, Dull, DullScopes, DullMem, OpsOf, HoldAll, StoreAllCurrent, StoreAll, Stands, Live, MeansGo, Spotted, AllN, Typed, OperandsSettled,
         AssignCurrent, ReadLast, Vals, Spot, Load, Lookup, LookupReg, Now, Val;
    var j := |ts| - 1;
    var s := SightFor(manners[j]);
    NowhereHit(ts[i], sc);
    var c, special := CommonOf(ts[i], s), SpecialOf(ts[i], s);
    var n := LargeFor(ts, c);
    hide CommonOf;
    var rhs, refs := LastAny(manners, n), RefsFor(manners);
    var start := StartOf(sc, special, c, n);
    var vs, h := LastAnyHeld(manners, n, c, sc, special);
    InDull(ts, rhs, refs, sc, special, c, n, vs + [h]);
    if ts[j].ToIdent? {
      DullLookup(sc, special, c, ts[j].name);
    }
    ChangedLast(ts, vs, h, sc, n, i, s);
    UnchangedLast(ts, Nows(vs + [h], start.scopes, start.mem), sc, special, c, n);
    var m := DullStands(sc, special, c, n, next);
    LastAnyMannered(manners, n);
    LastAnyNoSwap(ts, manners, n);
    DifferentMem(Dull(c), ts, rhs, refs, false, sc, start.scopes, next, m, Spot(ts[j], Vals(Operands(ts[j]), sc, c), start.scopes));
  }

  lemma NowhereHit(t: Target, sc: RegScopes)
    ensures !Hits(t, Nowhere, sc)
  {
  }

  lemma LastAnyNoSwap(ts: seq<Target>, manners: seq<Manner>, n: int)
    requires manners != []
    ensures !IsFieldSwap(ts, LastAny(manners, n))
  {
    NotSwap(ts, LastAny(manners, n));
  }

  // ---------- exactly when ----------

  lemma Beginning(ts: seq<Target>, manners: seq<Manner>, sc: RegScopes, k: nat)
    requires |ts| == |manners| && k <= |ts|
    ensures OperandsSettled(ts, sc) ==> OperandsSettled(ts[..k], sc)
    ensures MannersSettled(ts, manners, sc) ==> MannersSettled(ts[..k], manners[..k], sc)
    ensures AllDeclared(ts, sc) ==> AllDeclared(ts[..k], sc)
    ensures Typed(ts, sc) ==> Typed(ts[..k], sc)
  {
    hide Hits, OperandSight, Operands, TypedTarget, LookupReg;
    if OperandsSettled(ts, sc) {
      forall i, j, o ensures !Disturbs(ts[..k], sc, i, j, o) {
        assert !Disturbs(ts, sc, i, j, o);
      }
    }
  }

  /** The statement and each beginning of it have Go's meaning exactly if no target may change an operand of a later one, or a reference that a later one stores. */
  lemma BeginningsExact(ts: seq<Target>, manners: seq<Manner>, sc: RegScopes, next: Reg)
    requires |ts| == |manners| && Live(sc, next) && AllDeclared(ts, sc) && Typed(ts, sc)
    requires forall i :: 0 <= i < |ts| && !manners[i].Copied? ==> InMemory(ts[i], sc)
    ensures (forall k :: 0 <= k <= |ts| ==> AlwaysGo(ts[..k], manners[..k], sc, next)) <==> OperandsSettled(ts, sc) && MannersSettled(ts, manners, sc)
  {
    hide Hits, Live, AlwaysGo, OperandsSettled, AllDeclared, Typed, LookupReg;
    if OperandsSettled(ts, sc) && MannersSettled(ts, manners, sc) {
      forall k | 0 <= k <= |ts| ensures AlwaysGo(ts[..k], manners[..k], sc, next) {
        Beginning(ts, manners, sc, k);
        SettledIsEnough(ts[..k], manners[..k], sc, next);
      }
    }
    if forall k :: 0 <= k <= |ts| ==> AlwaysGo(ts[..k], manners[..k], sc, next) {
      assert ts[..|ts|] == ts && manners[..|ts|] == manners;
      OperandsMatter(ts, manners, sc, next);
      forall i, j | 0 <= i < j < |ts| && !ts[j].ToBlank? ensures !Hits(ts[i], SightFor(manners[j]), sc) {
        if Hits(ts[i], SightFor(manners[j]), sc) {
          NowhereHit(ts[i], sc);
          Beginning(ts, manners, sc, j + 1);
          ReferenceMatters(ts[..j + 1], manners[..j + 1], sc, next, i);
          assert false;
        }
      }
    }
  }
}

/** Why nothing held may be changed before it is used: a world, for each way it can be, that tells the difference. */
module TupleUnsettled {
  import opened Wrappers
  import opened GoAssign
  import opened AssignLowering
  import opened AssignTrace
  import opened AssignHistory
  import opened TupleHeld
  import opened TupleLowering
  import opened TupleSettled
  import ShortVarLate
  import ShortVarExact

  // ---------- a world without differences ----------

  /** Nothing fails, and everything computed is c. */
  ghost function Dull(c: Value): World {
    World((k: nat, a, b) => c, (v, f) => c, (v, f, u) => u, (k: nat, a, b) => false, v => false, (b, i) => true, (b, i) => true, (f, v, mem) => Returned(c, mem))
  }

  /** Variables are c; so is the place of one box, and the others are places of their own. */
  function DullRaw(sc: RegScopes, special: Name, c: Value, k: nat, x: Name, box: Option<Kind>): Value {
    if box.None? || (x == special && k == LevelOf(sc, special)) then c else Pair(Num(k), Text(x))
  }

  function DullScopes(sc: RegScopes, special: Name, c: Value): (scopes: Scopes)
    ensures |scopes| == |sc|
    ensures forall k :: 0 <= k < |sc| ==> scopes[k].Keys == sc[k].Keys
    ensures forall k, x :: Has(sc, k, x) ==> scopes[k][x] == Slot(DullRaw(sc, special, c, k, x, sc[k][x].box), sc[k][x].box, sc[k][x].result)
  {
    seq(|sc|, k requires 0 <= k < |sc| => map x | x in sc[k] :: Slot(DullRaw(sc, special, c, k, x, sc[k][x].box), sc[k][x].box, sc[k][x].result))
  }

  /** Memory is c, but for a part that is n. */
  ghost function DullMem(c: Value, n: int): Memory {
    imap cell: Cell | true :: if cell.base == Num(n + 1) then Num(n) else c
  }

  lemma DullShaped(sc: RegScopes, special: Name, c: Value)
    ensures Shaped(sc, DullScopes(sc, special, c))
  {
  }

  lemma DullApart(sc: RegScopes, special: Name, c: Value)
    requires c.Num?
    ensures ShortVarLate.Apart(DullScopes(sc, special, c))
  {
    var scopes := DullScopes(sc, special, c);
    forall k, x, l, y | ShortVarLate.HasBox(scopes, k, x) && ShortVarLate.HasBox(scopes, l, y) && BoxOf(scopes[k][x]) == BoxOf(scopes[l][y])
      ensures k == l && x == y
    {
      assert Has(sc, k, x) && Has(sc, l, y);
    }
  }

  lemma DullLookup(sc: RegScopes, special: Name, c: Value, x: Name)
    ensures var s, p := Lookup(DullScopes(sc, special, c), x), LookupReg(sc, x);
      s == if p.Some? then Some(Slot(DullRaw(sc, special, c, LevelOf(sc, x), x, p.value.box), p.value.box, p.value.result)) else None
  {
    var scopes := DullScopes(sc, special, c);
    DullShaped(sc, special, c);
    LevelFound(sc, scopes, x);
    hide Shaped, Lookup, LookupReg, LevelOf;
    if LookupReg(sc, x).Some? {
      assert Has(sc, LevelOf(sc, x), x);
    }
  }

  lemma DullPlaces(sc: RegScopes, special: Name, c: Value)
    requires c.Num?
    ensures Ordered(sc, DullScopes(sc, special, c))
  {
    hide Lookup, LookupReg, DullScopes, LevelOf;
    var scopes := DullScopes(sc, special, c);
    forall x
      ensures match LookupReg(sc, x)
        case Some(p) => Lookup(scopes, x).Some? && Lookup(scopes, x).value.box == p.box
        case None => Lookup(scopes, x).None?
    {
      DullLookup(sc, special, c, x);
    }
    DullApart(sc, special, c);
    ApartOwns(scopes);
  }

  lemma DullStands(sc: RegScopes, special: Name, c: Value, n: int, next: Reg) returns (m: Machine)
    requires c.Num? && Live(sc, next)
    ensures Stands(sc, DullScopes(sc, special, c), m) && m.mem == DullMem(c, n)
  {
    var scopes := DullScopes(sc, special, c);
    DullShaped(sc, special, c);
    DullApart(sc, special, c);
    m := ShortVarExact.MachineFor(sc, scopes, next, DullMem(c, n));
    forall k, x | Has(sc, k, x) ensures Fits(sc[k][x], scopes[k][x], m.regs) {
      assert ShortVarExact.Holder(sc, sc[k][x].reg, k, x);
    }
  }

  // ---------- evaluation ----------

  function Larger(a: int, b: int): int {
    if a < b then b else a
  }

  /** No number in the expression is as large. */
  function Above(e: Expr): int {
    match e
    case Lit(n) => n + 1
    case Ident(_) => 0
    case Binary(_, l, r) => Larger(Above(l), Above(r))
    case Field(b, _) => Above(b)
    case Index(b, i, _) => Larger(Above(b), Above(i))
    case Star(b, _) => Above(b)
    case Call(_, arg) => Above(arg)
  }

  function AboveAll(es: seq<Expr>): int {
    if es == [] then 0 else Larger(AboveAll(es[..|es| - 1]), Above(es[|es| - 1]))
  }

  lemma {:induction false} AboveEach(es: seq<Expr>, i: nat)
    requires i < |es|
    ensures Above(es[i]) <= AboveAll(es)
    decreases |es|
  {
    if i < |es| - 1 {
      AboveEach(es[..|es| - 1], i);
    }
  }

  /** What an expression comes to. */
  function Val(e: Expr, sc: RegScopes, c: Value): Value {
    if e.Lit? then Num(e.n) else if e.Ident? && LookupReg(sc, e.name).None? then ZERO else c
  }

  /** The number n is larger than all others. */
  ghost predicate Large(c: Value, n: int) {
    c.Num? && c.n < n && 0 < n
  }

  lemma {:induction false} DullEval(e: Expr, sc: RegScopes, special: Name, c: Value, n: int)
    requires Large(c, n) && Above(e) <= n
    ensures Eval(Dull(c), e, DullScopes(sc, special, c), DullMem(c, n)) == Returned(Val(e, sc, c), DullMem(c, n))
    decreases e
  {
    hide DullScopes, Lookup, LookupReg, LevelOf;
    match e
    case Lit(_) =>
    case Ident(x) => DullLookup(sc, special, c, x);
    case Binary(_, l, r) => DullEval(l, sc, special, c, n); DullEval(r, sc, special, c, n);
    case Field(b, _) => DullEval(b, sc, special, c, n);
    case Index(b, i, _) => DullEval(b, sc, special, c, n); DullEval(i, sc, special, c, n);
    case Star(b, _) => DullEval(b, sc, special, c, n);
    case Call(_, arg) => DullEval(arg, sc, special, c, n);
  }

  /** How it is held. */
  ghost function DullHeld(e: Expr, hold: Hold, sc: RegScopes, special: Name, c: Value, n: int): Held {
    HeldAs(Dull(c), e, hold, DullScopes(sc, special, c), DullMem(c, n), Val(e, sc, c))
  }

  ghost function BoxHere(sc: RegScopes, special: Name, c: Value, x: Name): Value {
    DullRaw(sc, special, c, LevelOf(sc, x), x, Some(0))
  }

  /** What is held, by the text. */
  ghost predicate Spotted(s: Sight, h: Held, v: Value, sc: RegScopes, special: Name, c: Value) {
    match s
    case Nowhere => h == Plain(v)
    case OnVariable(x) => h == Follows(x) && LookupReg(sc, x).Some? && LookupReg(sc, x).value.box.None?
    case OnBox(x, kind) => h == Views(Cell(BoxHere(sc, special, c, x), ByStar(kind))) && LookupReg(sc, x).Some? && LookupReg(sc, x).value.box == Some(kind)
    case OnPointee(b, kind) => h == Views(Cell(Val(b, sc, c), ByStar(kind)))
    case OnElement(b, i, kind) => h == Views(Cell(Val(b, sc, c), ByIndex(Val(i, sc, c), Listed(kind))))
  }

  lemma DullSight(e: Expr, hold: Hold, sc: RegScopes, special: Name, c: Value, n: int)
    requires Large(c, n) && Above(e) <= n
    ensures Spotted(SightOf(e, hold, sc), DullHeld(e, hold, sc, special, c, n), Val(e, sc, c), sc, special, c)
  {
    hide DullScopes, Lookup, LookupReg, LevelOf, Val, Eval, Dull, DullMem;
    match e
    case Ident(x) => DullLookup(sc, special, c, x);
    case Star(b, _) => DullEval(b, sc, special, c, n);
    case Index(b, i, _) => DullEval(b, sc, special, c, n); DullEval(i, sc, special, c, n);
    case _ =>
  }

  ghost function DullHelds(es: seq<Expr>, holds: seq<Hold>, sc: RegScopes, special: Name, c: Value, n: int): (r: seq<Held>)
    requires |holds| == |es|
    ensures |r| == |es| && forall i :: 0 <= i < |es| ==> r[i] == DullHeld(es[i], holds[i], sc, special, c, n)
  {
    seq(|es|, i requires 0 <= i < |es| => DullHeld(es[i], holds[i], sc, special, c, n))
  }

  lemma {:induction false} DullHold(es: seq<Expr>, holds: seq<Hold>, sc: RegScopes, special: Name, c: Value, n: int)
    requires |holds| == |es| && Large(c, n) && AboveAll(es) <= n
    ensures HoldAll(Dull(c), es, holds, DullScopes(sc, special, c), DullMem(c, n)) == AllHeld(DullHelds(es, holds, sc, special, c, n), DullMem(c, n))
    decreases |es|
  {
    hide Eval, Dull, DullScopes, DullMem, HeldAs;
    if es != [] {
      var k := |es| - 1;
      DullHold(es[..k], holds[..k], sc, special, c, n);
      DullEval(es[k], sc, special, c, n);
      assert DullHelds(es, holds, sc, special, c, n) == DullHelds(es[..k], holds[..k], sc, special, c, n) + [DullHeld(es[k], holds[k], sc, special, c, n)];
    }
  }

  // ---------- stores in that world ----------

  /** All there is is c or n; what is at n + 1 is n; boxes are where they were. */
  ghost predicate Tame(env: Env, start: Scopes, c: Value, n: int) {
    && (forall cell: Cell :: Load(env.mem, cell) == Num(n) || (cell.base != Num(n + 1) && Load(env.mem, cell) == c))
    && PlacesKept(start, env.scopes)
    && (forall x :: InRegister(Lookup(env.scopes, x)) ==> Lookup(env.scopes, x).value.raw == c || Lookup(env.scopes, x).value.raw == Num(n))
  }

  /** What is n stays n. */
  ghost predicate Stays(a: Env, b: Env, n: int) {
    && (forall cell: Cell :: Load(a.mem, cell) == Num(n) ==> Load(b.mem, cell) == Num(n))
    && (forall x :: IsN(Lookup(a.scopes, x), n) ==> IsN(Lookup(b.scopes, x), n))
  }

  predicate IsN(s: Option<Slot>, n: int) {
    InRegister(s) && s.value.raw == Num(n)
  }

  lemma StaysTwice(a: Env, b: Env, c: Env, n: int)
    requires Stays(a, b, n) && Stays(b, c, n)
    ensures Stays(a, c, n)
  {
    hide Lookup, Load;
  }

  /** No box is at n + 1. */
  ghost predicate BoxesOff(start: Scopes, n: int) {
    forall x :: IsBoxed(Lookup(start, x)) ==> Lookup(start, x).value.raw != Num(n + 1)
  }

  lemma DullIdent(y: Name, env: Env, start: Scopes, c: Value, n: int)
    requires Large(c, n) && Tame(env, start, c, n) && BoxesOff(start, n)
    ensures var r := AssignVar(env, y, Num(n)); Tame(r, start, c, n) && Stays(env, r, n)
  {
    hide Lookup, AssignVar;
    AssignMem(env, y, Num(n));
    var r := AssignVar(env, y, Num(n));
    forall x ensures Lookup(r.scopes, x) == if x == y && InRegister(Lookup(env.scopes, x)) then Some(Slot(Num(n), None, Lookup(env.scopes, x).value.result)) else Lookup(env.scopes, x) {
      AssignLookup(env, y, Num(n), x);
    }
    assert if InRegister(Lookup(start, y)) then InRegister(Lookup(env.scopes, y)) else Lookup(env.scopes, y) == Lookup(start, y);
  }

  lemma DullCell(cell: Cell, env: Env, start: Scopes, c: Value, n: int)
    requires Large(c, n) && Tame(env, start, c, n)
    ensures var r := Env(env.scopes, env.mem[cell := Num(n)]); Tame(r, start, c, n) && Stays(env, r, n)
  {
    hide Lookup;
  }

  lemma DullStore(t: Target, ops: seq<Value>, env: Env, start: Scopes, c: Value, n: int)
    requires |ops| == |Operands(t)| && Large(c, n) && Tame(env, start, c, n) && BoxesOff(start, n)
    ensures var r := Store(Dull(c), t, ops, Num(n), env); r.Effect? && Tame(Env(r.scopes, r.mem), start, c, n) && Stays(env, Env(r.scopes, r.mem), n)
  {
    hide Tame, Stays, BoxesOff, AssignVar;
    match t
    case ToIdent(y) => DullIdent(y, env, start, c, n);
    case ToBlank => SameStays(env, n);
    case ToField(_, kind, _) => DullCell(Cell(ops[0], ByStar(kind)), env, start, c, n);
    case ToStar(_, kind) => DullCell(Cell(ops[0], ByStar(kind)), env, start, c, n);
    case ToIndex(_, _, elem, _) => DullCell(Cell(ops[0], ByIndex(ops[1], elem)), env, start, c, n);
  }

  lemma SameStays(env: Env, n: int)
    ensures Stays(env, env, n)
  {
  }

  // ---------- up to some target ----------

  lemma {:induction false} OperandsGrow(ts: seq<Target>, k: nat)
    requires k <= |ts|
    ensures |AllOperands(ts[..k])| <= |AllOperands(ts)| && AllOperands(ts[..k]) == AllOperands(ts)[..|AllOperands(ts[..k])|]
    ensures AllHolds(ts[..k]) == AllHolds(ts)[..|AllOperands(ts[..k])|]
    decreases |ts|
  {
    if k == |ts| {
      assert ts[..k] == ts;
    } else {
      var n := |ts| - 1;
      OperandsGrow(ts[..n], k);
      assert ts[..n][..k] == ts[..k];
    }
  }

  /** How many operands the first k targets have. */
  function CountTo(ts: seq<Target>, k: nat): (r: nat)
    requires k <= |ts|
    ensures r <= |AllOperands(ts)|
  {
    OperandsGrow(ts, k);
    |AllOperands(ts[..k])|
  }

  /** The stores of the first k targets. */
  ghost function Upto(w: World, ts: seq<Target>, ops: seq<Held>, values: seq<Held>, env: Env, k: nat): Effect
    requires |ops| == |AllOperands(ts)| && |values| == |ts| && k <= |ts|
  {
    StoreAllCurrent(w, ts[..k], ops[..CountTo(ts, k)], values[..k], env)
  }

  lemma UptoStep(w: World, ts: seq<Target>, ops: seq<Held>, values: seq<Held>, env: Env, k: nat)
    requires |ops| == |AllOperands(ts)| && |values| == |ts| && k < |ts|
    ensures CountTo(ts, k) + |Operands(ts[k])| == CountTo(ts, k + 1)
    ensures var b := Upto(w, ts, ops, values, env, k);
      Upto(w, ts, ops, values, env, k + 1)
      == if b.Aborted? then b else StoreCurrent(w, ts[k], ops[CountTo(ts, k)..CountTo(ts, k + 1)], values[k], Env(b.scopes, b.mem))
  {
    hide StoreCurrent, Operands;
    assert ts[..k + 1][..k] == ts[..k] && values[..k + 1][..k] == values[..k];
    var c, d := CountTo(ts, k), CountTo(ts, k + 1);
    assert ops[..d][..c] == ops[..c] && ops[..d][c..] == ops[c..d];
  }

  lemma UptoAll(w: World, ts: seq<Target>, ops: seq<Held>, values: seq<Held>, env: Env)
    requires |ops| == |AllOperands(ts)| && |values| == |ts|
    ensures Upto(w, ts, ops, values, env, |ts|) == StoreAllCurrent(w, ts, ops, values, env)
  {
    assert ts[..|ts|] == ts && values[..|ts|] == values && ops[..|ops|] == ops;
  }

  /** Values that are n all along. */
  ghost predicate AllN(values: seq<Held>, n: int) {
    forall i :: 0 <= i < |values| ==> values[i] == Plain(Num(n)) || (values[i].Views? && values[i].cell.base == Num(n + 1))
  }

  lemma DullNext(ts: seq<Target>, ops: seq<Held>, values: seq<Held>, env: Env, k: nat, start: Scopes, c: Value, n: int)
    requires |ops| == |AllOperands(ts)| && |values| == |ts| && k < |ts| && Large(c, n) && BoxesOff(start, n) && AllN(values, n)
    requires var b := Upto(Dull(c), ts, ops, values, env, k); b.Effect? && Tame(Env(b.scopes, b.mem), start, c, n)
    ensures var b, r := Upto(Dull(c), ts, ops, values, env, k), Upto(Dull(c), ts, ops, values, env, k + 1);
      r.Effect? && Tame(Env(r.scopes, r.mem), start, c, n) && Stays(Env(b.scopes, b.mem), Env(r.scopes, r.mem), n)
  {
    hide Stays, BoxesOff, Upto, CountTo, Dull, Operands, Store, Lookup;
    UptoStep(Dull(c), ts, ops, values, env, k);
    var b := Upto(Dull(c), ts, ops, values, env, k);
    assert Now(values[k], b.scopes, b.mem) == Num(n);
    hide Now, Tame;
    DullStore(ts[k], Nows(ops[CountTo(ts, k)..CountTo(ts, k + 1)], b.scopes, b.mem), Env(b.scopes, b.mem), start, c, n);
  }

  /** From one target to a later one. */
  lemma {:induction false} DullOn(ts: seq<Target>, ops: seq<Held>, values: seq<Held>, env: Env, from: nat, k: nat, start: Scopes, c: Value, n: int)
    requires |ops| == |AllOperands(ts)| && |values| == |ts| && from <= k <= |ts| && Large(c, n) && BoxesOff(start, n) && AllN(values, n)
    requires var b := Upto(Dull(c), ts, ops, values, env, from); b.Effect? && Tame(Env(b.scopes, b.mem), start, c, n)
    ensures var b, r := Upto(Dull(c), ts, ops, values, env, from), Upto(Dull(c), ts, ops, values, env, k);
      r.Effect? && Tame(Env(r.scopes, r.mem), start, c, n) && Stays(Env(b.scopes, b.mem), Env(r.scopes, r.mem), n)
    decreases k - from
  {
    hide Stays, BoxesOff, Upto, CountTo, Dull, Tame, AllN;
    var b := Upto(Dull(c), ts, ops, values, env, from);
    if from == k {
      SameStays(Env(b.scopes, b.mem), n);
    } else {
      DullOn(ts, ops, values, env, from, k - 1, start, c, n);
      DullNext(ts, ops, values, env, k - 1, start, c, n);
      var m, r := Upto(Dull(c), ts, ops, values, env, k - 1), Upto(Dull(c), ts, ops, values, env, k);
      StaysTwice(Env(b.scopes, b.mem), Env(m.scopes, m.mem), Env(r.scopes, r.mem), n);
    }
  }

  // ---------- a target that hits ----------

  /** What the type checker sees to: names are declared, and no number is followed, indexed or selected from. */
  predicate Declared(e: Expr, sc: RegScopes) {
    e.Ident? ==> LookupReg(sc, e.name).Some?
  }

  predicate Based(e: Expr, sc: RegScopes) {
    !e.Lit? && Declared(e, sc)
  }

  predicate TypedOperand(e: Expr, sc: RegScopes) {
    match e
    case Star(b, _) => Based(b, sc)
    case Index(b, i, _) => Based(b, sc) && Declared(i, sc)
    case _ => Declared(e, sc)
  }

  predicate TypedTarget(t: Target, sc: RegScopes) {
    && (forall o :: 0 <= o < |Operands(t)| ==> TypedOperand(Operands(t)[o], sc))
    && (|Operands(t)| > 0 ==> Based(Operands(t)[0], sc))
  }

  predicate Typed(ts: seq<Target>, sc: RegScopes) {
    forall i :: 0 <= i < |ts| ==> TypedTarget(ts[i], sc)
  }

  /** The variable whose box is to be met. */
  function SpecialOf(t: Target, s: Sight): Name {
    if t.ToIdent? then t.name else if s.OnBox? then s.name else ""
  }

  /** What everything is, for two indices to meet. */
  function CommonOf(t: Target, s: Sight): Value {
    if t.ToIndex? && s.OnElement? then Num(if t.index.Lit? then t.index.n else if s.index.Lit? then s.index.n else 0) else ZERO
  }

  function Vals(es: seq<Expr>, sc: RegScopes, c: Value): (r: seq<Value>)
    ensures |r| == |es| && forall i :: 0 <= i < |es| ==> r[i] == Val(es[i], sc, c)
  {
    seq(|es|, i requires 0 <= i < |es| => Val(es[i], sc, c))
  }

  ghost predicate TypedSight(s: Sight, sc: RegScopes) {
    match s
    case OnPointee(b, _) => Based(b, sc)
    case OnElement(b, i, _) => Based(b, sc) && Declared(i, sc)
    case _ => true
  }

  lemma IdentSets(y: Name, s: Sight, h: Held, v: Value, env: Env, sc: RegScopes, c: Value, n: int)
    requires Hits(ToIdent(y), s, sc) && TypedSight(s, sc) && Spotted(s, h, v, sc, y, c)
    requires PlacesKept(DullScopes(sc, y, c), env.scopes)
    ensures var r := AssignVar(env, y, Num(n)); Now(h, r.scopes, r.mem) == Num(n)
  {
    hide Lookup, LookupReg, AssignVar, DullScopes, LevelOf;
    DullLookup(sc, y, c, y);
    AssignMem(env, y, Num(n));
    AssignLookup(env, y, Num(n), y);
    var start := DullScopes(sc, y, c);
    assert if InRegister(Lookup(start, y)) then InRegister(Lookup(env.scopes, y)) else Lookup(env.scopes, y) == Lookup(start, y);
  }

  /** It sets what is seen to n. */
  lemma HitSets(t: Target, s: Sight, h: Held, v: Value, env: Env, sc: RegScopes, c: Value, n: int)
    requires Hits(t, s, sc) && TypedTarget(t, sc) && TypedSight(s, sc) && Spotted(s, h, v, sc, SpecialOf(t, s), c) && c == CommonOf(t, s)
    requires PlacesKept(DullScopes(sc, SpecialOf(t, s), c), env.scopes)
    ensures var r := Store(Dull(c), t, Vals(Operands(t), sc, c), Num(n), env); r.Effect? && Now(h, r.scopes, r.mem) == Num(n)
  {
    hide Lookup, LookupReg, AssignVar, DullScopes, LevelOf, PlacesKept;
    match t
    case ToIdent(y) => IdentSets(y, s, h, v, env, sc, c, n);
    case ToField(b, _, _) => assert Operands(t)[0] == b;
    case ToStar(b, _) => assert Operands(t)[0] == b;
    case ToIndex(b, i, _, _) =>
      assert Operands(t)[0] == b && Operands(t)[1] == i;
      assert TypedOperand(i, sc) && Declared(i, sc);
  }

  // ---------- a statement in that world ----------

  /** A statement's operands there. */
  ghost function OpsOf(ts: seq<Target>, sc: RegScopes, special: Name, c: Value, n: int): (r: seq<Held>)
    ensures |r| == |AllOperands(ts)|
  {
    DullHelds(AllOperands(ts), AllHolds(ts), sc, special, c, n)
  }

  ghost function StartOf(sc: RegScopes, special: Name, c: Value, n: int): Env {
    Env(DullScopes(sc, special, c), DullMem(c, n))
  }

  /** Numbers large enough for the statement. */
  ghost predicate Suits(ts: seq<Target>, c: Value, n: int) {
    Large(c, n) && AboveAll(AllOperands(ts)) <= n
  }

  lemma StartTame(sc: RegScopes, special: Name, c: Value, n: int)
    requires Large(c, n)
    ensures Tame(StartOf(sc, special, c, n), DullScopes(sc, special, c), c, n) && BoxesOff(DullScopes(sc, special, c), n)
  {
    hide Lookup, LookupReg, DullScopes, LevelOf;
    var start := DullScopes(sc, special, c);
    forall x ensures (InRegister(Lookup(start, x)) ==> Lookup(start, x).value.raw == c) && (IsBoxed(Lookup(start, x)) ==> Lookup(start, x).value.raw != Num(n + 1)) {
      DullLookup(sc, special, c, x);
    }
  }

  lemma OpsFit(ts: seq<Target>, sc: RegScopes, special: Name, c: Value, n: int)
    requires Suits(ts, c, n)
    ensures AllFit(AllOperands(ts), AllHolds(ts), OpsOf(ts, sc, special, c, n), sc, DullScopes(sc, special, c)) && Ordered(sc, DullScopes(sc, special, c))
  {
    hide DullScopes, DullMem, Dull, HoldAll, AllFit, SamePlaces, OwnBoxes, DullHelds;
    DullPlaces(sc, special, c);
    DullHold(AllOperands(ts), AllHolds(ts), sc, special, c, n);
    HoldFits(Dull(c), AllOperands(ts), AllHolds(ts), sc, DullScopes(sc, special, c), DullMem(c, n));
  }

  lemma DullShows(e: Expr, hold: Hold, sc: RegScopes, special: Name, c: Value, n: int)
    requires Large(c, n) && Above(e) <= n
    ensures Now(DullHeld(e, hold, sc, special, c, n), DullScopes(sc, special, c), DullMem(c, n)) == Val(e, sc, c)
  {
    DullSight(e, hold, sc, special, c, n);
    hide DullHeld, Lookup, LookupReg, DullScopes, LevelOf;
    var s := SightOf(e, hold, sc);
    if s.OnVariable? {
      DullLookup(sc, special, c, s.name);
    }
  }

  lemma OpsShow(ts: seq<Target>, sc: RegScopes, special: Name, c: Value, n: int)
    requires Suits(ts, c, n)
    ensures Nows(OpsOf(ts, sc, special, c, n), DullScopes(sc, special, c), DullMem(c, n)) == Vals(AllOperands(ts), sc, c)
  {
    hide Now, DullHeld, DullScopes, DullMem, Val;
    var es := AllOperands(ts);
    forall q | 0 <= q < |es| ensures Now(OpsOf(ts, sc, special, c, n)[q], DullScopes(sc, special, c), DullMem(c, n)) == Val(es[q], sc, c) {
      AboveEach(es, q);
      DullShows(es[q], AllHolds(ts)[q], sc, special, c, n);
    }
  }

  lemma OperandsAt(ts: seq<Target>, k: nat)
    requires k < |ts|
    ensures CountTo(ts, k) + |Operands(ts[k])| == CountTo(ts, k + 1)
    ensures var a, b := CountTo(ts, k), CountTo(ts, k + 1); AllOperands(ts)[a..b] == Operands(ts[k]) && AllHolds(ts)[a..b] == OperandHolds(ts[k])
  {
    hide Operands, OperandHolds;
    OperandsGrow(ts, k + 1);
    OperandsGrow(ts[..k + 1], k);
    assert ts[..k + 1][..k] == ts[..k];
    OperandsSplit(ts[..k + 1]);
    var a, b := CountTo(ts, k), CountTo(ts, k + 1);
    assert AllOperands(ts)[..b][a..] == AllOperands(ts)[a..b] && AllHolds(ts)[..b][a..] == AllHolds(ts)[a..b];
  }

  /** Operands nothing changes are what they were when their turn comes. */
  lemma AtTarget(ts: seq<Target>, values: seq<Held>, sc: RegScopes, special: Name, c: Value, n: int, k: nat)
    requires Suits(ts, c, n) && |values| == |ts| && k < |ts| && forall i, o :: !Disturbs(ts, sc, i, k, o)
    ensures var ops, start := OpsOf(ts, sc, special, c, n), StartOf(sc, special, c, n); var b := Upto(Dull(c), ts, ops, values, start, k);
      b.Effect? ==> CountTo(ts, k) <= CountTo(ts, k + 1) && Nows(ops[CountTo(ts, k)..CountTo(ts, k + 1)], b.scopes, b.mem) == Vals(Operands(ts[k]), sc, c)
  {
    hide Now, DullHeld, DullScopes, DullMem, Val, Dull, StoreAllCurrent, Hits, FitsAt, SamePlaces, OwnBoxes, Operands, OperandHolds;
    var ops, start := OpsOf(ts, sc, special, c, n), StartOf(sc, special, c, n);
    var a, d, b := CountTo(ts, k), CountTo(ts, k + 1), Upto(Dull(c), ts, ops, values, start, k);
    OperandsAt(ts, k);
    if b.Effect? {
      OpsShow(ts, sc, special, c, n);
      forall o | 0 <= o < |Operands(ts[k])| ensures Now(ops[a..d][o], b.scopes, b.mem) == Val(Operands(ts[k])[o], sc, c) {
        OperandAtTarget(ts, values, sc, special, c, n, k, o);
        assert AllOperands(ts)[a..d][o] == AllOperands(ts)[a + o];
        assert Nows(ops, start.scopes, start.mem)[a + o] == Val(AllOperands(ts)[a + o], sc, c);
      }
    }
  }

  lemma OperandAtTarget(ts: seq<Target>, values: seq<Held>, sc: RegScopes, special: Name, c: Value, n: int, k: nat, o: nat)
    requires Suits(ts, c, n) && |values| == |ts| && k < |ts| && o < |Operands(ts[k])| && forall i :: !Disturbs(ts, sc, i, k, o)
    ensures var ops, start := OpsOf(ts, sc, special, c, n), StartOf(sc, special, c, n);
      && CountTo(ts, k) + o < |ops|
      && var b := Upto(Dull(c), ts, ops, values, start, k);
         b.Effect? ==> Now(ops[CountTo(ts, k) + o], b.scopes, b.mem) == Now(ops[CountTo(ts, k) + o], start.scopes, start.mem)
  {
    hide Now, DullHeld, DullScopes, DullMem, Dull, StoreAllCurrent, Hits, FitsAt, SamePlaces, OwnBoxes, Operands, OperandHolds, OperandSight;
    var ops, start, cut := OpsOf(ts, sc, special, c, n), StartOf(sc, special, c, n), ts[..k + 1];
    OpsFit(ts, sc, special, c, n);
    OperandsAt(ts, k);
    OperandsGrow(ts, k + 1);
    var d := CountTo(ts, k + 1);
    FitSplit(AllOperands(ts), AllHolds(ts), ops, sc, start.scopes, d);
    assert cut[..k] == ts[..k] && values[..k + 1][..k] == values[..k] && ops[..d][..CountTo(ts, k)] == ops[..CountTo(ts, k)];
    forall i | 0 <= i < k ensures !Disturbs(cut, sc, i, k, o) {
      assert !Disturbs(ts, sc, i, k, o);
    }
    OperandKept(Dull(c), cut, ops[..d], values[..k + 1], start, sc, k, o);
  }

  /** What a target hits is n from then on. */
  lemma HitStays(ts: seq<Target>, values: seq<Held>, sc: RegScopes, n: int, i: nat, k: nat, s: Sight, h: Held, v: Value)
    requires i < k <= |ts| && |values| == |ts| && AllN(values, n) && Typed(ts, sc) && Hits(ts[i], s, sc) && TypedSight(s, sc)
    requires Suits(ts, CommonOf(ts[i], s), n) && Spotted(s, h, v, sc, SpecialOf(ts[i], s), CommonOf(ts[i], s))
    requires forall l, o :: !Disturbs(ts, sc, l, i, o)
    ensures var c, special := CommonOf(ts[i], s), SpecialOf(ts[i], s);
      var b := Upto(Dull(c), ts, OpsOf(ts, sc, special, c, n), values, StartOf(sc, special, c, n), k);
      b.Effect? && Tame(Env(b.scopes, b.mem), DullScopes(sc, special, c), c, n) && Now(h, b.scopes, b.mem) == Num(n)
  {
    hide Hits, TypedTarget, TypedSight, Spotted, CommonOf, SpecialOf, Suits, Dull, DullScopes, DullMem, Upto, OpsOf, StartOf, CountTo, Lookup, Store, Operands, BoxesOff, Disturbs;
    var c, special := CommonOf(ts[i], s), SpecialOf(ts[i], s);
    var ops, start := OpsOf(ts, sc, special, c, n), StartOf(sc, special, c, n);
    assert Large(c, n) by { SuitsLarge(ts, c, n); }
    StartTame(sc, special, c, n);
    UptoNone(Dull(c), ts, ops, values, start);
    DullOn(ts, ops, values, start, 0, i, DullScopes(sc, special, c), c, n);
    var b := Upto(Dull(c), ts, ops, values, start, i);
    AtTarget(ts, values, sc, special, c, n, i);
    UptoStep(Dull(c), ts, ops, values, start, i);
    assert Now(values[i], b.scopes, b.mem) == Num(n);
    assert TypedTarget(ts[i], sc);
    HitSets(ts[i], s, h, v, Env(b.scopes, b.mem), sc, c, n);
    DullNext(ts, ops, values, start, i, DullScopes(sc, special, c), c, n);
    DullOn(ts, ops, values, start, i + 1, k, DullScopes(sc, special, c), c, n);
    var d, e := Upto(Dull(c), ts, ops, values, start, i + 1), Upto(Dull(c), ts, ops, values, start, k);
    HitIsHeld(ts[i], s, h, v, sc, special, c);
    SeenStays(h, Env(d.scopes, d.mem), Env(e.scopes, e.mem), s, v, sc, special, c, n);
  }

  lemma HitIsHeld(t: Target, s: Sight, h: Held, v: Value, sc: RegScopes, special: Name, c: Value)
    requires Hits(t, s, sc) && Spotted(s, h, v, sc, special, c)
    ensures !h.Plain?
  {
    hide LookupReg;
  }

  lemma SuitsLarge(ts: seq<Target>, c: Value, n: int)
    requires Suits(ts, c, n)
    ensures Large(c, n)
  {
  }

  lemma UptoNone(w: World, ts: seq<Target>, ops: seq<Held>, values: seq<Held>, env: Env)
    requires |ops| == |AllOperands(ts)| && |values| == |ts|
    ensures Upto(w, ts, ops, values, env, 0) == Effect(env.scopes, env.mem)
  {
  }

  lemma SeenStays(h: Held, a: Env, b: Env, s: Sight, v: Value, sc: RegScopes, special: Name, c: Value, n: int)
    requires Stays(a, b, n) && Now(h, a.scopes, a.mem) == Num(n) && !h.Plain? && Spotted(s, h, v, sc, special, c) && Large(c, n)
    requires PlacesKept(DullScopes(sc, special, c), a.scopes)
    ensures Now(h, b.scopes, b.mem) == Num(n)
  {
    hide Lookup, LookupReg, Load, DullScopes, LevelOf;
    if h.Follows? {
      DullLookup(sc, special, c, h.name);
      var start := DullScopes(sc, special, c);
      assert InRegister(Lookup(start, h.name));
      assert IsN(Lookup(a.scopes, h.name), n);
    }
  }

  // ---------- an operand that is changed ----------

  /** A cell that Go has no business with. */
  predicate Odd(cell: Cell, n: int) {
    cell.base != Num(n + 1) && (cell.base == Num(n) || (cell.selector.ByIndex? && cell.selector.index == Num(n)))
  }

  ghost predicate LeftAlone(mem: Memory, c: Value, n: int) {
    forall cell: Cell :: Odd(cell, n) ==> Load(mem, cell) == c
  }

  /** Go leaves those cells alone. */
  lemma {:induction false} GoRun(ts: seq<Target>, ops: seq<Value>, values: seq<Value>, env: Env, start: Scopes, c: Value, n: int)
    requires |ops| == |AllOperands(ts)| && |values| == |ts| && LeftAlone(env.mem, c, n) && PlacesKept(start, env.scopes) && Num(n) !in ops
    requires forall x :: IsBoxed(Lookup(start, x)) ==> Lookup(start, x).value.raw != Num(n)
    ensures var r := StoreAll(Dull(c), ts, ops, values, env); r.Effect? && LeftAlone(r.mem, c, n) && PlacesKept(start, r.scopes)
    decreases |ts|
  {
    hide Store, LeftAlone, PlacesKept, Dull, Lookup, Operands;
    if ts != [] {
      var m := |ts| - 1;
      var k := |AllOperands(ts[..m])|;
      GoRun(ts[..m], ops[..k], values[..m], env, start, c, n);
      var b := StoreAll(Dull(c), ts[..m], ops[..k], values[..m], env);
      GoStore(ts[m], ops[k..], values[m], Env(b.scopes, b.mem), start, c, n);
    }
  }

  lemma GoStore(t: Target, ops: seq<Value>, v: Value, env: Env, start: Scopes, c: Value, n: int)
    requires |ops| == |Operands(t)| && LeftAlone(env.mem, c, n) && PlacesKept(start, env.scopes) && Num(n) !in ops
    requires forall x :: IsBoxed(Lookup(start, x)) ==> Lookup(start, x).value.raw != Num(n)
    ensures var r := Store(Dull(c), t, ops, v, env); r.Effect? && LeftAlone(r.mem, c, n) && PlacesKept(start, r.scopes)
  {
    hide AssignVar, Lookup, PlacesKept;
    assert Store(Dull(c), t, ops, v, env).Effect?;
    StorePlaces(Dull(c), t, ops, v, env, start);
    match t
    case ToIdent(y) =>
      AssignMem(env, y, v);
      BoxStays(env.scopes, start, y);
    case ToBlank =>
    case ToField(_, _, _) => assert ops[0] in ops;
    case ToStar(_, _) => assert ops[0] in ops;
    case ToIndex(_, _, _, _) => assert ops[0] in ops && ops[1] in ops;
  }

  lemma BoxStays(now: Scopes, start: Scopes, y: Name)
    requires PlacesKept(start, now)
    ensures IsBoxed(Lookup(now, y)) ==> Lookup(now, y) == Lookup(start, y)
  {
    hide Lookup;
  }

  /** Nothing held is at n + 1. */
  lemma OperandLow(s: Sight, h: Held, v: Value, env: Env, sc: RegScopes, special: Name, c: Value, n: int)
    requires Spotted(s, h, v, sc, special, c) && Large(c, n) && v != Num(n + 1) && Tame(env, DullScopes(sc, special, c), c, n)
    ensures Now(h, env.scopes, env.mem) != Num(n + 1)
  {
    hide Lookup, LookupReg, DullScopes, LevelOf;
    if h.Follows? {
      DullLookup(sc, special, c, h.name);
      assert InRegister(Lookup(DullScopes(sc, special, c), h.name));
    }
  }

  /** A store with a wrong operand writes such a cell. */
  lemma OddStore(t: Target, ops: seq<Value>, env: Env, c: Value, n: int, o: nat) returns (cell: Cell)
    requires |ops| == |Operands(t)| && o < |ops| && ops[o] == Num(n) && ops[0] != Num(n + 1)
    ensures var r := Store(Dull(c), t, ops, Num(n), env); r.Effect? && Odd(cell, n) && Load(r.mem, cell) == Num(n)
  {
    cell := Cell(ops[o], ByStar(0));
    match t
    case ToIdent(_) => assert false;
    case ToBlank => assert false;
    case ToField(_, kind, _) => cell := Cell(ops[0], ByStar(kind));
    case ToStar(_, kind) => cell := Cell(ops[0], ByStar(kind));
    case ToIndex(_, _, elem, _) => cell := Cell(ops[0], ByIndex(ops[1], elem));
  }
}

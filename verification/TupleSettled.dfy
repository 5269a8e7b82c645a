/** When a tuple assignment has Go's meaning: no target stores where something held for a later one is still to be read. */
module TupleSettled {
  import opened Wrappers
  import opened GoAssign
  import opened AssignLowering
  import opened AssignTrace
  import opened TupleHeld
  import opened TupleLowering
  import ShortVarLate

  // ---------- the condition ----------

  /** What is held, as text: a value, the register of a variable, or a view of a box, a pointee or an element. */
  datatype Sight = Nowhere | OnVariable(name: Name) | OnBox(name: Name, kind: Kind) | OnPointee(base: Expr, kind: Kind) | OnElement(base: Expr, index: Expr, kind: Kind)

  function SightOf(e: Expr, hold: Hold, sc: RegScopes): Sight {
    if hold.Copy? then Nowhere
    else match e
      case Ident(x) =>
        (match LookupReg(sc, x)
         case Some(p) => if p.box.Some? then OnBox(x, p.box.value) else if hold.Keep? then OnVariable(x) else Nowhere
         case None => Nowhere)
      case Star(b, kind) => OnPointee(b, kind)
      case Index(b, i, elem) => if elem.Listed? then OnElement(b, i, elem.kind) else Nowhere
      case _ => Nowhere
  }

  /** Two expressions may have one value, unless they are different numbers. */
  predicate Meets(a: Expr, b: Expr) {
    !(a.Lit? && b.Lit? && a.n != b.n)
  }

  /** A store through a pointer may change what is seen. */
  predicate HitsPointee(b: Expr, kind: Kind, s: Sight) {
    (s.OnBox? && s.kind == kind) || (s.OnPointee? && s.kind == kind && Meets(b, s.base))
  }

  /** A store to the target may change what is seen. */
  predicate Hits(t: Target, s: Sight, sc: RegScopes) {
    match t
    case ToBlank => false
    case ToIdent(y) =>
      (match LookupReg(sc, y)
       case Some(p) => if p.box.None? then s == OnVariable(y) else s == OnBox(y, p.box.value) || (s.OnPointee? && s.kind == p.box.value)
       case None => false)
    case ToField(b, kind, _) => HitsPointee(b, kind, s)
    case ToStar(b, kind) => HitsPointee(b, kind, s)
    case ToIndex(b, i, elem, _) => s.OnElement? && elem == Listed(s.kind) && Meets(b, s.base) && Meets(i, s.index)
  }

  function OperandSight(t: Target, o: nat, sc: RegScopes): Sight
    requires o < |Operands(t)|
  {
    SightOf(Operands(t)[o], OperandHolds(t)[o], sc)
  }

  /** Target i may change operand o of target j. */
  predicate Disturbs(ts: seq<Target>, sc: RegScopes, i: nat, j: nat, o: nat) {
    i < j < |ts| && o < |Operands(ts[j])| && Hits(ts[i], OperandSight(ts[j], o, sc), sc)
  }

  /** No target changes an operand of a later one. */
  ghost predicate OperandsSettled(ts: seq<Target>, sc: RegScopes) {
    forall i, j, o :: !Disturbs(ts, sc, i, j, o)
  }

  function ValueSight(e: Expr, ref: bool, sc: RegScopes): Sight {
    SightOf(e, ValueHold(e, ref), sc)
  }

  /** No target changes a value a later one stores. */
  ghost predicate ValuesSettled(ts: seq<Target>, rhs: seq<Expr>, refs: seq<bool>, sc: RegScopes)
    requires |ts| == |rhs| == |refs|
  {
    forall i, j :: 0 <= i < j < |ts| && !ts[j].ToBlank? ==> !Hits(ts[i], ValueSight(rhs[j], refs[j], sc), sc)
  }

  // ---------- what the state makes of it ----------

  /** Variables are in registers or boxes as the compiler has them. */
  ghost predicate SamePlaces(sc: RegScopes, scopes: Scopes) {
    forall x :: match LookupReg(sc, x)
      case Some(p) => Lookup(scopes, x).Some? && Lookup(scopes, x).value.box == p.box
      case None => Lookup(scopes, x).None?
  }

  lemma PlacesAgree(sc: RegScopes, scopes: Scopes, regs: map<Reg, Value>, next: Reg)
    requires Agree(sc, scopes, regs) && Live(sc, next)
    ensures SamePlaces(sc, scopes)
  {
    hide Agree, Live, Lookup, LookupReg;
    forall x
      ensures match LookupReg(sc, x)
        case Some(p) => Lookup(scopes, x).Some? && Lookup(scopes, x).value.box == p.box
        case None => Lookup(scopes, x).None?
    {
      LookupAgrees(sc, scopes, regs, next, x);
    }
  }

  predicate IsBoxed(s: Option<Slot>) {
    s.Some? && s.value.box.Some?
  }

  /** Every variable in sight has a box of its own. */
  ghost predicate OwnBoxes(scopes: Scopes) {
    forall x, y :: IsBoxed(Lookup(scopes, x)) && IsBoxed(Lookup(scopes, y)) && BoxOf(Lookup(scopes, x).value) == BoxOf(Lookup(scopes, y).value) ==> x == y
  }

  lemma {:induction false} FoundAt(scopes: Scopes, x: Name) returns (k: nat)
    requires Lookup(scopes, x).Some?
    ensures k < |scopes| && x in scopes[k] && scopes[k][x] == Lookup(scopes, x).value
    decreases |scopes|
  {
    var n := |scopes| - 1;
    if x in scopes[n] {
      k := n;
    } else {
      k := FoundAt(scopes[..n], x);
    }
  }

  lemma ApartOwns(scopes: Scopes)
    requires ShortVarLate.Apart(scopes)
    ensures OwnBoxes(scopes)
  {
    hide Lookup;
    forall x, y | IsBoxed(Lookup(scopes, x)) && IsBoxed(Lookup(scopes, y)) && BoxOf(Lookup(scopes, x).value) == BoxOf(Lookup(scopes, y).value) ensures x == y {
      var k := FoundAt(scopes, x);
      var l := FoundAt(scopes, y);
      assert ShortVarLate.HasBox(scopes, k, x) && ShortVarLate.HasBox(scopes, l, y);
    }
  }

  /** Variables stay where they are, and boxes of variables too. */
  ghost predicate PlacesKept(before: Scopes, after: Scopes) {
    forall x :: if InRegister(Lookup(before, x)) then InRegister(Lookup(after, x)) else Lookup(after, x) == Lookup(before, x)
  }

  /** What is held is what the text says. */
  ghost predicate Sees(s: Sight, h: Held, scopes: Scopes) {
    match s
    case Nowhere => h.Plain?
    case OnVariable(x) => h == Follows(x)
    case OnBox(x, kind) => IsBoxed(Lookup(scopes, x)) && Lookup(scopes, x).value.box == Some(kind) && h == Views(BoxOf(Lookup(scopes, x).value))
    case OnPointee(b, kind) => h.Views? && h.cell.selector == ByStar(kind) && (b.Lit? ==> h.cell.base == Num(b.n))
    case OnElement(b, i, kind) =>
      && h.Views? && h.cell.selector.ByIndex? && h.cell.selector.elem == Listed(kind)
      && (b.Lit? ==> h.cell.base == Num(b.n)) && (i.Lit? ==> h.cell.selector.index == Num(i.n))
  }

  ghost predicate FitsAt(e: Expr, hold: Hold, h: Held, sc: RegScopes, scopes: Scopes) {
    Sees(SightOf(e, hold, sc), h, scopes) && (e.Lit? ==> h == Plain(Num(e.n)))
  }

  ghost predicate AllFit(es: seq<Expr>, holds: seq<Hold>, hs: seq<Held>, sc: RegScopes, scopes: Scopes) {
    |es| == |holds| == |hs| && forall i :: 0 <= i < |es| ==> FitsAt(es[i], holds[i], hs[i], sc, scopes)
  }

  lemma HeldFits(w: World, e: Expr, hold: Hold, sc: RegScopes, scopes: Scopes, mem: Memory)
    requires SamePlaces(sc, scopes) && Eval(w, e, scopes, mem).Returned?
    ensures FitsAt(e, hold, HeldAs(w, e, hold, scopes, mem, Eval(w, e, scopes, mem).value), sc, scopes)
  {
    hide Lookup, LookupReg;
    match e
    case Ident(x) => assert match LookupReg(sc, x) case Some(p) => Lookup(scopes, x).Some? && Lookup(scopes, x).value.box == p.box case None => Lookup(scopes, x).None?;
    case _ =>
  }

  lemma {:induction false} HoldFits(w: World, es: seq<Expr>, holds: seq<Hold>, sc: RegScopes, scopes: Scopes, mem: Memory)
    requires |holds| == |es| && SamePlaces(sc, scopes)
    ensures var r := HoldAll(w, es, holds, scopes, mem); r.AllHeld? ==> AllFit(es, holds, r.held, sc, scopes)
    decreases |es|
  {
    hide SamePlaces, Eval, HeldAs, FitsAt;
    if es != [] {
      var n := |es| - 1;
      HoldFits(w, es[..n], holds[..n], sc, scopes, mem);
      var front, r := HoldAll(w, es[..n], holds[..n], scopes, mem), HoldAll(w, es, holds, scopes, mem);
      if r.AllHeld? {
        HeldFits(w, es[n], holds[n], sc, scopes, front.mem);
        forall i | 0 <= i < |es| ensures FitsAt(es[i], holds[i], r.held[i], sc, scopes) {
          if i < n {
            assert FitsAt(es[..n][i], holds[..n][i], front.held[i], sc, scopes);
          }
        }
      }
    }
  }

  lemma FitSplit(es: seq<Expr>, holds: seq<Hold>, hs: seq<Held>, sc: RegScopes, scopes: Scopes, k: nat)
    requires AllFit(es, holds, hs, sc, scopes) && k <= |es|
    ensures |holds| == |es| == |hs|
    ensures AllFit(es[..k], holds[..k], hs[..k], sc, scopes) && AllFit(es[k..], holds[k..], hs[k..], sc, scopes)
  {
    hide FitsAt;
  }

  // ---------- a store that hits nothing in sight ----------

  /** An assignment to a variable, as far as memory goes. */
  lemma {:induction false} AssignMem(env: Env, y: Name, v: Value)
    ensures var s := Lookup(env.scopes, y); AssignVar(env, y, v).mem == if IsBoxed(s) then env.mem[BoxOf(s.value) := v] else env.mem
    decreases |env.scopes|
  {
    if env.scopes != [] && y !in env.scopes[|env.scopes| - 1] {
      AssignMem(env.(scopes := env.scopes[..|env.scopes| - 1]), y, v);
    }
  }

  /** And as far as variables go. */
  lemma {:induction false} AssignLookup(env: Env, y: Name, v: Value, x: Name)
    ensures var s := Lookup(env.scopes, x);
      Lookup(AssignVar(env, y, v).scopes, x) == if x == y && InRegister(s) then Some(Slot(v, None, s.value.result)) else s
    decreases |env.scopes|
  {
    if env.scopes != [] {
      var n := |env.scopes| - 1;
      var r := AssignVar(env, y, v).scopes;
      if y in env.scopes[n] {
        assert r == env.scopes || r[..n] == env.scopes[..n];
      } else {
        var outer := AssignVar(env.(scopes := env.scopes[..n]), y, v);
        AssignLookup(env.(scopes := env.scopes[..n]), y, v, x);
        assert r[..n] == outer.scopes;
      }
    }
  }

  lemma StorePlaces(w: World, t: Target, ops: seq<Value>, v: Value, env: Env, start: Scopes)
    requires |ops| == |Operands(t)| && Store(w, t, ops, v, env).Effect? && PlacesKept(start, env.scopes)
    ensures PlacesKept(start, Store(w, t, ops, v, env).scopes)
  {
    hide Lookup, AssignVar;
    var r := Store(w, t, ops, v, env);
    if t.ToIdent? {
      forall x ensures if InRegister(Lookup(start, x)) then InRegister(Lookup(r.scopes, x)) else Lookup(r.scopes, x) == Lookup(start, x) {
        AssignLookup(env, t.name, v, x);
      }
    }
  }

  /** The operands that are numbers are those numbers. */
  ghost predicate Numbers(es: seq<Expr>, values: seq<Value>) {
    |es| == |values| && forall i :: 0 <= i < |es| && es[i].Lit? ==> values[i] == Num(es[i].n)
  }

  lemma IdentKeeps(w: World, y: Name, v: Value, env: Env, h: Held, s: Sight, sc: RegScopes, start: Scopes)
    requires !Hits(ToIdent(y), s, sc) && Sees(s, h, start) && SamePlaces(sc, start) && OwnBoxes(start) && PlacesKept(start, env.scopes)
    ensures var r := AssignVar(env, y, v); Now(h, r.scopes, r.mem) == Now(h, env.scopes, env.mem)
  {
    hide Lookup, LookupReg, AssignVar;
    AssignMem(env, y, v);
    assert match LookupReg(sc, y) case Some(p) => Lookup(start, y).Some? && Lookup(start, y).value.box == p.box case None => Lookup(start, y).None?;
    assert if InRegister(Lookup(start, y)) then InRegister(Lookup(env.scopes, y)) else Lookup(env.scopes, y) == Lookup(start, y);
    if h.Follows? {
      AssignLookup(env, y, v, h.name);
    }
  }

  /** A store that hits nothing in sight leaves it as it was. */
  lemma StoreKeeps(w: World, t: Target, ops: seq<Value>, v: Value, env: Env, h: Held, s: Sight, sc: RegScopes, start: Scopes)
    requires !Hits(t, s, sc) && Sees(s, h, start) && SamePlaces(sc, start) && OwnBoxes(start) && PlacesKept(start, env.scopes)
    requires Numbers(Operands(t), ops) && Store(w, t, ops, v, env).Effect?
    ensures var r := Store(w, t, ops, v, env); Now(h, r.scopes, r.mem) == Now(h, env.scopes, env.mem)
  {
    hide Lookup, LookupReg, AssignVar, SamePlaces, OwnBoxes, PlacesKept;
    match t
    case ToIdent(y) => IdentKeeps(w, y, v, env, h, s, sc, start);
    case ToBlank =>
    case ToField(b, _, _) => assert Operands(t)[0] == b;
    case ToStar(b, _) => assert Operands(t)[0] == b;
    case ToIndex(b, i, _, _) => assert Operands(t)[0] == b && Operands(t)[1] == i;
  }

  lemma NumbersNow(es: seq<Expr>, holds: seq<Hold>, hs: seq<Held>, sc: RegScopes, start: Scopes, scopes: Scopes, mem: Memory)
    requires AllFit(es, holds, hs, sc, start)
    ensures Numbers(es, Nows(hs, scopes, mem))
  {
    hide Sees;
    forall i | 0 <= i < |es| && es[i].Lit? ensures Nows(hs, scopes, mem)[i] == Num(es[i].n) {
      assert FitsAt(es[i], holds[i], hs[i], sc, start);
    }
  }

  /** The state a statement's stores start in. */
  ghost predicate Ordered(sc: RegScopes, scopes: Scopes) {
    SamePlaces(sc, scopes) && OwnBoxes(scopes)
  }

  /** What no target hits is the same after all of them. */
  lemma {:induction false} KeptThrough(w: World, ts: seq<Target>, ops: seq<Held>, values: seq<Held>, env: Env, h: Held, s: Sight, sc: RegScopes)
    requires |values| == |ts| && AllFit(AllOperands(ts), AllHolds(ts), ops, sc, env.scopes) && Ordered(sc, env.scopes)
    requires Sees(s, h, env.scopes) && forall i :: 0 <= i < |ts| ==> !Hits(ts[i], s, sc)
    ensures var r := StoreAllCurrent(w, ts, ops, values, env);
      r.Effect? ==> PlacesKept(env.scopes, r.scopes) && Now(h, r.scopes, r.mem) == Now(h, env.scopes, env.mem)
    decreases |ts|
  {
    hide Store, Sees, FitsAt, Hits, PlacesKept, Operands, OperandHolds, SamePlaces, OwnBoxes, Now;
    if ts == [] {
      SamePlacesKept(env.scopes);
    } else {
      var n := |ts| - 1;
      var k := |AllOperands(ts[..n])|;
      OperandsSplit(ts);
      FitSplit(AllOperands(ts), AllHolds(ts), ops, sc, env.scopes, k);
      KeptThrough(w, ts[..n], ops[..k], values[..n], env, h, s, sc);
      var b := StoreAllCurrent(w, ts[..n], ops[..k], values[..n], env);
      if b.Effect? {
        var now, v := Nows(ops[k..], b.scopes, b.mem), Now(values[n], b.scopes, b.mem);
        NumbersNow(Operands(ts[n]), OperandHolds(ts[n]), ops[k..], sc, env.scopes, b.scopes, b.mem);
        if Store(w, ts[n], now, v, Env(b.scopes, b.mem)).Effect? {
          StoreKeeps(w, ts[n], now, v, Env(b.scopes, b.mem), h, s, sc, env.scopes);
          StorePlaces(w, ts[n], now, v, Env(b.scopes, b.mem), env.scopes);
        }
      }
    }
  }

  lemma SamePlacesKept(scopes: Scopes)
    ensures PlacesKept(scopes, scopes)
  {
  }

  // ---------- a settled statement ----------

  lemma SettledPrefix(ts: seq<Target>, sc: RegScopes)
    requires ts != [] && OperandsSettled(ts, sc)
    ensures OperandsSettled(ts[..|ts| - 1], sc)
  {
    hide Hits, OperandSight, Operands;
    var n := |ts| - 1;
    forall i, j, o ensures !Disturbs(ts[..n], sc, i, j, o) {
      assert !Disturbs(ts, sc, i, j, o);
    }
  }

  /** Values that no earlier target changes, or that are dropped. */
  ghost predicate ValuesFit(ts: seq<Target>, values: seq<Held>, sights: seq<Sight>, sc: RegScopes, scopes: Scopes) {
    && |values| == |ts| == |sights| && (forall j :: 0 <= j < |ts| ==> Sees(sights[j], values[j], scopes))
    && (forall i, j :: 0 <= i < j < |ts| && !ts[j].ToBlank? ==> !Hits(ts[i], sights[j], sc))
  }

  lemma ValuesPrefix(ts: seq<Target>, values: seq<Held>, sights: seq<Sight>, sc: RegScopes, scopes: Scopes)
    requires ts != [] && ValuesFit(ts, values, sights, sc, scopes)
    ensures var n := |ts| - 1; ValuesFit(ts[..n], values[..n], sights[..n], sc, scopes)
  {
    hide Hits, Sees;
  }

  /** The last target's operands are what they were. */
  lemma LastOperands(w: World, ts: seq<Target>, ops: seq<Held>, values: seq<Held>, env: Env, sc: RegScopes)
    requires |values| == |ts| && ts != [] && AllFit(AllOperands(ts), AllHolds(ts), ops, sc, env.scopes) && Ordered(sc, env.scopes) && OperandsSettled(ts, sc)
    ensures var n, k := |ts| - 1, |AllOperands(ts[..|ts| - 1])|;
      && k <= |ops| && |ops[k..]| == |Operands(ts[n])|
      && var b := StoreAllCurrent(w, ts[..n], ops[..k], values[..n], env); b.Effect? ==> Nows(ops[k..], b.scopes, b.mem) == Nows(ops[k..], env.scopes, env.mem)
  {
    hide StoreAllCurrent, FitsAt, Hits, Operands, OperandHolds, SamePlaces, OwnBoxes, Now;
    var n, k := |ts| - 1, |AllOperands(ts[..|ts| - 1])|;
    OperandsSplit(ts);
    FitSplit(AllOperands(ts), AllHolds(ts), ops, sc, env.scopes, k);
    var b := StoreAllCurrent(w, ts[..n], ops[..k], values[..n], env);
    if b.Effect? {
      forall o | 0 <= o < |ops[k..]| ensures Now(ops[k..][o], b.scopes, b.mem) == Now(ops[k..][o], env.scopes, env.mem) {
        OperandKept(w, ts, ops, values, env, sc, n, o);
      }
    }
  }

  lemma OperandKept(w: World, ts: seq<Target>, ops: seq<Held>, values: seq<Held>, env: Env, sc: RegScopes, n: nat, o: nat)
    requires |values| == |ts| == n + 1 && AllFit(AllOperands(ts), AllHolds(ts), ops, sc, env.scopes) && Ordered(sc, env.scopes)
    requires o < |Operands(ts[n])| && forall i :: 0 <= i < n ==> !Disturbs(ts, sc, i, n, o)
    ensures var k := |AllOperands(ts[..n])|;
      && k + o < |ops| && var b := StoreAllCurrent(w, ts[..n], ops[..k], values[..n], env);
         b.Effect? ==> Now(ops[k + o], b.scopes, b.mem) == Now(ops[k + o], env.scopes, env.mem)
  {
    hide StoreAllCurrent, Sees, Hits, Operands, OperandHolds, SamePlaces, OwnBoxes, Now;
    var k := |AllOperands(ts[..n])|;
    OperandsSplit(ts);
    FitSplit(AllOperands(ts), AllHolds(ts), ops, sc, env.scopes, k);
    var s := OperandSight(ts[n], o, sc);
    assert FitsAt(AllOperands(ts)[k..][o], AllHolds(ts)[k..][o], ops[k..][o], sc, env.scopes);
    forall i | 0 <= i < n ensures !Hits(ts[..n][i], s, sc) {
      assert !Disturbs(ts, sc, i, n, o);
    }
    KeptThrough(w, ts[..n], ops[..k], values[..n], env, ops[k + o], s, sc);
  }

  /** Stores with what is held as it is by then are stores with what it was at first. */
  lemma {:induction false} CurrentIsFirst(w: World, ts: seq<Target>, ops: seq<Held>, values: seq<Held>, sights: seq<Sight>, env: Env, sc: RegScopes)
    requires AllFit(AllOperands(ts), AllHolds(ts), ops, sc, env.scopes) && Ordered(sc, env.scopes) && OperandsSettled(ts, sc)
    requires ValuesFit(ts, values, sights, sc, env.scopes)
    ensures StoreAllCurrent(w, ts, ops, values, env)
         == StoreAll(w, ts, Nows(ops, env.scopes, env.mem), Nows(values, env.scopes, env.mem), env)
    decreases |ts|
  {
    hide Store, Sees, FitsAt, Hits, Operands, OperandHolds, SamePlaces, OwnBoxes, Now, OperandsSettled;
    if ts != [] {
      var n := |ts| - 1;
      var k := |AllOperands(ts[..n])|;
      OperandsSplit(ts);
      FitSplit(AllOperands(ts), AllHolds(ts), ops, sc, env.scopes, k);
      SettledPrefix(ts, sc);
      ValuesPrefix(ts, values, sights, sc, env.scopes);
      CurrentIsFirst(w, ts[..n], ops[..k], values[..n], sights[..n], env, sc);
      LastOperands(w, ts, ops, values, env, sc);
      assert Nows(ops, env.scopes, env.mem)[..k] == Nows(ops[..k], env.scopes, env.mem);
      assert Nows(ops, env.scopes, env.mem)[k..] == Nows(ops[k..], env.scopes, env.mem);
      assert Nows(values, env.scopes, env.mem)[..n] == Nows(values[..n], env.scopes, env.mem);
      var b := StoreAllCurrent(w, ts[..n], ops[..k], values[..n], env);
      if b.Effect? {
        if ts[n].ToBlank? {
          BlankStore(w, ts[n], ops[k..], values[n], Env(b.scopes, b.mem), Now(values[n], env.scopes, env.mem));
        } else {
          forall i | 0 <= i < n ensures !Hits(ts[..n][i], sights[n], sc) {
            assert !Hits(ts[i], sights[n], sc);
          }
          KeptThrough(w, ts[..n], ops[..k], values[..n], env, values[n], sights[n], sc);
        }
      }
    }
  }

  lemma BlankStore(w: World, t: Target, ops: seq<Held>, value: Held, env: Env, v: Value)
    requires t.ToBlank? && |ops| == |Operands(t)|
    ensures StoreCurrent(w, t, ops, value, env) == Store(w, t, Nows(ops, env.scopes, env.mem), v, env)
  {
  }

  function ValueSights(rhs: seq<Expr>, refs: seq<bool>, sc: RegScopes): (r: seq<Sight>)
    requires |rhs| == |refs|
    ensures |r| == |rhs| && forall i :: 0 <= i < |rhs| ==> r[i] == ValueSight(rhs[i], refs[i], sc)
  {
    seq(|rhs|, i requires 0 <= i < |rhs| => ValueSight(rhs[i], refs[i], sc))
  }

  /** If nothing held is changed before it is used, what the code does is Go's meaning. */
  lemma SettledIsGo(w: World, ts: seq<Target>, rhs: seq<Expr>, refs: seq<bool>, sc: RegScopes, scopes: Scopes, mem: Memory)
    requires |ts| == |rhs| == |refs| && Ordered(sc, scopes) && OperandsSettled(ts, sc) && ValuesSettled(ts, rhs, refs, sc)
    ensures AssignCurrent(w, ts, rhs, refs, scopes, mem) == ReadLast(w, ts, rhs, refs, scopes, mem)
  {
    hide HoldAll, StoreAll, StoreAllCurrent, OperandsSettled, Results, SamePlaces, OwnBoxes, Hits, Now, SightOf, Sees;
    var es, holds, k := AllOperands(ts) + rhs, AllHolds(ts) + ValueHolds(rhs, refs), |AllOperands(ts)|;
    HoldFits(w, es, holds, sc, scopes, mem);
    var r := HoldStatement(w, ts, rhs, refs, scopes, mem);
    if r.AllHeld? {
      FitSplit(es, holds, r.held, sc, scopes, k);
      assert es[..k] == AllOperands(ts) && holds[..k] == AllHolds(ts) && es[k..] == rhs && holds[k..] == ValueHolds(rhs, refs);
      forall j | 0 <= j < |ts| ensures Sees(ValueSights(rhs, refs, sc)[j], r.held[k..][j], scopes) {
        assert FitsAt(rhs[j], ValueHolds(rhs, refs)[j], r.held[k..][j], sc, scopes);
      }
      CurrentIsFirst(w, ts, r.held[..k], r.held[k..], ValueSights(rhs, refs, sc), Env(scopes, r.mem), sc);
      assert Nows(r.held, scopes, r.mem)[..k] == Nows(r.held[..k], scopes, r.mem) && Nows(r.held, scopes, r.mem)[k..] == Nows(r.held[k..], scopes, r.mem);
    }
  }

  // ---------- the code ----------

  /** Registers that hold these variables, each variable in a box of its own. */
  ghost predicate Stands(sc: RegScopes, scopes: Scopes, m: Machine) {
    Is(m, sc, scopes, m.mem) && ShortVarLate.Apart(scopes)
  }

  /** Running the code has an effect Go allows. */
  ghost predicate MeansGo(w: World, ts: seq<Target>, rhs: seq<Expr>, refs: seq<bool>, layoutsMatch: bool, sc: RegScopes, scopes: Scopes, next: Reg, m: Machine)
    requires |ts| == |rhs| == |refs| && Live(sc, next)
  {
    var l := Lower(ts, rhs, refs, layoutsMatch, sc, next);
    l.Lowered? && Realises(ReadLast(w, ts, rhs, refs, scopes, m.mem), Run(w, l.code, m), sc, l.next)
  }

  /** The one effect Go allows, where what is held is read when evaluation reaches it. */
  ghost predicate MeansLeftToRight(w: World, ts: seq<Target>, rhs: seq<Expr>, refs: seq<bool>, layoutsMatch: bool,
                                   sc: RegScopes, scopes: Scopes, next: Reg, m: Machine)
    requires |ts| == |rhs| == |refs| && Live(sc, next)
  {
    var l := Lower(ts, rhs, refs, layoutsMatch, sc, next);
    l.Lowered? && Realises(TupleAssign(w, ts, rhs, scopes, m.mem), Run(w, l.code, m), sc, l.next)
  }

  lemma SwapIsQuiet(ts: seq<Target>, rhs: seq<Expr>)
    requires IsFieldSwap(ts, rhs)
    ensures forall e :: e in AllOperands(ts) + rhs ==> Calls(e) == 0
  {
    TwoOperandsOf(ts[0], ts[1]);
    assert ts == [ts[0], ts[1]];
    var b := ts[0].base;
    assert AllOperands(ts) + rhs == [b, b, rhs[0], rhs[1]];
    assert Calls(b) == 0 && Calls(Star(b, ts[0].kind)) == 0 && Calls(rhs[0]) == 0 && Calls(rhs[1]) == 0;
  }

  /** The whole lowering: refused exactly for unequal counts or an undeclared name; otherwise, if nothing held is changed before it is used, Go's meaning. */
  lemma LowerCorrect(w: World, ts: seq<Target>, rhs: seq<Expr>, refs: seq<bool>, layoutsMatch: bool, sc: RegScopes, scopes: Scopes, next: Reg, m: Machine)
    requires |refs| == |rhs| && Stands(sc, scopes, m) && Live(sc, next)
    ensures var l := Lower(ts, rhs, refs, layoutsMatch, sc, next);
      && (l.CountMismatch? <==> |ts| != |rhs|)
      && (l.Lowered? <==> |ts| == |rhs| && AllDeclared(ts, sc))
      && (l.UndefinedVariable? ==> FirstUndeclared(ts, sc, l.name))
      && (l.Lowered? && OperandsSettled(ts, sc) && ValuesSettled(ts, rhs, refs, sc) ==> MeansGo(w, ts, rhs, refs, layoutsMatch, sc, scopes, next, m))
  {
    hide Agree, Live, Run, Lower, TupleAssign, AssignCurrent, ReadLast, Realises, AllDeclared, FirstUndeclared, OperandsSettled, Hits, SightOf,
         SamePlaces, OwnBoxes, Calls, IsFieldSwap;
    LowerMeans(w, ts, rhs, refs, layoutsMatch, sc, scopes, next, m);
    if |ts| == |rhs| && OperandsSettled(ts, sc) && ValuesSettled(ts, rhs, refs, sc) {
      PlacesAgree(sc, scopes, m.regs, next);
      ApartOwns(scopes);
      SettledIsGo(w, ts, rhs, refs, sc, scopes, m.mem);
      if IsFieldSwap(ts, rhs) && layoutsMatch {
        SwapIsQuiet(ts, rhs);
        ReadLastIsGo(w, ts, rhs, refs, scopes, m.mem);
      }
    }
  }

  /** Without calls Go allows one meaning only. */
  lemma QuietCorrect(w: World, ts: seq<Target>, rhs: seq<Expr>, refs: seq<bool>, layoutsMatch: bool, sc: RegScopes, scopes: Scopes, next: Reg, m: Machine)
    requires |ts| == |rhs| == |refs| && Stands(sc, scopes, m) && Live(sc, next) && AllDeclared(ts, sc)
    requires OperandsSettled(ts, sc) && ValuesSettled(ts, rhs, refs, sc) && forall e :: e in AllOperands(ts) + rhs ==> Calls(e) == 0
    ensures MeansLeftToRight(w, ts, rhs, refs, layoutsMatch, sc, scopes, next, m)
  {
    hide Stands, Live, Run, Lower, TupleAssign, ReadLast, Realises, AllDeclared, FirstUndeclared, OperandsSettled, ValuesSettled, Calls;
    LowerCorrect(w, ts, rhs, refs, layoutsMatch, sc, scopes, next, m);
    ReadLastIsGo(w, ts, rhs, refs, scopes, m.mem);
  }
}

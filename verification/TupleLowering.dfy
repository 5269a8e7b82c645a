/** Lowering of `a, x.f, xs[i], *p = ...`: operands first, then values, then the stores, with a shortcut for swapping two fields; and what the code means. */
module TupleLowering {
  import opened Wrappers
  import opened GoAssign
  import opened AssignLowering
  import opened ShortVarLowering
  import opened TupleHeld

  // ---------- operands in registers ----------

  /** A value in a temporary; the register of a variable; or a view, as the registers of its address: what it shows is loaded each time it is used. */
  datatype Operand = Fixed(reg: Reg) | Variable(reg: Reg) | Pointee(address: Reg, kind: Kind) | Element(base: Reg, index: Reg, elem: Elem)

  datatype Prepared = Prepared(code: seq<Instr>, operands: seq<Operand>, next: Reg)

  function Added(p: Prepared, code: seq<Instr>, o: Operand, next: Reg): Prepared {
    Prepared(p.code + code, p.operands + [o], next)
  }

  function PrepareCopy(p: Prepared, e: Expr, sc: RegScopes): Prepared {
    var q := Pin([e], All(1), sc, p.next);
    Added(p, q.code, Fixed(q.temps[0]), q.next)
  }

  function PrepareStar(p: Prepared, b: Expr, kind: Kind, sc: RegScopes): Prepared {
    var q := Pin([b], All(1), sc, p.next);
    Added(p, q.code + [GetStar(q.next, q.temps[0], kind)], Pointee(q.temps[0], kind), q.next + 1)
  }

  function PrepareElement(p: Prepared, b: Expr, i: Expr, elem: Elem, sc: RegScopes): Prepared {
    var q := Pin([b, i], All(2), sc, p.next);
    Added(p, q.code + [GetIndex(q.next, q.temps[0], q.temps[1], elem)], Element(q.temps[0], q.temps[1], elem), q.next + 1)
  }

  function PrepareBox(p: Prepared, box: Reg, kind: Kind): Prepared {
    Added(p, [Move(p.next, box), ReadBox(p.next + 1, p.next, kind)], Pointee(p.next, kind), p.next + 2)
  }

  /** Evaluates one more operand or value and leaves it where it is held. */
  function PrepareMore(p: Prepared, e: Expr, hold: Hold, sc: RegScopes): Prepared {
    if hold.Copy? then PrepareCopy(p, e, sc)
    else match e
      case Ident(x) =>
        (match LookupReg(sc, x)
         case Some(place) =>
           if place.box.Some? then PrepareBox(p, place.reg, place.box.value)
           else if hold.Keep? then Added(p, [], Variable(place.reg), p.next) else PrepareCopy(p, e, sc)
         case None => PrepareCopy(p, e, sc))
      case Star(b, kind) => PrepareStar(p, b, kind, sc)
      case Index(b, i, elem) => if elem.Listed? then PrepareElement(p, b, i, elem, sc) else PrepareCopy(p, e, sc)
      case _ => PrepareCopy(p, e, sc)
  }

  function Prepare(es: seq<Expr>, holds: seq<Hold>, sc: RegScopes, next: Reg): (p: Prepared)
    requires |holds| == |es|
    ensures |p.operands| == |es|
    decreases |es|
  {
    if es == [] then Prepared([], [], next)
    else
      var n := |es| - 1;
      PrepareMore(Prepare(es[..n], holds[..n], sc, next), es[n], holds[n], sc)
  }

  // ---------- the stores ----------

  /** Loads what a view shows into a scratch register. */
  function LoadCode(o: Operand, scratch: Reg): seq<Instr> {
    match o
    case Fixed(_) => []
    case Variable(_) => []
    case Pointee(a, kind) => [ReadBox(scratch, a, kind)]
    case Element(b, i, elem) => [GetIndex(scratch, b, i, elem)]
  }

  function LoadReg(o: Operand, scratch: Reg): Reg {
    match o
    case Fixed(r) => r
    case Variable(r) => r
    case Pointee(_, _) => scratch
    case Element(_, _, _) => scratch
  }

  function LoadAll(os: seq<Operand>, scratch: Reg): seq<Instr> {
    if os == [] then [] else LoadAll(os[..|os| - 1], scratch) + LoadCode(os[|os| - 1], scratch + |os| - 1)
  }

  datatype Stores = Stores(code: seq<Instr>) | Undefined(name: Name)

  /** The instruction that stores one value, with everything in registers. */
  function StoreInstr(t: Target, ops: seq<Reg>, src: Reg, sc: RegScopes): Stores
    requires |ops| == |Operands(t)|
  {
    match t
    case ToIdent(x) => (match LookupReg(sc, x) case Some(p) => Stores([Write(p, src)]) case None => Undefined(x))
    case ToBlank => Stores([])
    case ToField(_, kind, f) => Stores([SetField(ops[0], kind, f, src)])
    case ToIndex(_, _, elem, _) => Stores([SetIndex(ops[0], ops[1], elem, src)])
    case ToStar(_, kind) => Stores([SetStar(ops[0], kind, src)])
  }

  function LoadRegs(os: seq<Operand>, scratch: Reg): (r: seq<Reg>)
    ensures |r| == |os|
  {
    seq(|os|, i requires 0 <= i < |os| => LoadReg(os[i], scratch + i))
  }

  /** Stores one value through its operands. */
  function StoreOne(t: Target, ops: seq<Operand>, value: Operand, sc: RegScopes, scratch: Reg): Stores
    requires |ops| == |Operands(t)|
  {
    var all := ops + [value];
    var regs := LoadRegs(all, scratch);
    match StoreInstr(t, regs[..|ops|], regs[|ops|], sc)
    case Undefined(x) => Undefined(x)
    case Stores(code) => Stores(LoadAll(all, scratch) + code)
  }

  /** Stores the values from left to right; the first undefined name is the error. */
  function StoreCode(ts: seq<Target>, ops: seq<Operand>, values: seq<Operand>, sc: RegScopes, scratch: Reg): Stores
    requires |ops| == |AllOperands(ts)| && |values| == |ts|
    decreases |ts|
  {
    if ts == [] then Stores([])
    else
      var n := |ts| - 1;
      var k := |AllOperands(ts[..n])|;
      var before := StoreCode(ts[..n], ops[..k], values[..n], sc, scratch);
      if before.Undefined? then before
      else
        var last := StoreOne(ts[n], ops[k..], values[n], sc, scratch);
        if last.Undefined? then last else Stores(before.code + last.code)
  }

  // ---------- the lowering ----------

  datatype Lowered = Lowered(code: seq<Instr>, next: Reg) | CountMismatch(targets: nat, values: nat) | UndefinedVariable(name: Name)

  /** `r.a, r.b = r.b, r.a`, for one variable r that is a reference, and two different fields. */
  predicate IsFieldSwap(ts: seq<Target>, rhs: seq<Expr>) {
    && |ts| == 2 && ts[0].ToField? && ts[1].ToField? && ts[0].base.Ident? && ts[1].base == ts[0].base && ts[1].kind == ts[0].kind
    && ts[0].field != ts[1].field && rhs == [Through(ts[0], ts[1].field), Through(ts[0], ts[0].field)]
  }

  /** A field of what the base of a target points to. */
  function Through(t: Target, f: Name): Expr
    requires t.ToField?
  {
    Field(Star(t.base, t.kind), f)
  }

  function LowerSwap(ts: seq<Target>, sc: RegScopes, next: Reg): Lowered
    requires |ts| == 2 && ts[0].ToField? && ts[1].ToField?
  {
    var c := CompileExpr(ts[0].base, sc, next);
    Lowered(c.code + [SwapFields(c.reg, ts[0].kind, ts[0].field, ts[1].field)], c.next)
  }

  /** `refs` says which values are references. */
  function LowerGeneral(ts: seq<Target>, rhs: seq<Expr>, refs: seq<bool>, sc: RegScopes, next: Reg): Lowered
    requires |ts| == |rhs| == |refs| && Live(sc, next)
  {
    var p := Prepare(AllOperands(ts), AllHolds(ts), sc, next);
    var q := Prepare(rhs, ValueHolds(rhs, refs), sc, p.next);
    match StoreCode(ts, p.operands, q.operands, sc, q.next)
    case Undefined(x) => UndefinedVariable(x)
    case Stores(code) =>
      PrepareRoom(AllOperands(ts), AllHolds(ts), sc, next);
      LiveMore(sc, next, p.next);
      ValuesRoom(rhs, refs, sc, p.next);
      Lowered(p.code + q.code + code, q.next - |rhs|)
  }

  /** `layoutsMatch` says whether the two fields' layouts allow the swap instruction. */
  function Lower(ts: seq<Target>, rhs: seq<Expr>, refs: seq<bool>, layoutsMatch: bool, sc: RegScopes, next: Reg): Lowered
    requires |refs| == |rhs| && Live(sc, next)
  {
    if |ts| != |rhs| then CountMismatch(|ts|, |rhs|)
    else if IsFieldSwap(ts, rhs) && layoutsMatch then LowerSwap(ts, sc, next)
    else LowerGeneral(ts, rhs, refs, sc, next)
  }

  /** Each kept value takes at least one register. */
  lemma {:induction false} PinRoom(es: seq<Expr>, keep: seq<bool>, sc: RegScopes, next: Reg)
    requires |keep| == |es| && Live(sc, next) && forall i :: 0 <= i < |keep| ==> keep[i]
    ensures next + |es| <= Pin(es, keep, sc, next).next
    decreases |es|
  {
    hide Live;
    if es != [] {
      var n := |es| - 1;
      PinRoom(es[..n], keep[..n], sc, next);
      var p := Pin(es[..n], keep[..n], sc, next);
      LiveMore(sc, next, p.next);
      CompileBounds(es[n], sc, p.next);
    }
  }

  lemma MoreRoom(p: Prepared, e: Expr, hold: Hold, sc: RegScopes)
    requires Live(sc, p.next)
    ensures p.next + (if hold.Keep? then 0 else 1) <= PrepareMore(p, e, hold, sc).next
  {
    hide Live, Pin, LookupReg;
    PinRoom([e], All(1), sc, p.next);
    match e
    case Star(b, _) => PinRoom([b], All(1), sc, p.next);
    case Index(b, i, _) => PinRoom([b, i], All(2), sc, p.next);
    case _ =>
  }

  lemma {:induction false} PrepareRoom(es: seq<Expr>, holds: seq<Hold>, sc: RegScopes, next: Reg)
    requires |holds| == |es| && Live(sc, next)
    ensures next <= Prepare(es, holds, sc, next).next
    decreases |es|
  {
    hide Live, PrepareMore;
    if es != [] {
      var n := |es| - 1;
      PrepareRoom(es[..n], holds[..n], sc, next);
      LiveMore(sc, next, Prepare(es[..n], holds[..n], sc, next).next);
      MoreRoom(Prepare(es[..n], holds[..n], sc, next), es[n], holds[n], sc);
    }
  }

  /** Each value takes at least one register. */
  lemma {:induction false} ValuesRoom(es: seq<Expr>, refs: seq<bool>, sc: RegScopes, next: Reg)
    requires |refs| == |es| && Live(sc, next)
    ensures next + |es| <= Prepare(es, ValueHolds(es, refs), sc, next).next
    decreases |es|
  {
    hide Live, PrepareMore;
    if es != [] {
      var n := |es| - 1;
      ValuesRoom(es[..n], refs[..n], sc, next);
      assert ValueHolds(es, refs)[..n] == ValueHolds(es[..n], refs[..n]);
      LiveMore(sc, next, Prepare(es[..n], ValueHolds(es[..n], refs[..n]), sc, next).next);
      MoreRoom(Prepare(es[..n], ValueHolds(es[..n], refs[..n]), sc, next), es[n], ValueHold(es[n], refs[n]), sc);
    }
  }

  // ---------- what is in the registers ----------

  predicate InRegister(s: Option<Slot>) {
    s.Some? && s.value.box.None?
  }

  /** The operand is where it was put. */
  ghost predicate ReadyAt(w: World, o: Operand, h: Held, sc: RegScopes, regs: map<Reg, Value>, lo: Reg, hi: Reg) {
    match o
    case Fixed(r) => lo <= r < hi && h == Plain(Get(regs, r))
    case Variable(r) => h.Follows? && LookupReg(sc, h.name).Some? && LookupReg(sc, h.name).value.box.None? && LookupReg(sc, h.name).value.reg == r
    case Pointee(a, kind) => lo <= a < hi && h == Views(Cell(Get(regs, a), ByStar(kind)))
    case Element(b, i, elem) =>
      && lo <= b < hi && lo <= i < hi && h == Views(Cell(Get(regs, b), ByIndex(Get(regs, i), elem)))
      && (elem.Listed? ==> w.inRange(Get(regs, b), Get(regs, i)))
  }

  ghost predicate Ready(w: World, os: seq<Operand>, hs: seq<Held>, sc: RegScopes, regs: map<Reg, Value>, lo: Reg, hi: Reg) {
    |os| == |hs| && forall i :: 0 <= i < |os| ==> ReadyAt(w, os[i], hs[i], sc, regs, lo, hi)
  }

  lemma ReadySplit(w: World, os: seq<Operand>, hs: seq<Held>, sc: RegScopes, regs: map<Reg, Value>, lo: Reg, hi: Reg, k: nat)
    requires Ready(w, os, hs, sc, regs, lo, hi) && k <= |os|
    ensures |hs| == |os| && Ready(w, os[..k], hs[..k], sc, regs, lo, hi) && Ready(w, os[k..], hs[k..], sc, regs, lo, hi)
  {
    hide ReadyAt;
  }

  lemma ReadyJoin(w: World, os: seq<Operand>, hs: seq<Held>, o: Operand, h: Held, sc: RegScopes, regs: map<Reg, Value>, lo: Reg, hi: Reg)
    requires Ready(w, os, hs, sc, regs, lo, hi) && ReadyAt(w, o, h, sc, regs, lo, hi)
    ensures Ready(w, os + [o], hs + [h], sc, regs, lo, hi)
  {
    hide ReadyAt;
  }

  lemma ReadyStill(w: World, os: seq<Operand>, hs: seq<Held>, sc: RegScopes, a: map<Reg, Value>, b: map<Reg, Value>, lo: Reg, hi: Reg, hi': Reg)
    requires Ready(w, os, hs, sc, a, lo, hi) && SameBetween(a, b, lo, hi) && hi <= hi'
    ensures Ready(w, os, hs, sc, b, lo, hi')
  {
    forall i | 0 <= i < |os| ensures ReadyAt(w, os[i], hs[i], sc, b, lo, hi') {
      assert ReadyAt(w, os[i], hs[i], sc, a, lo, hi);
    }
  }

  /** Writing a variable through its place assigns to the innermost variable of that name. */
  ghost predicate Assigned(sc: RegScopes, before: Env, after: Env, regs: map<Reg, Value>, p: Place, v: Value) {
    if p.box.Some? then after == Env(before.scopes, before.mem[Cell(Get(regs, p.reg), ByStar(p.box.value)) := v])
    else after.mem == before.mem && Agree(sc, after.scopes, regs[p.reg := v])
  }

  lemma {:induction false} PlaceOf(sc: RegScopes, x: Name) returns (l: nat)
    requires LookupReg(sc, x).Some?
    ensures Has(sc, l, x) && sc[l][x] == LookupReg(sc, x).value
    ensures x !in sc[|sc| - 1] ==> l < |sc| - 1
    decreases |sc|
  {
    var n := |sc| - 1;
    if x in sc[n] {
      l := n;
    } else {
      l := PlaceOf(sc[..n], x);
    }
  }

  lemma {:induction false} AssignAgrees(sc: RegScopes, env: Env, regs: map<Reg, Value>, x: Name, v: Value, next: Reg)
    requires Agree(sc, env.scopes, regs) && Live(sc, next) && LookupReg(sc, x).Some?
    ensures Assigned(sc, env, AssignVar(env, x, v), regs, LookupReg(sc, x).value, v)
    decreases |sc|
  {
    hide Agree, Live;
    var n := |sc| - 1;
    AgreePrefix(sc, env.scopes, regs, next);
    if x in sc[n] {
      TopAgrees(sc, env.scopes, regs, next, x);
      if sc[n][x].box.None? {
        BindExisting(sc, env.scopes, regs, next, x, v);
      }
    } else {
      AssignAgrees(sc[..n], env.(scopes := env.scopes[..n]), regs, x, v, next);
      AssignOuter(sc, env, regs, x, v, next);
    }
  }

  lemma AssignOuter(sc: RegScopes, env: Env, regs: map<Reg, Value>, x: Name, v: Value, next: Reg)
    requires Agree(sc, env.scopes, regs) && Live(sc, next) && LookupReg(sc, x).Some? && sc != [] && x !in sc[|sc| - 1] && |env.scopes| == |sc|
    requires var n := |sc| - 1; var inner := env.(scopes := env.scopes[..n]);
      x !in env.scopes[n] && Assigned(sc[..n], inner, AssignVar(inner, x, v), regs, LookupReg(sc, x).value, v)
    ensures Assigned(sc, env, AssignVar(env, x, v), regs, LookupReg(sc, x).value, v)
  {
    hide Agree, Live, LookupReg;
    var n, p := |sc| - 1, LookupReg(sc, x).value;
    var inner := env.(scopes := env.scopes[..n]);
    if p.box.Some? {
      assert env.scopes[..n] + [env.scopes[n]] == env.scopes;
    } else {
      var l := PlaceOf(sc, x);
      OuterRegister(sc, next, l, x);
      AgreeExtend(sc, env.scopes, regs, regs[p.reg := v], AssignVar(inner, x, v).scopes, p.reg);
    }
  }

  predicate Unused(scope: map<Name, Place>, r: Reg) {
    forall y :: y in scope ==> scope[y].reg != r
  }

  lemma OuterRegister(sc: RegScopes, next: Reg, l: nat, x: Name)
    requires Live(sc, next) && l < |sc| - 1 && Has(sc, l, x)
    ensures Unused(sc[|sc| - 1], sc[l][x].reg)
  {
    var n := |sc| - 1;
    forall y | y in sc[n] ensures sc[n][y].reg != sc[l][x].reg {
      assert Has(sc, n, y);
    }
  }

  /** The innermost scope is untouched by a write to a register it does not use. */
  lemma AgreeExtend(sc: RegScopes, scopes: Scopes, a: map<Reg, Value>, b: map<Reg, Value>, outer: Scopes, r: Reg)
    requires sc != [] && Agree(sc, scopes, a) && Agree(sc[..|sc| - 1], outer, b)
    requires forall q :: q != r ==> Get(a, q) == Get(b, q)
    requires Unused(sc[|sc| - 1], r)
    ensures Agree(sc, outer + [scopes[|sc| - 1]], b)
  {
    var n := |sc| - 1;
    var after := outer + [scopes[n]];
    forall k | 0 <= k < |sc| ensures sc[k].Keys == after[k].Keys {
      if k < n {
        assert sc[..n][k] == sc[k];
      }
    }
    forall k, y | Has(sc, k, y) ensures Fits(sc[k][y], after[k][y], b) {
      if k < n {
        assert Has(sc[..n], k, y) && Fits(sc[..n][k][y], outer[k][y], b);
      } else {
        assert Fits(sc[n][y], scopes[n][y], a);
      }
    }
  }

  /** The machine holds these scopes and this memory. */
  ghost predicate Is(m: Machine, sc: RegScopes, scopes: Scopes, mem: Memory) {
    !m.panicked && m.mem == mem && Agree(sc, scopes, m.regs)
  }

  /** The machine is where the assignments leave off. */
  ghost predicate LeavesOff(effect: Effect, m: Machine, sc: RegScopes) {
    match effect
    case Effect(scopes, mem) => Is(m, sc, scopes, mem)
    case Aborted(results, mem) => m.panicked && m.mem == mem && Agree(ResultPlaces(sc), results, m.regs)
  }

  lemma StoreVarCorrect(w: World, x: Name, src: Reg, v: Value, sc: RegScopes, scopes: Scopes, mem: Memory, lo: Reg, hi: Reg, m: Machine)
    requires LookupReg(sc, x).Some? && Live(sc, lo) && Is(m, sc, scopes, mem) && Get(m.regs, src) == v
    ensures var r := AssignVar(Env(scopes, mem), x, v); var m' := Execute(w, Write(LookupReg(sc, x).value, src), m);
      Is(m', sc, r.scopes, r.mem) && SameBetween(m.regs, m'.regs, lo, hi)
  {
    hide Agree, Live, AssignVar, LookupReg;
    AssignAgrees(sc, Env(scopes, mem), m.regs, x, v, lo);
    LookupBound(sc, lo, x);
  }

  // ---------- loading ----------

  /** One load: what is held, in a register; everything below the scratch register untouched. */
  lemma LoadCorrect(w: World, o: Operand, h: Held, sc: RegScopes, scopes: Scopes, mem: Memory, lo: Reg, hi: Reg, scratch: Reg, m: Machine)
    requires Is(m, sc, scopes, mem) && Live(sc, lo) && ReadyAt(w, o, h, sc, m.regs, lo, hi) && lo <= hi <= scratch
    ensures var m' := Run(w, LoadCode(o, scratch), m);
      && Is(m', sc, scopes, mem) && SameBelow(m.regs, m'.regs, scratch)
      && Get(m'.regs, LoadReg(o, scratch)) == Now(h, scopes, mem) && LoadReg(o, scratch) <= scratch
  {
    if o.Variable? {
      LookupAgrees(sc, scopes, m.regs, lo, h.name);
    }
    hide Agree, Live, Run, Lookup, LookupReg;
    RunNone(w, m);
    if o.Pointee? {
      RunOne(w, ReadBox(scratch, o.address, o.kind), m);
    }
    if o.Element? {
      RunOne(w, GetIndex(scratch, o.base, o.index, o.elem), m);
    }
    AgreeKept(sc, scopes, m.regs, Run(w, LoadCode(o, scratch), m).regs, lo);
  }

  /** The registers hold what the operands show. */
  ghost predicate Shown(regs: map<Reg, Value>, os: seq<Operand>, hs: seq<Held>, scopes: Scopes, mem: Memory, scratch: Reg) {
    |os| == |hs| && forall i :: 0 <= i < |os| ==> Get(regs, LoadReg(os[i], scratch + i)) == Now(hs[i], scopes, mem) && LoadReg(os[i], scratch + i) <= scratch + i
  }

  lemma {:induction false} LoadAllCorrect(w: World, os: seq<Operand>, hs: seq<Held>, sc: RegScopes, scopes: Scopes, mem: Memory, lo: Reg, hi: Reg, scratch: Reg, m: Machine)
    requires Is(m, sc, scopes, mem) && Live(sc, lo) && Ready(w, os, hs, sc, m.regs, lo, hi) && lo <= hi <= scratch
    ensures var m' := Run(w, LoadAll(os, scratch), m);
      Is(m', sc, scopes, mem) && SameBelow(m.regs, m'.regs, scratch) && Shown(m'.regs, os, hs, scopes, mem, scratch)
    decreases |os|
  {
    hide Is, Live, Run, LoadCode, LoadReg, Now, ReadyAt;
    if os == [] {
      RunNone(w, m);
    } else {
      var n := |os| - 1;
      ReadySplit(w, os, hs, sc, m.regs, lo, hi, n);
      LoadAllCorrect(w, os[..n], hs[..n], sc, scopes, mem, lo, hi, scratch, m);
      var m1 := Run(w, LoadAll(os[..n], scratch), m);
      RunConcat(w, LoadAll(os[..n], scratch), LoadCode(os[n], scratch + n), m);
      ReadyStill(w, os, hs, sc, m.regs, m1.regs, lo, hi, hi);
      LoadCorrect(w, os[n], hs[n], sc, scopes, mem, lo, hi, scratch + n, m1);
      var m2 := Run(w, LoadCode(os[n], scratch + n), m1);
      forall i | 0 <= i < |os| ensures Get(m2.regs, LoadReg(os[i], scratch + i)) == Now(hs[i], scopes, mem) && LoadReg(os[i], scratch + i) <= scratch + i {
        if i < n {
          ShownAt(m1.regs, os[..n], hs[..n], scopes, mem, scratch, i);
        }
      }
    }
  }

  lemma ShownAt(regs: map<Reg, Value>, os: seq<Operand>, hs: seq<Held>, scopes: Scopes, mem: Memory, scratch: Reg, i: nat)
    requires Shown(regs, os, hs, scopes, mem, scratch) && i < |os|
    ensures |hs| == |os| && Get(regs, LoadReg(os[i], scratch + i)) == Now(hs[i], scopes, mem) && LoadReg(os[i], scratch + i) <= scratch + i
  {
  }

  // ---------- storing ----------

  /** The instruction stores what its registers hold. */
  lemma StoreInstrCorrect(w: World, t: Target, ops: seq<Reg>, src: Reg, opValues: seq<Value>, v: Value,
                          sc: RegScopes, scopes: Scopes, mem: Memory, lo: Reg, hi: Reg, m: Machine)
    requires |ops| == |Operands(t)| == |opValues| && StoreInstr(t, ops, src, sc).Stores? && Live(sc, lo) && Is(m, sc, scopes, mem)
    requires (forall i :: 0 <= i < |ops| ==> Get(m.regs, ops[i]) == opValues[i]) && Get(m.regs, src) == v
    ensures var m' := Run(w, StoreInstr(t, ops, src, sc).code, m);
      LeavesOff(Store(w, t, opValues, v, Env(scopes, mem)), m', sc) && SameBetween(m.regs, m'.regs, lo, hi)
  {
    hide Agree, Live, Run, AssignVar, LookupReg, Results, ResultPlaces;
    ResultsAgree(sc, scopes, m.regs);
    match t
    case ToIdent(x) =>
      StoreVarCorrect(w, x, src, v, sc, scopes, mem, lo, hi, m);
      RunOne(w, Write(LookupReg(sc, x).value, src), m);
    case ToBlank => RunNone(w, m);
    case ToField(_, kind, f) => RunOne(w, SetField(ops[0], kind, f, src), m);
    case ToIndex(_, _, elem, _) => RunOne(w, SetIndex(ops[0], ops[1], elem, src), m);
    case ToStar(_, kind) => RunOne(w, SetStar(ops[0], kind, src), m);
  }

  lemma StoreOneCorrect(w: World, t: Target, ops: seq<Operand>, value: Operand, opHeld: seq<Held>, held: Held,
                        sc: RegScopes, scopes: Scopes, mem: Memory, lo: Reg, hi: Reg, scratch: Reg, m: Machine)
    requires |ops| == |Operands(t)| == |opHeld| && StoreOne(t, ops, value, sc, scratch).Stores? && Live(sc, lo) && lo <= hi <= scratch
    requires Is(m, sc, scopes, mem) && Ready(w, ops, opHeld, sc, m.regs, lo, hi) && ReadyAt(w, value, held, sc, m.regs, lo, hi)
    ensures var m' := Run(w, StoreOne(t, ops, value, sc, scratch).code, m);
      LeavesOff(StoreCurrent(w, t, opHeld, held, Env(scopes, mem)), m', sc) && SameBetween(m.regs, m'.regs, lo, hi)
  {
    hide Agree, Live, Run, Store, StoreInstr, Now, LoadAll, LoadReg, ResultPlaces, ReadyAt;
    var all, hs := ops + [value], opHeld + [held];
    ReadyJoin(w, ops, opHeld, value, held, sc, m.regs, lo, hi);
    LoadAllCorrect(w, all, hs, sc, scopes, mem, lo, hi, scratch, m);
    var m1, regs := Run(w, LoadAll(all, scratch), m), LoadRegs(all, scratch);
    RunConcat(w, LoadAll(all, scratch), StoreInstr(t, regs[..|ops|], regs[|ops|], sc).code, m);
    forall i | 0 <= i < |ops| ensures Get(m1.regs, regs[..|ops|][i]) == Nows(opHeld, scopes, mem)[i] {
      ShownAt(m1.regs, all, hs, scopes, mem, scratch, i);
    }
    ShownAt(m1.regs, all, hs, scopes, mem, scratch, |ops|);
    StoreInstrCorrect(w, t, regs[..|ops|], regs[|ops|], Nows(opHeld, scopes, mem), Now(held, scopes, mem), sc, scopes, mem, lo, hi, m1);
  }

  lemma OperandsSplit(ts: seq<Target>)
    requires ts != []
    ensures var n := |ts| - 1; var es, holds := AllOperands(ts), AllHolds(ts); var k := |AllOperands(ts[..n])|;
      && k <= |es| && es[..k] == AllOperands(ts[..n]) && holds[..k] == AllHolds(ts[..n])
      && es[k..] == Operands(ts[n]) && holds[k..] == OperandHolds(ts[n])
  {
  }

  lemma {:induction false} StoreCodeCorrect(w: World, ts: seq<Target>, ops: seq<Operand>, values: seq<Operand>, opHeld: seq<Held>, held: seq<Held>,
                                            sc: RegScopes, scopes: Scopes, mem: Memory, lo: Reg, hi: Reg, scratch: Reg, m: Machine)
    requires |ops| == |AllOperands(ts)| == |opHeld| && |values| == |ts| == |held| && Live(sc, lo) && lo <= hi <= scratch
    requires StoreCode(ts, ops, values, sc, scratch).Stores? && Is(m, sc, scopes, mem)
    requires Ready(w, ops, opHeld, sc, m.regs, lo, hi) && Ready(w, values, held, sc, m.regs, lo, hi)
    ensures var m' := Run(w, StoreCode(ts, ops, values, sc, scratch).code, m);
      LeavesOff(StoreAllCurrent(w, ts, opHeld, held, Env(scopes, mem)), m', sc) && SameBetween(m.regs, m'.regs, lo, hi)
    decreases |ts|
  {
    hide Agree, Live, Run, StoreCurrent, StoreOne, SameBetween, ReadyAt, Ready, ResultPlaces, OperandHolds, Operands;
    if ts == [] {
      RunNone(w, m);
      Untouched(m.regs, lo, hi);
    } else {
      var n := |ts| - 1;
      var k := |AllOperands(ts[..n])|;
      OperandsSplit(ts);
      ReadySplit(w, ops, opHeld, sc, m.regs, lo, hi, k);
      ReadySplit(w, values, held, sc, m.regs, lo, hi, n);
      StoreCodeCorrect(w, ts[..n], ops[..k], values[..n], opHeld[..k], held[..n], sc, scopes, mem, lo, hi, scratch, m);
      var before, last := StoreCode(ts[..n], ops[..k], values[..n], sc, scratch), StoreOne(ts[n], ops[k..], values[n], sc, scratch);
      var m1 := Run(w, before.code, m);
      var s := StoreAllCurrent(w, ts[..n], opHeld[..k], held[..n], Env(scopes, mem));
      RunConcat(w, before.code, last.code, m);
      if s.Aborted? {
        RunPanicked(w, last.code, m1);
      } else {
        ReadyStill(w, ops[k..], opHeld[k..], sc, m.regs, m1.regs, lo, hi, hi);
        ReadyStill(w, values, held, sc, m.regs, m1.regs, lo, hi, hi);
        ReadyHere(w, values, held, sc, m1.regs, lo, hi, n);
        StoreOneCorrect(w, ts[n], ops[k..], values[n], opHeld[k..], held[n], sc, s.scopes, s.mem, lo, hi, scratch, m1);
        SameTwice(m.regs, m1.regs, Run(w, last.code, m1).regs, lo, hi);
      }
    }
  }

  lemma ReadyHere(w: World, os: seq<Operand>, hs: seq<Held>, sc: RegScopes, regs: map<Reg, Value>, lo: Reg, hi: Reg, i: nat)
    requires Ready(w, os, hs, sc, regs, lo, hi) && i < |os|
    ensures |hs| == |os| && ReadyAt(w, os[i], hs[i], sc, regs, lo, hi)
  {
  }

  lemma Untouched(regs: map<Reg, Value>, lo: Reg, hi: Reg)
    ensures SameBetween(regs, regs, lo, hi)
  {
  }

  lemma SameTwice(a: map<Reg, Value>, b: map<Reg, Value>, c: map<Reg, Value>, lo: Reg, hi: Reg)
    requires SameBetween(a, b, lo, hi) && SameBetween(b, c, lo, hi)
    ensures SameBetween(a, c, lo, hi)
  {
  }

  // ---------- evaluating operands and values ----------

  /** One operand evaluated, from the state m0 to m'. */
  ghost predicate Puts(w: World, r: Returned, h: Held, o: Operand, m0: Machine, m': Machine, sc: RegScopes, lo: Reg, next: Reg, next': Reg) {
    && m'.mem == r.mem && m'.panicked == r.Panicked? && SameBelow(m0.regs, m'.regs, next)
    && (r.Returned? ==> ReadyAt(w, o, h, sc, m'.regs, lo, next'))
  }

  lemma EvalAllSnoc(w: World, es: seq<Expr>, e: Expr, scopes: Scopes, mem: Memory)
    ensures EvalAll(w, es + [e], All(|es| + 1), scopes, mem) == ThenEval(w, EvalAll(w, es, All(|es|), scopes, mem), e, scopes)
  {
    hide Eval;
    AllPrefix(|es| + 1);
    assert (es + [e])[..|es|] == es;
  }

  lemma ValuesOfOne(w: World, e: Expr, scopes: Scopes, mem: Memory)
    ensures var r := Eval(w, e, scopes, mem);
      EvalAll(w, [e], All(1), scopes, mem) == if r.Panicked? then AnyPanicked(r.mem) else AllReturned([r.value], r.mem)
  {
    hide Eval;
    EvalAllNone(w, scopes, mem);
    EvalAllSnoc(w, [], e, scopes, mem);
    assert [] + [e] == [e];
    var r := Eval(w, e, scopes, mem);
    assert r.Returned? ==> [] + [r.value] == [r.value];
  }

  lemma ValuesOfPair(w: World, a: Expr, b: Expr, scopes: Scopes, mem: Memory)
    ensures var r := Eval(w, a, scopes, mem); var s := Eval(w, b, scopes, r.mem);
      EvalAll(w, [a, b], All(2), scopes, mem)
      == if r.Panicked? then AnyPanicked(r.mem) else if s.Panicked? then AnyPanicked(s.mem) else AllReturned([r.value, s.value], s.mem)
  {
    hide Eval;
    ValuesOfOne(w, a, scopes, mem);
    EvalAllSnoc(w, [a], b, scopes, mem);
    assert [a] + [b] == [a, b];
    var r := Eval(w, a, scopes, mem);
    var s := Eval(w, b, scopes, r.mem);
    assert r.Returned? && s.Returned? ==> [r.value] + [s.value] == [r.value, s.value];
  }

  /** What comes after the operands so far. */
  ghost predicate Step(w: World, p: Prepared, q: Prepared, e: Expr, hold: Hold, sc: RegScopes, scopes: Scopes, lo: Reg, m1: Machine) {
    && p.code <= q.code && |q.operands| == |p.operands| + 1 && q.operands[..|p.operands|] == p.operands && p.next <= q.next
    && var r := Eval(w, e, scopes, m1.mem);
       var v := if r.Returned? then r.value else ZERO;
       Puts(w, r, HeldAs(w, e, hold, scopes, m1.mem, v), q.operands[|p.operands|], m1, Run(w, q.code[|p.code|..], m1), sc, lo, p.next, q.next)
  }

  lemma AddedStep(w: World, p: Prepared, code: seq<Instr>, o: Operand, next: Reg, e: Expr, hold: Hold, sc: RegScopes, scopes: Scopes, lo: Reg, m1: Machine)
    requires p.next <= next
    requires var r := Eval(w, e, scopes, m1.mem); var v := if r.Returned? then r.value else ZERO;
      Puts(w, r, HeldAs(w, e, hold, scopes, m1.mem, v), o, m1, Run(w, code, m1), sc, lo, p.next, next)
    ensures Step(w, p, Added(p, code, o, next), e, hold, sc, scopes, lo, m1)
  {
    hide Puts, Eval, HeldAs, Run;
    assert (p.code + code)[|p.code|..] == code && (p.operands + [o])[..|p.operands|] == p.operands;
  }

  /** The state an operand is evaluated in. */
  ghost predicate Before(p: Prepared, sc: RegScopes, scopes: Scopes, lo: Reg, m1: Machine) {
    Agree(sc, scopes, m1.regs) && Live(sc, lo) && !m1.panicked && lo <= p.next
  }

  lemma CopyStep(w: World, p: Prepared, e: Expr, hold: Hold, sc: RegScopes, scopes: Scopes, lo: Reg, m1: Machine)
    requires Before(p, sc, scopes, lo, m1)
    requires var r := Eval(w, e, scopes, m1.mem); r.Returned? ==> HeldAs(w, e, hold, scopes, m1.mem, r.value) == Plain(r.value)
    ensures Step(w, p, PrepareCopy(p, e, sc), e, hold, sc, scopes, lo, m1)
  {
    hide Agree, Live, Run, Eval, Pin, EvalAll, HeldAs, Step;
    var q := Pin([e], All(1), sc, p.next);
    LiveMore(sc, lo, p.next);
    PinCorrect(w, [e], All(1), sc, scopes, p.next, m1);
    ValuesOfOne(w, e, scopes, m1.mem);
    AddedStep(w, p, q.code, Fixed(q.temps[0]), q.next, e, hold, sc, scopes, lo, m1);
  }

  lemma StarStep(w: World, p: Prepared, b: Expr, kind: Kind, hold: Hold, sc: RegScopes, scopes: Scopes, lo: Reg, m1: Machine)
    requires Before(p, sc, scopes, lo, m1) && !hold.Copy?
    ensures Step(w, p, PrepareStar(p, b, kind, sc), Star(b, kind), hold, sc, scopes, lo, m1)
  {
    hide Agree, Live, Run, Pin, EvalAll, Step;
    var q := Pin([b], All(1), sc, p.next);
    LiveMore(sc, lo, p.next);
    PinCorrect(w, [b], All(1), sc, scopes, p.next, m1);
    ValuesOfOne(w, b, scopes, m1.mem);
    RunSnoc(w, q.code, GetStar(q.next, q.temps[0], kind), m1);
    AddedStep(w, p, q.code + [GetStar(q.next, q.temps[0], kind)], Pointee(q.temps[0], kind), q.next + 1, Star(b, kind), hold, sc, scopes, lo, m1);
  }

  lemma ElementStep(w: World, p: Prepared, b: Expr, i: Expr, elem: Elem, hold: Hold, sc: RegScopes, scopes: Scopes, lo: Reg, m1: Machine)
    requires Before(p, sc, scopes, lo, m1) && !hold.Copy? && elem.Listed?
    ensures Step(w, p, PrepareElement(p, b, i, elem, sc), Index(b, i, elem), hold, sc, scopes, lo, m1)
  {
    hide Agree, Live, Run, Pin, EvalAll, Step;
    var q := Pin([b, i], All(2), sc, p.next);
    LiveMore(sc, lo, p.next);
    PinCorrect(w, [b, i], All(2), sc, scopes, p.next, m1);
    ValuesOfPair(w, b, i, scopes, m1.mem);
    var last := GetIndex(q.next, q.temps[0], q.temps[1], elem);
    RunSnoc(w, q.code, last, m1);
    AddedStep(w, p, q.code + [last], Element(q.temps[0], q.temps[1], elem), q.next + 1, Index(b, i, elem), hold, sc, scopes, lo, m1);
  }

  lemma IdentStep(w: World, p: Prepared, x: Name, hold: Hold, sc: RegScopes, scopes: Scopes, lo: Reg, m1: Machine)
    requires Before(p, sc, scopes, lo, m1) && !hold.Copy?
    ensures Step(w, p, PrepareMore(p, Ident(x), hold, sc), Ident(x), hold, sc, scopes, lo, m1)
  {
    LookupAgrees(sc, scopes, m1.regs, lo, x);
    hide Agree, Live, Run, Lookup, LookupReg, Step;
    match LookupReg(sc, x)
    case None => CopyStep(w, p, Ident(x), hold, sc, scopes, lo, m1);
    case Some(place) =>
      if place.box.Some? {
        BoxStep(w, p, x, place.reg, place.box.value, hold, sc, scopes, lo, m1);
      } else if hold.Keep? {
        RunNone(w, m1);
        AddedStep(w, p, [], Variable(place.reg), p.next, Ident(x), hold, sc, scopes, lo, m1);
      } else {
        CopyStep(w, p, Ident(x), hold, sc, scopes, lo, m1);
      }
  }

  lemma BoxStep(w: World, p: Prepared, x: Name, box: Reg, kind: Kind, hold: Hold, sc: RegScopes, scopes: Scopes, lo: Reg, m1: Machine)
    requires Before(p, sc, scopes, lo, m1) && !hold.Copy? && box < lo
    requires Lookup(scopes, x).Some? && Lookup(scopes, x).value.box == Some(kind) && Get(m1.regs, box) == Lookup(scopes, x).value.raw
    ensures Step(w, p, PrepareBox(p, box, kind), Ident(x), hold, sc, scopes, lo, m1)
  {
    hide Agree, Live, Run, Lookup, Step;
    var code := [Move(p.next, box), ReadBox(p.next + 1, p.next, kind)];
    assert [Move(p.next, box)] + [ReadBox(p.next + 1, p.next, kind)] == code;
    RunSnoc(w, [Move(p.next, box)], ReadBox(p.next + 1, p.next, kind), m1);
    RunOne(w, Move(p.next, box), m1);
    AddedStep(w, p, code, Pointee(p.next, kind), p.next + 2, Ident(x), hold, sc, scopes, lo, m1);
  }

  lemma MoreStep(w: World, p: Prepared, e: Expr, hold: Hold, sc: RegScopes, scopes: Scopes, lo: Reg, m1: Machine)
    requires Before(p, sc, scopes, lo, m1)
    ensures Step(w, p, PrepareMore(p, e, hold, sc), e, hold, sc, scopes, lo, m1)
  {
    hide Before, Step, Eval, PrepareCopy, PrepareStar, PrepareElement, PrepareBox, LookupReg, Lookup;
    if hold.Copy? {
      CopyStep(w, p, e, hold, sc, scopes, lo, m1);
    } else {
      match e
      case Ident(x) => IdentStep(w, p, x, hold, sc, scopes, lo, m1);
      case Star(b, kind) => StarStep(w, p, b, kind, hold, sc, scopes, lo, m1);
      case Index(b, i, elem) =>
        if elem.Listed? {
          ElementStep(w, p, b, i, elem, hold, sc, scopes, lo, m1);
        } else {
          CopyStep(w, p, e, hold, sc, scopes, lo, m1);
        }
      case _ => CopyStep(w, p, e, hold, sc, scopes, lo, m1);
    }
  }

  /** The operands evaluated and left where they are held. */
  ghost predicate Prepares(w: World, r: AllHeld, m: Machine, m': Machine, p: Prepared, sc: RegScopes, lo: Reg, next: Reg) {
    && m'.mem == r.mem && m'.panicked == r.NoneHeld? && SameBelow(m.regs, m'.regs, next) && next <= p.next
    && (r.AllHeld? ==> Ready(w, p.operands, r.held, sc, m'.regs, lo, p.next))
  }

  lemma PreparedMore(w: World, p: Prepared, q: Prepared, front: AllHeld, e: Expr, hold: Hold, sc: RegScopes, scopes: Scopes, lo: Reg, next: Reg, m: Machine)
    requires Prepares(w, front, m, Run(w, p.code, m), p, sc, lo, next) && front.AllHeld? && lo <= next
    requires Step(w, p, q, e, hold, sc, scopes, lo, Run(w, p.code, m))
    ensures Prepares(w, HoldMore(w, front, e, hold, scopes), m, Run(w, q.code, m), q, sc, lo, next)
  {
    hide Run, Eval, HeldAs, ReadyAt, Ready;
    var m1, tail := Run(w, p.code, m), q.code[|p.code|..];
    assert p.code + tail == q.code;
    RunConcat(w, p.code, tail, m);
    var r, m2 := Eval(w, e, scopes, m1.mem), Run(w, tail, m1);
    if r.Returned? {
      ReadyStill(w, p.operands, front.held, sc, m1.regs, m2.regs, lo, p.next, q.next);
      ReadyJoin(w, p.operands, front.held, q.operands[|p.operands|], HeldAs(w, e, hold, scopes, m1.mem, r.value), sc, m2.regs, lo, q.next);
      assert q.operands == p.operands + [q.operands[|p.operands|]];
    }
  }

  lemma StoppedMore(w: World, p: Prepared, q: Prepared, front: AllHeld, e: Expr, hold: Hold, sc: RegScopes, scopes: Scopes, lo: Reg, next: Reg, m: Machine)
    requires Prepares(w, front, m, Run(w, p.code, m), p, sc, lo, next) && front.NoneHeld? && p.code <= q.code && p.next <= q.next
    ensures Prepares(w, HoldMore(w, front, e, hold, scopes), m, Run(w, q.code, m), q, sc, lo, next)
  {
    hide Run, Eval, HeldAs, Ready;
    var tail := q.code[|p.code|..];
    assert p.code + tail == q.code;
    RunConcat(w, p.code, tail, m);
    RunPanicked(w, tail, Run(w, p.code, m));
  }

  lemma MoreCode(p: Prepared, e: Expr, hold: Hold, sc: RegScopes)
    ensures p.code <= PrepareMore(p, e, hold, sc).code
  {
    hide Pin, LookupReg;
  }

  lemma {:induction false} PrepareCorrect(w: World, es: seq<Expr>, holds: seq<Hold>, sc: RegScopes, scopes: Scopes, lo: Reg, next: Reg, m: Machine)
    requires Agree(sc, scopes, m.regs) && Live(sc, lo) && !m.panicked && |holds| == |es| && lo <= next
    ensures var p := Prepare(es, holds, sc, next); Prepares(w, HoldAll(w, es, holds, scopes, m.mem), m, Run(w, p.code, m), p, sc, lo, next)
    decreases |es|
  {
    hide Agree, Live, Run, PrepareMore, Eval, Step, Ready, HoldMore;
    if es == [] {
      RunNone(w, m);
      NothingReady(w, sc, m.regs, lo, next);
    } else {
      var n := |es| - 1;
      PrepareCorrect(w, es[..n], holds[..n], sc, scopes, lo, next, m);
      var p, front := Prepare(es[..n], holds[..n], sc, next), HoldAll(w, es[..n], holds[..n], scopes, m.mem);
      var m1 := Run(w, p.code, m);
      LiveMore(sc, lo, p.next);
      MoreRoom(p, es[n], holds[n], sc);
      MoreCode(p, es[n], holds[n], sc);
      if front.AllHeld? {
        AgreeKept(sc, scopes, m.regs, m1.regs, lo);
        MoreStep(w, p, es[n], holds[n], sc, scopes, lo, m1);
        PreparedMore(w, p, PrepareMore(p, es[n], holds[n], sc), front, es[n], holds[n], sc, scopes, lo, next, m);
      } else {
        StoppedMore(w, p, PrepareMore(p, es[n], holds[n], sc), front, es[n], holds[n], sc, scopes, lo, next, m);
      }
    }
  }

  lemma NothingReady(w: World, sc: RegScopes, regs: map<Reg, Value>, lo: Reg, next: Reg)
    ensures Ready(w, [], [], sc, regs, lo, next)
  {
  }

  // ---------- the statement ----------

  /** The code's end state is the statement's effect, and later code may use the registers from `next` on. */
  ghost predicate Realises(effect: Effect, m: Machine, sc: RegScopes, next: Reg) {
    Live(sc, next) && LeavesOff(effect, m, sc)
  }

  /** After both phases: operands and values are where they are held, the variables as they were. */
  lemma Evaluated(w: World, ts: seq<Target>, rhs: seq<Expr>, refs: seq<bool>, sc: RegScopes, scopes: Scopes, next: Reg, m: Machine)
    requires |ts| == |rhs| == |refs| && Is(m, sc, scopes, m.mem) && Live(sc, next)
    ensures var p := Prepare(AllOperands(ts), AllHolds(ts), sc, next); var q := Prepare(rhs, ValueHolds(rhs, refs), sc, p.next);
      var r, m', k := HoldStatement(w, ts, rhs, refs, scopes, m.mem), Run(w, p.code + q.code, m), |AllOperands(ts)|;
      && SameBelow(m.regs, m'.regs, next) && m'.mem == r.mem && m'.panicked == r.NoneHeld? && next <= p.next <= q.next
      && (r.AllHeld? ==> Ready(w, p.operands, r.held[..k], sc, m'.regs, next, q.next) && Ready(w, q.operands, r.held[k..], sc, m'.regs, next, q.next))
  {
    hide Agree, Live, Run, HoldAll, Ready, Prepare;
    var ops, holds, k := AllOperands(ts), AllHolds(ts), |AllOperands(ts)|;
    var p := Prepare(ops, holds, sc, next);
    var q := Prepare(rhs, ValueHolds(rhs, refs), sc, p.next);
    PrepareCorrect(w, ops, holds, sc, scopes, next, next, m);
    HoldConcat(w, ops, holds, rhs, ValueHolds(rhs, refs), scopes, m.mem);
    RunConcat(w, p.code, q.code, m);
    LiveMore(sc, next, p.next);
    PrepareRoom(rhs, ValueHolds(rhs, refs), sc, p.next);
    var a, m1 := HoldAll(w, ops, holds, scopes, m.mem), Run(w, p.code, m);
    if a.NoneHeld? {
      RunPanicked(w, q.code, m1);
    } else {
      AgreeKept(sc, scopes, m.regs, m1.regs, next);
      PrepareCorrect(w, rhs, ValueHolds(rhs, refs), sc, scopes, next, p.next, m1);
      var b, m2 := HoldAll(w, rhs, ValueHolds(rhs, refs), scopes, a.mem), Run(w, q.code, m1);
      if b.AllHeld? {
        ReadyStill(w, p.operands, a.held, sc, m1.regs, m2.regs, next, p.next, q.next);
        assert (a.held + b.held)[..k] == a.held && (a.held + b.held)[k..] == b.held;
      }
    }
  }

  /** The general form: each store uses what is held as it is by then; and if evaluation panics every variable is as it was. */
  lemma GeneralCorrect(w: World, ts: seq<Target>, rhs: seq<Expr>, refs: seq<bool>, sc: RegScopes, scopes: Scopes, next: Reg, m: Machine)
    requires |ts| == |rhs| == |refs| && Is(m, sc, scopes, m.mem) && Live(sc, next) && LowerGeneral(ts, rhs, refs, sc, next).Lowered?
    ensures var l := LowerGeneral(ts, rhs, refs, sc, next); Realises(AssignCurrent(w, ts, rhs, refs, scopes, m.mem), Run(w, l.code, m), sc, l.next)
    ensures var l := LowerGeneral(ts, rhs, refs, sc, next);
      HoldStatement(w, ts, rhs, refs, scopes, m.mem).NoneHeld? ==> Agree(sc, scopes, Run(w, l.code, m).regs)
  {
    hide Agree, Live, Run, StoreAllCurrent, StoreCode, HoldStatement, Ready, Prepare, ResultPlaces, Results;
    var k, p := |AllOperands(ts)|, Prepare(AllOperands(ts), AllHolds(ts), sc, next);
    var q := Prepare(rhs, ValueHolds(rhs, refs), sc, p.next);
    Evaluated(w, ts, rhs, refs, sc, scopes, next, m);
    LiveMore(sc, next, p.next);
    ValuesRoom(rhs, refs, sc, p.next);
    LiveMore(sc, next, q.next - |rhs|);
    var m1 := Run(w, p.code + q.code, m);
    AgreeKept(sc, scopes, m.regs, m1.regs, next);
    ResultsAgree(sc, scopes, m1.regs);
    var stores := StoreCode(ts, p.operands, q.operands, sc, q.next);
    RunConcat(w, p.code + q.code, stores.code, m);
    match HoldStatement(w, ts, rhs, refs, scopes, m.mem)
    case NoneHeld(mem) => RunPanicked(w, stores.code, m1);
    case AllHeld(held, mem) =>
      StoreCodeCorrect(w, ts, p.operands, q.operands, held[..k], held[k..], sc, scopes, mem, next, q.next, q.next, m1);
  }

  // ---------- swapping two fields ----------

  /** What a swap evaluates: the receiver twice and both fields, or a panic for a nil receiver. */
  lemma SwapValues(w: World, x: Name, kind: Kind, f: Name, g: Name, scopes: Scopes, mem: Memory)
    ensures var r := Read(Lookup(scopes, x), mem); var s, p := Load(mem, Cell(r, ByStar(kind))), Star(Ident(x), kind);
      EvalAll(w, [Ident(x), Ident(x), Field(p, g), Field(p, f)], All(4), scopes, mem)
      == if w.isNil(r) then AnyPanicked(mem) else AllReturned([r, r, w.part(s, g), w.part(s, f)], mem)
  {
    hide EvalAll, Lookup, Read, Load;
    var r, i, p := Read(Lookup(scopes, x), mem), Ident(x), Star(Ident(x), kind);
    var s := Load(mem, Cell(r, ByStar(kind)));
    assert Eval(w, i, scopes, mem) == Returned(r, mem);
    assert Eval(w, p, scopes, mem) == if w.isNil(r) then Panicked(mem) else Returned(s, mem);
    TwoRead(w, x, x, scopes, mem);
    EvalAllSnoc(w, [i, i], Field(p, g), scopes, mem);
    var three, values := [i, i, Field(p, g)], [r, r, w.part(s, g)];
    assert [i, i] + [Field(p, g)] == three && [r, r] + [w.part(s, g)] == values;
    EvalAllSnoc(w, three, Field(p, f), scopes, mem);
    assert three + [Field(p, f)] == [i, i, Field(p, g), Field(p, f)] && values + [w.part(s, f)] == [r, r, w.part(s, g), w.part(s, f)];
  }

  lemma TwoRead(w: World, x: Name, y: Name, scopes: Scopes, mem: Memory)
    ensures EvalAll(w, [Ident(x), Ident(y)], All(2), scopes, mem) == AllReturned([Read(Lookup(scopes, x), mem), Read(Lookup(scopes, y), mem)], mem)
  {
    hide EvalAll, Lookup, Read;
    var u, v := Read(Lookup(scopes, x), mem), Read(Lookup(scopes, y), mem);
    EvalAllNone(w, scopes, mem);
    EvalAllSnoc(w, [], Ident(x), scopes, mem);
    assert [] + [Ident(x)] == [Ident(x)] && [] + [u] == [u];
    EvalAllSnoc(w, [Ident(x)], Ident(y), scopes, mem);
    assert [Ident(x)] + [Ident(y)] == [Ident(x), Ident(y)] && [u] + [v] == [u, v];
  }

  lemma EvalAllNone(w: World, scopes: Scopes, mem: Memory)
    ensures EvalAll(w, [], All(0), scopes, mem) == AllReturned([], mem)
  {
  }

  lemma StoreTwo(w: World, t: Target, u: Target, ops: seq<Value>, values: seq<Value>, env: Env)
    requires t.ToField? && u.ToField? && |ops| == 2 && |values| == 2 && ops[0] == ops[1] && t.kind == u.kind && !w.isNil(ops[0])
    ensures AllOperands([t, u]) == [t.base, u.base]
    ensures var c := Cell(ops[0], ByStar(t.kind)); var s := Load(env.mem, c);
      StoreAll(w, [t, u], ops, values, env) == Effect(env.scopes, env.mem[c := w.with(w.with(s, t.field, values[0]), u.field, values[1])])
  {
    assert [t, u][..1] == [t] && [t][..0] == [];
    TwoOperandsOf(t, u);
    assert ops[..1][..0] == [] && values[..1][..0] == [];
    assert StoreAll(w, [], [], [], env) == Effect(env.scopes, env.mem);
    var c := Cell(ops[0], ByStar(t.kind));
    var s := Load(env.mem, c);
    var mid := Effect(env.scopes, env.mem[c := w.with(s, t.field, values[0])]);
    assert StoreAll(w, [t], ops[..1], values[..1], env) == mid;
    assert mid.mem[c := w.with(w.with(s, t.field, values[0]), u.field, values[1])] == env.mem[c := w.with(w.with(s, t.field, values[0]), u.field, values[1])];
  }

  lemma TwoOperandsOf(t: Target, u: Target)
    requires t.ToField? && u.ToField?
    ensures AllOperands([]) == [] && AllOperands([t]) == [t.base] && AllOperands([t, u]) == [t.base, u.base]
  {
    assert [t, u][..1] == [t] && [t][..0] == [];
  }

  /** What Go makes of a swap: one struct with two fields exchanged. */
  lemma SwapMeaning(w: World, ts: seq<Target>, rhs: seq<Expr>, scopes: Scopes, mem: Memory)
    requires IsFieldSwap(ts, rhs)
    ensures var r := Read(Lookup(scopes, ts[0].base.name), mem); var c := Cell(r, ByStar(ts[0].kind));
      TupleAssign(w, ts, rhs, scopes, mem)
      == if w.isNil(r) then Aborted(Results(scopes), mem) else Effect(scopes, mem[c := Swapped(w, Load(mem, c), ts[0].field, ts[1].field)])
  {
    hide EvalAll, StoreAll, AllOperands, Lookup, Read, Load, Results;
    var i, f, g, kind := ts[0].base, ts[0].field, ts[1].field, ts[0].kind;
    var r, p := Read(Lookup(scopes, i.name), mem), Star(i, kind);
    assert ts == [ts[0], ts[1]] && rhs == [Field(p, g), Field(p, f)];
    TwoOperandsOf(ts[0], ts[1]);
    assert [i, i] + rhs == [i, i, Field(p, g), Field(p, f)];
    SwapValues(w, i.name, kind, f, g, scopes, mem);
    if !w.isNil(r) {
      var s := Load(mem, Cell(r, ByStar(kind)));
      var values := [r, r, w.part(s, g), w.part(s, f)];
      StoreTwo(w, ts[0], ts[1], values[..2], values[2..], Env(scopes, mem));
    }
  }

  /** One instruction exchanges the fields exactly as the two assignments would, and panics where they would. */
  lemma SwapCorrect(w: World, ts: seq<Target>, rhs: seq<Expr>, sc: RegScopes, scopes: Scopes, next: Reg, m: Machine)
    requires IsFieldSwap(ts, rhs) && Is(m, sc, scopes, m.mem) && Live(sc, next)
    ensures var l := LowerSwap(ts, sc, next); Realises(TupleAssign(w, ts, rhs, scopes, m.mem), Run(w, l.code, m), sc, l.next)
  {
    hide Agree, Live, Run, TupleAssign, Lookup, Read, Load, CompileExpr, Results, ResultPlaces;
    var i := ts[0].base;
    SwapMeaning(w, ts, rhs, scopes, m.mem);
    var c := CompileExpr(i, sc, next);
    CompileExprCorrect(w, i, sc, scopes, next, m);
    RunSnoc(w, c.code, SwapFields(c.reg, ts[0].kind, ts[0].field, ts[1].field), m);
    AgreeKept(sc, scopes, m.regs, Run(w, c.code, m).regs, next);
    ResultsAgree(sc, scopes, Run(w, c.code, m).regs);
    LiveMore(sc, next, c.next);
  }

  // ---------- the whole lowering ----------

  /** Every plain variable on the left is declared. */
  ghost predicate AllDeclared(ts: seq<Target>, sc: RegScopes) {
    forall i :: 0 <= i < |ts| && ts[i].ToIdent? ==> LookupReg(sc, ts[i].name).Some?
  }

  /** The first undeclared name on the left. */
  ghost predicate FirstUndeclared(ts: seq<Target>, sc: RegScopes, x: Name) {
    LookupReg(sc, x).None? && exists i :: 0 <= i < |ts| && ts[i] == ToIdent(x) && AllDeclared(ts[..i], sc)
  }

  lemma DeclaredSnoc(ts: seq<Target>, sc: RegScopes)
    requires ts != []
    ensures var n := |ts| - 1; AllDeclared(ts, sc) <==> AllDeclared(ts[..n], sc) && (ts[n].ToIdent? ==> LookupReg(sc, ts[n].name).Some?)
  {
    var n := |ts| - 1;
    assert forall i :: 0 <= i < n ==> ts[..n][i] == ts[i];
  }

  lemma FirstStays(ts: seq<Target>, sc: RegScopes, x: Name)
    requires ts != [] && FirstUndeclared(ts[..|ts| - 1], sc, x)
    ensures FirstUndeclared(ts, sc, x)
  {
    var n := |ts| - 1;
    var i :| 0 <= i < n && ts[..n][i] == ToIdent(x) && AllDeclared(ts[..n][..i], sc);
    assert ts[..n][..i] == ts[..i];
  }

  /** The stores are refused exactly for an undeclared name, and name the first. */
  lemma {:induction false} StoreCodeDefined(ts: seq<Target>, ops: seq<Operand>, values: seq<Operand>, sc: RegScopes, scratch: Reg)
    requires |ops| == |AllOperands(ts)| && |values| == |ts|
    ensures var r := StoreCode(ts, ops, values, sc, scratch);
      (r.Stores? <==> AllDeclared(ts, sc)) && (r.Undefined? ==> FirstUndeclared(ts, sc, r.name))
    decreases |ts|
  {
    hide AllDeclared, FirstUndeclared, LookupReg, LoadAll, LoadRegs;
    if ts == [] {
      NoneUndeclared(sc);
    } else {
      var n := |ts| - 1;
      var k := |AllOperands(ts[..n])|;
      StoreCodeDefined(ts[..n], ops[..k], values[..n], sc, scratch);
      DeclaredSnoc(ts, sc);
      var before, r := StoreCode(ts[..n], ops[..k], values[..n], sc, scratch), StoreCode(ts, ops, values, sc, scratch);
      if before.Undefined? {
        FirstStays(ts, sc, before.name);
      } else if r.Undefined? {
        FirstAt(ts, sc);
      }
    }
  }

  lemma NoneUndeclared(sc: RegScopes)
    ensures AllDeclared([], sc)
  {
  }

  lemma FirstAt(ts: seq<Target>, sc: RegScopes)
    requires ts != [] && AllDeclared(ts[..|ts| - 1], sc) && ts[|ts| - 1].ToIdent? && LookupReg(sc, ts[|ts| - 1].name).None?
    ensures FirstUndeclared(ts, sc, ts[|ts| - 1].name)
  {
    var n := |ts| - 1;
    assert ts[n] == ToIdent(ts[n].name) && AllDeclared(ts[..n], sc);
  }

  /** The whole lowering: refused exactly for unequal counts or an undeclared name; otherwise the swap, or each store with what is held as it is by then. */
  lemma LowerMeans(w: World, ts: seq<Target>, rhs: seq<Expr>, refs: seq<bool>, layoutsMatch: bool, sc: RegScopes, scopes: Scopes, next: Reg, m: Machine)
    requires |refs| == |rhs| && Is(m, sc, scopes, m.mem) && Live(sc, next)
    ensures var l := Lower(ts, rhs, refs, layoutsMatch, sc, next);
      && (l.CountMismatch? <==> |ts| != |rhs|)
      && (l.Lowered? <==> |ts| == |rhs| && AllDeclared(ts, sc))
      && (l.UndefinedVariable? ==> FirstUndeclared(ts, sc, l.name))
      && (l.Lowered? ==>
           var swap := IsFieldSwap(ts, rhs) && layoutsMatch;
           Realises(if swap then TupleAssign(w, ts, rhs, scopes, m.mem) else AssignCurrent(w, ts, rhs, refs, scopes, m.mem), Run(w, l.code, m), sc, l.next))
  {
    hide Agree, Live, Run, TupleAssign, AssignCurrent, LookupReg, StoreCode, Prepare, Realises;
    if |ts| == |rhs| {
      if IsFieldSwap(ts, rhs) && layoutsMatch {
        SwapCorrect(w, ts, rhs, sc, scopes, next, m);
      } else {
        var p := Prepare(AllOperands(ts), AllHolds(ts), sc, next);
        var q := Prepare(rhs, ValueHolds(rhs, refs), sc, p.next);
        StoreCodeDefined(ts, p.operands, q.operands, sc, q.next);
        if LowerGeneral(ts, rhs, refs, sc, next).Lowered? {
          GeneralCorrect(w, ts, rhs, refs, sc, scopes, next, m);
        }
      }
    }
  }
}

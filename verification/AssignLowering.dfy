/** Register code for assignments: what the compiler emits, and that running it has Go's meaning. */
module AssignLowering {
  import opened Wrappers
  import opened GoAssign

  type Reg = nat

  // ---------- the machine ----------

  datatype Instr =
    | LoadLit(dest: Reg, n: int)
    | Move(dest: Reg, src: Reg)
    | ReadBox(dest: Reg, box: Reg, kind: Kind)
    | WriteBox(box: Reg, kind: Kind, src: Reg)
    | Operate(dest: Reg, op: Op, a: Reg, b: Reg)
    | GetField(dest: Reg, base: Reg, field: Name)
    | GetIndex(dest: Reg, base: Reg, index: Reg, elem: Elem)
    | GetStar(dest: Reg, base: Reg, kind: Kind)
    | CallFunction(dest: Reg, callee: Name, argument: Reg)
    | SetField(base: Reg, kind: Kind, field: Name, src: Reg)
    | SetIndex(base: Reg, index: Reg, elem: Elem, src: Reg)
    | SetStar(base: Reg, kind: Kind, src: Reg)
    | SwapFields(base: Reg, kind: Kind, first: Name, second: Name)

  datatype Machine = Machine(regs: map<Reg, Value>, mem: Memory, panicked: bool)

  function Get(regs: map<Reg, Value>, r: Reg): Value {
    if r in regs then regs[r] else ZERO
  }

  function Put(m: Machine, r: Reg, v: Value): Machine {
    m.(regs := m.regs[r := v])
  }

  function Fault(m: Machine): Machine {
    m.(panicked := true)
  }

  function SetCell(m: Machine, c: Cell, v: Value): Machine {
    m.(mem := m.mem[c := v])
  }

  /** A struct with two fields exchanged. */
  function Swapped(w: World, v: Value, f: Name, g: Name): Value {
    w.with(w.with(v, f, w.part(v, g)), g, w.part(v, f))
  }

  function Execute(w: World, i: Instr, m: Machine): Machine {
    if m.panicked then m
    else match i
      case LoadLit(d, n) => Put(m, d, Num(n))
      case Move(d, s) => Put(m, d, Get(m.regs, s))
      case ReadBox(d, b, kind) => Put(m, d, Load(m.mem, Cell(Get(m.regs, b), ByStar(kind))))
      case WriteBox(b, kind, s) => SetCell(m, Cell(Get(m.regs, b), ByStar(kind)), Get(m.regs, s))
      case Operate(d, op, a, b) =>
        if op.partial && w.fails(op.code, Get(m.regs, a), Get(m.regs, b)) then Fault(m)
        else Put(m, d, w.operator(op.code, Get(m.regs, a), Get(m.regs, b)))
      case GetField(d, b, f) => Put(m, d, w.part(Get(m.regs, b), f))
      case GetIndex(d, b, k, elem) =>
        if elem.Listed? && !w.inRange(Get(m.regs, b), Get(m.regs, k)) then Fault(m)
        else Put(m, d, Load(m.mem, Cell(Get(m.regs, b), ByIndex(Get(m.regs, k), elem))))
      case GetStar(d, b, kind) =>
        if w.isNil(Get(m.regs, b)) then Fault(m) else Put(m, d, Load(m.mem, Cell(Get(m.regs, b), ByStar(kind))))
      case CallFunction(d, f, a) =>
        (match w.call(f, Get(m.regs, a), m.mem)
         case Returned(v, mem) => Put(m.(mem := mem), d, v)
         case Panicked(mem) => Fault(m.(mem := mem)))
      case SetField(b, kind, f, s) =>
        var c := Cell(Get(m.regs, b), ByStar(kind));
        if w.isNil(Get(m.regs, b)) then Fault(m) else SetCell(m, c, w.with(Load(m.mem, c), f, Get(m.regs, s)))
      case SetIndex(b, k, elem, s) =>
        if !w.assignable(Get(m.regs, b), Get(m.regs, k)) then Fault(m)
        else SetCell(m, Cell(Get(m.regs, b), ByIndex(Get(m.regs, k), elem)), Get(m.regs, s))
      case SetStar(b, kind, s) =>
        if w.isNil(Get(m.regs, b)) then Fault(m) else SetCell(m, Cell(Get(m.regs, b), ByStar(kind)), Get(m.regs, s))
      case SwapFields(b, kind, f, g) =>
        if w.isNil(Get(m.regs, b)) then Fault(m)
        else
          var c := Cell(Get(m.regs, b), ByStar(kind));
          SetCell(m, c, Swapped(w, Load(m.mem, c), f, g))
  }

  function Run(w: World, code: seq<Instr>, m: Machine): Machine {
    if code == [] then m else Execute(w, code[|code| - 1], Run(w, code[..|code| - 1], m))
  }

  lemma {:induction false} RunConcat(w: World, a: seq<Instr>, b: seq<Instr>, m: Machine)
    ensures Run(w, a + b, m) == Run(w, b, Run(w, a, m))
    decreases |b|
  {
    hide Execute;
    if b == [] {
      assert a + b == a;
    } else {
      assert (a + b)[..|a + b| - 1] == a + b[..|b| - 1];
      RunConcat(w, a, b[..|b| - 1], m);
    }
  }

  lemma RunSnoc(w: World, a: seq<Instr>, i: Instr, m: Machine)
    ensures Run(w, a + [i], m) == Execute(w, i, Run(w, a, m))
  {
    hide Execute;
    assert (a + [i])[..|a|] == a;
  }

  lemma RunNone(w: World, m: Machine)
    ensures Run(w, [], m) == m
  {
  }

  lemma RunOne(w: World, i: Instr, m: Machine)
    ensures Run(w, [i], m) == Execute(w, i, m)
  {
    hide Execute;
    assert [] + [i] == [i];
    RunSnoc(w, [], i, m);
  }

  lemma {:induction false} RunPanicked(w: World, code: seq<Instr>, m: Machine)
    requires m.panicked
    ensures Run(w, code, m) == m
    decreases |code|
  {
    if code != [] {
      RunPanicked(w, code[..|code| - 1], m);
    }
  }

  // ---------- scopes of registers ----------

  /** The register of a variable, which holds its value or the reference to its box; and whether it is a named result. */
  datatype Place = Place(reg: Reg, box: Option<Kind>, result: bool)

  /** The place of each variable, innermost scope last. */
  type RegScopes = seq<map<Name, Place>>

  function LookupReg(sc: RegScopes, x: Name): Option<Place> {
    if sc == [] then None
    else if x in sc[|sc| - 1] then Some(sc[|sc| - 1][x])
    else LookupReg(sc[..|sc| - 1], x)
  }

  /** Scope k declares x. */
  predicate Has(sc: RegScopes, k: int, x: Name) {
    0 <= k < |sc| && x in sc[k]
  }

  /** Variables occupy distinct registers, all below the next free one. */
  ghost predicate Live(sc: RegScopes, next: Reg) {
    && (forall k, x :: Has(sc, k, x) ==> sc[k][x].reg < next)
    && (forall k, x, l, y :: Has(sc, k, x) && Has(sc, l, y) && sc[k][x].reg == sc[l][y].reg ==> k == l && x == y)
  }

  /** What a register must hold for a variable. */
  predicate Fits(p: Place, s: Slot, regs: map<Reg, Value>) {
    p.box == s.box && p.result == s.result && Get(regs, p.reg) == s.raw
  }

  /** The registers hold the variables. */
  ghost predicate Agree(sc: RegScopes, scopes: Scopes, regs: map<Reg, Value>) {
    && |sc| == |scopes|
    && (forall k :: 0 <= k < |sc| ==> sc[k].Keys == scopes[k].Keys)
    && (forall k, x :: Has(sc, k, x) ==> Fits(sc[k][x], scopes[k][x], regs))
  }

  /** The places of the named results. */
  function ResultPlaces(sc: RegScopes): (r: RegScopes)
    ensures |r| == |sc|
  {
    seq(|sc|, k requires 0 <= k < |sc| => map x | x in sc[k] && sc[k][x].result :: sc[k][x])
  }

  lemma ResultsAgree(sc: RegScopes, scopes: Scopes, regs: map<Reg, Value>)
    requires Agree(sc, scopes, regs)
    ensures Agree(ResultPlaces(sc), Results(scopes), regs)
  {
    var s, t := ResultPlaces(sc), Results(scopes);
    forall k, x | Has(s, k, x) ensures x in t[k] && Fits(s[k][x], t[k][x], regs) {
      assert Has(sc, k, x) && Fits(sc[k][x], scopes[k][x], regs);
    }
    forall k | 0 <= k < |s| ensures s[k].Keys == t[k].Keys {
      forall x | x in t[k] ensures x in s[k] {
        assert Has(sc, k, x) && Fits(sc[k][x], scopes[k][x], regs);
      }
      forall x | x in s[k] ensures x in t[k] {
        assert Has(s, k, x);
      }
    }
  }

  lemma AgreePrefix(sc: RegScopes, scopes: Scopes, regs: map<Reg, Value>, next: Reg)
    requires Agree(sc, scopes, regs) && Live(sc, next) && sc != []
    ensures |scopes| == |sc| && sc[|sc| - 1].Keys == scopes[|sc| - 1].Keys
    ensures var n := |sc| - 1; Agree(sc[..n], scopes[..n], regs) && Live(sc[..n], next)
  {
    var n := |sc| - 1;
    assert forall k, y :: Has(sc[..n], k, y) ==> Has(sc, k, y) && sc[..n][k][y] == sc[k][y];
  }

  lemma TopAgrees(sc: RegScopes, scopes: Scopes, regs: map<Reg, Value>, next: Reg, x: Name)
    requires Agree(sc, scopes, regs) && Live(sc, next) && sc != [] && x in sc[|sc| - 1]
    ensures x in scopes[|sc| - 1] && Fits(sc[|sc| - 1][x], scopes[|sc| - 1][x], regs) && sc[|sc| - 1][x].reg < next
  {
    assert Has(sc, |sc| - 1, x);
  }

  lemma {:induction false} LookupAgrees(sc: RegScopes, scopes: Scopes, regs: map<Reg, Value>, next: Reg, x: Name)
    requires Agree(sc, scopes, regs) && Live(sc, next)
    ensures match LookupReg(sc, x)
      case Some(p) => p.reg < next && Lookup(scopes, x).Some? && Fits(p, Lookup(scopes, x).value, regs)
      case None => Lookup(scopes, x).None?
    decreases |sc|
  {
    if sc != [] {
      hide Agree, Live;
      var n := |sc| - 1;
      AgreePrefix(sc, scopes, regs, next);
      if x in sc[n] {
        TopAgrees(sc, scopes, regs, next, x);
      } else {
        LookupAgrees(sc[..n], scopes[..n], regs, next, x);
      }
    }
  }

  lemma {:induction false} LookupBound(sc: RegScopes, next: Reg, x: Name)
    requires Live(sc, next)
    ensures LookupReg(sc, x).Some? ==> LookupReg(sc, x).value.reg < next
    decreases |sc|
  {
    if sc != [] {
      var n := |sc| - 1;
      if x in sc[n] {
        assert Has(sc, n, x);
      } else {
        assert forall k, y :: Has(sc[..n], k, y) ==> Has(sc, k, y);
        LookupBound(sc[..n], next, x);
      }
    }
  }

  /** Registers below a bound are the same in both files. */
  ghost predicate SameBelow(a: map<Reg, Value>, b: map<Reg, Value>, bound: Reg) {
    forall r :: 0 <= r < bound ==> Get(a, r) == Get(b, r)
  }

  lemma AgreeKept(sc: RegScopes, scopes: Scopes, a: map<Reg, Value>, b: map<Reg, Value>, next: Reg)
    requires Agree(sc, scopes, a) && Live(sc, next) && SameBelow(a, b, next)
    ensures Agree(sc, scopes, b)
  {
  }

  lemma LiveMore(sc: RegScopes, next: Reg, more: Reg)
    requires Live(sc, next) && next <= more
    ensures Live(sc, more)
  {
  }

  // ---------- expressions ----------

  datatype Compiled = Compiled(code: seq<Instr>, reg: Reg, next: Reg)

  /** A variable in a register compiles to it, one in a box to a read; every other expression to a fresh register. */
  function CompileExpr(e: Expr, sc: RegScopes, next: Reg): Compiled {
    match e
    case Lit(n) => Compiled([LoadLit(next, n)], next, next + 1)
    case Ident(x) =>
      (match LookupReg(sc, x)
       case Some(p) => if p.box.Some? then Compiled([ReadBox(next, p.reg, p.box.value)], next, next + 1) else Compiled([], p.reg, next)
       case None => Compiled([LoadLit(next, 0)], next, next + 1))
    case Binary(op, l, r) =>
      var a := CompileExpr(l, sc, next);
      var b := CompileExpr(r, sc, a.next);
      Compiled(a.code + b.code + [Operate(b.next, op, a.reg, b.reg)], b.next, b.next + 1)
    case Field(base, f) =>
      var a := CompileExpr(base, sc, next);
      Compiled(a.code + [GetField(a.next, a.reg, f)], a.next, a.next + 1)
    case Index(base, i, elem) =>
      var a := CompileExpr(base, sc, next);
      var b := CompileExpr(i, sc, a.next);
      Compiled(a.code + b.code + [GetIndex(b.next, a.reg, b.reg, elem)], b.next, b.next + 1)
    case Star(base, kind) =>
      var a := CompileExpr(base, sc, next);
      Compiled(a.code + [GetStar(a.next, a.reg, kind)], a.next, a.next + 1)
    case Call(f, arg) =>
      var a := CompileExpr(arg, sc, next);
      Compiled(a.code + [CallFunction(a.next, f, a.reg)], a.next, a.next + 1)
  }

  /** What running an expression's code does: its value in the result register, nothing below `next` disturbed. */
  ghost predicate Computes(r: Returned, m: Machine, m': Machine, reg: Reg, next: Reg) {
    match r
    case Returned(v, mem) => !m'.panicked && m'.mem == mem && Get(m'.regs, reg) == v && SameBelow(m.regs, m'.regs, next)
    case Panicked(mem) => m'.panicked && m'.mem == mem && SameBelow(m.regs, m'.regs, next)
  }

  /** Both operands' values are in place, or the evaluation already panicked. */
  ghost predicate Both(r1: Returned, r2: Returned, a: Reg, b: Reg, m: Machine, m2: Machine, next: Reg) {
    && SameBelow(m.regs, m2.regs, next)
    && if r1.Panicked? then m2.panicked && m2.mem == r1.mem
       else if r2.Panicked? then m2.panicked && m2.mem == r2.mem
       else !m2.panicked && m2.mem == r2.mem && Get(m2.regs, a) == r1.value && Get(m2.regs, b) == r2.value
  }

  /** Two operands in sequence: the first value survives the second's code. */
  lemma TwoOperands(w: World, r1: Returned, r2: Returned, a: Compiled, b: Compiled, next: Reg, m: Machine)
    requires next <= a.next <= b.next && a.reg < a.next && Computes(r1, m, Run(w, a.code, m), a.reg, next)
    requires r1.Returned? ==> Computes(r2, Run(w, a.code, m), Run(w, b.code, Run(w, a.code, m)), b.reg, a.next)
    ensures Both(r1, r2, a.reg, b.reg, m, Run(w, a.code + b.code, m), next)
  {
    hide Run, Execute;
    RunConcat(w, a.code, b.code, m);
    if r1.Panicked? {
      RunPanicked(w, b.code, Run(w, a.code, m));
    }
  }

  /** What an instruction that loads or computes makes of the machine: a value in `d`, or a panic with memory as it was. */
  ghost predicate Yields(before: Machine, after: Machine, d: Reg, v: Option<Value>) {
    if v.Some? then after == Put(before, d, v.value) else after == Fault(before)
  }

  function Result(v: Option<Value>, mem: Memory): Returned {
    if v.Some? then Returned(v.value, mem) else Panicked(mem)
  }

  lemma OneMore(w: World, r: Returned, a: Compiled, i: Instr, v: Option<Value>, m: Machine, next: Reg)
    requires Computes(r, m, Run(w, a.code, m), a.reg, next) && next <= a.next
    requires r.Returned? ==> Yields(Run(w, a.code, m), Execute(w, i, Run(w, a.code, m)), a.next, v)
    ensures Computes(if r.Panicked? then r else Result(v, r.mem), m, Run(w, a.code + [i], m), a.next, next)
  {
    RunSnoc(w, a.code, i, m);
  }

  lemma PairMore(w: World, r1: Returned, r2: Returned, a: Reg, b: Reg, code: seq<Instr>, i: Instr, d: Reg, v: Option<Value>, m: Machine, next: Reg)
    requires Both(r1, r2, a, b, m, Run(w, code, m), next) && next <= d
    requires r1.Returned? && r2.Returned? ==> Yields(Run(w, code, m), Execute(w, i, Run(w, code, m)), d, v)
    ensures Computes(if r1.Panicked? then r1 else if r2.Panicked? then r2 else Result(v, r2.mem), m, Run(w, code + [i], m), d, next)
  {
    RunSnoc(w, code, i, m);
  }

  /** Compiled expressions evaluate. */
  lemma {:induction false} CompileExprCorrect(w: World, e: Expr, sc: RegScopes, scopes: Scopes, next: Reg, m: Machine)
    requires Agree(sc, scopes, m.regs) && Live(sc, next) && !m.panicked
    ensures var c := CompileExpr(e, sc, next);
      next <= c.next && c.reg < c.next && Computes(Eval(w, e, scopes, m.mem), m, Run(w, c.code, m), c.reg, next)
    decreases e, 1
  {
    hide Agree, Live, Run;
    CompileBounds(e, sc, next);
    match e
    case Lit(n) => RunOne(w, LoadLit(next, n), m);
    case Ident(x) => IdentCorrect(w, x, sc, scopes, next, m);
    case Binary(op, l, r) =>
      PairCorrect(w, e, l, r, sc, scopes, next, m);
      BinaryCorrect(w, op, l, r, sc, scopes, next, m);
    case Index(l, r, elem) =>
      PairCorrect(w, e, l, r, sc, scopes, next, m);
      IndexCorrect(w, l, r, elem, sc, scopes, next, m);
    case Field(b, f) =>
      CompileExprCorrect(w, b, sc, scopes, next, m);
      FieldCorrect(w, b, f, sc, scopes, next, m);
    case Star(b, kind) =>
      CompileExprCorrect(w, b, sc, scopes, next, m);
      StarCorrect(w, b, kind, sc, scopes, next, m);
    case Call(f, arg) =>
      CompileExprCorrect(w, arg, sc, scopes, next, m);
      CallCorrect(w, f, arg, sc, scopes, next, m);
  }

  lemma IdentCorrect(w: World, x: Name, sc: RegScopes, scopes: Scopes, next: Reg, m: Machine)
    requires Agree(sc, scopes, m.regs) && Live(sc, next) && !m.panicked
    ensures var c := CompileExpr(Ident(x), sc, next); Computes(Eval(w, Ident(x), scopes, m.mem), m, Run(w, c.code, m), c.reg, next)
  {
    LookupAgrees(sc, scopes, m.regs, next, x);
    hide Agree, Live, Run, Lookup, LookupReg;
    RunNone(w, m);
    RunOne(w, LoadLit(next, 0), m);
    if LookupReg(sc, x).Some? && LookupReg(sc, x).value.box.Some? {
      var p := LookupReg(sc, x).value;
      RunOne(w, ReadBox(next, p.reg, p.box.value), m);
    }
  }

  /** One operand compiled and run. */
  ghost predicate OperandDone(w: World, e: Expr, sc: RegScopes, scopes: Scopes, next: Reg, m: Machine) {
    var c := CompileExpr(e, sc, next);
    next <= c.next && Computes(Eval(w, e, scopes, m.mem), m, Run(w, c.code, m), c.reg, next)
  }

  lemma FieldCorrect(w: World, b: Expr, f: Name, sc: RegScopes, scopes: Scopes, next: Reg, m: Machine)
    requires OperandDone(w, b, sc, scopes, next, m)
    ensures var c := CompileExpr(Field(b, f), sc, next); Computes(Eval(w, Field(b, f), scopes, m.mem), m, Run(w, c.code, m), c.reg, next)
  {
    hide Run;
    var a, r := CompileExpr(b, sc, next), Eval(w, b, scopes, m.mem);
    var v := if r.Returned? then Some(w.part(r.value, f)) else None;
    OneMore(w, r, a, GetField(a.next, a.reg, f), v, m, next);
  }

  lemma StarCorrect(w: World, b: Expr, kind: Kind, sc: RegScopes, scopes: Scopes, next: Reg, m: Machine)
    requires OperandDone(w, b, sc, scopes, next, m)
    ensures var c := CompileExpr(Star(b, kind), sc, next); Computes(Eval(w, Star(b, kind), scopes, m.mem), m, Run(w, c.code, m), c.reg, next)
  {
    hide Run;
    var a, r := CompileExpr(b, sc, next), Eval(w, b, scopes, m.mem);
    var v := if r.Returned? && !w.isNil(r.value) then Some(Load(r.mem, Cell(r.value, ByStar(kind)))) else None;
    OneMore(w, r, a, GetStar(a.next, a.reg, kind), v, m, next);
  }

  lemma CallCorrect(w: World, f: Name, arg: Expr, sc: RegScopes, scopes: Scopes, next: Reg, m: Machine)
    requires OperandDone(w, arg, sc, scopes, next, m)
    ensures var c := CompileExpr(Call(f, arg), sc, next); Computes(Eval(w, Call(f, arg), scopes, m.mem), m, Run(w, c.code, m), c.reg, next)
  {
    hide Run;
    var a := CompileExpr(arg, sc, next);
    RunSnoc(w, a.code, CallFunction(a.next, f, a.reg), m);
  }

  /** Both operands compiled and run. */
  ghost predicate OperandsDone(w: World, l: Expr, r: Expr, sc: RegScopes, scopes: Scopes, next: Reg, m: Machine) {
    var a := CompileExpr(l, sc, next);
    var b := CompileExpr(r, sc, a.next);
    var r1 := Eval(w, l, scopes, m.mem);
    next <= b.next && Both(r1, Eval(w, r, scopes, r1.mem), a.reg, b.reg, m, Run(w, a.code + b.code, m), next)
  }

  /** Compiles two operands one after the other. */
  lemma {:induction false} PairCorrect(w: World, e: Expr, l: Expr, r: Expr, sc: RegScopes, scopes: Scopes, next: Reg, m: Machine)
    requires (e.Binary? && l == e.left && r == e.right) || (e.Index? && l == e.base && r == e.index)
    requires Agree(sc, scopes, m.regs) && Live(sc, next) && !m.panicked
    ensures OperandsDone(w, l, r, sc, scopes, next, m)
    decreases e, 0
  {
    hide Run, Agree, Live;
    var a := CompileExpr(l, sc, next);
    var b := CompileExpr(r, sc, a.next);
    CompileExprCorrect(w, l, sc, scopes, next, m);
    var m1 := Run(w, a.code, m);
    LiveMore(sc, next, a.next);
    CompileBounds(r, sc, a.next);
    if !m1.panicked {
      AgreeKept(sc, scopes, m.regs, m1.regs, next);
      CompileExprCorrect(w, r, sc, scopes, a.next, m1);
    }
    TwoOperands(w, Eval(w, l, scopes, m.mem), Eval(w, r, scopes, m1.mem), a, b, next, m);
  }

  lemma BinaryCorrect(w: World, op: Op, l: Expr, r: Expr, sc: RegScopes, scopes: Scopes, next: Reg, m: Machine)
    requires OperandsDone(w, l, r, sc, scopes, next, m)
    ensures var c := CompileExpr(Binary(op, l, r), sc, next);
      Computes(Eval(w, Binary(op, l, r), scopes, m.mem), m, Run(w, c.code, m), c.reg, next)
  {
    hide Run;
    var a := CompileExpr(l, sc, next);
    var b := CompileExpr(r, sc, a.next);
    var r1 := Eval(w, l, scopes, m.mem);
    var r2 := Eval(w, r, scopes, r1.mem);
    var v := if r1.Returned? && r2.Returned? && !(op.partial && w.fails(op.code, r1.value, r2.value))
      then Some(w.operator(op.code, r1.value, r2.value)) else None;
    PairMore(w, r1, r2, a.reg, b.reg, a.code + b.code, Operate(b.next, op, a.reg, b.reg), b.next, v, m, next);
  }

  lemma IndexCorrect(w: World, l: Expr, r: Expr, elem: Elem, sc: RegScopes, scopes: Scopes, next: Reg, m: Machine)
    requires OperandsDone(w, l, r, sc, scopes, next, m)
    ensures var c := CompileExpr(Index(l, r, elem), sc, next);
      Computes(Eval(w, Index(l, r, elem), scopes, m.mem), m, Run(w, c.code, m), c.reg, next)
  {
    hide Run;
    var a := CompileExpr(l, sc, next);
    var b := CompileExpr(r, sc, a.next);
    var r1 := Eval(w, l, scopes, m.mem);
    var r2 := Eval(w, r, scopes, r1.mem);
    var v := if r1.Returned? && r2.Returned? && !(elem.Listed? && !w.inRange(r1.value, r2.value)) then Some(Load(r2.mem, Cell(r1.value, ByIndex(r2.value, elem)))) else None;
    PairMore(w, r1, r2, a.reg, b.reg, a.code + b.code, GetIndex(b.next, a.reg, b.reg, elem), b.next, v, m, next);
  }

  lemma {:induction false} CompileBounds(e: Expr, sc: RegScopes, next: Reg)
    requires Live(sc, next)
    ensures next <= CompileExpr(e, sc, next).next && CompileExpr(e, sc, next).reg < CompileExpr(e, sc, next).next
    decreases e
  {
    match e
    case Lit(_) =>
    case Ident(x) => LookupBound(sc, next, x);
    case Binary(op, l, r) => CompileBounds(l, sc, next); CompileBounds(r, sc, CompileExpr(l, sc, next).next);
    case Index(l, r, _) => CompileBounds(l, sc, next); CompileBounds(r, sc, CompileExpr(l, sc, next).next);
    case Field(b, _) => CompileBounds(b, sc, next);
    case Star(b, _) => CompileBounds(b, sc, next);
    case Call(f, arg) => CompileBounds(arg, sc, next);
  }
}

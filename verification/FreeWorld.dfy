/** A world in which every value spells out the term it stands for, so that nothing is equal by accident. */
module FreeWorld {
  import opened Wrappers
  import opened GoAssign
  import opened AssignLowering
  import opened AssignTrace
  import opened AssignHistory
  import opened ShortVarSequential

  // ---------- values that spell out terms ----------

  function Node(tag: int, number: int, a: Value, b: Value): Value {
    Pair(Pair(Num(tag), Num(number)), Pair(a, b))
  }

  function ElemCode(elem: Elem): Value {
    match elem
    case Mapped => Text("")
    case Listed(kind) => Num(kind)
  }

  function Code(t: Term): Value {
    match t
    case TNum(n) => Num(n)
    case TVar(l, x) => Node(1, l, Text(x), ZERO)
    case TOp(c, a, b) => Node(2, c, Code(a), Code(b))
    case TField(b, f) => Node(3, 0, Code(b), Text(f))
    case TIndex(e, b, i, elem) => Node(4, e, Code(b), Pair(ElemCode(elem), Code(i)))
    case TStar(e, b, kind) => Node(5, e, Code(b), Num(kind))
    case TResult(i) => Node(6, i, ZERO, ZERO)
  }

  lemma {:induction false} CodeInjective(a: Term, b: Term)
    requires Code(a) == Code(b)
    ensures a == b
    decreases a
  {
    match a
    case TNum(_) =>
    case TVar(_, _) =>
    case TOp(_, l, r) => CodeInjective(l, b.left); CodeInjective(r, b.right);
    case TField(l, _) => CodeInjective(l, b.base);
    case TIndex(_, l, r, _) => CodeInjective(l, b.base); CodeInjective(r, b.index);
    case TStar(_, l, _) => CodeInjective(l, b.base);
    case TResult(_) =>
  }

  // ---------- memory that tells the epoch ----------

  /** The cell that counts the calls made. */
  const TICK := Cell(Node(0, 0, ZERO, ZERO), ByStar(0))

  function Content(k: nat, c: Cell): Value {
    if c == TICK then Num(k)
    else match c.selector
      case ByIndex(i, elem) => Node(4, k, c.base, Pair(ElemCode(elem), i))
      case ByStar(kind) => Node(5, k, c.base, Num(kind))
  }

  ghost function FreeMem(k: nat): Memory {
    imap c: Cell | true :: Content(k, c)
  }

  function Tick(mem: Memory): nat {
    match Load(mem, TICK)
    case Num(n) => if n >= 0 then n else 0
    case _ => 0
  }

  /** The one check that fails, the one call that panics. */
  datatype Rig = Rig(fail: Option<Check>, stop: Option<nat>)

  predicate NilIn(rig: Rig, v: Value) {
    rig.fail.Some? && rig.fail.value.NotNil? && v == Code(rig.fail.value.term)
  }

  predicate RangeIn(rig: Rig, b: Value, i: Value) {
    !(rig.fail.Some? && rig.fail.value.InRange? && b == Code(rig.fail.value.base) && i == Code(rig.fail.value.index))
  }

  predicate FailsIn(rig: Rig, c: nat, a: Value, b: Value) {
    rig.fail.Some? && rig.fail.value.Defined? && c == rig.fail.value.code && a == Code(rig.fail.value.left) && b == Code(rig.fail.value.right)
  }

  ghost function CallIn(rig: Rig, mem: Memory): Returned {
    if rig.stop == Some(Tick(mem)) then Panicked(mem) else Returned(Code(TResult(Tick(mem))), FreeMem(Tick(mem) + 1))
  }

  ghost function Free(rig: Rig): World {
    World((c: nat, a, b) => Node(2, c, a, b), (v, f) => Node(3, 0, v, Text(f)), (v, f, u) => v, (c: nat, a, b) => FailsIn(rig, c, a, b), v => NilIn(rig, v), (b, i) => RangeIn(rig, b, i),
      (b, i) => true, (f, v, mem) => CallIn(rig, mem))
  }

  // ---------- memory with some boxes written ----------

  /** The box of a variable of scope `top` that is among the names. */
  ghost predicate Written(c: Cell, top: nat, names: set<Name>) {
    c.selector.ByStar? && exists x :: x in names && c.base == Code(TVar(top, x))
  }

  /** Memory of epoch k, but for the boxes of these variables. */
  ghost predicate Tracks(mem: Memory, k: nat, top: nat, names: set<Name>) {
    forall c: Cell :: !Written(c, top, names) ==> Load(mem, c) == Content(k, c)
  }

  lemma TracksTick(mem: Memory, k: nat, top: nat, names: set<Name>)
    requires Tracks(mem, k, top, names)
    ensures Tick(mem) == k
  {
    assert !Written(TICK, top, names);
  }

  lemma FreshTracks(k: nat, top: nat, names: set<Name>)
    ensures Tracks(FreeMem(k), k, top, names) && Tick(FreeMem(k)) == k
  {
  }

  /** Something in the rig goes off in epoch l. */
  predicate Trips(rig: Rig, dues: set<Due>, end: nat, l: nat) {
    (rig.fail.Some? && Due(l, rig.fail.value) in dues) || (rig.stop == Some(l) && l < end)
  }

  /** An evaluation from epoch k to its end, stopped by the first thing to go off. */
  ghost predicate RunsTo(rig: Rig, dues: set<Due>, k: nat, end: nat, panicked: bool, mem: Memory, top: nat, names: set<Name>) {
    && k <= Tick(mem) <= end && Tracks(mem, Tick(mem), top, names)
    && (forall l :: k <= l < Tick(mem) ==> !Trips(rig, dues, end, l))
    && (if panicked then Trips(rig, dues, end, Tick(mem)) else Tick(mem) == end && !Trips(rig, dues, end, end))
  }

  lemma RunsStopped(rig: Rig, a: set<Due>, b: set<Due>, k: nat, mid: nat, end: nat, mem: Memory, top: nat, names: set<Name>)
    requires k <= mid <= end && Within(b, mid, end) && RunsTo(rig, a, k, mid, true, mem, top, names)
    ensures RunsTo(rig, a + b, k, end, true, mem, top, names)
  {
    hide Tracks;
    forall l | k <= l < Tick(mem) ensures !Trips(rig, a + b, end, l) {
      assert !Trips(rig, a, mid, l);
    }
  }

  lemma RunsOn(rig: Rig, a: set<Due>, b: set<Due>, k: nat, mid: nat, end: nat, between: Memory, panicked: bool, mem: Memory, top: nat, names: set<Name>)
    requires k <= mid <= end && Within(a, k, mid) && Within(b, mid, end)
    requires RunsTo(rig, a, k, mid, false, between, top, names) && RunsTo(rig, b, mid, end, panicked, mem, top, names)
    ensures RunsTo(rig, a + b, k, end, panicked, mem, top, names)
  {
    hide Tracks, Tick;
    var now := Tick(mem);
    forall l | k <= l < now ensures !Trips(rig, a + b, end, l) {
      if l < mid {
        assert !Trips(rig, a, mid, l);
      } else {
        assert !Trips(rig, b, end, l);
        assert !Trips(rig, a, mid, mid);
      }
    }
    if !panicked {
      assert !Trips(rig, b, end, end) && !Trips(rig, a, mid, mid);
    }
  }

  lemma NoMore(rig: Rig, k: nat, mem: Memory, top: nat, names: set<Name>)
    requires Tracks(mem, k, top, names)
    ensures RunsTo(rig, {}, k, k, false, mem, top, names)
  {
    TracksTick(mem, k, top, names);
  }

  lemma OneCheck(rig: Rig, c: Check, k: nat, fails: bool, mem: Memory, top: nat, names: set<Name>)
    requires Tracks(mem, k, top, names) && fails == (rig.fail == Some(c))
    ensures RunsTo(rig, {Due(k, c)}, k, k, fails, mem, top, names)
  {
    hide Tracks;
    TracksTick(mem, k, top, names);
    assert Trips(rig, {Due(k, c)}, k, k) == fails;
  }

  // ---------- evaluation in the free world ----------

  /** The variables an expression reads hold their own terms, and none of them was written. */
  ghost predicate Visible(e: Expr, sc: RegScopes, scopes: Scopes, names: set<Name>) {
    forall x :: x in Idents(e) ==> x !in names && Spelled(x, sc, scopes)
  }

  ghost predicate Spelled(x: Name, sc: RegScopes, scopes: Scopes) {
    match LookupReg(sc, x)
    case Some(p) => Lookup(scopes, x) == Some(Slot(Code(TVar(LevelOf(sc, x), x)), p.box, p.result))
    case None => Lookup(scopes, x).None?
  }

  /** An evaluation spells out the expression's term, unless something in the rig goes off. */
  ghost predicate Spells(rig: Rig, e: Expr, sc: RegScopes, k: nat, mem: Memory, r: Returned, top: nat, names: set<Name>) {
    && RunsTo(rig, Checks(e, sc, k), k, k + Calls(e), r.Panicked?, r.mem, top, names)
    && (r.Returned? ==> r.value == Code(Sym(e, sc, k)))
    && (Tick(r.mem) == k ==> r.mem == mem)
  }

  lemma {:induction false} FreeEval(rig: Rig, e: Expr, sc: RegScopes, scopes: Scopes, k: nat, mem: Memory, top: nat, names: set<Name>)
    requires Visible(e, sc, scopes, names) && Tracks(mem, k, top, names)
    ensures Spells(rig, e, sc, k, mem, Eval(Free(rig), e, scopes, mem), top, names)
    decreases e
  {
    hide Spelled, Tracks, Free, Spells, Checks, Sym, Code, RunsTo;
    match e
    case Lit(n) => FreeLit(rig, n, sc, scopes, k, mem, top, names);
    case Ident(x) => FreeIdent(rig, x, sc, scopes, k, mem, top, names);
    case Binary(op, l, r) =>
      var a := Eval(Free(rig), l, scopes, mem);
      FreeEval(rig, l, sc, scopes, k, mem, top, names);
      if a.Returned? {
        SpellsTracks(rig, l, sc, k, mem, a, top, names);
        FreeEval(rig, r, sc, scopes, k + Calls(l), a.mem, top, names);
      }
      FreeBinary(rig, op, l, r, sc, scopes, k, mem, top, names);
    case Field(b, f) =>
      FreeEval(rig, b, sc, scopes, k, mem, top, names);
      FreeField(rig, b, f, sc, scopes, k, mem, top, names);
    case Index(l, r, elem) =>
      var a := Eval(Free(rig), l, scopes, mem);
      FreeEval(rig, l, sc, scopes, k, mem, top, names);
      if a.Returned? {
        SpellsTracks(rig, l, sc, k, mem, a, top, names);
        FreeEval(rig, r, sc, scopes, k + Calls(l), a.mem, top, names);
      }
      FreeIndex(rig, l, r, elem, sc, scopes, k, mem, top, names);
    case Star(b, kind) =>
      FreeEval(rig, b, sc, scopes, k, mem, top, names);
      FreeStar(rig, b, kind, sc, scopes, k, mem, top, names);
    case Call(f, arg) =>
      FreeEval(rig, arg, sc, scopes, k, mem, top, names);
      FreeCall(rig, f, arg, sc, scopes, k, mem, top, names);
  }

  lemma SpellsTracks(rig: Rig, e: Expr, sc: RegScopes, k: nat, mem: Memory, r: Returned, top: nat, names: set<Name>)
    requires Spells(rig, e, sc, k, mem, r, top, names) && r.Returned?
    ensures Tracks(r.mem, k + Calls(e), top, names) && Tick(r.mem) == k + Calls(e)
  {
  }

  lemma FreeLit(rig: Rig, n: int, sc: RegScopes, scopes: Scopes, k: nat, mem: Memory, top: nat, names: set<Name>)
    requires Tracks(mem, k, top, names)
    ensures Spells(rig, Lit(n), sc, k, mem, Eval(Free(rig), Lit(n), scopes, mem), top, names)
  {
    hide Tracks, RunsTo;
    NoMore(rig, k, mem, top, names);
  }

  lemma FreeIdent(rig: Rig, x: Name, sc: RegScopes, scopes: Scopes, k: nat, mem: Memory, top: nat, names: set<Name>)
    requires Spelled(x, sc, scopes) && x !in names && Tracks(mem, k, top, names)
    ensures Spells(rig, Ident(x), sc, k, mem, Eval(Free(rig), Ident(x), scopes, mem), top, names)
  {
    hide RunsTo, LookupReg, Lookup, LevelOf;
    NoMore(rig, k, mem, top, names);
    var t := TVar(LevelOf(sc, x), x);
    if LookupReg(sc, x).Some? && LookupReg(sc, x).value.box.Some? {
      StarCell(t, LookupReg(sc, x).value.box.value, k, mem, top, names);
    }
  }

  /** A pointer that spells out a term other than a written variable's. */
  lemma StarCell(t: Term, kind: Kind, k: nat, mem: Memory, top: nat, names: set<Name>)
    requires Tracks(mem, k, top, names) && forall x :: x in names ==> t != TVar(top, x)
    ensures Load(mem, Cell(Code(t), ByStar(kind))) == Code(TStar(k, t, kind))
  {
    var c := Cell(Code(t), ByStar(kind));
    if Written(c, top, names) {
      var x :| x in names && c.base == Code(TVar(top, x));
      CodeInjective(t, TVar(top, x));
      assert false;
    }
    assert c != TICK;
  }

  lemma IndexCell(t: Term, i: Term, elem: Elem, k: nat, mem: Memory, top: nat, names: set<Name>)
    requires Tracks(mem, k, top, names)
    ensures Load(mem, Cell(Code(t), ByIndex(Code(i), elem))) == Code(TIndex(k, t, i, elem))
  {
    assert !Written(Cell(Code(t), ByIndex(Code(i), elem)), top, names);
  }

  lemma NilIs(rig: Rig, t: Term)
    ensures NilIn(rig, Code(t)) == (rig.fail == Some(NotNil(t)))
  {
    if NilIn(rig, Code(t)) {
      CodeInjective(t, rig.fail.value.term);
    }
  }

  lemma RangeIs(rig: Rig, b: Term, i: Term)
    ensures !RangeIn(rig, Code(b), Code(i)) == (rig.fail == Some(InRange(b, i)))
  {
    if !RangeIn(rig, Code(b), Code(i)) {
      CodeInjective(b, rig.fail.value.base);
      CodeInjective(i, rig.fail.value.index);
    }
  }

  lemma FailsIs(rig: Rig, c: nat, a: Term, b: Term)
    ensures FailsIn(rig, c, Code(a), Code(b)) == (rig.fail == Some(Defined(c, a, b)))
  {
    if FailsIn(rig, c, Code(a), Code(b)) {
      CodeInjective(a, rig.fail.value.left);
      CodeInjective(b, rig.fail.value.right);
    }
  }

  /** One check more at the end. */
  lemma OwnCheck(rig: Rig, a: set<Due>, c: Check, k: nat, mid: nat, panicked: bool, fails: bool, mem: Memory, top: nat, names: set<Name>)
    requires k <= mid && Within(a, k, mid) && RunsTo(rig, a, k, mid, panicked, mem, top, names)
    requires panicked || fails == (rig.fail == Some(c))
    ensures RunsTo(rig, a + {Due(mid, c)}, k, mid, panicked || fails, mem, top, names)
  {
    if panicked {
      RunsStopped(rig, a, {Due(mid, c)}, k, mid, mid, mem, top, names);
    } else {
      OneCheck(rig, c, mid, fails, mem, top, names);
      hide RunsTo;
      RunsOn(rig, a, {Due(mid, c)}, k, mid, mid, mem, fails, mem, top, names);
    }
  }

  lemma FreeField(rig: Rig, b: Expr, f: Name, sc: RegScopes, scopes: Scopes, k: nat, mem: Memory, top: nat, names: set<Name>)
    requires Spells(rig, b, sc, k, mem, Eval(Free(rig), b, scopes, mem), top, names)
    ensures Spells(rig, Field(b, f), sc, k, mem, Eval(Free(rig), Field(b, f), scopes, mem), top, names)
  {
    hide RunsTo, NilIn, Tick, Load, Tracks;
  }

  lemma FreeStar(rig: Rig, b: Expr, kind: Kind, sc: RegScopes, scopes: Scopes, k: nat, mem: Memory, top: nat, names: set<Name>)
    requires Spells(rig, b, sc, k, mem, Eval(Free(rig), b, scopes, mem), top, names) && Visible(b, sc, scopes, names)
    ensures Spells(rig, Star(b, kind), sc, k, mem, Eval(Free(rig), Star(b, kind), scopes, mem), top, names)
  {
    hide RunsTo, Code, NilIn, Tick, Load, Tracks;
    var r, t := Eval(Free(rig), b, scopes, mem), Sym(b, sc, k);
    ChecksWithin(b, sc, k);
    if r.Returned? {
      SpellsTracks(rig, b, sc, k, mem, r, top, names);
      NotThose(b, sc, scopes, k, top, names);
      StarCell(t, kind, k + Calls(b), r.mem, top, names);
    }
    NilIs(rig, t);
    OwnCheck(rig, Checks(b, sc, k), NotNil(t), k, k + Calls(b), r.Panicked?, NilIn(rig, Code(t)), r.mem, top, names);
  }

  /** No expression stands for a variable it does not mention. */
  lemma NotThose(e: Expr, sc: RegScopes, scopes: Scopes, k: nat, top: nat, names: set<Name>)
    requires Visible(e, sc, scopes, names)
    ensures forall x :: x in names ==> Sym(e, sc, k) != TVar(top, x)
  {
    hide Spelled, LookupReg, LevelOf;
  }

  /** What evaluating two operands in a row comes to. */
  function Second(a: Returned, b: Returned): Returned {
    if a.Panicked? then a else b
  }

  /** Both operands were evaluated. */
  ghost predicate SpellsBoth(rig: Rig, l: Expr, r: Expr, sc: RegScopes, k: nat, mem: Memory, a: Returned, b: Returned, top: nat, names: set<Name>) {
    && Spells(rig, l, sc, k, mem, a, top, names)
    && (a.Returned? ==> Spells(rig, r, sc, k + Calls(l), a.mem, b, top, names))
  }

  lemma BothRun(rig: Rig, l: Expr, r: Expr, sc: RegScopes, k: nat, mem: Memory, a: Returned, b: Returned, top: nat, names: set<Name>)
    requires SpellsBoth(rig, l, r, sc, k, mem, a, b, top, names)
    ensures var mid, end, s := k + Calls(l), k + Calls(l) + Calls(r), Second(a, b);
      && Within(Checks(l, sc, k) + Checks(r, sc, mid), k, end)
      && RunsTo(rig, Checks(l, sc, k) + Checks(r, sc, mid), k, end, s.Panicked?, s.mem, top, names)
      && (Tick(s.mem) == k ==> s.mem == mem)
      && (s.Returned? ==> Tracks(s.mem, end, top, names))
  {
    hide Checks, Sym, Code, Calls, Tracks, Trips, Within;
    var mid, end := k + Calls(l), k + Calls(l) + Calls(r);
    ChecksWithin(l, sc, k);
    ChecksWithin(r, sc, mid);
    WithinBoth(Checks(l, sc, k), Checks(r, sc, mid), k, mid, end);
    if a.Panicked? {
      RunsStopped(rig, Checks(l, sc, k), Checks(r, sc, mid), k, mid, end, a.mem, top, names);
    } else {
      RunsOn(rig, Checks(l, sc, k), Checks(r, sc, mid), k, mid, end, a.mem, b.Panicked?, b.mem, top, names);
    }
  }

  lemma BinaryTerms(op: Op, l: Expr, r: Expr, sc: RegScopes, k: nat)
    ensures var e, u, v, mid, end := Binary(op, l, r), Sym(l, sc, k), Sym(r, sc, k + Calls(l)), k + Calls(l), k + Calls(l) + Calls(r);
      && Calls(e) == Calls(l) + Calls(r) && Code(Sym(e, sc, k)) == Node(2, op.code, Code(u), Code(v))
      && Checks(e, sc, k)
         == Checks(l, sc, k) + Checks(r, sc, mid) + if op.partial then {Due(end, Defined(op.code, u, v))} else {}
  {
  }

  lemma FreeOperated(rig: Rig, op: Op, a: Term, b: Term, mem: Memory)
    ensures Operated(Free(rig), op, Code(a), Code(b), mem)
         == if op.partial && rig.fail == Some(Defined(op.code, a, b)) then Panicked(mem) else Returned(Node(2, op.code, Code(a), Code(b)), mem)
  {
    hide Code;
    FailsIs(rig, op.code, a, b);
  }

  lemma FreeBinary(rig: Rig, op: Op, l: Expr, r: Expr, sc: RegScopes, scopes: Scopes, k: nat, mem: Memory, top: nat, names: set<Name>)
    requires var a := Eval(Free(rig), l, scopes, mem); SpellsBoth(rig, l, r, sc, k, mem, a, Eval(Free(rig), r, scopes, a.mem), top, names)
    ensures Spells(rig, Binary(op, l, r), sc, k, mem, Eval(Free(rig), Binary(op, l, r), scopes, mem), top, names)
  {
    hide RunsTo, Tick, Load, Tracks, Eval, Within, Code, Sym, Checks, Calls, Free, Operated, Node;
    var a := Eval(Free(rig), l, scopes, mem);
    var b := Eval(Free(rig), r, scopes, a.mem);
    var mid, end, s := k + Calls(l), k + Calls(l) + Calls(r), Second(a, b);
    var u, v := Sym(l, sc, k), Sym(r, sc, mid);
    BothRun(rig, l, r, sc, k, mem, a, b, top, names);
    EvalBinary(Free(rig), op, l, r, scopes, mem);
    BinaryTerms(op, l, r, sc, k);
    FreeOperated(rig, op, u, v, s.mem);
    var dues := Checks(l, sc, k) + Checks(r, sc, mid);
    if op.partial {
      OwnCheck(rig, dues, Defined(op.code, u, v), k, end, s.Panicked?, rig.fail == Some(Defined(op.code, u, v)), s.mem, top, names);
    } else {
      assert dues + {} == dues;
    }
  }

  lemma IndexTerms(l: Expr, r: Expr, elem: Elem, sc: RegScopes, k: nat)
    ensures var e, u, v, mid, end := Index(l, r, elem), Sym(l, sc, k), Sym(r, sc, k + Calls(l)), k + Calls(l), k + Calls(l) + Calls(r);
      && Calls(e) == Calls(l) + Calls(r) && Sym(e, sc, k) == TIndex(end, u, v, elem)
      && Checks(e, sc, k) == Checks(l, sc, k) + Checks(r, sc, mid) + if elem.Listed? then {Due(end, InRange(u, v))} else {}
  {
  }

  lemma FreeIndexed(rig: Rig, a: Term, b: Term, elem: Elem, mem: Memory)
    ensures Indexed(Free(rig), Code(a), Code(b), elem, mem)
         == if elem.Listed? && rig.fail == Some(InRange(a, b)) then Panicked(mem) else Returned(Load(mem, Cell(Code(a), ByIndex(Code(b), elem))), mem)
  {
    hide Code;
    RangeIs(rig, a, b);
  }

  lemma FreeIndex(rig: Rig, l: Expr, r: Expr, elem: Elem, sc: RegScopes, scopes: Scopes, k: nat, mem: Memory, top: nat, names: set<Name>)
    requires var a := Eval(Free(rig), l, scopes, mem); SpellsBoth(rig, l, r, sc, k, mem, a, Eval(Free(rig), r, scopes, a.mem), top, names)
    ensures Spells(rig, Index(l, r, elem), sc, k, mem, Eval(Free(rig), Index(l, r, elem), scopes, mem), top, names)
  {
    hide RunsTo, Tick, Load, Tracks, Eval, Within, Code, Sym, Checks, Calls, Free, Indexed;
    var a := Eval(Free(rig), l, scopes, mem);
    var b := Eval(Free(rig), r, scopes, a.mem);
    var mid, end, s := k + Calls(l), k + Calls(l) + Calls(r), Second(a, b);
    var u, v := Sym(l, sc, k), Sym(r, sc, mid);
    BothRun(rig, l, r, sc, k, mem, a, b, top, names);
    EvalIndex(Free(rig), l, r, elem, scopes, mem);
    IndexTerms(l, r, elem, sc, k);
    FreeIndexed(rig, u, v, elem, s.mem);
    if s.Returned? {
      IndexCell(u, v, elem, end, s.mem, top, names);
    }
    var dues := Checks(l, sc, k) + Checks(r, sc, mid);
    if elem.Listed? {
      OwnCheck(rig, dues, InRange(u, v), k, end, s.Panicked?, rig.fail == Some(InRange(u, v)), s.mem, top, names);
    } else {
      assert dues + {} == dues;
    }
  }

  lemma CallTerms(f: Name, arg: Expr, sc: RegScopes, k: nat)
    ensures Calls(Call(f, arg)) == Calls(arg) + 1 && Sym(Call(f, arg), sc, k) == TResult(k + Calls(arg))
    ensures Checks(Call(f, arg), sc, k) == Checks(arg, sc, k)
  {
  }

  lemma FreeReply(rig: Rig, f: Name, v: Value, mem: Memory, k: nat, top: nat, names: set<Name>)
    requires Tracks(mem, k, top, names)
    ensures var r := Free(rig).call(f, v, mem);
      && RunsTo(rig, {}, k, k + 1, r.Panicked?, r.mem, top, names)
      && (r.Returned? ==> r.value == Code(TResult(k)))
      && (Tick(r.mem) == k ==> r.mem == mem)
  {
    TracksTick(mem, k, top, names);
    FreshTracks(k + 1, top, names);
    hide Tracks, Code, Tick;
  }

  lemma FreeCall(rig: Rig, f: Name, arg: Expr, sc: RegScopes, scopes: Scopes, k: nat, mem: Memory, top: nat, names: set<Name>)
    requires Spells(rig, arg, sc, k, mem, Eval(Free(rig), arg, scopes, mem), top, names)
    ensures Spells(rig, Call(f, arg), sc, k, mem, Eval(Free(rig), Call(f, arg), scopes, mem), top, names)
  {
    hide Eval, Tracks, Checks, Load, Free, Code, Sym, Calls, Tick, Trips;
    var r, mid := Eval(Free(rig), arg, scopes, mem), k + Calls(arg);
    EvalCall(Free(rig), f, arg, scopes, mem);
    CallTerms(f, arg, sc, k);
    ChecksWithin(arg, sc, k);
    assert Checks(arg, sc, k) + {} == Checks(arg, sc, k);
    if r.Panicked? {
      RunsStopped(rig, Checks(arg, sc, k), {}, k, mid, mid + 1, r.mem, top, names);
    } else {
      var next := Free(rig).call(f, r.value, r.mem);
      FreeReply(rig, f, r.value, r.mem, mid, top, names);
      RunsOn(rig, Checks(arg, sc, k), {}, k, mid, mid + 1, r.mem, next.Panicked?, next.mem, top, names);
    }
  }
}

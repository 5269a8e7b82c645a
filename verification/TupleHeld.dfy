/**
 * What `a, x.f, xs[i], *p = ...` means by Go, and what it means if operands and values are held the way the machine holds them:
 * what is read through a box, a pointer or an element, and not copied, is a view that shows what is there when it is used.
 */
module TupleHeld {
  import opened Wrappers
  import opened GoAssign
  import opened AssignTrace

  // ---------- holding ----------

  /** A value; the register of a variable; or a view of a place. */
  datatype Held = Plain(value: Value) | Follows(name: Name) | Views(cell: Cell)

  /** What is held, when it is used. */
  function Now(h: Held, scopes: Scopes, mem: Memory): Value {
    match h
    case Plain(v) => v
    case Follows(x) => (match Lookup(scopes, x) case Some(s) => s.raw case None => ZERO)
    case Views(c) => Load(mem, c)
  }

  function Nows(hs: seq<Held>, scopes: Scopes, mem: Memory): (r: seq<Value>)
    ensures |r| == |hs| && forall i :: 0 <= i < |hs| ==> r[i] == Now(hs[i], scopes, mem)
  {
    seq(|hs|, i requires 0 <= i < |hs| => Now(hs[i], scopes, mem))
  }

  function ViewOr(r: Returned, selector: Selector, v: Value): Held {
    if r.Returned? then Views(Cell(r.value, selector)) else Plain(v)
  }

  /** How an expression that evaluated to v is held. */
  function HeldAs(w: World, e: Expr, hold: Hold, scopes: Scopes, mem: Memory, v: Value): Held {
    if hold.Copy? then Plain(v)
    else match e
      case Ident(x) =>
        (match Lookup(scopes, x)
         case Some(s) => if s.box.Some? then Views(BoxOf(s)) else if hold.Keep? then Follows(x) else Plain(v)
         case None => Plain(v))
      case Star(b, kind) => ViewOr(Eval(w, b, scopes, mem), ByStar(kind), v)
      case Index(b, i, elem) =>
        var a := Eval(w, b, scopes, mem);
        var c := Eval(w, i, scopes, a.mem);
        if elem.Listed? && c.Returned? then ViewOr(a, ByIndex(c.value, elem), v) else Plain(v)
      case _ => Plain(v)
  }

  datatype AllHeld = AllHeld(held: seq<Held>, mem: Memory) | NoneHeld(mem: Memory)

  function HoldMore(w: World, front: AllHeld, e: Expr, hold: Hold, scopes: Scopes): AllHeld {
    if front.NoneHeld? then front
    else
      var r := Eval(w, e, scopes, front.mem);
      if r.Panicked? then NoneHeld(r.mem) else AllHeld(front.held + [HeldAs(w, e, hold, scopes, front.mem, r.value)], r.mem)
  }

  /** Evaluates a list in order and holds each as told. */
  function HoldAll(w: World, es: seq<Expr>, holds: seq<Hold>, scopes: Scopes, mem: Memory): (r: AllHeld)
    requires |holds| == |es|
    ensures r.AllHeld? ==> |r.held| == |es|
    decreases |es|
  {
    if es == [] then AllHeld([], mem)
    else
      var n := |es| - 1;
      HoldMore(w, HoldAll(w, es[..n], holds[..n], scopes, mem), es[n], holds[n], scopes)
  }

  // ---------- a statement's operands and values ----------

  /** How the operands of a target are held: the bases are references. */
  function OperandHolds(t: Target): (r: seq<Hold>)
    ensures |r| == |Operands(t)|
  {
    match t
    case ToIdent(_) => []
    case ToBlank => []
    case ToField(_, _, _) => [Refer]
    case ToIndex(_, _, _, hold) => [Refer, hold]
    case ToStar(_, _) => [Refer]
  }

  function AllHolds(ts: seq<Target>): (r: seq<Hold>)
    ensures |r| == |AllOperands(ts)|
  {
    if ts == [] then [] else AllHolds(ts[..|ts| - 1]) + OperandHolds(ts[|ts| - 1])
  }

  /** How a value is held; `ref` says whether it is a reference. Variables, and structs and arrays, are copied. */
  function ValueHold(e: Expr, ref: bool): Hold {
    if ref && !e.Ident? then Refer else Copy
  }

  function ValueHolds(es: seq<Expr>, refs: seq<bool>): (r: seq<Hold>)
    requires |refs| == |es|
    ensures |r| == |es| && forall i :: 0 <= i < |es| ==> r[i] == ValueHold(es[i], refs[i])
  {
    seq(|es|, i requires 0 <= i < |es| => ValueHold(es[i], refs[i]))
  }

  /** A statement's operands and then its values. */
  function HoldStatement(w: World, ts: seq<Target>, rhs: seq<Expr>, refs: seq<bool>, scopes: Scopes, mem: Memory): (r: AllHeld)
    requires |refs| == |rhs|
    ensures r.AllHeld? ==> |r.held| == |AllOperands(ts)| + |rhs|
  {
    HoldAll(w, AllOperands(ts) + rhs, AllHolds(ts) + ValueHolds(rhs, refs), scopes, mem)
  }

  /** One list held, then another. */
  function Together(a: AllHeld, b: AllHeld): AllHeld {
    if a.NoneHeld? then a else if b.NoneHeld? then b else AllHeld(a.held + b.held, b.mem)
  }

  lemma TogetherMore(w: World, a: AllHeld, b: AllHeld, e: Expr, hold: Hold, scopes: Scopes)
    ensures HoldMore(w, Together(a, b), e, hold, scopes) == Together(a, HoldMore(w, b, e, hold, scopes))
  {
    hide Eval, HeldAs;
    if a.AllHeld? && b.AllHeld? {
      var r := Eval(w, e, scopes, b.mem);
      if r.Returned? {
        var h := HeldAs(w, e, hold, scopes, b.mem, r.value);
        assert a.held + (b.held + [h]) == a.held + b.held + [h];
      }
    }
  }

  lemma {:induction false} HoldConcat(w: World, a: seq<Expr>, x: seq<Hold>, b: seq<Expr>, y: seq<Hold>, scopes: Scopes, mem: Memory)
    requires |x| == |a| && |y| == |b|
    ensures var r := HoldAll(w, a, x, scopes, mem); HoldAll(w, a + b, x + y, scopes, mem) == Together(r, HoldAll(w, b, y, scopes, r.mem))
    decreases |b|
  {
    hide HoldMore;
    var r := HoldAll(w, a, x, scopes, mem);
    if b == [] {
      assert a + b == a && x + y == x;
      assert r.AllHeld? ==> r.held + [] == r.held;
    } else {
      var n := |b| - 1;
      HoldConcat(w, a, x, b[..n], y[..n], scopes, mem);
      assert (a + b)[..|a + b| - 1] == a + b[..n] && (x + y)[..|a + b| - 1] == x + y[..n];
      TogetherMore(w, r, HoldAll(w, b[..n], y[..n], scopes, r.mem), b[n], y[n], scopes);
    }
  }

  // ---------- what it means ----------

  /** The assignments from left to right, each with what is held as it is by then. */
  function StoreAllCurrent(w: World, ts: seq<Target>, ops: seq<Held>, values: seq<Held>, env: Env): Effect
    requires |ops| == |AllOperands(ts)| && |values| == |ts|
    decreases |ts|
  {
    if ts == [] then Effect(env.scopes, env.mem)
    else
      var n := |ts| - 1;
      var k := |AllOperands(ts[..n])|;
      var before := StoreAllCurrent(w, ts[..n], ops[..k], values[..n], env);
      if before.Aborted? then before else StoreCurrent(w, ts[n], ops[k..], values[n], Env(before.scopes, before.mem))
  }

  function StoreCurrent(w: World, t: Target, ops: seq<Held>, value: Held, env: Env): Effect
    requires |ops| == |Operands(t)|
  {
    Store(w, t, Nows(ops, env.scopes, env.mem), Now(value, env.scopes, env.mem), env)
  }

  /** What the code does: each store uses what is held as it is by then. */
  function AssignCurrent(w: World, ts: seq<Target>, rhs: seq<Expr>, refs: seq<bool>, scopes: Scopes, mem: Memory): Effect
    requires |ts| == |rhs| == |refs|
  {
    match HoldStatement(w, ts, rhs, refs, scopes, mem)
    case AllHeld(held, mem') =>
      var k := |AllOperands(ts)|;
      StoreAllCurrent(w, ts, held[..k], held[k..], Env(scopes, mem'))
    case NoneHeld(mem') => Aborted(Results(scopes), mem')
  }

  /** One of the meanings Go allows: what is not copied at once is read when everything has been evaluated. Go leaves the order of such reads and of calls open. */
  function ReadLast(w: World, ts: seq<Target>, rhs: seq<Expr>, refs: seq<bool>, scopes: Scopes, mem: Memory): Effect
    requires |ts| == |rhs| == |refs|
  {
    match HoldStatement(w, ts, rhs, refs, scopes, mem)
    case AllHeld(held, mem') =>
      var k, now := |AllOperands(ts)|, Nows(held, scopes, mem');
      StoreAll(w, ts, now[..k], now[k..], Env(scopes, mem'))
    case NoneHeld(mem') => Aborted(Results(scopes), mem')
  }

  // ---------- without calls there is no choice ----------

  lemma {:induction false} Quiet(w: World, e: Expr, scopes: Scopes, mem: Memory)
    requires Calls(e) == 0
    ensures Eval(w, e, scopes, mem).mem == mem
    decreases e
  {
    match e
    case Lit(_) =>
    case Ident(_) =>
    case Binary(_, l, r) => Quiet(w, l, scopes, mem); Quiet(w, r, scopes, mem);
    case Field(b, _) => Quiet(w, b, scopes, mem);
    case Index(b, i, _) => Quiet(w, b, scopes, mem); Quiet(w, i, scopes, mem);
    case Star(b, _) => Quiet(w, b, scopes, mem);
  }

  /** In the memory it was evaluated in, what is held is the value. */
  lemma HeldShows(w: World, e: Expr, hold: Hold, scopes: Scopes, mem: Memory)
    requires Calls(e) == 0 && Eval(w, e, scopes, mem).Returned?
    ensures var v := Eval(w, e, scopes, mem).value; Now(HeldAs(w, e, hold, scopes, mem, v), scopes, mem) == v
  {
    hide Lookup;
    match e
    case Star(b, _) => Quiet(w, b, scopes, mem);
    case Index(b, i, _) => Quiet(w, b, scopes, mem); Quiet(w, i, scopes, mem);
    case _ =>
  }

  lemma {:induction false} QuietHold(w: World, es: seq<Expr>, holds: seq<Hold>, scopes: Scopes, mem: Memory)
    requires |holds| == |es| && forall i :: 0 <= i < |es| ==> Calls(es[i]) == 0
    ensures var h, r := HoldAll(w, es, holds, scopes, mem), EvalAll(w, es, All(|es|), scopes, mem);
      if h.NoneHeld? then r == AnyPanicked(mem) && h.mem == mem else h.mem == mem && r == AllReturned(Nows(h.held, scopes, mem), mem)
    decreases |es|
  {
    hide Eval, HeldAs, Now, Calls;
    if es != [] {
      var n := |es| - 1;
      assert All(|es|)[..n] == All(n);
      QuietHold(w, es[..n], holds[..n], scopes, mem);
      Quiet(w, es[n], scopes, mem);
      var front := HoldAll(w, es[..n], holds[..n], scopes, mem);
      if front.AllHeld? && Eval(w, es[n], scopes, mem).Returned? {
        HeldShows(w, es[n], holds[n], scopes, mem);
        var h := HoldAll(w, es, holds, scopes, mem);
        assert Nows(h.held, scopes, mem) == Nows(front.held, scopes, mem) + [Now(h.held[n], scopes, mem)];
      }
    }
  }

  /** Without calls, reading last is Go's left to right. */
  lemma ReadLastIsGo(w: World, ts: seq<Target>, rhs: seq<Expr>, refs: seq<bool>, scopes: Scopes, mem: Memory)
    requires |ts| == |rhs| == |refs| && forall e :: e in AllOperands(ts) + rhs ==> Calls(e) == 0
    ensures ReadLast(w, ts, rhs, refs, scopes, mem) == TupleAssign(w, ts, rhs, scopes, mem)
  {
    hide HoldAll, EvalAll, StoreAll, Results, Calls;
    var es := AllOperands(ts) + rhs;
    QuietHold(w, es, AllHolds(ts) + ValueHolds(rhs, refs), scopes, mem);
  }

  /** So it is where nothing is a view, calls or not. */
  lemma {:induction false} UnviewedHold(w: World, es: seq<Expr>, holds: seq<Hold>, scopes: Scopes, mem: Memory, later: Memory)
    requires |holds| == |es|
    ensures var h, r := HoldAll(w, es, holds, scopes, mem), EvalAll(w, es, All(|es|), scopes, mem);
      if h.NoneHeld? then r == AnyPanicked(h.mem)
      else r.AllReturned? && h.mem == r.mem && ((forall i :: 0 <= i < |es| ==> !h.held[i].Views?) ==> r.values == Nows(h.held, scopes, later))
    decreases |es|
  {
    hide Eval, HeldAs, Now;
    if es != [] {
      var n := |es| - 1;
      assert All(|es|)[..n] == All(n);
      UnviewedHold(w, es[..n], holds[..n], scopes, mem, later);
      var front := HoldAll(w, es[..n], holds[..n], scopes, mem);
      if front.AllHeld? && Eval(w, es[n], scopes, front.mem).Returned? {
        var h := HoldAll(w, es, holds, scopes, mem);
        assert h.held[..n] == front.held;
        UnviewedShows(w, es[n], holds[n], scopes, front.mem, later);
        assert Nows(h.held, scopes, later) == Nows(front.held, scopes, later) + [Now(h.held[n], scopes, later)];
      }
    }
  }

  lemma UnviewedShows(w: World, e: Expr, hold: Hold, scopes: Scopes, mem: Memory, later: Memory)
    requires Eval(w, e, scopes, mem).Returned?
    ensures var v := Eval(w, e, scopes, mem).value; var h := HeldAs(w, e, hold, scopes, mem, v); !h.Views? ==> Now(h, scopes, later) == v
  {
    hide Lookup;
  }

  lemma UnviewedIsGo(w: World, ts: seq<Target>, rhs: seq<Expr>, refs: seq<bool>, scopes: Scopes, mem: Memory)
    requires |ts| == |rhs| == |refs|
    requires var h := HoldStatement(w, ts, rhs, refs, scopes, mem); h.AllHeld? ==> forall i :: 0 <= i < |h.held| ==> !h.held[i].Views?
    ensures ReadLast(w, ts, rhs, refs, scopes, mem) == TupleAssign(w, ts, rhs, scopes, mem)
  {
    hide HoldAll, EvalAll, StoreAll, Results;
    var h := HoldStatement(w, ts, rhs, refs, scopes, mem);
    UnviewedHold(w, AllOperands(ts) + rhs, AllHolds(ts) + ValueHolds(rhs, refs), scopes, mem, h.mem);
  }
}

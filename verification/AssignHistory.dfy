/** Evaluation follows its trace: where it stops, with which memory, and which value it yields. */
module AssignHistory {
  import opened Wrappers
  import opened GoAssign
  import opened AssignLowering
  import opened AssignTrace

  // ---------- histories ----------

  /** Memory in each epoch, the result of each call, and the memory a call that panicked left. */
  datatype History = History(mems: seq<Memory>, results: seq<Value>, stop: Memory)

  function Interp(w: World, t: Term, scopes: Scopes, h: History): Value {
    match t
    case TNum(n) => Num(n)
    case TVar(l, x) => if l < |scopes| && x in scopes[l] then scopes[l][x].raw else ZERO
    case TOp(c, a, b) => w.operator(c, Interp(w, a, scopes, h), Interp(w, b, scopes, h))
    case TField(b, f) => w.part(Interp(w, b, scopes, h), f)
    case TIndex(e, b, i, elem) =>
      if e < |h.mems| then Load(h.mems[e], Cell(Interp(w, b, scopes, h), ByIndex(Interp(w, i, scopes, h), elem))) else ZERO
    case TStar(e, b, kind) => if e < |h.mems| then Load(h.mems[e], Cell(Interp(w, b, scopes, h), ByStar(kind))) else ZERO
    case TResult(i) => if i < |h.results| then h.results[i] else ZERO
  }

  lemma {:induction false} InterpKept(w: World, t: Term, scopes: Scopes, h: History, g: History, k: nat)
    requires Known(t, k) && k < |h.mems| && k <= |h.results| && h.mems <= g.mems && h.results <= g.results
    ensures Interp(w, t, scopes, h) == Interp(w, t, scopes, g)
    decreases t
  {
    match t
    case TNum(_) =>
    case TVar(_, _) =>
    case TOp(_, a, b) => InterpKept(w, a, scopes, h, g, k); InterpKept(w, b, scopes, h, g, k);
    case TField(b, _) => InterpKept(w, b, scopes, h, g, k);
    case TIndex(_, b, i, _) => InterpKept(w, b, scopes, h, g, k); InterpKept(w, i, scopes, h, g, k);
    case TStar(_, b, _) => InterpKept(w, b, scopes, h, g, k);
    case TResult(_) =>
  }

  function Reply(w: World, i: Invoke, scopes: Scopes, h: History, mem: Memory): Returned {
    w.call(i.callee, Interp(w, i.argument, scopes, h), mem)
  }

  ghost predicate Answers(w: World, i: Invoke, scopes: Scopes, h: History, k: nat) {
    k < |h.results| && k + 1 < |h.mems| && Reply(w, i, scopes, h, h.mems[k]) == Returned(h.results[k], h.mems[k + 1])
  }

  /** The calls, made one after the other, give these results, up to one that panics. */
  ghost predicate Follows(w: World, calls: seq<Invoke>, scopes: Scopes, h: History) {
    && |h.mems| == |h.results| + 1 && |h.results| <= |calls|
    && (forall k :: 0 <= k < |h.results| ==> Answers(w, calls[k], scopes, h, k))
    && (|h.results| < |calls| ==> Reply(w, calls[|h.results|], scopes, h, h.mems[|h.results|]) == Panicked(h.stop))
  }

  lemma HistoryStarts(w: World, calls: seq<Invoke>, scopes: Scopes, h: History)
    requires Follows(w, calls, scopes, h)
    ensures |h.mems| > 0
  {
  }

  /** Every list of calls has a history. */
  lemma {:induction false} HasHistory(w: World, calls: seq<Invoke>, scopes: Scopes, mem: Memory) returns (h: History)
    requires InOrder(calls, 0)
    ensures Follows(w, calls, scopes, h) && h.mems[0] == mem
    decreases |calls|
  {
    if calls == [] {
      h := History([mem], [], mem);
    } else {
      var n := |calls| - 1;
      h := HasHistory(w, calls[..n], scopes, mem);
      if |h.results| == n {
        h := OneMoreCall(w, calls, scopes, h);
      }
    }
  }

  lemma OneMoreCall(w: World, calls: seq<Invoke>, scopes: Scopes, h: History) returns (g: History)
    requires InOrder(calls, 0) && calls != [] && Follows(w, calls[..|calls| - 1], scopes, h) && |h.results| == |calls| - 1
    ensures Follows(w, calls, scopes, g) && g.mems[0] == h.mems[0]
  {
    hide Known, Interp;
    var n := |calls| - 1;
    var r := Reply(w, calls[n], scopes, h, h.mems[n]);
    g := if r.Returned? then History(h.mems + [r.mem], h.results + [r.value], h.stop) else History(h.mems, h.results, r.mem);
    forall k | 0 <= k <= n ensures Interp(w, calls[k].argument, scopes, g) == Interp(w, calls[k].argument, scopes, h) {
      assert Known(calls[k].argument, 0 + k);
      InterpKept(w, calls[k].argument, scopes, h, g, k);
    }
    forall k | 0 <= k < n ensures Answers(w, calls[k], scopes, g, k) {
      assert Answers(w, calls[..n][k], scopes, h, k);
    }
    assert Reply(w, calls[n], scopes, g, h.mems[n]) == Reply(w, calls[n], scopes, h, h.mems[n]);
  }

  // ---------- where an evaluation stops ----------

  predicate Fails(w: World, c: Check, scopes: Scopes, h: History) {
    match c
    case NotNil(t) => w.isNil(Interp(w, t, scopes, h))
    case InRange(b, i) => !w.inRange(Interp(w, b, scopes, h), Interp(w, i, scopes, h))
    case Defined(o, a, b) => w.fails(o, Interp(w, a, scopes, h), Interp(w, b, scopes, h))
  }

  ghost predicate FailsAt(w: World, dues: set<Due>, scopes: Scopes, h: History, k: nat) {
    exists d :: d in dues && d.epoch == k && Fails(w, d.check, scopes, h)
  }

  /** The memory in which an evaluation from one epoch to another stops, if it does: all checks of an epoch see the same memory. */
  ghost function StopsWith(w: World, dues: set<Due>, scopes: Scopes, h: History, k: nat, end: nat): Option<Memory>
    requires k <= end && k < |h.mems|
    decreases end - k
  {
    if FailsAt(w, dues, scopes, h, k) then Some(h.mems[k])
    else if k == end then None
    else if k + 1 >= |h.mems| then Some(h.stop)
    else StopsWith(w, dues, scopes, h, k + 1, end)
  }

  ghost predicate Within(dues: set<Due>, k: nat, end: nat) {
    forall d :: d in dues ==> k <= d.epoch <= end
  }

  lemma WithinBoth(a: set<Due>, b: set<Due>, k: nat, mid: nat, end: nat)
    requires k <= mid <= end && Within(a, k, mid) && Within(b, mid, end)
    ensures Within(a + b, k, end)
  {
  }

  lemma {:induction false} StopsSame(w: World, a: set<Due>, b: set<Due>, scopes: Scopes, h: History, k: nat, end: nat)
    requires k <= end && k < |h.mems| && forall e :: k <= e <= end ==> FailsAt(w, a, scopes, h, e) == FailsAt(w, b, scopes, h, e)
    ensures StopsWith(w, a, scopes, h, k, end) == StopsWith(w, b, scopes, h, k, end)
    decreases end - k
  {
    hide FailsAt;
    if k < end && k + 1 < |h.mems| {
      StopsSame(w, a, b, scopes, h, k + 1, end);
    }
  }

  /** Two evaluations in a row. */
  lemma {:induction false} StopsSplit(w: World, a: set<Due>, b: set<Due>, scopes: Scopes, h: History, k: nat, mid: nat, end: nat)
    requires k <= mid <= end && k < |h.mems| && Within(a, k, mid) && Within(b, mid, end)
    ensures var r := StopsWith(w, a, scopes, h, k, mid);
      && (r.None? ==> mid < |h.mems|)
      && StopsWith(w, a + b, scopes, h, k, end) == if r.Some? then r else StopsWith(w, b, scopes, h, mid, end)
    decreases mid - k
  {
    hide Fails;
    assert forall e :: FailsAt(w, a + b, scopes, h, e) == (FailsAt(w, a, scopes, h, e) || FailsAt(w, b, scopes, h, e));
    if k == mid {
      if !FailsAt(w, a, scopes, h, k) {
        StopsSame(w, a + b, b, scopes, h, k, end);
      }
    } else {
      assert !FailsAt(w, b, scopes, h, k);
      if k + 1 < |h.mems| && !FailsAt(w, a, scopes, h, k) {
        var rest := set d | d in a && d.epoch > k;
        StopsSplit(w, rest, b, scopes, h, k + 1, mid, end);
        StopsSame(w, rest, a, scopes, h, k + 1, mid);
        StopsSame(w, rest + b, a + b, scopes, h, k + 1, end);
      }
    }
  }

  /** One check more at the end. */
  lemma ThenCheck(w: World, a: set<Due>, c: Check, scopes: Scopes, h: History, k: nat, mid: nat)
    requires k <= mid && k < |h.mems| && Within(a, k, mid)
    ensures var r := StopsWith(w, a, scopes, h, k, mid);
      && (r.None? ==> mid < |h.mems|)
      && StopsWith(w, a + {Due(mid, c)}, scopes, h, k, mid)
         == if r.Some? then r else if Fails(w, c, scopes, h) then Some(h.mems[mid]) else None
  {
    hide Fails;
    StopsSplit(w, a, {Due(mid, c)}, scopes, h, k, mid, mid);
    assert Due(mid, c) in {Due(mid, c)};
    assert FailsAt(w, {Due(mid, c)}, scopes, h, mid) == Fails(w, c, scopes, h);
  }

  /** One call more at the end. */
  lemma ThenCall(w: World, a: set<Due>, scopes: Scopes, h: History, k: nat, mid: nat)
    requires k <= mid && k < |h.mems| && Within(a, k, mid)
    ensures var r := StopsWith(w, a, scopes, h, k, mid);
      && (r.None? ==> mid < |h.mems|)
      && StopsWith(w, a, scopes, h, k, mid + 1) == if r.Some? then r else if mid + 1 >= |h.mems| then Some(h.stop) else None
  {
    hide Fails;
    StopsSplit(w, a, {}, scopes, h, k, mid, mid + 1);
    assert a + {} == a;
  }

  // ---------- evaluation follows its trace ----------

  /** Scopes of the shape the compiler knows: the same names, the same of them boxed. */
  ghost predicate Shaped(sc: RegScopes, scopes: Scopes) {
    && |sc| == |scopes|
    && (forall k :: 0 <= k < |sc| ==> sc[k].Keys == scopes[k].Keys)
    && (forall k, x :: Has(sc, k, x) ==> scopes[k][x].box == sc[k][x].box && scopes[k][x].result == sc[k][x].result)
  }

  lemma ShapedPrefix(sc: RegScopes, scopes: Scopes)
    requires Shaped(sc, scopes) && sc != []
    ensures |scopes| == |sc| && sc[|sc| - 1].Keys == scopes[|sc| - 1].Keys && Shaped(sc[..|sc| - 1], scopes[..|sc| - 1])
  {
    assert forall k, y :: Has(sc[..|sc| - 1], k, y) ==> Has(sc, k, y) && sc[..|sc| - 1][k][y] == sc[k][y];
  }

  lemma {:induction false} LevelFound(sc: RegScopes, scopes: Scopes, x: Name)
    requires Shaped(sc, scopes)
    ensures match LookupReg(sc, x)
      case Some(p) =>
        var l := LevelOf(sc, x);
        Has(sc, l, x) && sc[l][x] == p && l < |scopes| && x in scopes[l] && scopes[l][x].box == p.box && Lookup(scopes, x) == Some(scopes[l][x])
      case None => Lookup(scopes, x).None?
    decreases |sc|
  {
    if sc != [] {
      var n := |sc| - 1;
      if x in sc[n] {
        assert Has(sc, n, x);
      } else {
        ShapedPrefix(sc, scopes);
        hide Shaped;
        LevelFound(sc[..n], scopes[..n], x);
      }
    }
  }

  /** An evaluation that stops, or yields the value at the end of its last epoch. */
  ghost predicate Tells(r: Returned, stop: Option<Memory>, v: Value, h: History, end: nat) {
    match stop
    case None => end < |h.mems| && r == Returned(v, h.mems[end])
    case Some(mem) => r == Panicked(mem)
  }

  /** Where the evaluation of an expression from epoch k on stops. */
  ghost function Stop(w: World, e: Expr, sc: RegScopes, scopes: Scopes, h: History, k: nat): Option<Memory>
    requires k < |h.mems|
  {
    StopsWith(w, Checks(e, sc, k), scopes, h, k, k + Calls(e))
  }

  /** The evaluation of an expression from epoch k on follows its trace. */
  ghost predicate Traced(w: World, e: Expr, sc: RegScopes, scopes: Scopes, h: History, k: nat)
    requires k < |h.mems|
  {
    Tells(Eval(w, e, scopes, h.mems[k]), Stop(w, e, sc, scopes, h, k), Interp(w, Sym(e, sc, k), scopes, h), h, k + Calls(e))
  }

  /** These calls are made from number k on. */
  ghost predicate Part(calls: seq<Invoke>, part: seq<Invoke>, k: nat) {
    k + |part| <= |calls| && calls[k..k + |part|] == part
  }

  lemma PartSplit(calls: seq<Invoke>, a: seq<Invoke>, b: seq<Invoke>, k: nat)
    requires Part(calls, a + b, k)
    ensures Part(calls, a, k) && Part(calls, b, k + |a|)
  {
    assert calls[k..k + |a|] == (a + b)[..|a|];
    assert calls[k + |a|..k + |a| + |b|] == (a + b)[|a|..];
  }

  lemma ChecksWithin(e: Expr, sc: RegScopes, k: nat)
    ensures Within(Checks(e, sc, k), k, k + Calls(e))
  {
    forall d | d in Checks(e, sc, k) ensures k <= d.epoch <= k + Calls(e) {
      ChecksSpan(e, sc, k, d);
    }
  }

  lemma {:induction false} EvalTraced(w: World, e: Expr, sc: RegScopes, scopes: Scopes, calls: seq<Invoke>, h: History, k: nat)
    requires Follows(w, calls, scopes, h) && Shaped(sc, scopes) && k < |h.mems| && Part(calls, Invokes(e, sc, k), k)
    ensures Traced(w, e, sc, scopes, h, k)
    decreases e
  {
    hide Follows, Shaped, StopsWith, Part, Eval, Interp, Sym, Checks;
    match e
    case Lit(n) => LitTraced(w, n, sc, scopes, h, k);
    case Ident(x) => IdentTraced(w, x, sc, scopes, h, k);
    case Binary(op, l, r) =>
      PartSplit(calls, Invokes(l, sc, k), Invokes(r, sc, k + Calls(l)), k);
      EvalTraced(w, l, sc, scopes, calls, h, k);
      if Stop(w, l, sc, scopes, h, k).None? {
        EvalTraced(w, r, sc, scopes, calls, h, k + Calls(l));
      }
      BinaryTraced(w, op, l, r, sc, scopes, h, k);
    case Field(b, f) =>
      EvalTraced(w, b, sc, scopes, calls, h, k);
      FieldTraced(w, b, f, sc, scopes, h, k);
    case Index(b, i, elem) =>
      PartSplit(calls, Invokes(b, sc, k), Invokes(i, sc, k + Calls(b)), k);
      EvalTraced(w, b, sc, scopes, calls, h, k);
      if Stop(w, b, sc, scopes, h, k).None? {
        EvalTraced(w, i, sc, scopes, calls, h, k + Calls(b));
      }
      IndexTraced(w, b, i, elem, sc, scopes, h, k);
    case Star(b, kind) =>
      EvalTraced(w, b, sc, scopes, calls, h, k);
      StarTraced(w, b, kind, sc, scopes, h, k);
    case Call(f, arg) =>
      PartSplit(calls, Invokes(arg, sc, k), [Invoke(f, Sym(arg, sc, k))], k);
      EvalTraced(w, arg, sc, scopes, calls, h, k);
      CallTraced(w, f, arg, sc, scopes, calls, h, k);
  }

  lemma LitTraced(w: World, n: int, sc: RegScopes, scopes: Scopes, h: History, k: nat)
    requires k < |h.mems|
    ensures Traced(w, Lit(n), sc, scopes, h, k)
  {
    NoChecks(w, scopes, h, k);
  }

  lemma IdentTraced(w: World, x: Name, sc: RegScopes, scopes: Scopes, h: History, k: nat)
    requires Shaped(sc, scopes) && k < |h.mems|
    ensures Traced(w, Ident(x), sc, scopes, h, k)
  {
    NoChecks(w, scopes, h, k);
    IdentValue(w, x, sc, scopes, h, k);
    hide Shaped, StopsWith, Interp, Sym, Lookup;
  }

  lemma IdentValue(w: World, x: Name, sc: RegScopes, scopes: Scopes, h: History, k: nat)
    requires Shaped(sc, scopes) && k < |h.mems|
    ensures Interp(w, Sym(Ident(x), sc, k), scopes, h) == Read(Lookup(scopes, x), h.mems[k])
  {
    LevelFound(sc, scopes, x);
    hide Shaped, LookupReg, Lookup, LevelOf;
    var v := TVar(LevelOf(sc, x), x);
    if LookupReg(sc, x).Some? && LookupReg(sc, x).value.box.Some? {
      var kind := LookupReg(sc, x).value.box.value;
      assert Interp(w, TStar(k, v, kind), scopes, h) == Load(h.mems[k], Cell(Interp(w, v, scopes, h), ByStar(kind)));
    }
  }

  lemma NoChecks(w: World, scopes: Scopes, h: History, k: nat)
    requires k < |h.mems|
    ensures StopsWith(w, {}, scopes, h, k, k).None?
  {
  }

  lemma FieldTraced(w: World, b: Expr, f: Name, sc: RegScopes, scopes: Scopes, h: History, k: nat)
    requires k < |h.mems| && Traced(w, b, sc, scopes, h, k)
    ensures Traced(w, Field(b, f), sc, scopes, h, k)
  {
    hide StopsWith;
  }

  lemma StarTraced(w: World, b: Expr, kind: Kind, sc: RegScopes, scopes: Scopes, h: History, k: nat)
    requires k < |h.mems| && Traced(w, b, sc, scopes, h, k)
    ensures Traced(w, Star(b, kind), sc, scopes, h, k)
  {
    hide StopsWith;
    ChecksWithin(b, sc, k);
    ThenCheck(w, Checks(b, sc, k), NotNil(Sym(b, sc, k)), scopes, h, k, k + Calls(b));
  }

  /** Both operands were traced. */
  ghost predicate TracedPair(w: World, l: Expr, r: Expr, sc: RegScopes, scopes: Scopes, h: History, k: nat)
    requires k < |h.mems|
  {
    && Traced(w, l, sc, scopes, h, k)
    && (Stop(w, l, sc, scopes, h, k).None? ==> Traced(w, r, sc, scopes, h, k + Calls(l)))
  }

  /** Where the evaluation of two operands stops. */
  ghost function BothStop(w: World, l: Expr, r: Expr, sc: RegScopes, scopes: Scopes, h: History, k: nat): Option<Memory>
    requires k < |h.mems|
  {
    var first := Stop(w, l, sc, scopes, h, k);
    if first.None? && k + Calls(l) < |h.mems| then Stop(w, r, sc, scopes, h, k + Calls(l)) else first
  }

  /** The checks of two operands and one check on their values. */
  lemma PairStops(w: World, l: Expr, r: Expr, sc: RegScopes, scopes: Scopes, h: History, k: nat, c: Check)
    requires k < |h.mems|
    ensures
      var mid, end := k + Calls(l), k + Calls(l) + Calls(r);
      var both := BothStop(w, l, r, sc, scopes, h, k);
      && (both.None? ==> end < |h.mems|)
      && StopsWith(w, Checks(l, sc, k) + Checks(r, sc, mid), scopes, h, k, end) == both
      && StopsWith(w, Checks(l, sc, k) + Checks(r, sc, mid) + {Due(end, c)}, scopes, h, k, end)
         == if both.Some? then both else if Fails(w, c, scopes, h) then Some(h.mems[end]) else None
  {
    hide StopsWith, Checks, Fails, Calls, Within;
    var mid, end := k + Calls(l), k + Calls(l) + Calls(r);
    ChecksWithin(l, sc, k);
    ChecksWithin(r, sc, mid);
    WithinBoth(Checks(l, sc, k), Checks(r, sc, mid), k, mid, end);
    StopsSplit(w, Checks(l, sc, k), Checks(r, sc, mid), scopes, h, k, mid, end);
    ThenCheck(w, Checks(l, sc, k) + Checks(r, sc, mid), c, scopes, h, k, end);
  }

  lemma EvalBinary(w: World, op: Op, l: Expr, r: Expr, scopes: Scopes, mem: Memory)
    ensures var a := Eval(w, l, scopes, mem); var b := Eval(w, r, scopes, a.mem);
      Eval(w, Binary(op, l, r), scopes, mem) == Operation(w, op, a, b)
  {
    hide Operation, Indexing, Selection, Following, Invocation, Lookup, Read;
  }

  lemma SymBinary(w: World, op: Op, l: Expr, r: Expr, sc: RegScopes, scopes: Scopes, h: History, k: nat)
    ensures Calls(Binary(op, l, r)) == Calls(l) + Calls(r)
    ensures var a, b := Sym(l, sc, k), Sym(r, sc, k + Calls(l)); var u, v := Interp(w, a, scopes, h), Interp(w, b, scopes, h);
      && Interp(w, Sym(Binary(op, l, r), sc, k), scopes, h) == w.operator(op.code, u, v)
      && Fails(w, Defined(op.code, a, b), scopes, h) == w.fails(op.code, u, v)
  {
  }

  lemma BinaryTraced(w: World, op: Op, l: Expr, r: Expr, sc: RegScopes, scopes: Scopes, h: History, k: nat)
    requires k < |h.mems| && TracedPair(w, l, r, sc, scopes, h, k)
    ensures Traced(w, Binary(op, l, r), sc, scopes, h, k)
  {
    hide Stop, Eval, Sym, Interp, Fails, Calls;
    BinaryStops(w, op, l, r, sc, scopes, h, k);
    EvalBinary(w, op, l, r, scopes, h.mems[k]);
    SymBinary(w, op, l, r, sc, scopes, h, k);
  }

  lemma BinaryStops(w: World, op: Op, l: Expr, r: Expr, sc: RegScopes, scopes: Scopes, h: History, k: nat)
    requires k < |h.mems|
    ensures var a, b := Sym(l, sc, k), Sym(r, sc, k + Calls(l));
      var both := BothStop(w, l, r, sc, scopes, h, k);
      var end := k + Calls(l) + Calls(r);
      && (both.None? ==> end < |h.mems|)
      && Stop(w, Binary(op, l, r), sc, scopes, h, k)
         == if both.Some? then both else if op.partial && Fails(w, Defined(op.code, a, b), scopes, h) then Some(h.mems[end]) else None
  {
    hide StopsWith, Eval, Interp, Fails;
    PairStops(w, l, r, sc, scopes, h, k, Defined(op.code, Sym(l, sc, k), Sym(r, sc, k + Calls(l))));
    assert Checks(l, sc, k) + Checks(r, sc, k + Calls(l)) + {} == Checks(l, sc, k) + Checks(r, sc, k + Calls(l));
  }

  lemma EvalIndex(w: World, l: Expr, r: Expr, elem: Elem, scopes: Scopes, mem: Memory)
    ensures var a := Eval(w, l, scopes, mem); var b := Eval(w, r, scopes, a.mem);
      Eval(w, Index(l, r, elem), scopes, mem) == Indexing(w, a, b, elem)
  {
    hide Operation, Indexing, Selection, Following, Invocation, Lookup, Read;
  }

  lemma SymIndex(w: World, l: Expr, r: Expr, elem: Elem, sc: RegScopes, scopes: Scopes, h: History, k: nat)
    ensures Calls(Index(l, r, elem)) == Calls(l) + Calls(r)
    ensures var a, b := Sym(l, sc, k), Sym(r, sc, k + Calls(l)); var u, v := Interp(w, a, scopes, h), Interp(w, b, scopes, h);
      var end := k + Calls(l) + Calls(r);
      && (end < |h.mems| ==> Interp(w, Sym(Index(l, r, elem), sc, k), scopes, h) == Load(h.mems[end], Cell(u, ByIndex(v, elem))))
      && Fails(w, InRange(a, b), scopes, h) == !w.inRange(u, v)
  {
  }

  lemma IndexTraced(w: World, b: Expr, i: Expr, elem: Elem, sc: RegScopes, scopes: Scopes, h: History, k: nat)
    requires k < |h.mems| && TracedPair(w, b, i, sc, scopes, h, k)
    ensures Traced(w, Index(b, i, elem), sc, scopes, h, k)
  {
    hide Stop, Eval, Sym, Interp, Fails, Calls;
    IndexStops(w, b, i, elem, sc, scopes, h, k);
    EvalIndex(w, b, i, elem, scopes, h.mems[k]);
    SymIndex(w, b, i, elem, sc, scopes, h, k);
  }

  lemma IndexStops(w: World, l: Expr, r: Expr, elem: Elem, sc: RegScopes, scopes: Scopes, h: History, k: nat)
    requires k < |h.mems|
    ensures var a, b := Sym(l, sc, k), Sym(r, sc, k + Calls(l));
      var both := BothStop(w, l, r, sc, scopes, h, k);
      var end := k + Calls(l) + Calls(r);
      && (both.None? ==> end < |h.mems|)
      && Stop(w, Index(l, r, elem), sc, scopes, h, k)
         == if both.Some? then both else if elem.Listed? && Fails(w, InRange(a, b), scopes, h) then Some(h.mems[end]) else None
  {
    hide StopsWith, Eval, Interp, Fails;
    PairStops(w, l, r, sc, scopes, h, k, InRange(Sym(l, sc, k), Sym(r, sc, k + Calls(l))));
    assert Checks(l, sc, k) + Checks(r, sc, k + Calls(l)) + {} == Checks(l, sc, k) + Checks(r, sc, k + Calls(l));
  }

  /** What a call of the list returns. */
  lemma CallAnswered(w: World, i: Invoke, scopes: Scopes, calls: seq<Invoke>, h: History, k: nat)
    requires Follows(w, calls, scopes, h) && k < |h.mems| && Part(calls, [i], k)
    ensures k < |h.results| <==> k + 1 < |h.mems|
    ensures Reply(w, i, scopes, h, h.mems[k]) == if k < |h.results| then Returned(h.results[k], h.mems[k + 1]) else Panicked(h.stop)
  {
    hide Reply;
    assert calls[k] == calls[k..k + 1][0];
    if k < |h.results| {
      assert Answers(w, calls[k], scopes, h, k);
    }
  }

  lemma EvalCall(w: World, f: Name, arg: Expr, scopes: Scopes, mem: Memory)
    ensures var a := Eval(w, arg, scopes, mem);
      Eval(w, Call(f, arg), scopes, mem) == Invocation(w, f, a)
  {
    hide Operation, Indexing, Selection, Following, Invocation, Lookup, Read;
  }

  lemma SymCall(w: World, f: Name, arg: Expr, sc: RegScopes, scopes: Scopes, h: History, k: nat)
    ensures Calls(Call(f, arg)) == Calls(arg) + 1 && Checks(Call(f, arg), sc, k) == Checks(arg, sc, k)
    ensures var mid := k + Calls(arg); mid < |h.results| ==> Interp(w, Sym(Call(f, arg), sc, k), scopes, h) == h.results[mid]
  {
  }

  lemma CallTraced(w: World, f: Name, arg: Expr, sc: RegScopes, scopes: Scopes, calls: seq<Invoke>, h: History, k: nat)
    requires Follows(w, calls, scopes, h) && k < |h.mems| && Traced(w, arg, sc, scopes, h, k)
    requires Part(calls, [Invoke(f, Sym(arg, sc, k))], k + Calls(arg))
    ensures Traced(w, Call(f, arg), sc, scopes, h, k)
  {
    SymCall(w, f, arg, sc, scopes, h, k);
    hide StopsWith, Follows, Part, Eval, Interp, Sym, Checks, Calls;
    var mid := k + Calls(arg);
    ChecksWithin(arg, sc, k);
    ThenCall(w, Checks(arg, sc, k), scopes, h, k, mid);
    EvalCall(w, f, arg, scopes, h.mems[k]);
    if mid < |h.mems| {
      CallAnswered(w, Invoke(f, Sym(arg, sc, k)), scopes, calls, h, mid);
    }
  }
}

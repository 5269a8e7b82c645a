/**
 * What an evaluation does, as text: the term each expression stands for, the checks it makes and the calls.
 * Calls number the epochs; between two calls memory does not change.
 */
module AssignTrace {
  import opened Wrappers
  import opened GoAssign
  import opened AssignLowering

  // ---------- terms ----------

  /** A value as an expression of the variables, of memory in some epoch, and of the results of calls. */
  datatype Term =
    | TNum(n: int)
    | TVar(level: nat, name: Name)
    | TOp(code: nat, left: Term, right: Term)
    | TField(base: Term, field: Name)
    | TIndex(epoch: nat, base: Term, index: Term, elem: Elem)
    | TStar(epoch: nat, base: Term, kind: Kind)
    | TResult(number: nat)

  /** What must hold for an evaluation to go on. */
  datatype Check = NotNil(term: Term) | InRange(base: Term, index: Term) | Defined(code: nat, left: Term, right: Term)

  /** A pointer followed, and what it points to. */
  datatype Deref = Deref(base: Term, kind: Kind)

  datatype Due = Due(epoch: nat, check: Check)

  datatype Invoke = Invoke(callee: Name, argument: Term)

  function LevelOf(sc: RegScopes, x: Name): nat {
    if sc == [] then 0 else if x in sc[|sc| - 1] then |sc| - 1 else LevelOf(sc[..|sc| - 1], x)
  }

  function Calls(e: Expr): nat {
    match e
    case Lit(_) => 0
    case Ident(_) => 0
    case Binary(_, l, r) => Calls(l) + Calls(r)
    case Field(b, _) => Calls(b)
    case Index(b, i, _) => Calls(b) + Calls(i)
    case Star(b, _) => Calls(b)
    case Call(_, arg) => Calls(arg) + 1
  }

  /** The value of an expression whose evaluation starts in epoch k. */
  function Sym(e: Expr, sc: RegScopes, k: nat): Term {
    match e
    case Lit(n) => TNum(n)
    case Ident(x) =>
      (match LookupReg(sc, x)
       case Some(p) => if p.box.Some? then TStar(k, TVar(LevelOf(sc, x), x), p.box.value) else TVar(LevelOf(sc, x), x)
       case None => TNum(0))
    case Binary(op, l, r) => TOp(op.code, Sym(l, sc, k), Sym(r, sc, k + Calls(l)))
    case Field(b, f) => TField(Sym(b, sc, k), f)
    case Index(b, i, elem) => TIndex(k + Calls(b) + Calls(i), Sym(b, sc, k), Sym(i, sc, k + Calls(b)), elem)
    case Star(b, kind) => TStar(k + Calls(b), Sym(b, sc, k), kind)
    case Call(_, arg) => TResult(k + Calls(arg))
  }

  /** The checks made, each with the epoch it is made in. */
  function Checks(e: Expr, sc: RegScopes, k: nat): set<Due> {
    match e
    case Lit(_) => {}
    case Ident(_) => {}
    case Binary(op, l, r) =>
      Checks(l, sc, k) + Checks(r, sc, k + Calls(l))
      + if op.partial then {Due(k + Calls(l) + Calls(r), Defined(op.code, Sym(l, sc, k), Sym(r, sc, k + Calls(l))))} else {}
    case Field(b, _) => Checks(b, sc, k)
    case Index(b, i, elem) =>
      Checks(b, sc, k) + Checks(i, sc, k + Calls(b))
      + if elem.Listed? then {Due(k + Calls(b) + Calls(i), InRange(Sym(b, sc, k), Sym(i, sc, k + Calls(b))))} else {}
    case Star(b, _) => Checks(b, sc, k) + {Due(k + Calls(b), NotNil(Sym(b, sc, k)))}
    case Call(_, arg) => Checks(arg, sc, k)
  }

  function Invokes(e: Expr, sc: RegScopes, k: nat): (r: seq<Invoke>)
    ensures |r| == Calls(e)
  {
    match e
    case Lit(_) => []
    case Ident(_) => []
    case Binary(_, l, r) => Invokes(l, sc, k) + Invokes(r, sc, k + Calls(l))
    case Field(b, _) => Invokes(b, sc, k)
    case Index(b, i, _) => Invokes(b, sc, k) + Invokes(i, sc, k + Calls(b))
    case Star(b, _) => Invokes(b, sc, k)
    case Call(f, arg) => Invokes(arg, sc, k) + [Invoke(f, Sym(arg, sc, k))]
  }

  lemma {:induction false} ChecksSpan(e: Expr, sc: RegScopes, k: nat, d: Due)
    requires d in Checks(e, sc, k)
    ensures k <= d.epoch <= k + Calls(e)
    decreases e
  {
    hide Sym;
    match e
    case Lit(_) =>
    case Ident(_) =>
    case Binary(op, l, r) =>
      if d in Checks(l, sc, k) {
        ChecksSpan(l, sc, k, d);
      } else if d in Checks(r, sc, k + Calls(l)) {
        ChecksSpan(r, sc, k + Calls(l), d);
      }
    case Field(b, _) => ChecksSpan(b, sc, k, d);
    case Index(b, i, _) =>
      if d in Checks(b, sc, k) {
        ChecksSpan(b, sc, k, d);
      } else if d in Checks(i, sc, k + Calls(b)) {
        ChecksSpan(i, sc, k + Calls(b), d);
      }
    case Star(b, _) => if d in Checks(b, sc, k) { ChecksSpan(b, sc, k, d); }
    case Call(_, arg) => ChecksSpan(arg, sc, k, d);
  }

  // ---------- what a term depends on ----------

  /** The term speaks of nothing after epoch k. */
  predicate Known(t: Term, k: nat) {
    match t
    case TNum(_) => true
    case TVar(_, _) => true
    case TOp(_, a, b) => Known(a, k) && Known(b, k)
    case TField(b, _) => Known(b, k)
    case TIndex(e, b, i, _) => e <= k && Known(b, k) && Known(i, k)
    case TStar(e, b, _) => e <= k && Known(b, k)
    case TResult(i) => i < k
  }

  lemma KnownLater(t: Term, k: nat, l: nat)
    requires Known(t, k) && k <= l
    ensures Known(t, l)
  {
  }

  lemma {:induction false} SymKnown(e: Expr, sc: RegScopes, k: nat)
    ensures Known(Sym(e, sc, k), k + Calls(e))
    decreases e, 1
  {
    hide LookupReg, LevelOf;
    match e
    case Lit(_) =>
    case Ident(_) =>
    case Binary(_, l, r) => PairKnown(e, l, r, sc, k);
    case Index(l, r, _) => PairKnown(e, l, r, sc, k);
    case Field(b, _) => SymKnown(b, sc, k);
    case Star(b, _) => SymKnown(b, sc, k);
    case Call(_, arg) =>
  }

  lemma {:induction false} PairKnown(e: Expr, l: Expr, r: Expr, sc: RegScopes, k: nat)
    requires (e.Binary? && l == e.left && r == e.right) || (e.Index? && l == e.base && r == e.index)
    ensures Known(Sym(l, sc, k), k + Calls(e)) && Known(Sym(r, sc, k + Calls(l)), k + Calls(e))
    decreases e, 0
  {
    hide Sym, Known;
    SymKnown(l, sc, k);
    SymKnown(r, sc, k + Calls(l));
    KnownLater(Sym(l, sc, k), k + Calls(l), k + Calls(e));
  }

  /** Each call's argument speaks of nothing later than the call. */
  ghost predicate InOrder(calls: seq<Invoke>, k: nat) {
    forall i :: 0 <= i < |calls| ==> Known(calls[i].argument, k + i)
  }

  lemma InOrderConcat(a: seq<Invoke>, b: seq<Invoke>, k: nat)
    requires InOrder(a, k) && InOrder(b, k + |a|)
    ensures InOrder(a + b, k)
  {
    hide Known;
    forall i | 0 <= i < |a + b| ensures Known((a + b)[i].argument, k + i) {
      if i >= |a| {
        assert (a + b)[i] == b[i - |a|] && Known(b[i - |a|].argument, k + |a| + (i - |a|));
      }
    }
  }

  lemma NoneInOrder(k: nat)
    ensures InOrder([], k)
  {
  }

  lemma OneInOrder(i: Invoke, k: nat)
    requires Known(i.argument, k)
    ensures InOrder([i], k)
  {
  }

  lemma {:induction false} InvokesInOrder(e: Expr, sc: RegScopes, k: nat)
    ensures InOrder(Invokes(e, sc, k), k)
    decreases e
  {
    hide InOrder, Sym;
    match e
    case Lit(_) => NoneInOrder(k);
    case Ident(_) => NoneInOrder(k);
    case Binary(_, l, r) =>
      InvokesInOrder(l, sc, k);
      InvokesInOrder(r, sc, k + Calls(l));
      InOrderConcat(Invokes(l, sc, k), Invokes(r, sc, k + Calls(l)), k);
    case Field(b, _) => InvokesInOrder(b, sc, k);
    case Index(b, i, _) =>
      InvokesInOrder(b, sc, k);
      InvokesInOrder(i, sc, k + Calls(b));
      InOrderConcat(Invokes(b, sc, k), Invokes(i, sc, k + Calls(b)), k);
    case Star(b, _) => InvokesInOrder(b, sc, k);
    case Call(f, arg) =>
      InvokesInOrder(arg, sc, k);
      SymKnown(arg, sc, k);
      OneInOrder(Invoke(f, Sym(arg, sc, k)), k + Calls(arg));
      InOrderConcat(Invokes(arg, sc, k), [Invoke(f, Sym(arg, sc, k))], k);
  }
}

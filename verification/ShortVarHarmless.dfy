/** When the sequential form of `a, b := x, y` has Go's meaning: the condition, and that it suffices. */
module ShortVarHarmless {
  import opened Wrappers
  import opened GoAssign
  import opened AssignLowering
  import opened ShortVarLowering
  import opened ShortVarSequential
  import opened AssignTrace
  import opened AssignHistory

  // ---------- traces of lists ----------

  function CallsOf(es: seq<Expr>, wanted: seq<bool>): nat
    requires |wanted| == |es|
    decreases |es|
  {
    if es == [] then 0
    else
      var n := |es| - 1;
      CallsOf(es[..n], wanted[..n]) + if wanted[n] then Calls(es[n]) else 0
  }

  function DuesOf(es: seq<Expr>, wanted: seq<bool>, sc: RegScopes): set<Due>
    requires |wanted| == |es|
    decreases |es|
  {
    if es == [] then {}
    else
      var n := |es| - 1;
      DuesOf(es[..n], wanted[..n], sc) + if wanted[n] then Checks(es[n], sc, CallsOf(es[..n], wanted[..n])) else {}
  }

  function InvokesOf(es: seq<Expr>, wanted: seq<bool>, sc: RegScopes): (r: seq<Invoke>)
    requires |wanted| == |es|
    ensures |r| == CallsOf(es, wanted)
    decreases |es|
  {
    if es == [] then []
    else
      var n := |es| - 1;
      InvokesOf(es[..n], wanted[..n], sc) + if wanted[n] then Invokes(es[n], sc, CallsOf(es[..n], wanted[..n])) else []
  }

  function ValuesOf(w: World, es: seq<Expr>, wanted: seq<bool>, sc: RegScopes, scopes: Scopes, h: History): (r: seq<Value>)
    requires |wanted| == |es|
    ensures |r| == |es|
    decreases |es|
  {
    if es == [] then []
    else
      var n := |es| - 1;
      ValuesOf(w, es[..n], wanted[..n], sc, scopes, h)
      + [if wanted[n] then Interp(w, Sym(es[n], sc, CallsOf(es[..n], wanted[..n])), scopes, h) else ZERO]
  }

  lemma {:induction false} DuesWithin(es: seq<Expr>, wanted: seq<bool>, sc: RegScopes)
    requires |wanted| == |es|
    ensures Within(DuesOf(es, wanted, sc), 0, CallsOf(es, wanted))
    decreases |es|
  {
    if es != [] {
      var n := |es| - 1;
      DuesWithin(es[..n], wanted[..n], sc);
      if wanted[n] {
        ChecksWithin(es[n], sc, CallsOf(es[..n], wanted[..n]));
      }
    }
  }

  lemma {:induction false} InvokesOfInOrder(es: seq<Expr>, wanted: seq<bool>, sc: RegScopes)
    requires |wanted| == |es|
    ensures InOrder(InvokesOf(es, wanted, sc), 0)
    decreases |es|
  {
    hide InOrder;
    if es == [] {
      NoneInOrder(0);
    } else {
      var n := |es| - 1;
      InvokesOfInOrder(es[..n], wanted[..n], sc);
      var front := InvokesOf(es[..n], wanted[..n], sc);
      if wanted[n] {
        InvokesInOrder(es[n], sc, |front|);
        InOrderConcat(front, Invokes(es[n], sc, |front|), 0);
      } else {
        assert front + [] == front;
      }
    }
  }

  /** The evaluation of a list stops, or yields its values at the end of its last epoch. */
  ghost predicate TellsAll(r: AllReturned, stop: Option<Memory>, values: seq<Value>, h: History, end: nat) {
    match stop
    case None => end < |h.mems| && r == AllReturned(values, h.mems[end])
    case Some(mem) => r == AnyPanicked(mem)
  }

  ghost predicate ListTraced(w: World, es: seq<Expr>, wanted: seq<bool>, sc: RegScopes, scopes: Scopes, h: History)
    requires |wanted| == |es| && |h.mems| > 0
  {
    TellsAll(EvalAll(w, es, wanted, scopes, h.mems[0]),
      StopsWith(w, DuesOf(es, wanted, sc), scopes, h, 0, CallsOf(es, wanted)),
      ValuesOf(w, es, wanted, sc, scopes, h), h, CallsOf(es, wanted))
  }

  /** The evaluation of a list follows its trace. */
  lemma {:induction false} EvalAllTraced(w: World, es: seq<Expr>, wanted: seq<bool>, sc: RegScopes, scopes: Scopes, calls: seq<Invoke>, h: History)
    requires |wanted| == |es| && Follows(w, calls, scopes, h) && Shaped(sc, scopes) && |h.mems| > 0
    requires Part(calls, InvokesOf(es, wanted, sc), 0)
    ensures ListTraced(w, es, wanted, sc, scopes, h)
    decreases |es|
  {
    hide Follows, Shaped, Part, StopsWith, Within, Eval, Checks, Sym, Interp, Calls;
    if es == [] {
      NoChecks(w, scopes, h, 0);
    } else {
      var n := |es| - 1;
      var front, k := InvokesOf(es[..n], wanted[..n], sc), CallsOf(es[..n], wanted[..n]);
      var more := if wanted[n] then Invokes(es[n], sc, k) else [];
      PartSplit(calls, front, more, 0);
      EvalAllTraced(w, es[..n], wanted[..n], sc, scopes, calls, h);
      DuesWithin(es[..n], wanted[..n], sc);
      if wanted[n] {
        ChecksWithin(es[n], sc, k);
        StopsSplit(w, DuesOf(es[..n], wanted[..n], sc), Checks(es[n], sc, k), scopes, h, 0, k, k + Calls(es[n]));
        if StopsWith(w, DuesOf(es[..n], wanted[..n], sc), scopes, h, 0, k).None? {
          EvalTraced(w, es[n], sc, scopes, calls, h, k);
        }
      } else {
        assert DuesOf(es, wanted, sc) == DuesOf(es[..n], wanted[..n], sc);
      }
    }
  }

  // ---------- the condition ----------

  /** A check like this one is made no later. */
  predicate Covered(d: Due, kept: set<Due>) {
    exists b :: b in kept && b.check == d.check && b.epoch <= d.epoch
  }

  /** The right side of a blank name calls nothing and checks nothing that some other right side does not. */
  predicate BlanksIdle(lhs: seq<Name>, rhs: seq<Expr>, sc: RegScopes)
    requires |lhs| == |rhs|
  {
    && (forall i :: 0 <= i < |lhs| && lhs[i] == BLANK ==> Calls(rhs[i]) == 0)
    && (forall d :: d in DuesOf(rhs, All(|rhs|), sc) ==> Covered(d, DuesOf(rhs, Wanted(lhs), sc)))
  }

  /** The pointers an expression follows. */
  function Pointers(e: Expr, sc: RegScopes, k: nat): set<Deref> {
    match e
    case Lit(_) => {}
    case Ident(_) => {}
    case Binary(_, l, r) => Pointers(l, sc, k) + Pointers(r, sc, k + Calls(l))
    case Field(b, _) => Pointers(b, sc, k)
    case Index(b, i, _) => Pointers(b, sc, k) + Pointers(i, sc, k + Calls(b))
    case Star(b, kind) => Pointers(b, sc, k) + {Deref(Sym(b, sc, k), kind)}
    case Call(_, arg) => Pointers(arg, sc, k)
  }

  /** The name is an existing variable of the innermost scope whose address was taken. */
  predicate Boxed(x: Name, sc: RegScopes) {
    x != BLANK && sc != [] && x in sc[|sc| - 1] && sc[|sc| - 1][x].box.Some?
  }

  /** The name is an existing variable of the innermost scope that is a named result. */
  predicate Outlives(x: Name, sc: RegScopes) {
    x != BLANK && sc != [] && x in sc[|sc| - 1] && sc[|sc| - 1][x].result
  }

  /** Something besides the statement may see when it is bound: a pointer, or what recovers a panic. */
  predicate Exposed(x: Name, sc: RegScopes) {
    Boxed(x, sc) || Outlives(x, sc)
  }

  /** What a pointer to the variable points to. */
  function BoxKind(x: Name, sc: RegScopes): Option<Kind> {
    if Boxed(x, sc) then sc[|sc| - 1][x].box else None
  }

  /** The epoch in which right side i starts. */
  function Start(lhs: seq<Name>, rhs: seq<Expr>, i: nat): nat
    requires |lhs| == |rhs| && i <= |lhs|
  {
    CallsOf(rhs[..i], Wanted(lhs[..i]))
  }

  /** Right side j cannot tell, and no panic in it can show, whether name i was already bound. */
  predicate Unaware(lhs: seq<Name>, rhs: seq<Expr>, sc: RegScopes, i: nat, j: nat)
    requires |lhs| == |rhs| && i < |lhs| && j < |lhs|
  {
    && Calls(rhs[j]) == 0
    && (forall b :: b in Pointers(rhs[j], sc, Start(lhs, rhs, j)) && BoxKind(lhs[i], sc) == Some(b.kind) ==>
          Sym(rhs[i], sc, Start(lhs, rhs, i)) == TStar(Start(lhs, rhs, j), b.base, b.kind))
    && (forall d :: d in Checks(rhs[j], sc, Start(lhs, rhs, j)) ==>
          exists b :: b in DuesOf(rhs[..i + 1], Wanted(lhs[..i + 1]), sc) && b.check == d.check)
  }

  predicate StoresUnseen(lhs: seq<Name>, rhs: seq<Expr>, sc: RegScopes)
    requires |lhs| == |rhs|
  {
    forall i, j :: 0 <= i < j < |lhs| && Exposed(lhs[i], sc) && lhs[j] != BLANK ==> Unaware(lhs, rhs, sc, i, j)
  }

  predicate Harmless(lhs: seq<Name>, rhs: seq<Expr>, sc: RegScopes)
    requires |lhs| == |rhs|
  {
    BlanksIdle(lhs, rhs, sc) && StoresUnseen(lhs, rhs, sc)
  }

  // ---------- leaving out what blanks would evaluate ----------

  /** The evaluations end alike, and the wanted values are the same. */
  ghost predicate SameWanted(a: AllReturned, b: AllReturned, wanted: seq<bool>) {
    && a.AllReturned? == b.AllReturned? && a.mem == b.mem
    && (a.AllReturned? ==> |a.values| == |b.values| == |wanted| && forall i :: 0 <= i < |wanted| && wanted[i] ==> a.values[i] == b.values[i])
  }

  /** Checks that are covered never stop an evaluation by themselves. */
  lemma {:induction false} CoveredStops(w: World, a: set<Due>, b: set<Due>, scopes: Scopes, h: History, k: nat, end: nat)
    requires k <= end && k < |h.mems| && b <= a && (forall d :: d in a ==> Covered(d, b))
    requires forall d :: d in a && d.epoch < k ==> !Fails(w, d.check, scopes, h)
    ensures StopsWith(w, a, scopes, h, k, end) == StopsWith(w, b, scopes, h, k, end)
    decreases end - k
  {
    hide Fails;
    assert FailsAt(w, a, scopes, h, k) ==> FailsAt(w, b, scopes, h, k);
    if !FailsAt(w, a, scopes, h, k) && k < end && k + 1 < |h.mems| {
      CoveredStops(w, a, b, scopes, h, k + 1, end);
    }
  }

  lemma {:induction false} WantedTrace(lhs: seq<Name>, rhs: seq<Expr>, sc: RegScopes)
    requires |lhs| == |rhs| && forall i :: 0 <= i < |lhs| && lhs[i] == BLANK ==> Calls(rhs[i]) == 0
    ensures var all, wanted := All(|rhs|), Wanted(lhs);
      && CallsOf(rhs, all) == CallsOf(rhs, wanted) && InvokesOf(rhs, all, sc) == InvokesOf(rhs, wanted, sc)
      && DuesOf(rhs, wanted, sc) <= DuesOf(rhs, all, sc)
    decreases |lhs|
  {
    hide Checks, Sym;
    if lhs != [] {
      var n := |lhs| - 1;
      AllPrefix(|rhs|);
      assert Wanted(lhs)[..n] == Wanted(lhs[..n]);
      WantedTrace(lhs[..n], rhs[..n], sc);
    }
  }

  lemma {:induction false} WantedValues(w: World, lhs: seq<Name>, rhs: seq<Expr>, sc: RegScopes, scopes: Scopes, h: History, i: nat)
    requires |lhs| == |rhs| && i < |lhs| && lhs[i] != BLANK && forall i :: 0 <= i < |lhs| && lhs[i] == BLANK ==> Calls(rhs[i]) == 0
    ensures ValuesOf(w, rhs, All(|rhs|), sc, scopes, h)[i] == ValuesOf(w, rhs, Wanted(lhs), sc, scopes, h)[i]
    decreases |lhs|
  {
    hide Interp, Sym;
    var n := |lhs| - 1;
    AllPrefix(|rhs|);
    assert Wanted(lhs)[..n] == Wanted(lhs[..n]);
    WantedTrace(lhs[..n], rhs[..n], sc);
    if i < n {
      WantedValues(w, lhs[..n], rhs[..n], sc, scopes, h, i);
    }
  }

  /** If blanks are idle, evaluating their right sides makes no difference. */
  lemma BlanksSkipped(w: World, lhs: seq<Name>, rhs: seq<Expr>, sc: RegScopes, scopes: Scopes, mem: Memory)
    requires |lhs| == |rhs| && Shaped(sc, scopes) && BlanksIdle(lhs, rhs, sc)
    ensures SameWanted(EvalAll(w, rhs, All(|rhs|), scopes, mem), EvalAll(w, rhs, Wanted(lhs), scopes, mem), Wanted(lhs))
  {
    hide Shaped, StopsWith, EvalAll, DuesOf, InvokesOf, ValuesOf, CallsOf, InOrder, Covered, Fails;
    var all, wanted := All(|rhs|), Wanted(lhs);
    var calls := InvokesOf(rhs, all, sc);
    InvokesOfInOrder(rhs, all, sc);
    var h := HasHistory(w, calls, scopes, mem);
    WantedTrace(lhs, rhs, sc);
    assert Part(calls, calls, 0);
    EvalAllTraced(w, rhs, all, sc, scopes, calls, h);
    EvalAllTraced(w, rhs, wanted, sc, scopes, calls, h);
    CoveredStops(w, DuesOf(rhs, all, sc), DuesOf(rhs, wanted, sc), scopes, h, 0, CallsOf(rhs, all));
    forall i | 0 <= i < |wanted| && wanted[i] ensures ValuesOf(w, rhs, all, sc, scopes, h)[i] == ValuesOf(w, rhs, wanted, sc, scopes, h)[i] {
      WantedValues(w, lhs, rhs, sc, scopes, h, i);
    }
  }
}

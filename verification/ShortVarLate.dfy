/** Binding early what Go binds late: why it goes unseen when the condition holds. */
module ShortVarLate {
  import opened Wrappers
  import opened GoAssign
  import opened AssignLowering
  import opened ShortVarLowering
  import opened ShortVarSequential
  import opened AssignTrace
  import opened AssignHistory
  import opened ShortVarHarmless

  // ---------- what declaring leaves alone ----------

  predicate HasBox(scopes: Scopes, k: int, x: Name) {
    0 <= k < |scopes| && x in scopes[k] && scopes[k][x].box.Some?
  }

  /** Different variables have different boxes. */
  ghost predicate Apart(scopes: Scopes) {
    forall k, x, l, y :: HasBox(scopes, k, x) && HasBox(scopes, l, y) && BoxOf(scopes[k][x]) == BoxOf(scopes[l][y]) ==> k == l && x == y
  }

  /** The box of an innermost variable. */
  function TopBox(scopes: Scopes, x: Name): Option<Slot>
    requires scopes != []
  {
    if HasBox(scopes, |scopes| - 1, x) then Some(scopes[|scopes| - 1][x]) else None
  }

  lemma {:induction false} DeclareKeepsBoxes(env: Env, lhs: seq<Name>, values: seq<Value>, x: Name)
    requires |lhs| == |values| && env.scopes != []
    ensures TopBox(Declare(env, lhs, values).scopes, x) == TopBox(env.scopes, x)
    decreases |lhs|
  {
    if lhs != [] {
      DeclareKeepsBoxes(env, lhs[..|lhs| - 1], values[..|lhs| - 1], x);
    }
  }

  lemma BindLookup(env: Env, x: Name, v: Value, y: Name)
    requires env.scopes != [] && x != y
    ensures Lookup(Bind(env, x, v).scopes, y) == Lookup(env.scopes, y)
  {
    var n := |env.scopes| - 1;
    assert Bind(env, x, v).scopes[..n] == env.scopes[..n];
  }

  lemma {:induction false} DeclareLookup(env: Env, lhs: seq<Name>, values: seq<Value>, y: Name)
    requires |lhs| == |values| && env.scopes != [] && y !in LeftNames(lhs)
    ensures Lookup(Declare(env, lhs, values).scopes, y) == Lookup(env.scopes, y)
    decreases |lhs|
  {
    hide Bind;
    if lhs != [] {
      var n := |lhs| - 1;
      DeclareLookup(env, lhs[..n], values[..n], y);
      if lhs[n] != BLANK {
        BindLookup(Declare(env, lhs[..n], values[..n]), lhs[n], values[n], y);
      }
    }
  }

  /** Name i is boxed and the cell is its box. */
  predicate IsBoxOf(scopes: Scopes, lhs: seq<Name>, i: int, c: Cell)
    requires scopes != []
  {
    0 <= i < |lhs| && lhs[i] != BLANK && TopBox(scopes, lhs[i]).Some? && c == BoxOf(TopBox(scopes, lhs[i]).value)
  }

  lemma BindCell(env: Env, x: Name, v: Value, c: Cell)
    requires env.scopes != []
    ensures var box := TopBox(env.scopes, x);
      Load(Bind(env, x, v).mem, c) == if box.Some? && c == BoxOf(box.value) then v else Load(env.mem, c)
  {
  }

  /** A cell keeps its value, or is the box of a name and holds that name's value. */
  lemma {:induction false} DeclareCell(env: Env, lhs: seq<Name>, values: seq<Value>, c: Cell)
    requires |lhs| == |values| && env.scopes != []
    ensures || Load(Declare(env, lhs, values).mem, c) == Load(env.mem, c)
            || exists i :: IsBoxOf(env.scopes, lhs, i, c) && values[i] == Load(Declare(env, lhs, values).mem, c)
    decreases |lhs|
  {
    hide Bind, Load, TopBox;
    if lhs != [] {
      var n := |lhs| - 1;
      var before := Declare(env, lhs[..n], values[..n]);
      DeclareCell(env, lhs[..n], values[..n], c);
      DeclareKeepsBoxes(env, lhs[..n], values[..n], lhs[n]);
      BindCell(before, lhs[n], values[n], c);
      if i :| IsBoxOf(env.scopes, lhs[..n], i, c) && values[..n][i] == Load(before.mem, c) {
        assert IsBoxOf(env.scopes, lhs, i, c);
      }
      assert lhs[n] != BLANK && TopBox(env.scopes, lhs[n]).Some? && c == BoxOf(TopBox(env.scopes, lhs[n]).value)
        ==> IsBoxOf(env.scopes, lhs, n, c);
    }
  }

  lemma PlainCell(env: Env, lhs: seq<Name>, values: seq<Value>, c: Cell)
    requires |lhs| == |values| && env.scopes != [] && !c.selector.ByStar?
    ensures Load(Declare(env, lhs, values).mem, c) == Load(env.mem, c)
  {
    hide Declare, Load, TopBox;
    DeclareCell(env, lhs, values, c);
  }

  /** Where no name is boxed, memory stays and the scopes do not depend on it. */
  lemma {:induction false} DeclareUnboxed(scopes: Scopes, lhs: seq<Name>, values: seq<Value>, a: Memory, b: Memory)
    requires |lhs| == |values| && scopes != [] && forall i :: 0 <= i < |lhs| && lhs[i] != BLANK ==> TopBox(scopes, lhs[i]).None?
    ensures Declare(Env(scopes, a), lhs, values) == Env(Declare(Env(scopes, b), lhs, values).scopes, a)
    decreases |lhs|
  {
    if lhs != [] {
      var n := |lhs| - 1;
      DeclareUnboxed(scopes, lhs[..n], values[..n], a, b);
      DeclareKeepsBoxes(Env(scopes, a), lhs[..n], values[..n], lhs[n]);
      DeclareKeepsBoxes(Env(scopes, b), lhs[..n], values[..n], lhs[n]);
    }
  }

  /** Values of blanks do not matter. */
  lemma {:induction false} DeclareWanted(env: Env, lhs: seq<Name>, a: seq<Value>, b: seq<Value>)
    requires |lhs| == |a| == |b| && env.scopes != [] && forall i :: 0 <= i < |lhs| && lhs[i] != BLANK ==> a[i] == b[i]
    ensures Declare(env, lhs, a) == Declare(env, lhs, b)
    decreases |lhs|
  {
    if lhs != [] {
      DeclareWanted(env, lhs[..|lhs| - 1], a[..|lhs| - 1], b[..|lhs| - 1]);
    }
  }

  // ---------- evaluating late ----------

  lemma {:induction false} EvalFrame(w: World, e: Expr, a: Scopes, b: Scopes, mem: Memory)
    requires forall x :: x in Idents(e) ==> Lookup(a, x) == Lookup(b, x)
    ensures Eval(w, e, a, mem) == Eval(w, e, b, mem)
    decreases e
  {
    hide Lookup, Operation, Indexing, Selection, Following, Invocation, Read;
    match e
    case Lit(_) =>
    case Ident(_) =>
    case Binary(_, l, r) => EvalFrame(w, l, a, b, mem); EvalFrame(w, r, a, b, Eval(w, l, a, mem).mem);
    case Field(x, _) => EvalFrame(w, x, a, b, mem);
    case Index(x, i, _) => EvalFrame(w, x, a, b, mem); EvalFrame(w, i, a, b, Eval(w, x, a, mem).mem);
    case Star(x, _) => EvalFrame(w, x, a, b, mem);
    case Call(_, arg) => EvalFrame(w, arg, a, b, mem);
  }

  /** The expression reads the same variables and the same cells in another memory. */
  ghost predicate SeesSame(w: World, e: Expr, sc: RegScopes, scopes: Scopes, h: History, k: nat, mem: Memory)
    requires k < |h.mems|
  {
    && (forall x :: x in Idents(e) ==> Read(Lookup(scopes, x), mem) == Read(Lookup(scopes, x), h.mems[k]))
    && (forall c: Cell :: !c.selector.ByStar? ==> Load(mem, c) == Load(h.mems[k], c))
    && (forall b :: b in Pointers(e, sc, k) ==> SameAt(w, b, scopes, h, k, mem))
  }

  ghost predicate SameAt(w: World, b: Deref, scopes: Scopes, h: History, k: nat, mem: Memory)
    requires k < |h.mems|
  {
    var c := Cell(Interp(w, b.base, scopes, h), ByStar(b.kind));
    Load(mem, c) == Load(h.mems[k], c)
  }

  function Moved(r: Returned, mem: Memory): Returned {
    if r.Returned? then Returned(r.value, mem) else Panicked(mem)
  }

  /** An expression without calls evaluates to the same in a memory that looks the same to it. */
  lemma {:induction false} EvalLate(w: World, e: Expr, sc: RegScopes, scopes: Scopes, calls: seq<Invoke>, h: History, k: nat, mem: Memory)
    requires Follows(w, calls, scopes, h) && Shaped(sc, scopes) && k < |h.mems| && Calls(e) == 0 && SeesSame(w, e, sc, scopes, h, k, mem)
    ensures Eval(w, e, scopes, h.mems[k]).mem == h.mems[k] && Eval(w, e, scopes, mem) == Moved(Eval(w, e, scopes, h.mems[k]), mem)
    decreases e
  {
    hide Follows, Shaped, Lookup, Read, Interp, Sym, SameAt;
    match e
    case Lit(_) =>
    case Ident(_) =>
    case Binary(_, l, r) =>
      EvalLate(w, l, sc, scopes, calls, h, k, mem);
      EvalLate(w, r, sc, scopes, calls, h, k, mem);
    case Field(b, _) => EvalLate(w, b, sc, scopes, calls, h, k, mem);
    case Index(b, i, _) =>
      EvalLate(w, b, sc, scopes, calls, h, k, mem);
      EvalLate(w, i, sc, scopes, calls, h, k, mem);
    case Star(b, kind) =>
      EvalLate(w, b, sc, scopes, calls, h, k, mem);
      PointerValue(w, b, sc, scopes, calls, h, k);
      assert Deref(Sym(b, sc, k), kind) in Pointers(e, sc, k);
      StarLate(w, Eval(w, b, scopes, h.mems[k]), Deref(Sym(b, sc, k), kind), scopes, h, k, mem);
    case Call(_, _) =>
  }

  lemma PointerValue(w: World, b: Expr, sc: RegScopes, scopes: Scopes, calls: seq<Invoke>, h: History, k: nat)
    requires Follows(w, calls, scopes, h) && Shaped(sc, scopes) && k < |h.mems| && Calls(b) == 0
    ensures var r := Eval(w, b, scopes, h.mems[k]); r.Returned? ==> r.value == Interp(w, Sym(b, sc, k), scopes, h)
  {
    assert Invokes(b, sc, k) == [] && Part(calls, [], k);
    EvalTraced(w, b, sc, scopes, calls, h, k);
  }

  lemma StarLate(w: World, r: Returned, b: Deref, scopes: Scopes, h: History, k: nat, mem: Memory)
    requires k < |h.mems| && SameAt(w, b, scopes, h, k, mem) && (r.Returned? ==> r.value == Interp(w, b.base, scopes, h))
    ensures r.Returned? ==> Followed(w, r.value, b.kind, mem) == Moved(Followed(w, r.value, b.kind, h.mems[k]), mem)
  {
  }

  // ---------- one binding early ----------

  /** What is left of the statement once a prefix was evaluated without a panic, in these terms. */
  ghost predicate Reached(w: World, lhs: seq<Name>, rhs: seq<Expr>, sc: RegScopes, scopes: Scopes, calls: seq<Invoke>, h: History, n: nat) {
    && |lhs| == |rhs| && n < |lhs| && Follows(w, calls, scopes, h) && Shaped(sc, scopes) && |h.mems| > 0
    && Part(calls, InvokesOf(rhs[..n], Wanted(lhs[..n]), sc), 0)
    && EvalAll(w, rhs[..n], Wanted(lhs[..n]), scopes, h.mems[0]).AllReturned?
  }

  /** No check made so far fails. */
  lemma {:induction false} NoneFails(w: World, dues: set<Due>, scopes: Scopes, h: History, k: nat, end: nat, d: Due)
    requires k <= end && k < |h.mems| && StopsWith(w, dues, scopes, h, k, end).None? && d in dues && k <= d.epoch <= end
    ensures !Fails(w, d.check, scopes, h)
    decreases end - k
  {
    hide Fails;
    assert !FailsAt(w, dues, scopes, h, k);
    if k < d.epoch {
      NoneFails(w, dues, scopes, h, k + 1, end, d);
    }
  }

  lemma {:induction false} ValueAt(w: World, es: seq<Expr>, wanted: seq<bool>, sc: RegScopes, scopes: Scopes, h: History, i: nat)
    requires |wanted| == |es| && i < |es| && wanted[i]
    ensures ValuesOf(w, es, wanted, sc, scopes, h)[i] == Interp(w, Sym(es[i], sc, CallsOf(es[..i], wanted[..i])), scopes, h)
    decreases |es|
  {
    hide Interp, Sym, CallsOf;
    var n := |es| - 1;
    if i < n {
      ValueAt(w, es[..n], wanted[..n], sc, scopes, h, i);
      assert es[..n][..i] == es[..i] && wanted[..n][..i] == wanted[..i];
    }
  }

  lemma {:induction false} DuesGrow(lhs: seq<Name>, rhs: seq<Expr>, sc: RegScopes, m: nat, n: nat)
    requires |lhs| == |rhs| && m <= n <= |lhs|
    ensures DuesOf(rhs[..m], Wanted(lhs[..m]), sc) <= DuesOf(rhs[..n], Wanted(lhs[..n]), sc)
    decreases n - m
  {
    hide Checks, CallsOf;
    if m < n {
      DuesGrow(lhs, rhs, sc, m, n - 1);
      assert rhs[..n][..n - 1] == rhs[..n - 1] && Wanted(lhs[..n])[..n - 1] == Wanted(lhs[..n - 1]);
    }
  }

  /** The prefix was evaluated in full: its values are known and none of its checks fails. */
  lemma PrefixTraced(w: World, lhs: seq<Name>, rhs: seq<Expr>, sc: RegScopes, scopes: Scopes, calls: seq<Invoke>, h: History, n: nat)
    requires Reached(w, lhs, rhs, sc, scopes, calls, h, n)
    ensures Start(lhs, rhs, n) < |h.mems|
    ensures EvalAll(w, rhs[..n], Wanted(lhs[..n]), scopes, h.mems[0])
         == AllReturned(ValuesOf(w, rhs[..n], Wanted(lhs[..n]), sc, scopes, h), h.mems[Start(lhs, rhs, n)])
    ensures forall d :: d in DuesOf(rhs[..n], Wanted(lhs[..n]), sc) ==> !Fails(w, d.check, scopes, h)
  {
    hide Follows, Shaped, Part, StopsWith, EvalAll, DuesOf, ValuesOf, Fails, CallsOf;
    var es, wanted := rhs[..n], Wanted(lhs[..n]);
    EvalAllTraced(w, es, wanted, sc, scopes, calls, h);
    DuesWithin(es, wanted, sc);
    forall d | d in DuesOf(es, wanted, sc) ensures !Fails(w, d.check, scopes, h) {
      NoneFails(w, DuesOf(es, wanted, sc), scopes, h, 0, CallsOf(es, wanted), d);
    }
  }

  /** The environment once the prefix was declared. */
  ghost function Midway(w: World, lhs: seq<Name>, rhs: seq<Expr>, sc: RegScopes, scopes: Scopes, h: History, n: nat): (env: Env)
    requires |lhs| == |rhs| && n <= |lhs| && scopes != [] && Start(lhs, rhs, n) < |h.mems|
    ensures env.scopes != []
  {
    Declare(Env(scopes, h.mems[Start(lhs, rhs, n)]), lhs[..n], ValuesOf(w, rhs[..n], Wanted(lhs[..n]), sc, scopes, h))
  }

  /** A statement whose stores go unseen, at one of its names. */
  ghost predicate AtName(w: World, lhs: seq<Name>, rhs: seq<Expr>, sc: RegScopes, scopes: Scopes, calls: seq<Invoke>, h: History, n: nat) {
    && Reached(w, lhs, rhs, sc, scopes, calls, h, n) && scopes != [] && lhs[n] != BLANK && Start(lhs, rhs, n) < |h.mems|
    && Apart(scopes) && StoresUnseen(lhs, rhs, sc) && Idents(rhs[n]) * LeftNames(lhs[..n]) == {}
  }

  lemma BoxedShape(sc: RegScopes, scopes: Scopes, x: Name)
    requires Shaped(sc, scopes) && scopes != [] && x != BLANK
    ensures Boxed(x, sc) <==> TopBox(scopes, x).Some?
    ensures BoxKind(x, sc) == if TopBox(scopes, x).Some? then TopBox(scopes, x).value.box else None
    ensures TopBox(scopes, x).Some? ==> TopBox(scopes, x).value.box.Some?
  {
    if x in sc[|sc| - 1] {
      assert Has(sc, |sc| - 1, x);
    }
  }

  lemma AtNameBounds(w: World, lhs: seq<Name>, rhs: seq<Expr>, sc: RegScopes, scopes: Scopes, calls: seq<Invoke>, h: History, n: nat)
    requires AtName(w, lhs, rhs, sc, scopes, calls, h, n)
    ensures |lhs| == |rhs| && n < |lhs| && scopes != [] && Start(lhs, rhs, n) < |h.mems|
  {
  }

  lemma SameBoxSameName(scopes: Scopes, l: nat, x: Name, lhs: seq<Name>, i: int)
    requires scopes != [] && Apart(scopes) && HasBox(scopes, l, x) && IsBoxOf(scopes, lhs, i, BoxOf(scopes[l][x]))
    ensures x in LeftNames(lhs)
  {
    assert HasBox(scopes, |scopes| - 1, lhs[i]) && BoxOf(scopes[|scopes| - 1][lhs[i]]) == BoxOf(scopes[l][x]);
  }

  lemma LateIdent(w: World, lhs: seq<Name>, rhs: seq<Expr>, sc: RegScopes, scopes: Scopes, calls: seq<Invoke>, h: History, n: nat, x: Name)
    requires AtName(w, lhs, rhs, sc, scopes, calls, h, n) && x in Idents(rhs[n])
    ensures var k := Start(lhs, rhs, n);
      Read(Lookup(scopes, x), Midway(w, lhs, rhs, sc, scopes, h, n).mem) == Read(Lookup(scopes, x), h.mems[k])
  {
    hide Follows, Part, EvalAll, Shaped, InvokesOf, ValuesOf, CallsOf, StoresUnseen, LookupReg, Lookup, Declare, Load, Apart, LeftNames, IsBoxOf;
    var k, values := Start(lhs, rhs, n), ValuesOf(w, rhs[..n], Wanted(lhs[..n]), sc, scopes, h);
    LevelFound(sc, scopes, x);
    var s := Lookup(scopes, x);
    if s.Some? && s.value.box.Some? {
      var l, c := LevelOf(sc, x), BoxOf(s.value);
      assert HasBox(scopes, l, x);
      DeclareCell(Env(scopes, h.mems[k]), lhs[..n], values, c);
      assert x !in LeftNames(lhs[..n]) by { assert x !in Idents(rhs[n]) * LeftNames(lhs[..n]); }
      if i :| IsBoxOf(scopes, lhs[..n], i, c) {
        SameBoxSameName(scopes, l, x, lhs[..n], i);
        assert false;
      }
    }
  }

  lemma LatePointer(w: World, lhs: seq<Name>, rhs: seq<Expr>, sc: RegScopes, scopes: Scopes, calls: seq<Invoke>, h: History, n: nat, b: Deref)
    requires AtName(w, lhs, rhs, sc, scopes, calls, h, n) && b in Pointers(rhs[n], sc, Start(lhs, rhs, n))
    ensures SameAt(w, b, scopes, h, Start(lhs, rhs, n), Midway(w, lhs, rhs, sc, scopes, h, n).mem)
  {
    hide Follows, Part, EvalAll, Shaped, InvokesOf, ValuesOf, CallsOf, Pointers, Apart, Declare, Sym, Checks, DuesOf, Load, TopBox, Boxed, BoxKind;
    var k, es, wanted := Start(lhs, rhs, n), rhs[..n], Wanted(lhs[..n]);
    var values, c := ValuesOf(w, es, wanted, sc, scopes, h), Cell(Interp(w, b.base, scopes, h), ByStar(b.kind));
    DeclareCell(Env(scopes, h.mems[k]), lhs[..n], values, c);
    if i :| IsBoxOf(scopes, lhs[..n], i, c) && values[i] == Load(Midway(w, lhs, rhs, sc, scopes, h, n).mem, c) {
      BoxedShape(sc, scopes, lhs[i]);
      ValueAt(w, es, wanted, sc, scopes, h, i);
      assert es[..i] == rhs[..i] && wanted[..i] == Wanted(lhs[..i]);
      assert Unaware(lhs, rhs, sc, i, n);
      assert Interp(w, TStar(k, b.base, b.kind), scopes, h) == Load(h.mems[k], c);
    }
  }

  lemma LateSees(w: World, lhs: seq<Name>, rhs: seq<Expr>, sc: RegScopes, scopes: Scopes, calls: seq<Invoke>, h: History, n: nat)
    requires AtName(w, lhs, rhs, sc, scopes, calls, h, n)
    ensures SeesSame(w, rhs[n], sc, scopes, h, Start(lhs, rhs, n), Midway(w, lhs, rhs, sc, scopes, h, n).mem)
  {
    hide AtName, Declare, SameAt, Pointers, Idents, Read, Load, ValuesOf, CallsOf, IsBoxOf;
    assert |lhs| == |rhs| && n < |lhs| && scopes != [] && Start(lhs, rhs, n) < |h.mems| by { AtNameBounds(w, lhs, rhs, sc, scopes, calls, h, n); }
    var k, values := Start(lhs, rhs, n), ValuesOf(w, rhs[..n], Wanted(lhs[..n]), sc, scopes, h);
    var mem := Midway(w, lhs, rhs, sc, scopes, h, n).mem;
    forall x | x in Idents(rhs[n]) ensures Read(Lookup(scopes, x), mem) == Read(Lookup(scopes, x), h.mems[k]) {
      LateIdent(w, lhs, rhs, sc, scopes, calls, h, n, x);
    }
    forall b | b in Pointers(rhs[n], sc, k) ensures SameAt(w, b, scopes, h, k, mem) {
      LatePointer(w, lhs, rhs, sc, scopes, calls, h, n, b);
    }
    forall c: Cell | !c.selector.ByStar? ensures Load(mem, c) == Load(h.mems[k], c) {
      PlainCell(Env(scopes, h.mems[k]), lhs[..n], values, c);
    }
  }

  /** Evaluating a right side after the names before it were bound comes to the same as evaluating it before. */
  ghost predicate SameLate(early: Returned, late: Returned, scopes: Scopes, mid: Env, lhs: seq<Name>, values: seq<Value>)
    requires |lhs| == |values| && scopes != []
  {
    match late
    case Panicked(mem) => early == Panicked(mem) && Results(mid.scopes) == Results(scopes)
    case Returned(v, mem) =>
      early.Returned? && early.value == v && Env(mid.scopes, early.mem) == Declare(Env(scopes, mem), lhs, values)
  }

  ghost predicate SideSame(w: World, lhs: seq<Name>, rhs: seq<Expr>, sc: RegScopes, scopes: Scopes, h: History, n: nat)
    requires |lhs| == |rhs| && n < |lhs| && scopes != [] && Start(lhs, rhs, n) < |h.mems|
  {
    var mid := Midway(w, lhs, rhs, sc, scopes, h, n);
    SameLate(Eval(w, rhs[n], mid.scopes, mid.mem), Eval(w, rhs[n], scopes, h.mems[Start(lhs, rhs, n)]), scopes, mid,
      lhs[..n], ValuesOf(w, rhs[..n], Wanted(lhs[..n]), sc, scopes, h))
  }

  /** The scopes midway look the same to a right side. */
  lemma MidwayFrame(w: World, lhs: seq<Name>, rhs: seq<Expr>, sc: RegScopes, scopes: Scopes, calls: seq<Invoke>, h: History, n: nat, mem: Memory)
    requires AtName(w, lhs, rhs, sc, scopes, calls, h, n)
    ensures Eval(w, rhs[n], Midway(w, lhs, rhs, sc, scopes, h, n).scopes, mem) == Eval(w, rhs[n], scopes, mem)
  {
    hide Reached, StoresUnseen, Apart, ValuesOf, Declare, Lookup, CallsOf, LeftNames, Idents, Eval;
    AtNameBounds(w, lhs, rhs, sc, scopes, calls, h, n);
    var env, values := Env(scopes, h.mems[Start(lhs, rhs, n)]), ValuesOf(w, rhs[..n], Wanted(lhs[..n]), sc, scopes, h);
    forall x | x in Idents(rhs[n]) ensures Lookup(Declare(env, lhs[..n], values).scopes, x) == Lookup(scopes, x) {
      assert x !in Idents(rhs[n]) * LeftNames(lhs[..n]);
      DeclareLookup(env, lhs[..n], values, x);
    }
    EvalFrame(w, rhs[n], Declare(env, lhs[..n], values).scopes, scopes, mem);
  }

  ghost predicate NoResult(scopes: Scopes, x: Name)
    requires scopes != []
  {
    x in scopes[|scopes| - 1] ==> !scopes[|scopes| - 1][x].result
  }

  lemma ResultShape(sc: RegScopes, scopes: Scopes, x: Name)
    requires Shaped(sc, scopes) && scopes != [] && x != BLANK
    ensures Outlives(x, sc) <==> !NoResult(scopes, x)
  {
    if x in sc[|sc| - 1] {
      assert Has(sc, |sc| - 1, x);
    }
  }

  lemma BindResults(env: Env, x: Name, v: Value)
    requires env.scopes != [] && NoResult(env.scopes, x)
    ensures Results(Bind(env, x, v).scopes) == Results(env.scopes)
    ensures forall y :: NoResult(Bind(env, x, v).scopes, y) <==> NoResult(env.scopes, y)
  {
    var s, t, n := env.scopes, Bind(env, x, v).scopes, |env.scopes| - 1;
    if t != s {
      assert t[n] == s[n][x := Renewed(s[n], x, v)];
      forall k | 0 <= k < |s| ensures Results(t)[k] == Results(s)[k] {
        assert k < n ==> t[k] == s[k];
      }
    }
  }

  /** Declaring names that are no named results leaves those alone. */
  lemma {:induction false} DeclareResults(env: Env, lhs: seq<Name>, values: seq<Value>)
    requires |lhs| == |values| && env.scopes != []
    requires forall i :: 0 <= i < |lhs| && lhs[i] != BLANK ==> NoResult(env.scopes, lhs[i])
    ensures Results(Declare(env, lhs, values).scopes) == Results(env.scopes)
    ensures forall y :: NoResult(Declare(env, lhs, values).scopes, y) <==> NoResult(env.scopes, y)
    decreases |lhs|
  {
    hide Bind, Results, NoResult;
    if lhs != [] {
      var n := |lhs| - 1;
      DeclareResults(env, lhs[..n], values[..n]);
      if lhs[n] != BLANK {
        assert NoResult(Declare(env, lhs[..n], values[..n]).scopes, lhs[n]);
        BindResults(Declare(env, lhs[..n], values[..n]), lhs[n], values[n]);
      }
    }
  }

  lemma NoStores(w: World, lhs: seq<Name>, rhs: seq<Expr>, sc: RegScopes, scopes: Scopes, calls: seq<Invoke>, h: History, n: nat)
    requires AtName(w, lhs, rhs, sc, scopes, calls, h, n) && forall i :: 0 <= i < n ==> !Exposed(lhs[i], sc)
    ensures SideSame(w, lhs, rhs, sc, scopes, h, n)
  {
    hide StoresUnseen, Apart, ValuesOf, Declare, CallsOf, LeftNames, Idents, Eval, Follows, Part, EvalAll, Boxed, Outlives, NoResult, Results, TopBox, Shaped, InvokesOf;
    var k, values := Start(lhs, rhs, n), ValuesOf(w, rhs[..n], Wanted(lhs[..n]), sc, scopes, h);
    var last := Eval(w, rhs[n], scopes, h.mems[k]);
    MidwayFrame(w, lhs, rhs, sc, scopes, calls, h, n, h.mems[k]);
    forall i | 0 <= i < n && lhs[..n][i] != BLANK ensures TopBox(scopes, lhs[..n][i]).None? && NoResult(scopes, lhs[..n][i]) {
      BoxedShape(sc, scopes, lhs[i]);
      ResultShape(sc, scopes, lhs[i]);
    }
    DeclareResults(Env(scopes, h.mems[k]), lhs[..n], values);
    DeclareUnboxed(scopes, lhs[..n], values, h.mems[k], h.mems[k]);
    DeclareUnboxed(scopes, lhs[..n], values, last.mem, h.mems[k]);
  }

  /** A right side that cannot tell makes no check that could still fail. */
  lemma LateReturns(w: World, lhs: seq<Name>, rhs: seq<Expr>, sc: RegScopes, scopes: Scopes, calls: seq<Invoke>, h: History, n: nat, i: nat)
    requires AtName(w, lhs, rhs, sc, scopes, calls, h, n) && i < n && Exposed(lhs[i], sc)
    ensures Calls(rhs[n]) == 0 && Eval(w, rhs[n], scopes, h.mems[Start(lhs, rhs, n)]).Returned?
  {
    hide Apart, ValuesOf, Declare, CallsOf, LeftNames, Idents, Eval, Follows, EvalAll, Exposed, TopBox, Shaped, InvokesOf, Checks, DuesOf, Pointers, Sym, Fails, Interp;
    var k := Start(lhs, rhs, n);
    assert Unaware(lhs, rhs, sc, i, n);
    PrefixTraced(w, lhs, rhs, sc, scopes, calls, h, n);
    DuesGrow(lhs, rhs, sc, i + 1, n);
    assert Invokes(rhs[n], sc, k) == [] && Part(calls, [], k) by { EnoughCalls(w, calls, scopes, h, k); }
    EvalTraced(w, rhs[n], sc, scopes, calls, h, k);
    assert !FailsAt(w, Checks(rhs[n], sc, k), scopes, h, k);
  }

  lemma EnoughCalls(w: World, calls: seq<Invoke>, scopes: Scopes, h: History, k: nat)
    requires Follows(w, calls, scopes, h) && k < |h.mems|
    ensures Part(calls, [], k)
  {
  }

  lemma WithStores(w: World, lhs: seq<Name>, rhs: seq<Expr>, sc: RegScopes, scopes: Scopes, calls: seq<Invoke>, h: History, n: nat, i: nat)
    requires AtName(w, lhs, rhs, sc, scopes, calls, h, n) && i < n && Exposed(lhs[i], sc)
    ensures SideSame(w, lhs, rhs, sc, scopes, h, n)
  {
    hide StoresUnseen, Apart, ValuesOf, Declare, CallsOf, LeftNames, Idents, Eval, Follows, Part, EvalAll, Exposed, TopBox, Shaped, InvokesOf, SeesSame;
    var k, mid := Start(lhs, rhs, n), Midway(w, lhs, rhs, sc, scopes, h, n);
    MidwayFrame(w, lhs, rhs, sc, scopes, calls, h, n, mid.mem);
    LateReturns(w, lhs, rhs, sc, scopes, calls, h, n, i);
    LateSees(w, lhs, rhs, sc, scopes, calls, h, n);
    EvalLate(w, rhs[n], sc, scopes, calls, h, k, mid.mem);
  }

  lemma SideAgrees(w: World, lhs: seq<Name>, rhs: seq<Expr>, sc: RegScopes, scopes: Scopes, calls: seq<Invoke>, h: History, n: nat)
    requires AtName(w, lhs, rhs, sc, scopes, calls, h, n)
    ensures SideSame(w, lhs, rhs, sc, scopes, h, n)
  {
    AtNameBounds(w, lhs, rhs, sc, scopes, calls, h, n);
    hide AtName, SideSame;
    if i :| 0 <= i < n && Exposed(lhs[i], sc) {
      WithStores(w, lhs, rhs, sc, scopes, calls, h, n, i);
    } else {
      NoStores(w, lhs, rhs, sc, scopes, calls, h, n);
    }
  }

  // ---------- the whole statement ----------

  /** The first n names, each evaluated and bound in turn. */
  ghost predicate PrefixAgrees(w: World, lhs: seq<Name>, rhs: seq<Expr>, scopes: Scopes, mem: Memory, n: nat)
    requires |lhs| == |rhs| && n <= |lhs| && scopes != []
  {
    var r := EvalAll(w, rhs[..n], Wanted(lhs[..n]), scopes, mem);
    && (r.AllReturned? ==> |r.values| == n)
    && Interleaved(w, lhs[..n], rhs[..n], scopes, mem) == Declared(scopes, lhs[..n], r)
  }

  lemma OneSide(w: World, lhs: seq<Name>, rhs: seq<Expr>, sc: RegScopes, scopes: Scopes, calls: seq<Invoke>, h: History, n: nat)
    requires AtName(w, lhs, rhs, sc, scopes, calls, h, n) && PrefixAgrees(w, lhs, rhs, scopes, h.mems[0], n)
    ensures PrefixAgrees(w, lhs, rhs, scopes, h.mems[0], n + 1)
  {
    SideAgrees(w, lhs, rhs, sc, scopes, calls, h, n);
    PrefixTraced(w, lhs, rhs, sc, scopes, calls, h, n);
    PrefixSteps(w, lhs, rhs, scopes, h.mems[0], n);
    hide StoresUnseen, Apart, ValuesOf, CallsOf, LeftNames, Idents, Eval, Follows, Part, EvalAll, Shaped, InvokesOf, Interleaved, Bind, Fails, DuesOf, Results;
    var values := ValuesOf(w, rhs[..n], Wanted(lhs[..n]), sc, scopes, h);
    var last := Eval(w, rhs[n], scopes, h.mems[Start(lhs, rhs, n)]);
    if last.Returned? {
      assert lhs[..n + 1][..n] == lhs[..n] && (values + [last.value])[..n] == values;
    }
  }

  /** How both meanings go on by one name. */
  lemma PrefixSteps(w: World, lhs: seq<Name>, rhs: seq<Expr>, scopes: Scopes, mem: Memory, n: nat)
    requires |lhs| == |rhs| && n < |lhs| && scopes != []
    ensures var front := EvalAll(w, rhs[..n], Wanted(lhs[..n]), scopes, mem);
      EvalAll(w, rhs[..n + 1], Wanted(lhs[..n + 1]), scopes, mem)
      == if lhs[n] != BLANK then ThenEval(w, front, rhs[n], scopes)
         else if front.AllReturned? then AllReturned(front.values + [ZERO], front.mem) else front
    ensures var front := Interleaved(w, lhs[..n], rhs[..n], scopes, mem);
      Interleaved(w, lhs[..n + 1], rhs[..n + 1], scopes, mem)
      == if front.Aborted? || lhs[n] == BLANK then front else EvalBind(w, rhs[n], lhs[n], Env(front.scopes, front.mem))
  {
    hide Eval, EvalBind;
    assert rhs[..n + 1][..n] == rhs[..n] && lhs[..n + 1][..n] == lhs[..n] && Wanted(lhs[..n + 1])[..n] == Wanted(lhs[..n]);
  }

  lemma BlankSide(w: World, lhs: seq<Name>, rhs: seq<Expr>, scopes: Scopes, mem: Memory, n: nat)
    requires |lhs| == |rhs| && n < |lhs| && scopes != [] && PrefixAgrees(w, lhs, rhs, scopes, mem, n)
    requires lhs[n] == BLANK || EvalAll(w, rhs[..n], Wanted(lhs[..n]), scopes, mem).AnyPanicked?
    ensures PrefixAgrees(w, lhs, rhs, scopes, mem, n + 1)
  {
    PrefixSteps(w, lhs, rhs, scopes, mem, n);
    hide EvalAll, Interleaved, EvalBind, Eval;
    var r := EvalAll(w, rhs[..n], Wanted(lhs[..n]), scopes, mem);
    if r.AllReturned? {
      assert lhs[..n + 1][..n] == lhs[..n] && (r.values + [ZERO])[..n] == r.values;
    }
  }

  /** A statement, its state and its history. */
  ghost predicate Set(w: World, lhs: seq<Name>, rhs: seq<Expr>, sc: RegScopes, scopes: Scopes, calls: seq<Invoke>, h: History) {
    && |lhs| == |rhs| && !NeedsTwoPhase(lhs, rhs) && Follows(w, calls, scopes, h) && Shaped(sc, scopes) && |h.mems| > 0
    && Part(calls, InvokesOf(rhs, Wanted(lhs), sc), 0) && scopes != [] && Apart(scopes) && StoresUnseen(lhs, rhs, sc)
  }

  lemma {:induction false} InvokesPrefix(lhs: seq<Name>, rhs: seq<Expr>, sc: RegScopes, calls: seq<Invoke>, n: nat)
    requires |lhs| == |rhs| && n <= |lhs| && Part(calls, InvokesOf(rhs, Wanted(lhs), sc), 0)
    ensures Part(calls, InvokesOf(rhs[..n], Wanted(lhs[..n]), sc), 0)
    decreases |lhs|
  {
    if n == |lhs| {
      assert rhs[..n] == rhs && lhs[..n] == lhs;
    } else {
      var m := |lhs| - 1;
      assert Wanted(lhs)[..m] == Wanted(lhs[..m]);
      var front := InvokesOf(rhs[..m], Wanted(lhs[..m]), sc);
      PartSplit(calls, front, InvokesOf(rhs, Wanted(lhs), sc)[|front|..], 0);
      InvokesPrefix(lhs[..m], rhs[..m], sc, calls, n);
      assert rhs[..m][..n] == rhs[..n] && lhs[..m][..n] == lhs[..n];
    }
  }

  lemma NotMentioned(lhs: seq<Name>, rhs: seq<Expr>, n: nat)
    requires |lhs| == |rhs| && n < |lhs| && !NeedsTwoPhase(lhs, rhs)
    ensures Idents(rhs[n]) * LeftNames(lhs[..n]) == {}
  {
    assert LeftNames(lhs[..n]) <= LeftNames(lhs);
  }

  lemma {:induction false} InterleavedPrefix(w: World, lhs: seq<Name>, rhs: seq<Expr>, sc: RegScopes, scopes: Scopes,
                                             calls: seq<Invoke>, h: History, n: nat)
    requires Set(w, lhs, rhs, sc, scopes, calls, h) && n <= |lhs|
    ensures PrefixAgrees(w, lhs, rhs, scopes, h.mems[0], n)
    decreases n
  {
    hide StoresUnseen, Apart, CallsOf, LeftNames, Idents, Eval, Follows, Part, Shaped, InvokesOf, NeedsTwoPhase, PrefixAgrees;
    if n == 0 {
      NoSides(w, lhs, rhs, scopes, h.mems[0]);
    } else {
      var m := n - 1;
      InterleavedPrefix(w, lhs, rhs, sc, scopes, calls, h, m);
      if lhs[m] == BLANK || EvalAll(w, rhs[..m], Wanted(lhs[..m]), scopes, h.mems[0]).AnyPanicked? {
        BlankSide(w, lhs, rhs, scopes, h.mems[0], m);
      } else {
        InvokesPrefix(lhs, rhs, sc, calls, m);
        PrefixTraced(w, lhs, rhs, sc, scopes, calls, h, m);
        NotMentioned(lhs, rhs, m);
        OneSide(w, lhs, rhs, sc, scopes, calls, h, m);
      }
    }
  }

  lemma NoSides(w: World, lhs: seq<Name>, rhs: seq<Expr>, scopes: Scopes, mem: Memory)
    requires |lhs| == |rhs| && scopes != []
    ensures PrefixAgrees(w, lhs, rhs, scopes, mem, 0)
  {
  }

  /** Harmless statements mean what Go means, in every world and state. */
  lemma HarmlessSuffices(w: World, lhs: seq<Name>, rhs: seq<Expr>, sc: RegScopes, scopes: Scopes, mem: Memory)
    requires |lhs| == |rhs| && !NeedsTwoPhase(lhs, rhs) && Harmless(lhs, rhs, sc)
    requires Shaped(sc, scopes) && Apart(scopes) && scopes != []
    ensures Interleaved(w, lhs, rhs, scopes, mem) == ShortVar(w, lhs, rhs, scopes, mem)
  {
    hide NeedsTwoPhase, StoresUnseen, BlanksIdle, Shaped, Apart, InOrder, Follows, EvalAll, InvokesOf, Interleaved, Declare;
    var calls := InvokesOf(rhs, Wanted(lhs), sc);
    InvokesOfInOrder(rhs, Wanted(lhs), sc);
    var h := HasHistory(w, calls, scopes, mem);
    assert |h.mems| > 0 by { HistoryStarts(w, calls, scopes, h); }
    assert Part(calls, calls, 0);
    InterleavedPrefix(w, lhs, rhs, sc, scopes, calls, h, |lhs|);
    assert lhs[..|lhs|] == lhs && rhs[..|lhs|] == rhs;
    BlanksSkipped(w, lhs, rhs, sc, scopes, mem);
    EvalAllLength(w, rhs, All(|rhs|), scopes, mem);
    var a, b := EvalAll(w, rhs, All(|rhs|), scopes, mem), EvalAll(w, rhs, Wanted(lhs), scopes, mem);
    if a.AllReturned? {
      DeclareWanted(Env(scopes, a.mem), lhs, a.values, b.values);
    }
  }
}

/** A pointer that may point to a box written too early: when the value read through it differs. */
module ShortVarAliased {
  import opened Wrappers
  import opened GoAssign
  import opened AssignLowering
  import opened ShortVarLowering
  import opened ShortVarSequential
  import opened AssignTrace
  import opened AssignHistory
  import opened ShortVarHarmless
  import opened ShortVarLate
  import opened FreeWorld
  import opened ShortVarNecessary
  import opened ShortVarStores

  // ---------- the pointer ----------

  lemma VarOutside(e: Expr, sc: RegScopes, k: nat)
    ensures Outside(sc, Sym(e, sc, k))
  {
    if e.Ident? && LookupReg(sc, e.name).Some? {
      FreeShaped(sc, None);
      LevelFound(sc, FreeScopes(sc, None), e.name);
    }
  }

  /** A pointer an expression follows is not the box of a variable by its own name. */
  lemma {:induction false} PointerOutside(e: Expr, sc: RegScopes, k: nat, b: Deref)
    requires b in Pointers(e, sc, k)
    ensures Outside(sc, b.base)
    decreases e
  {
    hide Outside, Sym;
    match e
    case Binary(_, l, r) => if b in Pointers(l, sc, k) { PointerOutside(l, sc, k, b); } else { PointerOutside(r, sc, k + Calls(l), b); }
    case Index(l, r, _) => if b in Pointers(l, sc, k) { PointerOutside(l, sc, k, b); } else { PointerOutside(r, sc, k + Calls(l), b); }
    case Field(x, _) => PointerOutside(x, sc, k, b);
    case Star(x, _) => if b in Pointers(x, sc, k) { PointerOutside(x, sc, k, b); } else { VarOutside(x, sc, k); }
    case Call(_, x) => PointerOutside(x, sc, k, b);
  }

  function Size(v: Value): nat {
    match v
    case Num(_) => 1
    case Text(_) => 1
    case Pair(a, b) => 1 + Size(a) + Size(b)
  }

  lemma NodeSize(tag: int, n: int, a: Value, b: Value)
    ensures Size(Node(tag, n, a, b)) == 5 + Size(a) + Size(b)
  {
    assert Size(Pair(Num(tag), Num(n))) == 3;
    assert Size(Pair(a, b)) == 1 + Size(a) + Size(b);
  }

  lemma PairSize(a: Value, b: Value)
    ensures Size(Pair(a, b)) == 1 + Size(a) + Size(b)
  {
  }

  lemma {:induction false} PointerSize(e: Expr, sc: RegScopes, k: nat, b: Deref)
    requires b in Pointers(e, sc, k) && Calls(e) == 0
    ensures Size(Code(TStar(k, b.base, b.kind))) <= Size(Code(Sym(e, sc, k)))
    decreases e
  {
    hide Size, Node;
    var t := Sym(e, sc, k);
    match e
    case Binary(op, l, r) =>
      if b in Pointers(l, sc, k) { PointerSize(l, sc, k, b); } else { PointerSize(r, sc, k, b); }
      NodeSize(2, t.code, Code(t.left), Code(t.right));
    case Index(l, r, _) =>
      if b in Pointers(l, sc, k) { PointerSize(l, sc, k, b); } else { PointerSize(r, sc, k, b); }
      NodeSize(4, k, Code(t.base), Pair(ElemCode(t.elem), Code(t.index)));
      PairSize(ElemCode(t.elem), Code(t.index));
    case Field(x, f) =>
      PointerSize(x, sc, k, b);
      NodeSize(3, 0, Code(t.base), Text(f));
    case Star(x, kind) =>
      if b in Pointers(x, sc, k) { PointerSize(x, sc, k, b); }
      NodeSize(5, k, Code(t.base), Num(kind));
  }

  // ---------- memory with the box written ----------

  /** Not the box of a name, and not the counter. */
  ghost predicate Clean(v: Value, top: nat, names: set<Name>) {
    v != TICK.base && forall x :: x in names ==> v != Code(TVar(top, x))
  }

  /** Memory of epoch k, but for the boxes of the names and the one cell the pointer points to. */
  ghost predicate Aliased(mem: Memory, k: nat, top: nat, names: set<Name>, ptr: Deref, s: Term) {
    && Load(mem, Cell(Code(ptr.base), ByStar(ptr.kind))) == Code(s)
    && (forall c: Cell :: !Written(c, top, names) && c != Cell(Code(ptr.base), ByStar(ptr.kind)) ==> Load(mem, c) == Content(k, c))
  }

  /** What reading through a value yields. */
  lemma AliasedStar(mem: Memory, k: nat, top: nat, names: set<Name>, ptr: Deref, s: Term, v: Value, kind: Kind)
    requires Aliased(mem, k, top, names, ptr, s) && Clean(v, top, names)
    ensures Load(mem, Cell(v, ByStar(kind))) == if v == Code(ptr.base) && kind == ptr.kind then Code(s) else Node(5, k, v, Num(kind))
  {
    hide Code;
    assert !Written(Cell(v, ByStar(kind)), top, names);
  }

  lemma AliasedCell(mem: Memory, k: nat, top: nat, names: set<Name>, ptr: Deref, s: Term, c: Cell)
    requires Aliased(mem, k, top, names, ptr, s) && !c.selector.ByStar?
    ensures Load(mem, c) == Content(k, c)
  {
    assert !Written(c, top, names);
  }

  lemma NodeClean(tag: int, n: int, a: Value, b: Value, top: nat, names: set<Name>)
    requires tag > 1
    ensures Clean(Node(tag, n, a, b), top, names)
  {
  }

  /** What an expression makes of the pointer: its own term if it does not follow it, something else if it does. */
  ghost predicate Reads(e: Expr, sc: RegScopes, k: nat, v: Value, top: nat, names: set<Name>, ptr: Deref, s: Term) {
    && Clean(v, top, names)
    && if ptr !in Pointers(e, sc, k) then v == Code(Sym(e, sc, k))
       else v != Code(Sym(e, sc, k)) && (Size(Code(s)) > Size(Code(TStar(k, ptr.base, ptr.kind))) ==> Size(v) > Size(Code(ptr.base)))
  }

  /** The state a right side after the store is evaluated in. */
  ghost predicate AliasState(sc: RegScopes, mem: Memory, k: nat, top: nat, names: set<Name>, ptr: Deref, s: Term) {
    && Aliased(mem, k, top, names, ptr, s) && Outside(sc, ptr.base) && s != TStar(k, ptr.base, ptr.kind) && Clean(Code(s), top, names)
  }

  lemma {:induction false} AliasedEval(e: Expr, sc: RegScopes, scopes: Scopes, mem: Memory, k: nat, top: nat, names: set<Name>, ptr: Deref, s: Term)
    requires Calls(e) == 0 && Visible(e, sc, scopes, names) && AliasState(sc, mem, k, top, names, ptr, s)
    ensures var r := Eval(Free(Rig(None, None)), e, scopes, mem);
      r.Returned? && r.mem == mem && Reads(e, sc, k, r.value, top, names, ptr, s)
    decreases e
  {
    hide Reads, AliasState, Spelled, Code, Sym, Pointers, Size;
    match e
    case Lit(n) => AliasedLit(n, sc, scopes, mem, k, top, names, ptr, s);
    case Ident(x) => AliasedIdent(x, sc, scopes, mem, k, top, names, ptr, s);
    case Binary(op, l, r) =>
      AliasedEval(l, sc, scopes, mem, k, top, names, ptr, s);
      AliasedEval(r, sc, scopes, mem, k, top, names, ptr, s);
      var a, b := Eval(Free(Rig(None, None)), l, scopes, mem).value, Eval(Free(Rig(None, None)), r, scopes, mem).value;
      BinaryReads(op, l, r, sc, k, a, b, top, names, ptr, s);
    case Index(l, r, elem) =>
      AliasedEval(l, sc, scopes, mem, k, top, names, ptr, s);
      AliasedEval(r, sc, scopes, mem, k, top, names, ptr, s);
      var a, b := Eval(Free(Rig(None, None)), l, scopes, mem).value, Eval(Free(Rig(None, None)), r, scopes, mem).value;
      StateCell(sc, mem, k, top, names, ptr, s, Cell(a, ByIndex(b, elem)));
      IndexReads(l, r, elem, sc, k, a, b, top, names, ptr, s);
    case Field(x, f) =>
      AliasedEval(x, sc, scopes, mem, k, top, names, ptr, s);
      FieldReads(x, f, sc, k, Eval(Free(Rig(None, None)), x, scopes, mem).value, top, names, ptr, s);
    case Star(x, kind) =>
      AliasedEval(x, sc, scopes, mem, k, top, names, ptr, s);
      StarReads(x, kind, sc, mem, k, Eval(Free(Rig(None, None)), x, scopes, mem).value, top, names, ptr, s);
    case Call(_, _) =>
  }

  lemma StateCell(sc: RegScopes, mem: Memory, k: nat, top: nat, names: set<Name>, ptr: Deref, s: Term, c: Cell)
    requires AliasState(sc, mem, k, top, names, ptr, s) && !c.selector.ByStar?
    ensures Load(mem, c) == Content(k, c)
  {
    AliasedCell(mem, k, top, names, ptr, s, c);
  }

  lemma AliasedLit(n: int, sc: RegScopes, scopes: Scopes, mem: Memory, k: nat, top: nat, names: set<Name>, ptr: Deref, s: Term)
    ensures Reads(Lit(n), sc, k, Num(n), top, names, ptr, s)
  {
  }

  lemma AliasedIdent(x: Name, sc: RegScopes, scopes: Scopes, mem: Memory, k: nat, top: nat, names: set<Name>, ptr: Deref, s: Term)
    requires Spelled(x, sc, scopes) && x !in names && AliasState(sc, mem, k, top, names, ptr, s)
    ensures Reads(Ident(x), sc, k, Read(Lookup(scopes, x), mem), top, names, ptr, s)
  {
    hide LookupReg, Lookup, LevelOf, Shaped, AliasState, Load;
    var t := TVar(LevelOf(sc, x), x);
    if LookupReg(sc, x).Some? && LookupReg(sc, x).value.box.Some? {
      AliasedBox(x, sc, mem, k, top, names, ptr, s);
    }
  }

  /** A variable's own box is not the one the pointer points to. */
  lemma AliasedBox(x: Name, sc: RegScopes, mem: Memory, k: nat, top: nat, names: set<Name>, ptr: Deref, s: Term)
    requires x !in names && AliasState(sc, mem, k, top, names, ptr, s) && LookupReg(sc, x).Some? && LookupReg(sc, x).value.box.Some?
    ensures var t, kind := TVar(LevelOf(sc, x), x), LookupReg(sc, x).value.box.value; Load(mem, Cell(Code(t), ByStar(kind))) == Code(TStar(k, t, kind))
  {
    FreeShaped(sc, None);
    LevelFound(sc, FreeScopes(sc, None), x);
    hide LookupReg, Lookup, LevelOf, Shaped, Load, Aliased;
    var t := TVar(LevelOf(sc, x), x);
    if Code(t) == Code(ptr.base) {
      CodeInjective(t, ptr.base);
      assert false;
    }
    AliasedStar(mem, k, top, names, ptr, s, Code(t), LookupReg(sc, x).value.box.value);
  }

  lemma BinaryReads(op: Op, l: Expr, r: Expr, sc: RegScopes, k: nat, a: Value, b: Value, top: nat, names: set<Name>, ptr: Deref, s: Term)
    requires Calls(l) == 0 && Reads(l, sc, k, a, top, names, ptr, s) && Reads(r, sc, k, b, top, names, ptr, s)
    ensures Reads(Binary(op, l, r), sc, k, Node(2, op.code, a, b), top, names, ptr, s)
  {
    NodeClean(2, op.code, a, b, top, names);
    NodeSize(2, op.code, a, b);
    hide Clean, Size;
  }

  lemma IndexSpelled(l: Expr, r: Expr, elem: Elem, sc: RegScopes, k: nat)
    requires Calls(l) == 0 && Calls(r) == 0
    ensures Code(Sym(Index(l, r, elem), sc, k)) == Node(4, k, Code(Sym(l, sc, k)), Pair(ElemCode(elem), Code(Sym(r, sc, k))))
    ensures Pointers(Index(l, r, elem), sc, k) == Pointers(l, sc, k) + Pointers(r, sc, k)
  {
  }

  lemma IndexReads(l: Expr, r: Expr, elem: Elem, sc: RegScopes, k: nat, a: Value, b: Value, top: nat, names: set<Name>, ptr: Deref, s: Term)
    requires Calls(l) == 0 && Calls(r) == 0 && Reads(l, sc, k, a, top, names, ptr, s) && Reads(r, sc, k, b, top, names, ptr, s)
    ensures Reads(Index(l, r, elem), sc, k, Content(k, Cell(a, ByIndex(b, elem))), top, names, ptr, s)
  {
    IndexSpelled(l, r, elem, sc, k);
    NodeClean(4, k, a, Pair(ElemCode(elem), b), top, names);
    NodeSize(4, k, a, Pair(ElemCode(elem), b));
    PairSize(ElemCode(elem), b);
    hide Clean, Size, Sym, Code, Pointers, Calls;
  }

  lemma FieldReads(x: Expr, f: Name, sc: RegScopes, k: nat, a: Value, top: nat, names: set<Name>, ptr: Deref, s: Term)
    requires Calls(x) == 0 && Reads(x, sc, k, a, top, names, ptr, s)
    ensures Reads(Field(x, f), sc, k, Node(3, 0, a, Text(f)), top, names, ptr, s)
  {
    NodeClean(3, 0, a, Text(f), top, names);
    NodeSize(3, 0, a, Text(f));
    hide Clean, Size;
  }

  lemma StarSpelled(x: Expr, kind: Kind, sc: RegScopes, k: nat)
    requires Calls(x) == 0
    ensures Code(Sym(Star(x, kind), sc, k)) == Node(5, k, Code(Sym(x, sc, k)), Num(kind))
    ensures Pointers(Star(x, kind), sc, k) == Pointers(x, sc, k) + {Deref(Sym(x, sc, k), kind)}
  {
  }

  lemma StarCoded(k: nat, t: Term, kind: Kind)
    ensures Code(TStar(k, t, kind)) == Node(5, k, Code(t), Num(kind)) && Size(Code(TStar(k, t, kind))) == 6 + Size(Code(t))
  {
    NodeSize(5, k, Code(t), Num(kind));
  }

  /** Following a value: through the pointer, or past it. */
  lemma StarReads(x: Expr, kind: Kind, sc: RegScopes, mem: Memory, k: nat, a: Value, top: nat, names: set<Name>, ptr: Deref, s: Term)
    requires Calls(x) == 0 && Reads(x, sc, k, a, top, names, ptr, s) && AliasState(sc, mem, k, top, names, ptr, s)
    ensures Reads(Star(x, kind), sc, k, Load(mem, Cell(a, ByStar(kind))), top, names, ptr, s)
  {
    hide Clean, Size, Aliased, Outside, Sym, Code, Pointers, Calls, Load;
    AliasedStar(mem, k, top, names, ptr, s, a, kind);
    NodeClean(5, k, a, Num(kind), top, names);
    NodeSize(5, k, a, Num(kind));
    StarSpelled(x, kind, sc, k);
    StarCoded(k, ptr.base, ptr.kind);
    StarCoded(k, Sym(x, sc, k), kind);
    if ptr in Pointers(x, sc, k) {
      PointerSize(x, sc, k, ptr);
    } else if a == Code(ptr.base) && kind == ptr.kind {
      CodeInjective(Sym(x, sc, k), ptr.base);
      if Code(s) == Code(TStar(k, ptr.base, ptr.kind)) {
        CodeInjective(s, TStar(k, ptr.base, ptr.kind));
        assert false;
      }
    }
  }

  // ---------- what names read in the end ----------

  function TopRead(env: Env, x: Name): Value
    requires env.scopes != []
  {
    var inner := env.scopes[|env.scopes| - 1];
    if x in inner then Read(Some(inner[x]), env.mem) else ZERO
  }

  /** Boxes of innermost variables are different. */
  ghost predicate TopApart(scopes: Scopes)
    requires scopes != []
  {
    forall x, y :: x != y && TopBox(scopes, x).Some? && TopBox(scopes, y).Some? ==> BoxOf(TopBox(scopes, x).value) != BoxOf(TopBox(scopes, y).value)
  }

  lemma ApartAtTop(scopes: Scopes)
    requires scopes != [] && Apart(scopes)
    ensures TopApart(scopes)
  {
  }

  lemma BindRead(env: Env, x: Name, v: Value, y: Name)
    requires env.scopes != [] && TopApart(env.scopes)
    ensures TopRead(Bind(env, x, v), y) == if x == y then v else TopRead(env, y)
  {
    var n := |env.scopes| - 1;
    var inner := env.scopes[n];
    if x != y && x in inner && inner[x].box.Some? && y in inner && inner[y].box.Some? {
      assert TopBox(env.scopes, x) == Some(inner[x]) && TopBox(env.scopes, y) == Some(inner[y]);
    }
  }

  lemma {:induction false} DeclareRead(env: Env, lhs: seq<Name>, values: seq<Value>, j: nat)
    requires |lhs| == |values| && env.scopes != [] && TopApart(env.scopes) && Distinct(lhs) && j < |lhs| && lhs[j] != BLANK
    ensures TopRead(Declare(env, lhs, values), lhs[j]) == values[j]
    decreases |lhs|
  {
    hide Bind, TopBox, TopRead;
    var n := |lhs| - 1;
    var before := Declare(env, lhs[..n], values[..n]);
    forall x ensures TopBox(before.scopes, x) == TopBox(env.scopes, x) {
      DeclareKeepsBoxes(env, lhs[..n], values[..n], x);
    }
    if lhs[n] != BLANK {
      BindRead(before, lhs[n], values[n], lhs[j]);
    }
    if j < n {
      DeclareRead(env, lhs[..n], values[..n], j);
    }
  }

  // ---------- the statement ----------

  /** A statement that binds a box at i and then, at j, follows a pointer that right side i does not read through. */
  ghost predicate StoreThenFollow(lhs: seq<Name>, rhs: seq<Expr>, sc: RegScopes, i: nat, j: nat, ptr: Deref) {
    && StoreThen(lhs, rhs, sc, i, j)
    && (forall m :: i < m < |lhs| && lhs[m] != BLANK ==> Calls(rhs[m]) == 0)
    && ptr in Pointers(rhs[j], sc, Start(lhs, rhs, j)) && BoxKind(lhs[i], sc) == Some(ptr.kind)
    && Sym(rhs[i], sc, Start(lhs, rhs, i)) != TStar(Start(lhs, rhs, j), ptr.base, ptr.kind)
  }

  ghost function PointedScopes(lhs: seq<Name>, sc: RegScopes, i: nat, ptr: Deref): Scopes
    requires i < |lhs|
  {
    FreeScopes(sc, Some(Alias(lhs[i], ptr.base)))
  }

  /** The statement's sequential form, up to name n. */
  ghost function Turns(lhs: seq<Name>, rhs: seq<Expr>, scopes: Scopes, n: nat): Effect
    requires |lhs| == |rhs| && n <= |lhs| && scopes != []
  {
    Interleaved(Free(Rig(None, None)), lhs[..n], rhs[..n], scopes, FreeMem(0))
  }

  lemma PointedSides(lhs: seq<Name>, rhs: seq<Expr>, sc: RegScopes, i: nat, j: nat, ptr: Deref, m: nat)
    requires StoreThenFollow(lhs, rhs, sc, i, j, ptr) && m < |lhs|
    ensures var scopes := PointedScopes(lhs, sc, i, ptr);
      && Visible(rhs[m], sc, scopes, LeftNames(lhs)) && Visible(rhs[m], sc, scopes, LeftNames(lhs[..m])) && Visible(rhs[m], sc, scopes, {})
      && scopes != [] && (m != i && lhs[m] != BLANK ==> OwnBox(scopes, lhs[m]))
  {
    hide Pointers, Sym, Calls, CallsOf, Spelled, Boxed, Idents, LeftNames;
    var scopes := PointedScopes(lhs, sc, i, ptr);
    BoxedName(lhs[i], sc);
    LeftHas(lhs, i);
    assert Idents(rhs[m]) * LeftNames(lhs) == {};
    assert lhs[i] !in Idents(rhs[m]) by { assert lhs[i] !in Idents(rhs[m]) * LeftNames(lhs); }
    SideVisible(lhs, rhs, sc, Some(Alias(lhs[i], ptr.base)), m);
    forall x | x in Idents(rhs[m]) ensures x !in LeftNames(lhs) && Spelled(x, sc, scopes) {
      assert x !in Idents(rhs[m]) * LeftNames(lhs);
      assert Visible(rhs[m], sc, scopes, {});
    }
    if m != i && lhs[m] != BLANK {
      FreeOwnBox(sc, Some(Alias(lhs[i], ptr.base)), lhs[m]);
    }
  }

  lemma PointedPrefix(lhs: seq<Name>, rhs: seq<Expr>, sc: RegScopes, i: nat, j: nat, ptr: Deref)
    requires StoreThenFollow(lhs, rhs, sc, i, j, ptr)
    ensures Legible(lhs[..i], rhs[..i], sc, PointedScopes(lhs, sc, i, ptr)) && AllVisible(rhs, sc, PointedScopes(lhs, sc, i, ptr))
  {
    hide Pointers, Sym, Calls, CallsOf, Visible, OwnBox, Boxed, NeedsTwoPhase;
    var scopes := PointedScopes(lhs, sc, i, ptr);
    forall m | 0 <= m < i ensures Visible(rhs[..i][m], sc, scopes, LeftNames(lhs[..i][..m])) && (lhs[m] != BLANK ==> scopes != [] && OwnBox(scopes, lhs[m])) {
      assert lhs[..i][..m] == lhs[..m];
      PointedSides(lhs, rhs, sc, i, j, ptr, m);
    }
    forall m | 0 <= m < |rhs| ensures Visible(rhs[m], sc, scopes, {}) {
      PointedSides(lhs, rhs, sc, i, j, ptr, m);
    }
    PointedSides(lhs, rhs, sc, i, j, ptr, i);
  }

  /** The first bindings: the box that the pointer points to takes its value. */
  lemma AliasBind(env: Env, x: Name, k: nat, top: nat, before: set<Name>, names: set<Name>, ptr: Deref, s: Term)
    requires env.scopes != [] && TopBox(env.scopes, x).Some? && BoxOf(TopBox(env.scopes, x).value) == Cell(Code(ptr.base), ByStar(ptr.kind))
    requires Tracks(env.mem, k, top, before) && before <= names
    ensures Aliased(Bind(env, x, Code(s)).mem, k, top, names, ptr, s)
  {
    hide Bind, Code, Content, Load, TopBox;
    var mem := Bind(env, x, Code(s)).mem;
    BindCell(env, x, Code(s), Cell(Code(ptr.base), ByStar(ptr.kind)));
    forall c: Cell | !Written(c, top, names) && c != Cell(Code(ptr.base), ByStar(ptr.kind)) ensures Load(mem, c) == Content(k, c) {
      BindCell(env, x, Code(s), c);
      assert !Written(c, top, before);
    }
  }

  /** Later bindings leave it alone. */
  lemma BindAliased(env: Env, x: Name, v: Value, k: nat, top: nat, names: set<Name>, ptr: Deref, s: Term)
    requires env.scopes != [] && x in names && Aliased(env.mem, k, top, names, ptr, s)
    requires TopBox(env.scopes, x).Some? ==> TopBox(env.scopes, x).value.raw == Code(TVar(top, x)) && ptr.base != TVar(top, x)
    ensures Aliased(Bind(env, x, v).mem, k, top, names, ptr, s)
  {
    hide Bind, Code, Content, Load, TopBox;
    var mem, cell := Bind(env, x, v).mem, Cell(Code(ptr.base), ByStar(ptr.kind));
    BindCell(env, x, v, cell);
    if Code(ptr.base) == Code(TVar(top, x)) {
      CodeInjective(ptr.base, TVar(top, x));
    }
    forall c: Cell | !Written(c, top, names) && c != cell ensures Load(mem, c) == Content(k, c) {
      BindCell(env, x, v, c);
    }
  }

  /** What right side i stands for. */
  function Stored(lhs: seq<Name>, rhs: seq<Expr>, sc: RegScopes, i: nat): Term
    requires |lhs| == |rhs| && i < |lhs|
  {
    Sym(rhs[i], sc, Start(lhs, rhs, i))
  }

  /** The state after n names, all after the box was written. */
  ghost predicate Pointed(lhs: seq<Name>, rhs: seq<Expr>, sc: RegScopes, i: nat, j: nat, ptr: Deref, n: nat)
    requires |lhs| == |rhs| && i < j < |lhs| && n <= |lhs| && sc != []
  {
    var scopes, k := PointedScopes(lhs, sc, i, ptr), Start(lhs, rhs, j);
    var r := Turns(lhs, rhs, scopes, n);
    && r.Effect? && SameOutside(scopes, r.scopes, LeftNames(lhs))
    && AliasState(sc, r.mem, k, |scopes| - 1, LeftNames(lhs), ptr, Stored(lhs, rhs, sc, i))
    && (n > j ==> TopRead(Env(r.scopes, r.mem), lhs[j]) != Code(Sym(rhs[j], sc, k)))
  }

  lemma SameStart(lhs: seq<Name>, rhs: seq<Expr>, i: nat, j: nat)
    requires |lhs| == |rhs| && i < j < |lhs| && forall m :: i < m < |lhs| && lhs[m] != BLANK ==> Calls(rhs[m]) == 0
    ensures Start(lhs, rhs, i + 1) == Start(lhs, rhs, j)
  {
    hide CallsOf, Calls;
    assert rhs[..j][..i + 1] == rhs[..i + 1] && Wanted(lhs[..j])[..i + 1] == Wanted(lhs[..i + 1]);
    CallsGrow(rhs[..j], Wanted(lhs[..j]), i + 1);
  }

  lemma NextStart(lhs: seq<Name>, rhs: seq<Expr>, i: nat)
    requires |lhs| == |rhs| && i < |lhs| && lhs[i] != BLANK
    ensures Start(lhs, rhs, i + 1) == Start(lhs, rhs, i) + Calls(rhs[i])
  {
    assert rhs[..i + 1][..i] == rhs[..i] && Wanted(lhs[..i + 1])[..i] == Wanted(lhs[..i]);
  }

  lemma StoredClean(e: Expr, sc: RegScopes, k: nat, top: nat, names: set<Name>)
    requires forall x :: x in names ==> x !in Idents(e)
    ensures Clean(Code(Sym(e, sc, k)), top, names)
  {
    hide Sym;
    var t := Sym(e, sc, k);
    assert Code(t) != TICK.base by { assert Code(t).Pair? ==> Code(t).first != TICK.base.first; }
    forall x | x in names ensures Code(t) != Code(TVar(top, x)) {
      NotThatVar(e, sc, k, top, x);
      if Code(t) == Code(TVar(top, x)) {
        CodeInjective(t, TVar(top, x));
        assert false;
      }
    }
  }

  lemma OutsideMore(scopes: Scopes, now: Scopes, names: set<Name>, more: set<Name>)
    requires SameOutside(scopes, now, names) && names <= more
    ensures SameOutside(scopes, now, more)
  {
    hide Lookup, TopBox;
  }

  lemma LeftPrefix(lhs: seq<Name>, n: nat)
    requires n <= |lhs|
    ensures LeftNames(lhs[..n]) <= LeftNames(lhs)
  {
  }

  /** Up to the name whose box it is, nothing differs. */
  lemma BeforeStore(lhs: seq<Name>, rhs: seq<Expr>, sc: RegScopes, i: nat, j: nat, ptr: Deref)
    requires StoreThenFollow(lhs, rhs, sc, i, j, ptr)
    ensures var scopes := PointedScopes(lhs, sc, i, ptr);
      scopes != [] && var front := Turns(lhs, rhs, scopes, i);
      && front.Effect? && SameOutside(scopes, front.scopes, LeftNames(lhs[..i]))
      && var last := Eval(Free(Rig(None, None)), rhs[i], front.scopes, front.mem);
      && last.Returned? && last.value == Code(Stored(lhs, rhs, sc, i))
      && Tracks(last.mem, Start(lhs, rhs, j), |scopes| - 1, LeftNames(lhs[..i]))
  {
    hide NeedsTwoPhase, Distinct, Boxed, Pointers, Sym, Calls, CallsOf, Visible, Eval, Free, Interleaved, DuesOf, Checks, LeftNames, Tracks, Code, Legible, SameOutside, Tick, FreeScopes, AllVisible;
    var rig, scopes := Rig(None, None), PointedScopes(lhs, sc, i, ptr);
    PointedPrefix(lhs, rhs, sc, i, j, ptr);
    PointedSides(lhs, rhs, sc, i, j, ptr, i);
    FreeInterleaved(rig, lhs[..i], rhs[..i], sc, scopes);
    var front, names := Turns(lhs, rhs, scopes, i), LeftNames(lhs[..i]);
    VisibleStill(rhs[i], sc, scopes, front.scopes, names);
    FreeEval(rig, rhs[i], sc, front.scopes, Start(lhs, rhs, i), front.mem, |scopes| - 1, names);
    BoundedStart(lhs, rhs, sc, i, j);
  }

  lemma BoundedStart(lhs: seq<Name>, rhs: seq<Expr>, sc: RegScopes, i: nat, j: nat)
    requires StoreThen(lhs, rhs, sc, i, j) && forall m :: i < m < |lhs| && lhs[m] != BLANK ==> Calls(rhs[m]) == 0
    ensures Start(lhs, rhs, j) == Start(lhs, rhs, i) + Calls(rhs[i])
  {
    hide CallsOf, Calls, NeedsTwoPhase;
    SameStart(lhs, rhs, i, j);
    NextStart(lhs, rhs, i);
  }

  lemma AfterStore(lhs: seq<Name>, rhs: seq<Expr>, sc: RegScopes, i: nat, j: nat, ptr: Deref)
    requires StoreThenFollow(lhs, rhs, sc, i, j, ptr)
    ensures Pointed(lhs, rhs, sc, i, j, ptr, i + 1)
  {
    BeforeStore(lhs, rhs, sc, i, j, ptr);
    hide Pointers, Sym, Calls, CallsOf, Visible, Eval, Free, Interleaved, LeftNames, Tracks, Code, SameOutside, FreeScopes, NeedsTwoPhase, Bind, Boxed, TopBox, Outside, Aliased, Clean;
    var scopes, top, k, names := PointedScopes(lhs, sc, i, ptr), |sc| - 1, Start(lhs, rhs, j), LeftNames(lhs);
    var front := Turns(lhs, rhs, scopes, i);
    var last, x := Eval(Free(Rig(None, None)), rhs[i], front.scopes, front.mem), lhs[i];
    LastTurn(lhs, rhs, scopes, i);
    LeftPrefix(lhs, i);
    BoxedName(x, sc);
    LeftHas(lhs, i);
    PointedBox(lhs, sc, i, ptr);
    OutsideBoxes(scopes, front.scopes, LeftNames(lhs[..i]), x);
    AliasBind(Env(front.scopes, last.mem), x, k, top, LeftNames(lhs[..i]), names, ptr, Stored(lhs, rhs, sc, i));
    BindOutside(scopes, Env(front.scopes, last.mem), LeftNames(lhs[..i]), x, last.value);
    OutsideMore(scopes, Bind(Env(front.scopes, last.mem), x, last.value).scopes, LeftNames(lhs[..i]) + {x}, names);
    PointerOutside(rhs[j], sc, k, ptr);
    Unmentioned(lhs, rhs, i);
    StoredClean(rhs[i], sc, Start(lhs, rhs, i), top, names);
  }

  /** One more turn of the sequential form. */
  lemma LastTurn(lhs: seq<Name>, rhs: seq<Expr>, scopes: Scopes, n: nat)
    requires |lhs| == |rhs| && n < |lhs| && scopes != []
    ensures var front := Turns(lhs, rhs, scopes, n);
      Turns(lhs, rhs, scopes, n + 1)
      == if front.Aborted? || lhs[n] == BLANK then front else EvalBind(Free(Rig(None, None)), rhs[n], lhs[n], Env(front.scopes, front.mem))
  {
    OneTurn(Free(Rig(None, None)), lhs[..n + 1], rhs[..n + 1], scopes, FreeMem(0));
    hide Interleaved, Free, EvalBind, FreeMem;
    assert lhs[..n + 1][..n] == lhs[..n] && rhs[..n + 1][..n] == rhs[..n];
  }

  lemma PointedBox(lhs: seq<Name>, sc: RegScopes, i: nat, ptr: Deref)
    requires i < |lhs| && BoxKind(lhs[i], sc) == Some(ptr.kind)
    ensures var scopes := PointedScopes(lhs, sc, i, ptr);
      scopes != [] && TopBox(scopes, lhs[i]).Some? && BoxOf(TopBox(scopes, lhs[i]).value) == Cell(Code(ptr.base), ByStar(ptr.kind))
  {
    assert Has(sc, |sc| - 1, lhs[i]);
  }

  lemma OutsideBoxes(scopes: Scopes, now: Scopes, names: set<Name>, x: Name)
    requires scopes != [] && SameOutside(scopes, now, names)
    ensures |now| == |scopes| && TopBox(now, x) == TopBox(scopes, x)
  {
  }

  lemma Unmentioned(lhs: seq<Name>, rhs: seq<Expr>, m: nat)
    requires |lhs| == |rhs| && |lhs| >= 2 && !NeedsTwoPhase(lhs, rhs) && m < |lhs|
    ensures forall x :: x in LeftNames(lhs) ==> x !in Idents(rhs[m])
  {
    hide Idents, LeftNames;
    forall x | x in LeftNames(lhs) ensures x !in Idents(rhs[m]) {
      assert x !in Idents(rhs[m]) * LeftNames(lhs);
    }
  }

  /** Every later name is bound without a panic; the one that follows the pointer reads something else. */
  lemma PointedTurn(lhs: seq<Name>, rhs: seq<Expr>, sc: RegScopes, i: nat, j: nat, ptr: Deref, n: nat)
    requires StoreThenFollow(lhs, rhs, sc, i, j, ptr) && i < n < |lhs| && lhs[n] != BLANK && Pointed(lhs, rhs, sc, i, j, ptr, n)
    ensures Pointed(lhs, rhs, sc, i, j, ptr, n + 1)
  {
    hide Pointers, Sym, Calls, CallsOf, Visible, Eval, Free, Interleaved, LeftNames, Code, SameOutside, FreeScopes, NeedsTwoPhase, Bind, Boxed, TopBox, Outside, Aliased, Clean, TopRead, Size, Apart, TopApart;
    var scopes, top, k, names := PointedScopes(lhs, sc, i, ptr), |sc| - 1, Start(lhs, rhs, j), LeftNames(lhs);
    var front, s, x := Turns(lhs, rhs, scopes, n), Stored(lhs, rhs, sc, i), lhs[n];
    PointedSides(lhs, rhs, sc, i, j, ptr, n);
    VisibleStill(rhs[n], sc, scopes, front.scopes, names);
    AliasedEval(rhs[n], sc, front.scopes, front.mem, k, top, names, ptr, s);
    var v := Eval(Free(Rig(None, None)), rhs[n], front.scopes, front.mem).value;
    LastTurn(lhs, rhs, scopes, n);
    LeftHas(lhs, n);
    var env := Env(front.scopes, front.mem);
    OutsideBoxes(scopes, front.scopes, names, x);
    BoxElsewhere(sc, lhs, i, ptr, x);
    BindAliased(env, x, v, k, top, names, ptr, s);
    BindOutside(scopes, env, names, x, v);
    OutsideMore(scopes, Bind(env, x, v).scopes, names + {x}, names);
    StillApart(sc, lhs, i, ptr, front.scopes, names);
    BindRead(env, x, v, lhs[j]);
  }

  lemma BoxElsewhere(sc: RegScopes, lhs: seq<Name>, i: nat, ptr: Deref, x: Name)
    requires i < |lhs| && sc != [] && Outside(sc, ptr.base) && OwnBox(PointedScopes(lhs, sc, i, ptr), x)
    ensures var b := TopBox(PointedScopes(lhs, sc, i, ptr), x); b.Some? ==> b.value.raw == Code(TVar(|sc| - 1, x)) && ptr.base != TVar(|sc| - 1, x)
  {
    if TopBox(PointedScopes(lhs, sc, i, ptr), x).Some? {
      assert Has(sc, |sc| - 1, x);
    }
  }

  lemma StillApart(sc: RegScopes, lhs: seq<Name>, i: nat, ptr: Deref, now: Scopes, names: set<Name>)
    requires i < |lhs| && sc != [] && Outside(sc, ptr.base) && SameOutside(PointedScopes(lhs, sc, i, ptr), now, names)
    ensures now != [] && TopApart(now) && TopApart(PointedScopes(lhs, sc, i, ptr))
  {
    hide TopBox, Outside, FreeScopes;
    var scopes := PointedScopes(lhs, sc, i, ptr);
    FreeApart(sc, Some(Alias(lhs[i], ptr.base)));
    ApartAtTop(scopes);
  }

  lemma {:induction false} PointedAll(lhs: seq<Name>, rhs: seq<Expr>, sc: RegScopes, i: nat, j: nat, ptr: Deref, n: nat)
    requires StoreThenFollow(lhs, rhs, sc, i, j, ptr) && i < n <= |lhs|
    ensures Pointed(lhs, rhs, sc, i, j, ptr, n)
    decreases n
  {
    hide StoreThen, Pointed, Pointers, Sym, CallsOf, Calls;
    if n == i + 1 {
      AfterStore(lhs, rhs, sc, i, j, ptr);
    } else {
      PointedAll(lhs, rhs, sc, i, j, ptr, n - 1);
      if lhs[n - 1] != BLANK {
        PointedTurn(lhs, rhs, sc, i, j, ptr, n - 1);
      } else {
        BlankTurn(lhs, rhs, sc, i, j, ptr, n - 1);
      }
    }
  }

  lemma BlankTurn(lhs: seq<Name>, rhs: seq<Expr>, sc: RegScopes, i: nat, j: nat, ptr: Deref, n: nat)
    requires StoreThenFollow(lhs, rhs, sc, i, j, ptr) && i < n < |lhs| && lhs[n] == BLANK && Pointed(lhs, rhs, sc, i, j, ptr, n)
    ensures Pointed(lhs, rhs, sc, i, j, ptr, n + 1)
  {
    hide Interleaved, SameOutside, AliasState, Sym, Code, TopRead, CallsOf, LeftNames, Calls, Pointers, Free;
    LastTurn(lhs, rhs, PointedScopes(lhs, sc, i, ptr), n);
  }

  /** A pointer followed after the store is seen by letting it point to the box. */
  lemma PointerAfterStore(lhs: seq<Name>, rhs: seq<Expr>, sc: RegScopes, i: nat, j: nat, ptr: Deref)
    requires StoreThenFollow(lhs, rhs, sc, i, j, ptr)
    ensures Outside(sc, ptr.base) && Differs(Rig(None, None), lhs, rhs, sc, Some(Alias(lhs[i], ptr.base)))
  {
    GoReads(lhs, rhs, sc, i, j, ptr);
    PointedAll(lhs, rhs, sc, i, j, ptr, |lhs|);
    assert lhs[..|lhs|] == lhs && rhs[..|lhs|] == rhs;
    hide Interleaved, SameOutside, Aliased, Clean, Sym, Code, TopRead, CallsOf, LeftNames, Calls, Pointers, Free, FreeScopes, NeedsTwoPhase, ShortVar, Outside, Distinct, Boxed;
  }

  /** In Go's meaning the name reads what its right side stands for. */
  lemma GoReads(lhs: seq<Name>, rhs: seq<Expr>, sc: RegScopes, i: nat, j: nat, ptr: Deref)
    requires StoreThenFollow(lhs, rhs, sc, i, j, ptr)
    ensures var scopes := PointedScopes(lhs, sc, i, ptr);
      && scopes != [] && var go := ShortVar(Free(Rig(None, None)), lhs, rhs, scopes, FreeMem(0));
      && go.Effect? && go.scopes != [] && TopRead(Env(go.scopes, go.mem), lhs[j]) == Code(Sym(rhs[j], sc, Start(lhs, rhs, j)))
  {
    hide Interleaved, Sym, Code, TopRead, CallsOf, LeftNames, Calls, Pointers, Free, FreeScopes, NeedsTwoPhase, EvalAll, Declare, DuesOf, Tracks, Tick, Outside, AllVisible, TopApart, Apart, Boxed;
    var rig, scopes := Rig(None, None), PointedScopes(lhs, sc, i, ptr);
    PointedPrefix(lhs, rhs, sc, i, j, ptr);
    FreeEvalAll(rig, rhs, All(|rhs|), sc, scopes);
    var r := EvalAll(Free(rig), rhs, All(|rhs|), scopes, FreeMem(0));
    EvalAllLength(Free(rig), rhs, All(|rhs|), scopes, FreeMem(0));
    PointerOutside(rhs[j], sc, Start(lhs, rhs, j), ptr);
    FreeApart(sc, Some(Alias(lhs[i], ptr.base)));
    ApartAtTop(scopes);
    DeclareRead(Env(scopes, r.mem), lhs, r.values, j);
    assert All(|rhs|)[..j] == All(j);
    WantedTrace(lhs[..j], rhs[..j], sc);
  }
}

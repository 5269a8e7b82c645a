/** A small Go: expressions with side effects and panics, variables in registers or boxes, and the meaning of assignments. */
module GoAssign {
  import opened Wrappers

  type Name = string

  const BLANK: Name := "_"

  /** A number, a text, or something made of values: a struct, a reference. */
  datatype Value = Num(n: int) | Text(text: string) | Pair(first: Value, second: Value)

  const ZERO := Num(0)

  // ---------- expressions ----------

  /** A partial operator may panic, as division does. */
  datatype Op = Op(code: nat, partial: bool)

  /** The type a pointer points to. */
  type Kind = nat

  /** What an index selects from: a map, or a list of elements of some type, whose bounds are checked. */
  datatype Elem = Mapped | Listed(kind: Kind)

  /** Types settle what is indexed and what a pointer points to. A selector through a pointer is short for one of what it points to. */
  datatype Expr =
    | Lit(n: int)
    | Ident(name: Name)
    | Binary(op: Op, left: Expr, right: Expr)
    | Field(base: Expr, field: Name)
    | Index(base: Expr, index: Expr, elem: Elem)
    | Star(base: Expr, kind: Kind)
    | Call(callee: Name, argument: Expr)

  datatype Selector = ByIndex(index: Value, elem: Elem) | ByStar(kind: Kind)

  datatype Cell = Cell(base: Value, selector: Selector)

  type Memory = imap<Cell, Value>

  function Load(mem: Memory, c: Cell): Value {
    if c in mem then mem[c] else ZERO
  }

  datatype Returned = Returned(value: Value, mem: Memory) | Panicked(mem: Memory)

  /** What operators compute, what fields structs have and how one is set, which accesses fail, and what calls do: any functions of operands and memory. */
  datatype World = World(
    operator: (nat, Value, Value) -> Value,
    part: (Value, Name) -> Value,
    with: (Value, Name, Value) -> Value,
    fails: (nat, Value, Value) -> bool,
    isNil: Value -> bool,
    inRange: (Value, Value) -> bool,
    assignable: (Value, Value) -> bool,
    call: (Name, Value, Memory) -> Returned)

  // ---------- variables ----------

  /** A variable holds its value, or, once its address was taken, a reference to the box that does, and the box's kind.
      A named result outlives a panic: it is what the function returns if the panic is recovered. */
  datatype Slot = Slot(raw: Value, box: Option<Kind>, result: bool)

  /** Scopes, innermost last. */
  type Scopes = seq<map<Name, Slot>>

  function Lookup(scopes: Scopes, x: Name): Option<Slot> {
    if scopes == [] then None
    else if x in scopes[|scopes| - 1] then Some(scopes[|scopes| - 1][x])
    else Lookup(scopes[..|scopes| - 1], x)
  }

  /** A variable of a scope with a new value; a new variable is no result. */
  function Renewed(scope: map<Name, Slot>, x: Name, v: Value): Slot {
    Slot(v, None, x in scope && scope[x].result)
  }

  /** The named results. */
  function Results(scopes: Scopes): (r: Scopes)
    ensures |r| == |scopes|
  {
    seq(|scopes|, k requires 0 <= k < |scopes| => map x | x in scopes[k] && scopes[k][x].result :: scopes[k][x])
  }

  function BoxOf(s: Slot): Cell {
    Cell(s.raw, ByStar(if s.box.Some? then s.box.value else 0))
  }

  function Read(s: Option<Slot>, mem: Memory): Value {
    if s.None? then ZERO else if s.value.box.Some? then Load(mem, BoxOf(s.value)) else s.value.raw
  }

  function Operated(w: World, op: Op, a: Value, b: Value, mem: Memory): Returned {
    if op.partial && w.fails(op.code, a, b) then Panicked(mem) else Returned(w.operator(op.code, a, b), mem)
  }

  function Indexed(w: World, base: Value, i: Value, elem: Elem, mem: Memory): Returned {
    if elem.Listed? && !w.inRange(base, i) then Panicked(mem) else Returned(Load(mem, Cell(base, ByIndex(i, elem))), mem)
  }

  function Followed(w: World, base: Value, kind: Kind, mem: Memory): Returned {
    if w.isNil(base) then Panicked(mem) else Returned(Load(mem, Cell(base, ByStar(kind))), mem)
  }

  /** One operand, then the access; a panic comes first. */
  function Selection(w: World, a: Returned, f: Name): Returned {
    if a.Panicked? then a else Returned(w.part(a.value, f), a.mem)
  }

  function Following(w: World, a: Returned, kind: Kind): Returned {
    if a.Panicked? then a else Followed(w, a.value, kind, a.mem)
  }

  function Invocation(w: World, f: Name, a: Returned): Returned {
    if a.Panicked? then a else w.call(f, a.value, a.mem)
  }

  /** Two operands in order, then the operation. */
  function Operation(w: World, op: Op, a: Returned, b: Returned): Returned {
    if a.Panicked? then a else if b.Panicked? then b else Operated(w, op, a.value, b.value, b.mem)
  }

  function Indexing(w: World, a: Returned, b: Returned, elem: Elem): Returned {
    if a.Panicked? then a else if b.Panicked? then b else Indexed(w, a.value, b.value, elem, b.mem)
  }

  /** Evaluation, left to right. */
  function Eval(w: World, e: Expr, scopes: Scopes, mem: Memory): Returned {
    match e
    case Lit(n) => Returned(Num(n), mem)
    case Ident(x) => Returned(Read(Lookup(scopes, x), mem), mem)
    case Binary(op, l, r) =>
      var a := Eval(w, l, scopes, mem);
      Operation(w, op, a, Eval(w, r, scopes, a.mem))
    case Field(b, f) => Selection(w, Eval(w, b, scopes, mem), f)
    case Index(b, i, elem) =>
      var a := Eval(w, b, scopes, mem);
      Indexing(w, a, Eval(w, i, scopes, a.mem), elem)
    case Star(b, kind) => Following(w, Eval(w, b, scopes, mem), kind)
    case Call(f, arg) => Invocation(w, f, Eval(w, arg, scopes, mem))
  }

  datatype AllReturned = AllReturned(values: seq<Value>, mem: Memory) | AnyPanicked(mem: Memory)

  /** Evaluates a list in order, leaving out those not wanted, whose value then reads zero. */
  function EvalAll(w: World, es: seq<Expr>, wanted: seq<bool>, scopes: Scopes, mem: Memory): AllReturned
    requires |wanted| == |es|
    decreases |es|
  {
    if es == [] then AllReturned([], mem)
    else
      var n := |es| - 1;
      var front := EvalAll(w, es[..n], wanted[..n], scopes, mem);
      if front.AnyPanicked? then front
      else if !wanted[n] then AllReturned(front.values + [ZERO], front.mem)
      else
        var last := Eval(w, es[n], scopes, front.mem);
        if last.Panicked? then AnyPanicked(last.mem) else AllReturned(front.values + [last.value], last.mem)
  }

  lemma {:induction false} EvalAllLength(w: World, es: seq<Expr>, wanted: seq<bool>, scopes: Scopes, mem: Memory)
    requires |wanted| == |es|
    ensures var r := EvalAll(w, es, wanted, scopes, mem); r.AllReturned? ==> |r.values| == |es|
    decreases |es|
  {
    if es != [] {
      EvalAllLength(w, es[..|es| - 1], wanted[..|es| - 1], scopes, mem);
    }
  }

  // ---------- short variable declarations ----------

  /** Where a statement leaves off: variables and memory, or a panic with the named results as they stand. */
  datatype Effect = Effect(scopes: Scopes, mem: Memory) | Aborted(results: Scopes, mem: Memory)

  datatype Env = Env(scopes: Scopes, mem: Memory)

  /** Declares a name in the innermost scope, or assigns to it if it is there. */
  function Bind(env: Env, x: Name, v: Value): (r: Env)
    requires env.scopes != []
    ensures |r.scopes| == |env.scopes|
  {
    var n := |env.scopes| - 1;
    var inner := env.scopes[n];
    if x in inner && inner[x].box.Some? then env.(mem := env.mem[BoxOf(inner[x]) := v])
    else env.(scopes := env.scopes[..n] + [inner[x := Renewed(inner, x, v)]])
  }

  /** Binds each name that is not blank, in order. */
  function Declare(env: Env, lhs: seq<Name>, values: seq<Value>): (r: Env)
    requires |lhs| == |values| && env.scopes != []
    ensures |r.scopes| == |env.scopes|
    decreases |lhs|
  {
    if lhs == [] then env
    else
      var n := |lhs| - 1;
      var before := Declare(env, lhs[..n], values[..n]);
      if lhs[n] == BLANK then before else Bind(before, lhs[n], values[n])
  }

  function All(n: nat): (r: seq<bool>)
    ensures |r| == n && forall i :: 0 <= i < n ==> r[i]
  {
    seq(n, i => true)
  }

  function Declared(scopes: Scopes, lhs: seq<Name>, r: AllReturned): Effect
    requires scopes != [] && (r.AllReturned? ==> |r.values| == |lhs|)
  {
    match r
    case AllReturned(values, mem) =>
      var env := Declare(Env(scopes, mem), lhs, values);
      Effect(env.scopes, env.mem)
    case AnyPanicked(mem) => Aborted(Results(scopes), mem)
  }

  /** Go's meaning of `lhs := rhs`: evaluate every right side, then declare and assign. */
  function ShortVar(w: World, lhs: seq<Name>, rhs: seq<Expr>, scopes: Scopes, mem: Memory): Effect
    requires |lhs| == |rhs| && scopes != []
  {
    EvalAllLength(w, rhs, All(|rhs|), scopes, mem);
    Declared(scopes, lhs, EvalAll(w, rhs, All(|rhs|), scopes, mem))
  }

  // ---------- tuple assignments ----------

  /** How the compiler holds an operand until the store, as its type settles: numbers, texts and interfaces are copied, structs and arrays
      kept where they are, and of pointers, slices, maps, channels and functions the reference is copied. */
  datatype Hold = Copy | Keep | Refer

  datatype Target =
    | ToIdent(name: Name)
    | ToBlank
    | ToField(base: Expr, kind: Kind, field: Name)
    | ToIndex(base: Expr, index: Expr, elem: Elem, hold: Hold)
    | ToStar(base: Expr, kind: Kind)

  /** The operands of a target, evaluated before any value. */
  function Operands(t: Target): seq<Expr> {
    match t
    case ToIdent(_) => []
    case ToBlank => []
    case ToField(b, _, _) => [b]
    case ToIndex(b, i, _, _) => [b, i]
    case ToStar(b, _) => [b]
  }

  function AllOperands(ts: seq<Target>): seq<Expr> {
    if ts == [] then [] else AllOperands(ts[..|ts| - 1]) + Operands(ts[|ts| - 1])
  }

  /** Assigns to the innermost variable of that name. */
  function AssignVar(env: Env, x: Name, v: Value): (r: Env)
    ensures |r.scopes| == |env.scopes|
    decreases |env.scopes|
  {
    if env.scopes == [] then env
    else
      var n := |env.scopes| - 1;
      var inner := env.scopes[n];
      if x in inner then
        if inner[x].box.Some? then env.(mem := env.mem[BoxOf(inner[x]) := v])
        else env.(scopes := env.scopes[..n] + [inner[x := Renewed(inner, x, v)]])
      else
        var outer := AssignVar(env.(scopes := env.scopes[..n]), x, v);
        outer.(scopes := outer.scopes + [inner])
  }

  /** Stores one value, with the target's operands already evaluated to `ops`. */
  function Store(w: World, t: Target, ops: seq<Value>, v: Value, env: Env): Effect
    requires |ops| == |Operands(t)|
  {
    match t
    case ToIdent(x) => var r := AssignVar(env, x, v); Effect(r.scopes, r.mem)
    case ToBlank => Effect(env.scopes, env.mem)
    case ToField(_, kind, f) =>
      var c := Cell(ops[0], ByStar(kind));
      if w.isNil(ops[0]) then Aborted(Results(env.scopes), env.mem) else Effect(env.scopes, env.mem[c := w.with(Load(env.mem, c), f, v)])
    case ToIndex(_, _, elem, _) =>
      if !w.assignable(ops[0], ops[1]) then Aborted(Results(env.scopes), env.mem) else Effect(env.scopes, env.mem[Cell(ops[0], ByIndex(ops[1], elem)) := v])
    case ToStar(_, kind) =>
      if w.isNil(ops[0]) then Aborted(Results(env.scopes), env.mem) else Effect(env.scopes, env.mem[Cell(ops[0], ByStar(kind)) := v])
  }

  /** Carries out the assignments from left to right, up to one that panics. */
  function StoreAll(w: World, ts: seq<Target>, ops: seq<Value>, values: seq<Value>, env: Env): Effect
    requires |ops| == |AllOperands(ts)| && |values| == |ts|
    decreases |ts|
  {
    if ts == [] then Effect(env.scopes, env.mem)
    else
      var n := |ts| - 1;
      var k := |AllOperands(ts[..n])|;
      var before := StoreAll(w, ts[..n], ops[..k], values[..n], env);
      if before.Aborted? then before else Store(w, ts[n], ops[k..], values[n], Env(before.scopes, before.mem))
  }

  /** Go's meaning of `targets = rhs`: operands, then values, then the assignments. */
  function TupleAssign(w: World, ts: seq<Target>, rhs: seq<Expr>, scopes: Scopes, mem: Memory): Effect
    requires |ts| == |rhs|
  {
    var es := AllOperands(ts) + rhs;
    EvalAllLength(w, es, All(|es|), scopes, mem);
    match EvalAll(w, es, All(|es|), scopes, mem)
    case AllReturned(values, mem') =>
      var k := |AllOperands(ts)|;
      StoreAll(w, ts, values[..k], values[k..], Env(scopes, mem'))
    case AnyPanicked(mem') => Aborted(Results(scopes), mem')
  }
}

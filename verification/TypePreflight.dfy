/** The budgeted walk over a payload's type tables that runs before anything is decoded. */
module TypePreflight {
  import opened Wrappers
  import opened Descriptors
  import opened TableGraph

  const KIND_BASIC := 0
  const KIND_NIL := 10
  const MAXIMUM_DECODED_TYPE_UNITS := 0x1_0000
  const TYPE_UNIT_PAYLOAD_BYTES := 32

  datatype PreflightError = BadKind | TooDeep | CountTooLong | OverBudget

  /** Units the payload may spend: a floor, or one unit per 32 bytes when that is more. */
  function TypeUnitAllowance(payloadLen: nat): nat {
    if payloadLen / TYPE_UNIT_PAYLOAD_BYTES > MAXIMUM_DECODED_TYPE_UNITS then payloadLen / TYPE_UNIT_PAYLOAD_BYTES
    else MAXIMUM_DECODED_TYPE_UNITS
  }

  /** At least 65536, at least one for every whole 32 bytes, and no more than one of them. */
  lemma AllowanceTold(payloadLen: nat)
    ensures var r := TypeUnitAllowance(payloadLen); r >= 65536 && payloadLen < 32 * (r + 1) && (r == 65536 || 32 * r <= payloadLen)
  {
  }

  /** The scalar kinds of package reflect: Invalid, Bool to Complex128, String and UnsafePointer. */
  predicate ValidBasicKind(k: uint8) {
    k <= 16 || k == 24 || k == 26
  }

  predicate KindOk(c: Cell, nested: bool) {
    KIND_BASIC <= c.kind <= KIND_NIL && !(c.kind == KIND_NIL && nested) && (c.kind == KIND_BASIC ==> ValidBasicKind(c.attrs.basicKind))
  }

  predicate CountsOk(c: Cell, room: nat) {
    |c.fields| <= room && |c.params| <= room && |c.results| <= room
  }

  // ---------- what the walk spends ----------

  /** One unit for the table and one per list slot. */
  function UnitsOf(c: Cell): nat {
    1 + SlotsOf(c)
  }

  function SlotsOf(c: Cell): nat {
    |c.fields| + |c.params| + |c.results|
  }

  function Cost(g: Graph, order: seq<Offset>): nat
    requires forall i :: 0 <= i < |order| ==> order[i] in g
  {
    if order == [] then 0 else UnitsOf(g[order[0]]) + Cost(g, order[1..])
  }

  lemma {:induction false} CostConcat(g: Graph, a: seq<Offset>, b: seq<Offset>)
    requires forall i :: 0 <= i < |a| ==> a[i] in g
    requires forall i :: 0 <= i < |b| ==> b[i] in g
    ensures Cost(g, a + b) == Cost(g, a) + Cost(g, b)
  {
    if a == [] {
      assert a + b == b;
    } else {
      assert (a + b)[1..] == a[1..] + b;
      CostConcat(g, a[1..], b);
    }
  }

  /** The slots of one kind of list in the tables listed. */
  function FieldSlots(g: Graph, order: seq<Offset>): nat
    requires forall i :: 0 <= i < |order| ==> order[i] in g
  {
    if order == [] then 0 else |g[order[0]].fields| + FieldSlots(g, order[1..])
  }

  function ParamSlots(g: Graph, order: seq<Offset>): nat
    requires forall i :: 0 <= i < |order| ==> order[i] in g
  {
    if order == [] then 0 else |g[order[0]].params| + ParamSlots(g, order[1..])
  }

  function ResultSlots(g: Graph, order: seq<Offset>): nat
    requires forall i :: 0 <= i < |order| ==> order[i] in g
  {
    if order == [] then 0 else |g[order[0]].results| + ResultSlots(g, order[1..])
  }

  /** One unit for each table, and one for each slot of its lists. */
  lemma {:induction false} CostTold(g: Graph, order: seq<Offset>)
    requires forall i :: 0 <= i < |order| ==> order[i] in g
    ensures Cost(g, order) == |order| + FieldSlots(g, order) + ParamSlots(g, order) + ResultSlots(g, order)
    decreases |order|
  {
    if order != [] {
      CostTold(g, order[1..]);
    }
  }

  // ---------- what the walk leaves behind ----------

  /** The table's lists fit, and each child was reached by an edge that passed the checks. */
  ghost predicate Finished(g: Graph, order: seq<Offset>, room: nat, o: Offset)
    requires o in g
  {
    CountsOk(g[o], room) && forall next: Offset :: Refers(g[o], next) ==> next in order && next in g && KindOk(g[next], true)
  }

  ghost predicate Reach(g: Graph, a: Offset, b: Offset) {
    exists p :: IsPath(g, p) && p[0] == a && p[|p| - 1] == b
  }

  lemma ReachSelf(g: Graph, a: Offset)
    requires a in g
    ensures Reach(g, a, a)
  {
    assert IsPath(g, [a]);
  }

  lemma ReachStep(g: Graph, a: Offset, b: Offset, c: Offset)
    requires a in g && Refers(g[a], b) && Reach(g, b, c)
    ensures Reach(g, a, c)
  {
    var p :| IsPath(g, p) && p[0] == b && p[|p| - 1] == c;
    ConsPath(g, a, p);
    assert ([a] + p)[|p|] == c;
  }

  function Roots(rs: seq<Option<Offset>>): set<Offset> {
    set i | 0 <= i < |rs| && rs[i].Some? :: rs[i].value
  }

  /** Every table charged from index `from` on is reachable from one of the roots. */
  ghost predicate ReachedFrom(g: Graph, roots: set<Offset>, order: seq<Offset>, from: nat) {
    forall i :: from <= i < |order| ==> Reached(g, roots, order[i])
  }

  ghost predicate Reached(g: Graph, roots: set<Offset>, o: Offset) {
    exists a :: a in roots && Reach(g, a, o)
  }

  /** The stretch of the walk from a to b is complete and cost exactly `units`. */
  ghost predicate Segment(g: Graph, room: nat, a: seq<Offset>, b: seq<Offset>, units: int) {
    && a <= b && (forall i :: 0 <= i < |b| ==> b[i] in g)
    && (forall i :: |a| <= i < |b| ==> Finished(g, b, room, b[i]))
    && Cost(g, b[|a|..]) == units
  }

  lemma SegmentEmpty(g: Graph, room: nat, a: seq<Offset>)
    requires forall i :: 0 <= i < |a| ==> a[i] in g
    ensures Segment(g, room, a, a, 0)
  {
    assert a[|a|..] == [];
  }

  lemma SegmentJoin(g: Graph, room: nat, a: seq<Offset>, b: seq<Offset>, c: seq<Offset>, u: int, v: int)
    requires Segment(g, room, a, b, u) && Segment(g, room, b, c, v)
    ensures Segment(g, room, a, c, u + v)
  {
    assert c[|a|..] == b[|a|..] + c[|b|..];
    CostConcat(g, b[|a|..], c[|b|..]);
    forall i | |a| <= i < |c| ensures Finished(g, c, room, c[i]) {
      if i < |b| {
        assert Finished(g, b, room, b[i]);
      }
    }
  }

  /** Spending that went over: the tables charged since a cost more than `units`. */
  ghost predicate Overspent(g: Graph, a: seq<Offset>, b: seq<Offset>, units: int) {
    a <= b && (forall i :: 0 <= i < |b| ==> b[i] in g) && Cost(g, b[|a|..]) > units
  }

  lemma OverspentJoin(g: Graph, room: nat, a: seq<Offset>, b: seq<Offset>, c: seq<Offset>, u: int, v: int)
    requires Segment(g, room, a, b, u) && Overspent(g, b, c, v)
    ensures Overspent(g, a, c, u + v)
  {
    assert c[|a|..] == b[|a|..] + c[|b|..];
    CostConcat(g, b[|a|..], c[|b|..]);
  }

  /** The offending table at the end of a path, for each kind of rejection. */
  ghost predicate Reason(g: Graph, e: PreflightError, p: seq<Offset>, depth: nat, room: nat) {
    IsPath(g, p) &&
    var last := g[p[|p| - 1]];
    match e
    case BadKind => !KindOk(last, depth + |p| - 1 > 0)
    case TooDeep => depth + |p| - 1 > MAX_TYPE_DEPTH
    case CountTooLong => !CountsOk(last, room)
    case OverBudget => true
  }

  lemma ReasonUp(g: Graph, o: Offset, e: PreflightError, p: seq<Offset>, depth: nat, room: nat)
    requires o in g && Reason(g, e, p, depth + 1, room) && Refers(g[o], p[0])
    ensures Reason(g, e, [o] + p, depth, room)
  {
    ConsPath(g, o, p);
    assert ([o] + p)[|p|] == p[|p| - 1];
  }

  /** Every entry that is not nil was charged and reached by an edge that passed the checks. */
  ghost predicate Entered(g: Graph, order: seq<Offset>, rs: seq<Option<Offset>>, nested: bool) {
    forall i :: 0 <= i < |rs| && rs[i].Some? ==> rs[i].value in order && rs[i].value in g && KindOk(g[rs[i].value], nested)
  }

  function FieldRefs(ss: seq<Slot>): (r: seq<Option<Offset>>)
    ensures |r| == |ss| && forall i :: 0 <= i < |r| ==> r[i] == ss[i].typ
  {
    seq(|ss|, i requires 0 <= i < |ss| => ss[i].typ)
  }

  function PointerRefs(c: Cell): seq<Option<Offset>> {
    [c.elem, c.key, c.value]
  }

  lemma ChildOfLists(c: Cell, next: Offset)
    ensures Refers(c, next) <==>
      next in Roots(PointerRefs(c)) || next in Roots(FieldRefs(c.fields)) || next in Roots(c.params) || next in Roots(c.results)
  {
    var ps := PointerRefs(c);
    assert ps[0] == c.elem && ps[1] == c.key && ps[2] == c.value;
    if exists i :: 0 <= i < |c.fields| && c.fields[i].typ == Some(next) {
      var i :| 0 <= i < |c.fields| && c.fields[i].typ == Some(next);
      assert FieldRefs(c.fields)[i] == Some(next);
    }
  }

  ghost predicate Fresh(g: Graph, order: seq<Offset>, visited: set<Offset>) {
    && (forall i :: 0 <= i < |order| ==> order[i] in g && order[i] in visited)
    && (forall o :: o in visited ==> o in order)
    && forall i, j :: 0 <= i < j < |order| ==> order[i] != order[j]
  }

  lemma ReachedUp(g: Graph, o: Offset, roots: set<Offset>, order: seq<Offset>, from: nat)
    requires o in g && ReachedFrom(g, roots, order, from) && forall a :: a in roots ==> Refers(g[o], a)
    ensures ReachedFrom(g, {o}, order, from)
  {
    forall i | from <= i < |order| ensures Reached(g, {o}, order[i]) {
      assert Reached(g, roots, order[i]);
      var a :| a in roots && Reach(g, a, order[i]);
      ReachStep(g, o, a, order[i]);
      assert o in {o};
    }
  }

  lemma EnterDone(g: Graph, room: nat, a: seq<Offset>, o: Offset, b: seq<Offset>, units: int)
    requires (forall i :: 0 <= i < |a| ==> a[i] in g) && o in g && CountsOk(g[o], room)
    requires Segment(g, room, a + [o], b, units)
    requires Entered(g, b, PointerRefs(g[o]), true) && Entered(g, b, FieldRefs(g[o].fields), true)
    requires Entered(g, b, g[o].params, true) && Entered(g, b, g[o].results, true)
    ensures Segment(g, room, a, b, UnitsOf(g[o]) + units)
  {
    forall next: Offset | Refers(g[o], next) ensures next in b && next in g && KindOk(g[next], true) {
      ChildOfLists(g[o], next);
    }
    assert Finished(g, b, room, o);
    assert b[|a|..] == [o] + b[|a| + 1..];
    assert ([o] + b[|a| + 1..])[1..] == b[|a| + 1..];
  }

  lemma Mark(g: Graph, room: nat, order: seq<Offset>, visited: set<Offset>, o: Offset)
    requires Fresh(g, order, visited) && o in g && o !in visited
    ensures Fresh(g, order + [o], visited + {o}) && ReachedFrom(g, {o}, order + [o], |order|)
    ensures Segment(g, room, order + [o], order + [o], 0) && Overspent(g, order + [o], order + [o], -1)
    ensures forall i :: 0 <= i < |order| ==> order[i] in g
  {
    ReachSelf(g, o);
    SegmentEmpty(g, room, order + [o]);
  }

  lemma OverspentUp(g: Graph, a: seq<Offset>, o: Offset, start: seq<Offset>, b: seq<Offset>, units: int, total: int)
    requires start == a + [o] && o in g && Overspent(g, start, b, units) && total <= units + UnitsOf(g[o])
    ensures Overspent(g, a, b, total)
  {
    assert b[|a|..] == [o] + b[|a| + 1..];
    assert ([o] + b[|a| + 1..])[1..] == b[|a| + 1..];
  }

  lemma OverspentLess(g: Graph, a: seq<Offset>, b: seq<Offset>, u: int, v: int)
    requires Overspent(g, a, b, u) && v <= u
    ensures Overspent(g, a, b, v)
  {
  }

  lemma Blame(g: Graph, o: Offset, depth: nat, room: nat)
    requires o in g
    ensures Reason(g, OverBudget, [o], depth, room)
  {
  }

  lemma ReachedJoin(g: Graph, roots: set<Offset>, b: seq<Offset>, c: seq<Offset>, from: nat)
    requires from <= |b| && b <= c && ReachedFrom(g, roots, b, from) && ReachedFrom(g, roots, c, |b|)
    ensures ReachedFrom(g, roots, c, from)
  {
    forall i | from <= i < |c| ensures Reached(g, roots, c[i]) {
      if i < |b| {
        assert Reached(g, roots, b[i]);
      }
    }
  }

  lemma EnteredGrows(g: Graph, a: seq<Offset>, b: seq<Offset>, rs: seq<Option<Offset>>, nested: bool)
    requires a <= b && Entered(g, a, rs, nested)
    ensures Entered(g, b, rs, nested)
  {
  }

  lemma RootsAreChildren(g: Graph, o: Offset)
    requires Closed(g) && o in g
    ensures RefsIn(g, PointerRefs(g[o])) && RefsIn(g, FieldRefs(g[o].fields)) && RefsIn(g, g[o].params) && RefsIn(g, g[o].results)
    ensures forall a :: a in Roots(PointerRefs(g[o])) ==> Refers(g[o], a)
    ensures forall a :: a in Roots(FieldRefs(g[o].fields)) ==> Refers(g[o], a)
    ensures forall a :: a in Roots(g[o].params) ==> Refers(g[o], a)
    ensures forall a :: a in Roots(g[o].results) ==> Refers(g[o], a)
  {
    forall a: Offset ensures
      a in Roots(PointerRefs(g[o])) || a in Roots(FieldRefs(g[o].fields)) || a in Roots(g[o].params) || a in Roots(g[o].results) ==> Refers(g[o], a)
    {
      ChildOfLists(g[o], a);
    }
    RootsIn(g, o, PointerRefs(g[o]));
    RootsIn(g, o, FieldRefs(g[o].fields));
    RootsIn(g, o, g[o].params);
    RootsIn(g, o, g[o].results);
  }

  lemma RootsIn(g: Graph, o: Offset, rs: seq<Option<Offset>>)
    requires Closed(g) && o in g && forall a :: a in Roots(rs) ==> Refers(g[o], a)
    ensures RefsIn(g, rs)
  {
    forall i | 0 <= i < |rs| && rs[i].Some? ensures rs[i].value in g {
      assert rs[i].value in Roots(rs);
    }
  }

  lemma PathsAreNonempty(g: Graph, e: PreflightError, p: seq<Offset>, depth: nat, room: nat)
    requires Reason(g, e, p, depth, room)
    ensures p != []
  {
  }

  /**
   * What a preflight may still spend, and the tables it charged already. `order` lists those tables as
   * they were charged.
   */
  class Budget {
    var functions: nat
    var vectors: nat
    var types: nat
    var visited: set<Offset>
    ghost var order: seq<Offset>

    ghost predicate Valid(g: Graph)
      reads this`order, this`visited
    {
      Fresh(g, order, visited)
    }

    constructor (functions: nat, vectors: nat, types: nat)
      ensures this.functions == functions && this.vectors == vectors && this.types == types
      ensures visited == {} && order == []
    {
      this.functions, this.vectors, this.types := functions, vectors, types;
      visited, order := {}, [];
    }

    /** Validates one table and everything below it that was not charged before. */
    method ValidateTree(g: Graph, r: Option<Offset>, depth: nat, room: nat) returns (err: Option<PreflightError>, ghost p: seq<Offset>)
      requires Closed(g) && Valid(g) && (r.Some? ==> r.value in g)
      modifies this`types, this`visited, this`order
      ensures Valid(g) && old(order) <= order && ReachedFrom(g, Roots([r]), order, |old(order)|)
      ensures err.None? ==> Segment(g, room, old(order), order, old(types) - types) && Entered(g, order, [r], depth > 0)
      ensures err.Some? ==> r.Some? && Reason(g, err.value, p, depth, room) && p[0] == r.value
      ensures err == Some(OverBudget) ==> Overspent(g, old(order), order, old(types))
      decreases Levels(depth), 0
    {
      p := [];
      SegmentEmpty(g, room, order);
      if r.None? {
        return None, p;
      }
      var o := r.value;
      assert [r][0] == r && Roots([r]) == {o};
      p := [o];
      if !KindOk(g[o], depth > 0) {
        return Some(BadKind), p;
      }
      if depth > MAX_TYPE_DEPTH {
        return Some(TooDeep), p;
      }
      if o in visited {
        return None, p;
      }
      err, p := Enter(g, o, depth, room);
    }

    /** Charges an unvisited table and validates its children. */
    method Enter(g: Graph, o: Offset, depth: nat, room: nat) returns (err: Option<PreflightError>, ghost p: seq<Offset>)
      requires Closed(g) && Valid(g) && o in g && o !in visited && depth <= MAX_TYPE_DEPTH
      modifies this`types, this`visited, this`order
      ensures Valid(g) && old(order) + [o] <= order && ReachedFrom(g, {o}, order, |old(order)|)
      ensures err.None? ==> Segment(g, room, old(order), order, old(types) - types)
      ensures err.Some? ==> Reason(g, err.value, p, depth, room) && p[0] == o
      ensures err == Some(OverBudget) ==> Overspent(g, old(order), order, old(types))
      decreases Levels(depth + 1), 5
    {
      hide Finished, KindOk, Reach, Reason, Segment, Overspent, Entered, ReachedFrom, Roots, Fresh;
      Mark(g, room, order, visited, o);
      visited, order := visited + {o}, order + [o];
      ghost var start := order;
      if types < 1 {
        OverspentUp(g, old(order), o, start, order, -1, 0);
        Blame(g, o, depth, room);
        return Some(OverBudget), [o];
      }
      types := types - 1;
      err, p := EnterPointers(g, o, depth, room);
      ReachedJoin(g, {o}, start, order, |old(order)|);
      if err.Some? {
        if err == Some(OverBudget) { OverspentUp(g, old(order), o, start, order, old(types) - 1, old(types)); }
        return;
      }
      ghost var middle, left := order, types;
      err, p := EnterLists(g, o, depth, room);
      ReachedJoin(g, {o}, middle, order, |old(order)|);
      if err.Some? {
        if err == Some(OverBudget) {
          OverspentJoin(g, room, start, middle, order, old(types) - 1 - left, left - SlotsOf(g[o]));
          OverspentUp(g, old(order), o, start, order, old(types) - 1 - SlotsOf(g[o]), old(types));
        }
        return;
      }
      SegmentJoin(g, room, start, middle, order, old(types) - 1 - left, left - types - SlotsOf(g[o]));
      EnteredGrows(g, middle, order, PointerRefs(g[o]), true);
      EnterDone(g, room, old(order), o, order, old(types) - types - UnitsOf(g[o]));
    }

    /** Validates the three lists of o in order. */
    method EnterLists(g: Graph, o: Offset, depth: nat, room: nat) returns (err: Option<PreflightError>, ghost p: seq<Offset>)
      requires Closed(g) && Valid(g) && o in g
      modifies this`types, this`visited, this`order
      ensures Valid(g) && old(order) <= order && ReachedFrom(g, {o}, order, |old(order)|)
      ensures err.None? ==> Segment(g, room, old(order), order, old(types) - types - SlotsOf(g[o])) && CountsOk(g[o], room)
      ensures err.None? ==> Entered(g, order, FieldRefs(g[o].fields), true)
      ensures err.None? ==> Entered(g, order, g[o].params, true) && Entered(g, order, g[o].results, true)
      ensures err.Some? ==> Reason(g, err.value, p, depth, room) && p[0] == o
      ensures err == Some(OverBudget) ==> Overspent(g, old(order), order, old(types) - SlotsOf(g[o]))
      decreases Levels(depth + 1), 4
    {
      hide Finished, KindOk, Reach, Reason, Segment, Overspent, Entered, ReachedFrom, Roots, Fresh;
      ghost var f, q, r := |g[o].fields|, |g[o].params|, |g[o].results|;
      err, p := EnterList(g, o, FieldRefs(g[o].fields), depth, room);
      if err.Some? {
        if err == Some(OverBudget) { OverspentLess(g, old(order), order, old(types) - f, old(types) - SlotsOf(g[o])); }
        return;
      }
      ghost var o2, t2 := order, types;
      err, p := EnterList(g, o, g[o].params, depth, room);
      ReachedJoin(g, {o}, o2, order, |old(order)|);
      if err.Some? {
        if err == Some(OverBudget) {
          OverspentJoin(g, room, old(order), o2, order, old(types) - t2 - f, t2 - q);
          OverspentLess(g, old(order), order, old(types) - f - q, old(types) - SlotsOf(g[o]));
        }
        return;
      }
      SegmentJoin(g, room, old(order), o2, order, old(types) - t2 - f, t2 - types - q);
      ghost var o3, t3 := order, types;
      err, p := EnterList(g, o, g[o].results, depth, room);
      ReachedJoin(g, {o}, o3, order, |old(order)|);
      if err.Some? {
        if err == Some(OverBudget) { OverspentJoin(g, room, old(order), o3, order, old(types) - t3 - f - q, t3 - r); }
        return;
      }
      SegmentJoin(g, room, old(order), o3, order, old(types) - t3 - f - q, t3 - types - r);
      EnteredGrows(g, o2, order, FieldRefs(g[o].fields), true);
      EnteredGrows(g, o3, order, g[o].params, true);
    }

    /** Validates the element, key and value of o. */
    method EnterPointers(g: Graph, o: Offset, depth: nat, room: nat) returns (err: Option<PreflightError>, ghost p: seq<Offset>)
      requires Closed(g) && Valid(g) && o in g
      modifies this`types, this`visited, this`order
      ensures Valid(g) && old(order) <= order && ReachedFrom(g, {o}, order, |old(order)|)
      ensures err.None? ==> Segment(g, room, old(order), order, old(types) - types) && Entered(g, order, PointerRefs(g[o]), true)
      ensures err.Some? ==> Reason(g, err.value, p, depth, room) && p[0] == o
      ensures err == Some(OverBudget) ==> Overspent(g, old(order), order, old(types))
      decreases Levels(depth + 1), 2
    {
      hide Finished, KindOk, Reach, Reason, Segment, Overspent, Fresh, ReachedFrom, Entered;
      var rs := PointerRefs(g[o]);
      RootsAreChildren(g, o);
      err, p := ValidateEach(g, rs, depth + 1, room);
      ReachedUp(g, o, Roots(rs), order, |old(order)|);
      if err.Some? {
        ReasonUp(g, o, err.value, p, depth, room);
        p := [o] + p;
      }
    }

    /** Validates one list of o, charging a unit per slot. */
    method EnterList(g: Graph, o: Offset, rs: seq<Option<Offset>>, depth: nat, room: nat) returns (err: Option<PreflightError>, ghost p: seq<Offset>)
      requires Closed(g) && Valid(g) && o in g
      requires rs == FieldRefs(g[o].fields) || rs == g[o].params || rs == g[o].results
      modifies this`types, this`visited, this`order
      ensures Valid(g) && old(order) <= order && ReachedFrom(g, {o}, order, |old(order)|)
      ensures err.None? ==> Segment(g, room, old(order), order, old(types) - types - |rs|) && Entered(g, order, rs, true) && |rs| <= room
      ensures err.Some? ==> Reason(g, err.value, p, depth, room) && p[0] == o
      ensures err == Some(OverBudget) ==> Overspent(g, old(order), order, old(types) - |rs|)
      decreases Levels(depth + 1), 3
    {
      hide Finished, KindOk, Reach, Segment, Overspent, Fresh, ReachedFrom, Entered;
      RootsAreChildren(g, o);
      err, p := ValidateEntries(g, rs, depth + 1, room);
      ReachedUp(g, o, Roots(rs), order, |old(order)|);
      if err.Some? {
        if p != [] {
          ReasonUp(g, o, err.value, p, depth, room);
        }
        p := [o] + p;
      }
    }

    /** Bounds and charges a declared list, then validates its entries. A path of [] blames the list itself. */
    method ValidateEntries(g: Graph, rs: seq<Option<Offset>>, depth: nat, room: nat) returns (err: Option<PreflightError>, ghost p: seq<Offset>)
      requires Closed(g) && Valid(g) && RefsIn(g, rs)
      modifies this`types, this`visited, this`order
      ensures Valid(g) && old(order) <= order && ReachedFrom(g, Roots(rs), order, |old(order)|)
      ensures err.None? ==> Segment(g, room, old(order), order, old(types) - types - |rs|) && Entered(g, order, rs, depth > 0) && |rs| <= room
      ensures err.Some? && p != [] ==> Reason(g, err.value, p, depth, room) && p[0] in Roots(rs)
      ensures err.Some? && p == [] ==> (err.value == CountTooLong && |rs| > room) || err.value == OverBudget
      ensures err == Some(OverBudget) ==> Overspent(g, old(order), order, old(types) - |rs|)
      decreases Levels(depth), 2
    {
      p := [];
      if |rs| > room {
        return Some(CountTooLong), p;
      }
      if |rs| > types {
        assert order[|order|..] == [];
        return Some(OverBudget), p;
      }
      types := types - |rs|;
      hide Finished, KindOk, Reach, Segment, Overspent, Fresh, ReachedFrom, Entered, Reason;
      err, p := ValidateEach(g, rs, depth, room);
      if err.Some? {
        PathsAreNonempty(g, err.value, p, depth, room);
      }
    }

    /** Validates a run of entries. */
    method ValidateEach(g: Graph, rs: seq<Option<Offset>>, depth: nat, room: nat) returns (err: Option<PreflightError>, ghost p: seq<Offset>)
      requires Closed(g) && Valid(g) && RefsIn(g, rs)
      modifies this`types, this`visited, this`order
      ensures Valid(g) && old(order) <= order && ReachedFrom(g, Roots(rs), order, |old(order)|)
      ensures err.None? ==> Segment(g, room, old(order), order, old(types) - types) && Entered(g, order, rs, depth > 0)
      ensures err.Some? ==> Reason(g, err.value, p, depth, room) && p[0] in Roots(rs)
      ensures err == Some(OverBudget) ==> Overspent(g, old(order), order, old(types))
      decreases Levels(depth), 1
    {
      hide Fresh, Finished, Reason, KindOk, Reach;
      p := [];
      assert Segment(g, room, order, order, 0) by { EmptyWalk(g, room, order, visited); }
      for i := 0 to |rs|
        invariant Valid(g) && old(order) <= order && ReachedFrom(g, Roots(rs), order, |old(order)|)
        invariant Segment(g, room, old(order), order, old(types) - types)
        invariant Entered(g, order, rs[..i], depth > 0)
      {
        ghost var before, left := order, types;
        err, p := ValidateTree(g, rs[i], depth, room);
        assert forall a :: a in Roots([rs[i]]) ==> a in Roots(rs) by { assert [rs[i]][0] == rs[i]; }
        if err.Some? {
          if err == Some(OverBudget) {
            OverspentJoin(g, room, old(order), before, order, old(types) - left, left);
          }
          return;
        }
        SegmentJoin(g, room, old(order), before, order, old(types) - left, left - types);
        assert [rs[i]][0] == rs[i];
      }
      assert rs[..|rs|] == rs;
      return None, p;
    }
  }

  lemma EmptyWalk(g: Graph, room: nat, order: seq<Offset>, visited: set<Offset>)
    requires Fresh(g, order, visited)
    ensures Segment(g, room, order, order, 0)
  {
    SegmentEmpty(g, room, order);
  }

  // ---------- a whole preflight ----------

  ghost predicate FromRoot(g: Graph, rs: seq<Option<Offset>>, p: seq<Offset>) {
    IsPath(g, p) && p[0] in Roots(rs)
  }

  /** Every path from a root ends in a table with a legal kind, nil only at a root, and lists that fit. */
  ghost predicate WellFormed(g: Graph, rs: seq<Option<Offset>>, room: nat) {
    forall p :: FromRoot(g, rs, p) ==> KindOk(g[p[|p| - 1]], |p| > 1) && CountsOk(g[p[|p| - 1]], room)
  }

  ghost predicate Shallow(g: Graph, rs: seq<Option<Offset>>) {
    forall p :: FromRoot(g, rs, p) ==> |p| - 1 <= MAX_TYPE_DEPTH
  }

  /** A list of distinct tables, all reachable from the roots. */
  ghost predicate ReachableList(g: Graph, rs: seq<Option<Offset>>, s: seq<Offset>) {
    && (forall i :: 0 <= i < |s| ==> s[i] in g && Reached(g, Roots(rs), s[i]))
    && forall i, j :: 0 <= i < j < |s| ==> s[i] != s[j]
  }

  /** One unit per root slot, and per distinct reachable table one unit and one per list slot. */
  ghost predicate Affordable(g: Graph, rs: seq<Option<Offset>>, allowance: nat) {
    forall s :: ReachableList(g, rs, s) ==> |rs| + Cost(g, s) <= allowance
  }

  lemma {:induction false} WalkCoversPath(g: Graph, room: nat, rs: seq<Option<Offset>>, order: seq<Offset>, units: int, p: seq<Offset>)
    requires Segment(g, room, [], order, units) && Entered(g, order, rs, false) && FromRoot(g, rs, p)
    ensures p[|p| - 1] in order && KindOk(g[p[|p| - 1]], |p| > 1) && CountsOk(g[p[|p| - 1]], room)
    decreases |p|
  {
    if |p| == 1 {
      var i :| 0 <= i < |rs| && rs[i].Some? && rs[i].value == p[0];
      var k :| 0 <= k < |order| && order[k] == p[0];
      assert Finished(g, order, room, order[k]);
    } else {
      var q := p[..|p| - 1];
      assert IsPath(g, q) by {
        forall i | 0 <= i < |q| - 1 ensures Refers(g[q[i]], q[i + 1]) { assert Refers(g[p[i]], p[i + 1]); }
      }
      WalkCoversPath(g, room, rs, order, units, q);
      var k :| 0 <= k < |order| && order[k] == q[|q| - 1];
      assert Finished(g, order, room, order[k]);
      assert Refers(g[p[|p| - 2]], p[|p| - 1]);
      var m :| 0 <= m < |order| && order[m] == p[|p| - 1];
      assert Finished(g, order, room, order[m]);
    }
  }

  /** Runs the preflight over one list of roots, with the units its payload earns. */
  method Preflight(g: Graph, rs: seq<Option<Offset>>, room: nat)
    returns (err: Option<PreflightError>, left: nat, visited: set<Offset>, ghost order: seq<Offset>)
    requires Closed(g) && RefsIn(g, rs)
    ensures err.None? ==> forall o :: o in visited <==> Reached(g, Roots(rs), o)
    ensures err.None? ==> ReachableList(g, rs, order) && visited == (set i | 0 <= i < |order| :: order[i])
    ensures err.None? ==> TypeUnitAllowance(room) == left + |rs| + Cost(g, order)
    ensures err.None? ==> Cost(g, order) == |order| + FieldSlots(g, order) + ParamSlots(g, order) + ResultSlots(g, order)
    ensures err.None? ==> WellFormed(g, rs, room) && |rs| <= room
    ensures WellFormed(g, rs, room) && Shallow(g, rs) && |rs| <= room && Affordable(g, rs, TypeUnitAllowance(room)) ==> err.None?
  {
    hide Segment, Overspent, Entered, ReachedFrom, Reason, KindOk, CountsOk, Finished, Reach;
    var budget := new Budget(0, 0, TypeUnitAllowance(room));
    assert Fresh(g, [], {});
    ghost var p;
    err, p := budget.ValidateEntries(g, rs, 0, room);
    left, visited, order := budget.types, budget.visited, budget.order;
    ChargedAreReachable(g, rs, order, visited);
    if err.None? {
      Accepted(g, room, rs, order, visited, TypeUnitAllowance(room) - left - |rs|);
      CostTold(g, order);
    } else {
      Rejected(g, room, rs, order, err.value, p);
    }
  }

  lemma ChargedAreReachable(g: Graph, rs: seq<Option<Offset>>, order: seq<Offset>, visited: set<Offset>)
    requires Fresh(g, order, visited) && ReachedFrom(g, Roots(rs), order, 0)
    ensures ReachableList(g, rs, order) && visited == (set i | 0 <= i < |order| :: order[i])
  {
  }

  lemma Accepted(g: Graph, room: nat, rs: seq<Option<Offset>>, order: seq<Offset>, visited: set<Offset>, units: int)
    requires Segment(g, room, [], order, units) && Entered(g, order, rs, false)
    requires ReachableList(g, rs, order) && visited == (set i | 0 <= i < |order| :: order[i])
    ensures forall o :: o in visited <==> Reached(g, Roots(rs), o)
    ensures WellFormed(g, rs, room) && Cost(g, order) == units
  {
    hide Segment, Entered, KindOk, CountsOk, Cost;
    forall p | FromRoot(g, rs, p) ensures KindOk(g[p[|p| - 1]], |p| > 1) && CountsOk(g[p[|p| - 1]], room) {
      WalkCoversPath(g, room, rs, order, units, p);
    }
    hide WellFormed, FromRoot, IsPath;
    forall o ensures o in visited <==> Reached(g, Roots(rs), o) {
      if Reached(g, Roots(rs), o) {
        ReachedIsCovered(g, room, rs, order, units, o);
      }
    }
    SegmentCost(g, room, order, units);
  }

  lemma ReachedIsCovered(g: Graph, room: nat, rs: seq<Option<Offset>>, order: seq<Offset>, units: int, o: Offset)
    requires Segment(g, room, [], order, units) && Entered(g, order, rs, false) && Reached(g, Roots(rs), o)
    ensures o in order
  {
    hide Segment, Entered, KindOk, CountsOk;
    var a :| a in Roots(rs) && Reach(g, a, o);
    var p :| IsPath(g, p) && p[0] == a && p[|p| - 1] == o;
    WalkCoversPath(g, room, rs, order, units, p);
  }

  lemma SegmentCost(g: Graph, room: nat, order: seq<Offset>, units: int)
    requires Segment(g, room, [], order, units)
    ensures Cost(g, order) == units
  {
    assert order[0..] == order;
  }

  lemma Rejected(g: Graph, room: nat, rs: seq<Option<Offset>>, order: seq<Offset>, e: PreflightError, p: seq<Offset>)
    requires ReachableList(g, rs, order)
    requires p != [] ==> Reason(g, e, p, 0, room) && p[0] in Roots(rs)
    requires p == [] ==> (e == CountTooLong && |rs| > room) || e == OverBudget
    requires e == OverBudget ==> Overspent(g, [], order, TypeUnitAllowance(room) - |rs|)
    ensures !(WellFormed(g, rs, room) && Shallow(g, rs) && |rs| <= room && Affordable(g, rs, TypeUnitAllowance(room)))
  {
    if e == OverBudget {
      assert order[0..] == order;
      assert ReachableList(g, rs, order);
    } else if p != [] {
      assert FromRoot(g, rs, p);
    }
  }
}

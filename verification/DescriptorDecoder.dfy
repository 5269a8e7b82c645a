/** Decoding a table graph to descriptors: the plain recursion, and the offset-keyed cache over it. */
module DescriptorDecoder {
  import opened Wrappers
  import opened Descriptors
  import opened TableGraph
  import FP = FirstPaths

  datatype DecodeError = DepthExceeded | CorruptCount | NegativeKind

  datatype Result<+T> = Ok(value: T) | Err(error: DecodeError) {
    predicate IsFailure() { Err? }
    function PropagateFailure<U>(): Result<U>
      requires Err?
    {
      Err(error)
    }
    function Extract(): T
      requires Ok?
    {
      value
    }
  }

  // ---------- the plain recursion ----------

  /** Decodes table o without a cache. `room` is the payload length that bounds every list. */
  function Decode(g: Graph, o: Offset, depth: nat, room: nat): Result<Desc>
    requires Closed(g) && o in g
    decreases Levels(depth), 0
  {
    if depth > MAX_TYPE_DEPTH then Err(DepthExceeded)
    else if g[o].kind < 0 then Err(NegativeKind)
    else
      var c := g[o];
      var elem :- DecodeOpt(g, c.elem, depth + 1, room);
      var key :- DecodeOpt(g, c.key, depth + 1, room);
      var value :- DecodeOpt(g, c.value, depth + 1, room);
      var fields :- DecodeFields(g, c.fields, depth + 1, room);
      var params :- DecodeList(g, c.params, depth + 1, room);
      var results :- DecodeList(g, c.results, depth + 1, room);
      Ok(Desc(c.kind, c.attrs, elem, key, value, fields, params, results))
  }

  function DecodeOpt(g: Graph, r: Option<Offset>, depth: nat, room: nat): Result<Option<Desc>>
    requires Closed(g) && (r.Some? ==> r.value in g)
    decreases Levels(depth), 1
  {
    if r.None? then Ok(None)
    else
      var d :- Decode(g, r.value, depth, room);
      Ok(Some(d))
  }

  function DecodeSlot(g: Graph, r: Option<Offset>, depth: nat, room: nat): Result<Desc>
    requires Closed(g) && (r.Some? ==> r.value in g)
    decreases Levels(depth), 1
  {
    if r.None? then Ok(ZERO_DESC) else Decode(g, r.value, depth, room)
  }

  ghost predicate SlotsIn(g: Graph, ss: seq<Slot>) {
    forall i :: 0 <= i < |ss| && ss[i].typ.Some? ==> ss[i].typ.value in g
  }

  function DecodeList(g: Graph, rs: seq<Option<Offset>>, depth: nat, room: nat): Result<seq<Desc>>
    requires Closed(g) && RefsIn(g, rs)
    decreases Levels(depth), 3
  {
    if |rs| > room then Err(CorruptCount) else DecodeItems(g, rs, depth, room)
  }

  function DecodeItems(g: Graph, rs: seq<Option<Offset>>, depth: nat, room: nat): Result<seq<Desc>>
    requires Closed(g) && RefsIn(g, rs)
    decreases Levels(depth), 2, |rs|
  {
    if rs == [] then Ok([])
    else
      var front :- DecodeItems(g, rs[..|rs| - 1], depth, room);
      var last :- DecodeSlot(g, rs[|rs| - 1], depth, room);
      Ok(front + [last])
  }

  function DecodeFields(g: Graph, ss: seq<Slot>, depth: nat, room: nat): Result<seq<Field>>
    requires Closed(g) && SlotsIn(g, ss)
    decreases Levels(depth), 3
  {
    if |ss| > room then Err(CorruptCount) else DecodeFieldItems(g, ss, depth, room)
  }

  function DecodeFieldItems(g: Graph, ss: seq<Slot>, depth: nat, room: nat): Result<seq<Field>>
    requires Closed(g) && SlotsIn(g, ss)
    decreases Levels(depth), 2, |ss|
  {
    if ss == [] then Ok([])
    else
      var front :- DecodeFieldItems(g, ss[..|ss| - 1], depth, room);
      var last :- DecodeSlot(g, ss[|ss| - 1].typ, depth, room);
      Ok(front + [Field(ss[|ss| - 1].text, last)])
  }

  lemma {:induction false} ItemsPointwise(g: Graph, rs: seq<Option<Offset>>, depth: nat, room: nat)
    requires Closed(g) && RefsIn(g, rs)
    ensures DecodeItems(g, rs, depth, room).Ok?
       <==> forall i :: 0 <= i < |rs| ==> DecodeSlot(g, rs[i], depth, room).Ok?
    ensures DecodeItems(g, rs, depth, room).Ok? ==>
      var ds := DecodeItems(g, rs, depth, room).value;
      |ds| == |rs| && forall i :: 0 <= i < |rs| ==> ds[i] == DecodeSlot(g, rs[i], depth, room).value
    decreases |rs|
  {
    hide DecodeSlot;
    if rs != [] {
      var n := |rs| - 1;
      ItemsPointwise(g, rs[..n], depth, room);
      assert forall i :: 0 <= i < n ==> rs[..n][i] == rs[i];
      assert (forall i :: 0 <= i < |rs| ==> DecodeSlot(g, rs[i], depth, room).Ok?) ==>
        (forall i :: 0 <= i < n ==> DecodeSlot(g, rs[..n][i], depth, room).Ok?) && DecodeSlot(g, rs[n], depth, room).Ok?;
    }
  }

  lemma {:induction false} FieldItemsPointwise(g: Graph, ss: seq<Slot>, depth: nat, room: nat)
    requires Closed(g) && SlotsIn(g, ss)
    ensures DecodeFieldItems(g, ss, depth, room).Ok?
       <==> forall i :: 0 <= i < |ss| ==> DecodeSlot(g, ss[i].typ, depth, room).Ok?
    ensures DecodeFieldItems(g, ss, depth, room).Ok? ==>
      var fs := DecodeFieldItems(g, ss, depth, room).value;
      |fs| == |ss| && forall i :: 0 <= i < |ss| ==> fs[i] == Field(ss[i].text, DecodeSlot(g, ss[i].typ, depth, room).value)
    decreases |ss|
  {
    hide DecodeSlot;
    if ss != [] {
      var n := |ss| - 1;
      FieldItemsPointwise(g, ss[..n], depth, room);
      assert forall i :: 0 <= i < n ==> ss[..n][i] == ss[i];
      assert (forall i :: 0 <= i < |ss| ==> DecodeSlot(g, ss[i].typ, depth, room).Ok?) ==>
        (forall i :: 0 <= i < n ==> DecodeSlot(g, ss[..n][i].typ, depth, room).Ok?) && DecodeSlot(g, ss[n].typ, depth, room).Ok?;
    }
  }

  // ---------- soundness: a decoded value is the unfolding ----------

  lemma {:induction false} DecodeSound(g: Graph, o: Offset, depth: nat, room: nat)
    requires Closed(g) && o in g
    requires Decode(g, o, depth, room).Ok?
    ensures Unfolds(g, o, Decode(g, o, depth, room).value)
    decreases Levels(depth), 0
  {
    var c, d := g[o], Decode(g, o, depth, room).value;
    OptSound(g, c.elem, depth + 1, room);
    OptSound(g, c.key, depth + 1, room);
    OptSound(g, c.value, depth + 1, room);
    FieldItemsPointwise(g, c.fields, depth + 1, room);
    forall i | 0 <= i < |c.fields| ensures UnfoldsField(g, c.fields[i], d.fields[i]) {
      SlotSound(g, c.fields[i].typ, depth + 1, room);
    }
    ListSound(g, c.params, depth + 1, room);
    ListSound(g, c.results, depth + 1, room);
  }

  lemma {:induction false} OptSound(g: Graph, r: Option<Offset>, depth: nat, room: nat)
    requires Closed(g) && (r.Some? ==> r.value in g)
    requires DecodeOpt(g, r, depth, room).Ok?
    ensures UnfoldsOpt(g, r, DecodeOpt(g, r, depth, room).value)
    decreases Levels(depth), 1
  {
    if r.Some? {
      DecodeSound(g, r.value, depth, room);
    }
  }

  lemma {:induction false} SlotSound(g: Graph, r: Option<Offset>, depth: nat, room: nat)
    requires Closed(g) && (r.Some? ==> r.value in g)
    requires DecodeSlot(g, r, depth, room).Ok?
    ensures UnfoldsSlot(g, r, DecodeSlot(g, r, depth, room).value)
    decreases Levels(depth), 1
  {
    if r.Some? {
      DecodeSound(g, r.value, depth, room);
    }
  }

  lemma {:induction false} ListSound(g: Graph, rs: seq<Option<Offset>>, depth: nat, room: nat)
    requires Closed(g) && RefsIn(g, rs)
    requires DecodeItems(g, rs, depth, room).Ok?
    ensures UnfoldsList(g, rs, DecodeItems(g, rs, depth, room).value)
    decreases Levels(depth), 2
  {
    ItemsPointwise(g, rs, depth, room);
    forall i | 0 <= i < |rs| ensures UnfoldsSlot(g, rs[i], DecodeItems(g, rs, depth, room).value[i]) {
      SlotSound(g, rs[i], depth, room);
    }
  }

  // ---------- what plain decoding accepts, exactly ----------

  /** The checks that decoding applies to one table. */
  predicate CellOk(c: Cell, room: nat) {
    c.kind >= 0 && |c.fields| <= room && |c.params| <= room && |c.results| <= room
  }

  /** The last table of the path passes its checks and is not too deep. */
  ghost predicate PathOk(g: Graph, p: seq<Offset>, depth: nat, room: nat)
    requires IsPath(g, p)
  {
    depth + |p| - 1 <= MAX_TYPE_DEPTH && CellOk(g[p[|p| - 1]], room)
  }

  ghost predicate PathsOk(g: Graph, o: Offset, depth: nat, room: nat) {
    forall p :: IsPath(g, p) && p[0] == o ==> PathOk(g, p, depth, room)
  }

  /** Of a table that decodes, every part decodes. */
  lemma DecodeParts(g: Graph, o: Offset, depth: nat, room: nat)
    requires Closed(g) && o in g && Decode(g, o, depth, room).Ok?
    ensures var c := g[o];
      && CellOk(c, room) && DecodeOpt(g, c.elem, depth + 1, room).Ok? && DecodeOpt(g, c.key, depth + 1, room).Ok? && DecodeOpt(g, c.value, depth + 1, room).Ok?
      && DecodeFieldItems(g, c.fields, depth + 1, room).Ok?
      && DecodeItems(g, c.params, depth + 1, room).Ok? && DecodeItems(g, c.results, depth + 1, room).Ok?
  {
    hide DecodeOpt, DecodeItems, DecodeFieldItems;
  }

  lemma PointerDecodes(g: Graph, next: Offset, depth: nat, room: nat)
    requires Closed(g) && next in g && DecodeOpt(g, Some(next), depth, room).Ok?
    ensures Decode(g, next, depth, room).Ok?
  {
    hide Decode;
  }

  lemma FieldDecodes(g: Graph, ss: seq<Slot>, i: nat, next: Offset, depth: nat, room: nat)
    requires Closed(g) && SlotsIn(g, ss) && DecodeFieldItems(g, ss, depth, room).Ok? && i < |ss| && ss[i].typ == Some(next)
    ensures next in g && Decode(g, next, depth, room).Ok?
  {
    hide Decode, DecodeFieldItems;
    FieldItemsPointwise(g, ss, depth, room);
    assert DecodeSlot(g, ss[i].typ, depth, room).Ok?;
  }

  lemma ItemDecodes(g: Graph, rs: seq<Option<Offset>>, next: Offset, depth: nat, room: nat)
    requires Closed(g) && RefsIn(g, rs) && DecodeItems(g, rs, depth, room).Ok? && Some(next) in rs
    ensures next in g && Decode(g, next, depth, room).Ok?
  {
    hide Decode, DecodeItems;
    ItemsPointwise(g, rs, depth, room);
    var i :| 0 <= i < |rs| && rs[i] == Some(next);
    assert DecodeSlot(g, rs[i], depth, room).Ok?;
  }

  lemma ChildDecodes(g: Graph, o: Offset, next: Offset, depth: nat, room: nat)
    requires Closed(g) && o in g && Decode(g, o, depth, room).Ok? && Refers(g[o], next)
    ensures next in g && Decode(g, next, depth + 1, room).Ok?
  {
    hide Decode, DecodeOpt, DecodeItems, DecodeFieldItems, CellOk;
    var c := g[o];
    DecodeParts(g, o, depth, room);
    if c.elem == Some(next) || c.key == Some(next) || c.value == Some(next) {
      PointerDecodes(g, next, depth + 1, room);
    } else if i: nat :| i < |c.fields| && c.fields[i].typ == Some(next) {
      FieldDecodes(g, c.fields, i, next, depth + 1, room);
    } else if Some(next) in c.params {
      ItemDecodes(g, c.params, next, depth + 1, room);
    } else {
      ItemDecodes(g, c.results, next, depth + 1, room);
    }
  }

  lemma ChildrenDecode(g: Graph, o: Offset, depth: nat, room: nat)
    requires Closed(g) && o in g && depth <= MAX_TYPE_DEPTH && CellOk(g[o], room)
    requires forall next: Offset :: Refers(g[o], next) ==> Decode(g, next, depth + 1, room).Ok?
    ensures Decode(g, o, depth, room).Ok?
  {
    var c := g[o];
    FieldItemsPointwise(g, c.fields, depth + 1, room);
    ItemsPointwise(g, c.params, depth + 1, room);
    ItemsPointwise(g, c.results, depth + 1, room);
    forall i | 0 <= i < |c.fields| ensures DecodeSlot(g, c.fields[i].typ, depth + 1, room).Ok? {
      if c.fields[i].typ.Some? { assert Refers(c, c.fields[i].typ.value); }
    }
    forall i | 0 <= i < |c.params| ensures DecodeSlot(g, c.params[i], depth + 1, room).Ok? {
      if c.params[i].Some? { assert Refers(c, c.params[i].value); }
    }
    forall i | 0 <= i < |c.results| ensures DecodeSlot(g, c.results[i], depth + 1, room).Ok? {
      if c.results[i].Some? { assert Refers(c, c.results[i].value); }
    }
    assert c.elem.Some? ==> Refers(c, c.elem.value);
    assert c.key.Some? ==> Refers(c, c.key.value);
    assert c.value.Some? ==> Refers(c, c.value.value);
  }

  lemma {:induction false} DecodedPathOk(g: Graph, p: seq<Offset>, depth: nat, room: nat)
    requires Closed(g) && IsPath(g, p) && Decode(g, p[0], depth, room).Ok?
    ensures PathOk(g, p, depth, room)
    decreases |p|
  {
    if |p| > 1 {
      assert Refers(g[p[0]], p[1]);
      ChildDecodes(g, p[0], p[1], depth, room);
      TailPath(g, p);
      DecodedPathOk(g, p[1..], depth + 1, room);
    }
  }

  lemma TailPath(g: Graph, p: seq<Offset>)
    requires IsPath(g, p) && |p| > 1
    ensures IsPath(g, p[1..])
  {
    var q := p[1..];
    forall i | 0 <= i < |q| - 1 ensures Refers(g[q[i]], q[i + 1]) {
      assert Refers(g[p[i + 1]], p[i + 2]);
    }
  }

  lemma {:induction false} OkPathsDecode(g: Graph, o: Offset, depth: nat, room: nat)
    requires Closed(g) && o in g && PathsOk(g, o, depth, room)
    ensures Decode(g, o, depth, room).Ok?
    decreases Levels(depth)
  {
    assert IsPath(g, [o]);
    assert PathOk(g, [o], depth, room);
    forall next: Offset | Refers(g[o], next) ensures Decode(g, next, depth + 1, room).Ok? {
      forall p | IsPath(g, p) && p[0] == next ensures PathOk(g, p, depth + 1, room) {
        ConsPath(g, o, p);
        assert PathOk(g, [o] + p, depth, room);
      }
      OkPathsDecode(g, next, depth + 1, room);
    }
    ChildrenDecode(g, o, depth, room);
  }

  /** Plain decoding succeeds exactly when every path of tables is short and passes its checks. */
  lemma DecodeExact(g: Graph, o: Offset, depth: nat, room: nat)
    requires Closed(g) && o in g
    ensures Decode(g, o, depth, room).Ok? <==> PathsOk(g, o, depth, room)
    ensures Decode(g, o, depth, room).Ok? ==> Unfolds(g, o, Decode(g, o, depth, room).value)
  {
    if Decode(g, o, depth, room).Ok? {
      DecodeSound(g, o, depth, room);
      forall p | IsPath(g, p) && p[0] == o ensures PathOk(g, p, depth, room) {
        DecodedPathOk(g, p, depth, room);
      }
    }
    if PathsOk(g, o, depth, room) {
      OkPathsDecode(g, o, depth, room);
    }
  }

  // ---------- the cache ----------

  /** Every table reachable from o passes the checks on its own fields. */
  ghost predicate Clean(g: Graph, o: Offset, room: nat) {
    forall p :: IsPath(g, p) && p[0] == o ==> CellOk(g[p[|p| - 1]], room)
  }

  lemma CleanParent(g: Graph, o: Offset, room: nat)
    requires Closed(g) && o in g && CellOk(g[o], room)
    requires forall next: Offset :: Refers(g[o], next) ==> Clean(g, next, room)
    ensures Clean(g, o, room)
  {
    forall p | IsPath(g, p) && p[0] == o ensures CellOk(g[p[|p| - 1]], room) {
      if |p| > 1 {
        assert Refers(g[p[0]], p[1]);
        TailPath(g, p);
        assert Clean(g, p[1], room);
        assert p[1..][|p| - 2] == p[|p| - 1];
      }
    }
  }

  /** A cached entry is the full unfolding of its table. */
  ghost predicate Remembered(g: Graph, room: nat, o: Offset, d: Desc) {
    Unfolds(g, o, d) && Clean(g, o, room)
  }

  ghost predicate CacheOk(g: Graph, room: nat, data: map<Offset, Desc>) {
    forall o :: o in data ==> Remembered(g, room, o, data[o])
  }

  // ---------- what the cache accepts ----------

  /** What decoding with a cache refuses: anything at level 257, cached or not, and a table that fails its own checks. */
  ghost function LoadRule(g: Graph, room: nat): FP.Rule {
    FP.Rule(257, set o | o in g && !CellOk(g[o], room), true)
  }

  /** Decoding went through exactly if the visit did, and then the cache holds what the visit met. */
  ghost predicate Met(ok: bool, data: map<Offset, Desc>, v: Option<set<Offset>>) {
    ok == v.Some? && (ok ==> data.Keys == v.value)
  }

  /** Why decoding failed: the path leads to a table that is too deep, has a negative kind, or a list that is too long. */
  ghost predicate Explains(g: Graph, e: DecodeError, p: seq<Offset>, depth: nat, room: nat) {
    IsPath(g, p) &&
    var c := g[p[|p| - 1]];
    match e
    case DepthExceeded => depth + |p| - 1 > 256
    case NegativeKind => c.kind < 0
    case CorruptCount => |c.fields| > room || |c.params| > room || |c.results| > room
  }

  ghost predicate Explained(g: Graph, e: DecodeError, o: Offset, depth: nat, room: nat) {
    exists p :: Explains(g, e, p, depth, room) && p[0] == o
  }

  lemma ExplainedHere(g: Graph, e: DecodeError, o: Offset, depth: nat, room: nat)
    requires o in g && Explains(g, e, [o], depth, room)
    ensures Explained(g, e, o, depth, room)
  {
    assert [o][0] == o;
  }

  lemma ExplainedUp(g: Graph, e: DecodeError, o: Offset, next: Offset, depth: nat, room: nat)
    requires o in g && Refers(g[o], next) && Explained(g, e, next, depth + 1, room)
    ensures Explained(g, e, o, depth, room)
  {
    var p :| Explains(g, e, p, depth + 1, room) && p[0] == next;
    ConsPath(g, o, p);
    var q := [o] + p;
    assert q[|q| - 1] == p[|p| - 1] && q[0] == o;
    assert Explains(g, e, q, depth, room);
  }

  lemma {:induction false} ItemsStop(rule: FP.Rule, g: Graph, rs: seq<Option<Offset>>, k: nat, depth: nat, seen: set<Offset>)
    requires k <= |rs| && FP.VisitAll(rule, g, FP.OfItems(rs[..k]), depth, seen).None?
    ensures FP.VisitAll(rule, g, FP.OfItems(rs), depth, seen).None?
    decreases |rs|
  {
    hide FP.VisitAll;
    if k == |rs| {
      assert rs[..k] == rs;
    } else {
      var n := |rs| - 1;
      assert rs[..n][..k] == rs[..k];
      ItemsStop(rule, g, rs[..n], k, depth, seen);
      FP.VisitConcat(rule, g, FP.OfItems(rs[..n]), FP.OfOption(rs[n]), depth, seen);
    }
  }

  /** The items before k went through; then so much for k. */
  lemma ItemsOn(rule: FP.Rule, g: Graph, rs: seq<Option<Offset>>, k: nat, depth: nat, seen: set<Offset>, now: set<Offset>)
    requires k < |rs| && FP.VisitAll(rule, g, FP.OfItems(rs[..k]), depth, seen) == Some(now)
    ensures FP.VisitAll(rule, g, FP.OfItems(rs[..k + 1]), depth, seen) == FP.VisitAll(rule, g, FP.OfOption(rs[k]), depth, now)
  {
    hide FP.VisitAll, FP.Visit;
    assert rs[..k + 1][..k] == rs[..k];
    FP.VisitConcat(rule, g, FP.OfItems(rs[..k]), FP.OfOption(rs[k]), depth, seen);
  }

  /** The types of fields, as a list. */
  function Types(ss: seq<Slot>): (r: seq<Option<Offset>>)
    ensures |r| == |ss| && forall i :: 0 <= i < |ss| ==> r[i] == ss[i].typ
  {
    seq(|ss|, i requires 0 <= i < |ss| => ss[i].typ)
  }

  lemma {:induction false} TypesAre(ss: seq<Slot>)
    ensures FP.OfSlots(ss) == FP.OfItems(Types(ss))
    decreases |ss|
  {
    if ss != [] {
      var n := |ss| - 1;
      TypesAre(ss[..n]);
      assert Types(ss)[..n] == Types(ss[..n]);
    }
  }

  /** What plain decoding accepts, the cached decoder accepts with the same value. */
  ghost predicate Refines<T(!new)>(plain: Result<T>, r: Result<T>) {
    plain.Ok? ==> r == plain
  }

  lemma UnfoldingRefines(g: Graph, o: Offset, depth: nat, room: nat, d: Desc)
    requires Closed(g) && o in g && Unfolds(g, o, d)
    ensures Refines(Decode(g, o, depth, room), Ok(d))
  {
    if Decode(g, o, depth, room).Ok? {
      DecodeSound(g, o, depth, room);
      UnfoldsUnique(g, o, d, Decode(g, o, depth, room).value);
    }
  }

  ghost predicate OptRemembered(g: Graph, room: nat, r: Option<Offset>, o: Option<Desc>) {
    UnfoldsOpt(g, r, o) && (r.Some? ==> Clean(g, r.value, room))
  }

  ghost predicate ListRemembered(g: Graph, room: nat, rs: seq<Option<Offset>>, ds: seq<Desc>) {
    UnfoldsList(g, rs, ds) && forall i :: 0 <= i < |rs| && rs[i].Some? ==> Clean(g, rs[i].value, room)
  }

  ghost predicate FieldsRemembered(g: Graph, room: nat, ss: seq<Slot>, fs: seq<Field>) {
    UnfoldsFields(g, ss, fs) && forall i :: 0 <= i < |ss| && ss[i].typ.Some? ==> Clean(g, ss[i].typ.value, room)
  }

  lemma CellRemembered(g: Graph, o: Offset, room: nat, d: Desc)
    requires Closed(g) && o in g && CellOk(g[o], room)
    requires d.kind == g[o].kind && d.attrs == g[o].attrs
    requires OptRemembered(g, room, g[o].elem, d.elem)
    requires OptRemembered(g, room, g[o].key, d.key)
    requires OptRemembered(g, room, g[o].value, d.value)
    requires FieldsRemembered(g, room, g[o].fields, d.fields)
    requires ListRemembered(g, room, g[o].params, d.params)
    requires ListRemembered(g, room, g[o].results, d.results)
    ensures Remembered(g, room, o, d)
  {
    forall next: Offset | Refers(g[o], next) ensures Clean(g, next, room) {
      var c := g[o];
      if Some(next) in c.params {
        var i :| 0 <= i < |c.params| && c.params[i] == Some(next);
      } else if Some(next) in c.results {
        var i :| 0 <= i < |c.results| && c.results[i] == Some(next);
      }
    }
    CleanParent(g, o, room);
  }

  lemma ItemFails(g: Graph, rs: seq<Option<Offset>>, i: nat, depth: nat, room: nat)
    requires Closed(g) && RefsIn(g, rs) && i < |rs| && DecodeSlot(g, rs[i], depth, room).Err?
    ensures DecodeItems(g, rs, depth, room).Err?
  {
    ItemsPointwise(g, rs, depth, room);
  }

  lemma FieldItemFails(g: Graph, ss: seq<Slot>, i: nat, depth: nat, room: nat)
    requires Closed(g) && SlotsIn(g, ss) && i < |ss| && DecodeSlot(g, ss[i].typ, depth, room).Err?
    ensures DecodeFieldItems(g, ss, depth, room).Err?
  {
    FieldItemsPointwise(g, ss, depth, room);
  }

  /** What filling one list slot achieved. */
  ghost predicate SlotDone(g: Graph, r: Option<Offset>, depth: nat, room: nat, d: Desc)
    requires Closed(g) && (r.Some? ==> r.value in g)
  {
    UnfoldsSlot(g, r, d) && (r.Some? ==> Clean(g, r.value, room)) && Refines(DecodeSlot(g, r, depth, room), Ok(d))
  }

  lemma ItemsRefine(g: Graph, rs: seq<Option<Offset>>, depth: nat, room: nat, ds: seq<Desc>)
    requires Closed(g) && RefsIn(g, rs) && |ds| == |rs|
    requires forall i :: 0 <= i < |rs| ==> SlotDone(g, rs[i], depth, room, ds[i])
    ensures Refines(DecodeItems(g, rs, depth, room), Ok(ds)) && ListRemembered(g, room, rs, ds)
  {
    ItemsPointwise(g, rs, depth, room);
    if DecodeItems(g, rs, depth, room).Ok? {
      assert forall i :: 0 <= i < |rs| ==> DecodeItems(g, rs, depth, room).value[i] == ds[i];
      assert DecodeItems(g, rs, depth, room).value == ds;
    }
  }

  lemma FieldItemsRefine(g: Graph, ss: seq<Slot>, depth: nat, room: nat, fs: seq<Field>)
    requires Closed(g) && SlotsIn(g, ss) && |fs| == |ss|
    requires forall i :: 0 <= i < |ss| ==> fs[i].text == ss[i].text
    requires forall i :: 0 <= i < |ss| ==> SlotDone(g, ss[i].typ, depth, room, fs[i].typ)
    ensures Refines(DecodeFieldItems(g, ss, depth, room), Ok(fs)) && FieldsRemembered(g, room, ss, fs)
  {
    FieldItemsPointwise(g, ss, depth, room);
    if DecodeFieldItems(g, ss, depth, room).Ok? {
      assert forall i :: 0 <= i < |ss| ==> DecodeFieldItems(g, ss, depth, room).value[i] == fs[i];
      assert DecodeFieldItems(g, ss, depth, room).value == fs;
    }
    forall i | 0 <= i < |ss| ensures UnfoldsField(g, ss[i], fs[i]) {
      assert SlotDone(g, ss[i].typ, depth, room, fs[i].typ);
    }
  }

  /** A list fails because it is too long, or because one of its tables does. */
  ghost predicate ListExplained(g: Graph, e: DecodeError, rs: seq<Option<Offset>>, depth: nat, room: nat) {
    (|rs| > room && e == CorruptCount) || exists i :: 0 <= i < |rs| && rs[i].Some? && Explained(g, e, rs[i].value, depth, room)
  }

  lemma ListExplainedUp(g: Graph, e: DecodeError, o: Offset, rs: seq<Option<Offset>>, depth: nat, room: nat)
    requires o in g && ListExplained(g, e, rs, depth + 1, room) && (rs == g[o].params || rs == g[o].results || rs == Types(g[o].fields))
    ensures Explained(g, e, o, depth, room)
  {
    hide Explained;
    if |rs| > room && e == CorruptCount {
      ExplainedHere(g, e, o, depth, room);
    } else {
      var i :| 0 <= i < |rs| && rs[i].Some? && Explained(g, e, rs[i].value, depth + 1, room);
      assert rs[i] in rs;
      assert Refers(g[o], rs[i].value);
      ExplainedUp(g, e, o, rs[i].value, depth, room);
    }
  }

  /** The visit of a table's lists. */
  ghost function ListsVisited(g: Graph, c: Cell, depth: nat, room: nat, seen: set<Offset>): Option<set<Offset>> {
    var rule := LoadRule(g, room);
    var fs := FP.VisitAll(rule, g, FP.OfItems(Types(c.fields)), depth, seen);
    var qs := if fs.None? then None else FP.VisitAll(rule, g, FP.OfItems(c.params), depth, fs.value);
    if qs.None? then None else FP.VisitAll(rule, g, FP.OfItems(c.results), depth, qs.value)
  }

  /** What decoding a table's children went through, put together. */
  lemma TableMet(g: Graph, o: Offset, depth: nat, room: nat, seen: set<Offset>)
    requires o in g && depth <= 256 && o !in seen
    ensures var rule, c, d := LoadRule(g, room), g[o], depth + 1;
      var v := FP.Visit(rule, g, o, depth, seen);
      var ps := FP.VisitAll(rule, g, FP.Pointers(c), d, seen);
      var rs := if ps.None? then None else ListsVisited(g, c, d, room, ps.value);
      v == if !CellOk(c, room) || rs.None? then None else Some(rs.value + {o})
  {
    hide FP.VisitAll, FP.OfItems, FP.OfSlots, FP.Pointers;
    var rule, c, d := LoadRule(g, room), g[o], depth + 1;
    TypesAre(c.fields);
    FP.VisitConcat(rule, g, FP.Pointers(c) + FP.OfSlots(c.fields) + FP.OfItems(c.params), FP.OfItems(c.results), d, seen);
    FP.VisitConcat(rule, g, FP.Pointers(c) + FP.OfSlots(c.fields), FP.OfItems(c.params), d, seen);
    FP.VisitConcat(rule, g, FP.Pointers(c), FP.OfSlots(c.fields), d, seen);
  }

  lemma PointersMet(g: Graph, c: Cell, depth: nat, room: nat, seen: set<Offset>)
    ensures var rule := LoadRule(g, room);
      var e := FP.VisitAll(rule, g, FP.OfOption(c.elem), depth, seen);
      var k := if e.None? then None else FP.VisitAll(rule, g, FP.OfOption(c.key), depth, e.value);
      FP.VisitAll(rule, g, FP.Pointers(c), depth, seen) == if k.None? then None else FP.VisitAll(rule, g, FP.OfOption(c.value), depth, k.value)
  {
    hide FP.VisitAll, FP.OfOption;
    var rule := LoadRule(g, room);
    FP.VisitConcat(rule, g, FP.OfOption(c.elem) + FP.OfOption(c.key), FP.OfOption(c.value), depth, seen);
    FP.VisitConcat(rule, g, FP.OfOption(c.elem), FP.OfOption(c.key), depth, seen);
  }

  lemma NoItems(rule: FP.Rule, g: Graph, depth: nat, seen: set<Offset>)
    ensures FP.VisitAll(rule, g, FP.OfItems([]), depth, seen) == Some(seen)
  {
  }

  /** The first slots of a list are filled. */
  ghost predicate SlotsDone(g: Graph, rs: seq<Option<Offset>>, depth: nat, room: nat, ds: seq<Desc>)
    requires Closed(g) && RefsIn(g, rs)
  {
    |ds| <= |rs| && forall j :: 0 <= j < |ds| ==> SlotDone(g, rs[j], depth, room, ds[j])
  }

  lemma NoneDone(g: Graph, rs: seq<Option<Offset>>, depth: nat, room: nat)
    requires Closed(g) && RefsIn(g, rs)
    ensures SlotsDone(g, rs, depth, room, [])
  {
  }

  lemma OneMoreDone(g: Graph, rs: seq<Option<Offset>>, depth: nat, room: nat, ds: seq<Desc>, d: Desc)
    requires Closed(g) && RefsIn(g, rs) && SlotsDone(g, rs, depth, room, ds) && |ds| < |rs| && SlotDone(g, rs[|ds|], depth, room, d)
    ensures SlotsDone(g, rs, depth, room, ds + [d])
  {
    hide SlotDone;
  }

  lemma ListDone(g: Graph, rs: seq<Option<Offset>>, depth: nat, room: nat, ds: seq<Desc>)
    requires Closed(g) && RefsIn(g, rs) && SlotsDone(g, rs, depth, room, ds) && |ds| == |rs| <= room
    ensures Refines(DecodeList(g, rs, depth, room), Ok(ds)) && ListRemembered(g, room, rs, ds)
  {
    hide SlotDone, DecodeItems, ListRemembered;
    ItemsRefine(g, rs, depth, room, ds);
  }

  /** The fields so far: the texts, and the types filled. */
  ghost predicate FieldsDone(g: Graph, ss: seq<Slot>, depth: nat, room: nat, fs: seq<Field>)
    requires Closed(g) && SlotsIn(g, ss)
  {
    |fs| <= |ss| && forall j :: 0 <= j < |fs| ==> fs[j].text == ss[j].text && SlotDone(g, ss[j].typ, depth, room, fs[j].typ)
  }

  lemma NoFieldDone(g: Graph, ss: seq<Slot>, depth: nat, room: nat)
    requires Closed(g) && SlotsIn(g, ss)
    ensures FieldsDone(g, ss, depth, room, [])
  {
  }

  lemma OneFieldDone(g: Graph, ss: seq<Slot>, depth: nat, room: nat, fs: seq<Field>, d: Desc)
    requires Closed(g) && SlotsIn(g, ss) && FieldsDone(g, ss, depth, room, fs) && |fs| < |ss| && SlotDone(g, ss[|fs|].typ, depth, room, d)
    ensures FieldsDone(g, ss, depth, room, fs + [Field(ss[|fs|].text, d)])
  {
    hide SlotDone;
  }

  lemma AllFieldsDone(g: Graph, ss: seq<Slot>, depth: nat, room: nat, fs: seq<Field>)
    requires Closed(g) && SlotsIn(g, ss) && FieldsDone(g, ss, depth, room, fs) && |fs| == |ss| <= room
    ensures Refines(DecodeFields(g, ss, depth, room), Ok(fs)) && FieldsRemembered(g, room, ss, fs)
  {
    hide SlotDone, DecodeFieldItems, FieldsRemembered;
    FieldItemsRefine(g, ss, depth, room, fs);
  }

  lemma ListFails(g: Graph, rs: seq<Option<Offset>>, i: nat, depth: nat, room: nat, e: DecodeError, seen: set<Offset>)
    requires Closed(g) && RefsIn(g, rs) && i < |rs| && DecodeSlot(g, rs[i], depth, room).Err? && rs[i].Some? && Explained(g, e, rs[i].value, depth, room)
    requires FP.VisitAll(LoadRule(g, room), g, FP.OfItems(rs[..i + 1]), depth, seen).None?
    ensures DecodeList(g, rs, depth, room).Err? && ListExplained(g, e, rs, depth, room)
    ensures FP.VisitAll(LoadRule(g, room), g, FP.OfItems(rs), depth, seen).None?
  {
    hide DecodeSlot, DecodeItems, Explained, FP.VisitAll, LoadRule;
    ItemFails(g, rs, i, depth, room);
    ItemsStop(LoadRule(g, room), g, rs, i + 1, depth, seen);
  }

  lemma FieldsFail(g: Graph, ss: seq<Slot>, i: nat, depth: nat, room: nat, e: DecodeError, seen: set<Offset>)
    requires Closed(g) && SlotsIn(g, ss) && i < |ss| && DecodeSlot(g, ss[i].typ, depth, room).Err? && ss[i].typ.Some? && Explained(g, e, ss[i].typ.value, depth, room)
    requires FP.VisitAll(LoadRule(g, room), g, FP.OfItems(Types(ss)[..i + 1]), depth, seen).None?
    ensures DecodeFields(g, ss, depth, room).Err? && ListExplained(g, e, Types(ss), depth, room)
    ensures FP.VisitAll(LoadRule(g, room), g, FP.OfItems(Types(ss)), depth, seen).None?
  {
    hide DecodeSlot, DecodeFieldItems, Explained, FP.VisitAll, LoadRule;
    FieldItemFails(g, ss, i, depth, room);
    ItemsStop(LoadRule(g, room), g, Types(ss), i + 1, depth, seen);
    assert Types(ss)[i].Some?;
  }

  /** What a load accepts, given what is cached: the table and, on the first path to each table not cached, that table, must not be too deep and must pass its own checks; and so must, for its depth, whatever such a table refers to. */
  ghost predicate Accepts(g: Graph, o: Offset, depth: nat, room: nat, cached: set<Offset>) {
    && depth <= 256
    && forall p :: FP.IsFirst(g, p) && p[0] == o && p[|p| - 1] !in cached ==>
         var c := g[p[|p| - 1]];
         && depth + |p| - 1 <= 256 && c.kind >= 0 && |c.fields| <= room && |c.params| <= room && |c.results| <= room
         && forall next: Offset :: Refers(c, next) ==> depth + |p| <= 256
  }

  lemma HasChildren(c: Cell)
    ensures FP.Children(c) != [] <==> exists next: Offset :: Refers(c, next)
  {
    hide FP.Children, Refers;
    var cs := FP.Children(c);
    if cs != [] {
      assert cs[0] in cs;
      FP.ChildrenAre(c, cs[0]);
    }
    if next: Offset :| Refers(c, next) {
      FP.ChildrenAre(c, next);
    }
  }

  lemma ShortIsAccepts(g: Graph, o: Offset, depth: nat, room: nat, cached: set<Offset>)
    ensures FP.Short(LoadRule(g, room), g, o, depth, cached) <==> Accepts(g, o, depth, room, cached)
  {
    hide FP.Children, Refers, FP.FirstStep;
    FP.FirstNotEmpty(g);
    var rule := LoadRule(g, room);
    forall p | FP.IsFirst(g, p) && p[0] == o && p[|p| - 1] !in cached
      ensures FP.Fits(rule, g, depth, p) <==>
        var c := g[p[|p| - 1]];
        && depth + |p| - 1 <= 256 && c.kind >= 0 && |c.fields| <= room && |c.params| <= room && |c.results| <= room
        && forall next: Offset :: Refers(c, next) ==> depth + |p| <= 256
    {
      HasChildren(g[p[|p| - 1]]);
    }
  }

  /** A visit from a cache that is complete. */
  lemma VisitAccepts(g: Graph, o: Offset, depth: nat, room: nat, cached: set<Offset>)
    requires Closed(g) && o in g && FP.Complete(g, cached)
    ensures var v := FP.Visit(LoadRule(g, room), g, o, depth, cached);
      (v.Some? <==> Accepts(g, o, depth, room, cached)) && (v.Some? ==> v.value == cached + FP.Below(g, o) && FP.Complete(g, v.value))
  {
    hide FP.Visit, FP.Short, Accepts, FP.Complete, Closed, FP.Below, LoadRule;
    FP.VisitExact(LoadRule(g, room), g, o, depth, cached);
    ShortIsAccepts(g, o, depth, room, cached);
    FP.CompleteMore(g, cached, o);
  }

  /** One child that fails is enough. */
  lemma ChildFails(g: Graph, o: Offset, depth: nat, room: nat)
    requires Closed(g) && o in g && depth <= MAX_TYPE_DEPTH
    requires DecodeFields(g, g[o].fields, depth + 1, room).Err? || DecodeList(g, g[o].params, depth + 1, room).Err? || DecodeList(g, g[o].results, depth + 1, room).Err?
    ensures Decode(g, o, depth, room).Err?
  {
    hide DecodeFields, DecodeList, DecodeOpt;
  }

  lemma CacheMore(g: Graph, room: nat, before: map<Offset, Desc>, data: map<Offset, Desc>, o: Offset, d: Desc)
    requires CacheOk(g, room, data) && Remembered(g, room, o, d) && Grows(before, data) && o !in before
    ensures CacheOk(g, room, data[o := d]) && Grows(before, data[o := d])
  {
    hide Remembered;
  }

  lemma GrowsOn(a: map<Offset, Desc>, b: map<Offset, Desc>, c: map<Offset, Desc>)
    requires Grows(a, b) && Grows(b, c)
    ensures Grows(a, c)
  {
  }

  lemma GrowsSame(a: map<Offset, Desc>)
    ensures Grows(a, a)
  {
  }

  /** One load's decoded tables, keyed by table offset. */
  class DecodeCache {
    var data: map<Offset, Desc>

    constructor ()
      ensures data == map[]
    {
      data := map[];
    }

    /** Decodes table o, consulting and filling the cache. */
    method DecodeShared(g: Graph, o: Offset, depth: nat, room: nat) returns (r: Result<Desc>)
      requires Closed(g) && o in g && CacheOk(g, room, data)
      modifies this
      ensures CacheOk(g, room, data) && Grows(old(data), data) && (FP.Complete(g, old(data).Keys) ==> FP.Complete(g, data.Keys))
      ensures r.Ok? ==> Remembered(g, room, o, r.value) && o in data && data[o] == r.value
      ensures Refines(Decode(g, o, depth, room), r)
      ensures Met(r.Ok?, data, FP.Visit(LoadRule(g, room), g, o, depth, old(data).Keys))
      ensures FP.Complete(g, old(data).Keys) ==> (r.Ok? <==> Accepts(g, o, depth, room, old(data).Keys)) && (r.Ok? ==> data.Keys == old(data).Keys + FP.Below(g, o))
      ensures r.Err? ==> Explained(g, r.error, o, depth, room)
      decreases Levels(depth), 0
    {
      hide FP.Complete, Clean, Unfolds, UnfoldsOpt, UnfoldsList, UnfoldsFields, DecodeOpt, DecodeItems, DecodeFieldItems,
           OptRemembered, ListRemembered, FieldsRemembered, Explained, ListExplained, FP.VisitAll, Accepts, FP.Below;
      if FP.Complete(g, data.Keys) {
        VisitAccepts(g, o, depth, room, data.Keys);
      }
      if depth > MAX_TYPE_DEPTH {
        ExplainedHere(g, DepthExceeded, o, depth, room);
        return Err(DepthExceeded);
      }
      if o in data {
        UnfoldingRefines(g, o, depth, room, data[o]);
        return Ok(data[o]);
      }
      if g[o].kind < 0 {
        TableMet(g, o, depth, room, data.Keys);
        ExplainedHere(g, NegativeKind, o, depth, room);
        return Err(NegativeKind);
      }
      r := DecodeTable(g, o, depth, room);
    }

    /** Decodes the children of a table that is not in the cache, and remembers it. */
    method DecodeTable(g: Graph, o: Offset, depth: nat, room: nat) returns (r: Result<Desc>)
      requires Closed(g) && o in g && CacheOk(g, room, data) && depth <= MAX_TYPE_DEPTH && o !in data && g[o].kind >= 0
      modifies this
      ensures CacheOk(g, room, data) && Grows(old(data), data) && (FP.Complete(g, old(data).Keys) ==> FP.Complete(g, data.Keys))
      ensures r.Ok? ==> Remembered(g, room, o, r.value) && o in data && data[o] == r.value
      ensures Refines(Decode(g, o, depth, room), r)
      ensures Met(r.Ok?, data, FP.Visit(LoadRule(g, room), g, o, depth, old(data).Keys))
      ensures r.Err? ==> Explained(g, r.error, o, depth, room)
      decreases Levels(depth + 1), 5
    {
      hide FP.Complete, Remembered, Clean, Unfolds, UnfoldsOpt, UnfoldsList, UnfoldsFields, Decode, DecodeList, DecodeFields, OptRemembered, ListRemembered,
           FieldsRemembered, Explained, ListExplained, FP.VisitAll, FP.Visit, LoadRule, CacheOk, Accepts, FP.Below, Grows;
      var c := g[o];
      TableMet(g, o, depth, room, data.Keys);
      var pointers :- DecodeSharedPointers(g, o, depth, room);
      ghost var before := data;
      var lists := DecodeSharedLists(g, o, depth, room);
      GrowsOn(old(data), before, data);
      if lists.Err? {
        return Err(lists.error);
      }
      var d := Desc(c.kind, c.attrs, pointers.0, pointers.1, pointers.2, lists.value.0, lists.value.1, lists.value.2);
      CellRemembered(g, o, room, d);
      UnfoldingRefines(g, o, depth, room, d);
      if FP.Complete(g, old(data).Keys) {
        VisitAccepts(g, o, depth, room, old(data).Keys);
      }
      CacheMore(g, room, old(data), data, o, d);
      assert data[o := d].Keys == data.Keys + {o};
      data := data[o := d];
      return Ok(d);
    }

    /** Decodes the fields, params and results of o in order. */
    method DecodeSharedLists(g: Graph, o: Offset, depth: nat, room: nat) returns (r: Result<(seq<Field>, seq<Desc>, seq<Desc>)>)
      requires Closed(g) && o in g && CacheOk(g, room, data) && depth <= MAX_TYPE_DEPTH
      modifies this
      ensures CacheOk(g, room, data) && Grows(old(data), data) && (FP.Complete(g, old(data).Keys) ==> FP.Complete(g, data.Keys))
      ensures r.Ok? ==> FieldsRemembered(g, room, g[o].fields, r.value.0) && |g[o].fields| <= room
      ensures r.Ok? ==> ListRemembered(g, room, g[o].params, r.value.1) && |g[o].params| <= room
      ensures r.Ok? ==> ListRemembered(g, room, g[o].results, r.value.2) && |g[o].results| <= room
      ensures r.Err? ==> Decode(g, o, depth, room).Err? && Explained(g, r.error, o, depth, room)
      ensures |g[o].fields| <= room && |g[o].params| <= room && |g[o].results| <= room ==> Met(r.Ok?, data, ListsVisited(g, g[o], depth + 1, room, old(data).Keys))
      decreases Levels(depth + 1), 4
    {
      hide FP.Complete, Decode, DecodeList, DecodeFields, ListRemembered, FieldsRemembered, Explained, ListExplained, FP.VisitAll, LoadRule, CacheOk, Grows;
      var c := g[o];
      var fields := DecodeSharedFields(g, c.fields, depth + 1, room);
      ghost var middle := data;
      if fields.Err? {
        ListExplainedUp(g, fields.error, o, Types(c.fields), depth, room);
        ChildFails(g, o, depth, room);
        return Err(fields.error);
      }
      var params := DecodeSharedList(g, c.params, depth + 1, room);
      GrowsOn(old(data), middle, data);
      middle := data;
      if params.Err? {
        ListExplainedUp(g, params.error, o, c.params, depth, room);
        ChildFails(g, o, depth, room);
        return Err(params.error);
      }
      var results := DecodeSharedList(g, c.results, depth + 1, room);
      GrowsOn(old(data), middle, data);
      if results.Err? {
        ListExplainedUp(g, results.error, o, c.results, depth, room);
        ChildFails(g, o, depth, room);
        return Err(results.error);
      }
      return Ok((fields.value, params.value, results.value));
    }

    /** Decodes the element, key and value children of o in order. */
    method DecodeSharedPointers(g: Graph, o: Offset, depth: nat, room: nat)
      returns (r: Result<(Option<Desc>, Option<Desc>, Option<Desc>)>)
      requires Closed(g) && o in g && CacheOk(g, room, data) && depth <= MAX_TYPE_DEPTH
      modifies this
      ensures CacheOk(g, room, data) && Grows(old(data), data) && (FP.Complete(g, old(data).Keys) ==> FP.Complete(g, data.Keys))
      ensures r.Ok? ==> OptRemembered(g, room, g[o].elem, r.value.0)
      ensures r.Ok? ==> OptRemembered(g, room, g[o].key, r.value.1)
      ensures r.Ok? ==> OptRemembered(g, room, g[o].value, r.value.2)
      ensures r.Err? ==> Decode(g, o, depth, room).Err?
      ensures Met(r.Ok?, data, FP.VisitAll(LoadRule(g, room), g, FP.Pointers(g[o]), depth + 1, old(data).Keys))
      ensures r.Err? ==> Explained(g, r.error, o, depth, room)
      decreases Levels(depth + 1), 4
    {
      hide FP.Complete, Clean, Unfolds, UnfoldsOpt, OptRemembered, DecodeList, DecodeFields, CacheOk, Explained, FP.VisitAll, FP.OfOption, FP.Pointers;
      var c := g[o];
      PointersMet(g, c, depth + 1, room, data.Keys);
      var elem := DecodeSharedOpt(g, c.elem, depth + 1, room);
      if elem.Err? {
        ExplainedUp(g, elem.error, o, c.elem.value, depth, room);
        return Err(elem.error);
      }
      var key := DecodeSharedOpt(g, c.key, depth + 1, room);
      if key.Err? {
        ExplainedUp(g, key.error, o, c.key.value, depth, room);
        return Err(key.error);
      }
      var value := DecodeSharedOpt(g, c.value, depth + 1, room);
      if value.Err? {
        ExplainedUp(g, value.error, o, c.value.value, depth, room);
        return Err(value.error);
      }
      return Ok((elem.value, key.value, value.value));
    }

    method DecodeSharedOpt(g: Graph, c: Option<Offset>, depth: nat, room: nat) returns (r: Result<Option<Desc>>)
      requires Closed(g) && (c.Some? ==> c.value in g) && CacheOk(g, room, data)
      modifies this
      ensures CacheOk(g, room, data) && Grows(old(data), data) && (FP.Complete(g, old(data).Keys) ==> FP.Complete(g, data.Keys))
      ensures r.Ok? ==> OptRemembered(g, room, c, r.value)
      ensures Refines(DecodeOpt(g, c, depth, room), r)
      ensures Met(r.Ok?, data, FP.VisitAll(LoadRule(g, room), g, FP.OfOption(c), depth, old(data).Keys))
      ensures r.Err? ==> c.Some? && Explained(g, r.error, c.value, depth, room)
      decreases Levels(depth), 1
    {
      hide FP.Complete, FP.VisitAll, FP.Visit, Explained;
      FP.VisitOne(LoadRule(g, room), g, if c.Some? then c.value else 0, depth, data.Keys);
      if c.None? {
        return Ok(None);
      }
      var d :- DecodeShared(g, c.value, depth, room);
      return Ok(Some(d));
    }

    /** Fills one list slot; an empty one keeps the zero descriptor. */
    method DecodeSharedSlot(g: Graph, c: Option<Offset>, depth: nat, room: nat) returns (r: Result<Desc>)
      requires Closed(g) && (c.Some? ==> c.value in g) && CacheOk(g, room, data)
      modifies this
      ensures CacheOk(g, room, data) && Grows(old(data), data) && (FP.Complete(g, old(data).Keys) ==> FP.Complete(g, data.Keys))
      ensures if r.Ok? then SlotDone(g, c, depth, room, r.value) else DecodeSlot(g, c, depth, room).Err?
      ensures Met(r.Ok?, data, FP.VisitAll(LoadRule(g, room), g, FP.OfOption(c), depth, old(data).Keys))
      ensures r.Err? ==> c.Some? && Explained(g, r.error, c.value, depth, room)
      decreases Levels(depth), 1
    {
      hide FP.Complete, FP.VisitAll, FP.Visit, Explained, Decode, Clean;
      FP.VisitOne(LoadRule(g, room), g, if c.Some? then c.value else 0, depth, data.Keys);
      if c.None? {
        return Ok(ZERO_DESC);
      }
      r := DecodeShared(g, c.value, depth, room);
    }

    method DecodeSharedList(g: Graph, rs: seq<Option<Offset>>, depth: nat, room: nat) returns (r: Result<seq<Desc>>)
      requires Closed(g) && RefsIn(g, rs) && CacheOk(g, room, data)
      modifies this
      ensures CacheOk(g, room, data) && Grows(old(data), data) && (FP.Complete(g, old(data).Keys) ==> FP.Complete(g, data.Keys))
      ensures r.Ok? ==> |rs| <= room && ListRemembered(g, room, rs, r.value)
      ensures Refines(DecodeList(g, rs, depth, room), r)
      ensures |rs| <= room ==> Met(r.Ok?, data, FP.VisitAll(LoadRule(g, room), g, FP.OfItems(rs), depth, old(data).Keys))
      ensures r.Err? ==> ListExplained(g, r.error, rs, depth, room)
      decreases Levels(depth), 3
    {
      if |rs| > room {
        return Err(CorruptCount);
      }
      hide FP.Complete, CacheOk, Decode, DecodeList, DecodeSlot, Closed, LoadRule, FP.VisitAll, FP.OfItems, FP.OfOption, Explained, ListExplained, SlotDone, SlotsDone,
           ListRemembered, Grows;
      ghost var rule, seen := LoadRule(g, room), data.Keys;
      NoItems(rule, g, depth, seen);
      NoneDone(g, rs, depth, room);
      GrowsSame(data);
      assert rs[..0] == [];
      var entries: seq<Desc> := [];
      for i := 0 to |rs|
        invariant CacheOk(g, room, data) && Grows(old(data), data) && (FP.Complete(g, old(data).Keys) ==> FP.Complete(g, data.Keys))
        invariant |entries| == i && SlotsDone(g, rs, depth, room, entries)
        invariant FP.VisitAll(rule, g, FP.OfItems(rs[..i]), depth, seen) == Some(data.Keys)
      {
        ItemsOn(rule, g, rs, i, depth, seen, data.Keys);
        ghost var before := data;
        var entry := DecodeSharedSlot(g, rs[i], depth, room);
        GrowsOn(old(data), before, data);
        if entry.Err? {
          ListFails(g, rs, i, depth, room, entry.error, seen);
          return Err(entry.error);
        }
        OneMoreDone(g, rs, depth, room, entries, entry.value);
        entries := entries + [entry.value];
      }
      ListDone(g, rs, depth, room, entries);
      assert rs[..|rs|] == rs;
      return Ok(entries);
    }

    method DecodeSharedFields(g: Graph, ss: seq<Slot>, depth: nat, room: nat) returns (r: Result<seq<Field>>)
      requires Closed(g) && SlotsIn(g, ss) && CacheOk(g, room, data)
      modifies this
      ensures CacheOk(g, room, data) && Grows(old(data), data) && (FP.Complete(g, old(data).Keys) ==> FP.Complete(g, data.Keys))
      ensures r.Ok? ==> |ss| <= room && FieldsRemembered(g, room, ss, r.value)
      ensures Refines(DecodeFields(g, ss, depth, room), r)
      ensures |ss| <= room ==> Met(r.Ok?, data, FP.VisitAll(LoadRule(g, room), g, FP.OfItems(Types(ss)), depth, old(data).Keys))
      ensures r.Err? ==> ListExplained(g, r.error, Types(ss), depth, room)
      decreases Levels(depth), 3
    {
      if |ss| > room {
        return Err(CorruptCount);
      }
      hide FP.Complete, CacheOk, Decode, DecodeFields, DecodeSlot, Closed, LoadRule, FP.VisitAll, FP.OfItems, FP.OfOption, Explained, ListExplained, SlotDone, FieldsDone,
           FieldsRemembered, Grows;
      ghost var rule, seen, types := LoadRule(g, room), data.Keys, Types(ss);
      NoItems(rule, g, depth, seen);
      NoFieldDone(g, ss, depth, room);
      GrowsSame(data);
      assert types[..0] == [];
      var fields: seq<Field> := [];
      for i := 0 to |ss|
        invariant CacheOk(g, room, data) && Grows(old(data), data) && (FP.Complete(g, old(data).Keys) ==> FP.Complete(g, data.Keys))
        invariant |fields| == i && FieldsDone(g, ss, depth, room, fields)
        invariant FP.VisitAll(rule, g, FP.OfItems(types[..i]), depth, seen) == Some(data.Keys)
      {
        ItemsOn(rule, g, types, i, depth, seen, data.Keys);
        ghost var before := data;
        var typ := DecodeSharedSlot(g, ss[i].typ, depth, room);
        GrowsOn(old(data), before, data);
        if typ.Err? {
          FieldsFail(g, ss, i, depth, room, typ.error, seen);
          return Err(typ.error);
        }
        OneFieldDone(g, ss, depth, room, fields, typ.value);
        fields := fields + [Field(ss[i].text, typ.value)];
      }
      AllFieldsDone(g, ss, depth, room, fields);
      assert types[..|types|] == types;
      return Ok(fields);
    }
  }

  /** A remembered table has no cycle below it, and every path from it ends in a well-formed table. */
  lemma RememberedIsAcyclic(g: Graph, room: nat, o: Offset, d: Desc, p: seq<Offset>)
    requires Remembered(g, room, o, d) && IsPath(g, p) && p[0] == o
    ensures forall i, j :: 0 <= i < j < |p| ==> p[i] != p[j]
    ensures |p| <= Height(d) + 1 && CellOk(g[p[|p| - 1]], room)
  {
    forall i, j | 0 <= i < j < |p| ensures p[i] != p[j] {
      UnfoldingIsAcyclic(g, p, d, i, j);
    }
    if |p| > 1 {
      UnfoldingIsAcyclic(g, p, d, 0, 1);
    }
  }
}

/** Depth-first visits with a memory, in child order: each table is met first on one path, and that path decides. */
module FirstPaths {
  import opened Wrappers
  import opened TableGraph

  // ---------- children, in order ----------

  function OfOption(o: Option<Offset>): seq<Offset> {
    if o.Some? then [o.value] else []
  }

  function OfItems(rs: seq<Option<Offset>>): seq<Offset> {
    if rs == [] then [] else OfItems(rs[..|rs| - 1]) + OfOption(rs[|rs| - 1])
  }

  function OfSlots(ss: seq<Slot>): seq<Offset> {
    if ss == [] then [] else OfSlots(ss[..|ss| - 1]) + OfOption(ss[|ss| - 1].typ)
  }

  function Pointers(c: Cell): seq<Offset> {
    OfOption(c.elem) + OfOption(c.key) + OfOption(c.value)
  }

  function Children(c: Cell): seq<Offset> {
    Pointers(c) + OfSlots(c.fields) + OfItems(c.params) + OfItems(c.results)
  }

  lemma {:induction false} InItems(rs: seq<Option<Offset>>, o: Offset)
    ensures o in OfItems(rs) <==> Some(o) in rs
    decreases |rs|
  {
    if rs != [] {
      InItems(rs[..|rs| - 1], o);
      assert rs == rs[..|rs| - 1] + [rs[|rs| - 1]];
    }
  }

  predicate SlotHas(ss: seq<Slot>, o: Offset) {
    exists i :: 0 <= i < |ss| && ss[i].typ == Some(o)
  }

  lemma SlotHasSnoc(ss: seq<Slot>, o: Offset)
    requires ss != []
    ensures SlotHas(ss, o) <==> SlotHas(ss[..|ss| - 1], o) || ss[|ss| - 1].typ == Some(o)
  {
    var n := |ss| - 1;
    if SlotHas(ss[..n], o) {
      var i :| 0 <= i < n && ss[..n][i].typ == Some(o);
      assert ss[i].typ == Some(o);
    }
    if SlotHas(ss, o) && ss[n].typ != Some(o) {
      var i :| 0 <= i < |ss| && ss[i].typ == Some(o);
      assert ss[..n][i].typ == Some(o);
    }
  }

  lemma {:induction false} InSlots(ss: seq<Slot>, o: Offset)
    ensures o in OfSlots(ss) <==> SlotHas(ss, o)
    decreases |ss|
  {
    if ss != [] {
      hide SlotHas;
      InSlots(ss[..|ss| - 1], o);
      SlotHasSnoc(ss, o);
    }
  }

  /** They are what the table refers to. */
  lemma ChildrenAre(c: Cell, o: Offset)
    ensures o in Children(c) <==> Refers(c, o)
  {
    InItems(c.params, o);
    InItems(c.results, o);
    InSlots(c.fields, o);
    hide OfItems, OfSlots;
  }

  // ---------- visits ----------

  /** What a depth-first visit with a memory refuses: tables at the limit or deeper, those in `bad`, and, if `early`, anything met at the limit, remembered or not. */
  datatype Rule = Rule(limit: nat, bad: set<Offset>, early: bool)

  function Remaining(rule: Rule, depth: nat): nat {
    if depth >= rule.limit then 0 else rule.limit - depth
  }

  /** The tables remembered once this one was visited: none if it, or one below it, is refused. */
  ghost function Visit(rule: Rule, g: Graph, o: Offset, depth: nat, seen: set<Offset>): Option<set<Offset>>
    decreases Remaining(rule, depth), 1
  {
    if rule.early && depth >= rule.limit then None
    else if o in seen then Some(seen)
    else if depth >= rule.limit || o !in g || o in rule.bad then None
    else match VisitAll(rule, g, Children(g[o]), depth + 1, seen)
      case None => None
      case Some(s) => Some(s + {o})
  }

  ghost function VisitAll(rule: Rule, g: Graph, os: seq<Offset>, depth: nat, seen: set<Offset>): Option<set<Offset>>
    decreases Remaining(rule, depth), 2, |os|
  {
    if os == [] then Some(seen)
    else match VisitAll(rule, g, os[..|os| - 1], depth, seen)
      case None => None
      case Some(s) => Visit(rule, g, os[|os| - 1], depth, s)
  }

  lemma {:induction false} VisitConcat(rule: Rule, g: Graph, a: seq<Offset>, b: seq<Offset>, depth: nat, seen: set<Offset>)
    ensures VisitAll(rule, g, a + b, depth, seen) == match VisitAll(rule, g, a, depth, seen) case None => None case Some(s) => VisitAll(rule, g, b, depth, s)
    decreases |b|
  {
    hide Visit;
    if b == [] {
      assert a + b == a;
    } else {
      assert (a + b)[..|a + b| - 1] == a + b[..|b| - 1];
      VisitConcat(rule, g, a, b[..|b| - 1], depth, seen);
    }
  }

  lemma VisitOne(rule: Rule, g: Graph, o: Offset, depth: nat, seen: set<Offset>)
    ensures VisitAll(rule, g, [o], depth, seen) == Visit(rule, g, o, depth, seen) && VisitAll(rule, g, [], depth, seen) == Some(seen)
  {
    assert [o][..0] == [];
  }

  // ---------- first paths ----------

  /** Some path leads from one table to another. */
  ghost predicate Leads(g: Graph, o: Offset, t: Offset) {
    exists p :: IsPath(g, p) && p[0] == o && p[|p| - 1] == t
  }

  /** The step goes to the first child that leads to t. */
  ghost predicate FirstStep(g: Graph, a: Offset, b: Offset, t: Offset)
    requires a in g
  {
    var cs := Children(g[a]);
    exists k :: 0 <= k < |cs| && cs[k] == b && NoneLeads(g, cs[..k], t)
  }

  ghost predicate NoneLeads(g: Graph, os: seq<Offset>, t: Offset) {
    forall j :: 0 <= j < |os| ==> !Leads(g, os[j], t)
  }

  /** The path by which a visit in child order first meets the table at its end. */
  ghost predicate IsFirst(g: Graph, p: seq<Offset>) {
    IsPath(g, p) && forall i :: 0 <= i < |p| - 1 ==> FirstStep(g, p[i], p[i + 1], p[|p| - 1])
  }

  ghost function Below(g: Graph, o: Offset): set<Offset> {
    set t | t in g && Leads(g, o, t)
  }

  ghost function BelowAll(g: Graph, os: seq<Offset>): set<Offset> {
    set t | t in g && !NoneLeads(g, os, t)
  }

  /** With a table, everything below it. */
  ghost predicate Complete(g: Graph, seen: set<Offset>) {
    forall a, b :: a in seen && Leads(g, a, b) ==> b in seen
  }

  lemma LeadsIn(g: Graph, o: Offset, t: Offset)
    requires Leads(g, o, t)
    ensures o in g && t in g
  {
  }

  lemma LeadsSelf(g: Graph, o: Offset)
    requires o in g
    ensures Leads(g, o, o)
  {
    assert IsPath(g, [o]);
  }

  lemma LeadsUp(g: Graph, o: Offset, next: Offset, t: Offset)
    requires o in g && Refers(g[o], next) && Leads(g, next, t)
    ensures Leads(g, o, t)
  {
    hide Refers;
    var p :| IsPath(g, p) && p[0] == next && p[|p| - 1] == t;
    ConsPath(g, o, p);
    var q := [o] + p;
    assert q[0] == o && q[|q| - 1] == t;
  }

  lemma TailIsPath(g: Graph, p: seq<Offset>)
    requires IsPath(g, p) && |p| > 1
    ensures IsPath(g, p[1..]) && Refers(g[p[0]], p[1])
  {
    hide Refers;
    var q := p[1..];
    forall i | 0 <= i < |q| - 1 ensures Refers(g[q[i]], q[i + 1]) {
      assert Refers(g[p[i + 1]], p[i + 2]);
    }
    assert Refers(g[p[0]], p[0 + 1]);
  }

  lemma LeadsDown(g: Graph, o: Offset, t: Offset) returns (next: Offset)
    requires Leads(g, o, t) && o != t
    ensures o in g && Refers(g[o], next) && Leads(g, next, t)
  {
    hide Refers;
    var p :| IsPath(g, p) && p[0] == o && p[|p| - 1] == t;
    TailIsPath(g, p);
    next := p[1];
    assert p[1..][|p| - 2] == t;
  }

  lemma {:induction false} LeadsOn(g: Graph, p: seq<Offset>, t: Offset)
    requires IsPath(g, p) && Leads(g, p[|p| - 1], t)
    ensures Leads(g, p[0], t)
    decreases |p|
  {
    hide Leads, Refers;
    if |p| > 1 {
      TailIsPath(g, p);
      assert p[1..][|p| - 2] == p[|p| - 1];
      LeadsOn(g, p[1..], t);
      LeadsUp(g, p[0], p[1], t);
    }
  }

  /** What is below a table: itself and what is below its children. */
  lemma BelowStep(g: Graph, o: Offset)
    requires o in g
    ensures Below(g, o) == BelowAll(g, Children(g[o])) + {o}
  {
    hide Leads, Children, Refers;
    LeadsSelf(g, o);
    var cs := Children(g[o]);
    forall t | t in Below(g, o) && t != o ensures t in BelowAll(g, cs) {
      var next := LeadsDown(g, o, t);
      ChildrenAre(g[o], next);
      var k :| 0 <= k < |cs| && cs[k] == next;
      assert !NoneLeads(g, cs, t);
    }
    forall t | t in BelowAll(g, cs) ensures t in Below(g, o) {
      var k :| 0 <= k < |cs| && Leads(g, cs[k], t);
      ChildrenAre(g[o], cs[k]);
      LeadsUp(g, o, cs[k], t);
    }
  }

  lemma BelowSnoc(g: Graph, os: seq<Offset>)
    requires os != []
    ensures BelowAll(g, os) == BelowAll(g, os[..|os| - 1]) + Below(g, os[|os| - 1])
  {
    hide Leads;
    var n := |os| - 1;
    forall t | t in BelowAll(g, os) ensures t in BelowAll(g, os[..n]) + Below(g, os[n]) {
      var k :| 0 <= k < |os| && Leads(g, os[k], t);
      assert k < n ==> os[..n][k] == os[k];
    }
    forall t | t in BelowAll(g, os[..n]) ensures t in BelowAll(g, os) {
      var k :| 0 <= k < n && Leads(g, os[..n][k], t);
      assert os[k] == os[..n][k];
    }
    forall t | t in Below(g, os[n]) ensures t in BelowAll(g, os) {
      assert Leads(g, os[n], t);
    }
  }

  lemma CompleteMore(g: Graph, seen: set<Offset>, o: Offset)
    requires Complete(g, seen)
    ensures Complete(g, seen + Below(g, o))
  {
    hide Leads;
    forall a, b | a in seen + Below(g, o) && Leads(g, a, b) ensures b in seen + Below(g, o) {
      if a !in seen {
        LeadsIn(g, a, b);
        LeadsThrough(g, o, a, b);
      }
    }
  }

  lemma LeadsThrough(g: Graph, o: Offset, a: Offset, b: Offset)
    requires Leads(g, o, a) && Leads(g, a, b)
    ensures Leads(g, o, b)
  {
    var p :| IsPath(g, p) && p[0] == o && p[|p| - 1] == a;
    LeadsOn(g, p, b);
  }

  // ---------- what is accepted ----------

  /** The path is within the limit and its end is not refused; nor, for an early rule, are the end's children for their depth. */
  ghost predicate Fits(rule: Rule, g: Graph, depth: nat, p: seq<Offset>)
    requires p != [] && p[|p| - 1] in g
  {
    depth + |p| <= rule.limit && p[|p| - 1] !in rule.bad && (rule.early && Children(g[p[|p| - 1]]) != [] ==> depth + |p| < rule.limit)
  }

  /** Every table not seen yet is fine on the first path to it. */
  ghost predicate Short(rule: Rule, g: Graph, o: Offset, depth: nat, seen: set<Offset>) {
    (rule.early ==> depth < rule.limit) && forall p :: IsFirst(g, p) && p[0] == o && p[|p| - 1] !in seen ==> Fits(rule, g, depth, p)
  }

  ghost predicate ShortAll(rule: Rule, g: Graph, os: seq<Offset>, depth: nat, seen: set<Offset>) {
    forall k :: 0 <= k < |os| ==> Short(rule, g, os[k], depth, seen + BelowAll(g, os[..k]))
  }

  lemma FirstTail(g: Graph, p: seq<Offset>)
    requires IsFirst(g, p) && |p| > 1
    ensures IsFirst(g, p[1..])
  {
    hide FirstStep, Refers;
    TailIsPath(g, p);
    var q := p[1..];
    forall i | 0 <= i < |q| - 1 ensures FirstStep(g, q[i], q[i + 1], q[|q| - 1]) {
      assert FirstStep(g, p[i + 1], p[i + 2], p[|p| - 1]);
    }
  }

  lemma FirstCons(g: Graph, o: Offset, q: seq<Offset>)
    requires o in g && IsFirst(g, q) && Refers(g[o], q[0]) && FirstStep(g, o, q[0], q[|q| - 1])
    ensures IsFirst(g, [o] + q)
  {
    hide FirstStep, Refers;
    ConsPath(g, o, q);
    var p := [o] + q;
    forall i | 0 <= i < |p| - 1 ensures FirstStep(g, p[i], p[i + 1], p[|p| - 1]) {
      if i > 0 {
        assert FirstStep(g, q[i - 1], q[i], q[|q| - 1]);
      }
    }
  }

  /** First paths from a table are first paths from its children. */
  lemma ShortStep(rule: Rule, g: Graph, o: Offset, depth: nat, seen: set<Offset>)
    requires o in g && o !in seen
    ensures Short(rule, g, o, depth, seen) <==> depth < rule.limit && o !in rule.bad && ShortAll(rule, g, Children(g[o]), depth + 1, seen)
  {
    hide IsFirst, Children, Leads;
    var cs := Children(g[o]);
    OneIsFirst(g, o);
    if Short(rule, g, o, depth, seen) {
      assert Fits(rule, g, depth, [o]);
      forall k | 0 <= k < |cs| ensures Short(rule, g, cs[k], depth + 1, seen + BelowAll(g, cs[..k])) {
        ShortDown(rule, g, o, depth, seen, k);
      }
    }
    if depth < rule.limit && o !in rule.bad && ShortAll(rule, g, cs, depth + 1, seen) {
      FirstNotEmpty(g);
      forall p | IsFirst(g, p) && p[0] == o && p[|p| - 1] !in seen ensures Fits(rule, g, depth, p) {
        ShortUp(rule, g, o, depth, seen, p);
      }
    }
  }

  lemma FirstNotEmpty(g: Graph)
    ensures forall p :: IsFirst(g, p) ==> p != [] && p[|p| - 1] in g
  {
  }

  lemma OneIsFirst(g: Graph, o: Offset)
    requires o in g
    ensures IsFirst(g, [o]) && [o][0] == o && [o][|[o]| - 1] == o
  {
  }

  lemma ShortDown(rule: Rule, g: Graph, o: Offset, depth: nat, seen: set<Offset>, k: nat)
    requires o in g && o !in seen && Short(rule, g, o, depth, seen) && k < |Children(g[o])|
    ensures var cs := Children(g[o]); Short(rule, g, cs[k], depth + 1, seen + BelowAll(g, cs[..k]))
  {
    hide Children, Leads, Refers;
    var cs := Children(g[o]);
    OneIsFirst(g, o);
    assert Fits(rule, g, depth, [o]);
    forall q | IsFirst(g, q) && q[0] == cs[k] && q[|q| - 1] !in seen + BelowAll(g, cs[..k]) ensures Fits(rule, g, depth + 1, q) {
      var t := q[|q| - 1];
      assert t in g && NoneLeads(g, cs[..k], t);
      assert cs[k] in cs;
      ChildrenAre(g[o], cs[k]);
      assert FirstStep(g, o, q[0], t);
      FirstCons(g, o, q);
      assert ([o] + q)[0] == o && ([o] + q)[|q|] == t;
      assert Fits(rule, g, depth, [o] + q);
    }
  }

  lemma ShortUp(rule: Rule, g: Graph, o: Offset, depth: nat, seen: set<Offset>, p: seq<Offset>)
    requires o in g && depth < rule.limit && o !in rule.bad && ShortAll(rule, g, Children(g[o]), depth + 1, seen)
    requires IsFirst(g, p) && p[0] == o && p[|p| - 1] !in seen
    ensures Fits(rule, g, depth, p)
  {
    hide Children, Leads, Refers;
    var cs := Children(g[o]);
    if |p| > 1 {
      var t, q := p[|p| - 1], p[1..];
      assert FirstStep(g, p[0], p[0 + 1], t);
      var k :| 0 <= k < |cs| && cs[k] == p[1] && NoneLeads(g, cs[..k], t);
      FirstTail(g, p);
      assert q[|q| - 1] == t && t !in seen + BelowAll(g, cs[..k]);
      assert Short(rule, g, cs[k], depth + 1, seen + BelowAll(g, cs[..k]));
      assert Fits(rule, g, depth + 1, q);
    } else if cs != [] {
      assert Short(rule, g, cs[0], depth + 1, seen + BelowAll(g, cs[..0]));
    }
  }

  /** A visit goes through exactly if every table it has yet to meet is fine on the first path to it; then it has met all there is. */
  lemma {:induction false} VisitExact(rule: Rule, g: Graph, o: Offset, depth: nat, seen: set<Offset>)
    requires Closed(g) && o in g && Complete(g, seen)
    ensures var v := Visit(rule, g, o, depth, seen);
      (v.Some? <==> Short(rule, g, o, depth, seen)) && (v.Some? ==> v.value == seen + Below(g, o))
    decreases Remaining(rule, depth), 1
  {
    hide Short, ShortAll, Complete, Below, BelowAll, Children, VisitAll, Closed;
    if o in seen {
      SeenIsShort(rule, g, o, depth, seen);
    } else {
      ShortStep(rule, g, o, depth, seen);
      BelowStep(g, o);
      if depth < rule.limit && o !in rule.bad {
        var cs := Children(g[o]);
        forall k | 0 <= k < |cs| ensures cs[k] in g {
          ChildIn(g, o, cs[k]);
        }
        VisitAllExact(rule, g, cs, depth + 1, seen);
      }
    }
  }

  lemma ChildIn(g: Graph, o: Offset, x: Offset)
    requires Closed(g) && o in g && x in Children(g[o])
    ensures x in g
  {
    hide Children;
    ChildrenAre(g[o], x);
  }

  lemma SeenIsShort(rule: Rule, g: Graph, o: Offset, depth: nat, seen: set<Offset>)
    requires o in seen && Complete(g, seen)
    ensures (Short(rule, g, o, depth, seen) <==> rule.early ==> depth < rule.limit) && seen + Below(g, o) == seen
  {
    forall p | IsFirst(g, p) && p[0] == o ensures p[|p| - 1] in seen {
      assert Leads(g, o, p[|p| - 1]);
    }
  }

  lemma {:induction false} VisitAllExact(rule: Rule, g: Graph, os: seq<Offset>, depth: nat, seen: set<Offset>)
    requires Closed(g) && Complete(g, seen) && forall k :: 0 <= k < |os| ==> os[k] in g
    ensures var v := VisitAll(rule, g, os, depth, seen);
      && (v.Some? <==> ShortAll(rule, g, os, depth, seen))
      && (v.Some? ==> v.value == seen + BelowAll(g, os) && Complete(g, v.value))
    decreases Remaining(rule, depth), 2, |os|
  {
    hide Short, Complete, Below, BelowAll, Visit, Closed;
    if os == [] {
      NoneBelow(g, seen);
    } else {
      var n := |os| - 1;
      VisitAllExact(rule, g, os[..n], depth, seen);
      BelowSnoc(g, os);
      ShortSnoc(rule, g, os, depth, seen);
      hide ShortAll;
      var front := VisitAll(rule, g, os[..n], depth, seen);
      if front.Some? {
        VisitExact(rule, g, os[n], depth, front.value);
        CompleteMore(g, front.value, os[n]);
        assert seen + BelowAll(g, os) == front.value + Below(g, os[n]);
      }
    }
  }

  lemma NoneBelow(g: Graph, seen: set<Offset>)
    ensures seen + BelowAll(g, []) == seen
  {
  }

  lemma ShortSnoc(rule: Rule, g: Graph, os: seq<Offset>, depth: nat, seen: set<Offset>)
    requires os != []
    ensures var n := |os| - 1;
      ShortAll(rule, g, os, depth, seen) <==> ShortAll(rule, g, os[..n], depth, seen) && Short(rule, g, os[n], depth, seen + BelowAll(g, os[..n]))
  {
    hide Short, BelowAll;
    var n := |os| - 1;
    assert forall k :: 0 <= k < n ==> os[..n][k] == os[k] && os[..n][..k] == os[..k];
    if ShortAll(rule, g, os, depth, seen) {
      forall k | 0 <= k < n ensures Short(rule, g, os[..n][k], depth, seen + BelowAll(g, os[..n][..k])) {
        assert Short(rule, g, os[k], depth, seen + BelowAll(g, os[..k]));
      }
    }
    if ShortAll(rule, g, os[..n], depth, seen) && Short(rule, g, os[n], depth, seen + BelowAll(g, os[..n])) {
      forall k | 0 <= k < |os| ensures Short(rule, g, os[k], depth, seen + BelowAll(g, os[..k])) {
        if k < n {
          assert Short(rule, g, os[..n][k], depth, seen + BelowAll(g, os[..n][..k]));
        }
      }
    }
  }
}

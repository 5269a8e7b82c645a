/** What compiling bodies does to the functions and instances of a session: it only adds, it makes exactly what is needed, and when two sessions do the same. */
module ReplLinking {
  import opened Wrappers
  import opened ReplModel

  // ---------- what bodies need ----------

  /** The instances used anywhere in a body, literals included, as far as there is a body for them. */
  function AllUses(lang: Language, items: seq<Item>): set<Instance> {
    if items == [] then {}
    else
      var n := |items| - 1;
      AllUses(lang, items[..n]) + UsesOf(lang, items[n])
  }

  function UsesOf(lang: Language, item: Item): set<Instance> {
    if item.Literal? then AllUses(lang, item.body.items) else if item.instance in lang.templates then {item.instance} else {}
  }

  /** What an instance uses. */
  function Next(lang: Language, i: Instance): set<Instance> {
    if i in lang.templates then AllUses(lang, lang.templates[i].items) else {}
  }

  ghost predicate Closed(lang: Language, t: set<Instance>) {
    forall i :: i in t ==> Next(lang, i) <= t
  }

  /** Each instance of the chain uses the next. */
  predicate Chain(lang: Language, path: seq<Instance>) {
    if |path| < 2 then true
    else
      var n := |path| - 1;
      Chain(lang, path[..n]) && path[n] in Next(lang, path[n - 1])
  }

  ghost predicate Reaches(lang: Language, uses: set<Instance>, i: Instance, path: seq<Instance>) {
    path != [] && path[0] in uses && path[|path| - 1] == i && Chain(lang, path)
  }

  /** The instances that uses lead to. */
  ghost function Needs(lang: Language, uses: set<Instance>): set<Instance> {
    set i | i in lang.templates && exists path :: Reaches(lang, uses, i, path)
  }

  lemma {:induction false} UsesKnown(lang: Language, items: seq<Item>)
    ensures AllUses(lang, items) <= lang.templates.Keys
    decreases Size(items)
  {
    if items != [] {
      var n := |items| - 1;
      UsesKnown(lang, items[..n]);
      if items[n].Literal? {
        UsesKnown(lang, items[n].body.items);
      }
    }
  }

  lemma NextKnown(lang: Language, i: Instance)
    ensures Next(lang, i) <= lang.templates.Keys
  {
    if i in lang.templates {
      UsesKnown(lang, lang.templates[i].items);
    }
  }

  /** The needs contain the uses and are closed. */
  lemma NeedsClosed(lang: Language, uses: set<Instance>)
    requires uses <= lang.templates.Keys
    ensures uses <= Needs(lang, uses) && Closed(lang, Needs(lang, uses))
  {
    hide Next;
    forall i | i in uses ensures i in Needs(lang, uses) {
      assert Reaches(lang, uses, i, [i]);
    }
    forall i | i in Needs(lang, uses) ensures Next(lang, i) <= Needs(lang, uses) {
      var path :| Reaches(lang, uses, i, path);
      NextKnown(lang, i);
      forall j | j in Next(lang, i) ensures j in Needs(lang, uses) {
        assert (path + [j])[..|path|] == path;
        assert Reaches(lang, uses, j, path + [j]);
      }
    }
  }

  /** And nothing else is. */
  lemma NeedsLeast(lang: Language, uses: set<Instance>, t: set<Instance>)
    requires uses <= t && Closed(lang, t)
    ensures Needs(lang, uses) <= t
  {
    hide Next;
    forall i | i in Needs(lang, uses) ensures i in t {
      var path :| Reaches(lang, uses, i, path);
      ChainInside(lang, path, t);
    }
  }

  lemma {:induction false} ChainInside(lang: Language, path: seq<Instance>, t: set<Instance>)
    requires path != [] && path[0] in t && Closed(lang, t) && Chain(lang, path)
    ensures path[|path| - 1] in t
    decreases |path|
  {
    hide Next;
    if |path| > 1 {
      ChainInside(lang, path[..|path| - 1], t);
    }
  }

  // ---------- compilation only adds ----------

  /** Older functions and entries stay; new entries are instances of functions in the table, made after the older functions. */
  ghost predicate Adds(lang: Language, keys: set<Key>, x: Pool, r: Pool) {
    && x.functions <= r.functions
    && (forall i :: i in x.specs ==> i in r.specs && r.specs[i] == x.specs[i])
    && (forall i :: i in r.specs && i !in x.specs ==> i in lang.templates && i.callee in keys && |x.functions| <= r.specs[i] < |r.functions|)
  }

  lemma AddsTwice(lang: Language, keys: set<Key>, x: Pool, y: Pool, z: Pool)
    requires Adds(lang, keys, x, y) && Adds(lang, keys, y, z)
    ensures Adds(lang, keys, x, z)
  {
  }

  lemma AddsFilled(lang: Language, keys: set<Key>, x: Pool, w: Pool, code: Code)
    requires Adds(lang, keys, x.(functions := x.functions + [0]), w)
    ensures Adds(lang, keys, x, w.(functions := w.functions[|x.functions| := code]))
  {
  }

  lemma AddsEntered(lang: Language, keys: set<Key>, x: Pool, r: Pool, i: Instance)
    requires Adds(lang, keys, x.(specs := x.specs[i := |x.functions|]), r) && |x.functions| < |r.functions|
    requires i in lang.templates && i.callee in keys && i !in x.specs
    ensures Adds(lang, keys, x, r)
  {
  }

  lemma {:induction false} ItemsAdd(lang: Language, ctx: Context, x: Pool, items: seq<Item>)
    ensures Adds(lang, ctx.table.Keys, x, CompileItems(lang, ctx, x, items).pool)
    decreases lang.templates.Keys - x.specs.Keys, Size(items), 1
  {
    hide Adds;
    if items == [] {
      AddsNone(lang, ctx.table.Keys, x);
    } else {
      var n, keys := |items| - 1, ctx.table.Keys;
      ItemsAdd(lang, ctx, x, items[..n]);
      var w := CompileItems(lang, ctx, x, items[..n]);
      if w.stop == Going {
        if items[n].Literal? {
          BodyAdds(lang, ctx, w.pool, items[n].body);
        } else {
          UseAdds(lang, ctx, w.pool, items[n].instance, items[n].called);
        }
        AddsTwice(lang, keys, x, w.pool, CompileItems(lang, ctx, x, items).pool);
      }
    }
  }

  lemma AddsNone(lang: Language, keys: set<Key>, x: Pool)
    ensures Adds(lang, keys, x, x)
  {
  }

  lemma {:induction false} BodyAdds(lang: Language, ctx: Context, x: Pool, b: Body)
    ensures Adds(lang, ctx.table.Keys, x, CompileBody(lang, ctx, x, b).pool)
    decreases lang.templates.Keys - x.specs.Keys, Size(b.items), 2
  {
    hide Adds;
    var started := x.(functions := x.functions + [0]);
    ItemsAdd(lang, ctx, started, b.items);
    var w := CompileItems(lang, ctx, started, b.items);
    AddsFilled(lang, ctx.table.Keys, x, w.pool, CompileBody(lang, ctx, x, b).pool.functions[|x.functions|]);
  }

  lemma {:induction false} UseAdds(lang: Language, ctx: Context, x: Pool, i: Instance, called: bool)
    ensures Adds(lang, ctx.table.Keys, x, CompileUse(lang, ctx, x, i, called).pool)
    decreases lang.templates.Keys - x.specs.Keys, 0, 0
  {
    hide Adds;
    AddsNone(lang, ctx.table.Keys, x);
    if i.callee in ctx.table && i !in x.specs && i in lang.templates {
      var entered := x.(specs := x.specs[i := |x.functions|]);
      assert i in lang.templates.Keys - x.specs.Keys;
      BodyAdds(lang, ctx, entered, lang.templates[i]);
      AddsEntered(lang, ctx.table.Keys, x, CompileBody(lang, ctx, entered, lang.templates[i]).pool, i);
    }
  }

  // ---------- what compiling without an error has made ----------

  /** An instance whose body compiles, of a function in the table. */
  predicate Good(lang: Language, keys: set<Key>, i: Instance) {
    i in lang.templates && lang.templates[i].ok && i.callee in keys && LiteralsOk(lang.templates[i].items)
  }

  predicate LiteralsOk(items: seq<Item>) {
    items == [] || (LiteralsOk(items[..|items| - 1]) && LiteralOk(items[|items| - 1]))
  }

  predicate LiteralOk(item: Item) {
    item.Literal? ==> item.body.ok && LiteralsOk(item.body.items)
  }

  /** Functions that literals add. */
  function Literals(items: seq<Item>): nat {
    if items == [] then 0 else Literals(items[..|items| - 1]) + LiteralsIn(items[|items| - 1])
  }

  function LiteralsIn(item: Item): nat {
    if item.Literal? then 1 + Literals(item.body.items) else 0
  }

  /** Functions that an instance adds. */
  function Weight(lang: Language, i: Instance): (r: nat)
    ensures r > 0
  {
    if i in lang.templates then 1 + Literals(lang.templates[i].items) else 1
  }

  ghost function Total(lang: Language, s: set<Instance>): nat {
    if s == {} then 0
    else
      var i :| i in s;
      Weight(lang, i) + Total(lang, s - {i})
  }

  lemma {:induction false} TotalPick(lang: Language, s: set<Instance>, i: Instance)
    requires i in s
    ensures Total(lang, s) == Weight(lang, i) + Total(lang, s - {i})
    decreases s
  {
    hide Weight;
    var j :| j in s && Total(lang, s) == Weight(lang, j) + Total(lang, s - {j});
    if i != j {
      TotalPick(lang, s - {j}, i);
      TotalPick(lang, s - {i}, j);
      assert s - {j} - {i} == s - {i} - {j};
    }
  }

  lemma {:induction false} TotalUnion(lang: Language, a: set<Instance>, b: set<Instance>)
    requires a !! b
    ensures Total(lang, a + b) == Total(lang, a) + Total(lang, b)
    decreases b
  {
    hide Weight;
    if b == {} {
      assert a + b == a;
    } else {
      var i :| i in b;
      TotalPick(lang, b, i);
      TotalPick(lang, a + b, i);
      assert a + b - {i} == a + (b - {i});
      TotalUnion(lang, a, b - {i});
    }
  }

  lemma TotalLess(lang: Language, a: set<Instance>, b: set<Instance>)
    requires a < b
    ensures Total(lang, a) < Total(lang, b)
  {
    hide Weight;
    TotalUnion(lang, a, b - a);
    assert a + (b - a) == b;
    var i :| i in b - a;
    TotalPick(lang, b - a, i);
  }

  /** What was made is complete: every use is there, each new instance is good and has its uses, and the functions are as many as that takes. */
  ghost predicate Complete(lang: Language, keys: set<Key>, x: Pool, r: Pool, uses: set<Instance>, own: nat) {
    && uses <= r.specs.Keys
    && (forall i :: i in r.specs && i !in x.specs ==> Good(lang, keys, i) && Next(lang, i) <= r.specs.Keys)
    && |r.functions| == |x.functions| + own + Total(lang, r.specs.Keys - x.specs.Keys)
  }

  lemma CompleteTwice(lang: Language, keys: set<Key>, x: Pool, y: Pool, z: Pool, a: set<Instance>, b: set<Instance>, m: nat, n: nat)
    requires Complete(lang, keys, x, y, a, m) && Complete(lang, keys, y, z, b, n)
    requires x.specs.Keys <= y.specs.Keys <= z.specs.Keys
    ensures Complete(lang, keys, x, z, a + b, m + n)
  {
    hide Good, Next, Total;
    TotalUnion(lang, y.specs.Keys - x.specs.Keys, z.specs.Keys - y.specs.Keys);
    assert (y.specs.Keys - x.specs.Keys) + (z.specs.Keys - y.specs.Keys) == z.specs.Keys - x.specs.Keys;
  }

  lemma CompleteEntered(lang: Language, keys: set<Key>, x: Pool, r: Pool, i: Instance)
    requires i in lang.templates && i !in x.specs && Good(lang, keys, i)
    requires Complete(lang, keys, x.(specs := x.specs[i := |x.functions|]), r, Next(lang, i), 1 + Literals(lang.templates[i].items))
    requires i in r.specs && x.specs.Keys <= r.specs.Keys
    ensures Complete(lang, keys, x, r, {i}, 0)
  {
    hide Good, Next, Total, Literals;
    TotalPick(lang, r.specs.Keys - x.specs.Keys, i);
    assert r.specs.Keys - x.specs.Keys - {i} == r.specs.Keys - x.specs[i := |x.functions|].Keys;
  }

  lemma {:induction false} ItemsComplete(lang: Language, ctx: Context, x: Pool, items: seq<Item>)
    requires CompileItems(lang, ctx, x, items).stop == Going
    ensures Complete(lang, ctx.table.Keys, x, CompileItems(lang, ctx, x, items).pool, AllUses(lang, items), Literals(items)) && LiteralsOk(items)
    decreases lang.templates.Keys - x.specs.Keys, Size(items), 1
  {
    hide Complete;
    if items == [] {
      CompleteNone(lang, ctx.table.Keys, x);
    } else {
      var n, keys := |items| - 1, ctx.table.Keys;
      ItemsComplete(lang, ctx, x, items[..n]);
      var w := CompileItems(lang, ctx, x, items[..n]);
      if items[n].Literal? {
        BodyComplete(lang, ctx, w.pool, items[n].body);
      } else {
        UseComplete(lang, ctx, w.pool, items[n].instance, items[n].called);
      }
      CompleteTwice(lang, keys, x, w.pool, CompileItems(lang, ctx, x, items).pool, AllUses(lang, items[..n]), UsesOf(lang, items[n]),
        Literals(items[..n]), LiteralsIn(items[n]));
    }
  }

  lemma CompleteNone(lang: Language, keys: set<Key>, x: Pool)
    ensures Complete(lang, keys, x, x, {}, 0) && LiteralsOk([])
  {
    assert x.specs.Keys - x.specs.Keys == {};
  }

  lemma CompleteFilled(lang: Language, keys: set<Key>, x: Pool, w: Pool, uses: set<Instance>, own: nat, code: Code)
    requires Complete(lang, keys, x.(functions := x.functions + [0]), w, uses, own) && |x.functions| < |w.functions|
    ensures Complete(lang, keys, x, w.(functions := w.functions[|x.functions| := code]), uses, 1 + own)
  {
    hide Good, Next, Total;
  }

  lemma {:induction false} BodyComplete(lang: Language, ctx: Context, x: Pool, b: Body)
    requires CompileBody(lang, ctx, x, b).stop == Going
    ensures Complete(lang, ctx.table.Keys, x, CompileBody(lang, ctx, x, b).pool, AllUses(lang, b.items), 1 + Literals(b.items))
    ensures b.ok && LiteralsOk(b.items)
    decreases lang.templates.Keys - x.specs.Keys, Size(b.items), 2
  {
    hide Complete, LiteralsOk;
    var started := x.(functions := x.functions + [0]);
    ItemsComplete(lang, ctx, started, b.items);
    var w := CompileItems(lang, ctx, started, b.items);
    CompleteFilled(lang, ctx.table.Keys, x, w.pool, AllUses(lang, b.items), Literals(b.items), CompileBody(lang, ctx, x, b).pool.functions[|x.functions|]);
  }

  lemma {:induction false} UseComplete(lang: Language, ctx: Context, x: Pool, i: Instance, called: bool)
    requires CompileUse(lang, ctx, x, i, called).stop == Going
    ensures Complete(lang, ctx.table.Keys, x, CompileUse(lang, ctx, x, i, called).pool, UsesOf(lang, Use(i, called)), 0)
    decreases lang.templates.Keys - x.specs.Keys, 0, 0
  {
    hide Complete, LiteralsOk;
    if i in x.specs || i !in lang.templates {
      CompleteFound(lang, ctx.table.Keys, x, UsesOf(lang, Use(i, called)));
    } else {
      var entered := x.(specs := x.specs[i := |x.functions|]);
      assert i in lang.templates.Keys - x.specs.Keys;
      BodyComplete(lang, ctx, entered, lang.templates[i]);
      CompleteEntered(lang, ctx.table.Keys, x, CompileBody(lang, ctx, entered, lang.templates[i]).pool, i);
    }
  }

  lemma CompleteFound(lang: Language, keys: set<Key>, x: Pool, uses: set<Instance>)
    requires uses <= x.specs.Keys
    ensures Complete(lang, keys, x, x, uses, 0)
  {
    assert x.specs.Keys - x.specs.Keys == {};
  }

  // ---------- staying inside what is needed ----------

  /** Every instance is where its entry says. */
  ghost predicate InRange(x: Pool) {
    forall i :: i in x.specs ==> x.specs[i] < |x.functions|
  }

  ghost predicate AllGood(lang: Language, keys: set<Key>, t: set<Instance>) {
    forall i :: i in t ==> Good(lang, keys, i)
  }

  /** New instances are among those needed; with all entries in range nothing breaks, and if everything needed is good nothing is refused. */
  ghost predicate Guided(lang: Language, keys: set<Key>, x: Pool, r: Pool, stop: Stop, t: set<Instance>, ok: bool) {
    && r.specs.Keys <= x.specs.Keys + t
    && (InRange(x) ==> InRange(r) && stop != Broken && (ok && AllGood(lang, keys, t) ==> stop == Going))
  }

  lemma {:induction false} ItemsGuided(lang: Language, ctx: Context, x: Pool, items: seq<Item>, t: set<Instance>)
    requires Closed(lang, t) && AllUses(lang, items) <= t
    ensures var w := CompileItems(lang, ctx, x, items); Guided(lang, ctx.table.Keys, x, w.pool, w.stop, t, LiteralsOk(items))
    decreases lang.templates.Keys - x.specs.Keys, Size(items), 1
  {
    hide Closed, Guided;
    if items == [] {
      GuidedNone(lang, ctx.table.Keys, x, t);
    } else {
      var n, keys := |items| - 1, ctx.table.Keys;
      ItemsGuided(lang, ctx, x, items[..n], t);
      var w := CompileItems(lang, ctx, x, items[..n]);
      if w.stop == Going {
        if items[n].Literal? {
          var r := CompileBody(lang, ctx, w.pool, items[n].body);
          BodyGuided(lang, ctx, w.pool, items[n].body, t);
          GuidedRoomier(lang, keys, w.pool, r.pool, r.stop, t, LiteralOk(items[n]));
          GuidedTwice(lang, keys, x, w.pool, r.pool, r.stop, t, LiteralsOk(items[..n]), LiteralOk(items[n]));
        } else {
          var r := CompileUse(lang, ctx, w.pool, items[n].instance, items[n].called);
          UseGuided(lang, ctx, w.pool, items[n].instance, items[n].called, t);
          GuidedTwice(lang, keys, x, w.pool, r.pool, r.stop, t, LiteralsOk(items[..n]), true);
        }
      } else {
        GuidedLess(lang, keys, x, w.pool, w.stop, t, LiteralsOk(items[..n]), LiteralsOk(items));
      }
    }
  }

  lemma GuidedNone(lang: Language, keys: set<Key>, x: Pool, t: set<Instance>)
    ensures Guided(lang, keys, x, x, Going, t, true)
  {
  }

  lemma GuidedRoomier(lang: Language, keys: set<Key>, x: Pool, r: Pool, stop: Stop, t: set<Instance>, ok: bool)
    requires Guided(lang, keys, x.(functions := x.functions + [0]), r, stop, t, ok)
    ensures Guided(lang, keys, x, r, stop, t, ok)
  {
    hide AllGood;
    if InRange(x) {
      assert InRange(x.(functions := x.functions + [0]));
    }
  }

  lemma GuidedLess(lang: Language, keys: set<Key>, x: Pool, r: Pool, stop: Stop, t: set<Instance>, ok: bool, less: bool)
    requires Guided(lang, keys, x, r, stop, t, ok) && (less ==> ok)
    ensures Guided(lang, keys, x, r, stop, t, less)
  {
  }

  lemma GuidedTwice(lang: Language, keys: set<Key>, x: Pool, y: Pool, z: Pool, stop: Stop, t: set<Instance>, a: bool, b: bool)
    requires Guided(lang, keys, x, y, Going, t, a) && Guided(lang, keys, y, z, stop, t, b)
    ensures Guided(lang, keys, x, z, stop, t, a && b)
  {
    hide InRange, AllGood;
  }

  lemma {:induction false} BodyGuided(lang: Language, ctx: Context, x: Pool, b: Body, t: set<Instance>)
    requires Closed(lang, t) && AllUses(lang, b.items) <= t
    ensures var r := CompileBody(lang, ctx, x, b);
      Guided(lang, ctx.table.Keys, x.(functions := x.functions + [0]), r.pool, r.stop, t, b.ok && LiteralsOk(b.items))
    decreases lang.templates.Keys - x.specs.Keys, Size(b.items), 2
  {
    hide Closed, AllGood;
    ItemsGuided(lang, ctx, x.(functions := x.functions + [0]), b.items, t);
  }

  lemma {:induction false} UseGuided(lang: Language, ctx: Context, x: Pool, i: Instance, called: bool, t: set<Instance>)
    requires Closed(lang, t) && (i in lang.templates ==> i in t)
    ensures var r := CompileUse(lang, ctx, x, i, called); Guided(lang, ctx.table.Keys, x, r.pool, r.stop, t, true)
    decreases lang.templates.Keys - x.specs.Keys, 0, 0
  {
    if i.callee in ctx.table && i !in x.specs && i in lang.templates {
      var entered := x.(specs := x.specs[i := |x.functions|]);
      assert i in lang.templates.Keys - x.specs.Keys;
      assert Next(lang, i) <= t;
      BodyGuided(lang, ctx, entered, lang.templates[i], t);
    }
  }

  // ---------- two sessions side by side ----------

  function Without(specs: map<Instance, nat>, stale: set<Instance>): map<Instance, nat> {
    map i | i in specs && i !in stale :: specs[i]
  }

  /** As many functions, and the same entries up to stale ones. */
  ghost predicate Beside(x: Pool, y: Pool, stale: set<Instance>) {
    |x.functions| == |y.functions| && y.specs == Without(x.specs, stale)
  }

  /** The two compilations took the same course, and made the same code if they started from the same. */
  ghost predicate SameCourse(same: bool, x: Pool, y: Pool, r: Built, q: Built, stale: set<Instance>) {
    r.stop == q.stop && Beside(r.pool, q.pool, stale) && (same && x.functions == y.functions ==> r.pool.functions == q.pool.functions)
  }

  ghost predicate Safe(lang: Language, uses: set<Instance>, t: set<Instance>, stale: set<Instance>) {
    Closed(lang, t) && uses <= t && t !! stale && stale <= lang.templates.Keys
  }

  lemma {:induction false} ItemsBeside(lang: Language, ctx: Context, ctx': Context, x: Pool, y: Pool, items: seq<Item>, stale: set<Instance>, t: set<Instance>)
    requires ctx.table == ctx'.table && Beside(x, y, stale) && Safe(lang, AllUses(lang, items), t, stale)
    ensures var w, v := CompileItems(lang, ctx, x, items), CompileItems(lang, ctx', y, items);
      SameCourse(ctx == ctx', x, y, Built(w.pool, w.stop), Built(v.pool, v.stop), stale) && w.literals == v.literals
    decreases lang.templates.Keys - x.specs.Keys, Size(items), 1
  {
    hide Closed, Without;
    if items != [] {
      var n := |items| - 1;
      ItemsBeside(lang, ctx, ctx', x, y, items[..n], stale, t);
      var w, v := CompileItems(lang, ctx, x, items[..n]), CompileItems(lang, ctx', y, items[..n]);
      if w.stop == Going {
        if items[n].Literal? {
          BodyBeside(lang, ctx, ctx', w.pool, v.pool, items[n].body, stale, t);
        } else {
          UseBeside(lang, ctx, ctx', w.pool, v.pool, items[n].instance, items[n].called, stale, t);
        }
      }
    }
  }

  lemma {:induction false} BodyBeside(lang: Language, ctx: Context, ctx': Context, x: Pool, y: Pool, b: Body, stale: set<Instance>, t: set<Instance>)
    requires ctx.table == ctx'.table && Beside(x, y, stale) && Safe(lang, AllUses(lang, b.items), t, stale)
    ensures SameCourse(ctx == ctx', x, y, CompileBody(lang, ctx, x, b), CompileBody(lang, ctx', y, b), stale)
    decreases lang.templates.Keys - x.specs.Keys, Size(b.items), 2
  {
    hide Closed, Without, Chosen, OwnUses;
    var started, begun := x.(functions := x.functions + [0]), y.(functions := y.functions + [0]);
    ItemsBeside(lang, ctx, ctx', started, begun, b.items, stale, t);
    var w, v := CompileItems(lang, ctx, started, b.items), CompileItems(lang, ctx', begun, b.items);
    OwnUsesKnown(lang, b.items);
    SameChosen(w.pool.specs, OwnUses(b.items), stale);
  }

  lemma {:induction false} UseBeside(lang: Language, ctx: Context, ctx': Context, x: Pool, y: Pool, i: Instance, called: bool, stale: set<Instance>, t: set<Instance>)
    requires ctx.table == ctx'.table && Beside(x, y, stale) && Safe(lang, UsesOf(lang, Use(i, called)), t, stale)
    ensures SameCourse(ctx == ctx', x, y, CompileUse(lang, ctx, x, i, called), CompileUse(lang, ctx', y, i, called), stale)
    decreases lang.templates.Keys - x.specs.Keys, 0, 0
  {
    if i.callee in ctx.table && i !in x.specs && i in lang.templates {
      var entered, reserved := x.(specs := x.specs[i := |x.functions|]), y.(specs := y.specs[i := |y.functions|]);
      assert i in lang.templates.Keys - x.specs.Keys;
      assert Next(lang, i) <= t;
      EnteredBeside(x, y, i, stale);
      BodyBeside(lang, ctx, ctx', entered, reserved, lang.templates[i], stale, t);
    }
  }

  lemma SameChosen(specs: map<Instance, nat>, uses: set<Instance>, stale: set<Instance>)
    requires uses !! stale
    ensures Chosen(specs, uses) == Chosen(Without(specs, stale), uses)
  {
  }

  lemma EnteredBeside(x: Pool, y: Pool, i: Instance, stale: set<Instance>)
    requires Beside(x, y, stale) && i !in stale
    ensures Beside(x.(specs := x.specs[i := |x.functions|]), y.(specs := y.specs[i := |y.functions|]), stale)
  {
  }

  lemma {:induction false} OwnUsesKnown(lang: Language, items: seq<Item>)
    ensures forall i :: i in OwnUses(items) && i in lang.templates ==> i in AllUses(lang, items)
  {
    if items != [] {
      var n := |items| - 1;
      OwnUsesKnown(lang, items[..n]);
      forall i | i in OwnUses(items) && i in lang.templates ensures i in AllUses(lang, items) {
        var k :| 0 <= k < |items| && items[k].Use? && items[k].instance == i;
        if k < n {
          assert items[..n][k] == items[k];
          assert i in OwnUses(items[..n]);
        }
      }
    }
  }
}

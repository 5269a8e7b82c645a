/** What compiling leaves in the function list: every new function is the code of its body, linked to the functions its literals and instances are. */
module ReplCode {
  import opened Wrappers
  import opened ReplModel
  import opened ReplLinking

  /** Which body each new function is compiled from. */
  type Origins = map<nat, Body>

  /** The function literals met in a body itself, in order. */
  function LiteralBodies(items: seq<Item>): seq<Body> {
    if items == [] then []
    else
      var n := |items| - 1;
      LiteralBodies(items[..n]) + if items[n].Literal? then [items[n].body] else []
  }

  /** The indices are those of functions compiled from these bodies. */
  ghost predicate At(made: Origins, bodies: seq<Body>, indices: seq<nat>) {
    |indices| == |bodies| && forall k :: 0 <= k < |bodies| ==> indices[k] in made && made[indices[k]] == bodies[k]
  }

  /** The instances a body uses: an older one is where it was entered, a new one where its body was compiled. */
  ghost predicate Leads(lang: Language, x: Pool, made: Origins, b: Body, instances: map<Instance, nat>) {
    && (forall i :: i in instances <==> i in OwnUses(b.items) && (i in lang.templates || i in x.specs))
    && (forall i :: i in instances ==>
          if i in x.specs then instances[i] == x.specs[i]
          else i in lang.templates && instances[i] in made && made[instances[i]] == lang.templates[i])
  }

  /** Function n is the code of its body, linked so. */
  ghost predicate Coded(lang: Language, ctx: Context, x: Pool, functions: seq<Code>, made: Origins, n: nat) {
    n in made && n < |functions| &&
    exists instances, literals ::
      && functions[n] == made[n].own(Linkage(ctx.globals, ctx.table, instances, literals))
      && Leads(lang, x, made, made[n], instances) && At(made, LiteralBodies(made[n].items), literals)
  }

  /** New instances are where their bodies were compiled. */
  ghost predicate Entered(lang: Language, x: Pool, r: Pool, made: Origins) {
    && (forall i :: i in x.specs ==> i in r.specs && r.specs[i] == x.specs[i])
    && (forall i :: i in r.specs && i !in x.specs ==> i in lang.templates && r.specs[i] in made && made[r.specs[i]] == lang.templates[i])
  }

  /** From one pool to another: every function in between is coded, and new instances are entered. */
  ghost predicate Built(lang: Language, ctx: Context, x: Pool, r: Pool, made: Origins) {
    && x.functions <= r.functions && (forall n: nat :: n in made <==> |x.functions| <= n < |r.functions|)
    && Entered(lang, x, r, made) && (forall n: nat :: n in made ==> Coded(lang, ctx, x, r.functions, made, n))
  }

  lemma BuiltNone(lang: Language, ctx: Context, x: Pool)
    ensures Built(lang, ctx, x, x, map[])
  {
  }

  /** What is coded stays so as more is made. */
  lemma CodedOn(lang: Language, ctx: Context, x: Pool, functions: seq<Code>, made: Origins, functions': seq<Code>, made': Origins, n: nat)
    requires Coded(lang, ctx, x, functions, made, n) && n < |functions'| && functions'[n] == functions[n]
    requires forall k: nat :: k in made ==> k in made' && made'[k] == made[k]
    ensures Coded(lang, ctx, x, functions', made', n)
  {
    var instances, literals :|
      && functions[n] == made[n].own(Linkage(ctx.globals, ctx.table, instances, literals))
      && Leads(lang, x, made, made[n], instances) && At(made, LiteralBodies(made[n].items), literals);
    assert Leads(lang, x, made', made'[n], instances) && At(made', LiteralBodies(made'[n].items), literals);
  }

  /** Seen from an earlier pool, whose newer instances are known. */
  lemma CodedFrom(lang: Language, ctx: Context, x: Pool, y: Pool, functions: seq<Code>, made: Origins, n: nat)
    requires Coded(lang, ctx, y, functions, made, n) && Entered(lang, x, y, made)
    ensures Coded(lang, ctx, x, functions, made, n)
  {
    var instances, literals :|
      && functions[n] == made[n].own(Linkage(ctx.globals, ctx.table, instances, literals))
      && Leads(lang, y, made, made[n], instances) && At(made, LiteralBodies(made[n].items), literals);
    assert Leads(lang, x, made, made[n], instances);
  }

  lemma EnteredTwice(lang: Language, x: Pool, y: Pool, z: Pool, made: Origins)
    requires Entered(lang, x, y, made) && Entered(lang, y, z, made)
    ensures Entered(lang, x, z, made)
  {
  }

  lemma EnteredOn(lang: Language, x: Pool, r: Pool, made: Origins, made': Origins)
    requires Entered(lang, x, r, made) && forall k: nat :: k in made ==> k in made' && made'[k] == made[k]
    ensures Entered(lang, x, r, made')
  {
  }

  lemma BuiltTwice(lang: Language, ctx: Context, x: Pool, y: Pool, z: Pool, a: Origins, b: Origins)
    requires Built(lang, ctx, x, y, a) && Built(lang, ctx, y, z, b)
    ensures Built(lang, ctx, x, z, a + b) && forall k: nat :: k in a ==> (a + b)[k] == a[k]
  {
    hide Coded, Entered;
    var made := a + b;
    EnteredOn(lang, x, y, a, made);
    EnteredOn(lang, y, z, b, made);
    EnteredTwice(lang, x, y, z, made);
    forall n: nat | n in made ensures Coded(lang, ctx, x, z.functions, made, n) {
      if n in a {
        CodedOn(lang, ctx, x, y.functions, a, z.functions, made, n);
      } else {
        CodedOn(lang, ctx, y, z.functions, b, z.functions, made, n);
        CodedFrom(lang, ctx, x, y, z.functions, made, n);
      }
    }
  }

  lemma AtMore(a: Origins, b: Origins, bodies: seq<Body>, indices: seq<nat>)
    requires At(a, bodies, indices) && forall k: nat :: k in a ==> k in b && b[k] == a[k]
    ensures At(b, bodies, indices)
  {
  }

  lemma AtSnoc(made: Origins, bodies: seq<Body>, indices: seq<nat>, body: Body, index: nat)
    requires At(made, bodies, indices) && index in made && made[index] == body
    ensures At(made, bodies + [body], indices + [index])
  {
  }

  // ---------- compilation ----------

  lemma {:induction false} ItemsLinked(lang: Language, ctx: Context, x: Pool, items: seq<Item>) returns (made: Origins)
    requires CompileItems(lang, ctx, x, items).stop == Going
    ensures var w := CompileItems(lang, ctx, x, items);
      && Built(lang, ctx, x, w.pool, made) && At(made, LiteralBodies(items), w.literals)
      && (forall i :: i in OwnUses(items) && i in lang.templates ==> i in w.pool.specs)
    decreases lang.templates.Keys - x.specs.Keys, Size(items), 1
  {
    hide Built, At, CompileBody, CompileUse;
    if items == [] {
      made := map[];
      BuiltNone(lang, ctx, x);
      AtNone();
    } else {
      var n := |items| - 1;
      var front := ItemsLinked(lang, ctx, x, items[..n]);
      var w := CompileItems(lang, ctx, x, items[..n]);
      var more := ItemLinked(lang, ctx, x, w.pool, items, n);
      made := front + more;
      var r := CompileItems(lang, ctx, x, items);
      BuiltTwice(lang, ctx, x, w.pool, r.pool, front, more);
      AtMore(front, made, LiteralBodies(items[..n]), w.literals);
      OwnUsesSnoc(items);
      if items[n].Literal? {
        AtSnoc(made, LiteralBodies(items[..n]), w.literals, items[n].body, |w.pool.functions|);
      } else {
        assert LiteralBodies(items[..n]) + [] == LiteralBodies(items[..n]);
      }
    }
  }

  lemma AtNone()
    ensures At(map[], [], [])
  {
  }

  lemma OwnUsesSnoc(items: seq<Item>)
    requires items != []
    ensures var n := |items| - 1; OwnUses(items) == OwnUses(items[..n]) + if items[n].Use? then {items[n].instance} else {}
  {
    var n := |items| - 1;
    assert forall k :: 0 <= k < n ==> items[..n][k] == items[k];
  }

  /** One more item. */
  lemma {:induction false} ItemLinked(lang: Language, ctx: Context, x: Pool, y: Pool, items: seq<Item>, n: nat) returns (made: Origins)
    requires n == |items| - 1 && CompileItems(lang, ctx, x, items[..n]).stop == Going && y == CompileItems(lang, ctx, x, items[..n]).pool
    requires CompileItems(lang, ctx, x, items).stop == Going
    ensures var r := CompileItems(lang, ctx, x, items).pool;
      && Built(lang, ctx, y, r, made) && (items[n].Literal? ==> |y.functions| in made && made[|y.functions|] == items[n].body)
      && (items[n].Use? && items[n].instance in lang.templates ==> items[n].instance in r.specs)
    decreases lang.templates.Keys - x.specs.Keys, Size(items), 0
  {
    hide Built, CompileBody, CompileUse;
    assert lang.templates.Keys - y.specs.Keys <= lang.templates.Keys - x.specs.Keys;
    if items[n].Literal? {
      made := BodyLinked(lang, ctx, y, items[n].body);
    } else {
      made := UseLinked(lang, ctx, y, items[n].instance, items[n].called);
    }
  }

  /** A body's own function, and all that was made for it. */
  lemma {:induction false} BodyLinked(lang: Language, ctx: Context, x: Pool, b: Body) returns (made: Origins)
    requires CompileBody(lang, ctx, x, b).stop == Going
    ensures var r := CompileBody(lang, ctx, x, b);
      Built(lang, ctx, x, r.pool, made) && |x.functions| in made && made[|x.functions|] == b
    decreases lang.templates.Keys - x.specs.Keys, Size(b.items), 2
  {
    hide CompileItems, Built;
    var started := x.(functions := x.functions + [0]);
    var inner := ItemsLinked(lang, ctx, started, b.items);
    var w := CompileItems(lang, ctx, started, b.items);
    made := inner[|x.functions| := b];
    BodyFilled(lang, ctx, x, b, w, inner);
  }

  lemma BodyFilled(lang: Language, ctx: Context, x: Pool, b: Body, w: Worked, inner: Origins)
    requires Built(lang, ctx, x.(functions := x.functions + [0]), w.pool, inner) && At(inner, LiteralBodies(b.items), w.literals)
    requires forall i :: i in OwnUses(b.items) && i in lang.templates ==> i in w.pool.specs
    requires |x.functions| < |w.pool.functions|
    ensures var code := b.own(Linkage(ctx.globals, ctx.table, Chosen(w.pool.specs, OwnUses(b.items)), w.literals));
      Built(lang, ctx, x, w.pool.(functions := w.pool.functions[|x.functions| := code]), inner[|x.functions| := b])
  {
    hide Coded, Leads, At, OwnUses;
    var me, made := |x.functions|, inner[|x.functions| := b];
    var started, instances := x.(functions := x.functions + [0]), Chosen(w.pool.specs, OwnUses(b.items));
    var code := b.own(Linkage(ctx.globals, ctx.table, instances, w.literals));
    var r := w.pool.(functions := w.pool.functions[me := code]);
    assert me !in inner;
    AtMore(inner, made, LiteralBodies(b.items), w.literals);
    EnteredOn(lang, started, w.pool, inner, made);
    OwnLeads(lang, x, w.pool, made, b);
    OwnCoded(lang, ctx, x, r.functions, made, me, instances, w.literals);
    forall n: nat | n in made && n != me ensures Coded(lang, ctx, x, r.functions, made, n) {
      CodedOn(lang, ctx, started, w.pool.functions, inner, r.functions, made, n);
      SameSpecs(lang, ctx, x, started, r.functions, made, n);
    }
  }

  lemma SameSpecs(lang: Language, ctx: Context, x: Pool, y: Pool, functions: seq<Code>, made: Origins, n: nat)
    requires Coded(lang, ctx, y, functions, made, n) && x.specs == y.specs
    ensures Coded(lang, ctx, x, functions, made, n)
  {
    CodedFrom(lang, ctx, x, y, functions, made, n);
  }

  lemma OwnCoded(lang: Language, ctx: Context, x: Pool, functions: seq<Code>, made: Origins, n: nat, instances: map<Instance, nat>, literals: seq<nat>)
    requires n in made && n < |functions| && functions[n] == made[n].own(Linkage(ctx.globals, ctx.table, instances, literals))
    requires Leads(lang, x, made, made[n], instances) && At(made, LiteralBodies(made[n].items), literals)
    ensures Coded(lang, ctx, x, functions, made, n)
  {
  }

  lemma OwnLeads(lang: Language, x: Pool, r: Pool, made: Origins, b: Body)
    requires Entered(lang, x, r, made) && forall i :: i in OwnUses(b.items) && i in lang.templates ==> i in r.specs
    ensures Leads(lang, x, made, b, Chosen(r.specs, OwnUses(b.items)))
  {
    hide OwnUses;
  }

  lemma {:induction false} UseLinked(lang: Language, ctx: Context, x: Pool, i: Instance, called: bool) returns (made: Origins)
    requires CompileUse(lang, ctx, x, i, called).stop == Going
    ensures var r := CompileUse(lang, ctx, x, i, called); Built(lang, ctx, x, r.pool, made) && (i in lang.templates ==> i in r.pool.specs)
    decreases lang.templates.Keys - x.specs.Keys, 0, 0
  {
    hide CompileBody;
    if i !in lang.templates || i in x.specs {
      made := map[];
      BuiltNone(lang, ctx, x);
    } else {
      var entered := x.(specs := x.specs[i := |x.functions|]);
      assert i in lang.templates.Keys - x.specs.Keys;
      made := BodyLinked(lang, ctx, entered, lang.templates[i]);
      UseBuilt(lang, ctx, x, i, CompileBody(lang, ctx, entered, lang.templates[i]).pool, made);
    }
  }

  lemma UseBuilt(lang: Language, ctx: Context, x: Pool, i: Instance, r: Pool, made: Origins)
    requires i in lang.templates && i !in x.specs && Built(lang, ctx, x.(specs := x.specs[i := |x.functions|]), r, made)
    requires |x.functions| in made && made[|x.functions|] == lang.templates[i]
    ensures Built(lang, ctx, x, r, made) && i in r.specs
  {
    hide Coded;
    var entered := x.(specs := x.specs[i := |x.functions|]);
    assert Entered(lang, x, entered, made);
    EnteredTwice(lang, x, entered, r, made);
    forall n: nat | n in made ensures Coded(lang, ctx, x, r.functions, made, n) {
      CodedFrom(lang, ctx, x, entered, r.functions, made, n);
    }
  }

  // ---------- the functions of a submission ----------

  /** The function table once these declarations are entered, each function at its index. */
  function Tabled(table: map<Key, nat>, ds: seq<Decl>, starts: seq<nat>): map<Key, nat>
    requires |starts| == |ds|
  {
    if ds == [] then table
    else
      var n := |ds| - 1;
      var before := Tabled(table, ds[..n], starts[..n]);
      if ds[n].Function? then before[Key(ds[n].receiver, ds[n].name) := starts[n]] else before
  }

  /** The indices of the init functions among them, in order. */
  function InitsAt(ds: seq<Decl>, starts: seq<nat>): seq<nat>
    requires |starts| == |ds|
  {
    if ds == [] then []
    else
      var n := |ds| - 1;
      InitsAt(ds[..n], starts[..n]) + if ds[n].Init? then [starts[n]] else []
  }

  /** Declaration n is compiled at its index from its own body, against a table that holds the functions up to it, and stays there. */
  ghost predicate Placed(lang: Language, m: Meta, ds: seq<Decl>, bodies: nat -> Body, starts: seq<nat>, functions: seq<Code>, n: nat)
    requires |starts| == |ds| && n < |ds|
  {
    exists x, r, made ::
      && Built(lang, Context(m.globals, Tabled(m.table, ds[..n + 1], starts[..n + 1])), x, r, made)
      && |x.functions| == starts[n] && starts[n] in made && made[starts[n]] == bodies(n) && r.functions <= functions
  }

  lemma {:induction false} FuncsLinked(lang: Language, m: Meta, ds: seq<Decl>, bodies: nat -> Body) returns (starts: seq<nat>)
    requires CompileFuncs(lang, m, ds, bodies).stop == Going
    ensures var c := CompileFuncs(lang, m, ds, bodies);
      && |starts| == |ds| && c.meta.table == Tabled(m.table, ds, starts) && c.inits == InitsAt(ds, starts) && c.meta.globals == m.globals
      && (forall n :: 0 <= n < |ds| && !ds[n].General? ==> Placed(lang, m, ds, bodies, starts, c.meta.functions, n))
    decreases |ds|
  {
    hide Built, CompileBody;
    if ds == [] {
      starts := [];
    } else {
      var k := |ds| - 1;
      var front := FuncsLinked(lang, m, ds[..k], bodies);
      var b, c := CompileFuncs(lang, m, ds[..k], bodies), CompileFuncs(lang, m, ds, bodies);
      starts := front + [|b.meta.functions|];
      assert starts[..k] == front && ds[..k + 1] == ds && starts[..k + 1] == starts;
      if !ds[k].General? {
        LastPlaced(lang, m, ds, bodies, starts);
      }
      OneKeeps(lang, b, ds[k], bodies(k));
      forall n | 0 <= n < k && !ds[n].General? ensures Placed(lang, m, ds, bodies, starts, c.meta.functions, n) {
        StaysPlaced(lang, m, ds, bodies, starts, b.meta.functions, c.meta.functions, n);
      }
    }
  }

  lemma OneKeeps(lang: Language, c: Compiled, d: Decl, b: Body)
    ensures c.meta.functions <= CompileOne(lang, c, d, b).meta.functions
  {
    hide CompileBody, Adds;
    if c.stop == Going && !d.General? {
      var m := if d.Init? then c.meta else Enter(c.meta, d);
      BodyAdds(lang, Context(m.globals, m.table), PoolOf(m), b);
      AddsGrow(lang, m.table.Keys, PoolOf(m), CompileBody(lang, Context(m.globals, m.table), PoolOf(m), b).pool);
    }
  }

  lemma AddsGrow(lang: Language, keys: set<Key>, x: Pool, r: Pool)
    requires Adds(lang, keys, x, r)
    ensures x.functions <= r.functions
  {
  }

  lemma LastPlaced(lang: Language, m: Meta, ds: seq<Decl>, bodies: nat -> Body, starts: seq<nat>)
    requires ds != [] && CompileFuncs(lang, m, ds, bodies).stop == Going && !ds[|ds| - 1].General? && |starts| == |ds|
    requires var k := |ds| - 1; var b := CompileFuncs(lang, m, ds[..k], bodies).meta;
      starts[k] == |b.functions| && b.table == Tabled(m.table, ds[..k], starts[..k]) && b.globals == m.globals
    ensures Placed(lang, m, ds, bodies, starts, CompileFuncs(lang, m, ds, bodies).meta.functions, |ds| - 1)
  {
    hide Built, CompileBody;
    var k := |ds| - 1;
    var b := CompileFuncs(lang, m, ds[..k], bodies).meta;
    var e := if ds[k].Init? then b else Enter(b, ds[k]);
    assert ds[..k + 1] == ds && starts[..k + 1] == starts;
    var made := BodyLinked(lang, Context(e.globals, e.table), PoolOf(e), bodies(k));
  }

  lemma StaysPlaced(lang: Language, m: Meta, ds: seq<Decl>, bodies: nat -> Body, starts: seq<nat>, functions: seq<Code>, functions': seq<Code>, n: nat)
    requires |starts| == |ds| && n < |ds| - 1 && functions <= functions'
    requires Placed(lang, m, ds[..|ds| - 1], bodies, starts[..|ds| - 1], functions, n)
    ensures Placed(lang, m, ds, bodies, starts, functions', n)
  {
    hide Built;
    var k := |ds| - 1;
    assert ds[..k][..n + 1] == ds[..n + 1] && starts[..k][..n + 1] == starts[..n + 1];
  }
}

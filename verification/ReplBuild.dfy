/** What compiling a whole submission needs, makes and costs, and when two sessions compile it alike. */
module ReplBuild {
  import opened Wrappers
  import opened ReplModel
  import opened ReplLinking
  import opened ReplHistory

  // ---------- what a submission is made of ----------

  function KeyOf(d: Decl): set<Key> {
    if d.Function? then {Key(d.receiver, d.name)} else {}
  }

  /** The keys the functions are entered under. */
  function KeysIn(ds: seq<Decl>): set<Key> {
    if ds == [] then {} else KeysIn(ds[..|ds| - 1]) + KeyOf(ds[|ds| - 1])
  }

  function FuncUses(lang: Language, ds: seq<Decl>, bodies: nat -> Body): set<Instance> {
    if ds == [] then {}
    else
      var n := |ds| - 1;
      FuncUses(lang, ds[..n], bodies) + if ds[n].General? then {} else AllUses(lang, bodies(n).items)
  }

  /** The instances a submission uses. */
  function Uses(lang: Language, ds: seq<Decl>, a: Attempt): set<Instance> {
    FuncUses(lang, ds, a.bodies) + AllUses(lang, a.variableInit.items) + AllUses(lang, a.evaluation.items)
  }

  function FuncCount(ds: seq<Decl>, bodies: nat -> Body): nat {
    if ds == [] then 0
    else
      var n := |ds| - 1;
      FuncCount(ds[..n], bodies) + if ds[n].General? then 0 else 1 + Literals(bodies(n).items)
  }

  /** The functions it adds besides instances. */
  function OwnCount(ds: seq<Decl>, a: Attempt): nat {
    FuncCount(ds, a.bodies) + Literals(a.variableInit.items) + Literals(a.evaluation.items)
  }

  predicate BodyOk(b: Body) {
    b.ok && LiteralsOk(b.items)
  }

  predicate BodiesOk(ds: seq<Decl>, bodies: nat -> Body) {
    ds == [] || (BodiesOk(ds[..|ds| - 1], bodies) && (ds[|ds| - 1].General? || BodyOk(bodies(|ds| - 1))))
  }

  predicate AllOk(ds: seq<Decl>, a: Attempt) {
    BodiesOk(ds, a.bodies) && BodyOk(a.variableInit) && BodyOk(a.evaluation)
  }

  /** Every instance a body needs is good, once the functions before it are entered. */
  ghost predicate Buildable(lang: Language, keys: set<Key>, b: Body) {
    AllGood(lang, keys, Needs(lang, AllUses(lang, b.items)))
  }

  ghost predicate FuncsBuildable(lang: Language, keys: set<Key>, ds: seq<Decl>, bodies: nat -> Body) {
    ds == [] || (FuncsBuildable(lang, keys, ds[..|ds| - 1], bodies)
                 && (ds[|ds| - 1].General? || Buildable(lang, keys + KeysIn(ds), bodies(|ds| - 1))))
  }

  /** Every instance a submission needs is good where it is needed. */
  ghost predicate Builds(lang: Language, keys: set<Key>, ds: seq<Decl>, a: Attempt) {
    && FuncsBuildable(lang, keys, ds, a.bodies)
    && Buildable(lang, keys + KeysIn(ds), a.variableInit) && Buildable(lang, keys + KeysIn(ds), a.evaluation)
  }

  // ---------- one function, or a body that is none ----------

  /** The session a body is compiled in. */
  function Entered(m: Meta, d: Decl): Meta {
    if d.Function? then Enter(m, d) else m
  }

  lemma OneStep(lang: Language, c: Compiled, d: Decl, b: Body)
    requires c.stop == Going && !d.General?
    ensures var x, r := Entered(c.meta, d), CompileOne(lang, c, d, b);
      && r.meta.table == x.table && x.table.Keys == c.meta.table.Keys + KeyOf(d) && PoolOf(x) == PoolOf(c.meta) && x.globals == c.meta.globals
      && Built(PoolOf(r.meta), r.stop) == CompileBody(lang, Context(x.globals, x.table), PoolOf(x), b)
      && r.meta.globals == c.meta.globals
  {
    hide CompileBody;
  }

  lemma LooseStep(lang: Language, c: Compiled, b: Body)
    requires c.stop == Going
    ensures var r := CompileLoose(lang, c, b); var w := CompileItems(lang, Context(c.meta.globals, c.meta.table), PoolOf(c.meta), b.items);
      && r.meta == Refilled(c.meta, w.pool) && PoolOf(r.meta) == w.pool && r.meta.table == c.meta.table
      && r.stop == if w.stop == Going && !b.ok then Refused else w.stop
  {
    hide CompileItems;
  }

  // ---------- complete ----------

  /** A compilation that made everything used. */
  ghost predicate Whole(lang: Language, m: Meta, r: Meta, uses: set<Instance>, own: nat) {
    && Complete(lang, r.table.Keys, PoolOf(m), PoolOf(r), uses, own)
    && m.specs.Keys <= r.specs.Keys && m.table.Keys <= r.table.Keys
  }

  lemma WiderComplete(lang: Language, keys: set<Key>, wider: set<Key>, x: Pool, r: Pool, uses: set<Instance>, own: nat)
    requires Complete(lang, keys, x, r, uses, own) && keys <= wider
    ensures Complete(lang, wider, x, r, uses, own)
  {
    hide Next, Total, LiteralsOk;
  }

  lemma WholeNone(lang: Language, m: Meta)
    ensures Whole(lang, m, m, {}, 0)
  {
    hide Complete;
    CompleteNone(lang, m.table.Keys, PoolOf(m));
  }

  lemma WholeTwice(lang: Language, m: Meta, x: Meta, r: Meta, a: set<Instance>, b: set<Instance>, j: nat, k: nat)
    requires Whole(lang, m, x, a, j) && Whole(lang, x, r, b, k)
    ensures Whole(lang, m, r, a + b, j + k)
  {
    hide Complete;
    WiderComplete(lang, x.table.Keys, r.table.Keys, PoolOf(m), PoolOf(x), a, j);
    CompleteTwice(lang, r.table.Keys, PoolOf(m), PoolOf(x), PoolOf(r), a, b, j, k);
  }

  lemma OneWhole(lang: Language, c: Compiled, d: Decl, b: Body)
    requires c.stop == Going && !d.General? && CompileOne(lang, c, d, b).stop == Going
    ensures Whole(lang, c.meta, CompileOne(lang, c, d, b).meta, AllUses(lang, b.items), 1 + Literals(b.items)) && BodyOk(b)
  {
    hide CompileBody, CompileOne, Complete, Adds;
    OneStep(lang, c, d, b);
    OneFills(lang, c, d, b);
    var x := Entered(c.meta, d);
    BodyComplete(lang, Context(x.globals, x.table), PoolOf(x), b);
  }

  lemma LooseWhole(lang: Language, c: Compiled, b: Body)
    requires c.stop == Going && CompileLoose(lang, c, b).stop == Going
    ensures Whole(lang, c.meta, CompileLoose(lang, c, b).meta, AllUses(lang, b.items), Literals(b.items)) && BodyOk(b)
  {
    hide CompileItems, CompileLoose, Complete, Adds;
    LooseStep(lang, c, b);
    ItemsComplete(lang, Context(c.meta.globals, c.meta.table), PoolOf(c.meta), b.items);
  }

  lemma KeysSnoc(ds: seq<Decl>)
    requires ds != []
    ensures KeysIn(ds) == KeysIn(ds[..|ds| - 1]) + KeyOf(ds[|ds| - 1]) && (ds[|ds| - 1].General? ==> KeysIn(ds) == KeysIn(ds[..|ds| - 1]))
  {
  }

  lemma OneStops(lang: Language, c: Compiled, d: Decl, b: Body)
    ensures c.stop != Going || d.General? ==> CompileOne(lang, c, d, b) == c
  {
  }

  lemma LooseStops(lang: Language, c: Compiled, b: Body)
    ensures c.stop != Going ==> CompileLoose(lang, c, b) == c
  {
  }

  lemma {:induction false} FuncsKeys(lang: Language, m: Meta, ds: seq<Decl>, bodies: nat -> Body)
    requires CompileFuncs(lang, m, ds, bodies).stop == Going
    ensures CompileFuncs(lang, m, ds, bodies).meta.table.Keys == m.table.Keys + KeysIn(ds)
  {
    hide CompileOne, KeyOf;
    if ds != [] {
      var n := |ds| - 1;
      var c := CompileFuncs(lang, m, ds[..n], bodies);
      OneStops(lang, c, ds[n], bodies(n));
      FuncsKeys(lang, m, ds[..n], bodies);
      KeysSnoc(ds);
      hide KeysIn;
      if !ds[n].General? {
        OneStep(lang, c, ds[n], bodies(n));
      }
    }
  }

  /** A successful compilation of the functions is complete. */
  lemma {:induction false} FuncsWhole(lang: Language, m: Meta, ds: seq<Decl>, bodies: nat -> Body)
    requires CompileFuncs(lang, m, ds, bodies).stop == Going
    ensures Whole(lang, m, CompileFuncs(lang, m, ds, bodies).meta, FuncUses(lang, ds, bodies), FuncCount(ds, bodies)) && BodiesOk(ds, bodies)
  {
    hide CompileOne, Whole, BodyOk, AllUses, Literals;
    if ds == [] {
      WholeNone(lang, m);
    } else {
      var n := |ds| - 1;
      var c, r := CompileFuncs(lang, m, ds[..n], bodies), CompileFuncs(lang, m, ds, bodies);
      OneStops(lang, c, ds[n], bodies(n));
      FuncsWhole(lang, m, ds[..n], bodies);
      UsesSnoc(lang, ds, bodies);
      hide FuncUses;
      if !ds[n].General? {
        OneWhole(lang, c, ds[n], bodies(n));
        WholeTwice(lang, m, c.meta, r.meta, FuncUses(lang, ds[..n], bodies), AllUses(lang, bodies(n).items),
          FuncCount(ds[..n], bodies), 1 + Literals(bodies(n).items));
      }
    }
  }

  lemma UsesSnoc(lang: Language, ds: seq<Decl>, bodies: nat -> Body)
    requires ds != []
    ensures var n := |ds| - 1;
      FuncUses(lang, ds, bodies)
      == if ds[n].General? then FuncUses(lang, ds[..n], bodies) else FuncUses(lang, ds[..n], bodies) + AllUses(lang, bodies(n).items)
  {
    hide AllUses;
  }

  /** So is one of a whole submission. */
  lemma NewWhole(lang: Language, m: Meta, ds: seq<Decl>, a: Attempt)
    requires CompileNew(lang, m, ds, a).stop == Going
    ensures var r := CompileNew(lang, m, ds, a).meta;
      Whole(lang, m, r, Uses(lang, ds, a), OwnCount(ds, a)) && AllOk(ds, a) && r.table.Keys == m.table.Keys + KeysIn(ds)
  {
    hide CompileFuncs, CompileLoose, Whole, RegisterVars, FuncUses, FuncCount, AllUses, Literals;
    var x := Registered(m, ds, a);
    var c := CompileFuncs(lang, x, ds, a.bodies);
    var d := CompileLoose(lang, c, a.variableInit);
    LooseStops(lang, c, a.variableInit);
    LooseStops(lang, d, a.evaluation);
    FuncsWhole(lang, x, ds, a.bodies);
    FuncsKeys(lang, x, ds, a.bodies);
    LooseWhole(lang, c, a.variableInit);
    LooseWhole(lang, d, a.evaluation);
    LooseStep(lang, c, a.variableInit);
    LooseStep(lang, d, a.evaluation);
    RegisteredIs(m, ds, a);
    WholeTwice(lang, x, c.meta, d.meta, FuncUses(lang, ds, a.bodies), AllUses(lang, a.variableInit.items),
      FuncCount(ds, a.bodies), Literals(a.variableInit.items));
    WholeTwice(lang, x, d.meta, CompileNew(lang, m, ds, a).meta, FuncUses(lang, ds, a.bodies) + AllUses(lang, a.variableInit.items),
      AllUses(lang, a.evaluation.items), FuncCount(ds, a.bodies) + Literals(a.variableInit.items), Literals(a.evaluation.items));
    WholeFrom(lang, m, x, CompileNew(lang, m, ds, a).meta, Uses(lang, ds, a), OwnCount(ds, a));
  }

  lemma WholeFrom(lang: Language, m: Meta, x: Meta, r: Meta, uses: set<Instance>, own: nat)
    requires Whole(lang, x, r, uses, own) && x.functions == m.functions && x.specs == m.specs && x.table == m.table
    ensures Whole(lang, m, r, uses, own)
  {
    hide Complete;
  }

  // ---------- within what is needed ----------

  lemma OneWithin(lang: Language, c: Compiled, d: Decl, b: Body, t: set<Instance>)
    requires Closed(lang, t) && (d.General? || AllUses(lang, b.items) <= t)
    ensures CompileOne(lang, c, d, b).meta.specs.Keys <= c.meta.specs.Keys + t
  {
    hide CompileBody, CompileOne, Closed, AllUses;
    OneStops(lang, c, d, b);
    if c.stop == Going && !d.General? {
      OneStep(lang, c, d, b);
      var x := Entered(c.meta, d);
      BodyGuided(lang, Context(x.globals, x.table), PoolOf(x), b, t);
    }
  }

  lemma LooseWithin(lang: Language, c: Compiled, b: Body, t: set<Instance>)
    requires Closed(lang, t) && AllUses(lang, b.items) <= t
    ensures CompileLoose(lang, c, b).meta.specs.Keys <= c.meta.specs.Keys + t
  {
    hide CompileItems, CompileLoose, Closed, AllUses;
    LooseStops(lang, c, b);
    if c.stop == Going {
      LooseStep(lang, c, b);
      ItemsGuided(lang, Context(c.meta.globals, c.meta.table), PoolOf(c.meta), b.items, t);
    }
  }

  lemma {:induction false} FuncsWithin(lang: Language, m: Meta, ds: seq<Decl>, bodies: nat -> Body, t: set<Instance>)
    requires Closed(lang, t) && FuncUses(lang, ds, bodies) <= t
    ensures CompileFuncs(lang, m, ds, bodies).meta.specs.Keys <= m.specs.Keys + t
  {
    hide CompileOne, Closed, AllUses;
    if ds != [] {
      var n := |ds| - 1;
      FuncsWithin(lang, m, ds[..n], bodies, t);
      OneWithin(lang, CompileFuncs(lang, m, ds[..n], bodies), ds[n], bodies(n), t);
    }
  }

  /** A compilation makes nothing outside what is needed. */
  lemma NewWithin(lang: Language, m: Meta, ds: seq<Decl>, a: Attempt, t: set<Instance>)
    requires Closed(lang, t) && Uses(lang, ds, a) <= t
    ensures CompileNew(lang, m, ds, a).meta.specs.Keys <= m.specs.Keys + t
  {
    hide CompileFuncs, CompileLoose, RegisterVars, FuncUses, AllUses, Closed;
    var x := Registered(m, ds, a);
    var c := CompileFuncs(lang, x, ds, a.bodies);
    RegisteredIs(m, ds, a);
    FuncsWithin(lang, x, ds, a.bodies, t);
    LooseWithin(lang, c, a.variableInit, t);
    LooseWithin(lang, CompileLoose(lang, c, a.variableInit), a.evaluation, t);
  }

  // ---------- sessions without leftovers ----------

  /** Every instance is there, good, and has all it needs. */
  ghost predicate Fit(lang: Language, m: Meta) {
    Closed(lang, m.specs.Keys) && AllGood(lang, m.table.Keys, m.specs.Keys) && InRange(PoolOf(m))
  }

  lemma WholeFit(lang: Language, m: Meta, r: Meta, uses: set<Instance>, own: nat)
    requires Fit(lang, m) && Whole(lang, m, r, uses, own) && Filled(lang, m, r)
    ensures Fit(lang, r) && AllGood(lang, r.table.Keys, Needs(lang, uses))
  {
    hide Next, Total, LiteralsOk, Needs;
    forall i | i in r.specs ensures Next(lang, i) <= r.specs.Keys && Good(lang, r.table.Keys, i) && r.specs[i] < |r.functions| {
      if i in m.specs {
        assert Next(lang, i) <= m.specs.Keys && Good(lang, m.table.Keys, i);
      }
    }
    NeedsLeast(lang, uses, r.specs.Keys);
  }

  /** Compiling in such a session goes on exactly as long as what is needed is good, and breaks nothing. */
  ghost predicate GoesOn(lang: Language, r: Compiled, ok: bool, builds: bool) {
    (r.stop == Going <==> ok && builds) && r.stop != Broken && (r.stop == Going ==> Fit(lang, r.meta))
  }

  lemma OneGoesOn(lang: Language, c: Compiled, d: Decl, b: Body)
    requires c.stop == Going && !d.General? && Fit(lang, c.meta)
    ensures GoesOn(lang, CompileOne(lang, c, d, b), BodyOk(b), Buildable(lang, c.meta.table.Keys + KeyOf(d), b))
  {
    hide CompileBody, CompileOne, Closed, AllUses, Needs, AllGood, InRange, LiteralsOk, Complete, Adds;
    OneStep(lang, c, d, b);
    var x, r, t := Entered(c.meta, d), CompileOne(lang, c, d, b), Needs(lang, AllUses(lang, b.items));
    UsesKnown(lang, b.items);
    NeedsClosed(lang, AllUses(lang, b.items));
    BodyGuided(lang, Context(x.globals, x.table), PoolOf(x), b, t);
    RoomyRange(PoolOf(x));
    if r.stop == Going {
      OneWhole(lang, c, d, b);
      OneFills(lang, c, d, b);
      WholeFit(lang, c.meta, r.meta, AllUses(lang, b.items), 1 + Literals(b.items));
    }
  }

  lemma RoomyRange(x: Pool)
    requires InRange(x)
    ensures InRange(x.(functions := x.functions + [0]))
  {
  }

  lemma LooseGoesOn(lang: Language, c: Compiled, b: Body)
    requires c.stop == Going && Fit(lang, c.meta)
    ensures GoesOn(lang, CompileLoose(lang, c, b), BodyOk(b), Buildable(lang, c.meta.table.Keys, b))
  {
    hide CompileItems, CompileLoose, Closed, AllUses, Needs, AllGood, InRange, LiteralsOk, Complete, Adds;
    LooseStep(lang, c, b);
    var r, t := CompileLoose(lang, c, b), Needs(lang, AllUses(lang, b.items));
    UsesKnown(lang, b.items);
    NeedsClosed(lang, AllUses(lang, b.items));
    ItemsGuided(lang, Context(c.meta.globals, c.meta.table), PoolOf(c.meta), b.items, t);
    if r.stop == Going {
      LooseWhole(lang, c, b);
      LooseFills(lang, c, b);
      WholeFit(lang, c.meta, r.meta, AllUses(lang, b.items), Literals(b.items));
    }
  }

  lemma {:induction false} FuncsGoOn(lang: Language, m: Meta, ds: seq<Decl>, bodies: nat -> Body)
    requires Fit(lang, m)
    ensures GoesOn(lang, CompileFuncs(lang, m, ds, bodies), BodiesOk(ds, bodies), FuncsBuildable(lang, m.table.Keys, ds, bodies))
  {
    hide CompileOne, Fit, Buildable, BodyOk;
    if ds != [] {
      var n := |ds| - 1;
      var c := CompileFuncs(lang, m, ds[..n], bodies);
      FuncsGoOn(lang, m, ds[..n], bodies);
      OneStops(lang, c, ds[n], bodies(n));
      KeysSnoc(ds);
      hide KeysIn;
      if c.stop == Going && !ds[n].General? {
        FuncsKeys(lang, m, ds[..n], bodies);
        OneGoesOn(lang, c, ds[n], bodies(n));
        assert c.meta.table.Keys + KeyOf(ds[n]) == m.table.Keys + KeysIn(ds);
      }
    }
  }

  /** In a session without leftovers a submission compiles exactly if its bodies do and everything it needs is good. */
  lemma NewGoesOn(lang: Language, m: Meta, ds: seq<Decl>, a: Attempt)
    requires Fit(lang, m)
    ensures GoesOn(lang, CompileNew(lang, m, ds, a), AllOk(ds, a), Builds(lang, m.table.Keys, ds, a))
  {
    hide CompileFuncs, CompileLoose, RegisterVars, Buildable, BodyOk, FuncsBuildable, BodiesOk, KeysIn, Whole;
    var x := Registered(m, ds, a);
    RegisteredIs(m, ds, a);
    FitFrom(lang, m, x);
    hide Fit, Registered;
    var c := CompileFuncs(lang, x, ds, a.bodies);
    var d := CompileLoose(lang, c, a.variableInit);
    FuncsGoOn(lang, x, ds, a.bodies);
    LooseStops(lang, c, a.variableInit);
    LooseStops(lang, d, a.evaluation);
    CompileNewIs(lang, m, ds, a);
    if c.stop == Going {
      FuncsKeys(lang, x, ds, a.bodies);
      LooseGoesOn(lang, c, a.variableInit);
      LooseStep(lang, c, a.variableInit);
      if d.stop == Going {
        LooseGoesOn(lang, d, a.evaluation);
      }
    }
  }

  lemma CompileNewIs(lang: Language, m: Meta, ds: seq<Decl>, a: Attempt)
    ensures CompileNew(lang, m, ds, a)
         == CompileLoose(lang, CompileLoose(lang, CompileFuncs(lang, Registered(m, ds, a), ds, a.bodies), a.variableInit), a.evaluation)
  {
  }

  lemma FitFrom(lang: Language, m: Meta, x: Meta)
    requires Fit(lang, m) && x.specs == m.specs && x.table == m.table && x.functions == m.functions
    ensures Fit(lang, x)
  {
    hide Closed, AllGood;
  }
}

/** What failed submissions leave behind besides instances: reserved slots and method entries, and exactly when that shows. */
module ReplLeftovers {
  import opened Wrappers
  import opened ReplModel
  import opened ReplHistory
  import opened ReplInvariant
  import opened ReplLinking
  import opened ReplBuild
  import opened ReplReplay

  // ---------- the combined file ----------

  /** After any history the retained text is each declaration once: read again, it introduces exactly the recorded names. */
  lemma RetainedIsRecorded(lang: Language, events: seq<Event>)
    ensures var m := After(lang, events);
      && Candidates(Retained(m.records)) == m.records && Distinct(m.records)
      && (forall i, j :: 0 <= i < j < |Retained(m.records)| ==> Retained(m.records)[i] != Retained(m.records)[j])
  {
    var m := After(lang, events);
    AlwaysSound(lang, events);
    hide After, Candidates, Retained, Distinct;
    var ds :| m.records == Candidates(ds);
    RetainedOnce(ds);
    RetainedDistinct(m.records);
  }

  lemma {:induction false} RetainedDistinct(rs: seq<Record>)
    ensures forall i, j :: 0 <= i < j < |Retained(rs)| ==> Retained(rs)[i] != Retained(rs)[j]
  {
    if rs != [] {
      RetainedDistinct(rs[..|rs| - 1]);
    }
  }

  /** A submission that passes the redeclaration test yields a file that declares every name once. */
  lemma CombinedDeclaresOnce(lang: Language, events: seq<Event>, s: Submission)
    requires FirstClash(After(lang, events).names, Candidates(s.decls)).None?
    ensures var m := After(lang, events);
      && Candidates(Retained(m.records) + s.decls) == m.records + Candidates(s.decls)
      && Distinct(Candidates(Retained(m.records) + s.decls))
  {
    var m := After(lang, events);
    AlwaysSound(lang, events);
    RetainedIsRecorded(lang, events);
    hide After, Candidates, Retained, FirstClash;
    FirstClashExact(m.names, Candidates(s.decls));
    CandidatesConcat(Retained(m.records), s.decls);
    JoinDistinct(m.records, Candidates(s.decls));
  }

  // ---------- slots ----------

  predicate IsVar(n: Named) {
    n.kind == VarKind && n.name != "_"
  }

  function VarsNamed(named: seq<Named>): set<Name> {
    set i | 0 <= i < |named| && IsVar(named[i]) :: named[i].name
  }

  /** The variables declared. */
  function VarNames(ds: seq<Decl>): set<Name> {
    if ds == [] then {}
    else VarNames(ds[..|ds| - 1]) + if ds[|ds| - 1].General? then VarsNamed(ds[|ds| - 1].named) else {}
  }

  function NamedInBank(named: seq<Named>, bank: Name -> Bank, b: Bank): nat {
    if named == [] then 0
    else
      var n := |named| - 1;
      NamedInBank(named[..n], bank, b) + if IsVar(named[n]) && bank(named[n].name) == b then 1 else 0
  }

  /** How many of them belong to a bank. */
  function VarsInBank(ds: seq<Decl>, bank: Name -> Bank, b: Bank): nat {
    if ds == [] then 0
    else
      var n := |ds| - 1;
      VarsInBank(ds[..n], bank, b) + if ds[n].General? then NamedInBank(ds[n].named, bank, b) else 0
  }

  lemma {:induction false} NamesReserve(m: Meta, named: seq<Named>, bank: Name -> Bank, b: Bank)
    ensures Count(RegisterNames(m, named, bank).slots, b) == Count(m.slots, b) + NamedInBank(named, bank, b)
  {
    if named != [] {
      NamesReserve(m, named[..|named| - 1], bank, b);
    }
  }

  lemma {:induction false} VarsReserve(m: Meta, ds: seq<Decl>, bank: Name -> Bank, b: Bank)
    ensures Count(RegisterVars(m, ds, bank).slots, b) == Count(m.slots, b) + VarsInBank(ds, bank, b)
  {
    hide Count;
    if ds != [] {
      var n := |ds| - 1;
      VarsReserve(m, ds[..n], bank, b);
      if ds[n].General? {
        NamesReserve(RegisterVars(m, ds[..n], bank), ds[n].named, bank, b);
      }
    }
  }

  /** Two slots of one bank, as far apart as its counters. */
  ghost predicate SlotShift(a: Slot, b: Slot, m: Counters, n: Counters, k: Bank) {
    a.bank == k && b.bank == k && a.index + Count(n, k) == b.index + Count(m, k)
  }

  /** A bank's counters in two sessions stay as far apart. */
  ghost predicate CountersShift(m: Counters, n: Counters, m': Counters, n': Counters) {
    forall b :: Count(m', b) + Count(n, b) == Count(n', b) + Count(m, b)
  }

  /** New slots differ by as much as the counters of their bank; the others are untouched. */
  ghost predicate GlobalsShift(g: Globals, h: Globals, g': Globals, h': Globals, m: Counters, n: Counters, names: set<Name>, bank: Name -> Bank) {
    && g'.Keys == g.Keys + names && h'.Keys == h.Keys + names
    && (forall x :: x in names ==> SlotShift(g'[x], h'[x], m, n, bank(x)))
    && (forall x :: x in g && x !in names ==> g'[x] == g[x])
    && (forall x :: x in h && x !in names ==> h'[x] == h[x])
  }

  /** Registration in two sessions. */
  ghost predicate Shifted(m: Meta, n: Meta, m': Meta, n': Meta, names: set<Name>, bank: Name -> Bank) {
    && CountersShift(m.slots, n.slots, m'.slots, n'.slots)
    && GlobalsShift(m.globals, n.globals, m'.globals, n'.globals, m.slots, n.slots, names, bank)
  }

  lemma ShiftNone(m: Meta, n: Meta, bank: Name -> Bank)
    ensures Shifted(m, n, m, n, {}, bank)
  {
  }

  lemma ShiftOne(m: Meta, n: Meta, x: Name, bank: Name -> Bank)
    ensures Shifted(m, n, Reserve(m, x, bank(x)), Reserve(n, x, bank(x)), {x}, bank)
  {
    var m', n' := Reserve(m, x, bank(x)), Reserve(n, x, bank(x));
    assert CountersShift(m.slots, n.slots, m'.slots, n'.slots);
    hide CountersShift;
    assert SlotShift(m'.globals[x], n'.globals[x], m.slots, n.slots, bank(x));
    hide SlotShift, Count, Reserve;
  }

  lemma GlobalsTwice(g: Globals, h: Globals, g1: Globals, h1: Globals, g2: Globals, h2: Globals, m: Counters, n: Counters, m1: Counters, n1: Counters,
                     a: set<Name>, b: set<Name>, bank: Name -> Bank)
    requires CountersShift(m, n, m1, n1)
    requires GlobalsShift(g, h, g1, h1, m, n, a, bank) && GlobalsShift(g1, h1, g2, h2, m1, n1, b, bank)
    ensures GlobalsShift(g, h, g2, h2, m, n, a + b, bank)
  {
    hide CountersShift, SlotShift;
    forall x | x in a + b ensures SlotShift(g2[x], h2[x], m, n, bank(x)) {
      if x in b {
        ShiftFrom(g2[x], h2[x], m, n, m1, n1, bank(x));
      }
    }
  }

  lemma ShiftFrom(s: Slot, t: Slot, m: Counters, n: Counters, m1: Counters, n1: Counters, k: Bank)
    requires CountersShift(m, n, m1, n1) && SlotShift(s, t, m1, n1, k)
    ensures SlotShift(s, t, m, n, k)
  {
    assert Count(m1, k) + Count(n, k) == Count(n1, k) + Count(m, k);
  }

  lemma CountersTwice(m: Counters, n: Counters, m1: Counters, n1: Counters, m2: Counters, n2: Counters)
    requires CountersShift(m, n, m1, n1) && CountersShift(m1, n1, m2, n2)
    ensures CountersShift(m, n, m2, n2)
  {
    forall b ensures Count(m2, b) + Count(n, b) == Count(n2, b) + Count(m, b) {
      assert Count(m1, b) + Count(n, b) == Count(n1, b) + Count(m, b);
    }
  }

  lemma ShiftTwice(m: Meta, n: Meta, m1: Meta, n1: Meta, m2: Meta, n2: Meta, a: set<Name>, b: set<Name>, bank: Name -> Bank)
    requires Shifted(m, n, m1, n1, a, bank) && Shifted(m1, n1, m2, n2, b, bank)
    ensures Shifted(m, n, m2, n2, a + b, bank)
  {
    hide CountersShift, GlobalsShift;
    CountersTwice(m.slots, n.slots, m1.slots, n1.slots, m2.slots, n2.slots);
    GlobalsTwice(m.globals, n.globals, m1.globals, n1.globals, m2.globals, n2.globals, m.slots, n.slots, m1.slots, n1.slots, a, b, bank);
  }

  lemma {:induction false} NamesShift(m: Meta, n: Meta, named: seq<Named>, bank: Name -> Bank)
    ensures Shifted(m, n, RegisterNames(m, named, bank), RegisterNames(n, named, bank), VarsNamed(named), bank)
  {
    hide Shifted;
    if named == [] {
      assert VarsNamed([]) == {};
      ShiftNone(m, n, bank);
    } else {
      var k := |named| - 1;
      NamesShift(m, n, named[..k], bank);
      VarsSnoc(named);
      var x, y := RegisterNames(m, named[..k], bank), RegisterNames(n, named[..k], bank);
      if IsVar(named[k]) {
        ShiftOne(x, y, named[k].name, bank);
        ShiftTwice(m, n, x, y, RegisterNames(m, named, bank), RegisterNames(n, named, bank), VarsNamed(named[..k]), {named[k].name}, bank);
      } else {
        assert VarsNamed(named) == VarsNamed(named[..k]);
      }
    }
  }

  lemma VarsSnoc(named: seq<Named>)
    requires named != []
    ensures var last := named[|named| - 1]; VarsNamed(named) == VarsNamed(named[..|named| - 1]) + if IsVar(last) then {last.name} else {}
  {
  }

  lemma {:induction false} VarsShift(m: Meta, n: Meta, ds: seq<Decl>, bank: Name -> Bank)
    ensures Shifted(m, n, RegisterVars(m, ds, bank), RegisterVars(n, ds, bank), VarNames(ds), bank)
  {
    hide Shifted, VarsNamed;
    if ds == [] {
      ShiftNone(m, n, bank);
    } else {
      var k := |ds| - 1;
      VarsShift(m, n, ds[..k], bank);
      var x, y := RegisterVars(m, ds[..k], bank), RegisterVars(n, ds[..k], bank);
      if ds[k].General? {
        NamesShift(x, y, ds[k].named, bank);
        ShiftTwice(m, n, x, y, RegisterVars(m, ds, bank), RegisterVars(n, ds, bank), VarNames(ds[..k]), VarsNamed(ds[k].named), bank);
      } else {
        assert VarNames(ds) == VarNames(ds[..k]);
      }
    }
  }

  lemma {:induction false} VarsIntroduced(ds: seq<Decl>, names: set<Name>)
    requires Introduces(ds, names)
    ensures VarNames(ds) <= names
  {
    if ds != [] {
      var n := |ds| - 1;
      assert forall i :: 0 <= i < n ==> ds[..n][i] == ds[i];
      VarsIntroduced(ds[..n], names);
      if ds[n].General? {
        var named := ds[n].named;
        forall x | x in VarsNamed(named) ensures x in names {
          var i :| 0 <= i < |named| && named[i].name == x && x != "_";
          NotBlankIn(named, i);
          var j :| 0 <= j < |NamesIn(ds[n])| && NamesIn(ds[n])[j] == named[i];
        }
      }
    }
  }

  /** The variables a submission would declare. */
  function Vars(m: Meta, s: Submission): set<Name> {
    VarNames(Compiles(m, s))
  }

  /** Compilation in two sessions shifts only the new slots. */
  lemma NewShift(lang: Language, m: Meta, n: Meta, added: seq<Decl>, a: Attempt)
    ensures Shifted(m, n, CompileNew(lang, m, added, a).meta, CompileNew(lang, n, added, a).meta, VarNames(added), a.bank)
    ensures forall b :: Count(CompileNew(lang, m, added, a).meta.slots, b) == Count(m.slots, b) + VarsInBank(added, a.bank, b)
  {
    hide VarNames, CountersShift, GlobalsShift, InitTexts, RegisterVars, CompileNew, Count;
    var x := m.(compiledInits := m.compiledInits + InitTexts(added));
    var y := n.(compiledInits := n.compiledInits + InitTexts(added));
    VarsShift(x, y, added, a.bank);
    NewFills(lang, m, added, a);
    NewFills(lang, n, added, a);
    forall b ensures Count(CompileNew(lang, m, added, a).meta.slots, b) == Count(m.slots, b) + VarsInBank(added, a.bank, b) {
      VarsReserve(x, added, a.bank, b);
    }
  }

  lemma VarsAreNew(m: Meta, s: Submission)
    requires Sound(m) && FirstClash(m.names, Candidates(s.decls)).None?
    ensures m.globals.Keys !! Vars(m, s)
  {
    hide Candidates, FirstClash, VarNames, NewDecls, Introduces, Recorded, Imported, Slotted, Tabled, Linked;
    var names := NamesOf(Candidates(s.decls));
    CandidatesIntroduce(s.decls);
    NewDeclsIntroduce(s.decls, names, m.compiledInits, names);
    VarsIntroduced(Compiles(m, s), names);
    FirstClashExact(m.names, Candidates(s.decls));
  }

  /** Variables of a bank that failed submissions registered since the session was last empty. */
  function Wasted(lang: Language, events: seq<Event>, b: Bank): nat {
    if events == [] then 0
    else
      var n := |events| - 1;
      var m := After(lang, events[..n]);
      match events[n]
      case Reset => 0
      case Submitted(a) =>
        var outcome := Submit(lang, m, a).outcome;
        if outcome == Crashed then 0
        else Wasted(lang, events[..n], b) + if outcome.Uncompiled? || outcome.Failed? then VarsInBank(Compiles(m, a.source.value), a.bank, b) else 0
  }

  /** No success since the session was last empty declared a variable of a bank in which a failed submission had registered one. */
  ghost predicate Aligned(lang: Language, events: seq<Event>) {
    if events == [] then true
    else
      var n := |events| - 1;
      var m := After(lang, events[..n]);
      match events[n]
      case Reset => true
      case Submitted(a) =>
        var outcome := Submit(lang, m, a).outcome;
        outcome == Crashed
        || (Aligned(lang, events[..n]) && (outcome == Done ==> AlignedVars(lang, events[..n], a, Vars(m, a.source.value))))
  }

  ghost predicate AlignedVars(lang: Language, events: seq<Event>, a: Attempt, vars: set<Name>) {
    forall x :: x in vars ==> Wasted(lang, events, a.bank(x)) == 0
  }

  /** What a failed submission does to the counters. */
  lemma FailureReserves(lang: Language, m: Meta, a: Attempt, b: Bank)
    requires Sound(m)
    requires var outcome := Submit(lang, m, a).outcome; outcome != Done && outcome != Crashed
    ensures var r := Submit(lang, m, a);
      Count(r.meta.slots, b) == Count(m.slots, b) + if r.outcome.Uncompiled? || r.outcome.Failed? then VarsInBank(Compiles(m, a.source.value), a.bank, b) else 0
  {
    hide Sound, Candidates, FirstClash, Combined, CompileNew, Commit, Compiles, CandidateImports, Count, Shifted, VarsInBank;
    if a.source.Some? && FirstClash(m.names, Candidates(a.source.value.decls)).None? {
      AddedIsNew(m, a.source.value);
      NewShift(lang, m, m, Compiles(m, a.source.value), a);
    }
  }

  lemma FailureSlots(lang: Language, m: Meta, a: Attempt)
    requires Sound(m)
    requires var outcome := Submit(lang, m, a).outcome; outcome != Done && outcome != Crashed
    ensures Submit(lang, m, a).meta.globals == m.globals
    ensures var r := Submit(lang, m, a);
      forall b :: Count(r.meta.slots, b) ==
        Count(m.slots, b) + if r.outcome.Uncompiled? || r.outcome.Failed? then VarsInBank(Compiles(m, a.source.value), a.bank, b) else 0
  {
    SoundLinked(m);
    FailureKeeps(lang, m, a);
    hide Sound, Compiles, VarsInBank, SlotsGrow, More;
    forall b {
      FailureReserves(lang, m, a, b);
    }
  }

  /** If the successes succeed again, slot numbers are those of the replay exactly when no failed submission's variable came before a later one of the same bank. */
  lemma {:induction false} SlotsExact(lang: Language, events: seq<Event>)
    requires Rebuilds(lang, events)
    ensures var m, n := After(lang, events), After(lang, Successes(lang, events));
      && (forall b :: Count(m.slots, b) == Count(n.slots, b) + Wasted(lang, events, b))
      && m.globals.Keys == n.globals.Keys && (m.globals == n.globals <==> Aligned(lang, events))
    decreases |events|
  {
    hide Submit, AlignedVars, Builds, Compiles, Vars, VarsInBank, Count, Sound;
    if events != [] {
      var k := |events| - 1;
      var front, m := Successes(lang, events[..k]), After(lang, events[..k]);
      assert forall e: Event :: (front + [e])[..|front|] == front;
      if events[k].Submitted? {
        var a := events[k].attempt;
        if Submit(lang, m, a).outcome == Crashed {
          CrashEmpties(lang, m, a);
        } else {
          SlotsExact(lang, events[..k]);
          AlwaysSound(lang, events[..k]);
          if Submit(lang, m, a).outcome == Done {
            DoneHasSource(lang, m, a);
            SlotsStep(lang, events[..k], a);
          } else {
            FailureSlots(lang, m, a);
          }
        }
      }
    }
  }

  lemma SlotsStep(lang: Language, events: seq<Event>, a: Attempt)
    requires Rebuilds(lang, events) && Submit(lang, After(lang, events), a).outcome == Done && a.source.Some?
    requires Builds(lang, After(lang, events).table.Keys, Compiles(After(lang, events), a.source.value), a)
    requires var m, n := After(lang, events), After(lang, Successes(lang, events));
      m.globals.Keys == n.globals.Keys && forall b :: Count(m.slots, b) == Count(n.slots, b) + Wasted(lang, events, b)
    ensures var m, n := After(lang, events), After(lang, Successes(lang, events));
      var m', n' := Submit(lang, m, a).meta, Submit(lang, n, a).meta;
      && (forall b :: Count(m'.slots, b) == Count(n'.slots, b) + Wasted(lang, events, b))
      && m'.globals.Keys == n'.globals.Keys
      && (m'.globals == n'.globals <==> m.globals == n.globals && AlignedVars(lang, events, a, Vars(m, a.source.value)))
  {
    hide Submit, Sound, Vars, GlobalsShift, Compiles, Builds, CompileNew, Level, Fit, Behind, Wasted;
    var m, n := After(lang, events), After(lang, Successes(lang, events));
    Follow(lang, events);
    AlwaysSound(lang, events);
    AlwaysSound(lang, Successes(lang, events));
    hide After, Successes, Rebuilds, Untainted, Stale;
    TrailsStep(lang, m, n, a, Stale(lang, events));
    TextDone(lang, m, n, a);
    DonePool(lang, m, a);
    DonePool(lang, n, a);
    DoneNew(lang, m, a);
    var ds := Compiles(m, a.source.value);
    NewShift(lang, m, n, ds, a);
    VarsOfCompiled(m, a.source.value);
    var m', n' := Submit(lang, m, a).meta, Submit(lang, n, a).meta;
    SlotsCompare(m.globals, n.globals, m'.globals, n'.globals, m.slots, n.slots, Vars(m, a.source.value), a.bank);
    forall b ensures Count(m'.slots, b) == Count(n'.slots, b) + Wasted(lang, events, b) {
      assert Count(m.slots, b) == Count(n.slots, b) + Wasted(lang, events, b);
    }
    forall x | x in Vars(m, a.source.value)
      ensures Count(m.slots, a.bank(x)) == Count(n.slots, a.bank(x)) <==> Wasted(lang, events, a.bank(x)) == 0
    {
      assert Count(m.slots, a.bank(x)) == Count(n.slots, a.bank(x)) + Wasted(lang, events, a.bank(x));
    }
  }

  lemma VarsOfCompiled(m: Meta, s: Submission)
    ensures Vars(m, s) == VarNames(Compiles(m, s))
  {
  }

  lemma DoneNew(lang: Language, m: Meta, a: Attempt)
    requires Sound(m) && Submit(lang, m, a).outcome == Done
    ensures a.source.Some? && m.globals.Keys !! Vars(m, a.source.value)
  {
    DoneIs(lang, m, a);
    hide Submit, Sound, CompileNew, Vars;
    VarsAreNew(m, a.source.value);
  }

  lemma SlotsCompare(g: Globals, h: Globals, g': Globals, h': Globals, m: Counters, n: Counters, names: set<Name>, bank: Name -> Bank)
    requires GlobalsShift(g, h, g', h', m, n, names, bank) && g.Keys == h.Keys && g.Keys !! names
    ensures g'.Keys == h'.Keys
    ensures g' == h' <==> g == h && forall x :: x in names ==> Count(m, bank(x)) == Count(n, bank(x))
  {
    if g' == h' {
      forall x | x in g ensures g[x] == h[x] {
        assert g'[x] == g[x] && h'[x] == h[x];
      }
      forall x | x in names ensures Count(m, bank(x)) == Count(n, bank(x)) {
        assert SlotShift(g'[x], h'[x], m, n, bank(x));
      }
    } else if g == h && forall x :: x in names ==> Count(m, bank(x)) == Count(n, bank(x)) {
      forall x | x in g' ensures g'[x] == h'[x] {
        if x in names {
          assert SlotShift(g'[x], h'[x], m, n, bank(x));
        }
      }
    }
  }

  // ---------- code ----------

  /** While slot numbers are those of the replay, so are functions, table and the count of successes, exactly if no success needs a stale instance. */
  lemma CodeExact(lang: Language, events: seq<Event>)
    requires Aligned(lang, events)
    ensures var m, n := After(lang, events), After(lang, Successes(lang, events));
      m.functions == n.functions && m.table == n.table && m.submits == n.submits <==> Untainted(lang, events)
  {
    var m, n := After(lang, events), After(lang, Successes(lang, events));
    if Untainted(lang, events) {
      AlignedCode(lang, events);
      FailuresLeaveNoTrace(lang, events);
    } else {
      SuccessesSucceed(lang, events);
      Follow(lang, events);
      if Rebuilds(lang, events) {
        hide After, Successes, Stale, Untainted, Rebuilds, Fit, Total, Without, SameText, Level;
        var i :| i in Stale(lang, events) && i in n.specs;
        TotalLess(lang, m.specs.Keys - Stale(lang, events), n.specs.Keys);
      }
    }
  }

  lemma {:induction false} AlignedCode(lang: Language, events: seq<Event>)
    requires Aligned(lang, events) && Untainted(lang, events)
    ensures After(lang, events).functions == After(lang, Successes(lang, events)).functions
    decreases |events|
  {
    hide Submit, AlignedVars, Builds, Compiles, Vars, Needed;
    if events != [] {
      var k := |events| - 1;
      var front, m := Successes(lang, events[..k]), After(lang, events[..k]);
      assert forall e: Event :: (front + [e])[..|front|] == front;
      if events[k].Submitted? {
        var a := events[k].attempt;
        if Submit(lang, m, a).outcome == Crashed {
          CrashEmpties(lang, m, a);
        } else {
          AlignedCode(lang, events[..k]);
          AlwaysSound(lang, events[..k]);
          if Submit(lang, m, a).outcome == Done {
            SuccessesSucceed(lang, events);
            SlotsExact(lang, events);
            CodeStep(lang, events[..k], a);
          } else {
            SoundLinked(m);
            FailureKeeps(lang, m, a);
          }
        }
      }
    }
  }

  lemma CodeStep(lang: Language, events: seq<Event>, a: Attempt)
    requires Untainted(lang, events) && Submit(lang, After(lang, events), a).outcome == Done
    requires Needed(lang, After(lang, events), a) !! Stale(lang, events)
    requires var m, n := After(lang, events), After(lang, Successes(lang, events));
      m.functions == n.functions && Submit(lang, m, a).meta.globals == Submit(lang, n, a).meta.globals
    ensures var m, n := After(lang, events), After(lang, Successes(lang, events));
      Submit(lang, m, a).meta.functions == Submit(lang, n, a).meta.functions
  {
    Follow(lang, events);
    AlwaysSound(lang, events);
    AlwaysSound(lang, Successes(lang, events));
    hide Submit, Sound, Level, Fit, Behind, Needed, Untainted, Rebuilds;
    SubmitLevel(lang, After(lang, events), After(lang, Successes(lang, events)), a, Stale(lang, events));
  }

  // ---------- method entries ----------

  function Methods(keys: set<Key>): set<Key> {
    set k | k in keys && k.receiver != ""
  }

  /** The methods entered before compilation stopped. */
  function MethodKeys(lang: Language, m: Meta, ds: seq<Decl>, bodies: nat -> Body): set<Key> {
    if ds == [] then {}
    else
      var n := |ds| - 1;
      MethodKeys(lang, m, ds[..n], bodies)
      + if CompileFuncs(lang, m, ds[..n], bodies).stop == Going then Methods(KeyOf(ds[n])) else {}
  }

  lemma OneEnters(lang: Language, c: Compiled, d: Decl, b: Body)
    ensures CompileOne(lang, c, d, b).meta.methods.Keys == c.meta.methods.Keys + if c.stop == Going then Methods(KeyOf(d)) else {}
  {
    hide CompileBody;
  }

  lemma {:induction false} FuncsEnter(lang: Language, m: Meta, ds: seq<Decl>, bodies: nat -> Body)
    ensures CompileFuncs(lang, m, ds, bodies).meta.methods.Keys == m.methods.Keys + MethodKeys(lang, m, ds, bodies)
  {
    hide CompileOne, Methods, KeyOf;
    if ds != [] {
      var n := |ds| - 1;
      FuncsEnter(lang, m, ds[..n], bodies);
      OneEnters(lang, CompileFuncs(lang, m, ds[..n], bodies), ds[n], bodies(n));
    }
  }

  lemma {:induction false} AllEntered(lang: Language, m: Meta, ds: seq<Decl>, bodies: nat -> Body)
    ensures MethodKeys(lang, m, ds, bodies) <= Methods(KeysIn(ds))
    ensures CompileFuncs(lang, m, ds, bodies).stop == Going ==> MethodKeys(lang, m, ds, bodies) == Methods(KeysIn(ds))
  {
    hide CompileOne;
    if ds != [] {
      var n := |ds| - 1;
      AllEntered(lang, m, ds[..n], bodies);
      OneStops(lang, CompileFuncs(lang, m, ds[..n], bodies), ds[n], bodies(n));
    }
  }

  /** The methods a submission enters: none unless it gets as far as compilation. */
  function Tried(lang: Language, m: Meta, a: Attempt): set<Key> {
    var outcome := Submit(lang, m, a).outcome;
    if outcome.Uncompiled? || outcome.Failed? || outcome.Done? then
      var ds := Compiles(m, a.source.value);
      MethodKeys(lang, Registered(m, ds, a), ds, a.bodies)
    else {}
  }

  lemma NewEnters(lang: Language, m: Meta, ds: seq<Decl>, a: Attempt)
    ensures var c := CompileNew(lang, m, ds, a); var keys := MethodKeys(lang, Registered(m, ds, a), ds, a.bodies);
      c.meta.methods.Keys == m.methods.Keys + keys && keys <= Methods(KeysIn(ds)) && (c.stop == Going ==> keys == Methods(KeysIn(ds)))
  {
    hide CompileFuncs, CompileLoose, CompileNew, RegisterVars, MethodKeys, KeysIn, Filled;
    var x := Registered(m, ds, a);
    var c := CompileFuncs(lang, x, ds, a.bodies);
    var d := CompileLoose(lang, c, a.variableInit);
    CompileNewIs(lang, m, ds, a);
    RegisteredIs(m, ds, a);
    FuncsEnter(lang, x, ds, a.bodies);
    AllEntered(lang, x, ds, a.bodies);
    LooseFills(lang, c, a.variableInit);
    LooseFills(lang, d, a.evaluation);
    LooseStops(lang, c, a.variableInit);
    LooseStops(lang, d, a.evaluation);
  }

  /** Entries appear for exactly the methods tried. */
  lemma TriedKeys(lang: Language, m: Meta, a: Attempt)
    requires Sound(m) && Submit(lang, m, a).outcome != Crashed
    ensures Submit(lang, m, a).meta.methods.Keys == m.methods.Keys + Tried(lang, m, a)
    ensures Tried(lang, m, a) != {} ==>
      && a.source.Some? && FirstClash(m.names, Candidates(a.source.value.decls)).None?
      && Tried(lang, m, a) <= Methods(KeysIn(Compiles(m, a.source.value)))
  {
    hide Sound, Candidates, Compiles, FirstClash, MethodKeys, CompileNew, Commit, Combined, CandidateImports, KeysIn, Methods, Registered;
    if a.source.Some? && FirstClash(m.names, Candidates(a.source.value.decls)).None? {
      var s := a.source.value;
      AddedIsNew(m, s);
      NewEnters(lang, m, Compiles(m, s), a);
      var c := CompileNew(lang, m, Compiles(m, s), a);
      CommitTables(RunInits(c.meta, c.inits, a), CandidateImports(m.imports.Keys, s.imports), Candidates(s.decls));
    }
  }

  lemma KeysAreNew(m: Meta, s: Submission)
    requires Sound(m) && FirstClash(m.names, Candidates(s.decls)).None?
    ensures KeysIn(Compiles(m, s)) !! m.table.Keys
  {
    hide Candidates, FirstClash, NewDecls, KeysIn, Recorded, Imported, Slotted, Tabled, Linked;
    var names := NamesOf(Candidates(s.decls));
    CandidatesIntroduce(s.decls);
    NewDeclsIntroduce(s.decls, names, m.compiledInits, names);
    FirstClashExact(m.names, Candidates(s.decls));
    forall k | k in KeysIn(Compiles(m, s)) ensures k.name in names {
      KeyIntroduced(Compiles(m, s), names, k);
    }
  }

  lemma {:induction false} KeyIntroduced(ds: seq<Decl>, names: set<Name>, k: Key)
    requires Introduces(ds, names) && k in KeysIn(ds)
    ensures k.name in names
  {
    var n := |ds| - 1;
    assert forall i :: 0 <= i < n ==> ds[..n][i] == ds[i];
    if k in KeysIn(ds[..n]) {
      KeyIntroduced(ds[..n], names, k);
    } else {
      assert NamesIn(ds[n])[0].name == k.name;
    }
  }

  /** Methods entered by failed submissions since the session was last empty and not declared by a later success. */
  function Leftover(lang: Language, events: seq<Event>): set<Key> {
    if events == [] then {}
    else
      var n := |events| - 1;
      var front, m := Leftover(lang, events[..n]), After(lang, events[..n]);
      match events[n]
      case Reset => {}
      case Submitted(a) =>
        var outcome := Submit(lang, m, a).outcome;
        if outcome == Crashed then {} else if outcome == Done then front - Tried(lang, m, a) else front + Tried(lang, m, a)
  }

  /** What the two sessions' method tables have to do with each other. */
  ghost predicate MethodsRelated(methods: set<Key>, methods': set<Key>, table: set<Key>, left: set<Key>) {
    methods == methods' + left && methods' == Methods(table) && left == Methods(left) && left !! table
  }

  lemma RelatedFailure(methods: set<Key>, methods': set<Key>, table: set<Key>, left: set<Key>, tried: set<Key>)
    requires MethodsRelated(methods, methods', table, left) && tried == Methods(tried) && tried !! table
    ensures MethodsRelated(methods + tried, methods', table, left + tried)
  {
  }

  lemma RelatedSuccess(methods: set<Key>, methods': set<Key>, table: set<Key>, left: set<Key>, keys: set<Key>)
    requires MethodsRelated(methods, methods', table, left)
    ensures MethodsRelated(methods + Methods(keys), methods' + Methods(keys), table + keys, left - Methods(keys))
  {
  }

  /** Two sessions that hold the same text, after the same success. */
  lemma MethodsStep(lang: Language, m: Meta, a: Attempt)
    requires Sound(m) && Submit(lang, m, a).outcome == Done
    ensures a.source.Some?
    ensures var r := Submit(lang, m, a).meta; var keys := KeysIn(Compiles(m, a.source.value));
      Tried(lang, m, a) == Methods(keys) && r.methods.Keys == m.methods.Keys + Methods(keys) && r.table.Keys == m.table.Keys + keys
  {
    DoneIs(lang, m, a);
    DonePool(lang, m, a);
    hide Submit, Sound, Compiles, CompileNew, KeysIn, Methods, MethodKeys, Whole, AllOk, Commit, RunInits, Candidates, Combined, FirstClash, CandidateImports;
    NewEnters(lang, m, Compiles(m, a.source.value), a);
    NewWhole(lang, m, Compiles(m, a.source.value), a);
  }

  lemma FailureTries(lang: Language, m: Meta, a: Attempt)
    requires Sound(m)
    requires var outcome := Submit(lang, m, a).outcome; outcome != Done && outcome != Crashed
    ensures var r, tried := Submit(lang, m, a).meta, Tried(lang, m, a);
      r.methods.Keys == m.methods.Keys + tried && tried == Methods(tried) && tried !! m.table.Keys
  {
    TriedKeys(lang, m, a);
    hide Submit, Sound, Compiles, KeysIn, Tried, FirstClash, Candidates;
    if Tried(lang, m, a) != {} {
      KeysAreNew(m, a.source.value);
    }
  }

  lemma {:induction false} MethodsFollow(lang: Language, events: seq<Event>)
    requires Rebuilds(lang, events)
    ensures var m, n := After(lang, events), After(lang, Successes(lang, events));
      MethodsRelated(m.methods.Keys, n.methods.Keys, n.table.Keys, Leftover(lang, events))
    decreases |events|
  {
    hide Submit, Tried, Sound, MethodsRelated, Compiles, Builds;
    RelatedNone();
    if events != [] {
      var k := |events| - 1;
      var front, m := Successes(lang, events[..k]), After(lang, events[..k]);
      assert forall e: Event :: (front + [e])[..|front|] == front;
      if events[k].Submitted? {
        var a := events[k].attempt;
        if Submit(lang, m, a).outcome == Crashed {
          CrashEmpties(lang, m, a);
        } else {
          MethodsFollow(lang, events[..k]);
          if Submit(lang, m, a).outcome == Done {
            DoneHasSource(lang, m, a);
          }
          MethodsAfter(lang, events[..k], a);
        }
      }
    }
  }

  lemma RelatedNone()
    ensures MethodsRelated(EMPTY.methods.Keys, EMPTY.methods.Keys, EMPTY.table.Keys, {})
  {
  }

  lemma MethodsAfter(lang: Language, events: seq<Event>, a: Attempt)
    requires Rebuilds(lang, events) && Submit(lang, After(lang, events), a).outcome != Crashed
    requires var m := After(lang, events);
      Submit(lang, m, a).outcome == Done ==> a.source.Some? && Builds(lang, m.table.Keys, Compiles(m, a.source.value), a)
    requires var m, n := After(lang, events), After(lang, Successes(lang, events));
      MethodsRelated(m.methods.Keys, n.methods.Keys, n.table.Keys, Leftover(lang, events))
    ensures var m, n, left := After(lang, events), After(lang, Successes(lang, events)), Leftover(lang, events);
      var m', n' := Submit(lang, m, a).meta, Submit(lang, n, a).meta;
      if Submit(lang, m, a).outcome == Done
      then MethodsRelated(m'.methods.Keys, n'.methods.Keys, n'.table.Keys, left - Tried(lang, m, a))
      else MethodsRelated(m'.methods.Keys, n.methods.Keys, n.table.Keys, left + Tried(lang, m, a))
  {
    var m, n, left := After(lang, events), After(lang, Successes(lang, events)), Leftover(lang, events);
    Follow(lang, events);
    AlwaysSound(lang, events);
    AlwaysSound(lang, Successes(lang, events));
    hide After, Successes, Rebuilds, Untainted, Stale, Leftover, Submit, Sound, Tried, Compiles, Builds, Level, Fit, Behind, MethodsRelated, KeysIn, Methods;
    if Submit(lang, m, a).outcome == Done {
      TrailsStep(lang, m, n, a, Stale(lang, events));
      TextDone(lang, m, n, a);
      MethodsStep(lang, m, a);
      MethodsStep(lang, n, a);
      RelatedSuccess(m.methods.Keys, n.methods.Keys, n.table.Keys, left, KeysIn(Compiles(m, a.source.value)));
    } else {
      FailureTries(lang, m, a);
      RelatedFailure(m.methods.Keys, n.methods.Keys, n.table.Keys, left, Tried(lang, m, a));
    }
  }

  /** If the successes succeed again, there are method entries for the replay's methods and those left over. With the replay's function indices
      the entries are the replay's too, exactly when nothing is left over. */
  lemma MethodsExact(lang: Language, events: seq<Event>)
    requires Rebuilds(lang, events)
    ensures var m, n := After(lang, events), After(lang, Successes(lang, events));
      && m.methods.Keys == n.methods.Keys + Leftover(lang, events) && Leftover(lang, events) !! n.methods.Keys
      && (m.table == n.table ==> forall k :: k in n.methods ==> m.methods[k] == n.methods[k])
      && (m.table == n.table ==> (m.methods == n.methods <==> Leftover(lang, events) == {}))
  {
    var m, n, left := After(lang, events), After(lang, Successes(lang, events)), Leftover(lang, events);
    MethodsFollow(lang, events);
    AlwaysSound(lang, events);
    AlwaysSound(lang, Successes(lang, events));
    TabledEntries(m);
    TabledEntries(n);
    hide After, Successes, Sound, Leftover, Rebuilds;
    if m.table == n.table {
      EntriesCompare(m.methods, n.methods, m.table, left);
    }
  }

  ghost predicate HasEntries(methods: map<Key, nat>, table: map<Key, nat>) {
    forall k :: k in table && k.receiver != "" ==> k in methods && methods[k] == table[k]
  }

  lemma TabledEntries(m: Meta)
    requires Sound(m)
    ensures HasEntries(m.methods, m.table)
  {
    hide Recorded, Imported, Slotted, Linked;
  }

  lemma EntriesCompare(methods: map<Key, nat>, methods': map<Key, nat>, table: map<Key, nat>, left: set<Key>)
    requires MethodsRelated(methods.Keys, methods'.Keys, table.Keys, left) && HasEntries(methods, table) && HasEntries(methods', table)
    ensures (forall k :: k in methods' ==> k in methods && methods[k] == methods'[k]) && (methods == methods' <==> left == {})
  {
    if methods == methods' {
      assert left <= methods'.Keys;
    }
  }
}

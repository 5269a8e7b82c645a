/** The file that is checked for a submission, told from the history: what it imports, declares and evaluates, line by line. */
module ReplFile {
  import opened Wrappers
  import opened ReplModel
  import opened ReplHistory
  import opened ReplInvariant

  // ---------- what a session keeps ----------

  /** The submissions that succeeded since the session was last empty. */
  ghost function Kept(lang: Language, events: seq<Event>): seq<Submission> {
    if events == [] then []
    else
      var n := |events| - 1;
      var front := Kept(lang, events[..n]);
      match events[n]
      case Reset => []
      case Submitted(a) =>
        var outcome := Submit(lang, After(lang, events[..n]), a).outcome;
        if outcome == Done && a.source.Some? then front + [a.source.value] else if outcome == Crashed then [] else front
  }

  function ImportsOf(subs: seq<Submission>): seq<Import> {
    if subs == [] then [] else ImportsOf(subs[..|subs| - 1]) + subs[|subs| - 1].imports
  }

  function DeclsOf(subs: seq<Submission>): seq<Decl> {
    if subs == [] then [] else DeclsOf(subs[..|subs| - 1]) + subs[|subs| - 1].decls
  }

  /** The list is what is at these positions of another, in order. */
  ghost predicate Picks<T>(r: seq<T>, at: seq<nat>, all: seq<T>) {
    && |at| == |r| && (forall i, j :: 0 <= i < j < |at| ==> at[i] < at[j])
    && (forall k :: 0 <= k < |r| ==> at[k] < |all| && r[k] == all[at[k]])
  }

  /** Position i is the first at which its path is imported. */
  ghost predicate IsNew(all: seq<Import>, i: nat) {
    i < |all| && forall j :: 0 <= j < i ==> all[j].path != all[i].path
  }

  /** The imports, each path once, as first imported and in that order. */
  ghost predicate Firsts(r: seq<Import>, all: seq<Import>) {
    exists at: seq<nat> :: Picks(r, at, all) && forall i: nat :: i in at <==> IsNew(all, i)
  }

  /** The declarations that introduce names, in order. */
  ghost predicate Naming(r: seq<Decl>, all: seq<Decl>) {
    exists at: seq<nat> :: Picks(r, at, all) && forall i: nat :: i in at <==> i < |all| && NamesIn(all[i]) != []
  }

  /** The names a declaration introduces: a function's, and those of a general declaration that are not blank, in order. */
  lemma NamesInExact(d: Decl)
    ensures d.Function? ==> NamesIn(d) == [Named(d.name, FuncKind)]
    ensures d.Init? ==> NamesIn(d) == []
    ensures d.General? ==> exists at: seq<nat> :: Picks(NamesIn(d), at, d.named) && forall i: nat :: i in at <==> i < |d.named| && d.named[i].name != "_"
  {
    if d.General? {
      var at := NotBlankAt(d.named);
      assert NamesIn(d) == NotBlank(d.named);
      assert Picks(NamesIn(d), at, d.named);
    }
  }

  lemma PicksMore<T>(r: seq<T>, at: seq<nat>, all: seq<T>, last: T)
    requires Picks(r, at, all)
    ensures Picks(r, at, all + [last]) && Picks(r + [last], at + [|all|], all + [last])
    ensures forall i: nat :: i in at ==> i < |all|
  {
  }

  lemma {:induction false} NotBlankAt(named: seq<Named>) returns (at: seq<nat>)
    ensures Picks(NotBlank(named), at, named) && forall i: nat :: i in at <==> i < |named| && named[i].name != "_"
    decreases |named|
  {
    hide Picks;
    if named == [] {
      at := [];
      PicksNone<Named>();
    } else {
      var n := |named| - 1;
      at := NotBlankAt(named[..n]);
      PicksMore(NotBlank(named[..n]), at, named[..n], named[n]);
      assert named[..n] + [named[n]] == named;
      if named[n].name != "_" {
        at := at + [n];
      }
    }
  }

  lemma PicksNone<T>()
    ensures Picks<T>([], [], [])
  {
  }

  lemma {:induction false} WithNamesAt(ds: seq<Decl>) returns (at: seq<nat>)
    ensures Picks(WithNames(ds), at, ds) && forall i: nat :: i in at <==> i < |ds| && NamesIn(ds[i]) != []
    decreases |ds|
  {
    hide NamesIn, Picks;
    if ds == [] {
      at := [];
      PicksNone<Decl>();
    } else {
      var n := |ds| - 1;
      at := WithNamesAt(ds[..n]);
      PicksMore(WithNames(ds[..n]), at, ds[..n], ds[n]);
      assert ds[..n] + [ds[n]] == ds;
      if NamesIn(ds[n]) != [] {
        at := at + [n];
      }
    }
  }

  // ---------- imports ----------

  function KnownOf(m: Meta): (r: seq<Import>)
    ensures |r| == |m.importOrder|
    ensures forall i :: 0 <= i < |r| ==> r[i] == Import(m.importOrder[i], if m.importOrder[i] in m.imports then m.imports[m.importOrder[i]] else "")
  {
    seq(|m.importOrder|, i requires 0 <= i < |m.importOrder| => Import(m.importOrder[i], if m.importOrder[i] in m.imports then m.imports[m.importOrder[i]] else ""))
  }

  lemma IsNewPrefix(all: seq<Import>, last: Import, i: nat)
    requires i < |all|
    ensures IsNew(all + [last], i) <==> IsNew(all, i)
  {
    assert forall j :: 0 <= j <= i ==> (all + [last])[j] == all[j];
  }

  lemma OldImport(r: seq<Import>, at: seq<nat>, all: seq<Import>, last: Import)
    requires Picks(r, at, all) && (forall i: nat :: i in at <==> IsNew(all, i)) && last.path in PathsOf(r)
    ensures Picks(r, at, all + [last]) && forall i: nat :: i in at <==> IsNew(all + [last], i)
  {
    var more := all + [last];
    var k :| 0 <= k < |r| && r[k].path == last.path;
    assert more[at[k]].path == more[|all|].path;
    assert !IsNew(more, |all|);
    forall i: nat ensures i in at <==> IsNew(more, i) {
      if i < |all| {
        IsNewPrefix(all, last, i);
      }
    }
  }

  lemma NewImport(r: seq<Import>, at: seq<nat>, all: seq<Import>, last: Import)
    requires Picks(r, at, all) && (forall i: nat :: i in at <==> IsNew(all, i)) && last.path !in PathsOf(r)
    ensures Picks(r + [last], at + [|all|], all + [last]) && forall i: nat :: i in at + [|all|] <==> IsNew(all + [last], i)
  {
    var more := all + [last];
    NewPath(r, at, all, last);
    assert forall k :: 0 <= k < |at| ==> at[k] < |all|;
    forall i: nat ensures i in at + [|all|] <==> IsNew(more, i) {
      hide IsNew;
      if i < |all| {
        IsNewPrefix(all, last, i);
      } else if i > |all| {
        NotNew(more, i);
      }
    }
  }

  lemma NotNew(all: seq<Import>, i: nat)
    requires i >= |all|
    ensures !IsNew(all, i)
  {
  }

  /** One more import changes the list exactly if its path is new. */
  lemma FirstsSnoc(r: seq<Import>, all: seq<Import>, last: Import)
    requires Firsts(r, all)
    ensures Firsts(if last.path in PathsOf(r) then r else r + [last], all + [last])
  {
    hide Picks, IsNew, PathsOf;
    var at: seq<nat> :| Picks(r, at, all) && forall i: nat :: i in at <==> IsNew(all, i);
    if last.path in PathsOf(r) {
      OldImport(r, at, all, last);
    } else {
      NewImport(r, at, all, last);
    }
  }

  lemma NewPath(r: seq<Import>, at: seq<nat>, all: seq<Import>, last: Import)
    requires Picks(r, at, all) && (forall i: nat :: i in at <==> IsNew(all, i)) && last.path !in PathsOf(r)
    ensures IsNew(all + [last], |all|)
  {
    forall j | 0 <= j < |all| ensures all[j].path != last.path {
      var i := FirstWith(all, j);
      assert i in at;
      var k :| 0 <= k < |at| && at[k] == i;
      assert r[k].path in PathsOf(r);
    }
  }

  lemma {:induction false} FirstWith(all: seq<Import>, j: nat) returns (i: nat)
    requires j < |all|
    ensures IsNew(all, i) && all[i].path == all[j].path
    decreases j
  {
    i := j;
    if k :| 0 <= k < j && all[k].path == all[j].path {
      i := FirstWith(all, k);
    }
  }

  lemma {:induction false} CandidatesFirst(r: seq<Import>, all: seq<Import>, specs: seq<Import>)
    requires Firsts(r, all)
    ensures Firsts(r + CandidateImports(PathsOf(r), specs), all + specs)
    decreases |specs|
  {
    hide Firsts;
    var known := PathsOf(r);
    if specs == [] {
      assert r + [] == r && all + specs == all;
    } else {
      var n := |specs| - 1;
      var front := CandidateImports(known, specs[..n]);
      CandidatesFirst(r, all, specs[..n]);
      FirstsSnoc(r + front, all + specs[..n], specs[n]);
      PathsConcat(r, front);
      assert all + specs[..n] + [specs[n]] == all + specs;
      assert r + front + [specs[n]] == r + (front + [specs[n]]);
    }
  }

  lemma PathsConcat(a: seq<Import>, b: seq<Import>)
    ensures PathsOf(a + b) == PathsOf(a) + PathsOf(b)
  {
    forall p | p in PathsOf(a) + PathsOf(b) ensures p in PathsOf(a + b) {
      if i :| 0 <= i < |a| && a[i].path == p {
        assert (a + b)[i].path == p;
      } else {
        var i :| 0 <= i < |b| && b[i].path == p;
        assert (a + b)[|a| + i].path == p;
      }
    }
  }

  lemma KnownPaths(m: Meta)
    requires Imported(m)
    ensures PathsOf(KnownOf(m)) == m.imports.Keys
  {
    forall p | p in m.imports.Keys ensures p in PathsOf(KnownOf(m)) {
      var i :| 0 <= i < |m.importOrder| && m.importOrder[i] == p;
      assert KnownOf(m)[i].path == p;
    }
  }

  /** All of them are new, and none twice. */
  ghost predicate Fresh(known: set<string>, imps: seq<Import>) {
    (forall i :: 0 <= i < |imps| ==> imps[i].path !in known) && forall i, j :: 0 <= i < j < |imps| ==> imps[i].path != imps[j].path
  }

  lemma {:induction false} CandidatesFresh(known: set<string>, specs: seq<Import>)
    ensures Fresh(known, CandidateImports(known, specs))
    decreases |specs|
  {
    if specs != [] {
      var n := |specs| - 1;
      CandidatesFresh(known, specs[..n]);
      var front := CandidateImports(known, specs[..n]);
      assert forall i :: 0 <= i < |front| ==> front[i].path in PathsOf(front);
    }
  }

  lemma CommitsOne(m: Meta, b: Meta, front: seq<Import>, imp: Import)
    requires Imported(m) && Imported(b) && KnownOf(b) == KnownOf(m) + front && imp.path !in m.imports && imp.path !in PathsOf(front)
    ensures imp.path !in b.imports
    ensures KnownOf(b.(imports := b.imports[imp.path := imp.alias], importOrder := b.importOrder + [imp.path])) == KnownOf(b) + [imp]
  {
    KnownPaths(b);
    KnownPaths(m);
    PathsConcat(KnownOf(m), front);
    assert imp.path !in b.importOrder;
  }

  lemma {:induction false} CommitsAll(m: Meta, imps: seq<Import>)
    requires Imported(m) && Fresh(m.imports.Keys, imps)
    ensures var r := CommitImports(m, imps); KnownOf(r) == KnownOf(m) + imps && Imported(r)
    decreases |imps|
  {
    hide Imported, KnownOf;
    CommitImportsKeeps(m, imps);
    if imps == [] {
      assert KnownOf(m) + [] == KnownOf(m);
    } else {
      var n := |imps| - 1;
      CommitsAll(m, imps[..n]);
      assert imps[n].path !in PathsOf(imps[..n]);
      CommitsOne(m, CommitImports(m, imps[..n]), imps[..n], imps[n]);
      assert KnownOf(m) + imps[..n] + [imps[n]] == KnownOf(m) + imps;
    }
  }

  // ---------- over histories ----------

  /** What the tables of a session say about its past. */
  ghost predicate Tells(m: Meta, kept: seq<Submission>) {
    Firsts(KnownOf(m), ImportsOf(kept)) && m.records == Candidates(DeclsOf(kept)) && m.submits == |kept|
  }

  lemma TellsNothing()
    ensures Tells(EMPTY, [])
  {
    var none: seq<nat> := [];
    assert Picks(KnownOf(EMPTY), none, ImportsOf([]));
  }

  lemma DoneTells(lang: Language, m: Meta, a: Attempt, kept: seq<Submission>)
    requires Sound(m) && Tells(m, kept) && Submit(lang, m, a).outcome == Done
    ensures a.source.Some? && Tells(Submit(lang, m, a).meta, kept + [a.source.value])
  {
    hide Compile, Candidates, FirstClash, Combined, CommitRecords, CommitImports, RunInits, Firsts, CandidateImports, KnownOf, Restore, Snap;
    var s := a.source.value;
    var c := Compile(lang, m, s, a);
    CompileGrown(lang, m, s, a);
    RanRecords(lang, m, c, a);
    var d := RunInits(c.meta, c.inits, a);
    RanSubmits(c.meta, c.inits, a);
    SoundImports(m);
    SameKnown(m, d);
    var imps, rs := CandidateImports(m.imports.Keys, s.imports), Candidates(s.decls);
    CandidatesFresh(m.imports.Keys, s.imports);
    CommitsAll(d, imps);
    CommitImportsKeeps(d, imps);
    CommitRecordsAre(CommitImports(d, imps), rs);
    KnownPaths(m);
    CandidatesFirst(KnownOf(m), ImportsOf(kept), s.imports);
    KeptSnoc(kept, s);
    CandidatesConcat(DeclsOf(kept), s.decls);
    SameKnown(CommitImports(d, imps), Submit(lang, m, a).meta);
  }

  lemma CompileGrown(lang: Language, m: Meta, s: Submission, a: Attempt)
    ensures Grown(lang, m, Compile(lang, m, s, a).meta)
  {
    hide CompileNew, NewDecls, Candidates, Retained, SlotsGrow, Grown;
    CompileNewGrows(lang, m, NewDecls(Retained(m.records) + s.decls, NamesOf(Candidates(s.decls)), m.compiledInits), a);
  }

  lemma RanSubmits(m: Meta, inits: seq<nat>, a: Attempt)
    ensures RunInits(m, inits, a).submits == m.submits
  {
  }

  lemma SoundImports(m: Meta)
    requires Sound(m)
    ensures Imported(m)
  {
  }

  lemma SameKnown(m: Meta, r: Meta)
    requires r.imports == m.imports && r.importOrder == m.importOrder
    ensures KnownOf(r) == KnownOf(m) && (Imported(m) ==> Imported(r))
  {
  }

  lemma KeptSnoc(kept: seq<Submission>, s: Submission)
    ensures ImportsOf(kept + [s]) == ImportsOf(kept) + s.imports && DeclsOf(kept + [s]) == DeclsOf(kept) + s.decls
  {
    assert (kept + [s])[..|kept|] == kept;
  }

  /** After any history, the tables tell of the submissions that succeeded since the session was last empty, and of no others. */
  lemma {:induction false} HistoryTold(lang: Language, events: seq<Event>)
    ensures Tells(After(lang, events), Kept(lang, events))
    decreases |events|
  {
    hide Tells, Submit, Sound;
    if events == [] {
      TellsNothing();
    } else {
      var n := |events| - 1;
      HistoryTold(lang, events[..n]);
      AlwaysSound(lang, events[..n]);
      var m, kept := After(lang, events[..n]), Kept(lang, events[..n]);
      match events[n]
      case Reset => TellsNothing();
      case Submitted(a) =>
        if Submit(lang, m, a).outcome == Done {
          DoneTells(lang, m, a, kept);
        } else if Submit(lang, m, a).outcome == Crashed {
          CrashEmpties(lang, m, a);
          TellsNothing();
        } else {
          FailureTells(lang, m, a, kept);
        }
    }
  }

  lemma CrashEmpties(lang: Language, m: Meta, a: Attempt)
    requires Submit(lang, m, a).outcome == Crashed
    ensures Submit(lang, m, a).meta == EMPTY
  {
    hide Compile, Candidates, FirstClash, Combined, Commit, RunInits, CandidateImports;
  }

  lemma FailureTells(lang: Language, m: Meta, a: Attempt, kept: seq<Submission>)
    requires Sound(m) && Tells(m, kept) && !Submit(lang, m, a).outcome.Done? && !Submit(lang, m, a).outcome.Crashed?
    ensures Tells(Submit(lang, m, a).meta, kept)
  {
    hide Submit, More, SlotsGrow, Firsts, Candidates;
    SoundIsLinked(m);
    FailureKeeps(lang, m, a);
    SameKnown(m, Submit(lang, m, a).meta);
  }

  lemma SoundIsLinked(m: Meta)
    requires Sound(m)
    ensures Linked(m)
  {
  }

  // ---------- the file ----------

  /** The lines of the file: the package, the imports, the declarations kept, those submitted, and the statements inside the evaluation function. */
  ghost predicate Spells(file: seq<Line>, imports: seq<Import>, kept: seq<Decl>, s: Submission) {
    var i, k, d := 1 + |imports|, 1 + |imports| + |kept|, 1 + |imports| + |kept| + |s.decls|;
    && |file| == d + 1 + |s.statements| + 1 && file[0] == PackageLine && file[d] == EvalOpen && file[|file| - 1] == EvalClose
    && (forall n :: 0 <= n < |imports| ==> file[1 + n] == ImportLine(imports[n].path, imports[n].alias))
    && (forall n :: 0 <= n < |kept| ==> file[i + n] == DeclLine(kept[n]))
    && (forall n :: 0 <= n < |s.decls| ==> file[k + n] == SubmittedLine(s.decls[n]))
    && (forall n :: 0 <= n < |s.statements| ==> file[d + 1 + n] == StatementLine(s.statements[n]))
  }

  /** Where the parts of a file stand. */
  lemma PartsAt(a: seq<Line>, b: seq<Line>, c: seq<Line>, d: seq<Line>, e: seq<Line>, f: seq<Line>)
    ensures var file, i, k, m := a + b + c + d + e + f, |a| + |b|, |a| + |b| + |c|, |a| + |b| + |c| + |d|;
      && (forall n :: 0 <= n < |a| ==> file[n] == a[n]) && (forall n :: 0 <= n < |b| ==> file[|a| + n] == b[n])
      && (forall n :: 0 <= n < |c| ==> file[i + n] == c[n]) && (forall n :: 0 <= n < |d| ==> file[k + n] == d[n])
      && (forall n :: 0 <= n < |e| ==> file[m + n] == e[n]) && (forall n :: 0 <= n < |f| ==> file[m + |e| + n] == f[n])
  {
  }

  function ImportLines(imps: seq<Import>): (r: seq<Line>)
    ensures |r| == |imps| && forall i :: 0 <= i < |imps| ==> r[i] == ImportLine(imps[i].path, imps[i].alias)
  {
    seq(|imps|, i requires 0 <= i < |imps| => ImportLine(imps[i].path, imps[i].alias))
  }

  lemma ImportsTogether(m: Meta, imps: seq<Import>)
    ensures KnownImports(m.importOrder, m.imports) + NewImports(imps) == ImportLines(KnownOf(m) + imps)
  {
  }

  lemma CombinedSpells(m: Meta, imps: seq<Import>, s: Submission)
    ensures Spells(Combined(m, imps, s), KnownOf(m) + imps, Retained(m.records), s)
  {
    hide Retained, KnownOf, KnownImports, NewImports;
    ImportsTogether(m, imps);
    var a, b, kept := [PackageLine], ImportLines(KnownOf(m) + imps), Retained(m.records);
    var c, d, e, f := DeclLines(kept), SubmittedLines(s.decls), [EvalOpen] + StatementLines(s.statements), [EvalClose];
    assert Combined(m, imps, s) == a + b + c + d + e + f;
    hide Combined, ImportLines;
    PartsAt(a, b, c, d, e, f);
    assert forall n :: 0 <= n < |s.statements| ==> e[1 + n] == StatementLine(s.statements[n]);
    assert |c| == |kept| && |d| == |s.decls| && |e| == 1 + |s.statements|;
    assert (a + b + c + d + e + f)[1 + |b| + |c| + |d| + 0] == e[0];
  }

  /** What the file of a submission after a history holds: each path that a success since the session was last empty imported, or the submission imports, once, with the alias it was first given; the declarations of those successes that introduce names; then the submission's own declarations; and its statements, and nothing else, to be evaluated. */
  lemma FileTold(lang: Language, events: seq<Event>, s: Submission) returns (imports: seq<Import>, kept: seq<Decl>)
    ensures var m := After(lang, events); Spells(Combined(m, CandidateImports(m.imports.Keys, s.imports), s), imports, kept, s)
    ensures Firsts(imports, ImportsOf(Kept(lang, events)) + s.imports) && Naming(kept, DeclsOf(Kept(lang, events)))
  {
    var m := After(lang, events);
    HistoryTold(lang, events);
    AlwaysSound(lang, events);
    hide After, Kept, Spells, Firsts, Candidates, Retained, CandidateImports, KnownOf, Combined;
    SoundImports(m);
    KnownPaths(m);
    var imps := CandidateImports(m.imports.Keys, s.imports);
    imports, kept := KnownOf(m) + imps, Retained(m.records);
    CombinedSpells(m, imps, s);
    CandidatesFirst(KnownOf(m), ImportsOf(Kept(lang, events)), s.imports);
    RetainedOnce(DeclsOf(Kept(lang, events)));
    var at := WithNamesAt(DeclsOf(Kept(lang, events)));
  }

  /** The first checks of a submission: it parses, none of its names is taken by a declaration kept or by itself, and the checker accepts that file. Nothing else refuses it before it is compiled. */
  lemma RefusedExactly(lang: Language, events: seq<Event>, a: Attempt)
    ensures var m, r := After(lang, events), Submit(lang, After(lang, events), a); var taken := Candidates(DeclsOf(Kept(lang, events)));
      && (r.outcome == Unparsed <==> a.source.None?)
      && (a.source.Some? ==> var s := a.source.value; var file := Combined(m, CandidateImports(m.imports.Keys, s.imports), s);
           && (r.outcome.Redeclared? <==> !(Distinct(Candidates(s.decls)) && NamesOf(Candidates(s.decls)) !! NamesOf(taken)))
           && (r.outcome == IllTyped <==> Distinct(Candidates(s.decls)) && NamesOf(Candidates(s.decls)) !! NamesOf(taken) && !lang.check(file)))
      && (r.outcome.Unparsed? || r.outcome.Redeclared? || r.outcome.IllTyped? ==> r.meta == m)
  {
    var m := After(lang, events);
    HistoryTold(lang, events);
    AlwaysSound(lang, events);
    hide After, Kept, Candidates, CandidateImports, Combined, Compile, Commit, RunInits, Restore, Snap, FirstClash, Firsts;
    if a.source.Some? {
      FirstClashExact(m.names, Candidates(a.source.value.decls));
      NewExactly(m, Candidates(a.source.value.decls));
    }
  }

  lemma NewExactly(m: Meta, rs: seq<Record>)
    requires Sound(m)
    ensures AllNew(m.names, rs) <==> NamesOf(rs) !! NamesOf(m.records)
  {
    if AllNew(m.names, rs) {
      forall x | x in NamesOf(rs) ensures x !in NamesOf(m.records) {
      }
    }
    if NamesOf(rs) !! NamesOf(m.records) {
      forall i | 0 <= i < |rs| ensures rs[i].name !in m.names {
        assert rs[i].name in NamesOf(rs);
      }
    }
  }
}

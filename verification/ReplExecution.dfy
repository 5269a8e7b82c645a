/** The init functions a session marks are those its execution ran to the end. */
module ReplExecution {
  import opened Wrappers
  import opened SessionExecution
  import ReplModel

  /** Init functions of one submission: new, and each once. */
  ghost predicate NewInits(inits: seq<nat>, executed: set<nat>) {
    && (forall i :: 0 <= i < |inits| ==> inits[i] !in executed)
    && (forall i, j :: 0 <= i < j < |inits| ==> inits[i] != inits[j])
  }

  lemma {:induction false} AllPending(inits: seq<nat>, executed: set<nat>)
    requires NewInits(inits, executed)
    ensures Pending(inits, executed) == inits
  {
    if inits != [] {
      var n := |inits| - 1;
      assert forall i :: 0 <= i < n ==> inits[..n][i] == inits[i];
      AllPending(inits[..n], executed);
      assert inits == inits[..n] + [inits[n]];
    }
  }

  /** Compilation lists a function once for each init declaration, in increasing order. */
  lemma {:induction false} InitsAreNew(lang: ReplModel.Language, m: ReplModel.Meta, ds: seq<ReplModel.Decl>, bodies: nat -> ReplModel.Body)
    ensures var c := ReplModel.CompileFuncs(lang, m, ds, bodies);
      && |m.functions| <= |c.meta.functions|
      && (forall i :: 0 <= i < |c.inits| ==> |m.functions| <= c.inits[i] < |c.meta.functions|)
      && (forall i, j :: 0 <= i < j < |c.inits| ==> c.inits[i] < c.inits[j])
  {
    if ds != [] {
      InitsAreNew(lang, m, ds[..|ds| - 1], bodies);
      hide ReplModel.CompileBody;
    }
  }

  /** How many init functions ended well. */
  function Ended(p: Progress, before: nat, count: nat): nat {
    var k := if p.stop == Some(StageFailed) then |p.ran| - 1 else |p.ran|;
    if k <= before then 0 else if k - before < count then k - before else count
  }

  /** Entries that follow the plan, the first `before` of them not init functions, and just `n` init functions that ended well. */
  ghost predicate Follows(ran: seq<Entry>, inits: seq<nat>, before: nat, n: nat) {
    && n <= |inits| && before + n <= |ran| + (if n == 0 then before else 0)
    && (forall i :: 0 <= i < |ran| && ran[i].stage.InitFunction? ==> before <= i < before + |inits| && ran[i].stage.index == inits[i - before])
    && (forall i :: before <= i < before + n ==> ran[i].stage.InitFunction? && ran[i].ok)
    && (forall i :: 0 <= i < |ran| && ran[i].stage.InitFunction? && ran[i].ok ==> i < before + n)
  }

  lemma SucceededAre(ran: seq<Entry>, inits: seq<nat>, before: nat, n: nat)
    requires Follows(ran, inits, before, n)
    ensures Succeeded(ran) == set i | 0 <= i < n :: inits[i]
  {
    forall i | 0 <= i < n ensures inits[i] in Succeeded(ran) {
      assert ran[before + i].stage.InitFunction? && ran[before + i].ok;
    }
  }

  /** The plan's init functions come after its first `before` stages and before the body. */
  ghost predicate Planned(plan: seq<Stage>, inits: seq<nat>, before: nat) {
    && |plan| == before + |inits| + 1
    && (forall i :: 0 <= i < |plan| && plan[i].InitFunction? ==> before <= i < before + |inits| && plan[i].index == inits[i - before])
    && (forall i :: before <= i < before + |inits| ==> plan[i].InitFunction?)
  }

  lemma EndedFollows(p: Progress, plan: seq<Stage>, inits: seq<nat>, before: nat, budget: int, cancelled: nat -> bool)
    requires Planned(plan, inits, before) && EndsRightly(p, plan, budget, cancelled)
    ensures Follows(p.ran, inits, before, Ended(p, before, |inits|)) && (p.stop.None? ==> Ended(p, before, |inits|) == |inits|)
  {
    var ran, n := p.ran, Ended(p, before, |inits|);
    forall i | 0 <= i < |ran| && ran[i].stage.InitFunction? ensures before <= i < before + |inits| && ran[i].stage.index == inits[i - before] {
      assert ran[i].stage == plan[i];
    }
    forall i | before <= i < before + n ensures ran[i].stage.InitFunction? && ran[i].ok {
      assert ran[i].stage == plan[i];
    }
  }

  lemma RunFollows(inits: seq<nat>, executed: set<nat>, hasVariables: bool, budget: int, vm: Machine, cancelled: nat -> bool)
    requires NewInits(inits, executed)
    ensures var p, before := RunPlan(Plan(hasVariables, inits, executed), budget, vm, cancelled), |InitialStages(hasVariables)|;
      Follows(p.ran, inits, before, Ended(p, before, |inits|)) && (p.stop.None? ==> Ended(p, before, |inits|) == |inits|)
  {
    hide RunPlan, Plan, InitialStages, Follows, Planned, EndsRightly, Ended, NewInits;
    var plan := Plan(hasVariables, inits, executed);
    AllPending(inits, executed);
    StagesArePlanned(hasVariables, inits, executed);
    RunEndsRightly(plan, budget, vm, cancelled);
    EndedFollows(RunPlan(plan, budget, vm, cancelled), plan, inits, |InitialStages(hasVariables)|, budget, cancelled);
  }

  /** The marks the session's model sets are those the execution sets. */
  lemma MarksAgree(m: ReplModel.Meta, inits: seq<nat>, a: ReplModel.Attempt, hasVariables: bool, budget: int, vm: Machine, cancelled: nat -> bool)
    requires NewInits(inits, m.executedInits)
    requires var p := RunPlan(Plan(hasVariables, inits, m.executedInits), budget, vm, cancelled);
      a.runs == p.stop.None? && a.initsRun == Ended(p, |InitialStages(hasVariables)|, |inits|)
    ensures var p := RunPlan(Plan(hasVariables, inits, m.executedInits), budget, vm, cancelled);
      ReplModel.RunInits(m, inits, a).executedInits == m.executedInits + Succeeded(p.ran)
  {
    hide RunPlan, Plan, InitialStages, Follows, Succeeded, Ended;
    var p, before := RunPlan(Plan(hasVariables, inits, m.executedInits), budget, vm, cancelled), |InitialStages(hasVariables)|;
    RunFollows(inits, m.executedInits, hasVariables, budget, vm, cancelled);
    FollowsBound(p.ran, inits, before, Ended(p, before, |inits|));
    SucceededAre(p.ran, inits, before, Ended(p, before, |inits|));
  }

  lemma FollowsBound(ran: seq<Entry>, inits: seq<nat>, before: nat, n: nat)
    requires Follows(ran, inits, before, n)
    ensures n <= |inits|
  {
  }

  lemma StagesArePlanned(hasVariables: bool, inits: seq<nat>, executed: set<nat>)
    requires Pending(inits, executed) == inits
    ensures Planned(Plan(hasVariables, inits, executed), inits, |InitialStages(hasVariables)|)
  {
  }
}

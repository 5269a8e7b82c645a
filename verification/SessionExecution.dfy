/** Running a compiled submission: variable initialisers, init functions and body share one cost budget. */
module SessionExecution {
  import opened Wrappers

  datatype Stage = VariableInit | InitFunction(index: nat) | EvalBody

  /** What one machine run reports. */
  datatype Ran = Ran(cost: nat, ok: bool)

  /** The k-th stage started, under a limit; a limit that is not positive means unmetered. */
  type Machine = (nat, Stage, int) -> Ran

  /** A metered machine stays within its limit. */
  ghost predicate Respects(vm: Machine) {
    forall k, stage, limit :: limit > 0 ==> vm(k, stage, limit).cost <= limit
  }

  // ---------- what a run does ----------

  datatype Entry = Entry(stage: Stage, limit: int, cost: nat, ok: bool)

  datatype Stop = Cancelled | Exhausted | StageFailed

  datatype Progress = Progress(ran: seq<Entry>, stop: Option<Stop>)

  function Spent(ran: seq<Entry>): nat {
    if ran == [] then 0 else Spent(ran[..|ran| - 1]) + ran[|ran| - 1].cost
  }

  /** One more stage, unless the run has stopped, is cancelled, or has nothing left to spend. */
  function Advance(p: Progress, stage: Stage, budget: int, vm: Machine, cancelled: nat -> bool): Progress {
    var k := |p.ran|;
    if p.stop.Some? then p
    else if cancelled(k) then p.(stop := Some(Cancelled))
    else if budget > 0 && Spent(p.ran) >= budget then p.(stop := Some(Exhausted))
    else
      var limit := if budget > 0 then budget - Spent(p.ran) else budget;
      var r := vm(k, stage, limit);
      Progress(p.ran + [Entry(stage, limit, r.cost, r.ok)], if r.ok then None else Some(StageFailed))
  }

  function RunPlan(plan: seq<Stage>, budget: int, vm: Machine, cancelled: nat -> bool): Progress {
    if plan == [] then Progress([], None)
    else Advance(RunPlan(plan[..|plan| - 1], budget, vm, cancelled), plan[|plan| - 1], budget, vm, cancelled)
  }

  /** The init functions that have not run yet, each once. */
  function Pending(inits: seq<nat>, executed: set<nat>): seq<nat> {
    if inits == [] then []
    else
      var n := |inits| - 1;
      var front := Pending(inits[..n], executed);
      if inits[n] in executed || inits[n] in front then front else front + [inits[n]]
  }

  function InitStages(pending: seq<nat>): (r: seq<Stage>)
    ensures |r| == |pending| && forall i :: 0 <= i < |r| ==> r[i] == InitFunction(pending[i])
  {
    seq(|pending|, i requires 0 <= i < |pending| => InitFunction(pending[i]))
  }

  function InitialStages(hasVariables: bool): seq<Stage> {
    if hasVariables then [VariableInit] else []
  }

  function Plan(hasVariables: bool, inits: seq<nat>, executed: set<nat>): seq<Stage> {
    InitialStages(hasVariables) + InitStages(Pending(inits, executed)) + [EvalBody]
  }

  /** The init functions that ended well. */
  function Succeeded(ran: seq<Entry>): set<nat> {
    set i | 0 <= i < |ran| && ran[i].stage.InitFunction? && ran[i].ok :: ran[i].stage.index
  }

  // ---------- what holds of every run ----------

  /** Each stage started had what was left of the budget as its limit, and that was positive. */
  ghost predicate Metered(ran: seq<Entry>, budget: int) {
    forall i :: 0 <= i < |ran| ==> ran[i].limit == budget - Spent(ran[..i]) && ran[i].limit > 0
  }

  /** One budget spans all stages: the sum never exceeds it, and no stage runs unmetered. */
  lemma {:induction false} WithinBudget(plan: seq<Stage>, budget: int, vm: Machine, cancelled: nat -> bool)
    requires budget > 0 && Respects(vm)
    ensures var p := RunPlan(plan, budget, vm, cancelled); Spent(p.ran) <= budget && Metered(p.ran, budget)
  {
    hide Metered;
    if plan == [] {
      MeteredNone(budget);
    } else {
      var n := |plan| - 1;
      WithinBudget(plan[..n], budget, vm, cancelled);
      var p, q := RunPlan(plan[..n], budget, vm, cancelled), RunPlan(plan, budget, vm, cancelled);
      if |q.ran| > |p.ran| {
        MeteredSnoc(p.ran, q.ran[|p.ran|], budget);
      }
    }
  }

  lemma MeteredNone(budget: int)
    ensures Metered([], budget)
  {
  }

  lemma MeteredSnoc(ran: seq<Entry>, e: Entry, budget: int)
    requires Metered(ran, budget) && e.limit == budget - Spent(ran) && e.limit > 0
    ensures Metered(ran + [e], budget) && Spent(ran + [e]) == Spent(ran) + e.cost
  {
    hide Spent;
    SpentSnoc(ran, e);
    var all := ran + [e];
    forall i | 0 <= i < |all| ensures all[i].limit == budget - Spent(all[..i]) && all[i].limit > 0 {
      if i < |ran| {
        assert all[..i] == ran[..i];
      } else {
        assert all[..i] == ran;
      }
    }
  }

  lemma SpentSnoc(ran: seq<Entry>, e: Entry)
    ensures Spent(ran + [e]) == Spent(ran) + e.cost
  {
    assert (ran + [e])[..|ran|] == ran;
  }

  /** Without a budget every stage keeps the limit the service had. */
  lemma {:induction false} Unmetered(plan: seq<Stage>, budget: int, vm: Machine, cancelled: nat -> bool)
    requires budget <= 0
    ensures var p := RunPlan(plan, budget, vm, cancelled);
      (forall i :: 0 <= i < |p.ran| ==> p.ran[i].limit == budget) && p.stop != Some(Exhausted)
  {
    if plan != [] {
      Unmetered(plan[..|plan| - 1], budget, vm, cancelled);
    }
  }

  /** Why a run ended: it finished the plan, or a stage failed, or the next one could not start. */
  ghost predicate EndsRightly(p: Progress, plan: seq<Stage>, budget: int, cancelled: nat -> bool) {
    var k := |p.ran|;
    && k <= |plan| && (forall i :: 0 <= i < k ==> p.ran[i].stage == plan[i])
    && (forall i :: 0 <= i < k && !p.ran[i].ok ==> i == k - 1 && p.stop == Some(StageFailed))
    && match p.stop
       case None => k == |plan|
       case Some(StageFailed) => k > 0 && !p.ran[k - 1].ok
       case Some(Cancelled) => k < |plan| && cancelled(k)
       case Some(Exhausted) => k < |plan| && !cancelled(k) && budget > 0 && Spent(p.ran) >= budget
  }

  lemma {:induction false} RunEndsRightly(plan: seq<Stage>, budget: int, vm: Machine, cancelled: nat -> bool)
    ensures EndsRightly(RunPlan(plan, budget, vm, cancelled), plan, budget, cancelled)
  {
    if plan != [] {
      RunEndsRightly(plan[..|plan| - 1], budget, vm, cancelled);
    }
  }

  /** Each entry records what the machine did when it was started with that limit. */
  lemma {:induction false} EntriesAreRuns(plan: seq<Stage>, budget: int, vm: Machine, cancelled: nat -> bool, i: nat)
    requires i < |RunPlan(plan, budget, vm, cancelled).ran|
    ensures var e := RunPlan(plan, budget, vm, cancelled).ran[i]; !cancelled(i) && Ran(e.cost, e.ok) == vm(i, e.stage, e.limit)
  {
    var front := RunPlan(plan[..|plan| - 1], budget, vm, cancelled);
    if i < |front.ran| {
      EntriesAreRuns(plan[..|plan| - 1], budget, vm, cancelled, i);
    }
  }

  // ---------- what a plan holds ----------

  /** Index a occurs in the list, and before any b. */
  ghost predicate Before(inits: seq<nat>, a: nat, b: nat) {
    exists p :: 0 <= p < |inits| && inits[p] == a && b !in inits[..p + 1]
  }

  /** The stages of a submission: its variable initialiser first if it has one, then each init function listed that has not run, once, in order of first occurrence, and last its body. */
  ghost predicate IsSchedule(stages: seq<Stage>, hasVariables: bool, inits: seq<nat>, executed: set<nat>) {
    && |stages| > 0 && (hasVariables ==> stages[0].VariableInit?)
    && (forall i :: 0 <= i < |stages| && stages[i].VariableInit? ==> i == 0 && hasVariables)
    && (forall i :: 0 <= i < |stages| ==> (stages[i].EvalBody? <==> i == |stages| - 1))
    && (forall x :: InitFunction(x) in stages <==> x in inits && x !in executed)
    && (forall i, j :: 0 <= i < j < |stages| && stages[i].InitFunction? && stages[j].InitFunction? ==> Before(inits, stages[i].index, stages[j].index))
  }

  lemma BeforeMore(inits: seq<nat>, a: nat, b: nat, last: nat)
    requires Before(inits, a, b)
    ensures Before(inits + [last], a, b)
  {
    var p :| 0 <= p < |inits| && inits[p] == a && b !in inits[..p + 1];
    assert (inits + [last])[p] == a && (inits + [last])[..p + 1] == inits[..p + 1];
  }

  lemma BeforeLast(inits: seq<nat>, a: nat, last: nat)
    requires a in inits && last !in inits
    ensures Before(inits + [last], a, last)
  {
    var p :| 0 <= p < |inits| && inits[p] == a;
    assert (inits + [last])[p] == a && (inits + [last])[..p + 1] == inits[..p + 1];
  }

  ghost predicate InOrder(r: seq<nat>, inits: seq<nat>) {
    forall i, j :: 0 <= i < j < |r| ==> Before(inits, r[i], r[j])
  }

  lemma {:induction false} PendingExact(inits: seq<nat>, executed: set<nat>)
    ensures forall x :: x in Pending(inits, executed) <==> x in inits && x !in executed
    ensures InOrder(Pending(inits, executed), inits)
  {
    hide Before;
    if inits != [] {
      var n := |inits| - 1;
      var rest, last := inits[..n], inits[n];
      assert inits == rest + [last];
      PendingExact(rest, executed);
      var front, r := Pending(rest, executed), Pending(inits, executed);
      forall i, j | 0 <= i < j < |r| ensures Before(inits, r[i], r[j]) {
        assert r[i] == front[i];
        if j < |front| {
          assert r[j] == front[j] && Before(rest, front[i], front[j]);
          BeforeMore(rest, r[i], r[j], last);
        } else {
          assert front[i] in front;
          BeforeLast(rest, r[i], last);
        }
      }
    }
  }

  lemma PlanAt(hasVariables: bool, inits: seq<nat>, executed: set<nat>)
    ensures var plan, pending, k := Plan(hasVariables, inits, executed), Pending(inits, executed), if hasVariables then 1 else 0;
      && |plan| == k + |pending| + 1 && (hasVariables ==> plan[0] == VariableInit) && plan[|plan| - 1] == EvalBody
      && forall i :: k <= i < |plan| - 1 ==> plan[i] == InitFunction(pending[i - k])
  {
    hide Pending;
  }

  lemma PlanInits(hasVariables: bool, inits: seq<nat>, executed: set<nat>, x: nat)
    ensures InitFunction(x) in Plan(hasVariables, inits, executed) <==> x in inits && x !in executed
  {
    PlanAt(hasVariables, inits, executed);
    PendingExact(inits, executed);
    hide Pending, Plan, Before;
    var plan, pending, k := Plan(hasVariables, inits, executed), Pending(inits, executed), if hasVariables then 1 else 0;
    if InitFunction(x) in plan {
      var i :| 0 <= i < |plan| && plan[i] == InitFunction(x);
      assert pending[i - k] == x;
    }
    if x in pending {
      var i :| 0 <= i < |pending| && pending[i] == x;
      assert plan[k + i] == InitFunction(x);
    }
  }

  lemma PlanIsSchedule(hasVariables: bool, inits: seq<nat>, executed: set<nat>)
    ensures IsSchedule(Plan(hasVariables, inits, executed), hasVariables, inits, executed)
  {
    PlanAt(hasVariables, inits, executed);
    PendingExact(inits, executed);
    hide Pending, Plan, Before;
    var plan, pending, k := Plan(hasVariables, inits, executed), Pending(inits, executed), if hasVariables then 1 else 0;
    forall x ensures InitFunction(x) in plan <==> x in inits && x !in executed {
      PlanInits(hasVariables, inits, executed, x);
    }
    forall i, j | 0 <= i < j < |plan| && plan[i].InitFunction? && plan[j].InitFunction? ensures Before(inits, plan[i].index, plan[j].index) {
      assert plan[i] == InitFunction(pending[i - k]) && plan[j] == InitFunction(pending[j - k]);
    }
  }

  // ---------- stopping early ----------

  lemma {:induction false} StopStays(plan: seq<Stage>, i: nat, budget: int, vm: Machine, cancelled: nat -> bool)
    requires i <= |plan| && RunPlan(plan[..i], budget, vm, cancelled).stop.Some?
    ensures RunPlan(plan, budget, vm, cancelled) == RunPlan(plan[..i], budget, vm, cancelled)
    decreases |plan| - i
  {
    if i == |plan| {
      assert plan[..i] == plan;
    } else {
      assert plan[..i + 1][..i] == plan[..i];
      StopStays(plan, i + 1, budget, vm, cancelled);
    }
  }

  lemma RunSnoc(plan: seq<Stage>, stage: Stage, budget: int, vm: Machine, cancelled: nat -> bool)
    ensures RunPlan(plan + [stage], budget, vm, cancelled) == Advance(RunPlan(plan, budget, vm, cancelled), stage, budget, vm, cancelled)
  {
    assert (plan + [stage])[..|plan|] == plan;
  }

  lemma {:induction false} PendingPrefix(inits: seq<nat>, i: nat, executed: set<nat>)
    requires i <= |inits|
    ensures Pending(inits[..i], executed) <= Pending(inits, executed)
    decreases |inits| - i
  {
    if i == |inits| {
      assert inits[..i] == inits;
    } else {
      assert inits[..i + 1][..i] == inits[..i];
      PendingPrefix(inits, i + 1, executed);
    }
  }

  /** The stages before and up to the first i init functions begin the plan. */
  lemma PlanPrefix(hasVariables: bool, inits: seq<nat>, i: nat, executed: set<nat>)
    requires i <= |inits|
    ensures var done := InitialStages(hasVariables) + InitStages(Pending(inits[..i], executed));
      done <= Plan(hasVariables, inits, executed)
  {
    PendingPrefix(inits, i, executed);
    var part, all := Pending(inits[..i], executed), Pending(inits, executed);
    assert forall k :: 0 <= k < |part| ==> part[k] == all[k];
    assert InitStages(part) == InitStages(all)[..|part|];
  }

  lemma StoppedPlan(done: seq<Stage>, hasVariables: bool, inits: seq<nat>, executed: set<nat>, budget: int, vm: Machine, cancelled: nat -> bool)
    requires done <= Plan(hasVariables, inits, executed) && RunPlan(done, budget, vm, cancelled).stop.Some?
    ensures RunPlan(Plan(hasVariables, inits, executed), budget, vm, cancelled) == RunPlan(done, budget, vm, cancelled)
  {
    var plan := Plan(hasVariables, inits, executed);
    assert plan[..|done|] == done;
    StopStays(plan, |done|, budget, vm, cancelled);
  }

  lemma SucceededNone()
    ensures Succeeded([]) == {}
  {
  }

  lemma SucceededSnoc(ran: seq<Entry>, e: Entry)
    ensures Succeeded(ran + [e]) == Succeeded(ran) + if e.stage.InitFunction? && e.ok then {e.stage.index} else {}
  {
    var all := ran + [e];
    assert all[|ran|] == e && forall i :: 0 <= i < |ran| ==> all[i] == ran[i];
  }

  // ---------- the service and the execution ----------

  class Service {
    var costBudget: int
    var lastCost: nat

    constructor (budget: int)
      ensures costBudget == budget && lastCost == 0
    {
      costBudget, lastCost := budget, 0;
    }
  }

  class Execution {
    const service: Service
    var costUsed: nat
    var executed: set<nat>
    var started: nat
    ghost var ran: seq<Entry>

    constructor (service: Service, executed: set<nat>)
      ensures this.service == service && costUsed == 0 && this.executed == executed && started == 0 && ran == []
    {
      this.service, costUsed, this.executed, started, ran := service, 0, executed, 0, [];
    }

    /** The counters match the stages that ran; without a budget the service's limit is left alone. */
    ghost predicate Counted(budget: int)
      reads this, service
    {
      costUsed == Spent(ran) && started == |ran| && (budget <= 0 ==> service.costBudget == budget)
    }

    /** Starts one stage with what is left of the budget. */
    method RunStage(stage: Stage, budget: int, vm: Machine, cancelled: nat -> bool) returns (stop: Option<Stop>)
      requires Counted(budget)
      modifies this`costUsed, this`started, this`ran, service
      ensures Progress(ran, stop) == Advance(Progress(old(ran), None), stage, budget, vm, cancelled) && Counted(budget)
      ensures Succeeded(ran) == Succeeded(old(ran)) + if stop.None? && stage.InitFunction? then {stage.index} else {}
    {
      if cancelled(started) {
        return Some(Cancelled);
      }
      if budget > 0 {
        if costUsed >= budget {
          return Some(Exhausted);
        }
        service.costBudget := budget - costUsed;
      }
      service.lastCost := 0;
      var r := vm(started, stage, service.costBudget);
      service.lastCost := r.cost;
      ghost var e := Entry(stage, service.costBudget, r.cost, r.ok);
      SucceededSnoc(ran, e);
      SpentSnoc(ran, e);
      ran := ran + [e];
      started := started + 1;
      costUsed := costUsed + service.lastCost;
      return if r.ok then None else Some(StageFailed);
    }

    /** Everything so far went well, and the bookkeeping is that of these stages. */
    ghost predicate InStep(done: seq<Stage>, budget: int, vm: Machine, cancelled: nat -> bool)
      reads this, service
    {
      Progress(ran, None) == RunPlan(done, budget, vm, cancelled) && Counted(budget)
    }

    /** One more stage of the plan. */
    method Continue(ghost done: seq<Stage>, stage: Stage, budget: int, vm: Machine, cancelled: nat -> bool) returns (stop: Option<Stop>)
      requires InStep(done, budget, vm, cancelled)
      modifies this`costUsed, this`started, this`ran, service
      ensures Progress(ran, stop) == RunPlan(done + [stage], budget, vm, cancelled) && Counted(budget)
      ensures Succeeded(ran) == Succeeded(old(ran)) + if stop.None? && stage.InitFunction? then {stage.index} else {}
    {
      hide Advance, Succeeded;
      RunSnoc(done, stage, budget, vm, cancelled);
      stop := RunStage(stage, budget, vm, cancelled);
    }

    /** Runs the init functions that have not run yet, and marks each that ended well. */
    method RunInits(hasVariables: bool, inits: seq<nat>, budget: int, vm: Machine, cancelled: nat -> bool) returns (stop: Option<Stop>)
      requires InStep(InitialStages(hasVariables), budget, vm, cancelled) && Succeeded(ran) == {}
      modifies this`costUsed, this`executed, this`started, this`ran, service
      ensures executed == old(executed) + Succeeded(ran) && Counted(budget)
      ensures stop.None? ==> InStep(InitialStages(hasVariables) + InitStages(Pending(inits, old(executed))), budget, vm, cancelled)
      ensures stop.Some? ==> Progress(ran, stop) == RunPlan(Plan(hasVariables, inits, old(executed)), budget, vm, cancelled)
    {
      hide RunPlan, Succeeded;
      ghost var done, pending := InitialStages(hasVariables), Pending(inits[..0], executed);
      assert InitialStages(hasVariables) + InitStages(pending) == done;
      for i := 0 to |inits|
        invariant pending == Pending(inits[..i], old(executed)) && done == InitialStages(hasVariables) + InitStages(pending)
        invariant InStep(done, budget, vm, cancelled)
        invariant executed == old(executed) + Succeeded(ran)
        invariant forall x :: x in executed <==> x in old(executed) || x in pending
      {
        assert inits[..i + 1][..i] == inits[..i];
        if inits[i] in executed {
          continue;
        }
        stop := Continue(done, InitFunction(inits[i]), budget, vm, cancelled);
        assert InitStages(pending + [inits[i]]) == InitStages(pending) + [InitFunction(inits[i])];
        pending := pending + [inits[i]];
        done := done + [InitFunction(inits[i])];
        assert done == InitialStages(hasVariables) + InitStages(pending);
        if stop.Some? {
          PlanPrefix(hasVariables, inits, i + 1, old(executed));
          StoppedPlan(done, hasVariables, inits, old(executed), budget, vm, cancelled);
          return;
        }
        executed := executed + {inits[i]};
      }
      assert inits[..|inits|] == inits;
      return None;
    }

    method RunStages(hasVariables: bool, inits: seq<nat>, budget: int, vm: Machine, cancelled: nat -> bool) returns (stop: Option<Stop>)
      requires costUsed == 0 && started == 0 && ran == [] && service.costBudget == budget
      modifies this`costUsed, this`executed, this`started, this`ran, service
      ensures Progress(ran, stop) == RunPlan(Plan(hasVariables, inits, old(executed)), budget, vm, cancelled)
      ensures costUsed == Spent(ran) && executed == old(executed) + Succeeded(ran)
    {
      hide Succeeded;
      SucceededNone();
      RunNothing(budget, vm, cancelled);
      hide RunPlan;
      if hasVariables {
        stop := Continue([], VariableInit, budget, vm, cancelled);
        assert [] + [VariableInit] == InitialStages(hasVariables);
        if stop.Some? {
          PlanPrefix(hasVariables, inits, 0, executed);
          StoppedPlan(InitialStages(hasVariables), hasVariables, inits, executed, budget, vm, cancelled);
          return;
        }
      }
      stop := RunInits(hasVariables, inits, budget, vm, cancelled);
      if stop.Some? {
        return;
      }
      stop := Continue(InitialStages(hasVariables) + InitStages(Pending(inits, old(executed))), EvalBody, budget, vm, cancelled);
    }

    /** Runs the stages in order; whatever happens, the service ends with its own limit and the summed cost. */
    method Run(hasVariables: bool, inits: seq<nat>, vm: Machine, cancelled: nat -> bool) returns (stop: Option<Stop>)
      requires costUsed == 0 && started == 0 && ran == []
      modifies this`costUsed, this`executed, this`started, this`ran, service
      ensures Progress(ran, stop) == RunPlan(Plan(hasVariables, inits, old(executed)), old(service.costBudget), vm, cancelled)
      ensures exists stages :: IsSchedule(stages, hasVariables, inits, old(executed)) && EndsRightly(Progress(ran, stop), stages, old(service.costBudget), cancelled)
      ensures forall i :: 0 <= i < |ran| ==> !cancelled(i) && vm(i, ran[i].stage, ran[i].limit) == Ran(ran[i].cost, ran[i].ok)
      ensures old(service.costBudget) > 0 && Respects(vm) ==> Spent(ran) <= old(service.costBudget) && Metered(ran, old(service.costBudget))
      ensures old(service.costBudget) <= 0 ==> forall i :: 0 <= i < |ran| ==> ran[i].limit == old(service.costBudget)
      ensures service.costBudget == old(service.costBudget)
      ensures service.lastCost == costUsed == Spent(ran)
      ensures executed == old(executed) + Succeeded(ran)
    {
      var budget := service.costBudget;
      stop := RunStages(hasVariables, inits, budget, vm, cancelled);
      service.costBudget := budget;
      service.lastCost := costUsed;
      hide EndsRightly, IsSchedule, RunPlan, Plan, Respects, Metered, Spent;
      ghost var plan := Plan(hasVariables, inits, old(executed));
      PlanIsSchedule(hasVariables, inits, old(executed));
      RunEndsRightly(plan, budget, vm, cancelled);
      forall i | 0 <= i < |ran| ensures !cancelled(i) && vm(i, ran[i].stage, ran[i].limit) == Ran(ran[i].cost, ran[i].ok) {
        EntriesAreRuns(plan, budget, vm, cancelled, i);
      }
      if budget <= 0 {
        Unmetered(plan, budget, vm, cancelled);
      } else if Respects(vm) {
        WithinBudget(plan, budget, vm, cancelled);
      }
    }
  }

  lemma RunNothing(budget: int, vm: Machine, cancelled: nat -> bool)
    ensures RunPlan([], budget, vm, cancelled) == Progress([], None)
  {
  }
}

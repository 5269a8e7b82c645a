/** One private interpreter session shared by concurrent callers: its mutex-guarded state and every interleaving of it. */
module RestrictedSession {
  import opened Wrappers

  datatype Cause = SessionClosed | SessionExpired | RestrictedLimit | ParentCancelled | SubmissionFailed

  function Min(a: int, b: int): int {
    if a < b then a else b
  }

  function Max(a: int, b: int): int {
    if a < b then b else a
  }

  // ---------- limits ----------

  /** Per-submission limits, then the session's cumulative ones. */
  datatype Config = Config(
    maxSourceBytes: int, maxOutputBytes: int, costBudget: int,
    cumulativeSource: int, cumulativeOutput: int, submissions: int, cumulativeCost: int)

  const DEFAULTS := Config(0x10_0000, 0x1_0000, 10_000_000, 0x40_0000, 0x10_0000, 1024, 100_000_000)

  /** Replaces each zero limit by its fallback and refuses a negative one. */
  method DefaultLimits(values: seq<int>, fallbacks: seq<int>) returns (r: Option<seq<int>>)
    requires |values| == |fallbacks| && forall i :: 0 <= i < |fallbacks| ==> fallbacks[i] > 0
    ensures r.None? <==> exists i :: 0 <= i < |values| && values[i] < 0
    ensures r.Some? ==> |r.value| == |values|
    ensures r.Some? ==> forall i :: 0 <= i < |values| ==> r.value[i] > 0
    ensures r.Some? ==> forall i :: 0 <= i < |values| ==> r.value[i] == if values[i] == 0 then fallbacks[i] else values[i]
  {
    var out := values;
    for i := 0 to |values|
      invariant |out| == |values|
      invariant forall j :: 0 <= j < i ==> values[j] >= 0 && out[j] == if values[j] == 0 then fallbacks[j] else values[j]
      invariant forall j :: i <= j < |values| ==> out[j] == values[j]
    {
      if out[i] < 0 {
        return None;
      }
      if out[i] == 0 {
        out := out[i := fallbacks[i]];
      }
    }
    r := Some(out);
  }

  ghost predicate Positive(cfg: Config) {
    && cfg.maxSourceBytes > 0 && cfg.maxOutputBytes > 0 && cfg.costBudget > 0
    && cfg.cumulativeSource > 0 && cfg.cumulativeOutput > 0 && cfg.submissions > 0 && cfg.cumulativeCost > 0
  }

  method ValidateConfig(given: Config) returns (r: Option<Config>)
    ensures r.Some? ==> Positive(r.value)
    ensures r.None? <==>
      (|| given.maxSourceBytes < 0 || given.maxOutputBytes < 0 || given.costBudget < 0 || given.cumulativeSource < 0
       || given.cumulativeOutput < 0 || given.submissions < 0 || given.cumulativeCost < 0)
    ensures Positive(given) ==> r == Some(given)
    ensures r.Some? ==>
      && r.value.maxSourceBytes == (if given.maxSourceBytes == 0 then 1024 * 1024 else given.maxSourceBytes)
      && r.value.maxOutputBytes == (if given.maxOutputBytes == 0 then 64 * 1024 else given.maxOutputBytes)
      && r.value.costBudget == (if given.costBudget == 0 then 10_000_000 else given.costBudget)
      && r.value.cumulativeSource == (if given.cumulativeSource == 0 then 4 * 1024 * 1024 else given.cumulativeSource)
      && r.value.cumulativeOutput == (if given.cumulativeOutput == 0 then 1024 * 1024 else given.cumulativeOutput)
      && r.value.submissions == (if given.submissions == 0 then 1024 else given.submissions)
      && r.value.cumulativeCost == (if given.cumulativeCost == 0 then 100_000_000 else given.cumulativeCost)
  {
    var values := [given.maxSourceBytes, given.maxOutputBytes, given.costBudget,
                   given.cumulativeSource, given.cumulativeOutput, given.submissions, given.cumulativeCost];
    var fallbacks := [DEFAULTS.maxSourceBytes, DEFAULTS.maxOutputBytes, DEFAULTS.costBudget,
                      DEFAULTS.cumulativeSource, DEFAULTS.cumulativeOutput, DEFAULTS.submissions, DEFAULTS.cumulativeCost];
    var limits := DefaultLimits(values, fallbacks);
    assert values[0] == given.maxSourceBytes && values[1] == given.maxOutputBytes && values[2] == given.costBudget;
    assert values[3] == given.cumulativeSource && values[4] == given.cumulativeOutput;
    assert values[5] == given.submissions && values[6] == given.cumulativeCost;
    if limits.None? {
      return None;
    }
    var l := limits.value;
    r := Some(Config(l[0], l[1], l[2], l[3], l[4], l[5], l[6]));
  }

  // ---------- the guarded fields ----------

  datatype Output = Output(buffer: string, remaining: int, truncated: bool)

  /** Timers by the generation they were armed with: still counting down, or fired and waiting for the mutex. */
  datatype Timers = Timers(idle: Option<nat>, pending: set<nat>, firing: set<nat>)

  datatype Core = Core(
    cause: Option<Cause>, active: bool, generation: nat, timers: Timers,
    retained: bool, output: Option<Output>,
    sourceRemaining: int, outputRemaining: int, costRemaining: int, submissionsRemaining: int, budget: int)

  datatype Admission = Admitted | Busy | Refused(cause: Cause)

  /** Cancelling keeps the first cause. */
  function Cancelled(c: Core, cause: Cause): Core {
    if c.cause.Some? then c else c.(cause := Some(cause))
  }

  function Dropped(c: Core): Core {
    c.(retained := false, output := None)
  }

  /** Stopping the current timer does not recall a callback that already fired. */
  function StopIdle(t: Timers): Timers {
    if t.idle.None? then t else t.(pending := t.pending - {t.idle.value})
  }

  function Armed(c: Core): Core {
    var g := c.generation + 1;
    c.(generation := g, timers := Timers(Some(g), c.timers.pending + {g}, c.timers.firing))
  }

  predicate OverLimit(cfg: Config, c: Core, length: nat) {
    length > cfg.maxSourceBytes || length > c.sourceRemaining || c.submissionsRemaining == 0 || c.costRemaining <= 0
  }

  function AdmitStep(cfg: Config, c: Core, length: nat): (Core, Admission) {
    if c.cause.Some? then (c, Refused(c.cause.value))
    else if c.active then (c, Busy)
    else if OverLimit(cfg, c, length) then (Cancelled(c, RestrictedLimit), Refused(RestrictedLimit))
    else
      (c.(active := true, timers := StopIdle(c.timers), generation := c.generation + 1,
          sourceRemaining := c.sourceRemaining - length, submissionsRemaining := c.submissionsRemaining - 1), Admitted)
  }

  function FinishStep(c: Core, err: Option<Cause>): Core {
    var c1 := (if err.Some? then Cancelled(c, err.value) else c).(active := false);
    if c1.cause.Some? then Dropped(c1) else Armed(c1)
  }

  function ReleaseStep(c: Core): Core {
    if c.cause.None? then c
    else
      var c1 := c.(timers := StopIdle(c.timers));
      if c1.active then c1 else Dropped(c1)
  }

  function IdleStep(c: Core, generation: nat): Core {
    if c.active || c.generation != generation || c.cause.Some? then c
    else Dropped(Cancelled(c, SessionExpired))
  }

  /** The head of an evaluation: a fresh capture buffer and a cost budget for the interpreter. */
  function BeginStep(cfg: Config, c: Core): Core
    requires c.output.Some?
  {
    c.(output := Some(Output("", Min(cfg.maxOutputBytes, c.outputRemaining), false)), budget := Min(cfg.costBudget, c.costRemaining))
  }

  /** Captures what fits, and marks the capture truncated when something did not. */
  function WriteStep(o: Output, data: string): Output {
    if |data| > o.remaining then Output(o.buffer + data[..Max(0, o.remaining)], 0, true)
    else Output(o.buffer + data, o.remaining - |data|, o.truncated)
  }

  /** The tail of an evaluation: captured bytes and metered cost leave the cumulative quotas. */
  function ChargeStep(c: Core, cost: int): Core
    requires c.output.Some?
  {
    c.(outputRemaining := c.outputRemaining - |c.output.value.buffer|,
       costRemaining := c.costRemaining - Min(c.costRemaining, Max(cost, 0)))
  }

  /** The session object. Every method but the evaluation ones runs under the mutex. */
  class Session {
    const config: Config
    var cause: Option<Cause>
    var active: bool
    var generation: nat
    var timers: Timers
    var retained: bool
    var output: Option<Output>
    var sourceRemaining: int
    var outputRemaining: int
    var costRemaining: int
    var submissionsRemaining: int
    var budget: int

    function State(): Core
      reads this
    {
      Core(cause, active, generation, timers, retained, output,
           sourceRemaining, outputRemaining, costRemaining, submissionsRemaining, budget)
    }

    constructor (config: Config)
      ensures this.config == config && State() == Initial(config)
    {
      this.config := config;
      cause, active, generation, timers := None, false, 0, Timers(None, {}, {});
      retained, output := true, Some(Output("", 0, false));
      sourceRemaining, outputRemaining := config.cumulativeSource, config.cumulativeOutput;
      costRemaining, submissionsRemaining, budget := config.cumulativeCost, config.submissions, 0;
      new;
      ArmIdle();
    }

    method Cancel(reason: Cause)
      modifies this
      ensures State() == Cancelled(old(State()), reason)
    {
      if cause.None? {
        cause := Some(reason);
      }
    }

    method ArmIdle()
      modifies this
      ensures State() == Armed(old(State()))
    {
      generation := generation + 1;
      timers := Timers(Some(generation), timers.pending + {generation}, timers.firing);
    }

    method Admit(length: nat) returns (r: Admission)
      modifies this
      ensures (State(), r) == AdmitStep(config, old(State()), length)
    {
      if cause.Some? {
        return Refused(cause.value);
      }
      if active {
        return Busy;
      }
      if length > config.maxSourceBytes || length > sourceRemaining || submissionsRemaining == 0 || costRemaining <= 0 {
        Cancel(RestrictedLimit);
        return Refused(RestrictedLimit);
      }
      active := true;
      if timers.idle.Some? {
        timers := timers.(pending := timers.pending - {timers.idle.value});
      }
      generation := generation + 1;
      sourceRemaining := sourceRemaining - length;
      submissionsRemaining := submissionsRemaining - 1;
      return Admitted;
    }

    method Finish(err: Option<Cause>)
      modifies this
      ensures State() == FinishStep(old(State()), err)
    {
      if err.Some? {
        Cancel(err.value);
      }
      active := false;
      if cause.Some? {
        retained, output := false, None;
        return;
      }
      ArmIdle();
    }

    method ReleaseClosed()
      modifies this
      ensures State() == ReleaseStep(old(State()))
    {
      if cause.None? {
        return;
      }
      if timers.idle.Some? {
        timers := timers.(pending := timers.pending - {timers.idle.value});
      }
      if !active {
        retained, output := false, None;
      }
    }

    method IdleFired(armed: nat)
      modifies this
      ensures State() == IdleStep(old(State()), armed)
    {
      if active || generation != armed || cause.Some? {
        return;
      }
      Cancel(SessionExpired);
      retained, output := false, None;
    }

    method Begin()
      requires output.Some?
      modifies this
      ensures State() == BeginStep(config, old(State()))
    {
      output := Some(Output("", Min(config.maxOutputBytes, outputRemaining), false));
      budget := Min(config.costBudget, costRemaining);
    }

    method Write(data: string) returns (written: nat, full: bool)
      requires output.Some? && output.value.remaining >= 0
      modifies this
      ensures State() == old(State()).(output := Some(WriteStep(old(output).value, data)))
      ensures full <==> |data| > old(output).value.remaining
      ensures written == Min(|data|, old(output).value.remaining)
    {
      var o := output.value;
      if |data| > o.remaining {
        output := Some(Output(o.buffer + data[..o.remaining], 0, true));
        return o.remaining, true;
      }
      output := Some(Output(o.buffer + data, o.remaining - |data|, o.truncated));
      return |data|, false;
    }

    method Charge(cost: int)
      requires output.Some?
      modifies this
      ensures State() == ChargeStep(old(State()), cost)
    {
      outputRemaining := outputRemaining - |output.value.buffer|;
      costRemaining := costRemaining - Min(costRemaining, Max(cost, 0));
    }
  }

  /** A new session: everything retained, nothing spent, and one idle timer running. */
  function Initial(cfg: Config): Core {
    Armed(Core(None, false, 0, Timers(None, {}, {}), true, Some(Output("", 0, false)),
               cfg.cumulativeSource, cfg.cumulativeOutput, cfg.cumulativeCost, cfg.submissions, 0))
  }

  // ---------- callers, timers and the context around the session ----------

  /** Where a submission stands between the two critical sections that open and close it. */
  datatype Phase = Waiting | Running | Done(err: Option<Cause>)

  /** What has happened so far, for stating what the fields must add up to. */
  datatype History = History(admits: nat, bytes: nat, captured: nat, cost: nat, armedAt: map<nat, nat>)

  datatype Sys = Sys(core: Core, threads: map<nat, Phase>, history: History, crashed: bool)

  datatype Step =
    | Admit(tid: nat, length: nat)
    | Begin(tid: nat)
    | Print(tid: nat, data: string)
    | Charge(tid: nat, cost: int, err: Option<Cause>)
    | Abandon(tid: nat, reason: Cause)
    | Finish(tid: nat)
    | Cancel(reason: Cause)
    | Release
    | TimerFires(generation: nat)
    | TimerRuns(generation: nat)

  /** Which steps the surroundings may take: callers follow their phases, and timers fire once. */
  ghost predicate Enabled(s: Sys, step: Step) {
    match step
    case Admit(t, _) => t !in s.threads
    case Begin(t) => t in s.threads && s.threads[t].Waiting?
    case Print(t, _) => t in s.threads && s.threads[t].Running?
    case Charge(t, _, _) => t in s.threads && s.threads[t].Running?
    case Abandon(t, _) => t in s.threads && !s.threads[t].Done?
    case Finish(t) => t in s.threads && s.threads[t].Done?
    case Cancel(_) => true
    case Release => true
    case TimerFires(g) => g in s.core.timers.pending
    case TimerRuns(g) => g in s.core.timers.firing
  }

  /** The outcome of an evaluation: its own error, else a limit error when its output was truncated. */
  function Verdict(o: Output, err: Option<Cause>): Option<Cause> {
    if err.Some? then err else if o.truncated then Some(RestrictedLimit) else None
  }

  function Noted(h: History, before: Core, after: Core): History {
    if after.generation > before.generation && after.generation in after.timers.pending
    then h.(armedAt := h.armedAt[after.generation := h.admits]) else h
  }

  function Next(cfg: Config, s: Sys, step: Step): Sys
    requires Enabled(s, step)
  {
    var c := s.core;
    match step
    case Admit(t, length) =>
      var r := AdmitStep(cfg, c, length);
      if r.1.Admitted? then
        s.(core := r.0, threads := s.threads[t := Waiting],
           history := s.history.(admits := s.history.admits + 1, bytes := s.history.bytes + length))
      else s.(core := r.0)
    case Begin(t) =>
      if c.output.None? || !c.retained then s.(crashed := true)
      else s.(core := BeginStep(cfg, c), threads := s.threads[t := Running])
    case Print(t, data) =>
      if c.output.None? then s.(crashed := true)
      else s.(core := c.(output := Some(WriteStep(c.output.value, data))))
    case Charge(t, cost, err) =>
      if c.output.None? then s.(crashed := true)
      else s.(core := ChargeStep(c, cost), threads := s.threads[t := Done(Verdict(c.output.value, err))],
              history := s.history.(captured := s.history.captured + |c.output.value.buffer|, cost := s.history.cost + Max(cost, 0)))
    case Abandon(t, reason) => s.(threads := s.threads[t := Done(Some(reason))])
    case Finish(t) =>
      var c1 := FinishStep(c, s.threads[t].err);
      s.(core := c1, threads := s.threads - {t}, history := Noted(s.history, c, c1))
    case Cancel(reason) => s.(core := Cancelled(c, reason))
    case Release => s.(core := ReleaseStep(c))
    case TimerFires(g) =>
      s.(core := c.(timers := c.timers.(pending := c.timers.pending - {g}, firing := c.timers.firing + {g})))
    case TimerRuns(g) =>
      var c1 := c.(timers := c.timers.(firing := c.timers.firing - {g}));
      s.(core := IdleStep(c1, g))
  }

  function Start(cfg: Config): Sys {
    var c := Initial(cfg);
    Sys(c, map[], History(0, 0, 0, 0, map[c.generation := 0]), false)
  }

  // ---------- what every reachable state satisfies ----------

  ghost predicate Ownership(s: Sys) {
    && !s.crashed
    && |s.threads| == (if s.core.active then 1 else 0)
    && (s.core.active ==> s.core.retained)
    && s.core.retained == s.core.output.Some?
    && (!s.core.retained ==> s.core.cause.Some?)
  }

  ghost predicate TimersOk(s: Sys) {
    var t, g := s.core.timers, s.core.generation;
    && t.idle.Some? && t.pending !! t.firing && t.pending <= {t.idle.value} && (s.core.active ==> t.pending == {})
    && (forall x :: x in t.pending || x in t.firing ==>
          x <= g && x in s.history.armedAt && s.history.armedAt[x] <= s.history.admits && (x < g ==> s.history.armedAt[x] < s.history.admits))
    && (s.core.active ==> g !in t.pending && g !in t.firing)
    && (s.core.cause.None? && !s.core.active ==> t.idle == Some(g) && (g in t.pending || g in t.firing))
    && (g in t.pending || g in t.firing ==> s.history.armedAt[g] == s.history.admits)
    && g <= 1 + 2 * s.history.admits && (s.core.active ==> g <= 2 * s.history.admits)
  }

  ghost predicate Quotas(cfg: Config, s: Sys) {
    var c, h := s.core, s.history;
    && c.sourceRemaining + h.bytes == cfg.cumulativeSource && c.sourceRemaining >= 0
    && c.submissionsRemaining + h.admits == cfg.submissions && c.submissionsRemaining >= 0
    && c.outputRemaining + h.captured == cfg.cumulativeOutput && c.outputRemaining >= 0
    && c.costRemaining == Max(0, cfg.cumulativeCost - h.cost)
  }

  /** The one submission in flight runs under a positive cost budget and an output bound it cannot exceed. */
  ghost predicate InFlight(cfg: Config, s: Sys) {
    forall t :: t in s.threads ==>
      && (s.threads[t].Waiting? ==> s.core.costRemaining > 0)
      && (s.threads[t].Running? && s.core.output.Some? ==>
            var o := s.core.output.value;
            && s.core.budget == Min(cfg.costBudget, s.core.costRemaining) > 0
            && o.remaining >= 0 && |o.buffer| + o.remaining == Min(cfg.maxOutputBytes, s.core.outputRemaining)
            && (o.truncated ==> o.remaining == 0))
  }

  ghost predicate Inv(cfg: Config, s: Sys) {
    Ownership(s) && TimersOk(s) && Quotas(cfg, s) && InFlight(cfg, s)
  }

  lemma StartInv(cfg: Config)
    requires Positive(cfg)
    ensures Inv(cfg, Start(cfg))
  {
  }

  lemma Alone(s: Sys, t: nat)
    requires Ownership(s) && t in s.threads
    ensures s.core.active && s.threads.Keys == {t} && s.threads - {t} == map[]
  {
    assert |s.threads.Keys| == |s.threads|;
    assert |s.threads.Keys - {t}| == |s.threads.Keys| - 1;
    assert s.threads.Keys - {t} == {};
    assert (s.threads - {t}).Keys == {};
  }

  lemma AdmitTimers(cfg: Config, s: Sys, t: nat, length: nat)
    requires TimersOk(s) && Enabled(s, Admit(t, length))
    ensures TimersOk(Next(cfg, s, Admit(t, length)))
  {
  }

  lemma AdmitInv(cfg: Config, s: Sys, t: nat, length: nat)
    requires Inv(cfg, s) && Enabled(s, Admit(t, length))
    ensures Inv(cfg, Next(cfg, s, Admit(t, length)))
  {
    AdmitTimers(cfg, s, t, length);
    hide TimersOk;
    if !s.core.active {
      FirstThread(s.threads, t);
    }
  }

  lemma FirstThread(threads: map<nat, Phase>, t: nat)
    requires |threads| == 0
    ensures threads == map[] && threads[t := Waiting].Keys == {t} && |threads[t := Waiting]| == 1
  {
    assert |threads.Keys| == |threads|;
    assert threads[t := Waiting].Keys == {t};
    assert |threads[t := Waiting].Keys| == |threads[t := Waiting]|;
  }

  lemma BeginInv(cfg: Config, s: Sys, t: nat)
    requires Positive(cfg) && Inv(cfg, s) && Enabled(s, Begin(t))
    ensures Inv(cfg, Next(cfg, s, Begin(t)))
  {
    Alone(s, t);
    assert s.threads[t := Running].Keys == {t};
  }

  lemma PrintInv(cfg: Config, s: Sys, t: nat, data: string)
    requires Inv(cfg, s) && Enabled(s, Print(t, data))
    ensures Inv(cfg, Next(cfg, s, Print(t, data)))
  {
    Alone(s, t);
  }

  lemma ChargeInv(cfg: Config, s: Sys, t: nat, cost: int, err: Option<Cause>)
    requires Inv(cfg, s) && Enabled(s, Charge(t, cost, err))
    ensures Inv(cfg, Next(cfg, s, Charge(t, cost, err)))
  {
    Alone(s, t);
    assert s.threads[t := Done(Verdict(s.core.output.value, err))].Keys == {t};
  }

  lemma AbandonInv(cfg: Config, s: Sys, t: nat, reason: Cause)
    requires Inv(cfg, s) && Enabled(s, Abandon(t, reason))
    ensures Inv(cfg, Next(cfg, s, Abandon(t, reason)))
  {
    Alone(s, t);
    assert s.threads[t := Done(Some(reason))].Keys == {t};
  }

  /** Arming a new timer while none of the current generation is about. */
  lemma ArmedTimers(s: Sys, s': Sys)
    requires TimersOk(s) && s.core.active && s'.core.cause.None? && !s'.core.active
    requires s'.core.generation == s.core.generation + 1 && s'.history == s.history.(armedAt := s.history.armedAt[s'.core.generation := s.history.admits])
    requires s'.core.timers == Timers(Some(s'.core.generation), s.core.timers.pending + {s'.core.generation}, s.core.timers.firing)
    ensures TimersOk(s')
  {
    var g, g' := s.core.generation, s'.core.generation;
    assert s.core.timers.pending == {};
    forall x | x in s'.core.timers.pending || x in s'.core.timers.firing
      ensures x <= g' && x in s'.history.armedAt && s'.history.armedAt[x] <= s'.history.admits && (x < g' ==> s'.history.armedAt[x] < s'.history.admits)
    {
      if x != g' {
        assert x in s.core.timers.firing && x != g;
      }
    }
  }

  lemma FinishTimers(cfg: Config, s: Sys, t: nat)
    requires TimersOk(s) && s.core.active && Enabled(s, Finish(t))
    ensures TimersOk(Next(cfg, s, Finish(t)))
  {
    var s' := Next(cfg, s, Finish(t));
    if s'.core.cause.None? {
      ArmedTimers(s, s');
    }
  }

  lemma FinishInv(cfg: Config, s: Sys, t: nat)
    requires Inv(cfg, s) && Enabled(s, Finish(t))
    ensures Inv(cfg, Next(cfg, s, Finish(t)))
  {
    Alone(s, t);
    FinishTimers(cfg, s, t);
    hide TimersOk;
  }

  lemma TimerInv(cfg: Config, s: Sys, step: Step)
    requires Inv(cfg, s) && Enabled(s, step) && (step.TimerFires? || step.TimerRuns?)
    ensures Inv(cfg, Next(cfg, s, step))
  {
  }

  lemma CancelInv(cfg: Config, s: Sys, step: Step)
    requires Inv(cfg, s) && Enabled(s, step) && (step.Cancel? || step.Release?)
    ensures Inv(cfg, Next(cfg, s, step))
  {
  }

  lemma StepInv(cfg: Config, s: Sys, step: Step)
    requires Positive(cfg) && Inv(cfg, s) && Enabled(s, step)
    ensures Inv(cfg, Next(cfg, s, step))
  {
    hide Inv, Next, Enabled;
    match step
    case Admit(t, length) => AdmitInv(cfg, s, t, length);
    case Begin(t) => BeginInv(cfg, s, t);
    case Print(t, data) => PrintInv(cfg, s, t, data);
    case Charge(t, cost, err) => ChargeInv(cfg, s, t, cost, err);
    case Abandon(t, reason) => AbandonInv(cfg, s, t, reason);
    case Finish(t) => FinishInv(cfg, s, t);
    case Cancel(reason) => CancelInv(cfg, s, step);
    case Release => CancelInv(cfg, s, step);
    case TimerFires(g) => TimerInv(cfg, s, step);
    case TimerRuns(g) => TimerInv(cfg, s, step);
  }

  // ---------- whole runs ----------

  /** A run takes enabled steps, in any interleaving, from a fresh session. */
  ghost predicate IsRun(cfg: Config, run: seq<Sys>, steps: seq<Step>) {
    && |run| == |steps| + 1 && run[0] == Start(cfg)
    && forall i :: 0 <= i < |steps| ==> Enabled(run[i], steps[i]) && run[i + 1] == Next(cfg, run[i], steps[i])
  }

  /** Every state of every run satisfies the invariant. */
  lemma {:induction false} RunInv(cfg: Config, run: seq<Sys>, steps: seq<Step>, k: nat)
    requires Positive(cfg) && IsRun(cfg, run, steps) && k < |run|
    ensures Inv(cfg, run[k])
    decreases k
  {
    hide Inv, Next, Enabled, Start;
    if k == 0 {
      StartInv(cfg);
    } else {
      RunInv(cfg, run, steps, k - 1);
      StepInv(cfg, run[k - 1], steps[k - 1]);
    }
  }

  /** What no later step undoes. */
  ghost predicate Later(a: Sys, b: Sys) {
    && (a.core.cause.Some? ==> b.core.cause == a.core.cause)
    && (!a.core.retained ==> !b.core.retained)
    && a.core.generation <= b.core.generation
    && a.history.admits <= b.history.admits && a.history.bytes <= b.history.bytes
    && a.history.captured <= b.history.captured && a.history.cost <= b.history.cost
    && (forall g :: g in a.history.armedAt ==> g in b.history.armedAt && b.history.armedAt[g] == a.history.armedAt[g])
  }

  lemma StepLater(cfg: Config, s: Sys, step: Step)
    requires Inv(cfg, s) && Enabled(s, step)
    requires forall g :: g in s.history.armedAt ==> g <= s.core.generation
    ensures Later(s, Next(cfg, s, step))
    ensures forall g :: g in Next(cfg, s, step).history.armedAt ==> g <= Next(cfg, s, step).core.generation
  {
  }

  /** Along a run, cancellation and its cause are permanent, released state stays released, and nothing recorded is lost. */
  lemma {:induction false} RunLater(cfg: Config, run: seq<Sys>, steps: seq<Step>, i: nat, k: nat)
    requires Positive(cfg) && IsRun(cfg, run, steps) && i <= k < |run|
    ensures Later(run[i], run[k])
    ensures forall g :: g in run[k].history.armedAt ==> g <= run[k].core.generation
    decreases k
  {
    hide Inv, Next, Enabled;
    if k > 0 {
      RunLater(cfg, run, steps, if i == k then k - 1 else i, k - 1);
      RunInv(cfg, run, steps, k - 1);
      StepLater(cfg, run[k - 1], steps[k - 1]);
    }
  }

  // ---------- what the invariant says ----------

  /** At most one submission is in flight, and it holds the retained state until it finishes. */
  lemma OneSubmission(cfg: Config, run: seq<Sys>, steps: seq<Step>, k: nat, t: nat, u: nat)
    requires Positive(cfg) && IsRun(cfg, run, steps) && k < |run| && t in run[k].threads && u in run[k].threads
    ensures t == u && run[k].core.active && run[k].core.retained && run[k].core.output.Some? && !run[k].crashed
  {
    RunInv(cfg, run, steps, k);
    Alone(run[k], t);
  }

  /** The session and its output are dropped only once the context is cancelled, and never under an active submission. */
  lemma DroppedOnlyWhenCancelled(cfg: Config, run: seq<Sys>, steps: seq<Step>, k: nat)
    requires Positive(cfg) && IsRun(cfg, run, steps) && k < |run| && !run[k].core.retained
    ensures run[k].core.cause.Some? && !run[k].core.active && run[k].threads == map[] && run[k].core.output.None?
  {
    RunInv(cfg, run, steps, k);
    assert |run[k].threads.Keys| == |run[k].threads|;
  }

  /** A timer callback that ends the session was armed after the last admission, and no submission is running. */
  lemma TimersAreNeverStale(cfg: Config, run: seq<Sys>, steps: seq<Step>, k: nat, g: nat)
    requires Positive(cfg) && IsRun(cfg, run, steps) && k < |steps| && steps[k] == TimerRuns(g)
    requires run[k + 1].core != run[k].core.(timers := run[k + 1].core.timers)
    ensures run[k].core.cause.None? && run[k + 1].core.cause == Some(SessionExpired)
    ensures !run[k].core.active && g in run[k].history.armedAt && run[k].history.armedAt[g] == run[k].history.admits
  {
    RunInv(cfg, run, steps, k);
    assert Enabled(run[k], steps[k]) && run[k + 1] == Next(cfg, run[k], steps[k]);
  }

  /** A live session has exactly one timer of the current generation while idle, and none while a submission runs. */
  lemma CurrentTimer(cfg: Config, run: seq<Sys>, steps: seq<Step>, k: nat)
    requires Positive(cfg) && IsRun(cfg, run, steps) && k < |run|
    ensures var c := run[k].core;
      && (c.active ==> c.generation !in c.timers.pending && c.generation !in c.timers.firing)
      && (c.cause.None? && !c.active ==>
            (c.generation in c.timers.pending && c.generation !in c.timers.firing) ||
            (c.generation !in c.timers.pending && c.generation in c.timers.firing))
  {
    RunInv(cfg, run, steps, k);
  }

  /** The generation counter cannot wrap a 64-bit word, whatever limit a 64-bit submission count allows. */
  lemma GenerationFits(cfg: Config, run: seq<Sys>, steps: seq<Step>, k: nat)
    requires Positive(cfg) && cfg.submissions <= 0x7FFF_FFFF_FFFF_FFFF && IsRun(cfg, run, steps) && k < |run|
    ensures run[k].core.generation <= 0xFFFF_FFFF_FFFF_FFFF
  {
    RunInv(cfg, run, steps, k);
  }

  /** Spent and remaining quotas add up to the limits at every moment, cost saturating at zero. */
  lemma QuotasAreConserved(cfg: Config, run: seq<Sys>, steps: seq<Step>, k: nat)
    requires Positive(cfg) && IsRun(cfg, run, steps) && k < |run|
    ensures Quotas(cfg, run[k])
    ensures forall t :: t in run[k].threads && run[k].threads[t].Running? ==>
      run[k].core.budget > 0 && run[k].core.budget <= cfg.costBudget && run[k].core.budget <= run[k].core.costRemaining
  {
    RunInv(cfg, run, steps, k);
    forall t | t in run[k].threads && run[k].threads[t].Running?
      ensures run[k].core.budget > 0 && run[k].core.budget <= cfg.costBudget && run[k].core.budget <= run[k].core.costRemaining
    {
      Alone(run[k], t);
    }
  }

  /** A submission that finishes with an error leaves the session cancelled and released. */
  lemma FailureCloses(cfg: Config, run: seq<Sys>, steps: seq<Step>, k: nat, t: nat)
    requires Positive(cfg) && IsRun(cfg, run, steps) && k < |steps| && steps[k] == Finish(t)
    ensures t in run[k].threads && run[k].threads[t].Done?
    ensures run[k].threads[t].err.Some? ==> run[k + 1].core.cause.Some? && !run[k + 1].core.retained
    ensures run[k].threads[t].err.None? && run[k].core.cause.None? ==> run[k + 1].core.cause.None? && run[k + 1].core.retained
    ensures !run[k + 1].core.active && run[k + 1].threads == map[]
  {
    assert Enabled(run[k], steps[k]) && run[k + 1] == Next(cfg, run[k], steps[k]);
    RunInv(cfg, run, steps, k);
    Alone(run[k], t);
  }

  /** Output that did not fit its capture bound makes the submission fail. */
  lemma TruncationFails(cfg: Config, run: seq<Sys>, steps: seq<Step>, k: nat, t: nat, cost: int, err: Option<Cause>)
    requires Positive(cfg) && IsRun(cfg, run, steps) && k < |steps| && steps[k] == Charge(t, cost, err)
    ensures run[k].core.output.Some? && t in run[k + 1].threads && run[k + 1].threads[t].Done?
    ensures run[k].core.output.value.truncated || err.Some? ==> run[k + 1].threads[t].err.Some?
    ensures |run[k].core.output.value.buffer| <= cfg.maxOutputBytes
  {
    assert Enabled(run[k], steps[k]) && run[k + 1] == Next(cfg, run[k], steps[k]);
    RunInv(cfg, run, steps, k);
    Alone(run[k], t);
  }

  // ---------- evaluation needs no lock ----------

  /** While a submission is active, the fields it writes outside the mutex commute with every step of everyone else. */
  lemma EvaluationCommutes(cfg: Config, s: Sys, s': Sys, step: Step, output: Output, outputRemaining: int, costRemaining: int, budget: int)
    requires Inv(cfg, s) && s.core.active && Enabled(s, step)
    requires step.Admit? || step.Cancel? || step.Release? || step.TimerFires? || step.TimerRuns?
    requires s' == s.(core := s.core.(output := Some(output), outputRemaining := outputRemaining, costRemaining := costRemaining, budget := budget))
    ensures Enabled(s', step)
    ensures var t, t' := Next(cfg, s, step), Next(cfg, s', step);
      && t' == t.(core := t.core.(output := Some(output), outputRemaining := outputRemaining, costRemaining := costRemaining, budget := budget))
      && t.core.active && t.core.output == s.core.output && t.threads == s.threads
  {
  }

  /** Once cancelled and idle, the next release drops the retained state. */
  lemma ReleaseDrops(cfg: Config, s: Sys)
    requires Inv(cfg, s) && s.core.cause.Some? && !s.core.active
    ensures !Next(cfg, s, Release).core.retained && Next(cfg, s, Release).core.output.None?
  {
  }
}

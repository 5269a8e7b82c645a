/** What a run of a restricted session shows, told from the steps taken: who is admitted, what is captured, and what ends the session. */
module RestrictedRuns {
  import opened Wrappers
  import opened RestrictedSession

  // ---------- what has happened ----------

  /** Step i brings a submission in. */
  ghost predicate Joins(run: seq<Sys>, steps: seq<Step>, i: nat)
    requires |run| == |steps| + 1 && i < |steps|
  {
    steps[i].Admit? && steps[i].tid !in run[i].threads && steps[i].tid in run[i + 1].threads
  }

  /** Submissions before state k. */
  ghost function Submissions(run: seq<Sys>, steps: seq<Step>, k: nat): nat
    requires |run| == |steps| + 1 && k < |run|
  {
    if k == 0 then 0 else Submissions(run, steps, k - 1) + (if Joins(run, steps, k - 1) then 1 else 0)
  }

  /** Their source, in bytes. */
  ghost function SourceBytes(run: seq<Sys>, steps: seq<Step>, k: nat): nat
    requires |run| == |steps| + 1 && k < |run|
  {
    if k == 0 then 0 else SourceBytes(run, steps, k - 1) + (if Joins(run, steps, k - 1) then steps[k - 1].length else 0)
  }

  /** The cost evaluations reported. */
  ghost function Cost(steps: seq<Step>, k: nat): nat
    requires k <= |steps|
  {
    if k == 0 then 0 else Cost(steps, k - 1) + (if steps[k - 1].Charge? && steps[k - 1].cost > 0 then steps[k - 1].cost else 0)
  }

  /** What the evaluation that began last has printed. */
  ghost function Printed(steps: seq<Step>, k: nat): string
    requires k <= |steps|
  {
    if k == 0 || steps[k - 1].Begin? then "" else if steps[k - 1].Print? then Printed(steps, k - 1) + steps[k - 1].data else Printed(steps, k - 1)
  }

  /** The output of evaluations that ended, as far as it was captured. */
  ghost function Captured(cfg: Config, steps: seq<Step>, k: nat): nat
    requires k <= |steps|
    decreases k, 0
  {
    if k == 0 then 0
    else if steps[k - 1].Charge? then Captured(cfg, steps, k - 1) + Min(|Printed(steps, k - 1)|, Room(cfg, steps, k - 1))
    else Captured(cfg, steps, k - 1)
  }

  /** How much of an evaluation's output may be captured. */
  ghost function Room(cfg: Config, steps: seq<Step>, k: nat): nat
    requires k <= |steps|
    decreases k, 1
  {
    Max(0, Min(cfg.maxOutputBytes, cfg.cumulativeOutput - Captured(cfg, steps, k)))
  }

  lemma Taken(cfg: Config, run: seq<Sys>, steps: seq<Step>, k: nat)
    requires IsRun(cfg, run, steps) && k < |steps|
    ensures Enabled(run[k], steps[k]) && run[k + 1] == Next(cfg, run[k], steps[k])
  {
  }

  lemma IdleNow(s: Sys)
    requires Ownership(s)
    ensures s.core.active <==> s.threads != map[]
  {
    assert |s.threads.Keys| == |s.threads|;
  }

  /** The state's own records are these sums. */
  lemma {:induction false} Recorded(cfg: Config, run: seq<Sys>, steps: seq<Step>, k: nat)
    requires Positive(cfg) && IsRun(cfg, run, steps) && k < |run|
    ensures var h := run[k].history; h.admits == Submissions(run, steps, k) && h.bytes == SourceBytes(run, steps, k) && h.cost == Cost(steps, k)
  {
    if k > 0 {
      Recorded(cfg, run, steps, k - 1);
      Taken(cfg, run, steps, k - 1);
      RunInv(cfg, run, steps, k - 1);
      if steps[k - 1].Charge? {
        Alone(run[k - 1], steps[k - 1].tid);
      }
    }
  }

  // ---------- admission ----------

  /** The submission is within every limit. */
  ghost predicate WithinLimits(cfg: Config, run: seq<Sys>, steps: seq<Step>, k: nat, length: nat)
    requires |run| == |steps| + 1 && k < |run|
  {
    && length <= cfg.maxSourceBytes && SourceBytes(run, steps, k) + length <= cfg.cumulativeSource
    && Submissions(run, steps, k) < cfg.submissions && Cost(steps, k) < cfg.cumulativeCost
  }

  /** A submission is admitted exactly if the session is live and idle and every limit allows it; one that a limit forbids ends a live, idle session; any other changes nothing. */
  lemma AdmittedExactly(cfg: Config, run: seq<Sys>, steps: seq<Step>, k: nat, t: nat, length: nat)
    requires Positive(cfg) && IsRun(cfg, run, steps) && k < |steps| && steps[k] == Admit(t, length)
    ensures var live, idle, fits := run[k].core.cause.None?, run[k].threads == map[], WithinLimits(cfg, run, steps, k, length);
      && t !in run[k].threads
      && (t in run[k + 1].threads <==> live && idle && fits)
      && (live && idle && fits ==> run[k + 1].threads == map[t := Waiting] && run[k + 1].core.cause.None? && run[k + 1].core.timers.pending == {})
      && (live && idle && !fits ==> run[k + 1].core == run[k].core.(cause := Some(RestrictedLimit)) && run[k + 1].threads == map[])
      && (!live || !idle ==> run[k + 1] == run[k])
      && AdmitStep(cfg, run[k].core, length).1
         == if !live then Refused(run[k].core.cause.value) else if !idle then Busy else if fits then Admitted else Refused(RestrictedLimit)
  {
    Taken(cfg, run, steps, k);
    RunInv(cfg, run, steps, k);
    RunInv(cfg, run, steps, k + 1);
    Recorded(cfg, run, steps, k);
    IdleNow(run[k]);
  }

  // ---------- output ----------

  /** The capture holds the beginning of what was printed, as much as there is room for, and is truncated exactly if there was more. */
  ghost predicate Captures(cfg: Config, o: Output, steps: seq<Step>, k: nat)
    requires k <= |steps|
  {
    var printed, room := Printed(steps, k), Room(cfg, steps, k);
    o.buffer == (if |printed| <= room then printed else printed[..room]) && (o.truncated <==> |printed| > room)
  }

  /** The output of the evaluation in progress, and the total of those before it. */
  ghost predicate OutputKept(cfg: Config, s: Sys, steps: seq<Step>, k: nat)
    requires k <= |steps|
  {
    && s.history.captured == Captured(cfg, steps, k)
    && (forall t :: t in s.threads && s.threads[t].Running? ==> s.core.output.Some? && Captures(cfg, s.core.output.value, steps, k))
  }

  lemma WriteKept(cfg: Config, s: Sys, steps: seq<Step>, k: nat)
    requires k < |steps| && Inv(cfg, s) && OutputKept(cfg, s, steps, k) && Enabled(s, steps[k]) && (steps[k].Begin? || steps[k].Print?)
    ensures OutputKept(cfg, Next(cfg, s, steps[k]), steps, k + 1)
  {
    Alone(s, steps[k].tid);
  }

  lemma ChargeKept(cfg: Config, s: Sys, steps: seq<Step>, k: nat)
    requires k < |steps| && Inv(cfg, s) && OutputKept(cfg, s, steps, k) && Enabled(s, steps[k]) && steps[k].Charge?
    ensures OutputKept(cfg, Next(cfg, s, steps[k]), steps, k + 1)
  {
    Alone(s, steps[k].tid);
  }

  lemma OtherKept(cfg: Config, s: Sys, steps: seq<Step>, k: nat)
    requires k < |steps| && Inv(cfg, s) && OutputKept(cfg, s, steps, k) && Enabled(s, steps[k]) && !steps[k].Begin? && !steps[k].Print? && !steps[k].Charge?
    ensures OutputKept(cfg, Next(cfg, s, steps[k]), steps, k + 1)
  {
    hide TimersOk, Quotas;
    var s', step := Next(cfg, s, steps[k]), steps[k];
    assert Printed(steps, k + 1) == Printed(steps, k) && Room(cfg, steps, k + 1) == Room(cfg, steps, k);
    forall t | t in s'.threads && s'.threads[t].Running? ensures s'.core.output.Some? && Captures(cfg, s'.core.output.value, steps, k + 1) {
      assert t in s.threads && s.threads[t].Running?;
      Alone(s, t);
      assert s'.core.output == s.core.output;
    }
  }

  lemma {:induction false} OutputRecorded(cfg: Config, run: seq<Sys>, steps: seq<Step>, k: nat)
    requires Positive(cfg) && IsRun(cfg, run, steps) && k < |run|
    ensures OutputKept(cfg, run[k], steps, k)
  {
    if k > 0 {
      hide Inv, OutputKept, Next, Enabled;
      OutputRecorded(cfg, run, steps, k - 1);
      Taken(cfg, run, steps, k - 1);
      RunInv(cfg, run, steps, k - 1);
      var step := steps[k - 1];
      if step.Begin? || step.Print? {
        WriteKept(cfg, run[k - 1], steps, k - 1);
      } else if step.Charge? {
        ChargeKept(cfg, run[k - 1], steps, k - 1);
      } else {
        OtherKept(cfg, run[k - 1], steps, k - 1);
      }
    }
  }

  /** What a running evaluation has captured, its cost budget, and how it ends: with its own error, else with a limit error exactly if output was lost. */
  lemma EvaluationSeen(cfg: Config, run: seq<Sys>, steps: seq<Step>, k: nat, t: nat)
    requires Positive(cfg) && IsRun(cfg, run, steps) && k < |run| && t in run[k].threads && run[k].threads[t].Running?
    ensures run[k].core.output.Some? && Captures(cfg, run[k].core.output.value, steps, k)
    ensures run[k].core.budget == Min(cfg.costBudget, cfg.cumulativeCost - Cost(steps, k)) > 0
    ensures k < |steps| && steps[k].Charge? ==>
      run[k + 1].threads == map[t := Done(if steps[k].err.Some? then steps[k].err
                                          else if |Printed(steps, k)| > Room(cfg, steps, k) then Some(RestrictedLimit) else None)]
  {
    RunInv(cfg, run, steps, k);
    Recorded(cfg, run, steps, k);
    OutputRecorded(cfg, run, steps, k);
    Alone(run[k], t);
    if k < |steps| && steps[k].Charge? {
      Taken(cfg, run, steps, k);
      assert run[k + 1].threads.Keys == {t};
    }
  }

  // ---------- the end of a session ----------

  /** Timer g starts at state j. */
  ghost predicate Starts(run: seq<Sys>, j: nat, g: nat) {
    j < |run| && g in run[j].core.timers.pending && (j > 0 ==> g !in run[j - 1].core.timers.pending)
  }

  lemma StepStarts(cfg: Config, s: Sys, step: Step, g: nat)
    requires Positive(cfg) && Inv(cfg, s) && Enabled(s, step) && g !in s.core.timers.pending
    ensures var s' := Next(cfg, s, step);
      (g in s'.core.timers.pending <==> g == s'.core.generation && step.Finish? && s'.core.cause.None?)
  {
    if step.Finish? {
      Alone(s, step.tid);
    }
  }

  lemma NewTimer(cfg: Config, s: Sys, step: Step)
    requires Positive(cfg) && Inv(cfg, s) && Enabled(s, step) && step.Finish? && Next(cfg, s, step).core.cause.None?
    ensures var s' := Next(cfg, s, step); var g := s'.core.generation;
      s.core.generation < g && g !in s.core.timers.pending && g in s'.history.armedAt && s'.history.armedAt[g] == s'.history.admits
  {
  }

  /** Timers start with the session, and whenever a submission leaves it live; each is a new one. */
  lemma StartsExactly(cfg: Config, run: seq<Sys>, steps: seq<Step>, j: nat, g: nat)
    requires Positive(cfg) && IsRun(cfg, run, steps) && j < |run|
    ensures Starts(run, j, g) <==> g == run[j].core.generation && (j == 0 || (steps[j - 1].Finish? && run[j].core.cause.None?))
    ensures Starts(run, j, g) ==> g in run[j].history.armedAt && run[j].history.armedAt[g] == Submissions(run, steps, j)
    ensures Starts(run, j, g) && j > 0 ==> run[j - 1].core.generation < g
  {
    Recorded(cfg, run, steps, j);
    if j > 0 {
      hide Inv, Next, Enabled, Submissions, SourceBytes, Cost;
      RunInv(cfg, run, steps, j - 1);
      Taken(cfg, run, steps, j - 1);
      if steps[j - 1].Finish? && run[j].core.cause.None? {
        NewTimer(cfg, run[j - 1], steps[j - 1]);
      }
      if g !in run[j - 1].core.timers.pending {
        StepStarts(cfg, run[j - 1], steps[j - 1], g);
      }
    }
  }

  /** No submission comes in between. */
  ghost predicate Quiet(run: seq<Sys>, steps: seq<Step>, j: nat, k: nat)
    requires |run| == |steps| + 1 && j <= k < |run|
  {
    forall i :: j <= i < k ==> !Joins(run, steps, i)
  }

  lemma {:induction false} QuietCount(run: seq<Sys>, steps: seq<Step>, j: nat, k: nat)
    requires |run| == |steps| + 1 && j <= k < |run|
    ensures Submissions(run, steps, j) <= Submissions(run, steps, k)
    ensures Quiet(run, steps, j, k) <==> Submissions(run, steps, j) == Submissions(run, steps, k)
    decreases k
  {
    hide Joins;
    if j < k {
      QuietCount(run, steps, j, k - 1);
    }
  }

  /** Every timer still about was started. */
  lemma {:induction false} Started(cfg: Config, run: seq<Sys>, steps: seq<Step>, k: nat, g: nat) returns (j: nat)
    requires Positive(cfg) && IsRun(cfg, run, steps) && k < |run| && (g in run[k].core.timers.pending || g in run[k].core.timers.firing)
    ensures j <= k && Starts(run, j, g)
    decreases k
  {
    if k > 0 && (g in run[k - 1].core.timers.pending || g in run[k - 1].core.timers.firing) {
      j := Started(cfg, run, steps, k - 1, g);
    } else {
      j := k;
      if k > 0 {
        Taken(cfg, run, steps, k - 1);
      }
    }
  }

  /** No submission came in since timer g was started. */
  ghost predicate Unanswered(run: seq<Sys>, steps: seq<Step>, k: nat, g: nat)
    requires |run| == |steps| + 1 && k < |run|
  {
    exists j: nat :: j <= k && Starts(run, j, g) && Quiet(run, steps, j, k)
  }

  /** Of the timers about, that is the current one alone. */
  lemma UnansweredIsCurrent(cfg: Config, run: seq<Sys>, steps: seq<Step>, k: nat, g: nat)
    requires Positive(cfg) && IsRun(cfg, run, steps) && k < |run| && g in run[k].core.timers.firing
    ensures Unanswered(run, steps, k, g) <==> g == run[k].core.generation
  {
    RunInv(cfg, run, steps, k);
    Recorded(cfg, run, steps, k);
    hide Quiet, Starts, Quotas, InFlight, Ownership, IsRun, Submissions, SourceBytes, Cost;
    var j := Started(cfg, run, steps, k, g);
    StartsExactly(cfg, run, steps, j, g);
    QuietCount(run, steps, j, k);
    RunLater(cfg, run, steps, j, k);
    forall i: nat | i <= k && Starts(run, i, g) ensures i == j {
      StartedOnce(cfg, run, steps, i, j, g);
    }
  }

  /** A timer that runs ends the session exactly if it is live and idle and no submission came in since the timer was started; else it does nothing. */
  lemma ExpiresExactly(cfg: Config, run: seq<Sys>, steps: seq<Step>, k: nat, g: nat)
    requires Positive(cfg) && IsRun(cfg, run, steps) && k < |steps| && steps[k] == TimerRuns(g)
    ensures var c, c' := run[k].core, run[k + 1].core;
      if c.cause.None? && run[k].threads == map[] && Unanswered(run, steps, k, g)
      then c'.cause == Some(SessionExpired) && !c'.retained && c'.output.None? && run[k + 1].threads == map[]
      else run[k + 1] == run[k].(core := c.(timers := c'.timers))
  {
    hide Unanswered;
    Taken(cfg, run, steps, k);
    RunInv(cfg, run, steps, k);
    IdleNow(run[k]);
    UnansweredIsCurrent(cfg, run, steps, k, g);
  }

  lemma StartedOnce(cfg: Config, run: seq<Sys>, steps: seq<Step>, i: nat, j: nat, g: nat)
    requires Positive(cfg) && IsRun(cfg, run, steps) && Starts(run, i, g) && Starts(run, j, g)
    ensures i == j
  {
    StartsExactly(cfg, run, steps, i, g);
    StartsExactly(cfg, run, steps, j, g);
    if i < j {
      LaterGeneration(cfg, run, steps, i, j - 1);
    } else if j < i {
      LaterGeneration(cfg, run, steps, j, i - 1);
    }
  }

  lemma LaterGeneration(cfg: Config, run: seq<Sys>, steps: seq<Step>, i: nat, k: nat)
    requires Positive(cfg) && IsRun(cfg, run, steps) && i <= k < |run|
    ensures run[i].core.generation <= run[k].core.generation
  {
    RunLater(cfg, run, steps, i, k);
  }

  /** A finished submission hands its error to the session, which then drops its state; without one, and not cancelled meanwhile, the session goes on. */
  lemma FinishedExactly(cfg: Config, run: seq<Sys>, steps: seq<Step>, k: nat, t: nat)
    requires Positive(cfg) && IsRun(cfg, run, steps) && k < |steps| && steps[k] == Finish(t)
    ensures t in run[k].threads && run[k].threads[t].Done? && run[k + 1].threads == map[]
    ensures run[k + 1].core.cause == if run[k].core.cause.Some? then run[k].core.cause else run[k].threads[t].err
    ensures run[k + 1].core.retained <==> run[k + 1].core.cause.None?
  {
    Taken(cfg, run, steps, k);
    RunInv(cfg, run, steps, k);
    Alone(run[k], t);
  }

  /** What ends a session, and why: nothing else does. */
  lemma EndsExactly(cfg: Config, run: seq<Sys>, steps: seq<Step>, k: nat)
    requires Positive(cfg) && IsRun(cfg, run, steps) && k < |steps| && run[k].core.cause.None?
    ensures run[k + 1].core.cause == match steps[k]
      case Admit(_, length) => if run[k].threads == map[] && !WithinLimits(cfg, run, steps, k, length) then Some(RestrictedLimit) else None
      case Finish(t) => if t in run[k].threads && run[k].threads[t].Done? then run[k].threads[t].err else None
      case Cancel(reason) => Some(reason)
      case TimerRuns(g) => if run[k].threads == map[] && Unanswered(run, steps, k, g) then Some(SessionExpired) else None
      case _ => None
  {
    hide WithinLimits, Unanswered;
    match steps[k]
    case Admit(t, length) => AdmittedExactly(cfg, run, steps, k, t, length);
    case Finish(t) => FinishedExactly(cfg, run, steps, k, t);
    case TimerRuns(g) => ExpiresExactly(cfg, run, steps, k, g);
    case _ => Taken(cfg, run, steps, k);
  }

  /** Cancelling and releasing: a release of a cancelled session stops its timer, and drops its state unless a submission still runs. */
  lemma ReleasedExactly(cfg: Config, run: seq<Sys>, steps: seq<Step>, k: nat)
    requires Positive(cfg) && IsRun(cfg, run, steps) && k < |steps| && (steps[k].Release? || steps[k].Cancel?)
    ensures run[k + 1].threads == run[k].threads
    ensures steps[k].Cancel? || run[k].core.cause.None? ==> run[k + 1].core == run[k].core.(cause := run[k + 1].core.cause)
    ensures steps[k].Release? && run[k].core.cause.Some? ==>
      run[k + 1].core.timers.pending == {} && run[k + 1].core.retained == (run[k].core.retained && run[k].threads != map[])
  {
    Taken(cfg, run, steps, k);
    RunInv(cfg, run, steps, k);
    IdleNow(run[k]);
  }
}

/** The repricing scheduler (scheduler.py): the record of one run, the
    bounded in-memory history of runs, and the running flag. The timer
    library and the engine are outside the model: a run's outcome and its
    start and finish times are parameters. */
module Scheduler {
  import opened Common
  import Pricing

  /** `RunResult`. */
  datatype RunResult = RunResult(
    startedAt: real,
    finishedAt: real,
    dryRun: bool,
    actionsCount: int,
    appliedCount: int,
    error: Option<string>,
    actions: seq<Pricing.Action>)
  {
    function DurationSec(): real { finishedAt - startedAt }
  }

  /** What `engine.run` did: returned its actions, or raised. */
  datatype EngineOutcome = Finished(actions: seq<Pricing.Action>) | Raised(message: string)

  function IsApplied(a: Pricing.Action): bool { a.applied }

  /** The result `_run_job` builds from the engine's outcome. */
  function MakeResult(outcome: EngineOutcome, started: real, finished: real, dryRun: bool): (r: RunResult)
    ensures r.startedAt == started && r.finishedAt == finished && r.dryRun == dryRun
    ensures outcome.Finished? ==>
      r.actions == outcome.actions && r.actionsCount == |outcome.actions|
      && r.appliedCount == |Filter(outcome.actions, IsApplied)| && r.error.None?
    ensures outcome.Raised? ==>
      r.actionsCount == 0 && r.appliedCount == 0 && r.actions == [] && r.error == Some(outcome.message)
    ensures 0 <= r.appliedCount <= r.actionsCount
  {
    match outcome
    case Finished(actions) =>
      RunResult(started, finished, dryRun, |actions|, |Filter(actions, IsApplied)|, None, actions)
    case Raised(message) =>
      RunResult(started, finished, dryRun, 0, 0, Some(message), [])
  }

  /** A dry run never reports applied changes when the engine behaves as
      `run(dry_run=True)` does. */
  lemma DryRunAppliesNothing(rules: Pricing.Rules, strategies: seq<Pricing.Strategy>, contexts: seq<Pricing.Context>,
                             today: Pricing.Moment, started: real, finished: real)
    ensures MakeResult(Finished(Pricing.EvaluateAll(rules, strategies, contexts, today)), started, finished, true).appliedCount == 0
  {
    var actions := Pricing.EvaluateAll(rules, strategies, contexts, today);
    FilterDropsAll(actions, IsApplied);
  }

  datatype PriceScheduler = PriceScheduler(
    dryRun: bool,
    maxHistory: int,
    history: seq<RunResult>,
    running: bool,
    jobName: Option<string>)

  /** `PriceScheduler(engine, dry_run, max_history)`: no history, stopped,
      no job. */
  function NewScheduler(dryRun: bool, maxHistory: int): (r: PriceScheduler)
    ensures r.history == [] && !r.running && r.jobName.None?
  {
    PriceScheduler(dryRun, maxHistory, [], false, None)
  }

  /** The history after `_run_job` as written: append, then, when longer
      than `max_history`, keep `history[-max_history:]`. */
  function AppendRunAsWritten(h: seq<RunResult>, maxHistory: int, r: RunResult): (h': seq<RunResult>)
    ensures |h'| <= |h| + 1 && h' == (h + [r])[|h| + 1 - |h'|..]
    ensures maxHistory > 0 ==> |h'| == Min(|h| + 1, maxHistory) && h'[|h'| - 1] == r
    ensures maxHistory == 0 ==> h' == h + [r]
  {
    var grown := h + [r];
    if |grown| > maxHistory then PySliceFrom(grown, -maxHistory) else grown
  }

  /** With `max_history = 0` the trim keeps everything: `h[-0:]` is all of
      `h`, so the history is unbounded. */
  lemma ZeroMaxHistoryKeepsAll(h: seq<RunResult>, r: RunResult)
    ensures AppendRunAsWritten(h, 0, r) == h + [r]
  {
  }

  /** The history after `_run_job`: append, then keep the last
      `max_history` runs. */
  function AppendRun(h: seq<RunResult>, maxHistory: int, r: RunResult): (h': seq<RunResult>)
    ensures |h'| == Min(|h| + 1, Max(maxHistory, 0))
    ensures h' == (h + [r])[|h| + 1 - |h'|..]
  {
    var grown := h + [r];
    var keep := Min(|grown|, Max(maxHistory, 0));
    grown[|grown| - keep..]
  }

  /** The two agree for every positive bound. */
  lemma AppendRunAgrees(h: seq<RunResult>, maxHistory: int, r: RunResult)
    requires maxHistory > 0
    ensures AppendRunAsWritten(h, maxHistory, r) == AppendRun(h, maxHistory, r)
  {
  }

  /** `_run_job`: exactly one result recorded and nothing but the history
      changed; the history is trimmed as written, so a positive bound holds
      it to that many runs and a bound of 0 keeps every run. */
  function RunJob(s: PriceScheduler, outcome: EngineOutcome, started: real, finished: real): (r: (PriceScheduler, RunResult))
    ensures r.1 == MakeResult(outcome, started, finished, s.dryRun)
    ensures r.0.(history := s.history) == s
    ensures |r.0.history| <= |s.history| + 1 && r.0.history == (s.history + [r.1])[|s.history| + 1 - |r.0.history|..]
    ensures s.maxHistory > 0 ==> |r.0.history| == Min(|s.history| + 1, s.maxHistory) && r.0.history[|r.0.history| - 1] == r.1
    ensures s.maxHistory == 0 ==> r.0.history == s.history + [r.1]
  {
    var result := MakeResult(outcome, started, finished, s.dryRun);
    (s.(history := AppendRunAsWritten(s.history, s.maxHistory, result)), result)
  }

  /** `_run_job` with the corrected trim: the history never exceeds a
      non-negative bound. */
  function RunJobCorrected(s: PriceScheduler, outcome: EngineOutcome, started: real, finished: real): (r: (PriceScheduler, RunResult))
    ensures r.1 == MakeResult(outcome, started, finished, s.dryRun)
    ensures r.0.(history := s.history) == s
    ensures s.maxHistory >= 0 ==> |r.0.history| == Min(|s.history| + 1, s.maxHistory)
    ensures s.maxHistory > 0 ==> r.0.history[|r.0.history| - 1] == r.1
  {
    var result := MakeResult(outcome, started, finished, s.dryRun);
    (s.(history := AppendRun(s.history, s.maxHistory, result)), result)
  }

  /** For every positive bound the job as written and the corrected job
      leave the same scheduler. */
  lemma RunJobAgrees(s: PriceScheduler, outcome: EngineOutcome, started: real, finished: real)
    requires s.maxHistory > 0
    ensures RunJob(s, outcome, started, finished) == RunJobCorrected(s, outcome, started, finished)
  {
    AppendRunAgrees(s.history, s.maxHistory, MakeResult(outcome, started, finished, s.dryRun));
  }

  /** `get_history(n)`: `history[-n:]` — the last `n` runs in chronological
      order; `n = 0` or `n` beyond the length gives the whole history. */
  function GetHistory(s: PriceScheduler, n: int): (r: seq<RunResult>)
    ensures 0 < n <= |s.history| ==> r == s.history[|s.history| - n..]
    ensures n == 0 || n > |s.history| ==> r == s.history
    ensures |r| <= |s.history| && r == s.history[|s.history| - |r|..]
  {
    PySliceFrom(s.history, -n)
  }

  /** `get_status()` without the timer's next-run time and the strategy
      names. */
  datatype Status = Status(running: bool, dryRun: bool, jobName: Option<string>,
                           lastRun: Option<RunResult>, totalRuns: int)

  function GetStatus(s: PriceScheduler): (r: Status)
    ensures r.totalRuns == |s.history|
    ensures r.lastRun.Some? <==> |s.history| > 0
    ensures r.lastRun.Some? ==> r.lastRun.value == s.history[|s.history| - 1]
    ensures r.jobName.Some? ==> s.running
  {
    Status(s.running, s.dryRun,
           if s.running then s.jobName else None,
           if |s.history| > 0 then Some(s.history[|s.history| - 1]) else None,
           |s.history|)
  }

  /** `start()`: a no-op when already running. */
  function Start(s: PriceScheduler): (r: PriceScheduler)
    ensures r.running
    ensures s.running ==> r == s
    ensures r == s.(running := true)
  {
    if s.running then s else s.(running := true)
  }

  /** `stop()`: a no-op when not running. */
  function Stop(s: PriceScheduler): (r: PriceScheduler)
    ensures !r.running
    ensures !s.running ==> r == s
    ensures r == s.(running := false)
  {
    if !s.running then s else s.(running := false)
  }

  /** Starting and stopping are idempotent, touch nothing but the flag, and
      undo each other. */
  lemma StartStopIdempotent(s: PriceScheduler)
    ensures Start(Start(s)) == Start(s) && Stop(Stop(s)) == Stop(s)
    ensures Stop(Start(s)).history == s.history && Start(Stop(s)).history == s.history
    ensures !s.running ==> Stop(Start(s)) == s
    ensures s.running ==> Start(Stop(s)) == s
  {
  }
}

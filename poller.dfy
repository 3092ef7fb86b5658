/**
  The feed poller (Poller.java). Jobs are registered while the poller is stopped; start turns
  each into a submitted task and, for jobs with a trigger sensor, a subscription; stop cancels
  the tasks and drops the subscriptions. Also here: the isRunning test, the dispatch that a
  poll job's wrapped runnable makes to its handler, and the decision in scheduleFeed whether a
  group of poll configurations gets a fixed-rate job.

  Tasks and subscriptions are handles: the executor and the subscription manager are not
  part of the model, so a task's `begun` and `done` flags are whatever they have set.
*/
module Feeds {
  import opened Wrappers
  import opened JavaLang

  // ---------------------------------------------------------------- handles

  /** A submitted task as the poller sees it. */
  class TaskHandle {
    const displayName: string
    /** The fixed-rate period of a scheduled task; None for a task that runs once. */
    const period: Option<int>
    var begun: bool
    var done: bool
    var cancelled: bool

    constructor (displayName: string, period: Option<int>)
      ensures this.displayName == displayName && this.period == period
      ensures !begun && !done && !cancelled
    {
      this.displayName := displayName;
      this.period := period;
      begun := false;
      done := false;
      cancelled := false;
    }

    /** Task.cancel: marks the task cancelled; whether it began or finished is not changed here. */
    method Cancel()
      modifies this
      ensures cancelled && begun == old(begun) && done == old(done)
    {
      cancelled := true;
    }
  }

  /** A sensor subscription handle. */
  class Subscription {
    constructor () {}
  }

  // ---------------------------------------------------------------- the wrapped job

  datatype LogLevel = NoLog | Trace | Debug

  /** What one run of the wrapped job does with its handler. */
  datatype HandlerCall =
    | Skipped
    | OnSuccess(value: string)
    | OnFailure(value: string)
    | OnException(error: Exception)
      /** A java.lang.Error: `catch (Exception e)` does not catch it, so it leaves the run. */
    | Escaped(error: Exception)

  /**
    What the job's callable did: returned a value that the handler's checkSuccess judged, after
    which onSuccess or onFailure may itself have thrown `handlerThrew`; or the callable threw.
  */
  datatype Outcome = Returned(value: string, success: bool, handlerThrew: Option<Exception>) | Threw(error: Exception)

  /** One run: `test` is the poll condition's verdict (None when there is no condition), then the outcome. */
  datatype PollRun = PollRun(test: Option<Result<bool>>, outcome: Outcome)

  /**
    The handler call, the call the catch block then makes when that handler call threw (None when
    it did not), the new value of loggedPreviousException, and the level of the log line.
  */
  datatype Step = Step(call: HandlerCall, recovery: Option<HandlerCall>, logged: bool, level: LogLevel)

  /** The run reached onSuccess or onFailure and that call returned normally. */
  predicate Completed(s: Step) {
    (s.call.OnSuccess? || s.call.OnFailure?) && s.recovery.None?
  }

  /** The catch block: the first of a run of failures is logged at debug, the rest at trace. */
  function Failed(logged: bool, e: Exception): (r: Step)
    ensures r.recovery.None?
    ensures r.call == (if e.JvmError? then Escaped(e) else OnException(e))
    ensures e.JvmError? ==> r.logged == logged && r.level == NoLog
    ensures !e.JvmError? ==> r.logged && (r.level == Debug <==> !logged) && r.level != NoLog
  {
    if e.JvmError? then Step(Escaped(e), None, logged, NoLog)
    else Step(OnException(e), None, true, if logged then Trace else Debug)
  }

  /** The body of PollJob.wrappedJob.run, given the previous loggedPreviousException. */
  function Dispatch(logged: bool, run: PollRun): (r: Step)
    ensures r.call.Skipped? <==> run.test == Some(Ok(false))
    ensures r.call.Skipped? || r.call.Escaped? ==> r.logged == logged && r.level == NoLog && r.recovery.None?
    ensures Completed(r) <==> (run.test.None? || run.test == Some(Ok(true))) && run.outcome.Returned?
                              && run.outcome.handlerThrew.None?
    ensures Completed(r) ==> !r.logged && r.level == NoLog
    ensures r.call.OnException? || (r.recovery.Some? && r.recovery.value.OnException?) ==>
              r.logged && (r.level == Debug <==> !logged) && r.level != NoLog
    ensures r.recovery.Some? && r.recovery.value.Escaped? ==> r.logged == logged && r.level == NoLog
    ensures run.test.None? || run.test == Some(Ok(true)) ==>
              && (run.outcome.Returned? ==>
                   && r.call == (if run.outcome.success then OnSuccess(run.outcome.value) else OnFailure(run.outcome.value))
                   && (run.outcome.handlerThrew.None? ==> r.recovery.None?)
                   && (run.outcome.handlerThrew.Some? ==> r.recovery == Some(Failed(logged, run.outcome.handlerThrew.value).call)))
              && (run.outcome.Threw? ==> r == Failed(logged, run.outcome.error))
    ensures run.test.Some? && run.test.value.Err? ==> r == Failed(logged, run.test.value.error)
  {
    match run.test
    case Some(Err(e)) => Failed(logged, e)
    case Some(Ok(false)) => Step(Skipped, None, logged, NoLog)
    case _ =>
      match run.outcome
      case Returned(v, ok, thrown) =>
        var handled := if ok then OnSuccess(v) else OnFailure(v);
        if thrown.None? then Step(handled, None, false, NoLog)
        else
          var f := Failed(logged, thrown.value);
          Step(handled, Some(f.call), f.logged, f.level)
      case Threw(e) => Failed(logged, e)
  }

  /** The steps of consecutive runs of one job, the flag carried from each run to the next. */
  function Replay(logged: bool, runs: seq<PollRun>): (r: seq<Step>)
    ensures |r| == |runs|
    ensures |runs| > 0 ==> r[0] == Dispatch(logged, runs[0])
    ensures forall k :: 0 < k < |runs| ==> r[k] == Dispatch(r[k - 1].logged, runs[k])
    decreases |runs|
  {
    if runs == [] then []
    else
      var first := Dispatch(logged, runs[0]);
      var rest := Replay(first.logged, runs[1..]);
      assert forall k :: 1 < k < |runs| ==> rest[k - 1] == Dispatch(rest[k - 2].logged, runs[k]);
      [first] + rest
  }

  /** If the flag is set after run a and clear after run b, some run in between reached the handler normally. */
  lemma {:induction false} FlagClearedByResult(logged: bool, runs: seq<PollRun>, a: nat, b: nat)
    requires a < b < |runs|
    requires Replay(logged, runs)[a].logged && !Replay(logged, runs)[b].logged
    ensures exists k :: a < k <= b && Completed(Replay(logged, runs)[k])
    decreases b - a
  {
    var r := Replay(logged, runs);
    if r[b - 1].logged {
      assert r[b] == Dispatch(r[b - 1].logged, runs[b]);
      assert Completed(r[b]);
    } else {
      FlagClearedByResult(logged, runs, a, b - 1);
    }
  }

  /**
    Repeated consecutive failures are logged at debug only once: between any two debug lines
    some run reached onSuccess or onFailure and returned from it, which reset loggedPreviousException.
  */
  lemma DebugOncePerFailureStreak(logged: bool, runs: seq<PollRun>, i: nat, j: nat)
    requires i < j < |runs|
    requires Replay(logged, runs)[i].level == Debug && Replay(logged, runs)[j].level == Debug
    ensures exists k :: i < k < j && Completed(Replay(logged, runs)[k])
  {
    var r := Replay(logged, runs);
    assert r[j] == Dispatch(r[j - 1].logged, runs[j]);
    assert !r[j - 1].logged;
    assert r[i] == if i == 0 then Dispatch(logged, runs[0]) else Dispatch(r[i - 1].logged, runs[i]);
    assert r[i].logged;
    FlagClearedByResult(logged, runs, i, j - 1);
  }

  /** A registered poll job. */
  class PollJob {
    const job: nat
    const handlerDescription: string
    const period: Option<int>
    const triggerEntity: Option<string>
    const triggerSensor: Option<string>
    const condition: Option<nat>
    var subscription: Subscription?
    var loggedPreviousException: bool

    constructor (job: nat, handlerDescription: string, period: Option<int>,
                 triggerEntity: Option<string>, triggerSensor: Option<string>, condition: Option<nat>)
      ensures this.job == job && this.handlerDescription == handlerDescription && this.period == period
      ensures this.triggerEntity == triggerEntity && this.triggerSensor == triggerSensor
      ensures this.condition == condition
      ensures subscription == null && !loggedPreviousException
    {
      this.job := job;
      this.handlerDescription := handlerDescription;
      this.period := period;
      this.triggerEntity := triggerEntity;
      this.triggerSensor := triggerSensor;
      this.condition := condition;
      subscription := null;
      loggedPreviousException := false;
    }

    /** wrappedJob.run(): a job without a poll condition ignores `test`. */
    method Run(test: Option<Result<bool>>, outcome: Outcome) returns (call: HandlerCall, recovery: Option<HandlerCall>, level: LogLevel)
      modifies this
      ensures var s := Dispatch(old(loggedPreviousException), PollRun(if condition.None? then None else test, outcome));
              call == s.call && recovery == s.recovery && level == s.level && loggedPreviousException == s.logged
      ensures subscription == old(subscription)
    {
      var effective := if condition.None? then None else test;
      var s := Dispatch(loggedPreviousException, PollRun(effective, outcome));
      call, recovery, level := s.call, s.recovery, s.level;
      loggedPreviousException := s.logged;
    }
  }

  function JobSpecOf(j: PollJob): JobSpec {
    JobSpec(j.job, j.handlerDescription, j.period, j.triggerEntity, j.triggerSensor, j.condition)
  }

  /** The registration data of each job, in order. */
  function Specs(js: seq<PollJob>): (r: seq<JobSpec>)
    ensures |r| == |js|
    decreases |js|
  {
    if js == [] then [] else Specs(js[..|js| - 1]) + [JobSpecOf(js[|js| - 1])]
  }

  datatype JobSpec = JobSpec(job: nat, handlerDescription: string, period: Option<int>,
                             triggerEntity: Option<string>, triggerSensor: Option<string>, condition: Option<nat>)

  // ---------------------------------------------------------------- minimum period and highlight

  /** The period of a job when it is strictly positive. */
  function PositivePeriod(p: Option<int>): (r: Option<int>)
    ensures r.Some? <==> p.Some? && p.value > 0
    ensures r.Some? ==> r == p
  {
    if p.Some? && p.value > 0 then p else None
  }

  /** minPeriod as start computes it: the shortest strictly positive period, scanning the jobs in order. */
  function MinPeriod(jobs: seq<PollJob>): Option<int>
    decreases |jobs|
  {
    if jobs == [] then None
    else
      Shorter(MinPeriod(jobs[..|jobs| - 1]), jobs[|jobs| - 1].period)
  }

  /** One step of the minPeriod scan: a strictly positive period replaces a longer (or no) minimum. */
  function Shorter(m: Option<int>, period: Option<int>): Option<int> {
    var p := PositivePeriod(period);
    if p.Some? && (m.None? || p.value < m.value) then p else m
  }

  lemma {:induction false} MinPeriodIsLeast(jobs: seq<PollJob>)
    ensures MinPeriod(jobs).None? <==> forall k :: 0 <= k < |jobs| ==> PositivePeriod(jobs[k].period).None?
    ensures MinPeriod(jobs).Some? ==>
              (exists k :: 0 <= k < |jobs| && jobs[k].period == MinPeriod(jobs))
              && MinPeriod(jobs).value > 0
              && forall k :: 0 <= k < |jobs| && PositivePeriod(jobs[k].period).Some? ==> MinPeriod(jobs).value <= jobs[k].period.value
    decreases |jobs|
  {
    if jobs != [] {
      var init := jobs[..|jobs| - 1];
      MinPeriodIsLeast(init);
      assert forall k :: 0 <= k < |init| ==> init[k] == jobs[k];
      if MinPeriod(init).Some? {
        var w :| 0 <= w < |init| && init[w].period == MinPeriod(init);
        assert jobs[w] == init[w];
      }
    }
  }

  /** The distinct trigger sensor names, in first-seen order (the MutableSet in start). */
  function SensorNames(jobs: seq<PollJob>): (r: seq<string>)
    decreases |jobs|
  {
    if jobs == [] then []
    else
      AddName(SensorNames(jobs[..|jobs| - 1]), jobs[|jobs| - 1].triggerSensor)
  }

  /** MutableSet.add on the sensor names. */
  function AddName(names: seq<string>, sensor: Option<string>): seq<string> {
    match sensor
    case None => names
    case Some(s) => if s in names then names else names + [s]
  }

  /** One more job extends start's scan by one step of each running value. */
  lemma ScanStep(jobs: seq<PollJob>, n: nat)
    requires n < |jobs|
    ensures MinPeriod(jobs[..n + 1]) == Shorter(MinPeriod(jobs[..n]), jobs[n].period)
    ensures SensorNames(jobs[..n + 1]) == AddName(SensorNames(jobs[..n]), jobs[n].triggerSensor)
  {
    assert jobs[..n + 1][..n] == jobs[..n];
  }

  lemma {:induction false} SensorNamesAreTheTriggers(jobs: seq<PollJob>)
    ensures forall a, b :: 0 <= a < b < |SensorNames(jobs)| ==> SensorNames(jobs)[a] != SensorNames(jobs)[b]
    ensures forall s :: s in SensorNames(jobs) <==> exists k :: 0 <= k < |jobs| && jobs[k].triggerSensor == Some(s)
    decreases |jobs|
  {
    if jobs != [] {
      var init := jobs[..|jobs| - 1];
      SensorNamesAreTheTriggers(init);
      assert forall k :: 0 <= k < |init| ==> init[k] == jobs[k];
      forall s | exists k :: 0 <= k < |jobs| && jobs[k].triggerSensor == Some(s)
        ensures s in SensorNames(jobs)
      {
        var k :| 0 <= k < |jobs| && jobs[k].triggerSensor == Some(s);
        if k < |init| { assert init[k].triggerSensor == Some(s); }
      }
    }
  }

  /** What start tells the feed about its triggers, from (sensors empty?, minPeriod null?). */
  datatype Highlight =
    | NoPeriodOrTriggers
    | EveryPeriod(period: int)
    | TriggeredBy(sensors: seq<string>)
    | PeriodAndTriggers(period: int, sensors: seq<string>)

  function HighlightOf(minPeriod: Option<int>, sensors: seq<string>): Highlight {
    if sensors == [] then
      if minPeriod.None? then NoPeriodOrTriggers else EveryPeriod(minPeriod.value)
    else if minPeriod.None? then TriggeredBy(sensors)
    else PeriodAndTriggers(minPeriod.value, sensors)
  }

  /** AbstractCollection.toString of the sensor names. */
  function SetText(names: seq<string>): string {
    "[" + CommaSpaceJoin(names) + "]"
  }

  function CommaSpaceJoin(names: seq<string>): string
    decreases |names|
  {
    if |names| == 0 then "" else if |names| == 1 then names[0] else names[0] + ", " + CommaSpaceJoin(names[1..])
  }

  /**
    The highlight text set on the feed; None where start hands the period itself to
    highlightTriggerPeriod. Duration.toString is not part of this model: `showPeriod` stands for it.
  */
  function HighlightText(h: Highlight, showPeriod: int -> string): (r: Option<string>)
    ensures r.None? <==> h.EveryPeriod?
    ensures h.NoPeriodOrTriggers? ==> r == Some("Not configured with a period or triggers")
    ensures h.TriggeredBy? ==> r == Some("Triggered by: " + SetText(h.sensors))
    ensures h.PeriodAndTriggers? ==>
              r == Some("Running every " + showPeriod(h.period) + " and on triggers: " + SetText(h.sensors))
  {
    match h
    case NoPeriodOrTriggers => Some("Not configured with a period or triggers")
    case EveryPeriod(_) => None
    case TriggeredBy(s) => Some("Triggered by: " + SetText(s))
    case PeriodAndTriggers(p, s) => Some("Running every " + showPeriod(p) + " and on triggers: " + SetText(s))
  }

  /** The highlight start picks for a list of jobs, described by what the jobs are. */
  lemma HighlightChoice(jobs: seq<PollJob>)
    ensures var h := HighlightOf(MinPeriod(jobs), SensorNames(jobs));
            var periodic := exists k :: 0 <= k < |jobs| && PositivePeriod(jobs[k].period).Some?;
            var triggered := exists k :: 0 <= k < |jobs| && jobs[k].triggerSensor.Some?;
            (h.NoPeriodOrTriggers? <==> !periodic && !triggered)
            && (h.EveryPeriod? <==> periodic && !triggered)
            && (h.TriggeredBy? <==> !periodic && triggered)
            && (h.PeriodAndTriggers? <==> periodic && triggered)
  {
    MinPeriodIsLeast(jobs);
    SensorNamesAreTheTriggers(jobs);
    var names := SensorNames(jobs);
    if exists k :: 0 <= k < |jobs| && jobs[k].triggerSensor.Some? {
      var k :| 0 <= k < |jobs| && jobs[k].triggerSensor.Some?;
      assert jobs[k].triggerSensor.value in names;
    }
    if names != [] {
      assert names[0] in names;
    }
  }

  // ---------------------------------------------------------------- scheduleFeed

  datatype Trigger = Trigger(entity: Option<string>, sensor: string)

  /** A poll configuration: its period in milliseconds, its resolved other triggers and its condition. */
  datatype PollConfig = PollConfig(period: int, otherTriggers: Option<seq<Trigger>>, condition: Option<nat>)

  /** One identifier of the polls multimap with its configurations. */
  datatype FeedPolls = FeedPolls(identifier: nat, configs: seq<PollConfig>)

  /** minPeriodMillis: Long.MAX_VALUE lowered to each strictly positive period in turn. */
  function MinPositivePeriod(configs: seq<PollConfig>): (r: int)
    ensures 0 < r <= LONG_MAX
    ensures forall k :: 0 <= k < |configs| && configs[k].period > 0 ==> r <= configs[k].period
    ensures r == LONG_MAX || exists k :: 0 <= k < |configs| && configs[k].period == r
    decreases |configs|
  {
    if configs == [] then LONG_MAX
    else
      var init := configs[..|configs| - 1];
      var m := MinPositivePeriod(init);
      var p := configs[|configs| - 1].period;
      assert forall k :: 0 <= k < |init| ==> init[k] == configs[k];
      if p > 0 && p < m then p else m
  }

  /** The subscribe calls for one configuration's triggers. */
  function TriggerSpecs(job: nat, description: string, ts: seq<Trigger>, condition: Option<nat>): (r: seq<JobSpec>)
    ensures |r| == |ts|
    ensures forall k :: 0 <= k < |ts| ==> r[k] == JobSpec(job, description, None, ts[k].entity, Some(ts[k].sensor), condition)
    decreases |ts|
  {
    if ts == [] then []
    else TriggerSpecs(job, description, ts[..|ts| - 1], condition)
         + [JobSpec(job, description, None, ts[|ts| - 1].entity, Some(ts[|ts| - 1].sensor), condition)]
  }

  function ConfigTriggerSpecs(job: nat, description: string, c: PollConfig): seq<JobSpec> {
    match c.otherTriggers
    case None => []
    case Some(ts) => TriggerSpecs(job, description, ts, c.condition)
  }

  /** Every subscribe call scheduleFeed makes for one identifier, in order. */
  function TriggerJobs(job: nat, description: string, configs: seq<PollConfig>): seq<JobSpec>
    decreases |configs|
  {
    if configs == [] then []
    else TriggerJobs(job, description, configs[..|configs| - 1]) + ConfigTriggerSpecs(job, description, configs[|configs| - 1])
  }

  /** One more trigger appends its subscription job to those made so far. */
  lemma TriggerSpecsStep(before: seq<JobSpec>, job: nat, description: string, ts: seq<Trigger>, t: nat, condition: Option<nat>)
    requires t < |ts|
    ensures before + TriggerSpecs(job, description, ts[..t + 1], condition)
         == (before + TriggerSpecs(job, description, ts[..t], condition))
            + [JobSpec(job, description, None, ts[t].entity, Some(ts[t].sensor), condition)]
  {
    assert ts[..t + 1][..t] == ts[..t];
  }

  /** One more configuration appends its subscription jobs to those made so far. */
  lemma TriggerJobsStep(before: seq<JobSpec>, job: nat, description: string, configs: seq<PollConfig>, c: nat)
    requires c < |configs|
    ensures before + TriggerJobs(job, description, configs[..c + 1])
         == (before + TriggerJobs(job, description, configs[..c])) + ConfigTriggerSpecs(job, description, configs[c])
    ensures TriggerJobs(job, description, configs[..c + 1]) != []
        <==> TriggerJobs(job, description, configs[..c]) != [] || ConfigTriggerSpecs(job, description, configs[c]) != []
  {
    assert configs[..c + 1][..c] == configs[..c];
  }

  /** Whether scheduleFeed also schedules a fixed-rate job: a usable period, or no trigger to fall back on. */
  predicate FixedRate(minPeriod: int, subscribed: bool, forever: int) {
    minPeriod > 0 && (minPeriod < forever || !subscribed)
  }

  function EntryJobs(p: FeedPolls, jobFactory: nat -> nat, describe: nat -> string, forever: int): seq<JobSpec> {
    var job := jobFactory(p.identifier);
    var triggers := TriggerJobs(job, describe(p.identifier), p.configs);
    var m := MinPositivePeriod(p.configs);
    triggers + (if FixedRate(m, triggers != [], forever) then [JobSpec(job, describe(p.identifier), Some(m), None, None, None)] else [])
  }

  /** Whether scheduleFeed's work for one identifier ends in a scheduleAtFixedRate call. */
  predicate HasFixedRate(p: FeedPolls, jobFactory: nat -> nat, describe: nat -> string, forever: int) {
    FixedRate(MinPositivePeriod(p.configs), TriggerJobs(jobFactory(p.identifier), describe(p.identifier), p.configs) != [], forever)
  }

  /** Identifier `i` is the first of `polls` whose work ends in a scheduleAtFixedRate call. */
  predicate FirstFixedRate(polls: seq<FeedPolls>, i: int, jobFactory: nat -> nat, describe: nat -> string, forever: int) {
    && 0 <= i < |polls| && HasFixedRate(polls[i], jobFactory, describe, forever)
    && forall j :: 0 <= j < i ==> !HasFixedRate(polls[j], jobFactory, describe, forever)
  }

  /**
    scheduleFeed stopped at identifier `i`, the first one ending in a scheduleAtFixedRate call on a
    started poller: the jobs registered are those of the earlier identifiers and the trigger
    subscriptions of `i` itself.
  */
  predicate FeedStoppedAt(before: seq<JobSpec>, after: seq<JobSpec>, polls: seq<FeedPolls>, i: int,
                          jobFactory: nat -> nat, describe: nat -> string, forever: int) {
    && FirstFixedRate(polls, i, jobFactory, describe, forever)
    && after == before + Planned(polls[..i], jobFactory, describe, forever)
                + TriggerJobs(jobFactory(polls[i].identifier), describe(polls[i].identifier), polls[i].configs)
  }

  /** One more identifier without a scheduleAtFixedRate call extends the stretch that has none. */
  lemma NoFixedRateStep(polls: seq<FeedPolls>, i: nat, jobFactory: nat -> nat, describe: nat -> string, forever: int)
    requires i < |polls| && !HasFixedRate(polls[i], jobFactory, describe, forever)
    requires forall j :: 0 <= j < i ==> !HasFixedRate(polls[j], jobFactory, describe, forever)
    ensures forall j :: 0 <= j < i + 1 ==> !HasFixedRate(polls[j], jobFactory, describe, forever)
  {
  }

  /** All poll jobs scheduleFeed registers, identifier by identifier. */
  function Planned(polls: seq<FeedPolls>, jobFactory: nat -> nat, describe: nat -> string, forever: int): seq<JobSpec>
    decreases |polls|
  {
    if polls == [] then []
    else Planned(polls[..|polls| - 1], jobFactory, describe, forever) + EntryJobs(polls[|polls| - 1], jobFactory, describe, forever)
  }

  /** A group whose configurations have no positive period and no triggers still gets one job, at Long.MAX_VALUE ms. */
  lemma UnconfiguredGetsOneJob(p: FeedPolls, jobFactory: nat -> nat, describe: nat -> string, forever: int)
    requires forall k :: 0 <= k < |p.configs| ==> p.configs[k].period <= 0 && p.configs[k].otherTriggers.None?
    ensures EntryJobs(p, jobFactory, describe, forever)
         == [JobSpec(jobFactory(p.identifier), describe(p.identifier), Some(LONG_MAX), None, None, None)]
  {
    NoTriggerJobs(jobFactory(p.identifier), describe(p.identifier), p.configs);
  }

  lemma {:induction false} NoTriggerJobs(job: nat, description: string, configs: seq<PollConfig>)
    requires forall k :: 0 <= k < |configs| ==> configs[k].otherTriggers.None?
    ensures TriggerJobs(job, description, configs) == []
    decreases |configs|
  {
    if configs != [] {
      var init := configs[..|configs| - 1];
      assert forall k :: 0 <= k < |init| ==> init[k] == configs[k];
      NoTriggerJobs(job, description, init);
    }
  }

  /** A group with triggers but no period at or below `forever` is driven by its triggers alone. */
  lemma TriggeredOnlyGetsNoFixedRate(p: FeedPolls, jobFactory: nat -> nat, describe: nat -> string, forever: int)
    requires forever <= MinPositivePeriod(p.configs)
    requires TriggerJobs(jobFactory(p.identifier), describe(p.identifier), p.configs) != []
    ensures EntryJobs(p, jobFactory, describe, forever) == TriggerJobs(jobFactory(p.identifier), describe(p.identifier), p.configs)
    ensures forall k :: 0 <= k < |EntryJobs(p, jobFactory, describe, forever)| ==>
              EntryJobs(p, jobFactory, describe, forever)[k].triggerSensor.Some?
  {
    var job := jobFactory(p.identifier);
    TriggerJobsAreTriggered(job, describe(p.identifier), p.configs);
  }

  lemma {:induction false} TriggerJobsAreTriggered(job: nat, description: string, configs: seq<PollConfig>)
    ensures forall k :: 0 <= k < |TriggerJobs(job, description, configs)| ==>
              TriggerJobs(job, description, configs)[k].triggerSensor.Some?
              && TriggerJobs(job, description, configs)[k].period.None?
    decreases |configs|
  {
    if configs != [] {
      TriggerJobsAreTriggered(job, description, configs[..|configs| - 1]);
    }
  }

  /** minPeriodMillis in scheduleFeed, computed by its loop. */
  method MinPeriodMillis(configs: seq<PollConfig>) returns (m: int)
    ensures m == MinPositivePeriod(configs)
  {
    m := LONG_MAX;
    var i := 0;
    while i < |configs|
      invariant 0 <= i <= |configs| && m == MinPositivePeriod(configs[..i])
    {
      assert configs[..i + 1][..i] == configs[..i];
      if configs[i].period > 0 {
        m := if configs[i].period < m then configs[i].period else m;
      }
      i := i + 1;
    }
    assert configs[..i] == configs;
  }

  /** Planning one more identifier appends its jobs to those already planned. */
  lemma PlannedStep(before: seq<JobSpec>, polls: seq<FeedPolls>, i: nat, jobFactory: nat -> nat, describe: nat -> string, forever: int)
    requires i < |polls|
    ensures before + Planned(polls[..i + 1], jobFactory, describe, forever)
         == (before + Planned(polls[..i], jobFactory, describe, forever)) + EntryJobs(polls[i], jobFactory, describe, forever)
  {
    assert polls[..i + 1][..i] == polls[..i];
  }

  /** Task.cancel on every task of `ts`, in order. */
  method CancelAll(ts: seq<TaskHandle>)
    modifies set t | t in ts
    ensures forall k :: 0 <= k < |ts| ==> ts[k].cancelled && ts[k].begun == old(ts[k].begun) && ts[k].done == old(ts[k].done)
  {
    var i := 0;
    while i < |ts|
      invariant 0 <= i <= |ts|
      invariant forall k :: 0 <= k < i ==> ts[k].cancelled
      invariant forall k :: 0 <= k < |ts| ==> ts[k].begun == old(ts[k].begun) && ts[k].done == old(ts[k].done)
    {
      ts[i].Cancel();
      i := i + 1;
    }
  }

  // ---------------------------------------------------------------- the poller

  /** The messages of submit and scheduleAtFixedRate once the poller runs. */
  const SUBMIT_AFTER_START := "Cannot submit additional tasks after poller has started"
  const SCHEDULE_AFTER_START := "Cannot schedule additional tasks after poller has started"

  class Poller {
    const entity: string
    /** The feed's display name; None for a poller built without a feed. */
    const feed: Option<string>
    const onlyIfServiceUp: bool
    var oneOffJobs: seq<nat>
    var pollJobs: seq<PollJob>
    var oneOffTasks: seq<TaskHandle>
    var tasks: seq<TaskHandle>
    var started: bool

    predicate HasSubscription()
      reads this, pollJobs
    {
      exists k :: 0 <= k < |pollJobs| && pollJobs[k].subscription != null
    }

    predicate HasActiveTask()
      reads this, tasks
    {
      exists k :: 0 <= k < |tasks| && tasks[k].begun && !tasks[k].done
    }

    /**
      The sets are sets (no job twice); a stopped poller holds no task and no subscription; a
      poller without a feed never subscribes.
    */
    ghost predicate Valid()
      reads this, pollJobs
    {
      (forall a, b :: 0 <= a < b < |oneOffJobs| ==> oneOffJobs[a] != oneOffJobs[b])
      && (forall a, b :: 0 <= a < b < |pollJobs| ==> pollJobs[a] != pollJobs[b])
      && (!started ==> oneOffTasks == [] && tasks == [] && !HasSubscription())
      && (feed.None? ==> !HasSubscription())
    }

    constructor (entity: string, feed: Option<string>, onlyIfServiceUp: bool)
      ensures Valid() && !started
      ensures this.entity == entity && this.feed == feed && this.onlyIfServiceUp == onlyIfServiceUp
      ensures oneOffJobs == [] && pollJobs == [] && oneOffTasks == [] && tasks == []
    {
      this.entity := entity;
      this.feed := feed;
      this.onlyIfServiceUp := onlyIfServiceUp;
      oneOffJobs := [];
      pollJobs := [];
      oneOffTasks := [];
      tasks := [];
      started := false;
    }

    /** MoreObjects.toStringHelper(this).add("entity", entity). */
    function Name(): string {
      "Poller{entity=" + entity + "}"
    }

    function ScheduleName(j: PollJob): string {
      (if feed.Some? then feed.value + ", " else "") + j.handlerDescription
    }

    /** Submits a one-off job; the jobs form an insertion-ordered set. */
    method Submit(job: nat) returns (r: Result<()>)
      requires Valid()
      modifies this
      ensures Valid() && started == old(started) && pollJobs == old(pollJobs)
      ensures oneOffTasks == old(oneOffTasks) && tasks == old(tasks)
      ensures old(started) ==> r == Err(IllegalState(SUBMIT_AFTER_START))
                               && oneOffJobs == old(oneOffJobs)
      ensures !old(started) ==> r.Ok? && oneOffJobs == (if job in old(oneOffJobs) then old(oneOffJobs) else old(oneOffJobs) + [job])
    {
      if started {
        return Err(IllegalState(SUBMIT_AFTER_START));
      }
      if job !in oneOffJobs {
        oneOffJobs := oneOffJobs + [job];
      }
      r := Ok(());
    }

    /** Registers a periodic job; a poll job is always a new object, so it is always added. */
    method ScheduleAtFixedRate(job: nat, handlerDescription: string, periodMillis: int) returns (r: Result<()>)
      requires Valid()
      modifies this
      ensures Valid() && started == old(started) && oneOffJobs == old(oneOffJobs)
      ensures oneOffTasks == old(oneOffTasks) && tasks == old(tasks)
      ensures old(pollJobs) <= pollJobs
      ensures old(started) ==> r == Err(IllegalState(SCHEDULE_AFTER_START))
                               && pollJobs == old(pollJobs)
      ensures !old(started) ==> r.Ok? && |pollJobs| == |old(pollJobs)| + 1 && pollJobs[..|old(pollJobs)|] == old(pollJobs)
                                && fresh(pollJobs[|old(pollJobs)|])
                                && Specs(pollJobs) == Specs(old(pollJobs)) + [JobSpec(job, handlerDescription, Some(periodMillis), None, None, None)]
    {
      if started {
        return Err(IllegalState(SCHEDULE_AFTER_START));
      }
      var p := new PollJob(job, handlerDescription, Some(periodMillis), None, None, None);
      var before := pollJobs;
      pollJobs := pollJobs + [p];
      assert pollJobs[..|before|] == before;
      r := Ok(());
    }

    /** Registers a job driven by a sensor; unlike the other registrations it is accepted at any time. */
    method Subscribe(job: nat, handlerDescription: string, sensorSource: Option<string>, sensor: Option<string>, condition: Option<nat>)
      requires Valid()
      modifies this
      ensures Valid() && started == old(started) && oneOffJobs == old(oneOffJobs)
      ensures oneOffTasks == old(oneOffTasks) && tasks == old(tasks)
      ensures |pollJobs| == |old(pollJobs)| + 1 && old(pollJobs) <= pollJobs
      ensures fresh(pollJobs[|old(pollJobs)|])
      ensures Specs(pollJobs) == Specs(old(pollJobs)) + [JobSpec(job, handlerDescription, None, sensorSource, sensor, condition)]
    {
      var p := new PollJob(job, handlerDescription, None, sensorSource, sensor, condition);
      var before := pollJobs;
      pollJobs := pollJobs + [p];
      assert pollJobs[..|before|] == before;
    }

    /** The task start submits for a poll job: periodic when the job has a positive period, initial otherwise. */
    predicate TaskFor(t: TaskHandle, j: PollJob) {
      t.period == PositivePeriod(j.period)
      && t.displayName == (if t.period.Some? then "Periodic: " else "Initial: ") + ScheduleName(j)
    }

    /** A job holds a subscription exactly when it has a trigger sensor. */
    ghost predicate SubscribedAsTriggered(j: PollJob)
      reads j
    {
      j.subscription != null <==> j.triggerSensor.Some?
    }

    /**
      start(): one task per one-off job and per poll job, a subscription per job with a trigger
      sensor, then the trigger highlight for the feed. A missing feed is dereferenced as soon as a
      task or a subscription needs it.
    */
    method Start() returns (r: Result<Option<Highlight>>)
      requires Valid()
      modifies this, pollJobs
      ensures Valid() && started && pollJobs == old(pollJobs) && oneOffJobs == old(oneOffJobs)
      ensures forall k :: 0 <= k < |pollJobs| ==> pollJobs[k].loggedPreviousException == old(pollJobs[k].loggedPreviousException)
      ensures old(started) ==>
                r == Err(IllegalState("Attempt to start poller " + Name() + " of entity " + entity + " when already running"))
                && oneOffTasks == old(oneOffTasks) && tasks == old(tasks)
                && forall k :: 0 <= k < |pollJobs| ==> pollJobs[k].subscription == old(pollJobs[k].subscription)
      ensures !old(started) ==>
                (r.Err? <==> feed.None? && (oneOffJobs != [] || exists k :: 0 <= k < |pollJobs| && pollJobs[k].triggerSensor.Some?))
      ensures !old(started) && r.Err? ==> r.error.NullPointer?
      ensures !old(started) && feed.None? && oneOffJobs != [] ==> oneOffTasks == [] && tasks == [] && !HasSubscription()
      ensures !old(started) && r.Err? && oneOffJobs == [] ==> oneOffTasks == [] && exists k :: StoppedAt(k)
      ensures !old(started) && r.Ok? ==>
                |oneOffTasks| == |oneOffJobs|
                && (forall k :: 0 <= k < |oneOffTasks| ==> fresh(oneOffTasks[k]) && oneOffTasks[k].displayName == "Poll")
                && |tasks| == |pollJobs|
                && (forall k :: 0 <= k < |tasks| ==> fresh(tasks[k]) && TaskFor(tasks[k], pollJobs[k]))
                && (forall k :: 0 <= k < |pollJobs| ==> SubscribedAsTriggered(pollJobs[k]))
                && r.value == (if feed.None? then None else Some(HighlightOf(MinPeriod(pollJobs), SensorNames(pollJobs))))
    {
      if started {
        return Err(IllegalState("Attempt to start poller " + Name() + " of entity " + entity + " when already running"));
      }
      started := true;
      var submitted := SubmitOneOffTasks();
      if submitted.Err? {
        return Err(submitted.error);
      }
      var scheduled := SubmitPollJobs();
      match scheduled
      case Err(e) =>
        r := Err(e);
      case Ok((minPeriod, sensors)) =>
        if feed.Some? {
          r := Ok(Some(HighlightOf(minPeriod, sensors)));
        } else {
          r := Ok(None);
        }
    }

    /** The scheduled task start builds for a poll job. */
    method NewTask(job: PollJob) returns (task: TaskHandle)
      ensures fresh(task) && TaskFor(task, job) && !task.begun && !task.done && !task.cancelled
    {
      if job.period.Some? && job.period.value > 0 {
        task := new TaskHandle("Periodic: " + ScheduleName(job), job.period);
      } else {
        task := new TaskHandle("Initial: " + ScheduleName(job), None);
      }
    }

    /** The first loop of start: a task for each one-off job, submitted through the feed. */
    method SubmitOneOffTasks() returns (r: Result<()>)
      requires started && oneOffTasks == []
      modifies this
      ensures started && pollJobs == old(pollJobs) && oneOffJobs == old(oneOffJobs) && tasks == old(tasks)
      ensures r.Err? <==> feed.None? && oneOffJobs != []
      ensures r.Err? ==> r.error.NullPointer? && oneOffTasks == []
      ensures r.Ok? ==> |oneOffTasks| == |oneOffJobs|
                        && forall k :: 0 <= k < |oneOffTasks| ==> fresh(oneOffTasks[k]) && oneOffTasks[k].displayName == "Poll"
    {
      var i := 0;
      while i < |oneOffJobs|
        invariant 0 <= i <= |oneOffJobs| && |oneOffTasks| == i && started
        invariant i > 0 ==> feed.Some?
        invariant forall k :: 0 <= k < i ==> fresh(oneOffTasks[k]) && oneOffTasks[k].displayName == "Poll"
        invariant pollJobs == old(pollJobs) && oneOffJobs == old(oneOffJobs) && tasks == old(tasks)
      {
        if feed.None? {
          return Err(NullPointer("feed"));
        }
        var task := new TaskHandle("Poll", None);
        oneOffTasks := oneOffTasks + [task];
        i := i + 1;
      }
      r := Ok(());
    }

    /**
      The second loop of start: a task per poll job, a subscription per trigger sensor, and the
      minimum period and sensor names gathered on the way.
    */
    method SubmitPollJobs() returns (r: Result<(Option<int>, seq<string>)>)
      requires started && tasks == []
      requires forall a, b :: 0 <= a < b < |pollJobs| ==> pollJobs[a] != pollJobs[b]
      requires forall k :: 0 <= k < |pollJobs| ==> pollJobs[k].subscription == null
      modifies this, pollJobs
      ensures started && pollJobs == old(pollJobs) && oneOffJobs == old(oneOffJobs) && oneOffTasks == old(oneOffTasks)
      ensures forall k :: 0 <= k < |pollJobs| ==> pollJobs[k].loggedPreviousException == old(pollJobs[k].loggedPreviousException)
      ensures feed.None? ==> !HasSubscription()
      ensures r.Err? <==> feed.None? && exists k :: 0 <= k < |pollJobs| && pollJobs[k].triggerSensor.Some?
      ensures r.Err? ==> r.error.NullPointer?
      ensures r.Err? ==> exists k :: StoppedAt(k)
      ensures r.Ok? ==>
                |tasks| == |pollJobs|
                && (forall k :: 0 <= k < |tasks| ==> fresh(tasks[k]) && TaskFor(tasks[k], pollJobs[k]))
                && (forall k :: 0 <= k < |pollJobs| ==> SubscribedAsTriggered(pollJobs[k]))
                && r.value == (MinPeriod(pollJobs), SensorNames(pollJobs))
    {
      var minPeriod: Option<int> := None;
      var sensors: seq<string> := [];
      var n := 0;
      while n < |pollJobs|
        invariant 0 <= n <= |pollJobs| && started
        invariant pollJobs == old(pollJobs) && oneOffJobs == old(oneOffJobs) && oneOffTasks == old(oneOffTasks)
        invariant Scanned(n, minPeriod, sensors)
        invariant forall k :: 0 <= k < n ==> fresh(tasks[k])
        invariant forall k :: 0 <= k < |pollJobs| ==> pollJobs[k].loggedPreviousException == old(pollJobs[k].loggedPreviousException)
      {
        var res;
        minPeriod, sensors, res := StartNext(n, minPeriod, sensors);
        if res.Err? {
          assert StoppedAt(n);
          return Err(res.error);
        }
        n := n + 1;
      }
      assert pollJobs[..n] == pollJobs;
      r := Ok((minPeriod, sensors));
    }

    /**
      Start's second loop stopped at job `k`, the first with a trigger sensor: the tasks of jobs 0 to
      `k` had been submitted, `k`'s included, and no subscription made.
    */
    ghost predicate StoppedAt(k: int)
      reads this, pollJobs
    {
      && 0 <= k < |pollJobs| && pollJobs[k].triggerSensor.Some?
      && (forall j :: 0 <= j < k ==> pollJobs[j].triggerSensor.None?)
      && |tasks| == k + 1 && (forall j :: 0 <= j <= k ==> TaskFor(tasks[j], pollJobs[j]))
      && !HasSubscription()
    }

    /**
      The state of start's second loop after `n` jobs: a task for each, their subscriptions made, the
      later jobs untouched, and the minimum period and sensor names of the jobs seen so far.
    */
    ghost predicate Scanned(n: nat, minPeriod: Option<int>, sensors: seq<string>)
      reads this, pollJobs
    {
      && n <= |pollJobs| && |tasks| == n
      && (forall k :: 0 <= k < n ==> TaskFor(tasks[k], pollJobs[k]) && SubscribedAsTriggered(pollJobs[k]))
      && (forall k :: n <= k < |pollJobs| ==> pollJobs[k].subscription == null)
      && (feed.None? ==> forall k :: 0 <= k < n ==> pollJobs[k].triggerSensor.None?)
      && minPeriod == MinPeriod(pollJobs[..n]) && sensors == SensorNames(pollJobs[..n])
    }

    /** One turn of start's second loop, on the job at index `n`. */
    method StartNext(n: nat, minPeriod: Option<int>, sensors: seq<string>)
      returns (minPeriod': Option<int>, sensors': seq<string>, r: Result<()>)
      requires n < |pollJobs| && Scanned(n, minPeriod, sensors)
      requires forall a, b :: 0 <= a < b < |pollJobs| ==> pollJobs[a] != pollJobs[b]
      modifies this, pollJobs[n]
      ensures started == old(started) && pollJobs == old(pollJobs) && oneOffJobs == old(oneOffJobs)
      ensures oneOffTasks == old(oneOffTasks)
      ensures pollJobs[n].loggedPreviousException == old(pollJobs[n].loggedPreviousException)
      ensures |tasks| == n + 1 && tasks[..n] == old(tasks) && fresh(tasks[n])
      ensures r.Err? <==> feed.None? && pollJobs[n].triggerSensor.Some?
      ensures r.Err? ==> r.error.NullPointer?
      ensures feed.None? ==> !HasSubscription()
      ensures r.Ok? ==> Scanned(n + 1, minPeriod', sensors')
      ensures r.Err? ==> forall k :: 0 <= k <= n ==> TaskFor(tasks[k], pollJobs[k])
    {
      var job := pollJobs[n];
      ScanStep(pollJobs, n);
      minPeriod' := Shorter(minPeriod, job.period);
      sensors' := sensors;
      if job.triggerSensor.Some? {
        sensors' := AddName(sensors, job.triggerSensor);
      }
      var task;
      task, r := StartJob(job);
      tasks := tasks + [task];
    }

    /** One turn of start's second loop: the job's task, and its subscription when it has a trigger sensor. */
    method StartJob(job: PollJob) returns (task: TaskHandle, r: Result<()>)
      requires job.subscription == null
      modifies job
      ensures fresh(task) && TaskFor(task, job)
      ensures job.loggedPreviousException == old(job.loggedPreviousException)
      ensures r.Err? <==> feed.None? && job.triggerSensor.Some?
      ensures r.Err? ==> r.error.NullPointer? && job.subscription == null
      ensures r.Ok? ==> SubscribedAsTriggered(job)
    {
      task := NewTask(job);
      r := Ok(());
      if job.triggerSensor.Some? {
        if job.subscription != null {
          return task, Err(IllegalState("Attempt to start poller " + Name() + " of entity " + entity + " when already has subscription"));
        }
        if feed.None? {
          return task, Err(NullPointer("feed"));
        }
        var s := new Subscription();
        job.subscription := s;
      }
    }

    /** stop(): cancels every task, drops every subscription and forgets the tasks; the jobs stay registered. */
    method Stop() returns (r: Result<()>)
      requires Valid()
      modifies this, oneOffTasks, tasks, pollJobs
      ensures Valid() && pollJobs == old(pollJobs) && oneOffJobs == old(oneOffJobs)
      ensures forall k :: 0 <= k < |pollJobs| ==> pollJobs[k].loggedPreviousException == old(pollJobs[k].loggedPreviousException)
      ensures !old(started) ==>
                r == Err(IllegalState("Attempt to stop poller " + Name() + " of entity " + entity + " when not running"))
                && !started && oneOffTasks == old(oneOffTasks) && tasks == old(tasks)
                && forall k :: 0 <= k < |pollJobs| ==> pollJobs[k].subscription == old(pollJobs[k].subscription)
      ensures old(started) ==>
                r.Ok? && !started && oneOffTasks == [] && tasks == [] && !HasSubscription()
                && (forall k :: 0 <= k < |old(oneOffTasks)| ==> old(oneOffTasks)[k].cancelled)
                && (forall k :: 0 <= k < |old(tasks)| ==> old(tasks)[k].cancelled)
      ensures forall k :: 0 <= k < |old(oneOffTasks)| ==>
                old(oneOffTasks)[k].begun == old(oneOffTasks[k].begun) && old(oneOffTasks)[k].done == old(oneOffTasks[k].done)
      ensures forall k :: 0 <= k < |old(tasks)| ==>
                old(tasks)[k].begun == old(tasks[k].begun) && old(tasks)[k].done == old(tasks[k].done)
    {
      if !started {
        return Err(IllegalState("Attempt to stop poller " + Name() + " of entity " + entity + " when not running"));
      }
      started := false;
      CancelAll(oneOffTasks);
      CancelAll(tasks);
      DropSubscriptions();
      oneOffTasks := [];
      tasks := [];
      r := Ok(());
    }

    /** The unsubscribe calls of stop: every job's handle is given back through the feed and cleared. */
    method DropSubscriptions()
      requires forall a, b :: 0 <= a < b < |pollJobs| ==> pollJobs[a] != pollJobs[b]
      requires feed.None? ==> !HasSubscription()
      modifies pollJobs
      ensures !HasSubscription()
      ensures forall k :: 0 <= k < |pollJobs| ==> pollJobs[k].loggedPreviousException == old(pollJobs[k].loggedPreviousException)
    {
      var j := 0;
      while j < |pollJobs|
        invariant 0 <= j <= |pollJobs|
        invariant forall k :: 0 <= k < j ==> pollJobs[k].subscription == null
        invariant forall k :: j <= k < |pollJobs| ==> pollJobs[k].subscription == old(pollJobs[k].subscription)
        invariant forall k :: 0 <= k < |pollJobs| ==> pollJobs[k].loggedPreviousException == old(pollJobs[k].loggedPreviousException)
      {
        if pollJobs[j].subscription != null {
          // the handle is given back through the feed, which therefore exists
          assert feed.Some?;
          pollJobs[j].subscription := null;
        }
        j := j + 1;
      }
    }

    /** isRunning(): started, and some task under way or some subscription held. */
    method IsRunning() returns (r: bool)
      ensures r == (started && (HasActiveTask() || HasSubscription()))
      ensures Valid() && !started ==> !HasActiveTask() && !HasSubscription()
    {
      var hasActiveTasks := false;
      var i := 0;
      while i < |tasks|
        invariant 0 <= i <= |tasks|
        invariant !hasActiveTasks ==> forall k :: 0 <= k < i ==> !(tasks[k].begun && !tasks[k].done)
        invariant hasActiveTasks ==> HasActiveTask()
      {
        if tasks[i].begun && !tasks[i].done {
          hasActiveTasks := true;
          break;
        }
        i := i + 1;
      }
      var hasSubscriptions := HasSubscription();
      r := started && (hasActiveTasks || hasSubscriptions);
    }

    /** isEmpty(): no poll job is registered; one-off jobs do not count. An empty poller holds no subscription. */
    function IsEmpty(): (r: bool)
      reads this, pollJobs
      ensures r <==> Specs(pollJobs) == []
      ensures r ==> !HasSubscription()
    {
      pollJobs == []
    }

    /** The body of a poll task: nothing happens unless the entity is managed and, if so required, up. */
    function RunsJob(managedActive: bool, serviceUp: Option<bool>): (r: bool)
      ensures r ==> managedActive
      ensures r <==> managedActive && (!onlyIfServiceUp || serviceUp == Some(true))
    {
      if !managedActive then false
      else if onlyIfServiceUp && serviceUp != Some(true) then false
      else true
    }

    /** The work scheduleFeed does for one identifier of the multimap. */
    method ScheduleEntry(p: FeedPolls, jobFactory: nat -> nat, describe: nat -> string, forever: int) returns (r: Result<()>)
      requires Valid()
      modifies this
      ensures Valid() && started == old(started) && oneOffJobs == old(oneOffJobs)
      ensures oneOffTasks == old(oneOffTasks) && tasks == old(tasks)
      ensures old(pollJobs) <= pollJobs
      ensures r.Err? <==> started && HasFixedRate(p, jobFactory, describe, forever)
      ensures r.Ok? ==> Specs(pollJobs) == Specs(old(pollJobs)) + EntryJobs(p, jobFactory, describe, forever)
      ensures r.Err? ==> r.error.IllegalState?
      ensures r.Err? ==> Specs(pollJobs) == Specs(old(pollJobs)) + TriggerJobs(jobFactory(p.identifier), describe(p.identifier), p.configs)
    {
      var job := jobFactory(p.identifier);
      var description := describe(p.identifier);
      var minPeriodMillis := MinPeriodMillis(p.configs);
      var subscribed := SubscribeConfigs(job, description, p.configs);
      ghost var triggers := TriggerJobs(job, description, p.configs);
      if minPeriodMillis > 0 && (minPeriodMillis < forever || !subscribed) {
        ghost var mid := pollJobs;
        r := ScheduleAtFixedRate(job, description, minPeriodMillis);
        if r.Ok? {
          AppendAssociates(Specs(old(pollJobs)), triggers, [JobSpec(job, description, Some(minPeriodMillis), None, None, None)]);
        }
      } else {
        r := Ok(());
      }
    }

    /** The subscribe calls of scheduleFeed for one identifier; true when at least one was made. */
    method SubscribeConfigs(job: nat, description: string, configs: seq<PollConfig>) returns (subscribed: bool)
      requires Valid()
      modifies this
      ensures Valid() && started == old(started) && oneOffJobs == old(oneOffJobs)
      ensures oneOffTasks == old(oneOffTasks) && tasks == old(tasks)
      ensures old(pollJobs) <= pollJobs
      ensures Specs(pollJobs) == Specs(old(pollJobs)) + TriggerJobs(job, description, configs)
      ensures subscribed <==> TriggerJobs(job, description, configs) != []
    {
      subscribed := false;
      var c := 0;
      while c < |configs|
        invariant 0 <= c <= |configs| && Valid() && started == old(started)
        invariant oneOffJobs == old(oneOffJobs) && oneOffTasks == old(oneOffTasks) && tasks == old(tasks)
        invariant old(pollJobs) <= pollJobs
        invariant Specs(pollJobs) == Specs(old(pollJobs)) + TriggerJobs(job, description, configs[..c])
        invariant subscribed <==> TriggerJobs(job, description, configs[..c]) != []
      {
        var any := SubscribeConfig(job, description, configs[c]);
        subscribed := subscribed || any;
        TriggerJobsStep(Specs(old(pollJobs)), job, description, configs, c);
        c := c + 1;
      }
      assert configs[..c] == configs;
    }

    /** The subscribe calls for one configuration; true when its trigger list was non-empty. */
    method SubscribeConfig(job: nat, description: string, pc: PollConfig) returns (any: bool)
      requires Valid()
      modifies this
      ensures Valid() && started == old(started) && oneOffJobs == old(oneOffJobs)
      ensures oneOffTasks == old(oneOffTasks) && tasks == old(tasks)
      ensures old(pollJobs) <= pollJobs
      ensures Specs(pollJobs) == Specs(old(pollJobs)) + ConfigTriggerSpecs(job, description, pc)
      ensures any <==> ConfigTriggerSpecs(job, description, pc) != []
    {
      any := false;
      if pc.otherTriggers.Some? {
        SubscribeTriggers(job, description, pc.otherTriggers.value, pc.condition);
        any := pc.otherTriggers.value != [];
      } else {
      }
    }

    /** One subscribe call per resolved trigger of a configuration, in order. */
    method SubscribeTriggers(job: nat, description: string, ts: seq<Trigger>, condition: Option<nat>)
      requires Valid()
      modifies this
      ensures Valid() && started == old(started) && oneOffJobs == old(oneOffJobs)
      ensures oneOffTasks == old(oneOffTasks) && tasks == old(tasks)
      ensures old(pollJobs) <= pollJobs
      ensures Specs(pollJobs) == Specs(old(pollJobs)) + TriggerSpecs(job, description, ts, condition)
    {
      var t := 0;
      while t < |ts|
        invariant 0 <= t <= |ts| && Valid() && started == old(started)
        invariant oneOffJobs == old(oneOffJobs) && oneOffTasks == old(oneOffTasks) && tasks == old(tasks)
        invariant old(pollJobs) <= pollJobs
        invariant Specs(pollJobs) == Specs(old(pollJobs)) + TriggerSpecs(job, description, ts[..t], condition)
      {
        Subscribe(job, description, ts[t].entity, Some(ts[t].sensor), condition);
        TriggerSpecsStep(Specs(old(pollJobs)), job, description, ts, t, condition);
        t := t + 1;
      }
      assert ts[..t] == ts;
    }

    /**
      scheduleFeed(feed, polls, jobFactory): the identifiers in the multimap's order. PRACTICALLY_FOREVER
      is `forever` here, since Duration.java is not part of this model.
    */
    method ScheduleFeed(polls: seq<FeedPolls>, jobFactory: nat -> nat, describe: nat -> string, forever: int) returns (r: Result<()>)
      requires Valid()
      modifies this
      ensures Valid() && started == old(started) && oneOffJobs == old(oneOffJobs)
      ensures oneOffTasks == old(oneOffTasks) && tasks == old(tasks)
      ensures !old(started) ==> r.Ok?
      ensures r.Err? <==> started && exists i :: FirstFixedRate(polls, i, jobFactory, describe, forever)
      ensures r.Ok? ==> Specs(pollJobs) == Specs(old(pollJobs)) + Planned(polls, jobFactory, describe, forever)
      ensures r.Err? ==> r.error.IllegalState?
      ensures r.Err? ==> exists i :: FeedStoppedAt(Specs(old(pollJobs)), Specs(pollJobs), polls, i, jobFactory, describe, forever)
    {
      var i := 0;
      while i < |polls|
        invariant 0 <= i <= |polls| && Valid() && started == old(started)
        invariant oneOffJobs == old(oneOffJobs) && oneOffTasks == old(oneOffTasks) && tasks == old(tasks)
        invariant Specs(pollJobs) == Specs(old(pollJobs)) + Planned(polls[..i], jobFactory, describe, forever)
        invariant started ==> forall j :: 0 <= j < i ==> !HasFixedRate(polls[j], jobFactory, describe, forever)
      {
        r := ScheduleEntry(polls[i], jobFactory, describe, forever);
        if r.Err? {
          assert FeedStoppedAt(Specs(old(pollJobs)), Specs(pollJobs), polls, i, jobFactory, describe, forever);
          return;
        }
        PlannedStep(Specs(old(pollJobs)), polls, i, jobFactory, describe, forever);
        if started {
          NoFixedRateStep(polls, i, jobFactory, describe, forever);
        }
        i := i + 1;
      }
      assert polls[..i] == polls;
      r := Ok(());
      assert forall j :: FirstFixedRate(polls, j, jobFactory, describe, forever) ==> !started;
    }
  }
}

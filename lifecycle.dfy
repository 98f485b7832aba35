/** The job lifecycle of one run: resolve the options, submit the jobs that
    need it, poll until every enabled job is retrieved, report. */
module Lifecycle {
  import opened Wrappers
  import opened Remote
  import opened Options
  import opened Retry
  import opened Polling

  /** The two `System.exit(1)` paths the lifecycle reaches. */
  datatype AbortCause = SubmissionFault | WaitInterrupted

  /** How a run ends.  `Finished` carries, per job, whether its last status
      code was SUCCESS (`None` for a disabled job), and the retry count. */
  datatype Exit =
    | Quit0(reason: QuitReason)
    | Abort1(cause: AbortCause)
    | Finished(historySuccessful: Option<bool>, dataSuccessful: Option<bool>, attempts: nat)

  /** The helper of `job` throws when it is invoked. */
  predicate Faults(job: Job, reply: SubmitReply) {
    NeedsSubmit(job) && reply.ConfigurationFault?
  }

  /** The submissions the phase makes: history's when it needs one, then
      data's when it needs one and history's did not throw. */
  function SubmitCalls(cfg: Config, remote: Remote): (t: seq<Call>)
    ensures |t| <= 2 && forall c :: c in t ==> c.IsSubmission()
  {
    (if NeedsSubmit(cfg.history) then [SubmitHistory] else [])
    + (if NeedsSubmit(cfg.data) && !Faults(cfg.history, remote.historySubmit)
       then [SubmitData(cfg.inputFile)] else [])
  }

  /** The submit phase: each job that runs and is not resumed is submitted
      once, history first; the id the service assigns replaces the stored
      one.  A `DatatypeConfigurationException` from a helper ends the phase
      at once. */
  method Submit(cfg: Config, remote: Remote)
    returns (ok: bool, historyId: string, dataId: string, calls: seq<Call>)
    ensures calls == SubmitCalls(cfg, remote)
    ensures ok <==>
      !Faults(cfg.history, remote.historySubmit) && !Faults(cfg.data, remote.dataSubmit)
    ensures ok ==> historyId ==
                   if NeedsSubmit(cfg.history) then remote.historySubmit.responseId
                   else cfg.history.responseId
    ensures ok ==> dataId ==
                   if NeedsSubmit(cfg.data) then remote.dataSubmit.responseId
                   else cfg.data.responseId
  {
    historyId, dataId := cfg.history.responseId, cfg.data.responseId;
    calls := [];
    if cfg.history.get && !cfg.history.resume {
      calls := calls + [SubmitHistory];
      match remote.historySubmit
      case ConfigurationFault =>
        ok := false;
        return;
      case Assigned(id) =>
        historyId := id;
    }
    if cfg.data.get && !cfg.data.resume {
      calls := calls + [SubmitData(cfg.inputFile)];
      match remote.dataSubmit
      case ConfigurationFault =>
        ok := false;
        return;
      case Assigned(id) =>
        dataId := id;
    }
    ok := true;
  }

  /** A helper the submit phase invokes throws. */
  predicate SubmitFails(cfg: Config, remote: Remote) {
    Faults(cfg.history, remote.historySubmit) || Faults(cfg.data, remote.dataSubmit)
  }

  /** A job as polling sees it after the submit phase: its checks carry the
      id its submission was assigned, or the stored one when it was not
      submitted. */
  function Launched(job: Job, reply: SubmitReply, codes: seq<int32>): Tracked
    requires NeedsSubmit(job) ==> reply.Assigned?
  {
    Tracked(job.get, if NeedsSubmit(job) then reply.responseId else job.responseId, codes)
  }

  /** SUCCESS compared against the last status code of an enabled job. */
  ghost function Verdict(t: Tracked, stubs: PerSecurity): (ok: bool)
    requires Feasible(t, stubs.dataNotAvailable) && t.get
    ensures ok <==> t.codes[FirstReady(t.codes, stubs.dataNotAvailable)] == stubs.success
    ensures ok ==> stubs.success != stubs.dataNotAvailable
  {
    t.codes[ScheduleOf(t, stubs.dataNotAvailable).ready] == stubs.success
  }

  /** No submission comes after a call that is not one. */
  predicate SubmissionsFirst(t: seq<Call>) {
    forall i, j :: 0 <= i < j < |t| && t[j].IsSubmission() ==> t[i].IsSubmission()
  }

  lemma AppendSubmissionsFirst(a: seq<Call>, b: seq<Call>)
    requires forall c :: c in a ==> c.IsSubmission()
    requires forall c :: c in b ==> !c.IsSubmission()
    ensures SubmissionsFirst(a + b)
  {
    forall i, j | 0 <= i < j < |a + b| && (a + b)[j].IsSubmission()
      ensures (a + b)[i].IsSubmission()
    {
      if j < |a| {
        assert (a + b)[i] == a[i] && a[i] in a;
      } else {
        assert false;
      }
    }
  }

  /** The calls of a run that gets to polling: its submissions, then the
      polling calls of `n` rounds and the interrupted sleep, if any. */
  function LaunchTrace(submitted: seq<Call>, hs: Schedule, ds: Schedule, millis: int,
                       n: nat, interrupted: bool): seq<Call>
  {
    submitted + PolledCalls(hs, ds, millis, n, interrupted)
  }

  /** Such a run makes no submission after another call, and makes nothing
      but waits of `millis` and checks carrying an enabled job's own id. */
  lemma LaunchTraceCalls(submitted: seq<Call>, hs: Schedule, ds: Schedule, millis: int,
                         n: nat, interrupted: bool)
    requires forall c :: c in submitted ==> c.IsSubmission()
    ensures SubmissionsFirst(LaunchTrace(submitted, hs, ds, millis, n, interrupted))
    ensures forall c :: c in LaunchTrace(submitted, hs, ds, millis, n, interrupted) ==>
      c.IsSubmission() || c == Wait(millis) ||
      (hs.get && c == CheckHistory(hs.responseId)) || (ds.get && c == CheckData(ds.responseId))
  {
    var polled := PolledCalls(hs, ds, millis, n, interrupted);
    PollTraceCalls(hs, ds, millis, n);
    assert forall c :: c in polled ==> c in PollTrace(hs, ds, millis, n) || c == Wait(millis);
    AppendSubmissionsFirst(submitted, polled);
    assert forall c :: c in submitted + polled ==> c in submitted || c in polled;
  }

  /** A run that completes `n` rounds checks each enabled job once per round
      up to the round that retrieves it, never checks a disabled job, and
      sleeps exactly `n` times. */
  lemma LaunchTraceCounts(submitted: seq<Call>, hs: Schedule, ds: Schedule, millis: int, n: nat)
    requires forall c :: c in submitted ==> c.IsSubmission()
    ensures CountsAfter(LaunchTrace(submitted, hs, ds, millis, n, false), hs, ds, millis, n)
  {
    var polled := PollTrace(hs, ds, millis, n);
    PollTraceCounts(hs, ds, millis, n);
    forall c | c in {CheckHistory(hs.responseId), CheckData(ds.responseId), Wait(millis)}
      ensures Count(submitted + polled, c) == Count(polled, c)
    {
      CountAbsent(submitted, c);
      CountAppend(submitted, polled, c);
    }
  }

  /** Everything `main` does once the options are resolved: the submit
      phase, the status checks and the report. */
  method Execute(cfg: Config, stubs: PerSecurity, remote: Remote) returns (exit: Exit, calls: seq<Call>)
    requires !SubmitFails(cfg, remote) && cfg.history.get ==>
      EventuallyReady(remote.historyCodes, stubs.dataNotAvailable)
    requires !SubmitFails(cfg, remote) && cfg.data.get ==>
      EventuallyReady(remote.dataCodes, stubs.dataNotAvailable)
    ensures !exit.Quit0?
    ensures exit == Abort1(SubmissionFault) <==> SubmitFails(cfg, remote)
    ensures exit == Abort1(SubmissionFault) ==> calls == SubmitCalls(cfg, remote)
    ensures !SubmitFails(cfg, remote) ==>
      var h := Launched(cfg.history, remote.historySubmit, remote.historyCodes);
      var d := Launched(cfg.data, remote.dataSubmit, remote.dataCodes);
      var na := stubs.dataNotAvailable;
      var hs, ds := ScheduleOf(h, na), ScheduleOf(d, na);
      var submitted, millis := SubmitCalls(cfg, remote), SleepMillis(cfg.retryWait);
      && (exit == Abort1(WaitInterrupted) <==>
            exists k :: 1 <= k <= Rounds(hs, ds) && k in remote.interrupts)
      && (exit == Abort1(WaitInterrupted) ==>
            calls == LaunchTrace(submitted, hs, ds, millis,
                                 FirstInterrupt(remote.interrupts, Rounds(hs, ds)) - 1, true))
      && (exit.Finished? ==> exit.attempts == Rounds(hs, ds))
      && (exit.Finished? ==> calls == LaunchTrace(submitted, hs, ds, millis, exit.attempts, false))
      && (exit.Finished? ==>
            exit.historySuccessful == (if h.get then Some(Verdict(h, stubs)) else None))
      && (exit.Finished? ==>
            exit.dataSuccessful == (if d.get then Some(Verdict(d, stubs)) else None))
  {
    var ok, historyId, dataId, submitted := Submit(cfg, remote);
    if !ok {
      return Abort1(SubmissionFault), submitted;
    }
    var h := Tracked(cfg.history.get, historyId, remote.historyCodes);
    var d := Tracked(cfg.data.get, dataId, remote.dataCodes);
    assert h == Launched(cfg.history, remote.historySubmit, remote.historyCodes);
    assert d == Launched(cfg.data, remote.dataSubmit, remote.dataCodes);
    var p := Poll(h, d, stubs.dataNotAvailable, cfg.retryWait, remote.interrupts);
    ghost var hs, ds := ScheduleOf(h, stubs.dataNotAvailable), ScheduleOf(d, stubs.dataNotAvailable);
    ghost var millis := SleepMillis(cfg.retryWait);
    ghost var n := if p.Completed? then p.attempts else p.attempt - 1;
    assert p.calls == PolledCalls(hs, ds, millis, n, p.Interrupted?);
    calls := submitted + p.calls;
    if p.Interrupted? {
      return Abort1(WaitInterrupted), calls;
    }
    var historySuccessful := if h.get then Some(p.historyLast.value == stubs.success) else None;
    var dataSuccessful := if d.get then Some(p.dataLast.value == stubs.success) else None;
    exit := Finished(historySuccessful, dataSuccessful, p.attempts);
  }

  /** A submission the run makes throws. */
  predicate SubmissionFails(cmd: CommandLine, remote: Remote) {
    (cmd.historyResponseId.None? && remote.historySubmit.ConfigurationFault?) ||
    (cmd.dataResponseId.None? && remote.dataSubmit.ConfigurationFault?)
  }

  /** The response id a job's checks carry: the one assigned by its
      submission, or the one given on the command line. */
  function EffectiveId(flag: Option<string>, reply: SubmitReply): string
    requires flag.None? ==> reply.Assigned?
  {
    if flag.None? then reply.responseId else flag.value
  }

  /** The history job as polling sees it in a run that gets that far. */
  ghost function HistoryTracked(cmd: CommandLine, remote: Remote): Tracked
    requires !SubmissionFails(cmd, remote)
  {
    Tracked(!Skips(cmd.historyResponseId),
      EffectiveId(cmd.historyResponseId, remote.historySubmit), remote.historyCodes)
  }

  /** The data job as polling sees it in a run that gets that far. */
  ghost function DataTracked(cmd: CommandLine, remote: Remote): Tracked
    requires !SubmissionFails(cmd, remote)
  {
    Tracked(!Skips(cmd.dataResponseId),
      EffectiveId(cmd.dataResponseId, remote.dataSubmit), remote.dataCodes)
  }

  /** The input file handed to the data helper: the `-i` value, or `""`. */
  function InputFileOf(cmd: CommandLine): string {
    if cmd.inputFile.Some? then cmd.inputFile.value else ""
  }

  /** The submissions of a run that gets past resolution: one for each job
      without a response-id flag, history first, and none after a
      submission that throws. */
  function RequestedCalls(cmd: CommandLine, remote: Remote): (t: seq<Call>)
    ensures forall c :: c in t ==> c.IsSubmission()
  {
    (if cmd.historyResponseId.None? then [SubmitHistory] else [])
    + (if cmd.dataResponseId.None? &&
          !(cmd.historyResponseId.None? && remote.historySubmit.ConfigurationFault?)
       then [SubmitData(InputFileOf(cmd))] else [])
  }

  /** The sleep argument of a run: the `-r` seconds raised to at least 5, or
      POLL_FREQUENCY without `-r`, in milliseconds. */
  function RetryMillis(cmd: CommandLine, stubs: PerSecurity): (ms: int)
    ensures ms % 1000 == 0
    ensures cmd.retryWait.Some? ==>
      ms >= 1000 * MinRetryWait as int && ms >= 1000 * cmd.retryWait.value as int &&
      (ms == 1000 * MinRetryWait as int || ms == 1000 * cmd.retryWait.value as int)
  {
    1000 * (if cmd.retryWait.None? then stubs.pollFrequency as int
            else if cmd.retryWait.value < MinRetryWait then MinRetryWait as int
            else cmd.retryWait.value as int)
  }

  /** A response-id flag decides whether its job is submitted and which id
      its checks carry. */
  lemma ResolvedLaunch(flag: Option<string>, job: Job, reply: SubmitReply, codes: seq<int32>)
    requires ResolvesTo(flag, job)
    ensures NeedsSubmit(job) <==> flag.None?
    ensures job.get <==> !Skips(flag)
    ensures Faults(job, reply) <==> flag.None? && reply.ConfigurationFault?
    ensures !Faults(job, reply) ==>
      Launched(job, reply, codes) == Tracked(!Skips(flag), EffectiveId(flag, reply), codes)
  {
  }

  /** One whole run of `main` against the oracle `remote`, with the calls it
      makes across its boundary, in order.  The oracle needs to answer every
      enabled job eventually only in a run that gets to polling. */
  method Run(cmd: CommandLine, stubs: PerSecurity, remote: Remote) returns (exit: Exit, calls: seq<Call>)
    requires !QuitsEarly(cmd) && !SubmissionFails(cmd, remote) && !Skips(cmd.historyResponseId) ==>
      EventuallyReady(remote.historyCodes, stubs.dataNotAvailable)
    requires !QuitsEarly(cmd) && !SubmissionFails(cmd, remote) && !Skips(cmd.dataResponseId) ==>
      EventuallyReady(remote.dataCodes, stubs.dataNotAvailable)
    // Resolution: the two clean quits come before any call.
    ensures exit == Quit0(BothSkipped) <==> Skips(cmd.historyResponseId) && Skips(cmd.dataResponseId)
    ensures exit.Quit0? <==> QuitsEarly(cmd)
    ensures exit.Quit0? ==> calls == []
    // Submission: a throwing helper ends the run after the submissions made so far.
    ensures exit == Abort1(SubmissionFault) <==> !QuitsEarly(cmd) && SubmissionFails(cmd, remote)
    ensures exit == Abort1(SubmissionFault) ==> calls == RequestedCalls(cmd, remote)
    // Polling and report.
    ensures !QuitsEarly(cmd) && !SubmissionFails(cmd, remote) ==>
      var h, d := HistoryTracked(cmd, remote), DataTracked(cmd, remote);
      var na := stubs.dataNotAvailable;
      var hs, ds := ScheduleOf(h, na), ScheduleOf(d, na);
      var submitted, millis := RequestedCalls(cmd, remote), RetryMillis(cmd, stubs);
      && (exit == Abort1(WaitInterrupted) <==>
            exists k :: 1 <= k <= Rounds(hs, ds) && k in remote.interrupts)
      && (exit == Abort1(WaitInterrupted) ==>
            calls == LaunchTrace(submitted, hs, ds, millis,
                                 FirstInterrupt(remote.interrupts, Rounds(hs, ds)) - 1, true))
      && (exit.Finished? ==> exit.attempts == Rounds(hs, ds))
      && (exit.Finished? ==> calls == LaunchTrace(submitted, hs, ds, millis, exit.attempts, false))
      && (exit.Finished? && h.get ==> exit.historySuccessful == Some(Verdict(h, stubs)))
      && (exit.Finished? && d.get ==> exit.dataSuccessful == Some(Verdict(d, stubs)))
  {
    var resolution := Resolve(cmd, stubs);
    if resolution.Quit? {
      return Quit0(resolution.reason), [];
    }
    var cfg := resolution.config;
    ResolvedLaunch(cmd.historyResponseId, cfg.history, remote.historySubmit, remote.historyCodes);
    ResolvedLaunch(cmd.dataResponseId, cfg.data, remote.dataSubmit, remote.dataCodes);
    assert SubmitCalls(cfg, remote) == RequestedCalls(cmd, remote);
    assert SleepMillis(cfg.retryWait) == RetryMillis(cmd, stubs);
    exit, calls := Execute(cfg, stubs, remote);
  }
}

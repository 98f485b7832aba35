/** Option resolution: how the parsed command-line values decide, per job,
    whether it is skipped, resumed or submitted fresh, and whether the run
    goes on at all. */
module Options {
  import opened Wrappers
  import opened Remote

  /** The option values after parsing (`-hr`, `-dr`, `-i`, `-r`); `None`
      when the option is absent.  Keystore options do not reach the core. */
  datatype CommandLine = CommandLine(
    historyResponseId: Option<string>,
    dataResponseId: Option<string>,
    inputFile: Option<string>,
    retryWait: Option<int32>)

  /** The response-id value that switches a job off. */
  const SkipId: string := "0"

  /** The smallest retry wait, in seconds, accepted from the command line. */
  const MinRetryWait: int32 := 5

  /** One job after resolution: `get` is whether it runs at all, `resume`
      whether it reuses a response id instead of submitting. */
  datatype Job = Job(get: bool, resume: bool, responseId: string)

  datatype Config = Config(history: Job, data: Job, inputFile: string, retryWait: int32)

  /** The two `System.exit(0)` paths of resolution. */
  datatype QuitReason = BothSkipped | InputFileWithResume

  datatype Resolution = Quit(reason: QuitReason) | Proceed(config: Config)

  predicate Skips(flag: Option<string>) { flag == Some(SkipId) }

  predicate Resumes(flag: Option<string>) { flag.Some? && flag.value != SkipId }

  /** A job needs a fresh submission exactly when it runs and is not resumed. */
  predicate NeedsSubmit(job: Job) { job.get && !job.resume }

  /** What a response-id flag means for its job. */
  ghost predicate ResolvesTo(flag: Option<string>, job: Job) {
    match flag
    case None => job.get && !job.resume && job.responseId == ""
    case Some(id) =>
      job.responseId == id &&
      (if id == SkipId then !job.get && !job.resume else job.get && job.resume)
  }

  /** The run quits during resolution, before contacting the service. */
  predicate QuitsEarly(cmd: CommandLine) {
    (Skips(cmd.historyResponseId) && Skips(cmd.dataResponseId)) ||
    (cmd.inputFile.Some? && (Resumes(cmd.historyResponseId) || Resumes(cmd.dataResponseId)))
  }

  method Resolve(cmd: CommandLine, stubs: PerSecurity) returns (r: Resolution)
    ensures r == Quit(BothSkipped) <==> Skips(cmd.historyResponseId) && Skips(cmd.dataResponseId)
    ensures r == Quit(InputFileWithResume) <==>
      !(Skips(cmd.historyResponseId) && Skips(cmd.dataResponseId)) &&
      cmd.inputFile.Some? && (Resumes(cmd.historyResponseId) || Resumes(cmd.dataResponseId))
    ensures r.Quit? <==> QuitsEarly(cmd)
    ensures r.Proceed? ==> ResolvesTo(cmd.historyResponseId, r.config.history)
    ensures r.Proceed? ==> ResolvesTo(cmd.dataResponseId, r.config.data)
    ensures r.Proceed? ==> r.config.history.get || r.config.data.get
    ensures r.Proceed? && cmd.inputFile.Some? ==>
      r.config.inputFile == cmd.inputFile.value && !r.config.history.resume && !r.config.data.resume
    ensures r.Proceed? && cmd.inputFile.None? ==> r.config.inputFile == ""
    ensures r.Proceed? && cmd.retryWait.None? ==> r.config.retryWait == stubs.pollFrequency
    ensures r.Proceed? && cmd.retryWait.Some? ==>
      r.config.retryWait >= MinRetryWait && r.config.retryWait >= cmd.retryWait.value &&
      (r.config.retryWait == MinRetryWait || r.config.retryWait == cmd.retryWait.value)
  {
    var historyResponseId, dataResponseId := "", "";
    var inputFile := "";
    var retryWait := stubs.pollFrequency;
    var resumeHistory, resumeData := false, false;
    var getHistory, getData := true, true;

    if cmd.historyResponseId.Some? {
      historyResponseId := cmd.historyResponseId.value;
      if historyResponseId == SkipId {
        getHistory := false;
      } else {
        resumeHistory := true;
      }
    }
    if cmd.dataResponseId.Some? {
      dataResponseId := cmd.dataResponseId.value;
      if dataResponseId == SkipId {
        getData := false;
      } else {
        resumeData := true;
      }
    }
    if !getData && !getHistory {
      return Quit(BothSkipped);
    }
    if cmd.inputFile.Some? {
      inputFile := cmd.inputFile.value;
      if resumeData || resumeHistory {
        return Quit(InputFileWithResume);
      }
    }
    if cmd.retryWait.Some? {
      retryWait := cmd.retryWait.value;
      if retryWait < MinRetryWait {
        retryWait := MinRetryWait;
      }
    }
    r := Proceed(Config(
      Job(getHistory, resumeHistory, historyResponseId),
      Job(getData, resumeData, dataResponseId),
      inputFile, retryWait));
  }
}

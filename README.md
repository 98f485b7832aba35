# BloombergDL job lifecycle, in Dafny

BloombergDL is a command-line client of Bloomberg's Per Security web
service. One run tracks two jobs, a *history* job (`GetHistory`) and a
*data* job (`GetData`). This project models the job lifecycle inside
`BloombergDL.main` and proves what it promises. It has four phases:

- **Option resolution.** Each job is skipped (response-id flag `"0"`),
  resumed (any other id) or submitted fresh (no flag). The run quits with
  exit 0 when both jobs are skipped, or when an input file is combined with
  a resumed job. An explicit retry wait is raised to at least 5 seconds.
- **Submit phase.** Each job that runs and is not resumed is submitted,
  history first, and the response id the service assigns replaces the
  stored one. A `DatatypeConfigurationException` aborts with exit 1.
- **Status checks.** One first check of every enabled job is followed by a
  loop. Each round increments the retry count, sleeps, and re-checks every
  enabled job not yet retrieved. A job is retrieved once its status code is
  not DATA_NOT_AVAILABLE. An interrupted sleep aborts with exit 1.
- **Report.** Each enabled job's last status code is compared with SUCCESS.

The web service is an oracle, `Remote.Remote`. It holds the reply to each
submission, and the status code each job's check receives in each round
(round 0 is the first check). It also holds the set of retry attempts whose
sleep is interrupted. The stub constants DATA_NOT_AVAILABLE, SUCCESS and
POLL_FREQUENCY come from generated classes, and are the fields of a
`PerSecurity` record parameter. Java `int` is the newtype `Remote.int32`.

Every call across the program's boundary is recorded, in order, as a
`Remote.Call`: a submission, a check carrying a response id, or a sleep
with its argument in milliseconds. Contracts are stated over that trace.

The loop in the source has no bound. The model proves that it ends under
the premise that every enabled job is eventually answered with a code
other than DATA_NOT_AVAILABLE (`Polling.Feasible`). Its measure is the
number of rounds left until the later of the two jobs is answered.

Layout:
- `wrappers.dfy`: `Option`.
- `remote.dfy`: the oracle, the stub constants and the call trace.
- `options.dfy`: option resolution.
- `retry.dfy`: the sleep argument.
- `polling.dfy`: the first check and the retry loop.
- `lifecycle.dfy`: the submit phase and the whole run.

Two behaviours worth stating up front:
- **Input file with resume.** The code prints "Input File not Required"
  and exits 0 (`BloombergDL.java:137-139`). The model's outcome is
  `Quit0(InputFileWithResume)`.
- **The 5-second floor.** The `-r` help text says the wait cannot be less
  than 5, and gives POLL_FREQUENCY as the default (`BloombergDL.java:80`).
  The code enforces the floor only for an explicit `-r` value
  (`:160-167`). The default POLL_FREQUENCY is used unchanged (`:98`).

## Model

All source paths are `src/main/java/com/bloombergdl/bloombergdl/BloombergDL.java`.

| member | source | states |
|---|---|---|
| Options.Resolve | src/main/java/com/bloombergdl/bloombergdl/BloombergDL.java:100-167 | Each job follows its flag: no flag means submitted fresh with id `""`. `"0"` means skipped. Any other id means resumed, keeping that id. The run quits with `BothSkipped` iff both flags are `"0"`. It quits with `InputFileWithResume` iff not both are skipped, an input file is given and a job resumes. When it proceeds, at least one job runs. The retry wait is POLL_FREQUENCY without `-r`, and otherwise the `-r` value raised to at least 5. |
| Lifecycle.Submit | src/main/java/com/bloombergdl/bloombergdl/BloombergDL.java:187-204 | The calls are exactly `SubmitCalls`: one history submission iff history runs and is not resumed, then one data submission iff data runs, is not resumed and history's submission did not throw. The phase succeeds iff no invoked helper throws. On success each id is the assigned id of a submitted job, or the stored id otherwise. |
| Lifecycle.SubmitCalls | src/main/java/com/bloombergdl/bloombergdl/BloombergDL.java:188-197 | A submit phase makes at most two calls, all of them submissions. |
| Lifecycle.ResolvedLaunch | src/main/java/com/bloombergdl/bloombergdl/BloombergDL.java:109-127 | A resolved job is submitted iff its flag is absent, and runs iff its flag is not `"0"`. Its submission throws iff the flag is absent and the reply is a fault. Its checks carry the assigned id or the flag's id. |
| Polling.FirstReady | src/main/java/com/bloombergdl/bloombergdl/BloombergDL.java:215-250 | The round that retrieves a job: its code is not DATA_NOT_AVAILABLE, and every earlier round's code is. |
| Polling.ScheduleOf | src/main/java/com/bloombergdl/bloombergdl/BloombergDL.java:215-250 | An enabled job's retrieving round exists. Its code is not DATA_NOT_AVAILABLE, and every earlier round's code is. A disabled job has round 0. |
| Polling.AnsweredIn | src/main/java/com/bloombergdl/bloombergdl/BloombergDL.java:218 | Up to its retrieving round, an enabled job's check marks it retrieved exactly in that round. |
| Polling.Poll | src/main/java/com/bloombergdl/bloombergdl/BloombergDL.java:211-251 | The loop completes iff no attempt up to the later retrieving round is interrupted. On completion, the retry count equals that round, and the calls are exactly the first check plus that many rounds. Each enabled job's last code is the code of its retrieving round, which is not DATA_NOT_AVAILABLE. A disabled job has no last code. On interruption, the attempt is the first interrupted one (`FirstInterrupt`). The calls are the rounds before it, then the sleep that is interrupted. |
| Polling.FirstInterrupt | src/main/java/com/bloombergdl/bloombergdl/BloombergDL.java:235-239 | The first attempt whose sleep is interrupted: it is interrupted, within the bound, and no earlier attempt is. |
| Polling.RoundCallsCounts | src/main/java/com/bloombergdl/bloombergdl/BloombergDL.java:232-250 | A round checks a job once iff it runs and is not yet retrieved. It waits once, except in the first check. |
| Polling.PollTraceCounts | src/main/java/com/bloombergdl/bloombergdl/BloombergDL.java:215-250 | After n rounds, an enabled job has been checked once per round up to its retrieving round and never after. A disabled job has never been checked. There have been exactly n sleeps. |
| Polling.PollTraceCalls | src/main/java/com/bloombergdl/bloombergdl/BloombergDL.java:215-250 | The polling calls are sleeps of the configured length and checks of enabled jobs, each carrying its own job's response id. |
| Polling.NoRoundsWhenFirstCheckRetrieves | src/main/java/com/bloombergdl/bloombergdl/BloombergDL.java:230-231 | When the first check retrieves every enabled job, no retry round runs. |
| Retry.Wrap32 | src/main/java/com/bloombergdl/bloombergdl/BloombergDL.java:236 | Java `int` arithmetic: the result is congruent to the exact value modulo 2^32, and equal to it when it fits. |
| Retry.SleepMillisAsWritten | src/main/java/com/bloombergdl/bloombergdl/BloombergDL.java:236 | The sleep argument as written, an `int` product: equal to the wait times 1000 when the wait is at most 2147483 seconds in magnitude, and congruent to it modulo 2^32 always. |
| Retry.SleepMillis | src/main/java/com/bloombergdl/bloombergdl/BloombergDL.java:236 | The intended sleep argument is exactly `retry_wait` seconds in milliseconds. It fits a `long`, and is at least 5000 for a wait of at least 5 seconds. |
| Retry.SleepMillisAgreement | src/main/java/com/bloombergdl/bloombergdl/BloombergDL.java:236 | The `int` product in the source equals the intended argument iff the wait is at most 2147483 seconds in magnitude. |
| Retry.SleepOverflowExample | src/main/java/com/bloombergdl/bloombergdl/BloombergDL.java:236 | With `-r 2147484`, the product in the source is negative. With `-r 4294968`, it is 704 ms rather than about 50 days. |
| Lifecycle.LaunchTraceCalls | src/main/java/com/bloombergdl/bloombergdl/BloombergDL.java:187-251 | In the calls of a run that gets to polling, no submission comes after another call. Every call is a submission, a sleep of the resolved length, or a check of an enabled job carrying its own id. |
| Lifecycle.LaunchTraceCounts | src/main/java/com/bloombergdl/bloombergdl/BloombergDL.java:188-250 | A run that completes n rounds checks each enabled job once per round up to its retrieving round, and never after. It never checks a disabled job, and sleeps exactly n times. |
| Lifecycle.Execute | src/main/java/com/bloombergdl/bloombergdl/BloombergDL.java:187-265 | For a resolved configuration: it aborts with exit 1 iff an invoked submission throws, and then the calls are exactly the submissions made. Otherwise the calls are exactly the submissions followed by the polling calls (`LaunchTrace`). It aborts on an interrupt iff an attempt up to the later retrieving round is interrupted. The calls then end with the first interrupted sleep. Otherwise the run finishes: the retry count is that round, and each enabled job is reported successful iff its last code is SUCCESS. |
| Lifecycle.Run | src/main/java/com/bloombergdl/bloombergdl/BloombergDL.java:100-266 | The whole run, in terms of the command line and the oracle. **Quits:** it quits with exit 0 iff resolution refuses, and then makes no call. `BothSkipped` holds iff both flags are `"0"`. **Submission:** it aborts on a submission fault iff a job without a flag gets a faulting reply. The calls are then exactly `RequestedCalls`: history first if it has no flag, data then if it has no flag and history did not throw. **Polling:** otherwise the calls are exactly `RequestedCalls` followed by the polling calls, with the sleep argument `RetryMillis`: the `-r` seconds raised to at least 5, or POLL_FREQUENCY. It aborts on an interrupt iff one falls within the rounds needed. **Report:** the retry count is the later retrieving round, and each enabled job is reported successful iff its last code is SUCCESS. |
| Lifecycle.RequestedCalls | src/main/java/com/bloombergdl/bloombergdl/BloombergDL.java:188-197 | The submissions of a run that gets past resolution are all submissions: history's when `-hr` is absent, then data's when `-dr` is absent and history's did not throw. |
| Lifecycle.RetryMillis | src/main/java/com/bloombergdl/bloombergdl/BloombergDL.java:160-167 | With `-r`, the sleep argument is whole seconds, at least 5 s and at least the `-r` value, and equal to one of them. Without `-r`, it is POLL_FREQUENCY seconds (`:98`). |
| Lifecycle.Verdict | src/main/java/com/bloombergdl/bloombergdl/BloombergDL.java:253-265 | An enabled job is reported successful iff its first code other than DATA_NOT_AVAILABLE is SUCCESS. So a successful report implies that SUCCESS differs from DATA_NOT_AVAILABLE. |

## Left out

- Command-line parsing with Apache Commons CLI (`:61-91`, `:105-107`),
  including the `ParseException` path that exits 1 (`:168-174`). The parsed
  option values are the input `Options.CommandLine`.
- The `NumberFormatException` that `Integer.valueOf` throws on a
  non-numeric `-r` (`:162`). It is uncaught in the source, and `-r` is taken
  as an already-parsed `int`.
- Keystore, password and type options, the TLS system properties, and the
  construction of the service and port (`:145-158`, `:176-183`). These are
  environment configuration.
- SOAP logging installation (`:205-209`). `SOAPLoggingHandler.java` is not
  part of this model.
- `GetInstrumentList`, `GetFieldList` and the request payloads built in
  `submitGetHistoryRequest` and `submitGetDataRequest` (`:269-381`). These
  are file I/O and marshalling against generated classes. A submission is
  modelled only as an oracle reply: an assigned id, or a
  `DatatypeConfigurationException`.
- The `IOException` that `GetInstrumentList` (`:338`, `:359`) or
  `GetFieldList` (`:357`) throws while a submission builds its request, for
  example when `-i` names a missing file (`:296`). It escapes `main` uncaught rather than taking
  the exit-1 path at `:201-203`. The model's submission replies are only an
  assigned id or a `DatatypeConfigurationException`.
- Transport faults raised by a submission or by a status check. They are
  uncaught in the source, and the oracle always answers.
- Logging and console output, including the printed `-hr`/`-dr` ids and the
  messages of the report.
- The actual duration of `Thread.sleep`. A sleep is a recorded call with
  its argument, and an interruption is an outcome.
- Lifecycle.Execute: the report for a disabled job is `None`. The source
  calls `getStatusCode()` on a default-constructed response there
  (`:211-212`, `:253`, `:260`). What that does depends on generated classes
  that are not visible.
- Polling.Poll: the loop is modelled only for oracles under which every
  enabled job is eventually answered (`Polling.Feasible`). A job answered
  DATA_NOT_AVAILABLE forever keeps the source polling forever. That
  behaviour is outside the model.
- Polling.Poll: the sleep argument is the intended `Retry.SleepMillis`, not
  the wrapping `int` product of the source. That product, and the negative
  argument on which `Thread.sleep` throws, are under Findings.
- Polling.Poll: a negative POLL_FREQUENCY. The source does not clamp the
  default, so `Thread.sleep` would throw `IllegalArgumentException`. The
  stub's value is not visible, and the model records the sleep with its
  argument whatever its sign.

## Findings

| source | as written | input that shows it | evidently intended | confidence | as-written member | corrected member |
|---|---|---|---|---|---|---|
| src/main/java/com/bloombergdl/bloombergdl/BloombergDL.java:236 | `Thread.sleep(retry_wait * 1000)` multiplies two `int`s. The product wraps modulo 2^32 before it is widened to `long`. | `-r 2147484` gives a negative argument, so `Thread.sleep` throws `IllegalArgumentException` instead of waiting. `-r 4294968` gives a 704 ms sleep. | Sleep `retry_wait` seconds, computed in `long` arithmetic. | not executed | Retry.SleepOverflowExample, Retry.SleepMillisAsWritten | Retry.SleepMillis |

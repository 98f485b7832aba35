/** The boundary of the job lifecycle: the constants of the generated
    `PerSecurity` stub class and the remote Data License web service, seen
    as an oracle whose answers are fixed in advance. */
module Remote {

  /** A Java `int`. */
  newtype int32 = x: int | -0x8000_0000 <= x < 0x8000_0000

  /** The constants the lifecycle reads from the `PerSecurity` stub class.
      Their values live in generated code that is not part of this model, so
      every operation takes them as a parameter. */
  datatype PerSecurity = PerSecurity(
    dataNotAvailable: int32,  // status code: the job is accepted but not ready yet
    success: int32,           // status code: the job finished successfully
    pollFrequency: int32)     // default retry wait in seconds

  /** What a submission helper (`submitGetHistoryRequest`,
      `submitGetDataRequest`) gives back: the response id the service
      assigned, or the `DatatypeConfigurationException` it may throw. */
  datatype SubmitReply = Assigned(responseId: string) | ConfigurationFault

  /** The remote side of one run, fixed in advance.  The status check of a
      job made in polling round `r` (round 0 is the check before the loop)
      answers `historyCodes[r]` or `dataCodes[r]`; the wait of retry attempt
      `k` is interrupted exactly when `k in interrupts`. */
  datatype Remote = Remote(
    historySubmit: SubmitReply,
    dataSubmit: SubmitReply,
    historyCodes: seq<int32>,
    dataCodes: seq<int32>,
    interrupts: set<nat>)

  /** One call the lifecycle makes across its boundary, in the order made. */
  datatype Call =
    | SubmitHistory                     // submitGetHistoryRequest(port)
    | SubmitData(inputFile: string)     // submitGetDataRequest(port, input_file)
    | CheckHistory(responseId: string)  // port.retrieveGetHistoryResponse
    | CheckData(responseId: string)     // port.retrieveGetDataResponse
    | Wait(millis: int)                 // Thread.sleep
  {
    predicate IsSubmission() { SubmitHistory? || SubmitData? }
  }
}

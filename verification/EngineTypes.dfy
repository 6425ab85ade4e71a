/** The values that cross the engine boundary. */
module EngineTypes {

  datatype Boundary = InputRequested | Terminated

  datatype Rejection = StaleRevision | Duplicate | InvalidCommand | ReceiptCapacity

  datatype Status = Committed | Rejected(rejection: Rejection)

  datatype ExecuteRequest = ExecuteRequest(requestId: string, expectedRevision: nat, command: string)

  datatype ExecuteResult = ExecuteResult(
    requestId: string,
    previousRevision: nat,
    revision: nat,
    command: string,
    output: string,
    boundary: Boundary,
    status: Status)

  /** One journal entry: a request and the one result it was given. */
  datatype Receipt = Receipt(
    requestId: string,
    expectedRevision: nat,
    command: string,
    result: ExecuteResult)

  datatype PublicState = PublicState(revision: nat, lastOutput: string, boundary: Boundary)
}

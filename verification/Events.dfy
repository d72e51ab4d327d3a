/** The events of a connection's state machine (events.hpp, error.hpp). */
module Events {
  import opened Resp

  /**
   One call for a result: the bytes to send, and a ticket standing for its pair of callbacks.
   */
  datatype Request = Request(ticket: nat, bytes: string)

  /** Why a query failed: its reply could not be parsed, or the server said so. */
  datatype Cause = Protocol(code: ErrorCode) | Server(message: string)

  datatype Event =
    | Connect
    | Complete
    | Recv(value: Value)
    | QueryError(cause: Cause)
    | ConnectionError
    | Execute(request: Request)
    | Terminate
}

/** What a topic handler answers: a result, and possibly an error. */
module Handlers {
  import opened Options

  /** The results a handler may report; any other number is unknown to the callers. */
  datatype Result = Unhandled | Accepted | Rejected | Error | Unknown(code: int)

  datatype Reply = Reply(result: Result, err: Option<string>)
}

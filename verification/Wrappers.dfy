/** An optional value, and how a request to another process ends. */
module Wrappers {
  datatype Option<+T> = None | Some(value: T)

  /** A request is answered, never arrives, or takes effect while its answer is lost. */
  datatype Reply = Answered | NotSent | AnswerLost
}

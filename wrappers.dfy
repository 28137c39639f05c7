/** Failure-carrying results, used where the source returns None or raises. */
module Wrappers {

  datatype Option<+T> = None | Some(value: T)

  /** `Failure` carries the message of the exception the source raises. */
  datatype Result<+R> = Success(value: R) | Failure(error: string)

  /** One reply of the language-model callable handed to the engines: it may raise,
      return Python's None (what `call_llm_answer` yields when the gateway gave up),
      or return a string. */
  datatype Reply = Raises | ReturnsNone | ReturnsText(text: string)
}

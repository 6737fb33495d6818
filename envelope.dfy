/**
 * The uniform JSON envelope every handler answers with, and the outcome of a
 * call into a store, which either returns a value or throws an Error.
 */
module Envelope {
  import opened Js

  /** What an awaited store call produced: its value, or a thrown Error with its message. */
  datatype Outcome<T> = Ok(value: T) | Threw(message: string)

  /** An HTTP status with the body `{success, message?, data?, count?}`. */
  datatype Response<T> = Response(status: nat, success: bool, message: Option<string>, data: Option<T>, count: Option<nat>)

  /** A failure answer: `success: false` with a message and nothing else. */
  function Reject<T>(status: nat, message: string): Response<T> {
    Response(status, false, Some(message), None, None)
  }

  /**
   * The shape every handler keeps: success exactly on 200 and 201, only the
   * five statuses of the API, and a failure carries a message and no data.
   */
  predicate WellFormed<T>(r: Response<T>) {
    && (r.success <==> r.status == 200 || r.status == 201)
    && r.status in {200, 201, 400, 404, 500}
    && (!r.success ==> r.message.Some? && r.data.None? && r.count.None?)
  }
}

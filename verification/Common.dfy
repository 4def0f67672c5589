/** Datatypes every component uses. */
module Common {

  datatype Option<+T> = None | Some(value: T)

  function GetOr<T>(o: Option<T>, default: T): T {
    if o.Some? then o.value else default
  }

  // A Redis or database call works, is never sent, or takes effect while its reply is lost.
  datatype Fault = Works | NotSent | ReplyLost
}

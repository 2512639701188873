/** Failure-carrying values for the results of the collaborators the client calls
    (daemon, path lookup, raw socket, address parsing). */
module Results {

  /** A Go `error` value returned by a collaborator. Its contents are never
      inspected by the client: it is only wrapped and passed upwards. */
  type Cause(==)

  /** A nil-able value. */
  datatype Option<+T> = None | Some(value: T)

  /** A `(value, error)` pair as returned by a Go call: exactly one side is set. */
  datatype Result<+T> = Ok(value: T) | Err(cause: Cause)

  /** The error side of a result, if any. */
  function ErrorOf<T>(r: Result<T>): (e: Option<Cause>)
    ensures e.None? <==> r.Ok?
    ensures r.Err? ==> e == Some(r.cause)
  {
    match r
    case Ok(_) => None
    case Err(c) => Some(c)
  }
}

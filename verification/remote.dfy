/** What the pages see of the remote API and of the notification layer.
    Every remote call is replaced by an oracle: the reply it got. */
module Remote {

  /** The settled outcome of one `client.request`: resolved with a payload, or rejected. */
  datatype Reply<+T> = Ok(payload: T) | Failed

  /** What a list query leaves behind: the returned list as it is, or nothing when the call failed. */
  function ListOrEmpty<T>(reply: Reply<seq<T>>): seq<T>
  {
    match reply
    case Ok(list) => list
    case Failed => []
  }

  /** The `variant` option of a snackbar notification. */
  datatype Variant = Success | Error

  /** One `enqueueSnackbar(message, { variant })` call. Durations and anchoring are not modelled. */
  datatype Notification = Notification(message: string, variant: Variant)
}

/** Optional values, the errors a secretcli invocation can end with, and results. */
module Common {

  datatype Option<+T> = None | Some(value: T)

  /** Every way an invocation aborts with a non-zero exit status. */
  datatype Failure =
    | RegionUnavailable    // the instance-metadata request failed (non-2xx or timeout)
    | NotFound             // the backend does not know the secret
    | AlreadyExists        // `init` on a name the backend already holds
    | InvalidFormat        // the payload does not decode as a structured document
    | InvalidUtf8          // a binary payload that is not UTF-8 text
    | KeyError             // Python KeyError: `del d[k]` or `d['SecretBinary']` on a missing key
    | TypeError            // Python TypeError: indexing a string with a string

  /** A value, or the failure that aborted the computation; usable with `:-`. */
  datatype Result<+T> = Ok(value: T) | Err(error: Failure) {
    predicate IsFailure() { Err? }

    function PropagateFailure<U>(): Result<U>
      requires Err?
    {
      Err(error)
    }

    function Extract(): T
      requires Ok?
    {
      value
    }
  }
}

/** Values shared by every part of the model: optional values, results of
    operations that can raise, the kinds of exception the scripts raise or
    let through, and Python's str.startswith. */
module Common {

  datatype Option<+T> = None | Some(value: T)

  /** What the Python code raises (or lets propagate). */
  datatype Raised =
    | NoRegionError
    | NoCredentialsError
    | ClientError(code: string)
    | WaiterError
    | ValueError(text: string)
    | KeyError(key: string)
    | TypeError(text: string)
    | NameError(name: string)
    | OtherException

  /** A call that either returns a value or raises. */
  datatype Result<+T> = Success(value: T) | Failure(error: Raised)

  /** A call whose value is irrelevant: it completes or raises. */
  datatype Outcome = Completed | Raise(error: Raised)

  /** Python's `s.startswith(p)`. */
  predicate StartsWith(s: string, p: string) {
    |p| <= |s| && s[..|p|] == p
  }

  /** Python's `s.endswith(p)`. */
  predicate EndsWith(s: string, p: string) {
    |p| <= |s| && s[|s| - |p|..] == p
  }

  /** Python's `"{}".format(x)` for a value that is a string or None. */
  function PyStr(x: Option<string>): (s: string)
    ensures x.Some? ==> s == x.value
    ensures x.None? ==> s == "None"
  {
    match x
    case Some(v) => v
    case None => "None"
  }
}

/** Optional values and the three ways an operation of the program can end. */
module Outcomes {

  datatype Option<+T> = None | Some(value: T)

  /** How a call ends: with a value, with an `io::Error` (or `git2::Error`)
      handed back to the caller by `?`, or with the process stopping
      (a `panic!`, a failed `assert!`, an `unwrap`/`expect` on an error,
      or `exit(0)`). */
  datatype Outcome<+T> = Ok(value: T) | Err | Abort

  /** `.unwrap()` on a `Result`: an error turns into the process stopping. */
  function Unwrap<T>(o: Outcome<T>): (r: Outcome<T>)
    ensures !r.Err?
    ensures r.Ok? <==> o.Ok?
    ensures o.Ok? ==> r == o
  {
    if o.Err? then Abort else o
  }
}

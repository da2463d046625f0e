/** Failure-carrying values shared by every module of the model. */
module Results {

  datatype Option<+T> = None | Some(value: T)

  /** The failures the modelled code raises. */
  datatype Error =
    /** a property read on `undefined` or a bad argument type (JavaScript TypeError) */
    | TypeError(what: string)
    /** a path that had to exist does not */
    | PathNotFound(path: string)
    /** the rename target directory already exists */
    | DirectoryExists(path: string)
    /** the licence could not be acquired (or came back empty) for a manifest */
    | LicenseUnavailable(odmPath: string)
    /** the portal did not land on its home page after signing in */
    | LoginFailed
    /** a Node `fs` call threw (ENOENT, EISDIR, ENOTDIR, ENOTEMPTY, EINVAL) */
    | FsError(path: string)
    /** a method that only throws "Not implemented" */
    | NotImplemented

  datatype Result<+T> = Ok(value: T) | Err(error: Error) {
    predicate IsFailure() { Err? }

    function PropagateFailure<U>(): Result<U>
      requires Err?
    {
      Err(error)
    }

    function Extract(): T
      requires Ok?
    {
      value
    }
  }

  /** JavaScript `a || b` on an optional string: an absent or empty `a` is falsy. */
  function OrElse(a: Option<string>, b: Option<string>): Option<string>
  {
    if a.Some? && a.value != "" then a else b
  }

  /** JavaScript truthiness of an optional string. */
  predicate Truthy(a: Option<string>)
  {
    a.Some? && a.value != ""
  }

  /** How an optional value renders inside a template literal (`${undefined}`). */
  function Interpolated(a: Option<string>): string
  {
    if a.Some? then a.value else "undefined"
  }

  /** Property access on a plain object modelled as a string map. */
  function Get(m: map<string, string>, key: string): Option<string>
  {
    if key in m then Some(m[key]) else None
  }
}

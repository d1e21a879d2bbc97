/** Values shared by every layer: optional values, the error taxonomy and
    the success-or-error result that replaces the (err, result) callbacks. */
module Outcomes {

  datatype Option<+T> = None | Some(value: T)

  /** What a remote filesystem primitive can report. */
  datatype Errno = NoEntry | NotADirectory | IsADirectory | NotEmpty | AlreadyExists

  datatype Error =
    /** "Invalid name: %s": the name holds a `..` path segment. */
    | DotDotName(name: string)
    /** "{{SFTPProvider}}: Invalid name: %s": the name is not one path segment. */
    | BadName(name: string)
    /** An error reported verbatim by a remote primitive on `path`. */
    | Remote(code: Errno, path: string)

  datatype Result<+T> = Ok(value: T) | Err(error: Error)
}

/** Error outcomes of the reorderer: every `throw` in src/sortClasses.ts,
    and the failure to open a file, end the whole call with one of these. */
module Outcomes {

  datatype Error =
    /** A method with overload signatures was met (OVERLOADS_ERR). */
    | OverloadsNotSupported
    /** `project.addSourceFileAtPath` (line 36) threw: no file exists at this path. */
    | FileNotFound(path: string)

  datatype Result<+T> = Ok(value: T) | Err(error: Error)

  /** A value or JavaScript's `null`. */
  datatype Option<+T> = None | Some(value: T)
}

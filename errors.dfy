/** The errors the core can return. Collaborators outside the model (I/O, decoders,
    the evaluation engine, the URL parser, the registry) fail with a message, which
    the core passes on verbatim as `Foreign`. */
module Errors {
  import opened Wrappers

  datatype Error =
    | Foreign(message: string)
      // Read: "Unknown file extension: <path>"
    | UnknownExtension(path: string)
      // jsonWalk: "Looking for kubernetes object at <quoted path>, but instead found <Go type>"
    | NotAnObject(path: string, found: string)
      // a member of a list's `items` that is not an object (reported by the
      // object library's item iteration)
    | ItemNotObject
      // FlattenToV1's panic "Unexpected unstructured object type"
    | UnexpectedObjectType
      // "bad value <n> for resolver failure mode"
    | BadFailureMode(action: int)
      // "bad value <n> for resolver tyoe" (sic)
    | BadResolverType(resolver: int)
      // "unable to determine current working directory: <cause>"
    | NoWorkingDirectory(reason: string)
      // ReadObjects: "error reading <path>: <cause>"
    | ReadFailed(path: string, cause: Error)
      // a Go run-time panic: index out of range
    | IndexOutOfRange

  /** A collaborator's failure, passed on unchanged. */
  function Lift<T>(r: Result<T, string>): Result<T, Error> {
    if r.Ok? then Ok(r.value) else Err(Foreign(r.error))
  }
}

/** Optional values and failure-carrying results.

    Ruby signals failure by raising; the model turns every `raise` the
    attachment sources can reach into an `Err` carrying an `Error` that names
    the exception the Ruby code would raise.
 */
module Outcomes {

  /** Ruby's `nil`-or-value, used wherever the source tests a value for nil. */
  datatype Option<+T> = None | Some(value: T) {
    predicate IsFailure() { None? }

    function PropagateFailure<U>(): Option<U>
      requires None?
    {
      None
    }

    function Extract(): T
      requires Some?
    {
      value
    }

    function GetOr(default: T): T {
      match this
      case Some(v) => v
      case None => default
    }
  }

  /** Which dispatcher raised an unsupported-scheme error. */
  datatype Operation = Loading | Reloading | Storing

  /** The exceptions the modelled Ruby code raises. */
  datatype Error =
    | UnsupportedScheme(op: Operation, scheme: Option<string>)  // "Source for scheme ... not supported"
    | UnknownInput(className: string)                          // "Don't know how to load ..."
    | UnknownTransform(name: string)                           // "Don't know how to do ... transform"
    | StorageConflict(target: string)                          // "Target ... already exists!"
    | MissingSource(reason: string)                            // Hapgood::Attach::MissingSource
    | NoSuchFile(path: string)                                 // Errno::ENOENT that escapes
    | NotImplemented                                           // Base#persistent?, Base#readonly?
    | NilReceiver(methodName: string)                          // NoMethodError: a method called on nil
    | UndefinedMethod(methodName: string)                      // NameError: a method that does not exist
    | TypeMismatch(what: string)                               // TypeError
    | FrozenObject                                             // an instance variable written after freeze
    | TooManyRedirects                                         // ArgumentError in Http.download
    | CouldNotOpen(message: string)                            // ArgumentError in Http.download
    | ConnectionFailed(message: string)                        // Net::HTTP could not connect
    | RecordNotFound(id: string)                               // ActiveRecord::RecordNotFound
    | NullBlob                                                 // NOT NULL violation on attachment_blobs.blob
    | UnsupportedMime                                          // "Can't process source with MIME type ..."
    | NotASource                                               // "Source should be an instance of ..."
    | InvalidSource                                            // "Source is not valid."
    | PreviousSourceLive                                       // "Previous source should have been destroyed"
    | BadOption(message: string)                               // ArgumentError from has_attachment

  /** A value or the exception that replaced it. */
  datatype Result<+T> = Ok(value: T) | Err(error: Error) {
    predicate IsFailure() { Err? }

    function PropagateFailure<U>(): Result<U>
      requires Err?
    {
      Err(error)
    }

    function Extract(): T
      requires Ok?
    {
      value
    }
  }

  /** The error a Ruby `rescue MissingSource` would catch. */
  predicate IsMissingSource(e: Error) {
    e.MissingSource?
  }
}

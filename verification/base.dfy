/**
 * Shared value types: an Option for reads that may be absent (JavaScript `undefined`/`null`),
 * and a Result for the exceptions the plugin throws.
 */
module Base {

  datatype Option<+T> = None | Some(value: T)

  /** The distinct errors the plugin raises, plus the host TypeError for a dereferenced missing object. */
  datatype Error =
    | InvalidAxis            // hasScrollbar / scrollbarWidth: axis outside horizontal, vertical, both
    | EmptyContainer         // wrapContainer: empty jQuery object
    | VisibleContainer       // wrapContainer: non-window container with overflow: visible
    | NotAnElement           // checkHierarchy: node type is not 1
    | NotAnAncestor          // checkHierarchy: container does not contain the element
    | SameAsElement          // _isInView: element is the container
    | InvalidDirection       // option direction
    | InvalidBox             // option box
    | InvalidTolerance       // option tolerance
    | EmptyContainerOption   // earlier revision: opts.container is an empty jQuery object
    | DocumentContainer      // earlier revision: container is a document
    | HostTypeError          // the browser throws because a missing object or method is used

  datatype Result<+T> = Ok(value: T) | Err(error: Error) {
    predicate IsFailure() { Err? }

    function PropagateFailure<U>(): Result<U>
      requires Err?
    {
      Err(error)
    }

    function Extract(): T
      requires Ok?
    {
      value
    }
  }
}

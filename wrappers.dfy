/** Failure-carrying results, standing in for the exceptions the Python code raises. */
module Wrappers {

  datatype Option<T> = None | Some(value: T)

  /** The exceptions the modelled code can raise, named after their cause. */
  datatype Error =
    | UnknownMethod(tag: string)   // ValueError raised by `solver` for a tag it does not know
    | EmptyStack                   // ValueError from np.vstack / np.stack given an empty list
    | MissingKey(id: int)          // KeyError when a unit id has no label matrix
    | ShapeMismatch                // ValueError from np.stack or np.vstack given rows of different widths,
                                   // or from `X @ w` when X's width is not the length of w
    | BroadcastMismatch            // ValueError from numpy broadcasting two incompatible shapes
    | UnboundLocal(name: string)   // UnboundLocalError when a local is read before any assignment to it

  datatype Result<T> = Ok(value: T) | Err(error: Error)
}

/** Vocabulary shared by every part of the model. */
module Common {

  /** A Go pointer, or the value of a `sync.Map` lookup, that may be absent. */
  datatype Option<+T> = None | Some(value: T)

  /** How a call to the Kubernetes API server ends: `Conflict` is the answer that
      `errors.IsConflict` recognises, `Failed` stands for every other error. */
  datatype Call = Done | Conflict | Failed
}

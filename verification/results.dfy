/** Error results of the modelled operations. The source reports failure by raising
    Python exceptions; the model returns them as values, one constructor per exception
    kind the modelled code can raise. */
module Results {

  datatype Error =
    | IndexError          // a list index past the end
    | ValueError          // `list.index` of a value that is not in the list
    | KeyError            // a dictionary lookup of an absent key
    | TypeError           // a call with the wrong arguments or argument shape
    | NotImplementedError // an unsupported configuration (the intended `raise NotImplementedError`)
    | UnboundLocalError   // a local variable read before any branch assigned it
    | AssertionError      // a failed `assert` on the input
    | MissingDependencies(labels: set<string>) // labels read before any node produced them

  /** An optional value: an omitted keyword argument, a dependency tuple that is `None`. */
  datatype Option<+T> = None | Some(value: T) {
    function GetOr(default: T): T {
      match this
      case Some(v) => v
      case None => default
    }
  }

  /** Either the value an operation returns or the exception it raises. Usable with `:-`. */
  datatype Result<+T> = Ok(value: T) | Err(error: Error) {

    predicate IsFailure() {
      Err?
    }

    function PropagateFailure<U>(): Result<U>
      requires Err?
    {
      Err(error)
    }

    function Extract(): T
      requires Ok?
    {
      value
    }
  }
}

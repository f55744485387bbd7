/** Option and Result, plus the Python exceptions that the modelled code can raise. */
module Wrappers {

  datatype Option<+T> = None | Some(value: T)

  /** The exception a Python call would raise instead of returning. */
  datatype Fault =
    | ValueError        // random.randint / randrange on an empty range
    | IndexError        // list index out of range, pop from an empty list
    | KeyError          // missing dictionary key
    | ZeroDivisionError // division by zero
    | AttributeError    // reading an attribute that was never set
    | TypeError         // arithmetic on None
    | UnboundLocalError // reading a local that was never assigned

  datatype Result<+T> = Ok(value: T) | Err(fault: Fault)
}

// Option and Result values shared by every module of the model.
module Wrappers {
  datatype Option<T> = None | Some(value: T)

  /** The exceptions the modelled Python code raises (or lets escape). */
  datatype Error =
    | ValueError        // int() of a malformed string, tuple unpacking of the wrong size
    | TypeError         // len(None) and similar
    | IndexError        // list index out of range
    | KeyError          // dict lookup of a missing key
    | AttributeError    // method missing on the runtime type
    | ImportError       // `from m import name` of a name m does not define
    | FileNotFoundError
    | JsonDecodeError
    | UnboundLocalError // a local read before any assignment
    | ZeroDivisionError

  datatype Result<T> = Ok(value: T) | Err(error: Error)
}

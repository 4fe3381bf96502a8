/**
 * The few Python runtime notions the model needs: an optional value
 * (Python's None), and the exceptions the modelled functions raise,
 * returned as values instead of unwinding the interpreter.
 */
module Builtins {

  datatype Option<+T> = None | Some(value: T)

  /** The exception classes the modelled code can raise. */
  datatype PyError =
    | ValueError            // int() of a non-integer, unpacking the wrong number of parts, split('')
    | TypeError             // str.replace(None, ...), open(None)
    | IndexError            // pop() from an empty list
    | AttributeError        // a misspelt method name
    | FileNotFoundError     // removing a path that is already gone, reading a missing file
    | UnboundLocalError(name: string)  // a local read before any branch assigned it

  datatype Result<+T> = Ok(value: T) | Err(error: PyError)

  /** Concatenation regrouped, for loops that append to a sequence in several steps */
  lemma AppendAssoc<T>(a: seq<T>, b: seq<T>, c: seq<T>)
    ensures (a + b) + c == a + (b + c)
  {
  }
}

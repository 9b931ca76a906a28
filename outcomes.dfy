/** Optional values, and results that either carry a value or name the Java
    exception the modelled code would have thrown instead. */
module Outcomes {

  datatype Option<+T> = None | Some(value: T)

  /** The unchecked exceptions the modelled code can raise on malformed input. */
  datatype JavaException =
    | IndexOutOfBounds   // String.substring past the end, or an array store past its length
    | NullPointer        // a method call on a null array element or reference
    | ClassCast          // a cast of a table value to Font that is not a Font

  datatype Result<+T> = Ok(value: T) | Err(error: JavaException)
}

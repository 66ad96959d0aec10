/** Option and Result values used across the model, and the Java exceptions
    the modelled code can raise (each becomes an explicit error value). */
module Wrappers {

  datatype Option<+T> = None | Some(value: T)

  /** The exceptions thrown by the modelled code, by the kind of Java exception. */
  datatype Exception =
    | IOException(message: string)           // fetch, file or directory failure
    | NumberFormat                           // Integer.valueOf / Long.valueOf on a bad string
    | StringIndexOutOfBounds                 // substring(0, -1)
    | ArrayIndexOutOfBounds                  // [0] or [length - 1] of an empty array
    | IndexOutOfBounds                       // List.get past the end of a list
    | NullPointer                            // FileWriter.write(null)
    | IllegalArgument                        // ImageIO.write of a null image
    | Interrupted                            // Thread.sleep interrupted

  datatype Result<+T> = Ok(value: T) | Err(error: Exception)
}

/** Optional values, Python exceptions and the outcome of an operation that may raise. */
module Results {

  datatype Option<+T> = None | Some(value: T)

  /** The exceptions the modelled code raises or lets through. */
  datatype Error =
    | ConnectionError                 // the Redis server could not be reached
    | ResponseError(message: string)  // the Redis server rejected a command
    | PicklingError                   // pickle.dumps could not serialise a value
    | UnpicklingError                 // pickle.loads could not deserialise stored bytes
    | KeyError(key: string)           // a dictionary lookup of a missing key
    | ValueError(text: string)        // int() of a string that is not an integer
    | AppError(name: string)          // an exception raised by caller-supplied code
    | TypeError(argument: string)     // a call that supplies one parameter twice

  /** Either a returned value or a raised exception. */
  datatype Outcome<+T> = Ok(value: T) | Raised(error: Error)
}

/** Optional values and the two ways an operation of the plugin can abort. */
module Wrappers {

  /** A Java reference that may be null. */
  datatype Option<+T> = None | Some(value: T)

  /** The exceptions the modelled code raises: its own CucumberModelException,
      and a NullPointerException where it dereferences a field that is still null. */
  datatype Error = ModelError(message: string) | NullPointer

  /** A value, or the exception that replaced it. */
  datatype Result<+T> = Ok(value: T) | Err(error: Error)
}

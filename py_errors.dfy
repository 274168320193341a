/** The Python exceptions that can escape a handler or a configuration loader,
    and the outcome of a step that may raise one. */
module PyErrors {
  datatype PyError = IndexError | KeyError | UnicodeDecodeError | ValueError | TypeError | AttributeError

  datatype Outcome<T> = Ok(value: T) | Raised(err: PyError)
}

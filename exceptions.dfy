/**
 The exceptions the bot raises or lets through, as values. The classes of
 `exeptions.py` are constructors of `ExceptionClass` next to the Python
 built-ins the code can raise; `Raise(cls, text)` is an exception object
 whose `str()` is `text`.
 */
module Exceptions {

  datatype ExceptionClass =
    | TokensException
    | APIAnswerException
    | ParseStatusException
    | EmptyCurrentDateException
    | JSONDecodeError
    | TypeError
    | AttributeError
    | KeyError

  datatype Exception = Raise(cls: ExceptionClass, text: string)

  datatype Option<+T> = None | Some(value: T)

  /** A computation that returns a value or raises. */
  datatype Result<+T> = Ok(value: T) | Err(error: Exception)
}

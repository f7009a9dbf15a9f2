/**
 * Every exception the connection handler's queue engine, argument check,
 * constructor and autocommit setter can raise, with the data it carries.
 * GDConnectionError and GDExecutionError both derive from GDError, which
 * derives from Exception; the others are Python's built-in classes.
 */
module Exceptions {
  import opened Results
  import opened Python

  datatype Error =
      /** KeyError: create_queue on a name that is already registered. */
    | DuplicateQueue(name: string)
      /** KeyError: the queue named does not exist. */
    | MissingQueue(name: string)
      /** TypeError: truthy SQL arguments that are not a tuple, list or dict. */
    | BadSqlArgs(found: Value)
      /** TypeError: `list(x)` or `for a in x` on a value that is not iterable. */
    | NotIterable(found: Value)
      /** TypeError: the autocommit setter was given something other than a bool. */
    | NotABoolean(found: Value)
      /** ValueError: `int(text)` on a placeholder whose inside is no integer. */
    | BadIntLiteral(text: string)
      /** IndexError: `arg[0]` on an empty string argument. */
    | EmptyStringIndex
      /** GDConnectionError: an admin mode outside the three known ones. */
    | BadAdminMode(given: string)
      /** GDConnectionError: the driver refused the connection. */
    | CannotConnect(cause: string)
      /** GDExecutionError: a placeholder index with no element in the result buffer. */
    | MissingPlaceholderResult(index: int)
      /** GDExecutionError: a queued statement failed in the driver; raised after
          the rollback and with the queue deleted. */
    | StatementFailed(queue: string, sql: string, args: Option<seq<Value>>, cause: string)

  /** The Python class of the exception raised. */
  function PythonClass(e: Error): string {
    match e
    case DuplicateQueue(_) => "KeyError"
    case MissingQueue(_) => "KeyError"
    case BadSqlArgs(_) => "TypeError"
    case NotIterable(_) => "TypeError"
    case NotABoolean(_) => "TypeError"
    case BadIntLiteral(_) => "ValueError"
    case EmptyStringIndex => "IndexError"
    case BadAdminMode(_) => "GDConnectionError"
    case CannotConnect(_) => "GDConnectionError"
    case MissingPlaceholderResult(_) => "GDExecutionError"
    case StatementFailed(_, _, _, _) => "GDExecutionError"
  }
}

/** The compiler's exceptions as values. Each diagnostic class of
    compiler/errors/ only prefixes its message and hands it, together with
    a location, to token_message; `Diag` keeps exactly that message and that
    location. Exceptions thrown by the C++ library or by std::runtime_error
    become `Internal`, and reads the C++ leaves undefined become `Undefined`. */
module Errors {
  import opened Locations

  datatype ErrorKind =
    | SyntaxError
    | TypeError
    | TokenError
    | UnknownIdError
    | DoubleDefinitionError
    | AnnoMismatchError
    | ModuleCollectorError

  datatype Error =
    | Diag(kind: ErrorKind, msg: string, loc: Location)
    | Internal(what: string)
    | Undefined(what: string)

  /** SyntaxError(message, location) */
  function Syntax(message: string, loc: Location): Error {
    Diag(SyntaxError, "Syntax Error: " + message, loc)
  }

  /** TypeError(location, msg) */
  function Type(loc: Location, message: string): Error {
    Diag(TypeError, "Type Error: " + message, loc)
  }

  /** TokenError(message, location): no prefix. */
  function Token(message: string, loc: Location): Error {
    Diag(TokenError, message, loc)
  }

  /** UnknownIdError(location, id) */
  function UnknownId(loc: Location, id: string): Error {
    Diag(UnknownIdError, "Unknown Identifier: " + id, loc)
  }

  /** DoubleDefinitionError(id, loc) */
  function DoubleDefinition(id: string, loc: Location): Error {
    Diag(DoubleDefinitionError, id + " has already been defined", loc)
  }

  /** AnnoMismatchError(var_init), located at the declaration. */
  function AnnoMismatch(loc: Location): Error {
    Diag(AnnoMismatchError, "The type annotation and the assigned expression don't have the same type", loc)
  }

  /** ModuleCollectorError(stmt), located at the statement. */
  function ModuleCollector(loc: Location): Error {
    Diag(ModuleCollectorError, "Can't declare this at the module level", loc)
  }
}

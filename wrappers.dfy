/** Failure-carrying datatypes shared by every module of the widget core.
    The source reports failures by raising exceptions; here each raise becomes
    an `Err` (or `Fail`) carrying one of the `Error` kinds below. */
module Wrappers {

  datatype Option<+T> = None | Some(value: T) {
    function GetOr(default: T): T {
      match this
      case Some(v) => v
      case None => default
    }
  }

  /** The exceptions the core raises, with the data their messages carry. */
  datatype Error =
    | UnknownArgument(flag: string)            // OptionParserError "Unknown argument: ..."
    | UnexpectedOption(flag: string)           // OptionParserError "Unexpected option: ..."
    | MissingArguments(names: set<string>)     // OptionError "Missing arguments: ..."
    | UnknownArguments(names: set<string>)     // OptionError "Unknown arguments: ..."
    | TemplateSyntaxError
    | IndexError
    | KeyError(key: string)
    | TypeError
    | TemplateDoesNotExist(name: string)
    | RecursionLimit
    | ImportError(path: string)
    | NameError
    | VariableDoesNotExist(variable: string)   // a template variable the context does not define

  datatype Result<+T> = Ok(value: T) | Err(error: Error) {
    predicate IsFailure() { Err? }

    function PropagateFailure<U>(): Result<U>
      requires Err?
    {
      Err(error)
    }

    function Extract(): T
      requires Ok?
    {
      value
    }
  }

  /** A step that either completes or raises, without a value. */
  datatype Outcome = Pass | Fail(error: Error)

  /** The elements of `keys` listed once each, in some order: how the model
      states a Python dict's unspecified iteration order. */
  ghost predicate Enumerates<T(!new)>(order: seq<T>, keys: set<T>) {
    && (forall i, j :: 0 <= i < j < |order| ==> order[i] != order[j])
    && (forall k :: k in order <==> k in keys)
  }
}

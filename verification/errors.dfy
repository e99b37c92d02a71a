/**
 * Outcomes of the binding layer. The C++ code reports failures by throwing
 * (`DuktapeException`, `ScriptEvaluationExcepton`, `KeyError`, an engine
 * `TypeError` or plain `Error` raised with `duk_error`, `std::bad_cast`, `std::out_of_range`
 * from `map::at`) or by aborting on a failed `assert`; the model returns them.
 */
module Errors {

  datatype Option<T> = None | Some(value: T)

  datatype Error =
    | TypeError(message: string)            // duk_error / duk_require_* with DUK_ERR_TYPE_ERROR
    | PlainError(message: string)           // duk_error with a code that names no error class: a plain Error
    | ScriptEvaluation(message: string)     // ScriptEvaluationExcepton
    | KeyError(message: string)             // KeyError
    | BadCast                               // std::bad_cast from a reference dynamic_cast
    | OutOfRange                            // std::out_of_range from std::map::at
    | NullString                            // std::string built from the NULL duk_get_string returns
    | Abort(reason: string)                 // a failed assert on data that came from script
    | InvalidIndex                          // an engine error for a missing stack slot, outside any protected call

  datatype Result<T> = Ok(value: T) | Err(error: Error)
  {
    predicate IsFailure() { Err? }
  }
}

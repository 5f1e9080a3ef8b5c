/**
 * Values shared by the semantic analyzer and the code generator: the
 * language's primitive types, the diagnostics the analyzer can raise, and
 * the result wrappers that stand for "report and abort".
 */
module Types {

  /** The primitive types of the language (ast::BuiltInType). */
  datatype BuiltInType = INT | BYTE | STRING | BOOL | VOID

  /**
   * One constructor per diagnostic routine the analyzer calls. Each routine
   * reports and ends the run, so an error is the last thing that happens;
   * the fields are what the routine is given (the source line and context).
   */
  datatype Error =
    | Def(line: int, id: string)                 // identifier already declared in this scope
    | Undef(line: int, id: string)               // identifier not declared in any scope
    | DefAsVar(line: int, id: string)            // a function name used as a value
    | ByteTooLarge(line: int, value: int)        // byte literal above 255
    | Mismatch(line: int)                        // type mismatch
    | MainMissing                                // no main, or main with the wrong signature
    | UnexpectedBreak(line: int)
    | UnexpectedContinue(line: int)

  datatype Option<T> = None | Some(value: T)

  /** A computed value, or the diagnostic that aborted the computation. */
  datatype Result<T> = Ok(value: T) | Err(error: Error)

  /** Completion of a step that computes nothing, or the diagnostic that aborted it. */
  datatype Outcome = Pass | Fail(error: Error)
}

/** Diagnostics of the compiler and the failure-compatible result type that
    every phase returns instead of printing a message and exiting. */
module Errors {

  /** Every fatal condition the compiler reports. Positions are offsets into
      the source text (the caret of `error_at`). */
  datatype Error =
    | InvalidToken(pos: nat)                  // lexer: no rule matches here
    | ExpectedOp(pos: nat, op: string)        // expect(op) saw another token
    | ExpectedIdent(pos: nat)                 // expect_ident saw a non-identifier
    | ExpectedNumber(pos: nat)                // expect_number saw a non-number
    | UndefinedVariable(pos: nat, name: string)
    | InvalidPointerArithmetic                // pointer + pointer, or anything - pointer
    | InvalidPointerDereference               // * applied to a value with no base type
    | NotAVariable                            // left side of assignment is not a variable
    | MissingOperand                          // code generation reached a node it has no case for
    | TooManyParams                           // a function has more parameters than argument registers

  datatype Option<+T> = None | Some(value: T)

  /** Ok or the first error met; usable with `:-`. */
  datatype Result<+T> = Ok(value: T) | Fail(error: Error) {
    predicate IsFailure() {
      Fail?
    }

    function PropagateFailure<U>(): Result<U>
      requires Fail?
    {
      Fail(error)
    }

    function Extract(): T
      requires Ok?
    {
      value
    }
  }
}

/** Failure-carrying values shared by every layer of the interpreter.

    The interpreter reports failures through `anyhow::Result`; each of its
    messages (and each panic the evaluation pipeline can reach) maps to one
    constructor of `ErrorKind`, so that lemmas can say which failure happens.
    The two spellings "Not a Bool!" and "Not a bool!" share `NotABool`. */
module Results {

  datatype ErrorKind =
    | InvalidOperationArguments  // an arithmetic operator applied to a pair it has no case for
    | InvalidValueType           // a unary operator applied to an operand of the wrong variant
    | VariableDoesNotExist       // reading or assigning a name that was never declared
    | VariableImmutable          // assigning to a name declared with `let`
    | VariableAlreadyDeclared    // declaring a name a second time
    | NotABool                   // an `if` or the first `while` condition is not a Boolean
    | ErrorStatement             // the parse-failure statement reached at run time
    | CannotConvert              // an expression that is not an integer literal used as a pattern
    | Unimplemented              // a construct whose evaluation is `todo!()` (a panic)
    | IntegerOverflow            // 32-bit `+ - *` or negation overflowed (a panic in debug builds)
    | DecimalDivisionByZero      // a decimal division by zero (rust_decimal panics)
    | OutOfFuel                  // the model's bound on `while` iterations was reached

  datatype Result<+T> = Ok(value: T) | Err(error: ErrorKind) {

    predicate IsFailure() {
      Err?
    }

    function PropagateFailure<U>(): Result<U>
      requires Err?
    {
      Err(error)
    }

    function Extract(): T
      requires Ok?
    {
      value
    }
  }

  datatype Option<+T> = None | Some(value: T)
}

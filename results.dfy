/** Option and Result types shared by the tokenizer and the parser. */
module Results {

  datatype Option<+T> = None | Some(value: T)

  /** The outcome of an operation. `Ok` and `Err` are Rust's `Result`: the
      source reports every recoverable error as a formatted message string,
      so `Err` carries that string. `Panic` stands for a `panic!` or a failed
      `expect`, which in the source aborts the process instead of returning;
      it carries the panic message. */
  datatype Result<+T> = Ok(value: T) | Err(message: string) | Panic(message: string) {

    predicate IsFailure() {
      !Ok?
    }

    /** Rust's `?`: hands the error (or the abort) on unchanged. */
    function PropagateFailure<U>(): Result<U>
      requires !Ok?
    {
      if Err? then Err(message) else Panic(message)
    }

    function Extract(): T
      requires Ok?
    {
      value
    }
  }
}

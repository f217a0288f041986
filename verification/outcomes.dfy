/** Failure-compatible result types and the error conditions the conversation
    scripts and the monitor report. Where a script prints a message and calls
    `sys.exit(1)`, the model returns `Err` with the matching `Error`. */
module Outcomes {

  datatype Option<+T> = None | Some(value: T)

  /** The reasons a conversation script stops without appending a reply. */
  datatype Error =
    | MissingSeparator                      // no `---` anywhere in the file
    | BadInteger(key: string, text: string) // an integer-typed key with a non-integer value
    | BadNumber(key: string, text: string)  // `temperature` / `top_p` that is not a float literal
    | MismatchedSections                    // marker count differs from non-blank segment count
    | NoSections                            // the conversation holds no section at all
    | LastNotHuman                          // the last section is an AI turn
    | MissingModel                          // the llama script's `model` key is absent
    | ModelUnavailable                      // server unreachable, or it lists no usable model
    | GenerationFailed                      // the backend call raised

  datatype Result<+T> = Ok(value: T) | Err(error: Error) {
    predicate IsFailure() {
      Err?
    }

    function PropagateFailure<U>(): Result<U>
      requires Err?
    {
      Err(error)
    }

    function Extract(): T
      requires Ok?
    {
      value
    }
  }
}

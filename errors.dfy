/** Outcomes shared by the parser and the engine: an optional value, and a
    value-or-error result whose errors are the ones the calculator raises. */
module Errors {

  datatype Option<+T> = None | Some(value: T)

  /** Why a computation was refused; every refusal happens before any step
      of propagation is taken. */
  datatype Error =
    | InvalidLevelCount                          // fewer than two levels
    | InvalidStartLevel(levelCount: int)         // start level outside 1..levelCount
    | InvalidStepCount                           // negative number of upgrade attempts
    | InvalidProbability(from: int, to: int)     // transition from -> to (1-based) outside [0, 1]
    | Unparsable(text: string)                   // the text that float() could not read

  datatype Result<+T> = Ok(value: T) | Err(error: Error)
}

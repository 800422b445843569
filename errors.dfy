/** Failure values of the aligner: the two ways a call is stopped with an error message. */
module Errors {

  /** Which of the two sequences of one alignment held the offending symbol. */
  datatype SequenceId = Sequence1 | Sequence2

  datatype Error =
    | InvalidMatrixName(name: string)                       // "Invalid substitution matrix name: %s"
    | InvalidAminoAcid(sequence: SequenceId, symbol: char)  // "Invalid amino acid in sequence1/2: %c"

  datatype Option<+T> = None | Some(value: T)

  /** The outcome of an operation that either returns a value or stops with an error. */
  datatype Result<+T> = Ok(value: T) | Err(error: Error)
}

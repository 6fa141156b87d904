/** Shared value types: the optional value of a nullable reference and the
    outcome of an operation that can throw. */
module Wrappers {

  /** A Java reference that may be null. */
  datatype Option<+T> = None | Some(value: T)

  /** The kinds of exception the scoring code throws; messages are not modelled. */
  datatype Error =
    | InvalidScore      // IllegalArgumentException for a score outside its bounds
    | InvalidPlayers    // IllegalArgumentException for two equal player names
    | UnknownPlayer     // IllegalArgumentException for a name that is not playing
    | AlreadyWon        // IllegalStateException for a point after the game is won
    | IndexOutOfBounds  // ArrayIndexOutOfBoundsException

  /** Either the value an operation returns or the exception it throws. */
  datatype Result<+T> = Ok(value: T) | Err(error: Error)
}

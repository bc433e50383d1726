/** The enums and records of types.ts, plus the Option and Outcome wrappers
    used for the nullable values and the failures of the application. */
module Types {

  datatype Option<T> = None | Some(value: T) {
    function GetOr(default: T): T {
      match this
      case Some(v) => v
      case None => default
    }
  }

  datatype Outcome<T, E> = Ok(value: T) | Err(error: E)

  /** The phase of one round. */
  datatype GameState = Idle | Waiting | Active | Result | TooSoon

  datatype Difficulty = Easy | Medium | Hard

  datatype SoundPack = Classic | Arcade | Tech

  /** One completed round: the wall-clock time it ended (epoch ms) and the
      measured reaction time (ms). */
  datatype Attempt = Attempt(timestamp: int, time: int)
}

/** Statements sent to the database, as their caller sees them. */
module Store {
  /** What became of a write: took effect and said so, was lost with an error, or
      took effect but reported an error. */
  datatype Fate = Done | Lost | DoneButErrored

  function Written<T>(fate: Fate, before: T, after: T): T {
    if fate.Lost? then before else after
  }
}

/** Small datatypes shared by every module. */
module Common {

  datatype Option<+T> = None | Some(value: T)

  /** Seconds since the epoch. The clock is a parameter of every operation that reads it. */
  type Time = real

  function Max(x: int, y: int): int { if x < y then y else x }

  function Min(x: int, y: int): int { if x < y then x else y }

  function MaxTime(x: Time, y: Time): Time { if x < y then y else x }

  function MinTime(x: Time, y: Time): Time { if x < y then x else y }
}

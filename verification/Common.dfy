/** What several components share. */
module Common {

  datatype Option<+T> = None | Some(value: T)

  /** A value, or the message of the error the source raises. */
  datatype Result<+T> = Ok(value: T) | Err(message: string)

  /** Audio positions count samples at this rate. */
  const SAMPLE_RATE: nat := 16000

  function Max(a: int, b: int): int { if a >= b then a else b }

  function Min(a: int, b: int): int { if a <= b then a else b }
}

/** Small shared vocabulary: optional values and JavaScript's rounding. */
module Common {

  /** A value that may be absent (a SQL NULL, a row `.get()` did not find, a missing request field). */
  datatype Option<+T> = None | Some(value: T)

  /** An endpoint's answer: a success value, or the error the endpoint answers with. */
  datatype Result<+T, +E> = Ok(value: T) | Err(error: E)

  /** JavaScript's `Math.round`: the nearest integer, a half rounded toward +infinity. */
  function RoundHalfUp(x: real): (n: int)
    ensures n as real - 0.5 <= x < n as real + 0.5
  {
    (x + 0.5).Floor
  }

  /** Rounding a number of tenths is integer division after adding five tenths. */
  lemma RoundTenths(k: int)
    ensures RoundHalfUp(k as real / 10.0) == (k + 5) / 10
  {
  }

  /** Rounding a number of halves is integer division after adding one half. */
  lemma RoundHalves(k: int)
    ensures RoundHalfUp(k as real / 2.0) == (k + 1) / 2
  {
  }

  function Max(a: int, b: int): int { if a < b then b else a }

  function MaxReal(a: real, b: real): real { if a < b then b else a }
}

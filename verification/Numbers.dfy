/** Real arithmetic shared by the judge and the rating: magnitudes, half-up rounding, scaling. */
module Numbers {
  function Abs(x: real): real {
    if x < 0.0 then -x else x
  }

  function Max(x: real, y: real): real {
    if x < y then y else x
  }

  // Half-up rounding: halves go towards positive infinity, also for negative numbers.
  function Round(x: real): int {
    (x + 0.5).Floor
  }

  lemma RoundIsMonotone(x: real, y: real)
    requires x <= y
    ensures Round(x) <= Round(y)
    ensures x - 0.5 <= Round(x) as real <= x + 0.5
  {
  }

  lemma ScaleUp(x: real, y: real, k: real)
    requires x <= y && k > 0.0
    ensures x * k <= y * k
    ensures x < y ==> x * k < y * k
  {
  }
}

/** Math.round: to the nearest integer, halves upwards. */
module Rounding {

  function Round(x: real): (n: int)
    ensures x - 0.5 < n as real <= x + 0.5
  {
    (x + 0.5).Floor
  }
}

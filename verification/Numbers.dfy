/** The smaller and the larger of two numbers, and a number kept within bounds. */
module Numbers {
  function Min(a: int, b: int): int { if a < b then a else b }

  function Max(a: int, b: int): int { if a < b then b else a }

  function Least(a: real, b: real): real { if a < b then a else b }

  function Most(a: real, b: real): real { if a < b then b else a }

  function Clamp(x: real, lo: real, hi: real): real {
    if x < lo then lo else if x > hi then hi else x
  }
}

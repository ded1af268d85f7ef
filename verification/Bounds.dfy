/** The larger and the smaller of two numbers. */
module Bounds {
  function Max(a: int, b: int): int { if a < b then b else a }

  function Min(a: int, b: int): int { if a < b then a else b }

  function Least(a: real, b: real): real { if a < b then a else b }
}

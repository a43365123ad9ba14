/** Integer helpers shared by the modules that compute in base units, blocks and basis points. */
module Integers {

  function Max(x: int, y: int): int { if x < y then y else x }

  function Min(x: int, y: int): int { if x < y then x else y }
}

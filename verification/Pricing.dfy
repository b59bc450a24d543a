// The price of a unit of gas, as core.TransactionToMessage and ToMessage compute it.
module Pricing {
  import opened Wrappers

  function Min(a: int, b: int): int {
    if a <= b then a else b
  }

  /** With a base fee the sender pays it and the tip, up to the fee cap. */
  function Price(feeCap: nat, tipCap: nat, baseFee: Option<nat>): nat {
    if baseFee.None? then feeCap else Min(tipCap + baseFee.value, feeCap)
  }
}

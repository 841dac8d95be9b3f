/** Value types of the Elrond smart-contract framework that both contracts use.
    The blockchain oracles (caller, owner, block timestamp, balances, own
    address, call value) are not modelled here: every endpoint receives them
    as parameters. */
module Elrond {

  /** A `ManagedAddress`: always 32 bytes. */
  type Address = a: seq<bv8> | |a| == 32 witness ZeroAddress

  /** The all-zero address that `ManagedAddress::is_zero` recognises. */
  const ZeroAddress: seq<bv8> := seq(32, _ => 0 as bv8)

  predicate IsZero(a: Address) {
    forall i :: 0 <= i < |a| ==> a[i] == 0
  }

  /** A `TokenIdentifier` is the token's ticker bytes; the native coin is the
      identifier "EGLD", and an empty storage slot reads as the empty identifier. */
  type TokenId = string

  const EGLD: TokenId := "EGLD"

  predicate IsEgld(t: TokenId) {
    t == EGLD
  }

  /** The outcome of an endpoint that returns nothing: it commits (`Pass`) or a
      `require!` aborts the transaction (`Fail`), in which case nothing it did persists. */
  datatype Outcome<+E> = Pass | Fail(error: E)

  /** The outcome of an endpoint that returns a value on commit. */
  datatype Result<+T, +E> = Ok(value: T) | Err(error: E)
}

/**
 * Permissions as the ACL library defines them: a bit mask and a one-letter
 * display code. The five base permissions occupy bits 0 to 4.
 */
module Permissions {

  datatype Permission = Permission(mask: int, code: char)

  /** 2^k, the value of `1 << k` for the small shift widths used here. */
  function Pow2(k: nat): (r: nat)
    ensures r >= 1
  {
    if k == 0 then 1 else 2 * Pow2(k - 1)
  }

  /** A mask that is a single bit. */
  ghost predicate IsSingleBit(mask: int) {
    exists k: nat :: mask == Pow2(k)
  }

  const READ := Permission(1, 'R')
  const WRITE := Permission(2, 'W')
  const CREATE := Permission(4, 'C')
  const DELETE := Permission(8, 'D')
  const ADMINISTRATION := Permission(16, 'A')

  /** The masks of the library's base permissions. */
  const BASE_MASKS: set<int> := {1, 2, 4, 8, 16}

  function Masks(ps: seq<Permission>): (r: seq<int>)
    ensures |r| == |ps|
    ensures forall i :: 0 <= i < |ps| ==> r[i] == ps[i].mask
  {
    if ps == [] then [] else [ps[0].mask] + Masks(ps[1..])
  }
}

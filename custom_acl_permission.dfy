/**
 * The two permissions this application adds to the library's base set.
 * Their constructor is private, so SHARE and APPROVE are the only instances.
 */
module CustomAclPermission {
  import opened Permissions

  /** SHARE: mask 1 << 5, code 'S'. */
  const SHARE := Permission(32, 'S')

  /** APPROVE: mask 1 << 6, code 'A'. */
  const APPROVE := Permission(64, 'A')

  /** The custom masks are bits 5 and 6, single bits above the base bits 0-4. */
  lemma CustomMasks()
    ensures SHARE.mask == Pow2(5) && SHARE.code == 'S'
    ensures APPROVE.mask == Pow2(6) && APPROVE.code == 'A'
    ensures IsSingleBit(SHARE.mask) && IsSingleBit(APPROVE.mask)
    ensures SHARE.mask !in BASE_MASKS && APPROVE.mask !in BASE_MASKS
    ensures SHARE.mask != APPROVE.mask
  {
    assert Pow2(6) == 2 * Pow2(5) == 64;
  }

  /** Every mask strictly above the base bits is at least 32, so none collides with a base mask. */
  lemma {:induction false} HighBitsAvoidBase(k: nat)
    requires k >= 5
    ensures Pow2(k) >= 32 && Pow2(k) !in BASE_MASKS
  {
    if k > 5 {
      HighBitsAvoidBase(k - 1);
    }
  }
}

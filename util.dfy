/**
  The two equality predicates of src/util.rs. Rust's `Default` trait has no
  counterpart here, so the default value is passed explicitly: every record module
  names the `Default` of its types as a constant.
 */
module Util {
  import opened Basics

  /** `is_default(t)`: t equals its type's default. */
  predicate IsDefault<T(==)>(t: T, default: T) {
    t == default
  }

  /** `is_zero(s)` on the 64 bytes of an Ed25519 signature. */
  predicate IsZero(s: Bytes64) {
    s == Zero64
  }

  /** `is_zero` holds exactly when every one of the 64 bytes is zero. */
  lemma IsZeroIffAllBytesZero(s: Bytes64)
    ensures IsZero(s) <==> forall i :: 0 <= i < 64 ==> s[i] == 0
  {
    if forall i :: 0 <= i < 64 ==> s[i] == 0 {
      assert s == Zero64;
    }
  }
}

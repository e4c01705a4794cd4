/** Machine integers, 16-byte identities and the option type shared by every model. */
module Basics {
  const U32_MAX: nat := 0xFFFF_FFFF
  const U64_MAX: nat := 0xFFFF_FFFF_FFFF_FFFF

  type u8 = x: nat | x <= 0xFF
  type u16 = x: nat | x <= 0xFFFF
  type u32 = x: nat | x <= U32_MAX
  type u64 = x: nat | x <= U64_MAX
  type i32 = x: int | -0x8000_0000 <= x <= 0x7FFF_FFFF

  /** A 16-byte identity, read as the little-endian number its bytes spell; 0 is the all-zero array. */
  type Id = x: nat | x < 0x1_0000_0000_0000_0000_0000_0000_0000_0000

  /** A content hash; 0 is the hash whose every digit is '0'. Only equality and zero are observed. */
  type Hash = nat

  datatype Option<+T> = None | Some(value: T)

  function Max(a: nat, b: nat): (m: nat)
    ensures m >= a && m >= b && (m == a || m == b)
  {
    if a < b then b else a
  }

  /** A flag that is down at one moment and up at a later one rises at some call in between. */
  lemma {:induction false} Rises(flag: nat -> bool, lo: nat, hi: nat) returns (k: nat)
    requires lo <= hi && !flag(lo) && flag(hi)
    ensures lo <= k < hi && !flag(k) && flag(k + 1)
  {
    if flag(hi - 1) {
      k := Rises(flag, lo, hi - 1);
    } else {
      k := hi - 1;
    }
  }

  /** The last entry that is there. */
  function Latest<T>(s: seq<Option<T>>): Option<T> {
    if s == [] then None else if s[|s| - 1].Some? then s[|s| - 1] else Latest(s[..|s| - 1])
  }

  lemma {:induction false} LatestAt<T>(s: seq<Option<T>>) returns (i: nat)
    requires Latest(s).Some?
    ensures i < |s| && s[i] == Latest(s) && forall k :: i < k < |s| ==> s[k].None?
  {
    if s[|s| - 1].Some? {
      i := |s| - 1;
    } else {
      i := LatestAt(s[..|s| - 1]);
    }
  }
}

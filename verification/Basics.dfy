/** Machine integers and the optional value shared by the other modules. */
module Basics {

  datatype Option<+T> = None | Some(value: T)

  const TWO_31: int := 0x8000_0000
  const TWO_32: int := 0x1_0000_0000

  type int32 = x: int | -TWO_31 <= x < TWO_31
  type uint32 = x: int | 0 <= x < TWO_32

  /** The implicit conversion from `uint32_t` to `int` (two's complement). */
  function ToInt32(u: uint32): (i: int32)
    ensures ToUint32(i) == u
  {
    if u < TWO_31 then u else u - TWO_32
  }

  /** The implicit conversion from `int` to `uint32_t`. */
  function ToUint32(i: int32): uint32 {
    if i < 0 then i + TWO_32 else i
  }

  /** Two's complement: the same number modulo 2^32, and the same number at all if it fits. */
  lemma ToInt32IsCongruent(u: uint32)
    ensures -0x8000_0000 <= ToInt32(u) < 0x8000_0000
    ensures ToInt32(u) == u || ToInt32(u) == u - 0x1_0000_0000
  {
  }

  lemma ToUint32Inverts(i: int32)
    ensures ToInt32(ToUint32(i)) == i
  {
  }

  /** The descriptor number of a `unique_fd` that owns nothing. */
  const INVALID_FD: int := -1

  lemma Regroup<T>(a: seq<T>, b: seq<T>, c: seq<T>)
    ensures a + b + c == a + (b + c)
  {
  }

  lemma Behind<T>(a: seq<T>, b: seq<T>)
    ensures (a + b)[..|a|] == a && (a + b)[|a|..] == b
  {
  }

  lemma DropThen<T>(s: seq<T>, i: nat, j: nat)
    requires i + j <= |s|
    ensures s[i..][j..] == s[i + j..] && s[i..][..j] == s[i..i + j]
  {
  }

  lemma SplitAt<T>(s: seq<T>, p: nat)
    requires p < |s|
    ensures s == s[..p] + [s[p]] + s[p + 1..]
  {
  }

  lemma ConsTail<T>(a: seq<T>, b: seq<T>)
    requires a != []
    ensures [a[0]] + (a[1..] + b) == a + b
  {
  }
}

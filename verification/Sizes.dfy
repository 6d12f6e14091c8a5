/** Size arithmetic of CreateVolume on 64-bit signed integers. */
module Sizes {
  import opened Strings

  const MIB: int := 0x10_0000
  const GIB: int := 0x4000_0000
  const MIN_INT64: int := -0x8000_0000_0000_0000

  predicate IsInt64(n: int) {
    MIN_INT64 <= n <= MAX_INT64
  }

  /** Two's complement wrap-around of an int64 result. */
  function Wrap(n: int): (w: int)
    ensures IsInt64(w)
    ensures IsInt64(n) ==> w == n
  {
    var m := (n - MIN_INT64) % 0x1_0000_0000_0000_0000;
    m + MIN_INT64
  }

  /** Go's integer division truncates toward zero. */
  function Quo(a: int, b: int): int
    requires b > 0
  {
    if a >= 0 then a / b else -((-a) / b)
  }

  function ToMiB(bytes: int): int {
    Quo(Wrap(Wrap(bytes + MIB) - 1), MIB)
  }

  /** The capacity CreateVolume reports for a requested size; no size means one GiB. */
  function Capacity(requested: int): int {
    var size := if requested == 0 then GIB else requested;
    Wrap(Wrap(ToMiB(size) * 1024) * 1024)
  }

  /** `c` is the least multiple of one MiB that is not below `b`. */
  ghost predicate LeastMultipleAbove(c: int, b: int) {
    && c % MIB == 0
    && b <= c
    && forall m | m % MIB == 0 && b <= m :: c <= m
  }

  lemma RoundUp(b: int)
    requires b >= 0
    ensures LeastMultipleAbove((b + MIB - 1) / MIB * MIB, b)
  {
    var q := (b + MIB - 1) / MIB;
    assert b <= q * MIB < b + MIB;
    forall m | m % MIB == 0 && b <= m ensures q * MIB <= m {
      var k := m / MIB;
      assert m == k * MIB;
      assert q - 1 < k;
    }
  }

  /**
   * For every size a caller may ask for, the reported capacity is the least whole number of MiB that
   * holds the request exactly when the request is at most 2^63 - 2^20; beyond that the sum wraps and the
   * capacity turns out negative or zero.
   */
  lemma CapacityExact(requested: int)
    requires 0 < requested <= MAX_INT64
    ensures LeastMultipleAbove(Capacity(requested), requested) <==> requested <= MAX_INT64 + 1 - MIB
    ensures requested <= MAX_INT64 + 1 - MIB ==> requested <= Capacity(requested) < requested + MIB
    ensures requested > MAX_INT64 + 1 - MIB ==> Capacity(requested) <= 0
  {
    var b := requested;
    if b <= MAX_INT64 + 1 - MIB {
      var q := (b + MIB - 1) / MIB;
      RoundUp(b);
      assert b <= q * MIB < b + MIB;
      assert Wrap(Wrap(b + MIB) - 1) == b + MIB - 1;
      assert ToMiB(b) == q;
      assert q * MIB <= MAX_INT64 + 1 - MIB;
      assert q * 1024 * 1024 == q * MIB;
      assert IsInt64(q * 1024);
    } else {
      var n := b + MIB - 1 - 0x1_0000_0000_0000_0000;
      assert Wrap(Wrap(b + MIB) - 1) == n < 0;
      var q := (-n) / MIB;
      assert ToMiB(b) == -q && 0 <= q <= (-MIN_INT64) / MIB;
      assert IsInt64(-q * 1024) && IsInt64(-q * 1024 * 1024);
      assert Capacity(b) == -q * 1024 * 1024;
    }
  }

  lemma DefaultCapacity()
    ensures Capacity(0) == GIB == Capacity(GIB)
  {
    assert ToMiB(GIB) == 1024;
  }
}

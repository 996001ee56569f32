/**
 pkg/bufferpool: how many buffers fit the memory limit. Integers are 64 bits wide and wrap around;
 the quotient goes through a 64-bit float, which keeps 53 significant bits.
 */
module Sizing {
  import opened Pipeline

  const TWO_53 := 0x20_0000_0000_0000
  const TWO_63 := 0x8000_0000_0000_0000
  const TWO_64 := 0x1_0000_0000_0000_0000
  const MEGABYTE := 0x10_0000

  ghost predicate Int64(x: int) {
    -TWO_63 <= x < TWO_63
  }

  /** The 64-bit integer that an overflowing result wraps around to. */
  function Wrap(x: int): (w: int)
    ensures Int64(w)
    ensures Int64(x) ==> w == x
    ensures x >= TWO_63 ==> w < 0 || w + TWO_64 <= x
  {
    (x + TWO_63) % TWO_64 - TWO_63
  }

  /** Division that truncates toward zero. */
  function Quotient(x: int, d: int): int
    requires d > 0
  {
    if x >= 0 then x / d else -(-x / d)
  }

  /** The distance between neighbouring floats around q. */
  function Spacing(q: nat): (u: nat)
    ensures u >= 1 && q < TWO_53 * u
    ensures q < TWO_53 ==> u == 1
    ensures q >= TWO_53 ==> TWO_53 * u <= 2 * q
  {
    if q < TWO_53 then 1 else 2 * Spacing(q / 2)
  }

  /** The whole float nearest to q, and the one with an even significand when q is halfway. */
  function Nearest(q: nat): (f: nat)
    ensures q - Spacing(q) <= 2 * f - q <= q + Spacing(q)
    ensures f == q <==> q % Spacing(q) == 0
  {
    var u := Spacing(q);
    var low, rest := q - q % u, q % u;
    if 2 * rest < u || (2 * rest == u && q / u % 2 == 0) then low else low + u
  }

  /** int(math.Floor(float64(q))); CountIsInt64 shows that the float is in range. */
  function ThroughFloat(q: int): int {
    if q >= 0 then Nearest(q) else 0 - Nearest(-q)
  }

  datatype SizingError = NoBufferSize | NoLimit

  datatype Count = Buffers(count: int) | Failed(error: SizingError)

  function GetPoolBufferCount(bufferPoolLimitMB: int, receiveBufferSize: int): (r: Count)
    ensures r.Failed? <==> bufferPoolLimitMB <= 0 || receiveBufferSize <= 0
    ensures r.Failed? ==> (r.error.NoBufferSize? <==> receiveBufferSize <= 0)
  {
    if receiveBufferSize <= 0 then Failed(NoBufferSize)
    else if bufferPoolLimitMB <= 0 then Failed(NoLimit)
    else
      var processLimitBytes := Wrap(Wrap(bufferPoolLimitMB * 1024) * 1024);
      Buffers(ThroughFloat(Quotient(processLimitBytes, receiveBufferSize)))
  }

  /** As many buffers of this size as the limit has room for. */
  ghost predicate FillsLimit(count: int, size: int, limitMB: int) {
    count * size <= limitMB * MEGABYTE < (count + 1) * size
  }

  lemma WrapTwice(x: int)
    ensures Wrap(Wrap(x * 1024) * 1024) == Wrap(x * MEGABYTE)
  {
    var w := Wrap(x * 1024);
    var k := (x * 1024 + TWO_63) / TWO_64;
    assert w == x * 1024 - k * TWO_64;
    assert w * 1024 + TWO_63 == x * MEGABYTE + TWO_63 - (k * 1024) * TWO_64;
    ModShift(x * MEGABYTE + TWO_63, k * 1024);
  }

  lemma ModShift(x: int, k: int)
    ensures (x - k * TWO_64) % TWO_64 == x % TWO_64
  {
    var q, r := x / TWO_64, x % TWO_64;
    assert x - k * TWO_64 == (q - k) * TWO_64 + r;
  }

  lemma Scale(a: int, b: int, d: nat)
    requires a <= b
    ensures a * d <= b * d
  {
    assert (b - a) * d >= 0;
  }

  /** How many sizes d fit x. */
  ghost function Fit(x: nat, d: nat): (q: nat)
    requires d > 0
    ensures q == x / d && q * d <= x < q * d + d
  {
    x / d
  }

  lemma FitIsUnique(x: nat, d: nat, b: int)
    requires d > 0
    ensures b * d <= x < (b + 1) * d <==> b == Fit(x, d)
  {
    var q := Fit(x, d);
    assert (b + 1) * d == b * d + d && (q + 1) * d == q * d + d;
    if b < q {
      Scale(b + 1, q, d);
    } else if b > q {
      Scale(q + 1, b, d);
    }
  }

  /** Halfway between the floats m * u and (m + 1) * u, the one with the even significand is taken. */
  lemma TiesGoToEven(q: nat, m: nat, u: nat)
    requires u == Spacing(q) && 2 * (q - m * u) == u
    ensures Nearest(q) == if m % 2 == 0 then m * u else (m + 1) * u
  {
    assert (m + 1) * u == m * u + u;
    FitIsUnique(q, u, m);
    QuotientAndRest(q, u);
  }

  lemma QuotientAndRest(x: nat, d: nat)
    requires d > 0
    ensures x == Fit(x, d) * d + x % d
  {
  }

  /** Rounding adds little. */
  lemma NearestIsNear(q: nat, d: nat)
    ensures TWO_53 * ((Nearest(q) - q) * d) <= q * d
  {
    var e := Nearest(q) - q;
    assert TWO_53 * e <= q;
    Scale(TWO_53 * e, q, d);
    assert TWO_53 * e * d == TWO_53 * (e * d);
  }

  /** Rounding does not bridge a wide gap. */
  lemma RoundedIsShort(q: nat, fit: nat, d: nat)
    requires q * d < TWO_63 && q * d + TWO_63 < fit * d
    ensures Nearest(q) < fit
  {
    var n := Nearest(q);
    NearestIsNear(q, d);
    assert n * d == q * d + (n - q) * d;
    if n >= fit {
      Scale(fit, n, d);
    }
  }

  /** A dividend that has wrapped around gives too small a quotient, rounded or not. */
  lemma WrappedQuotientIsShort(x: nat, w: int, d: nat)
    requires x >= TWO_63 && (w < 0 || (w < TWO_63 && w + TWO_64 <= x)) && 0 < d < TWO_63
    ensures ThroughFloat(Quotient(w, d)) < Fit(x, d)
  {
    var fit := Fit(x, d);
    if w < 0 {
      var q: int := Fit(-w, d);
      assert Quotient(w, d) == -q;
      assert fit > 0;
    } else {
      RoundedIsShort(Fit(w, d), fit, d);
    }
  }

  ghost function PowerOfTwo(n: nat): (p: nat)
    ensures p >= 1
  {
    if n == 0 then 1 else 2 * PowerOfTwo(n - 1)
  }

  /** The spacing is the power of two that puts the significand between 2^52 and 2^53. */
  lemma {:induction false} SpacingIs(q: nat, n: nat)
    requires TWO_53 * PowerOfTwo(n) <= 2 * q < 2 * TWO_53 * PowerOfTwo(n)
    ensures Spacing(q) == PowerOfTwo(n)
  {
    if n > 0 {
      var half := q / 2;
      assert q >= TWO_53 && 2 * half <= q <= 2 * half + 1;
      SpacingIs(half, n - 1);
    }
  }

  lemma LargestIsExact()
    ensures Nearest(TWO_63) == TWO_63
  {
    var p := PowerOfTwo(11);
    assert p == 2048;
    SpacingIs(TWO_63, 11);
  }

  lemma NearestInRange(q: nat)
    requires q <= TWO_63 - MEGABYTE
    ensures Nearest(q) < TWO_63
  {
    var u := Spacing(q);
    assert 2 * Nearest(q) <= 2 * q + u;
  }

  lemma FitIsLess(x: nat, d: nat)
    requires d > 0
    ensures Fit(x, d) <= x && (d > 1 ==> 2 * Fit(x, d) <= x)
  {
    Scale(1, d, Fit(x, d));
    if d > 1 {
      Scale(2, d, Fit(x, d));
    }
  }

  /** The quotient of so many bytes stays in range when it is rounded. */
  lemma RoundedFitIsInt64(x: nat, d: nat)
    requires d > 0 && (x <= TWO_63 - MEGABYTE || x == TWO_63)
    ensures Nearest(Fit(x, d)) <= TWO_63 && (x != TWO_63 ==> Nearest(Fit(x, d)) < TWO_63)
  {
    FitIsLess(x, d);
    if x == TWO_63 && d == 1 {
      FitIsUnique(x, 1, x);
      LargestIsExact();
    } else {
      NearestInRange(Fit(x, d));
    }
  }

  /** A limit that wraps around wraps to whole megabytes. */
  lemma WrapKeepsMegabytes(limitMB: int) returns (rest: int)
    ensures Wrap(limitMB * MEGABYTE) == rest * MEGABYTE
  {
    var x := limitMB * MEGABYTE;
    var k := (x + TWO_63) / TWO_64;
    rest := limitMB - k * (TWO_64 / MEGABYTE);
  }

  lemma SmallIsExact(q: nat)
    requires q < TWO_53
    ensures Nearest(q) == q
  {
  }

  lemma CountIsInt64(limitMB: nat, size: nat)
    requires 0 < limitMB && 0 < size
    ensures var r := GetPoolBufferCount(limitMB, size); r.Buffers? && Int64(r.count)
  {
    var rest := WrapKeepsMegabytes(limitMB);
    CountOf(limitMB, size);
    QuotientIsInt64(rest, size);
  }

  lemma MegabytesInRange(limitMB: int)
    requires Int64(limitMB * MEGABYTE)
    ensures limitMB * MEGABYTE <= TWO_63 - MEGABYTE
    ensures limitMB * MEGABYTE == -TWO_63 || -limitMB * MEGABYTE <= TWO_63 - MEGABYTE
  {
    assert limitMB <= 0x7FF_FFFF_FFFF && -limitMB <= 0x800_0000_0000;
  }

  lemma QuotientIsInt64(limitMB: int, size: nat)
    requires 0 < size && Int64(limitMB * MEGABYTE)
    ensures Int64(ThroughFloat(Quotient(limitMB * MEGABYTE, size)))
  {
    MegabytesInRange(limitMB);
    TruncatedIsInt64(limitMB * MEGABYTE, size);
  }

  lemma TruncatedIsInt64(w: int, size: nat)
    requires 0 < size && w <= TWO_63 - MEGABYTE && (w == -TWO_63 || -w <= TWO_63 - MEGABYTE)
    ensures Int64(ThroughFloat(Quotient(w, size)))
  {
    if w >= 0 {
      RoundedFitIsInt64(w, size);
    } else {
      RoundedFitIsInt64(-w, size);
    }
  }

  lemma CountOf(limitMB: nat, size: nat)
    requires 0 < limitMB && 0 < size
    ensures GetPoolBufferCount(limitMB, size) == Buffers(ThroughFloat(Quotient(Wrap(limitMB * MEGABYTE), size)))
    ensures limitMB * MEGABYTE < TWO_63 ==>
      GetPoolBufferCount(limitMB, size) == Buffers(Nearest(Fit(limitMB * MEGABYTE, size)))
  {
    WrapTwice(limitMB);
  }

  /**
   The count fills the limit exactly when the limit in bytes does not overflow, and the number of
   buffers that fit is one a float can hold: a multiple of the spacing, so any number below 2^53.
   */
  lemma CountFillsLimitExactlyIf(limitMB: nat, size: nat)
    requires 0 < limitMB && Int64(limitMB) && 0 < size && Int64(size)
    ensures var r, fit := GetPoolBufferCount(limitMB, size), Fit(limitMB * MEGABYTE, size);
      && r.Buffers?
      && (FillsLimit(r.count, size, limitMB) <==> limitMB * MEGABYTE < TWO_63 && fit % Spacing(fit) == 0)
  {
    var x := limitMB * MEGABYTE;
    var count := GetPoolBufferCount(limitMB, size).count;
    CountOf(limitMB, size);
    FitIsUnique(x, size, count);
    if x >= TWO_63 {
      WrappedQuotientIsShort(x, Wrap(x), size);
    }
  }

  /** A limit of 2^43 MB overflows, and gives a negative count. */
  lemma OverflowingLimit()
    ensures GetPoolBufferCount(0x800_0000_0000, 64 * 1024) == Buffers(-0x8000_0000_0000)
  {
    CountOf(0x800_0000_0000, 64 * 1024);
    OverflowingQuotient();
  }

  lemma OverflowingQuotient()
    ensures ThroughFloat(Quotient(-TWO_63, 64 * 1024)) == -0x8000_0000_0000
  {
    NegativeQuotient(TWO_63, 64 * 1024, 0x8000_0000_0000);
  }

  lemma NegativeQuotient(x: nat, d: nat, q: nat)
    requires 0 < q < TWO_53 && 0 < d && q * d <= x < (q + 1) * d
    ensures ThroughFloat(Quotient(0 - x, d)) == 0 - q
  {
    FitIsUnique(x, d, q);
    SmallIsExact(q);
  }

  /** A limit of one megabyte less, with buffers of 3 bytes, is rounded up to more than fit. */
  lemma RoundedUpLimit()
    ensures GetPoolBufferCount(0x7FF_FFFF_FFFF, 3) == Buffers(0x2AAA_AAAA_AAA5_5600)
    ensures 0x2AAA_AAAA_AAA5_5600 * 3 > 0x7FF_FFFF_FFFF * MEGABYTE
  {
    CountOf(0x7FF_FFFF_FFFF, 3);
    RoundsUp();
  }

  lemma RoundsUp()
    ensures Nearest(0x2AAA_AAAA_AAA5_5555) == 0x2AAA_AAAA_AAA5_5600
  {
    assert PowerOfTwo(9) == 512;
    SpacingIs(0x2AAA_AAAA_AAA5_5555, 9);
  }

  /** A count that fills the limit and is below 2^53 is the one returned. */
  lemma FillingCountIsReturned(limitMB: nat, size: nat, count: nat)
    requires 0 < limitMB && limitMB * MEGABYTE < TWO_63 && 0 < size && count < TWO_53
    requires FillsLimit(count, size, limitMB)
    ensures GetPoolBufferCount(limitMB, size) == Buffers(count)
  {
    FitIsUnique(limitMB * MEGABYTE, size, count);
    SmallIsExact(count);
    CountOf(limitMB, size);
  }

  /** With buffers of 64 KB and any limit the daemon accepts, there are 16 a megabyte, and no fewer than 48. */
  lemma DefaultBufferSize(limitMB: nat)
    requires 3 <= limitMB < TWO_63 / MEGABYTE
    ensures GetPoolBufferCount(limitMB, 64 * 1024) == Buffers(16 * limitMB) && 16 * limitMB >= 48
  {
    FillingCountIsReturned(limitMB, 64 * 1024, 16 * limitMB);
  }

  lemma NearestOfNone(q: nat)
    ensures Nearest(q) == 0 <==> q == 0
  {
    if q < TWO_53 {
      SmallIsExact(q);
    }
  }

  lemma SomeFit(x: nat, d: nat)
    requires d > 0
    ensures Fit(x, d) == 0 <==> x < d
  {
    FitIsUnique(x, d, 0);
  }

  /**
   What initDaemon wires with the count: it has buffers to work with exactly when one fits, a batch
   needs no more than there are, and the ring has a place for each.
   */
  lemma CountWires(c: Config, limitMB: nat)
    requires 0 < limitMB && limitMB * MEGABYTE < TWO_63 && GetPoolBufferCount(limitMB, c.bufferSize) == Buffers(c.buffers)
    requires c.batchLimit > 0 && c.queueCapacity > 0
    ensures c.Wired() <==> c.bufferSize <= limitMB * MEGABYTE
    ensures c.Wired() ==> 1 <= c.BatchSize() <= c.buffers <= c.RingCapacity()
  {
    CountOf(limitMB, c.bufferSize);
    SomeFit(limitMB * MEGABYTE, c.bufferSize);
    NearestOfNone(Fit(limitMB * MEGABYTE, c.bufferSize));
  }
}

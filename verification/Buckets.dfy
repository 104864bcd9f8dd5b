/** Bucket boundaries: the Euclidean `bucket_start` used for cutoffs, and the truncating division
    SQLite applies inside the rollup's GROUP BY. */
module Buckets {
  /** Dafny's `/` is Euclidean, as `div_euclid` is. */
  function BucketStart(ts: int, width: int): (b: int)
    requires width > 0
    ensures b <= ts < b + width && b % width == 0
  {
    MultipleMod(ts / width, width);
    ts / width * width
  }

  /** SQLite's integer division rounds toward zero. */
  function TruncDiv(a: int, width: int): int
    requires width > 0
  {
    if a >= 0 then a / width else -(-a / width)
  }

  function SqlBucket(ts: int, width: int): int
    requires width > 0
  {
    TruncDiv(ts, width) * width
  }

  lemma MultipleSize(d: int, width: int)
    requires width > 0
    ensures d >= 1 ==> d * width >= width
    ensures d <= -1 ==> d * width <= -width
  {
  }

  lemma MultipleMod(q: int, width: int)
    requires width > 0
    ensures q * width % width == 0
  {
    var r := q * width;
    assert r == r / width * width + r % width;
    var d := q - r / width;
    assert d * width == r % width;
    MultipleSize(d, width);
  }

  /** A bucket start is the only aligned number whose bucket holds the timestamp. */
  lemma AlignedIsBucketStart(b: int, ts: int, width: int)
    requires width > 0 && b % width == 0 && b <= ts < b + width
    ensures BucketStart(ts, width) == b
  {
    var c := BucketStart(ts, width);
    var p, q := b / width, c / width;
    assert b == p * width && c == q * width;
    var d := q - p;
    assert c - b == d * width;
    MultipleSize(d, width);
  }

  /** Two aligned numbers are equal or at least one bucket apart. */
  lemma AlignedGap(a: int, b: int, width: int)
    requires width > 0 && a % width == 0 && b % width == 0 && a < b
    ensures a + width <= b
  {
    if b < a + width {
      AlignedIsBucketStart(a, b, width);
      AlignedIsBucketStart(b, b, width);
    }
  }

  /** The grouping SQL computes is the bucket function exactly on the timestamps that are not
      negative, or sit on a boundary. */
  lemma SqlBucketAgrees(ts: int, width: int)
    requires width > 0
    ensures SqlBucket(ts, width) == BucketStart(ts, width) <==> ts >= 0 || ts % width == 0
  {
    if ts < 0 {
      var m := -ts;
      var b := BucketStart(m, width);
      assert SqlBucket(ts, width) == -b by {
        assert SqlBucket(ts, width) == -(m / width) * width;
        assert b == m / width * width;
      }
      var c := BucketStart(ts, width);
      if b == m {
        assert SqlBucket(ts, width) == ts;
        MultipleMod(-(m / width), width);
        AlignedIsBucketStart(ts, ts, width);
      } else {
        assert -b > ts >= c;
        if ts % width == 0 {
          MultipleMod(-(ts / width), width);
          assert m == -(ts / width) * width;
          AlignedIsBucketStart(m, m, width);
        }
      }
    }
  }

  /** Rounding down to a multiple of the width never lands above rounding down to a divisor of it. */
  lemma CoarserStartsEarlier(now: int, fine: int, ratio: int)
    requires fine > 0 && ratio > 0
    ensures fine * ratio > 0
    ensures BucketStart(now, fine * ratio) <= BucketStart(now, fine)
  {
    var coarse := fine * ratio;
    assert coarse > 0;
    var b := BucketStart(now, coarse);
    var c := BucketStart(now, fine);
    assert b == now / coarse * coarse == (now / coarse * ratio) * fine;
    MultipleMod(now / coarse * ratio, fine);
    if c < b {
      AlignedGap(c, b, fine);
    }
  }
}

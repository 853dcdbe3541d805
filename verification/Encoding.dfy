/** The billed ("encoded") size of a Walrus blob. */
module Encoding {
  const DEFAULT_NSHARDS: int := 1000
  const STORAGE_UNIT_BYTES: int := 0x10_0000
  const INT64_LIMIT: int := 0x8000_0000_0000_0000

  function Shards(nShards: int): int { if nShards <= 0 then DEFAULT_NSHARDS else nShards }

  function MaxFaulty(n: int): int { (n - 1) / 3 }
  function Primary(n: int): int { n - MaxFaulty(n) - MaxFaulty(n) }
  function Secondary(n: int): int { n - MaxFaulty(n) }

  /** Bytes per symbol for a blob of u bytes cut into m symbols; RS2 wants it even. */
  function SymbolSize(u: int, m: int): int
    requires m > 0
  {
    var s := ((if u < 1 then 1 else u) - 1) / m + 1;
    if s % 2 == 1 then s + 1 else s
  }

  function Metadata(n: int): int { n * (n * 32 * 2 + 32) }

  function EncodedBlobLength(unencodedLength: int, nShards: int): int {
    var n := Shards(nShards);
    if Primary(n) <= 0 || Secondary(n) <= 0 then 0
    else Metadata(n) + (Primary(n) + Secondary(n)) * SymbolSize(unencodedLength, Primary(n) * Secondary(n)) * n
  }

  function EncodedStorageUnits(encodedSize: int): int {
    if encodedSize <= 0 then 0 else (encodedSize + STORAGE_UNIT_BYTES - 1) / STORAGE_UNIT_BYTES
  }

  function EncodedSize(reported: int, unencoded: int, nShards: int): int {
    if reported > 0 then reported else EncodedBlobLength(unencoded, nShards)
  }

  /** The guard against an empty code never fires. */
  lemma CodeIsNeverEmpty(nShards: int)
    ensures Primary(Shards(nShards)) >= 1 && Secondary(Shards(nShards)) >= 1
    ensures Primary(Shards(nShards)) * Secondary(Shards(nShards)) >= 1
  {
    MulAtLeast(Primary(Shards(nShards)), 1, Secondary(Shards(nShards)), 1);
  }

  lemma MulAtLeast(a: int, a': int, b: int, b': int)
    requires a >= a' >= 0 && b >= b' >= 0
    ensures a * b >= a' * b'
  {
    assert a * b - a' * b' == a * (b - b') + (a - a') * b';
  }

  lemma SmallerProduct(a: int, b: int, m: int)
    requires a <= b && m > 0
    ensures a * m <= b * m
  {
    MulAtLeast(b - a, 0, m, 0);
    assert b * m - a * m == (b - a) * m;
  }

  lemma OneMoreShare(x: int, n: int, y: int, cap: int)
    requires x <= n * cap && y <= cap
    ensures x + y <= (n + 1) * cap
  {
    assert (n + 1) * cap == n * cap + cap;
  }

  lemma DivBounds(a: int, m: int)
    requires m > 0
    ensures (a / m) * m <= a < (a / m) * m + m
  {
  }

  /** The symbol size is the least even number of bytes whose m-fold holds the blob. */
  lemma SymbolSizeIsLeastEven(u: int, m: int, t: int)
    requires m > 0 && u >= 1
    ensures SymbolSize(u, m) % 2 == 0 && SymbolSize(u, m) >= 2
    ensures u <= SymbolSize(u, m) * m
    ensures t % 2 == 0 && u <= t * m ==> SymbolSize(u, m) <= t
  {
    var q := (u - 1) / m;
    DivBounds(u - 1, m);
    assert (q + 1) * m == q * m + m;
    MulAtLeast(SymbolSize(u, m), q + 1, m, m);
    if t <= q { SmallerProduct(t, q, m); }
  }

  lemma SymbolSizeMonotone(u: int, v: int, m: int)
    requires m > 0 && u <= v
    ensures SymbolSize(u, m) <= SymbolSize(v, m)
  {
    var u1, v1 := if u < 1 then 1 else u, if v < 1 then 1 else v;
    SymbolSizeIsLeastEven(v1, m, 0);
    SymbolSizeIsLeastEven(u1, m, SymbolSize(v1, m));
  }

  lemma LeastEvenOfSum(u: int, v: int, m: int, s: int, t: int)
    requires m > 0 && u >= 1 && v >= 1
    requires s % 2 == 0 && t % 2 == 0 && u <= s * m && v <= t * m
    ensures SymbolSize(u + v, m) <= s + t
  {
    SumTimes(s, t, m);
    LeastEvenBelow(u + v, m, s + t, s * m + t * m);
  }

  lemma LeastEvenBelow(u: int, m: int, t: int, tm: int)
    requires m > 0 && u >= 1 && t % 2 == 0 && t * m == tm && u <= tm
    ensures SymbolSize(u, m) <= t
  {
    SymbolSizeIsLeastEven(u, m, t);
  }

  lemma SumTimes(s: int, t: int, m: int)
    ensures (s + t) * m == s * m + t * m
  {
  }

  lemma SymbolSizeSubadditive(u: nat, v: nat, m: int)
    requires m > 0
    ensures SymbolSize(u + v, m) <= SymbolSize(u, m) + SymbolSize(v, m)
  {
    var u1, v1 := if u < 1 then 1 else u, if v < 1 then 1 else v;
    SymbolSizeMonotone(u + v, u1 + v1, m);
    SymbolSizeIsLeastEven(u1, m, 0);
    SymbolSizeIsLeastEven(v1, m, 0);
    LeastEvenOfSum(u1, v1, m, SymbolSize(u1, m), SymbolSize(v1, m));
  }

  function SliverSize(u: int, n: int): int
    requires Primary(n) * Secondary(n) > 0
  {
    (Primary(n) + Secondary(n)) * SymbolSize(u, Primary(n) * Secondary(n)) * n
  }

  lemma SliversScale(n: int, a: int, b: int)
    requires n >= 1 && a <= b
    ensures (Primary(n) + Secondary(n)) * a * n <= (Primary(n) + Secondary(n)) * b * n
  {
    var c := Primary(n) + Secondary(n);
    assert c * b * n - c * a * n == (c * n) * (b - a);
    MulAtLeast(c, 0, n, 0);
    MulAtLeast(c * n, 0, b - a, 0);
  }

  lemma EncodedBlobLengthMonotone(u: int, v: int, nShards: int)
    requires u <= v
    ensures EncodedBlobLength(u, nShards) <= EncodedBlobLength(v, nShards)
  {
    CodeIsNeverEmpty(nShards);
    var n := Shards(nShards);
    SymbolSizeMonotone(u, v, Primary(n) * Secondary(n));
    SliversScale(n, SymbolSize(u, Primary(n) * Secondary(n)), SymbolSize(v, Primary(n) * Secondary(n)));
  }

  function Sum(lengths: seq<nat>): nat {
    if lengths == [] then 0 else Sum(lengths[..|lengths| - 1]) + lengths[|lengths| - 1]
  }

  function EncodedSum(lengths: seq<nat>, nShards: int): int {
    if lengths == [] then 0
    else EncodedSum(lengths[..|lengths| - 1], nShards) + EncodedBlobLength(lengths[|lengths| - 1], nShards)
  }

  lemma Distribute(c: int, a: int, b: int, n: int)
    ensures c * (a + b) * n == c * a * n + c * b * n
  {
    assert c * (a + b) == c * a + c * b;
    assert (c * a + c * b) * n == c * a * n + c * b * n;
  }

  lemma EncodedParts(u: int, nShards: int) returns (metadata: int, slivers: int)
    ensures metadata == Metadata(Shards(nShards))
    ensures Primary(Shards(nShards)) * Secondary(Shards(nShards)) > 0
    ensures slivers == SliverSize(u, Shards(nShards))
    ensures EncodedBlobLength(u, nShards) == metadata + slivers
  {
    CodeIsNeverEmpty(nShards);
    metadata, slivers := Metadata(Shards(nShards)), SliverSize(u, Shards(nShards));
  }

  lemma SliversMerge(u: nat, v: nat, n: int)
    requires n >= 1 && Primary(n) * Secondary(n) > 0
    ensures SliverSize(u + v, n) <= SliverSize(u, n) + SliverSize(v, n)
  {
    var m := Primary(n) * Secondary(n);
    SymbolSizeSubadditive(u, v, m);
    SliversScale(n, SymbolSize(u + v, m), SymbolSize(u, m) + SymbolSize(v, m));
    Distribute(Primary(n) + Secondary(n), SymbolSize(u, m), SymbolSize(v, m), n);
  }

  /** Two blobs made one save at least one copy of the per-blob metadata. */
  lemma MergingSaves(u: nat, v: nat, nShards: int, metadata: int)
    requires metadata == Metadata(Shards(nShards))
    ensures EncodedBlobLength(u + v, nShards) + metadata
         <= EncodedBlobLength(u, nShards) + EncodedBlobLength(v, nShards)
  {
    var md, a := EncodedParts(u, nShards);
    var md', b := EncodedParts(v, nShards);
    var md'', ab := EncodedParts(u + v, nShards);
    SliversMerge(u, v, Shards(nShards));
  }

  lemma OneMoreSaving(a: int, b: int, n: int, metadata: int)
    requires a + (n - 1) * metadata <= b
    ensures a - metadata + n * metadata <= b
  {
  }

  /** Packing k blocks saves at least k - 1 copies of the per-blob metadata. */
  lemma {:induction false} PackingSaves(lengths: seq<nat>, nShards: int, metadata: int)
    requires lengths != [] && metadata == Metadata(Shards(nShards))
    ensures EncodedBlobLength(Sum(lengths), nShards) + (|lengths| - 1) * metadata <= EncodedSum(lengths, nShards)
  {
    var n := |lengths| - 1;
    if n == 0 {
      assert Sum(lengths[..0]) == 0 && EncodedSum(lengths[..0], nShards) == 0;
    } else {
      PackingSaves(lengths[..n], nShards, metadata);
      MergingSaves(Sum(lengths[..n]), lengths[n], nShards, metadata);
      OneMoreSaving(EncodedBlobLength(Sum(lengths[..n]), nShards), EncodedSum(lengths[..n], nShards), n, metadata);
    }
  }

  lemma Quadratic(f: int, r: int)
    requires f >= 0 && 1 <= r <= 3
    ensures 2 * ((3 * f + 2 * r) * (3 * f + r)) <= 9 * ((f + r) * (2 * f + r))
  {
    var ff, fr, rr := f * f, f * r, r * r;
    assert (3 * f + 2 * r) * (3 * f + r) == 9 * ff + 9 * fr + 2 * rr;
    assert (f + r) * (2 * f + r) == 2 * ff + 3 * fr + rr;
    MulAtLeast(f, 0, r, 0);
    MulAtLeast(r, 0, r, 0);
  }

  lemma CodeRate(n: int)
    requires n >= 1
    ensures 2 * ((Primary(n) + Secondary(n)) * n) <= 9 * (Primary(n) * Secondary(n))
  {
    var f := MaxFaulty(n);
    Quadratic(f, n - 3 * f);
    assert Primary(n) == f + (n - 3 * f) && Secondary(n) == 2 * f + (n - 3 * f);
  }

  lemma PaddingBound(u: int, m: int)
    requires u >= 1 && m > 0
    ensures SymbolSize(u, m) * m <= u - 1 + 2 * m
  {
    var q := (u - 1) / m;
    DivBounds(u - 1, m);
    SmallerProduct(SymbolSize(u, m), q + 2, m);
    assert (q + 2) * m == q * m + 2 * m;
  }

  lemma RateBound(c: int, s: int, n: int, m: int, u: int)
    requires 2 * (c * n) <= 9 * m && 0 <= s && s * m <= u - 1 + 2 * m
    ensures 2 * (c * s * n) <= 9 * (u + 2 * m)
  {
    assert c * s * n == (c * n) * s;
    assert 2 * (c * n) * s <= 9 * m * s by { if s > 0 { SmallerProduct(2 * (c * n), 9 * m, s); } }
    assert 9 * m * s == 9 * (s * m);
  }

  /** The documented expansion: four and a half times the data, up to two symbols' padding. */
  lemma ExpansionBound(u: int, nShards: int, n: int, m: int)
    requires u >= 1 && n == Shards(nShards) && m == Primary(n) * Secondary(n)
    ensures m >= 1 && 2 * (EncodedBlobLength(u, nShards) - Metadata(n)) <= 9 * (u + 2 * m)
  {
    CodeIsNeverEmpty(nShards);
    var metadata, slivers := EncodedParts(u, nShards);
    PaddingBound(u, m);
    SymbolSizeIsLeastEven(u, m, 0);
    CodeRate(n);
    RateBound(Primary(n) + Secondary(n), SymbolSize(u, m), n, m, u);
  }

  lemma ShardBounds(n: int)
    requires 1 <= n <= 0x10_0000
    ensures 1 <= Primary(n) * Secondary(n) <= 0x100_0000_0000
    ensures 0 < Metadata(n) <= 65 * 0x100_0000_0000
  {
    MulAtLeast(Primary(n), 1, Secondary(n), 1);
    MulAtLeast(0x10_0000, Primary(n), 0x10_0000, Secondary(n));
    MulAtLeast(0x10_0000, n, 0x10_0000 * 64 + 32, n * 32 * 2 + 32);
    MulAtLeast(n, 1, n * 32 * 2 + 32, 1);
  }

  /** For blobs up to an exbibyte on up to a million shards the result stays an int64. */
  lemma FitsInt64(u: int, nShards: int)
    requires u <= 0x1000_0000_0000_0000 && nShards <= 0x10_0000
    ensures 0 < EncodedBlobLength(u, nShards) < INT64_LIMIT
  {
    var u1, n := if u < 1 then 1 else u, Shards(nShards);
    ShardBounds(n);
    ExpansionBound(u1, nShards, n, Primary(n) * Secondary(n));
    var metadata, slivers := EncodedParts(u1, nShards);
    SymbolSizeIsLeastEven(u1, Primary(n) * Secondary(n), 0);
    SliversScale(n, 0, SymbolSize(u1, Primary(n) * Secondary(n)));
    assert EncodedBlobLength(u1, nShards) == EncodedBlobLength(u, nShards);
  }

  /** The length from first principles. On n shards of which f, just under a third, may be
      faulty, s is the least even number of bytes such that n - 2f by n - f symbols of that
      size hold the blob. Every shard stores one sliver of either kind, n - 2f and n - f
      symbols long, and metadata of two 32-byte digests per shard and one 32-byte id. */
  lemma LengthByShards(u: int, nShards: int, n: int, f: int, s: int)
    requires n == (if nShards <= 0 then 1000 else nShards) && 3 * f + 1 <= n <= 3 * f + 3
    requires s % 2 == 0 && (s - 2) * ((n - 2 * f) * (n - f)) < (if u < 1 then 1 else u) <= s * ((n - 2 * f) * (n - f))
    ensures EncodedBlobLength(u, nShards) == n * ((n - 2 * f) * s + (n - f) * s + 2 * 32 * n + 32)
  {
    CodeIsNeverEmpty(nShards);
    assert MaxFaulty(n) == f && Primary(n) == n - 2 * f && Secondary(n) == n - f;
    LeastEvenIsUnique(if u < 1 then 1 else u, (n - 2 * f) * (n - f), s);
    ShardShare(n, n - 2 * f, n - f, s);
  }

  lemma LeastEvenIsUnique(u: int, m: int, s: int)
    requires m > 0 && u >= 1 && s % 2 == 0 && (s - 2) * m < u <= s * m
    ensures SymbolSize(u, m) == s
  {
    SymbolSizeIsLeastEven(u, m, s);
    if SymbolSize(u, m) <= s - 2 { SmallerProduct(SymbolSize(u, m), s - 2, m); }
  }

  lemma ShardShare(n: int, p: int, q: int, s: int)
    ensures n * (n * 32 * 2 + 32) + (p + q) * s * n == n * (p * s + q * s + 2 * 32 * n + 32)
  {
    assert (p + q) * s == p * s + q * s;
    assert n * (p * s + q * s + (2 * 32 * n + 32)) == n * (p * s + q * s) + n * (2 * 32 * n + 32);
  }

  /** The size documented for 17 bytes on 1000 shards, which is also the default. */
  lemma DocumentedLength()
    ensures EncodedBlobLength(17, 1000) == EncodedBlobLength(17, 0) == 66_034_000
  {
    LengthByShards(17, 1000, 1000, 333, 2);
    LengthByShards(17, 0, 1000, 333, 2);
  }

  lemma NothingIsFree(encodedSize: int)
    ensures EncodedStorageUnits(encodedSize) >= 0 && (EncodedStorageUnits(encodedSize) == 0 <==> encodedSize <= 0)
  {
  }

  lemma UnitsRoundUp(encodedSize: int)
    requires encodedSize > 0
    ensures (EncodedStorageUnits(encodedSize) - 1) * 1_048_576 < encodedSize
    ensures encodedSize <= EncodedStorageUnits(encodedSize) * 1_048_576
  {
    DivBounds(encodedSize + STORAGE_UNIT_BYTES - 1, STORAGE_UNIT_BYTES);
  }
}

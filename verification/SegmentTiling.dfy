/** How the two downloaders cut [0, n) into segments. */
module SegmentTiling {
  import opened Arithmetic

  const SEGMENT_TARGET_BYTES := 32 * 1024 * 1024
  const MAX_SEGMENTS := 32

  /** min(declared, max(1, n // 32 MiB)), but at least 1. */
  function SegmentCount(declared: int, n: nat): nat {
    Max(1, Min(declared, Max(1, n / SEGMENT_TARGET_BYTES)))
  }

  /** As many segments as declared, if each still gets 32 MiB; else as many as do, and at least one. */
  lemma SegmentCountExactly(declared: int, n: nat)
    ensures var s := SegmentCount(declared, n);
            && s >= 1 && (s > 1 ==> s <= declared && 33554432 * s <= n)
            && (s < declared ==> n < 33554432 * (s + 1))
  {}

  function Start(n: nat, s: nat, i: nat): nat
    requires s > 0
  {
    i * CeilDiv(n, s)
  }

  function End(n: nat, s: nat, i: nat): nat
    requires s > 0
  {
    Min(n, (i + 1) * CeilDiv(n, s))
  }

  lemma MulMonotone(a: nat, b: nat, c: nat)
    requires a <= b
    ensures a * c <= b * c
  {}

  /** The last segment starts inside the file as soon as (s-1)^2 < n. */
  lemma LastStartInside(n: nat, s: nat)
    requires s > 0 && (s - 1) * (s - 1) < n
    ensures Start(n, s, s - 1) < n
  {
    var q := CeilDiv(n, s);
    CeilDivBounds(n, s);
    assert s * ((s - 1) * q) == (s - 1) * (s * q) <= (s - 1) * (n + s - 1) by {
      assert s * ((s - 1) * q) == (s - 1) * (s * q);
      MulMonotone(s * q, n + s - 1, s - 1);
    }
    assert (s - 1) * (n + s - 1) == s * n - n + (s - 1) * (s - 1);
    assert s * ((s - 1) * q) < s * n;
    if (s - 1) * q >= n { MulMonotone(n, (s - 1) * q, s); }
  }

  /** With the declared bound of 32 segments every segment is non-empty and they tile [0, n). */
  lemma SegmentsTile(declared: int, n: nat, i: nat)
    requires n > 0 && declared <= MAX_SEGMENTS && i < SegmentCount(declared, n)
    ensures var s := SegmentCount(declared, n);
            && Start(n, s, i) < End(n, s, i) <= n
            && (if i + 1 < s then End(n, s, i) == Start(n, s, i + 1) else End(n, s, i) == n)
  {
    var s := SegmentCount(declared, n);
    var q := CeilDiv(n, s);
    CeilDivBounds(n, s);
    assert (s - 1) * (s - 1) < n by {
      if s > 1 {
        assert s <= n / SEGMENT_TARGET_BYTES;
        assert s <= 32;
        MulMonotone(s - 1, 31, s - 1);
        assert (s - 1) * (s - 1) <= 31 * 31;
      }
    }
    LastStartInside(n, s);
    MulMonotone(i, s - 1, q);
    if i + 1 < s { MulMonotone(i + 1, s - 1, q); } else { assert s * q >= n; }
    assert (i + 1) * q == i * q + q;
  }

  /** Without the bound a file can be too short for its segment count: 17 segments of a 240-byte file. */
  lemma TooManySegmentsLeaveOneEmpty()
    ensures End(240, 17, 16) <= Start(240, 17, 16)
  {}

  // ---------------------------------------------------------------- the variant with an early break

  datatype Range = Range(first: int, last: int)

  /** Consecutive non-empty ranges from 0 up to `upto`. */
  ghost predicate Tiles(ranges: seq<Range>, upto: int) {
    && (forall k | 0 <= k < |ranges| :: ranges[k].first <= ranges[k].last)
    && (forall k | 0 <= k < |ranges| :: ranges[k].first == if k == 0 then 0 else ranges[k - 1].last + 1)
    && upto == if ranges == [] then 0 else ranges[|ranges| - 1].last + 1
  }

  /** The range of part `i`; empty past the last part. */
  function Planned(requested: int, n: nat, i: nat): Range {
    var size := CeilDiv(n, Max(1, Min(requested, n)));
    Range(i * size, Min(n - 1, (i + 1) * size - 1))
  }

  lemma NothingTiled()
    ensures Tiles([], 0)
  {}

  lemma TilesGrow(ranges: seq<Range>, next: Range)
    requires Tiles(ranges, next.first) && next.first <= next.last
    ensures Tiles(ranges + [next], next.last + 1)
  {}

  lemma NextProduct(index: nat, size: nat)
    ensures (index + 1) * size == index * size + size
  {}

  /** For any requested chunk count the ranges built before the break tile the whole file. */
  method PlanRanges(requested: int, n: nat) returns (ranges: seq<Range>)
    ensures Tiles(ranges, n)
    ensures |ranges| <= Max(1, requested) && forall i | 0 <= i < |ranges| :: ranges[i] == Planned(requested, n, i)
  {
    var chunks := Max(1, Min(requested, n));
    var size := CeilDiv(n, chunks);
    CeilDivBounds(n, chunks);
    hide Tiles, CeilDiv;
    ranges := [];
    NothingTiled();
    var index := 0;
    ghost var covered := 0;
    NextProduct(chunks - 1, size);
    while index < chunks
      invariant 0 <= index <= chunks && |ranges| == index
      invariant covered == Min(n, index * size) && Tiles(ranges, covered)
      invariant forall i | 0 <= i < |ranges| :: ranges[i] == Planned(requested, n, i)
    {
      var first := index * size;
      var last := Min(n - 1, (index + 1) * size - 1);
      NextProduct(index, size);
      if first > last { break; }
      TilesGrow(ranges, Range(first, last));
      ranges := ranges + [Range(first, last)];
      covered := last + 1;
      index := index + 1;
    }
  }
}

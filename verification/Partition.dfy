/** Splitting a Postgres heap into ctid page ranges, and why reading them all reads the table. */
module Partition {
  import opened Relations

  const U32_MAX: nat := 0xFFFF_FFFF

  function SaturatingAdd(a: nat, b: nat): nat {
    if a + b <= U32_MAX then a + b else U32_MAX
  }

  /** The partition count after the cast to 32 bits and the cap at the page count. */
  function EffectivePartitions(pages: nat, partitions: nat): nat {
    var asked := (if partitions == 0 then 1 else partitions) % (U32_MAX + 1);
    if asked < pages then asked else pages
  }

  function RangesFrom(lo: nat, pages: nat, chunk: nat): seq<(nat, nat)>
    requires 0 < chunk && pages <= U32_MAX
    decreases pages - lo
  {
    if pages <= lo then []
    else [(lo, SaturatingAdd(lo, chunk))] + RangesFrom(SaturatingAdd(lo, chunk), pages, chunk)
  }

  function CoverTail(ranges: seq<(nat, nat)>): seq<(nat, nat)> {
    if ranges == [] then []
    else ranges[..|ranges| - 1] + [(ranges[|ranges| - 1].0, U32_MAX)]
  }

  /** The ranges, as a function of the page count and the requested number of partitions. */
  function Ranges(pages: nat, partitions: nat): seq<(nat, nat)>
    requires pages <= U32_MAX
    requires 0 < pages ==> 0 < EffectivePartitions(pages, partitions)
  {
    if pages == 0 then [(0, U32_MAX)]
    else
      var chunk := pages / EffectivePartitions(pages, partitions);
      ChunkPositive(pages, EffectivePartitions(pages, partitions));
      CoverTail(RangesFrom(0, pages, chunk))
  }

  lemma {:induction false} ChunkPositive(pages: nat, p: nat)
    requires 0 < p <= pages
    ensures 0 < pages / p
    ensures p * (pages / p) <= pages < p * (pages / p) + p
  {
    var chunk := pages / p;
    assert pages == p * chunk + pages % p;
  }

  /** Nonempty half-open ranges that start at page 0, abut, and end at the largest page. */
  ghost predicate Tiles(ranges: seq<(nat, nat)>) {
    && ranges != []
    && ranges[0].0 == 0
    && ranges[|ranges| - 1].1 == U32_MAX
    && (forall i :: 0 <= i < |ranges| ==> ranges[i].0 < ranges[i].1)
    && (forall i :: 0 < i < |ranges| ==> ranges[i - 1].1 == ranges[i].0)
  }

  /** Split the pages into ranges; the last one reaches past pages added since the last count. */
  method CtidRanges(pages: nat, partitions: nat) returns (ranges: seq<(nat, nat)>)
    requires pages <= U32_MAX
    requires 0 < pages ==> 0 < EffectivePartitions(pages, partitions)
    ensures ranges == Ranges(pages, partitions)
    ensures Tiles(ranges)
    ensures pages == 0 ==> ranges == [(0, 0xFFFF_FFFF)]
    ensures 0 < pages ==>
              EffectivePartitions(pages, partitions) <= |ranges| <= 2 * EffectivePartitions(pages, partitions) - 1
  {
    if pages == 0 {
      return [(0, U32_MAX)];
    }
    var p := EffectivePartitions(pages, partitions);
    ChunkPositive(pages, p);
    var chunk := if pages / p == 0 then 1 else pages / p;
    ranges := [];
    var lo := 0;
    while lo < pages
      invariant ranges + RangesFrom(lo, pages, chunk) == RangesFrom(0, pages, chunk)
    {
      var hi := SaturatingAdd(lo, chunk);
      assert (ranges + [(lo, hi)]) + RangesFrom(hi, pages, chunk) ==
        ranges + ([(lo, hi)] + RangesFrom(hi, pages, chunk));
      ranges := ranges + [(lo, hi)];
      lo := hi;
    }
    assert ranges == RangesFrom(0, pages, chunk) by {
      assert RangesFrom(lo, pages, chunk) == [];
    }
    RangesFromCount(0, pages, chunk);
    RangeCount(pages, p, chunk, |ranges|);
    ranges := ranges[|ranges| - 1 := (ranges[|ranges| - 1].0, U32_MAX)];
    assert ranges == Ranges(pages, partitions);
    RangesTile(pages, partitions);
  }

  /** Every range but the last is a whole chunk. */
  lemma {:induction false} RangesFromCount(lo: nat, pages: nat, chunk: nat)
    requires 0 < chunk && lo < pages <= U32_MAX
    ensures var count := |RangesFrom(lo, pages, chunk)|;
            0 < count && (count - 1) * chunk < pages - lo <= count * chunk
    decreases pages - lo
  {
    if lo + chunk < pages {
      RangesFromCount(lo + chunk, pages, chunk);
      var rest := |RangesFrom(lo + chunk, pages, chunk)|;
      StepProduct(rest - 1, chunk);
      StepProduct(rest, chunk);
    } else {
      assert RangesFrom(SaturatingAdd(lo, chunk), pages, chunk) == [];
    }
  }

  /** Chunks of the floored size number at least the partitions, and fewer than twice as many. */
  lemma {:induction false} RangeCount(pages: nat, p: nat, chunk: nat, count: nat)
    requires 0 < p <= pages && chunk == pages / p && 0 < count
    requires (count - 1) * chunk < pages <= count * chunk
    ensures p <= count <= 2 * p - 1
  {
    ChunkPositive(pages, p);
    if count < p {
      StepProduct(p - 1, chunk);
      ProductGrows(count, p - 1, chunk);
    }
    if 2 * p <= count {
      ProductGrows(2 * p - 1, count - 1, chunk);
      assert (2 * p - 1) * chunk == p * chunk + (p - 1) * chunk;
      ProductGrows(1, chunk, p - 1);
    }
  }

  lemma {:induction false} StepProduct(n: nat, chunk: nat)
    ensures (n + 1) * chunk == n * chunk + chunk
  {
  }

  lemma {:induction false} ProductGrows(a: nat, b: nat, c: nat)
    requires a <= b
    ensures a * c <= b * c && c * a <= c * b
  {
    assert b * c - a * c == (b - a) * c;
  }

  /** There are exactly as many ranges as partitions when, and only when, the partitions divide the pages. */
  lemma {:induction false} RangeCountIsExactIff(pages: nat, partitions: nat)
    requires 0 < pages <= U32_MAX && 0 < EffectivePartitions(pages, partitions)
    ensures var p := EffectivePartitions(pages, partitions);
            |Ranges(pages, partitions)| == p <==> pages % p == 0
  {
    var p := EffectivePartitions(pages, partitions);
    ChunkPositive(pages, p);
    RangesFromCount(0, pages, pages / p);
    ExactCount(pages, p, pages / p, |RangesFrom(0, pages, pages / p)|);
  }

  lemma {:induction false} ExactCount(pages: nat, p: nat, chunk: nat, count: nat)
    requires 0 < p <= pages && chunk == pages / p && 0 < count
    requires (count - 1) * chunk < pages <= count * chunk
    ensures count == p <==> pages % p == 0
  {
    ChunkPositive(pages, p);
    RangeCount(pages, p, chunk, count);
    assert pages % p == pages - p * chunk;
    if pages % p == 0 && p < count {
      ProductGrows(p, count - 1, chunk);
    }
  }

  /** A request below 2^32 gets what it asks for, one partition when it asks for none, and never more than the pages. */
  lemma {:induction false} PartitionsAreCapped(pages: nat, partitions: nat)
    ensures EffectivePartitions(pages, partitions) <= pages
    ensures partitions == 0 && 0 < pages ==> EffectivePartitions(pages, partitions) == 1
    ensures 0 < partitions < 0x1_0000_0000 ==>
              EffectivePartitions(pages, partitions) == if partitions <= pages then partitions else pages
    ensures 0 < partitions ==> EffectivePartitions(pages, partitions + 0x1_0000_0000) ==
                                 EffectivePartitions(pages, partitions)
  {
    assert (partitions + 0x1_0000_0000) % 0x1_0000_0000 == partitions % 0x1_0000_0000;
  }

  /** The request that divides by zero is exactly a positive multiple of 2^32. */
  lemma {:induction false} NoPartitionsIff(pages: nat, partitions: nat)
    requires 0 < pages
    ensures EffectivePartitions(pages, partitions) == 0 <==> 0 < partitions && partitions % (U32_MAX + 1) == 0
  {
  }

  /** Every range starts a whole number of chunks from page 0, and the last one starts below the page count. */
  lemma {:induction false} RangeStarts(lo: nat, pages: nat, chunk: nat, i: nat)
    requires 0 < chunk && pages <= U32_MAX && i < |RangesFrom(lo, pages, chunk)|
    ensures RangesFrom(lo, pages, chunk)[i].0 == lo + i * chunk < pages
    decreases pages - lo
  {
    if i > 0 {
      RangeStarts(SaturatingAdd(lo, chunk), pages, chunk, i - 1);
      StepProduct(i - 1, chunk);
    }
  }

  /** A table of `pages` pages is cut into chunks of the floored quotient: range `i` starts at page `i * chunk`. */
  lemma {:induction false} RangesAreChunks(pages: nat, partitions: nat)
    requires 0 < pages <= U32_MAX && 0 < EffectivePartitions(pages, partitions)
    ensures var p := EffectivePartitions(pages, partitions);
            && p <= |Ranges(pages, partitions)| < 2 * p
            && forall i: nat :: i < |Ranges(pages, partitions)| ==> Ranges(pages, partitions)[i].0 == i * (pages / p)
  {
    var p := EffectivePartitions(pages, partitions);
    ChunkPositive(pages, p);
    RangesFromCount(0, pages, pages / p);
    RangeCount(pages, p, pages / p, |RangesFrom(0, pages, pages / p)|);
    forall i: nat | i < |Ranges(pages, partitions)| ensures Ranges(pages, partitions)[i].0 == i * (pages / p) {
      RangeStarts(0, pages, pages / p, i);
    }
  }

  /** Both ends of the bound on the number of ranges are reached: eight partitions can give fifteen. */
  lemma {:induction false} RangeCountIsTight()
    ensures |Ranges(1000, 8)| == 8 == EffectivePartitions(1000, 8)
    ensures |Ranges(15, 8)| == 15 == 2 * EffectivePartitions(15, 8) - 1
  {
    assert EffectivePartitions(1000, 8) == 8 && EffectivePartitions(15, 8) == 8;
    RangesFromLength(0, 1000, 125, 8);
    RangesFromLength(0, 15, 1, 15);
  }

  lemma {:induction false} RangesFromLength(lo: nat, pages: nat, chunk: nat, count: nat)
    requires 0 < chunk && pages <= U32_MAX
    requires lo + count * chunk == pages
    ensures |RangesFrom(lo, pages, chunk)| == count
    decreases count
  {
    if count != 0 {
      assert count * chunk == (count - 1) * chunk + chunk;
      assert 0 <= (count - 1) * chunk;
      RangesFromLength(lo + chunk, pages, chunk, count - 1);
    } else {
      assert count * chunk == 0;
    }
  }

  /** The ranges tile the page space for every page count and every request that is not a multiple of 2^32. */
  lemma {:induction false} RangesTile(pages: nat, partitions: nat)
    requires pages <= U32_MAX
    requires 0 < pages ==> 0 < EffectivePartitions(pages, partitions)
    ensures Tiles(Ranges(pages, partitions))
  {
    if 0 < pages {
      ChunkPositive(pages, EffectivePartitions(pages, partitions));
      RangesFromTile(0, pages, pages / EffectivePartitions(pages, partitions));
    }
  }

  lemma {:induction false} RangesFromTile(lo: nat, pages: nat, chunk: nat)
    requires 0 < chunk && lo < pages <= U32_MAX
    ensures RangesFrom(lo, pages, chunk) != [] && RangesFrom(lo, pages, chunk)[0].0 == lo
    ensures var ranges := RangesFrom(lo, pages, chunk);
            && ranges[|ranges| - 1].0 < U32_MAX
            && (forall i :: 0 <= i < |ranges| ==> ranges[i].0 < ranges[i].1)
            && (forall i :: 0 < i < |ranges| ==> ranges[i - 1].1 == ranges[i].0)
    decreases pages - lo
  {
    if SaturatingAdd(lo, chunk) < pages {
      RangesFromTile(SaturatingAdd(lo, chunk), pages, chunk);
    }
  }

  /** A row at its physical page; `digits` counts, by column, the fractional digits a NUMERIC prints. */
  datatype Tuple = Tuple(page: nat, row: Row, digits: seq<nat>)

  /** Physical order: pages never go backwards, and fit below the largest page number. */
  ghost predicate InCtidOrder(heap: seq<Tuple>) {
    && (forall i, j :: 0 <= i < j < |heap| ==> heap[i].page <= heap[j].page)
    && (forall i :: 0 <= i < |heap| ==> heap[i].page < U32_MAX)
  }

  predicate InRange(range: (nat, nat), t: Tuple) {
    range.0 <= t.page < range.1
  }

  /** What one partition reads: the wanted rows whose page lies in its range. */
  function ReadRange(heap: seq<Tuple>, wanted: Tuple -> bool, range: (nat, nat)): seq<Tuple> {
    Filter((t: Tuple) => InRange(range, t) && wanted(t), heap)
  }

  function ReadRanges(heap: seq<Tuple>, wanted: Tuple -> bool, ranges: seq<(nat, nat)>): seq<Tuple> {
    if ranges == [] then []
    else ReadRange(heap, wanted, ranges[0]) + ReadRanges(heap, wanted, ranges[1..])
  }

  /** In ctid order, the rows of [lo, mid) come before the rows of [mid, hi). */
  lemma {:induction false} SplitRange(heap: seq<Tuple>, wanted: Tuple -> bool, lo: nat, mid: nat, hi: nat)
    requires InCtidOrder(heap) && lo <= mid <= hi
    ensures ReadRange(heap, wanted, (lo, mid)) + ReadRange(heap, wanted, (mid, hi)) == ReadRange(heap, wanted, (lo, hi))
  {
    if heap != [] && heap[0].page < mid {
      SplitRange(heap[1..], wanted, lo, mid, hi);
      SplitHead(heap, wanted, lo, mid, hi);
    } else {
      NothingBefore(heap, wanted, lo, mid);
      FilterCongruence((t: Tuple) => InRange((mid, hi), t) && wanted(t),
                       (t: Tuple) => InRange((lo, hi), t) && wanted(t), heap);
    }
  }

  lemma {:induction false} SplitHead(heap: seq<Tuple>, wanted: Tuple -> bool, lo: nat, mid: nat, hi: nat)
    requires heap != [] && heap[0].page < mid <= hi
    requires ReadRange(heap[1..], wanted, (lo, mid)) + ReadRange(heap[1..], wanted, (mid, hi)) ==
               ReadRange(heap[1..], wanted, (lo, hi))
    ensures ReadRange(heap, wanted, (lo, mid)) + ReadRange(heap, wanted, (mid, hi)) == ReadRange(heap, wanted, (lo, hi))
  {
    var below, above, both := ReadRange(heap[1..], wanted, (lo, mid)), ReadRange(heap[1..], wanted, (mid, hi)),
        ReadRange(heap[1..], wanted, (lo, hi));
    var t := heap[0];
    assert ReadRange(heap, wanted, (mid, hi)) == above by {
      ReadHead(heap, wanted, (mid, hi));
    }
    if lo <= t.page && wanted(t) {
      ReadHead(heap, wanted, (lo, mid));
      ReadHead(heap, wanted, (lo, hi));
      PrefixOne(t, below, above, both);
    } else {
      ReadHead(heap, wanted, (lo, mid));
      ReadHead(heap, wanted, (lo, hi));
    }
  }

  lemma {:induction false} PrefixOne(t: Tuple, below: seq<Tuple>, above: seq<Tuple>, both: seq<Tuple>)
    requires below + above == both
    ensures ([t] + below) + above == [t] + both
  {
  }

  lemma {:induction false} ReadHead(heap: seq<Tuple>, wanted: Tuple -> bool, range: (nat, nat))
    requires heap != []
    ensures ReadRange(heap, wanted, range) ==
              if InRange(range, heap[0]) && wanted(heap[0]) then [heap[0]] + ReadRange(heap[1..], wanted, range)
              else ReadRange(heap[1..], wanted, range)
  {
  }

  lemma {:induction false} NothingBefore(heap: seq<Tuple>, wanted: Tuple -> bool, lo: nat, mid: nat)
    requires forall k :: 0 <= k < |heap| ==> mid <= heap[k].page
    ensures ReadRange(heap, wanted, (lo, mid)) == []
  {
    FilterNothing((t: Tuple) => InRange((lo, mid), t) && wanted(t), heap);
  }

  lemma {:induction false} AbuttingRanges(heap: seq<Tuple>, wanted: Tuple -> bool, ranges: seq<(nat, nat)>)
    requires InCtidOrder(heap) && ranges != []
    requires forall i :: 0 <= i < |ranges| ==> ranges[i].0 < ranges[i].1
    requires forall i :: 0 < i < |ranges| ==> ranges[i - 1].1 == ranges[i].0
    ensures ranges[0].0 < ranges[|ranges| - 1].1
    ensures ReadRanges(heap, wanted, ranges) == ReadRange(heap, wanted, (ranges[0].0, ranges[|ranges| - 1].1))
  {
    if |ranges| == 1 {
      assert ReadRanges(heap, wanted, ranges[1..]) == [];
    } else {
      AbuttingRanges(heap, wanted, ranges[1..]);
      SplitRange(heap, wanted, ranges[0].0, ranges[0].1, ranges[|ranges| - 1].1);
    }
  }

  lemma {:induction false} TilingReadsAll(heap: seq<Tuple>, wanted: Tuple -> bool, ranges: seq<(nat, nat)>)
    requires InCtidOrder(heap) && Tiles(ranges)
    ensures ReadRanges(heap, wanted, ranges) == Filter(wanted, heap)
  {
    AbuttingRanges(heap, wanted, ranges);
    FilterCongruence((t: Tuple) => InRange((0, U32_MAX), t) && wanted(t), wanted, heap);
  }

  /** Reading every range and concatenating in range order is one scan of the whole table, row for row. */
  lemma {:induction false} ParallelScanIsSingleScan(heap: seq<Tuple>, wanted: Tuple -> bool, pages: nat,
                                                    partitions: nat)
    requires InCtidOrder(heap)
    requires pages <= U32_MAX
    requires 0 < pages ==> 0 < EffectivePartitions(pages, partitions)
    ensures ReadRanges(heap, wanted, Ranges(pages, partitions)) == Filter(wanted, heap)
  {
    RangesTile(pages, partitions);
    TilingReadsAll(heap, wanted, Ranges(pages, partitions));
  }
}

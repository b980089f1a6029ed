/** Choosing which resident relations to spill: largest first is optimal. */
module Eviction {

  const RESIDENT_BINDINGS_BUDGET: nat := 16 * 1024 * 1024 * 1024

  datatype Sized = Sized(name: string, bytes: nat)

  function TotalBytes(sized: seq<Sized>): nat {
    if sized == [] then 0 else sized[0].bytes + TotalBytes(sized[1..])
  }

  ghost predicate Descending(sized: seq<Sized>) {
    forall i, j :: 0 <= i < j < |sized| ==> sized[i].bytes >= sized[j].bytes
  }

  ghost predicate DistinctNames(sized: seq<Sized>) {
    forall i, j :: 0 <= i < j < |sized| ==> sized[i].name != sized[j].name
  }

  function NamesIn(sized: seq<Sized>): set<string> {
    set x | x in sized :: x.name
  }

  lemma {:induction false} NamesAtMost(sized: seq<Sized>)
    ensures |NamesIn(sized)| <= |sized|
  {
    if sized == [] {
      assert NamesIn(sized) == {};
    } else {
      NamesAtMost(sized[1..]);
      assert sized == [sized[0]] + sized[1..];
      assert NamesIn(sized) == NamesIn(sized[1..]) + {sized[0].name};
    }
  }

  lemma {:induction false} NamesNext(sized: seq<Sized>, i: nat)
    requires i < |sized|
    ensures NamesIn(sized[..i + 1]) == NamesIn(sized[..i]) + {sized[i].name}
  {
    assert sized[..i + 1] == sized[..i] + [sized[i]];
  }

  function SizesOf(sized: seq<Sized>): seq<nat> {
    seq(|sized|, i requires 0 <= i < |sized| => sized[i].bytes)
  }

  /** How many relations of a list are spilled before the rest leaves room for `incoming`. */
  function EvictCount(sized: seq<Sized>, incoming: nat): (k: nat)
    ensures k <= |sized|
  {
    if sized == [] || TotalBytes(sized) + incoming <= RESIDENT_BINDINGS_BUDGET then 0
    else 1 + EvictCount(sized[1..], incoming)
  }

  /** What stays resident when the named relations are spilled. */
  function BytesWithout(sized: seq<Sized>, evicted: set<string>): nat {
    if sized == [] then 0
    else
      var last := sized[|sized| - 1];
      BytesWithout(sized[..|sized| - 1], evicted) + if last.name in evicted then 0 else last.bytes
  }

  /** How many of the listed relations are among those spilled. */
  function CountIn(sized: seq<Sized>, evicted: set<string>): (k: nat)
    ensures k <= |sized|
  {
    if sized == [] then 0
    else CountIn(sized[..|sized| - 1], evicted) + if sized[|sized| - 1].name in evicted then 1 else 0
  }

  lemma {:induction false} TotalSplits(a: seq<Sized>, b: seq<Sized>)
    ensures TotalBytes(a + b) == TotalBytes(a) + TotalBytes(b)
  {
    if a == [] {
      assert a + b == b;
    } else {
      TotalSplits(a[1..], b);
      assert (a + b)[1..] == a[1..] + b;
    }
  }

  lemma {:induction false} CountForeign(sized: seq<Sized>, evicted: set<string>, name: string)
    requires forall i :: 0 <= i < |sized| ==> sized[i].name != name
    ensures CountIn(sized, evicted - {name}) == CountIn(sized, evicted)
  {
    if sized != [] {
      CountForeign(sized[..|sized| - 1], evicted, name);
    }
  }

  lemma {:induction false} CountWithinSet(sized: seq<Sized>, evicted: set<string>)
    requires DistinctNames(sized)
    ensures CountIn(sized, evicted) <= |evicted|
    decreases |sized|
  {
    if sized != [] {
      var init, name := sized[..|sized| - 1], sized[|sized| - 1].name;
      if name in evicted {
        CountForeign(init, evicted, name);
        CountWithinSet(init, evicted - {name});
      } else {
        CountWithinSet(init, evicted);
      }
    }
  }

  /** Dropping the last relation of a descending list in place of the one at `k` frees no more. */
  lemma {:induction false} LastIsSmallest(sized: seq<Sized>, k: nat)
    requires Descending(sized) && k < |sized|
    ensures TotalBytes(sized[..|sized| - 1][k..]) >= TotalBytes(sized[k + 1..])
  {
    var last := sized[|sized| - 1];
    KeptLast(sized, k);
    assert sized[k..][0] == sized[k] && sized[k..][1..] == sized[k + 1..];
    assert sized[k].bytes >= last.bytes;
  }

  lemma {:induction false} KeptLast(sized: seq<Sized>, k: nat)
    requires k < |sized|
    ensures TotalBytes(sized[k..]) == TotalBytes(sized[..|sized| - 1][k..]) + sized[|sized| - 1].bytes
  {
    var init, last := sized[..|sized| - 1], sized[|sized| - 1];
    assert init[k..] + [last] == sized[k..];
    TotalSplits(init[k..], [last]);
    assert TotalBytes([last]) == last.bytes;
  }

  /** Spilling any k of the relations frees no more than spilling the k largest. */
  lemma {:induction false} LargestFreeMost(sized: seq<Sized>, evicted: set<string>)
    requires Descending(sized)
    ensures BytesWithout(sized, evicted) >= TotalBytes(sized[CountIn(sized, evicted)..])
  {
    if sized != [] {
      var init, last := sized[..|sized| - 1], sized[|sized| - 1];
      LargestFreeMost(init, evicted);
      var k := CountIn(init, evicted);
      if last.name in evicted {
        LastIsSmallest(sized, k);
      } else {
        KeptLast(sized, k);
      }
    }
  }

  /** After the greedy evictions there is room, or nothing is left; with fewer there was no room. */
  lemma {:induction false} GreedyStopsAtRoom(sized: seq<Sized>, incoming: nat, k: nat)
    requires k <= |sized|
    ensures k == EvictCount(sized, incoming) ==>
              k == |sized| || TotalBytes(sized[k..]) + incoming <= RESIDENT_BINDINGS_BUDGET
    ensures k < EvictCount(sized, incoming) ==> TotalBytes(sized[k..]) + incoming > RESIDENT_BINDINGS_BUDGET
  {
    if k != 0 {
      GreedyStopsAtRoom(sized[1..], incoming, k - 1);
      assert sized[1..][k - 1..] == sized[k..];
    }
  }

  /** Largest-first evicts the fewest relations possible: every set that makes room is at least as large. */
  lemma {:induction false} GreedyIsOptimal(sized: seq<Sized>, incoming: nat, evicted: set<string>)
    requires Descending(sized) && DistinctNames(sized)
    requires BytesWithout(sized, evicted) + incoming <= RESIDENT_BINDINGS_BUDGET
    ensures EvictCount(sized, incoming) <= |evicted|
  {
    LargestFreeMost(sized, evicted);
    CountWithinSet(sized, evicted);
    GreedyStopsAtRoom(sized, incoming, CountIn(sized, evicted));
  }

  /** The sizes spilled depend only on which sizes are resident, not on the order the map lists them in. */
  lemma {:induction false} EvictedSizesAreDetermined(a: seq<Sized>, b: seq<Sized>, incoming: nat)
    requires Descending(a) && Descending(b) && multiset(SizesOf(a)) == multiset(SizesOf(b))
    ensures SizesOf(a[..EvictCount(a, incoming)]) == SizesOf(b[..EvictCount(b, incoming)])
  {
    SameSizes(a, b);
    SameCount(a, b, incoming);
    assert forall i :: 0 <= i < |a| ==> a[i].bytes == SizesOf(a)[i] == SizesOf(b)[i] == b[i].bytes;
  }

  /** Two lists with the same relations have the same sizes. */
  lemma {:induction false} SameRelationsSameSizes(a: seq<Sized>, b: seq<Sized>)
    requires multiset(a) == multiset(b)
    ensures multiset(SizesOf(a)) == multiset(SizesOf(b))
    decreases |a|
  {
    if a == [] {
      assert |b| == |multiset(b)| == 0;
    } else {
      assert a[0] in multiset(b);
      var k :| 0 <= k < |b| && b[k] == a[0];
      RemovedCounts(a, 0);
      RemovedCounts(b, k);
      SameRelationsSameSizes(Removed(a, 0), Removed(b, k));
    }
  }

  function Removed(sized: seq<Sized>, k: nat): (rest: seq<Sized>)
    requires k < |sized|
    ensures |rest| == |sized| - 1
  {
    sized[..k] + sized[k + 1..]
  }

  lemma {:induction false} RemovedCounts(sized: seq<Sized>, k: nat)
    requires k < |sized|
    ensures multiset(Removed(sized, k)) == multiset(sized) - multiset{sized[k]}
    ensures multiset(SizesOf(sized)) == multiset(SizesOf(Removed(sized, k))) + multiset{sized[k].bytes}
  {
    assert sized == sized[..k] + [sized[k]] + sized[k + 1..];
    assert SizesOf(sized) == SizesOf(sized[..k]) + [sized[k].bytes] + SizesOf(sized[k + 1..]);
    assert SizesOf(sized[..k] + sized[k + 1..]) == SizesOf(sized[..k]) + SizesOf(sized[k + 1..]);
  }

  lemma {:induction false} SameLargest(a: seq<Sized>, b: seq<Sized>)
    requires Descending(a) && Descending(b) && multiset(SizesOf(a)) == multiset(SizesOf(b)) && a != []
    ensures |b| == |a| && a[0].bytes == b[0].bytes
  {
    var sa, sb := SizesOf(a), SizesOf(b);
    assert |sa| == |multiset(sa)| == |multiset(sb)| == |sb|;
    assert sa[0] in multiset(sb) && sb[0] in multiset(sa);
    var i :| 0 <= i < |sb| && sb[i] == sa[0];
    var k :| 0 <= k < |sa| && sa[k] == sb[0];
  }

  lemma {:induction false} SameSizes(a: seq<Sized>, b: seq<Sized>)
    requires Descending(a) && Descending(b) && multiset(SizesOf(a)) == multiset(SizesOf(b))
    ensures SizesOf(a) == SizesOf(b)
  {
    if a == [] {
      assert |SizesOf(b)| == |multiset(SizesOf(b))| == 0;
    } else {
      SameLargest(a, b);
      assert SizesOf(a) == [a[0].bytes] + SizesOf(a[1..]);
      assert SizesOf(b) == [b[0].bytes] + SizesOf(b[1..]);
      assert multiset(SizesOf(a[1..])) == multiset(SizesOf(a)) - multiset{a[0].bytes};
      assert multiset(SizesOf(b[1..])) == multiset(SizesOf(b)) - multiset{b[0].bytes};
      SameSizes(a[1..], b[1..]);
    }
  }

  lemma {:induction false} SameCount(a: seq<Sized>, b: seq<Sized>, incoming: nat)
    requires SizesOf(a) == SizesOf(b)
    ensures TotalBytes(a) == TotalBytes(b)
    ensures EvictCount(a, incoming) == EvictCount(b, incoming)
  {
    assert |a| == |SizesOf(a)| == |b|;
    if a != [] {
      assert SizesOf(a)[0] == a[0].bytes && SizesOf(b)[0] == b[0].bytes;
      assert SizesOf(a[1..]) == SizesOf(a)[1..] && SizesOf(b[1..]) == SizesOf(b)[1..];
      SameCount(a[1..], b[1..], incoming);
    }
  }

  /** Insert before the first relation that is smaller, so equal sizes keep their order. */
  function InsertDescending(x: Sized, sorted: seq<Sized>): seq<Sized> {
    if sorted == [] || sorted[0].bytes < x.bytes then [x] + sorted
    else [sorted[0]] + InsertDescending(x, sorted[1..])
  }

  lemma {:induction false} InsertKeeps(x: Sized, sorted: seq<Sized>)
    requires Descending(sorted)
    ensures Descending(InsertDescending(x, sorted))
  {
    if sorted != [] && sorted[0].bytes >= x.bytes {
      InsertKeeps(x, sorted[1..]);
      InsertElements(x, sorted[1..]);
      var rest := InsertDescending(x, sorted[1..]);
      forall i | 0 <= i < |rest| ensures sorted[0].bytes >= rest[i].bytes {
        assert rest[i] in rest;
        if rest[i] != x {
          var k :| 0 <= k < |sorted[1..]| && sorted[1..][k] == rest[i];
          assert sorted[k + 1] == rest[i];
        }
      }
    }
  }

  lemma {:induction false} InsertPermutes(x: Sized, sorted: seq<Sized>)
    ensures multiset(InsertDescending(x, sorted)) == multiset(sorted) + multiset{x}
  {
    if sorted != [] && sorted[0].bytes >= x.bytes {
      InsertPermutes(x, sorted[1..]);
      assert sorted == [sorted[0]] + sorted[1..];
    }
  }

  lemma {:induction false} InsertElements(x: Sized, sorted: seq<Sized>)
    ensures forall y :: y in InsertDescending(x, sorted) <==> y == x || y in sorted
  {
    if sorted != [] && sorted[0].bytes >= x.bytes {
      InsertElements(x, sorted[1..]);
      assert sorted == [sorted[0]] + sorted[1..];
    }
  }

  lemma {:induction false} InsertKeepsNames(x: Sized, sorted: seq<Sized>)
    requires DistinctNames(sorted) && forall i :: 0 <= i < |sorted| ==> sorted[i].name != x.name
    ensures DistinctNames(InsertDescending(x, sorted))
  {
    if sorted != [] && sorted[0].bytes >= x.bytes {
      var rest := InsertDescending(x, sorted[1..]);
      InsertKeepsNames(x, sorted[1..]);
      InsertElements(x, sorted[1..]);
      forall i | 0 <= i < |rest| ensures rest[i].name != sorted[0].name {
        assert rest[i] in rest;
        if rest[i] != x {
          var k :| 0 <= k < |sorted[1..]| && sorted[1..][k] == rest[i];
          assert sorted[k + 1] == rest[i];
        }
      }
    }
  }

  /** The stable sort by descending size. */
  method SortDescending(sized: seq<Sized>) returns (sorted: seq<Sized>)
    requires DistinctNames(sized)
    ensures Descending(sorted) && multiset(sorted) == multiset(sized)
    ensures DistinctNames(sorted) && forall y :: y in sorted <==> y in sized
  {
    sorted := [];
    for i := 0 to |sized|
      invariant Descending(sorted) && multiset(sorted) == multiset(sized[..i])
      invariant DistinctNames(sorted) && forall y :: y in sorted <==> y in sized[..i]
    {
      assert forall k :: 0 <= k < |sorted| ==> sorted[k] in sized[..i];
      InsertKeeps(sized[i], sorted);
      InsertPermutes(sized[i], sorted);
      InsertElements(sized[i], sorted);
      InsertKeepsNames(sized[i], sorted);
      sorted := InsertDescending(sized[i], sorted);
      assert sized[..i + 1] == sized[..i] + [sized[i]];
    }
    assert sized[..|sized|] == sized;
  }
}

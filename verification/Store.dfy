/** The map of live bindings: what keeps it sound, and how inserts, removals and evictions change it. */
module Store {
  import opened Sources
  import opened Bindings
  import opened Eviction

  type Held = map<string, Binding>

  /** Files exist, regions are well composed, and no merge step's plan is live under two names. */
  ghost predicate Sound(disk: Disk, held: Held) {
    && (forall n :: n in held ==> Readable(disk, held[n]) && WellComposed(held[n]))
    && (forall m, n :: m in held && n in held && m != n ==> OriginsOf(held[m]) !! OriginsOf(held[n]))
  }

  /** How often a merge step's composed plan occurs in the lazy regions held under the given names. */
  function LiveOccurrences(held: Held, names: seq<string>, step: nat): nat {
    if names == [] then 0
    else
      var n := names[|names| - 1];
      LiveOccurrences(held, names[..|names| - 1], step) +
      (if n in held && held[n].Lazy? then Occurrences(held[n].region.plan, step) else 0)
  }

  /** In a sound store no merge step's plan is duplicated: over all live regions together it occurs at most once. */
  lemma {:induction false} NoPlanDuplicated(disk: Disk, held: Held, names: seq<string>, step: nat)
    requires Sound(disk, held)
    requires forall i, j :: 0 <= i < j < |names| ==> names[i] != names[j]
    ensures LiveOccurrences(held, names, step) ==
              if exists i :: 0 <= i < |names| && names[i] in held && step in OriginsOf(held[names[i]]) then 1 else 0
  {
    if names != [] {
      var last, init := names[|names| - 1], names[..|names| - 1];
      NoPlanDuplicated(disk, held, init, step);
      if last in held && held[last].Lazy? {
        OccursOnceCounts(held[last].region.plan, step);
      }
      if i :| 0 <= i < |names| && names[i] in held && step in OriginsOf(held[names[i]]) {
        assert i < |init| ==> init[i] == names[i];
      }
      if i :| 0 <= i < |init| && init[i] in held && step in OriginsOf(held[init[i]]) {
        assert names[i] == init[i];
      }
    }
  }

  ghost function Meanings(w: World, disk: Disk, held: Held): map<string, Meaning> {
    map n | n in held :: Denote(w, disk, held[n])
  }

  /** The merge steps whose composed plans are live. */
  ghost function LiveOrigins(held: Held): set<nat> {
    set n, s | n in held && s in OriginsOf(held[n]) :: s
  }

  lemma {:induction false} SoundGrows(w: World, before: Disk, after: Disk, held: Held)
    requires Grows(before, after) && Sound(before, held)
    ensures Sound(after, held) && Meanings(w, after, held) == Meanings(w, before, held)
  {
    forall n | n in held
      ensures Readable(after, held[n]) && Denote(w, after, held[n]) == Denote(w, before, held[n])
    {
      BindingSurvivesGrowth(w, before, after, held[n]);
    }
  }

  lemma {:induction false} SoundWithout(w: World, disk: Disk, held: Held, n: string)
    requires Sound(disk, held)
    ensures Sound(disk, held - {n}) && Meanings(w, disk, held - {n}) == Meanings(w, disk, held) - {n}
    ensures LiveOrigins(held - {n}) <= LiveOrigins(held)
    ensures n in held ==> LiveOrigins(held - {n}) !! OriginsOf(held[n]) && OriginsOf(held[n]) <= LiveOrigins(held)
  {
  }

  lemma {:induction false} SoundInsert(w: World, disk: Disk, held: Held, n: string, b: Binding)
    requires Sound(disk, held) && Readable(disk, b) && WellComposed(b)
    requires OriginsOf(b) !! LiveOrigins(held)
    ensures Sound(disk, held[n := b])
    ensures Meanings(w, disk, held[n := b]) == Meanings(w, disk, held)[n := Denote(w, disk, b)]
    ensures LiveOrigins(held[n := b]) <= LiveOrigins(held) + OriginsOf(b)
  {
    forall m | m in held && m != n
      ensures OriginsOf(held[m]) !! OriginsOf(b)
    {
      assert forall s :: s in OriginsOf(held[m]) ==> s in LiveOrigins(held);
    }
  }

  /** Bindings only moved from memory to disk. */
  ghost predicate OnlySpilled(before: Held, after: Held) {
    && after.Keys == before.Keys
    && (forall n :: n in before ==> after[n] == before[n] || (before[n].Materialized? && after[n].Spilled?))
  }

  /** The names whose relation moved from memory to disk. */
  ghost function EvictedNames(before: Held, after: Held): set<string> {
    set n | n in before && n in after && before[n].Materialized? && !after[n].Materialized?
  }

  /** The same of the other names. */
  lemma {:induction false} EvictedBeside(before: Held, after: Held, name: string)
    requires OnlySpilled(before, after)
    ensures OnlySpilled(before - {name}, after - {name})
    ensures EvictedNames(before, after - {name}) <= EvictedNames(before, after)
    ensures |EvictedNames(before, after - {name})| <= |EvictedNames(before, after)|
  {
    var fewer, all := EvictedNames(before, after - {name}), EvictedNames(before, after);
    assert all == fewer + (all - fewer);
  }

  lemma {:induction false} OnlySpilledKeepsOrigins(before: Held, after: Held)
    requires OnlySpilled(before, after)
    ensures LiveOrigins(after) == LiveOrigins(before)
  {
    forall n | n in before ensures OriginsOf(after[n]) == OriginsOf(before[n]) {
    }
  }

  // --- the list of resident relations ----------------------------------------------------------------

  /** `sized` lists the resident relations among `names`, each once, at its size. */
  ghost predicate Lists(held: Held, names: set<string>, sized: seq<Sized>) {
    && DistinctNames(sized)
    && (forall x :: x in sized ==>
         x.name in names && x.name in held && held[x.name].Materialized? && x.bytes == Size(held[x.name]))
    && (forall n :: n in names && n in held && held[n].Materialized? ==> Sized(n, Size(held[n])) in sized)
  }

  /** Each relation occurs once in a list with distinct names. */
  lemma {:induction false} ListedOnce(sized: seq<Sized>, x: Sized)
    requires DistinctNames(sized)
    ensures multiset(sized)[x] == if x in sized then 1 else 0
  {
    if sized != [] {
      ListedOnce(sized[1..], x);
      assert sized == [sized[0]] + sized[1..];
      if sized[0] in sized[1..] {
        var k :| 0 <= k < |sized[1..]| && sized[1..][k] == sized[0];
        assert sized[k + 1].name == sized[0].name;
      }
    }
  }

  lemma {:induction false} ListingsHold(held: Held, a: seq<Sized>, b: seq<Sized>, x: Sized)
    requires Lists(held, held.Keys, a) && Lists(held, held.Keys, b)
    ensures x in a ==> x in b
  {
    if x in a {
      assert x == Sized(x.name, Size(held[x.name]));
    }
  }

  /** The sizes evicted do not depend on the order in which the map lists its resident relations. */
  lemma {:induction false} ListingsEvictAlike(held: Held, a: seq<Sized>, b: seq<Sized>, incoming: nat)
    requires Lists(held, held.Keys, a) && Lists(held, held.Keys, b) && Descending(a) && Descending(b)
    ensures SizesOf(a[..EvictCount(a, incoming)]) == SizesOf(b[..EvictCount(b, incoming)])
  {
    forall x ensures multiset(a)[x] == multiset(b)[x] {
      ListedOnce(a, x);
      ListedOnce(b, x);
      ListingsHold(held, a, b, x);
      ListingsHold(held, b, a, x);
    }
    assert multiset(a) == multiset(b);
    SameRelationsSameSizes(a, b);
    EvictedSizesAreDetermined(a, b, incoming);
  }

  lemma {:induction false} NothingResident(held: Held)
    requires forall n :: n in held ==> !held[n].Materialized?
    ensures ResidentBytes(held) == 0
    decreases |held|
  {
    if held.Keys == {} {
      assert held == map[];
    } else {
      var n :| n in held;
      ResidentWithout(held, n);
      NothingResident(held - {n});
    }
  }

  lemma {:induction false} ListsInit(held: Held, sized: seq<Sized>)
    requires Lists(held, held.Keys, sized) && sized != []
    ensures var n := sized[|sized| - 1].name;
            n in held && Lists(held - {n}, (held - {n}).Keys, sized[..|sized| - 1])
  {
    var last := sized[|sized| - 1];
    var init := sized[..|sized| - 1];
    assert last in sized;
    forall x | x in init ensures x.name != last.name && x in sized {
      var i :| 0 <= i < |init| && init[i] == x;
      assert sized[i] == x;
    }
    forall n | n in held - {last.name} && held[n].Materialized? ensures Sized(n, Size(held[n])) in init {
      var i :| 0 <= i < |sized| && sized[i] == Sized(n, Size(held[n]));
      assert init[i] == sized[i];
    }
  }

  /** Spilling a set of names leaves resident what the list counts without them. */
  lemma {:induction false} ListedBytes(held: Held, sized: seq<Sized>, evicted: set<string>)
    requires Lists(held, held.Keys, sized)
    ensures ResidentBytes(held - evicted) == BytesWithout(sized, evicted)
    decreases |sized|
  {
    if sized == [] {
      NothingResident(held - evicted);
    } else {
      var last := sized[|sized| - 1];
      ListsInit(held, sized);
      assert last in sized;
      ListedBytes(held - {last.name}, sized[..|sized| - 1], evicted);
      if last.name in evicted {
        assert held - {last.name} - evicted == held - evicted;
      } else {
        ResidentWithout(held - evicted, last.name);
        assert held - evicted - {last.name} == held - {last.name} - evicted;
      }
    }
  }

  lemma {:induction false} TotalIsWithoutNone(sized: seq<Sized>)
    ensures TotalBytes(sized) == BytesWithout(sized, {})
  {
    if sized != [] {
      KeptLast(sized, 0);
      assert sized[0..] == sized && sized[..|sized| - 1][0..] == sized[..|sized| - 1];
      TotalIsWithoutNone(sized[..|sized| - 1]);
    }
  }

  lemma {:induction false} ListedTotal(held: Held, sized: seq<Sized>)
    requires Lists(held, held.Keys, sized)
    ensures ResidentBytes(held) == TotalBytes(sized)
  {
    ListedBytes(held, sized, {});
    TotalIsWithoutNone(sized);
    assert held - {} == held;
  }

  /** Once its first relation is on disk, the rest of the list still lists what is resident. */
  lemma {:induction false} SpilledHead(start: Held, held: Held, sized: seq<Sized>, s: SpilledBinding)
    requires sized != [] && Lists(held, held.Keys, sized) && OnlySpilled(start, held)
    ensures sized[0].name in held && held[sized[0].name].Materialized? && Size(held[sized[0].name]) == sized[0].bytes
    ensures var after := held[sized[0].name := Spilled(s)];
            && Lists(after, after.Keys, sized[1..]) && OnlySpilled(start, after)
            && EvictedNames(start, after) == EvictedNames(start, held) + {sized[0].name}
  {
    var n := sized[0].name;
    assert sized[0] in sized;
    SpilledRest(held, sized, s);
    assert EvictedNames(start, held[n := Spilled(s)]) == EvictedNames(start, held) + {n};
  }

  lemma {:induction false} SpilledRest(held: Held, sized: seq<Sized>, s: SpilledBinding)
    requires sized != [] && Lists(held, held.Keys, sized) && sized[0].name in held
    ensures var after := held[sized[0].name := Spilled(s)];
            Lists(after, after.Keys, sized[1..])
  {
    var n, rest := sized[0].name, sized[1..];
    var after := held[n := Spilled(s)];
    assert forall k :: 0 <= k < |rest| ==> rest[k] == sized[k + 1];
    forall x | x in rest ensures x.name != n && x in sized {
      var k :| 0 <= k < |rest| && rest[k] == x;
    }
    forall m | m in after && after[m].Materialized? ensures Sized(m, Size(after[m])) in rest {
      var k :| 0 <= k < |sized| && sized[k] == Sized(m, Size(held[m]));
      assert rest[k - 1] == sized[k];
    }
  }

  /** Moving one relation to disk keeps the store sound and its meaning, and frees its bytes. */
  lemma {:induction false} SpillOne(w: World, before: Disk, after: Disk, held: Held, n: string, s: SpilledBinding)
    requires Grows(before, after) && Sound(before, held)
    requires n in held && held[n].Materialized?
    requires s.schema == held[n].b.schema && s.file in after && after[s.file] == held[n].b.batches
    ensures Sound(after, held[n := Spilled(s)])
    ensures Meanings(w, after, held[n := Spilled(s)]) == Meanings(w, before, held)
    ensures ResidentBytes(held[n := Spilled(s)]) + Size(held[n]) == ResidentBytes(held)
  {
    SoundGrows(w, before, after, held);
    SoundInsert(w, after, held, n, Spilled(s));
    assert Denote(w, after, held[n]) == Meanings(w, after, held)[n];
    ResidentUpdate(held, n, Spilled(s));
    ResidentWithout(held, n);
  }

  /** Storing a binding adds at most its own bytes to what is resident. */
  lemma {:induction false} InsertBytes(held: Held, n: string, b: Binding)
    ensures ResidentBytes(held[n := b]) <= ResidentBytes(held) + Size(b)
    ensures (forall m :: m in held ==> !held[m].Materialized?) ==> ResidentBytes(held[n := b]) == Size(b)
  {
    ResidentUpdate(held, n, b);
    if n in held {
      ResidentWithout(held, n);
    }
    if forall m :: m in held ==> !held[m].Materialized? {
      NothingResident(held - {n});
    }
  }

  lemma {:induction false} RemovalBytes(held: Held, n: string)
    ensures ResidentBytes(held - {n}) <= ResidentBytes(held)
  {
    if n in held {
      ResidentWithout(held, n);
    } else {
      assert held - {n} == held;
    }
  }

  /** The effect of storing a binding under a name, on disk as it has grown since. */
  lemma {:induction false} StoreBinding(w: World, before: Disk, after: Disk, held: Held, n: string, b: Binding)
    requires Grows(before, after) && Sound(before, held)
    requires Readable(after, b) && WellComposed(b) && OriginsOf(b) !! LiveOrigins(held)
    ensures Sound(after, held[n := b])
    ensures Meanings(w, after, held[n := b]) == Meanings(w, before, held)[n := Denote(w, after, b)]
    ensures LiveOrigins(held[n := b]) <= LiveOrigins(held) + OriginsOf(b)
  {
    SoundGrows(w, before, after, held);
    SoundInsert(w, after, held, n, b);
  }
}

/** What every delivery strategy reads: exactly the rows of the plain scan that its key sets can join, in order. */
module InjectionProofs {
  import opened Outcomes
  import opened Ir
  import opened Relations
  import opened Partition
  import opened Sources
  import opened Typing
  import opened Injection

  // --- filters and output columns -----------------------------------------------------------------------

  /** Filtering what a projection keeps is projecting what a tighter filter keeps. */
  lemma {:induction false} FilterThrough<T, U>(p: T -> bool, q: T -> bool, f: T -> U, m: U -> bool, s: seq<T>)
    requires forall k :: 0 <= k < |s| ==> (q(s[k]) <==> p(s[k]) && m(f(s[k])))
    ensures Map(f, Filter(q, s)) == Filter(m, Map(f, Filter(p, s)))
  {
    if s != [] {
      var rest := s[1..];
      assert forall k :: 0 <= k < |rest| ==> rest[k] == s[k + 1];
      FilterThrough(p, q, f, m, rest);
      FilterHead(p, f, s);
      FilterHead(q, f, s);
      FilterCons(m, f(s[0]), Map(f, Filter(p, rest)));
      assert [] + Map(f, Filter(p, rest)) == Map(f, Filter(p, rest));
    }
  }

  lemma {:induction false} FilterCons<T>(keep: T -> bool, x: T, s: seq<T>)
    ensures Filter(keep, [x] + s) == (if keep(x) then [x] else []) + Filter(keep, s)
  {
    assert ([x] + s)[1..] == s;
  }

  lemma {:induction false} FilterHead<T, U>(p: T -> bool, f: T -> U, s: seq<T>)
    requires s != []
    ensures Map(f, Filter(p, s)) == (if p(s[0]) then [f(s[0])] else []) + Map(f, Filter(p, s[1..]))
  {
    MapAppend(f, if p(s[0]) then [s[0]] else [], Filter(p, s[1..]));
  }

  lemma {:induction false} FilterWithin<T>(keep: T -> bool, s: seq<T>)
    ensures forall x :: x in Filter(keep, s) <==> x in s && keep(x)
  {
    if s != [] {
      FilterWithin(keep, s[1..]);
      assert s == [s[0]] + s[1..];
    }
  }

  function OutputColumns(scan: ScanSpec): Option<seq<string>> {
    if scan.rawSql.Some? then None else Some(scan.columns)
  }

  function OwnFilter(scan: ScanSpec): seq<Pred> {
    if scan.rawSql.Some? then [] else StaticFilter(scan)
  }

  /** The plain scan of an unlimited spec: its relation under its own filter and output columns. */
  lemma {:induction false} BaseShape(w: World, pins: Pins, ds: string, scan: ScanSpec)
    requires !scan.distinct && scan.limit.None?
    requires FetchTuples(w, pins, ds, scan, None).Ok?
    ensures ds in w.registry
    ensures var temps := VisibleTemps(pins, w.registry[ds]);
            var from := FromItem(w, w.registry[ds], temps, FromOf(scan));
            && from.Some?
            && FetchTuples(w, pins, ds, scan, None).value ==
                 Stored(ProjectSchema(from.value.schema, OutputColumns(scan)),
                        SelectTuples(w, temps, from.value, OutputColumns(scan), OwnFilter(scan)))
  {
    var temps := VisibleTemps(pins, w.registry[ds]);
    assert StaticFilter(scan) + [] == StaticFilter(scan);
    if scan.rawSql.Some? {
      WholeRelation(w, temps, w.raw(w.registry[ds], scan.rawSql.value, temps).value);
    }
  }

  lemma {:induction false} WholeRelation(w: World, temps: Temps, s: Stored)
    ensures SelectTuples(w, temps, s, None, []) == s.heap
  {
    FilterEverything(Keeper(w, temps, s.schema, []), s.heap);
  }

  /** The value of an output column is the value of the stored column it was cut from. */
  lemma {:induction false} ProjectedCell(schema: seq<Field>, columns: Option<seq<string>>, row: Row, column: string)
    requires columns.Some? ==> HasColumns(schema, columns.value) && column in columns.value
    ensures Cell(ProjectSchema(schema, columns), ProjectRow(schema, columns, row), column) == Cell(schema, row, column)
  {
    if columns.Some? {
      var names := columns.value;
      var out := ProjectSchema(schema, columns);
      var j :| 0 <= j < |names| && names[j] == column;
      assert out[j].name == column;
      var k := IndexOf(out, column).value;
      assert out[k].name == names[k];
    }
  }

  // --- what a dynamic filter selects ------------------------------------------------------------------------

  predicate AllTrue(w: World, temps: Temps, schema: seq<Field>, ps: seq<Pred>, t: Tuple) {
    forall k :: 0 <= k < |ps| ==> PredTruth(w, temps, schema, ps[k], t) == True
  }

  /** The predicates are all true of a tuple exactly when every key set can join its row. */
  ghost predicate Selects(w: World, temps: Temps, schema: seq<Field>, ps: seq<Pred>, ks: seq<KeySet>) {
    forall t: Tuple :: AllTrue(w, temps, schema, ps, t) <==> HitsAll(schema, t.row, ks)
  }

  lemma {:induction false} ListSelects(w: World, temps: Temps, schema: seq<Field>, k: KeySet)
    ensures Selects(w, temps, schema, [InListOf(k)], [k])
  {
    forall t: Tuple ensures AllTrue(w, temps, schema, [InListOf(k)], t) <==> HitsAll(schema, t.row, [k]) {
      assert PredTruth(w, temps, schema, [InListOf(k)][0], t) == True <==> Hits(schema, t.row, [k][0]);
    }
  }

  lemma {:induction false} BothSelect(w: World, temps: Temps, schema: seq<Field>, ps: seq<Pred>, ks: seq<KeySet>,
                                      more: seq<Pred>, others: seq<KeySet>)
    requires Selects(w, temps, schema, ps, ks) && Selects(w, temps, schema, more, others)
    ensures Selects(w, temps, schema, ps + more, ks + others)
  {
    forall t: Tuple ensures AllTrue(w, temps, schema, ps + more, t) <==> HitsAll(schema, t.row, ks + others) {
      TrueOfBoth(w, temps, schema, ps, more, t);
      HitsBoth(schema, t.row, ks, others);
      assert AllTrue(w, temps, schema, ps, t) <==> HitsAll(schema, t.row, ks);
      assert AllTrue(w, temps, schema, more, t) <==> HitsAll(schema, t.row, others);
    }
  }

  lemma {:induction false} TrueOfBoth(w: World, temps: Temps, schema: seq<Field>, ps: seq<Pred>, more: seq<Pred>,
                                      t: Tuple)
    ensures AllTrue(w, temps, schema, ps + more, t) <==>
              AllTrue(w, temps, schema, ps, t) && AllTrue(w, temps, schema, more, t)
  {
    assert forall k :: 0 <= k < |ps| ==> (ps + more)[k] == ps[k];
    assert forall k :: 0 <= k < |more| ==> (ps + more)[|ps| + k] == more[k];
  }

  lemma {:induction false} HitsBoth(schema: seq<Field>, row: Row, ks: seq<KeySet>, others: seq<KeySet>)
    ensures HitsAll(schema, row, ks + others) <==> HitsAll(schema, row, ks) && HitsAll(schema, row, others)
  {
    assert forall k :: 0 <= k < |ks| ==> (ks + others)[k] == ks[k];
    assert forall k :: 0 <= k < |others| ==> (ks + others)[|ks| + k] == others[k];
  }

  lemma {:induction false} HitsOrder(schema: seq<Field>, row: Row, ks: seq<KeySet>, others: seq<KeySet>)
    ensures HitsAll(schema, row, ks + others) <==> HitsAll(schema, row, others + ks)
  {
    HitsBoth(schema, row, ks, others);
    HitsBoth(schema, row, others, ks);
  }

  /** The rendered extra filter selects the rows that every riding key set can join. */
  lemma {:induction false} ExtraFiltersAreHits(w: World, temps: Temps, schema: seq<Field>, extras: seq<KeySet>)
    ensures Selects(w, temps, schema, ExtraFilters(extras), Filter(Riders(), extras))
  {
    if extras != [] {
      var rest, riding := extras[1..], Filter(Riders(), extras[1..]);
      ExtraFiltersAreHits(w, temps, schema, rest);
      assert [] + riding == riding;
      if RidesAlong(extras[0]) {
        ListSelects(w, temps, schema, extras[0]);
        BothSelect(w, temps, schema, ExtraFilters(rest), riding, [InListOf(extras[0])], [extras[0]]);
        forall t: Tuple
          ensures AllTrue(w, temps, schema, ExtraFilters(extras), t) <==> HitsAll(schema, t.row, [extras[0]] + riding)
        {
          HitsOrder(schema, t.row, riding, [extras[0]]);
        }
        assert Filter(Riders(), extras) == [extras[0]] + riding;
      }
    }
  }

  lemma {:induction false} NeverSelects(w: World, temps: Temps, schema: seq<Field>, column: string, keys: Table)
    requires keys.rows == []
    ensures Selects(w, temps, schema, [Never], [KeySet(column, keys)])
  {
    forall t: Tuple
      ensures !AllTrue(w, temps, schema, [Never], t) && !HitsAll(schema, t.row, [KeySet(column, keys)])
    {
      assert PredTruth(w, temps, schema, [Never][0], t) == False;
      assert !Hits(schema, t.row, [KeySet(column, keys)][0]);
    }
  }

  /** The ingested keys, read back through their own column name, are the keys. */
  lemma {:induction false} IngestedKeys(keys: Table)
    requires keys.schema != []
    ensures TempColumn(KeyTemps(keys), DYN_KEYS_TEMP_TABLE, KeyName(keys)) == KeyValues(keys)
  {
  }

  lemma {:induction false} MembershipSelects(w: World, schema: seq<Field>, column: string, keys: Table)
    requires keys.schema != []
    ensures Selects(w, KeyTemps(keys), schema, [InTemp(column, KeyName(keys), DYN_KEYS_TEMP_TABLE)],
                    [KeySet(column, keys)])
  {
    IngestedKeys(keys);
    var ps, ks := [InTemp(column, KeyName(keys), DYN_KEYS_TEMP_TABLE)], [KeySet(column, keys)];
    forall t: Tuple ensures AllTrue(w, KeyTemps(keys), schema, ps, t) <==> HitsAll(schema, t.row, ks) {
      assert PredTruth(w, KeyTemps(keys), schema, ps[0], t) == True <==> Hits(schema, t.row, ks[0]);
    }
  }

  /** A dynamic filter reads exactly the plain scan's tuples that its key sets can join, in the plain scan's order. */
  lemma {:induction false} NarrowedScan(w: World, temps: Temps, fetchTemps: Temps, s: Stored,
                                        columns: Option<seq<string>>, own: seq<Pred>, more: seq<Pred>, ks: seq<KeySet>)
    requires forall k :: 0 <= k < |own| ==> own[k].Matches?
    requires columns.Some? ==> HasColumns(s.schema, columns.value)
    requires forall i :: 0 <= i < |ks| && columns.Some? ==> ks[i].column in columns.value
    requires Selects(w, fetchTemps, s.schema, more, ks)
    ensures Stored(ProjectSchema(s.schema, columns), SelectTuples(w, fetchTemps, s, columns, own + more)) ==
              HitTuples(Stored(ProjectSchema(s.schema, columns), SelectTuples(w, temps, s, columns, own)), ks)
  {
    var out := ProjectSchema(s.schema, columns);
    forall t
      ensures Keeper(w, fetchTemps, s.schema, own + more)(t) <==>
                Keeper(w, temps, s.schema, own)(t) && TupleHitter(out, ks)(Projector(s.schema, columns)(t))
    {
      KeepsBoth(w, temps, fetchTemps, s.schema, own, more, t);
      assert AllTrue(w, fetchTemps, s.schema, more, t) <==> HitsAll(s.schema, t.row, ks);
      ProjectedHits(s.schema, columns, t, ks);
    }
    FilterThrough(Keeper(w, temps, s.schema, own), Keeper(w, fetchTemps, s.schema, own + more),
                  Projector(s.schema, columns), TupleHitter(out, ks), s.heap);
  }

  lemma {:induction false} KeepsBoth(w: World, temps: Temps, fetchTemps: Temps, schema: seq<Field>, own: seq<Pred>,
                                     more: seq<Pred>, t: Tuple)
    requires forall k :: 0 <= k < |own| ==> own[k].Matches?
    ensures Keeper(w, fetchTemps, schema, own + more)(t) <==>
              Keeper(w, temps, schema, own)(t) && AllTrue(w, fetchTemps, schema, more, t)
  {
    WhereIsAll(w, temps, schema, own, t);
    WhereIsAll(w, fetchTemps, schema, own + more, t);
    TrueOfBoth(w, fetchTemps, schema, own, more, t);
    assert AllTrue(w, fetchTemps, schema, own, t) <==> AllTrue(w, temps, schema, own, t);
  }

  lemma {:induction false} ProjectedHits(schema: seq<Field>, columns: Option<seq<string>>, t: Tuple, ks: seq<KeySet>)
    requires columns.Some? ==> HasColumns(schema, columns.value)
    requires forall i :: 0 <= i < |ks| && columns.Some? ==> ks[i].column in columns.value
    ensures HitsAll(ProjectSchema(schema, columns), Projector(schema, columns)(t).row, ks) <==>
              HitsAll(schema, t.row, ks)
  {
    forall i | 0 <= i < |ks|
      ensures Hits(ProjectSchema(schema, columns), Projector(schema, columns)(t).row, ks[i]) ==
                Hits(schema, t.row, ks[i])
    {
      ProjectedCell(schema, columns, t.row, ks[i].column);
    }
  }

  // --- the deliveries, tuple by tuple --------------------------------------------------------------------------

  /** A filtered scan of an unlimited spec: the same relation and columns, under its own filter and the dynamic one. */
  lemma {:induction false} FilteredShape(w: World, pins: Pins, ds: string, scan: ScanSpec, more: seq<Pred>)
    requires !scan.distinct && scan.limit.None?
    requires FetchTuples(w, pins, ds, scan, Some(more)).Ok?
    ensures ds in w.registry && FetchTuples(w, pins, ds, scan, None).Ok?
    ensures var temps := VisibleTemps(pins, w.registry[ds]);
            var from := FromItem(w, w.registry[ds], temps, FromOf(scan));
            && from.Some?
            && (scan.rawSql.None? ==> HasColumns(from.value.schema, scan.columns))
            && FetchTuples(w, pins, ds, scan, Some(more)).value ==
                 Stored(ProjectSchema(from.value.schema, OutputColumns(scan)),
                        SelectTuples(w, temps, from.value, OutputColumns(scan), OwnFilter(scan) + more))
  {
    if scan.rawSql.Some? {
      assert [] + more == more;
    } else {
      var from := FromItem(w, w.registry[ds], VisibleTemps(pins, w.registry[ds]), FromOf(scan));
      PlainAnswer(w, pins, ds, scan, from.value);
    }
  }

  /** A plain structured scan that resolves. */
  lemma {:induction false} PlainAnswer(w: World, pins: Pins, ds: string, scan: ScanSpec, s: Stored)
    requires ds in w.registry && scan.rawSql.None? && scan.table.Some? && scan.columns != []
    requires FromItem(w, w.registry[ds], VisibleTemps(pins, w.registry[ds]), FromOf(scan)) == Some(s)
    requires HasColumns(s.schema, scan.columns)
    ensures FetchTuples(w, pins, ds, scan, None).Ok?
  {
    assert StaticFilter(scan) + [] == StaticFilter(scan);
  }

  /** A scan with a dynamic filter answers the part of the plain scan that the filter's key sets can join. */
  lemma {:induction false} FilteredFetch(w: World, pins: Pins, ds: string, scan: ScanSpec, more: seq<Pred>,
                                         ks: seq<KeySet>)
    requires !scan.distinct && scan.limit.None?
    requires scan.rawSql.None? ==> forall i :: 0 <= i < |ks| ==> ks[i].column in scan.columns
    requires forall temps: Temps, schema :: Selects(w, temps, schema, more, ks)
    requires FetchTuples(w, pins, ds, scan, Some(more)).Ok?
    ensures FetchTuples(w, pins, ds, scan, None).Ok?
    ensures FetchTuples(w, pins, ds, scan, Some(more)).value ==
              HitTuples(FetchTuples(w, pins, ds, scan, None).value, ks)
  {
    FilteredShape(w, pins, ds, scan, more);
    BaseShape(w, pins, ds, scan);
    var temps := VisibleTemps(pins, w.registry[ds]);
    var s := FromItem(w, w.registry[ds], temps, FromOf(scan)).value;
    assert Selects(w, temps, s.schema, more, ks);
    NarrowedScan(w, temps, temps, s, OutputColumns(scan), OwnFilter(scan), more, ks);
  }

  /** The delivery reads exactly the tuples of the plain scan that the given key sets can join, typed as one read. */
  ghost predicate ReadsHits(w: World, pins: Pins, ds: string, scan: ScanSpec, r: Result<Table>, ks: seq<KeySet>) {
    r.Ok? ==>
      && ds in w.registry && FetchTuples(w, pins, ds, scan, None).Ok?
      && r.value == Read(w.registry[ds].kind, HitTuples(FetchTuples(w, pins, ds, scan, None).value, ks))
  }

  /** A scan answers exactly the tuples of the plain scan that the given key sets can join. */
  ghost predicate AnswersHits(w: World, pins: Pins, ds: string, scan: ScanSpec, extra: Option<seq<Pred>>,
                              ks: seq<KeySet>) {
    FetchTuples(w, pins, ds, scan, extra).Ok? ==>
      && FetchTuples(w, pins, ds, scan, None).Ok?
      && FetchTuples(w, pins, ds, scan, extra).value == HitTuples(FetchTuples(w, pins, ds, scan, None).value, ks)
  }

  /** Without keys nothing is fetched, as nothing is joinable. */
  lemma {:induction false} EmptyFetch(w: World, pins: Pins, ds: string, scan: ScanSpec, column: string, keys: Table)
    requires !scan.distinct && scan.limit.None? && (scan.rawSql.None? ==> column in scan.columns) && keys.rows == []
    ensures AnswersHits(w, pins, ds, scan, Some([Never]), [KeySet(column, keys)])
    ensures FetchScan(w, pins, ds, scan, Some([Never])).Ok? ==>
              FetchScan(w, pins, ds, scan, Some([Never])).value.rows == []
  {
    if FetchTuples(w, pins, ds, scan, Some([Never])).Ok? {
      var ks := [KeySet(column, keys)];
      forall temps: Temps, schema ensures Selects(w, temps, schema, [Never], ks) {
        NeverSelects(w, temps, schema, column, keys);
      }
      FilteredFetch(w, pins, ds, scan, [Never], ks);
      NoHits(FetchTuples(w, pins, ds, scan, None).value, column, keys);
    }
  }

  lemma {:induction false} NoHits(s: Stored, column: string, keys: Table)
    requires keys.rows == []
    ensures HitTuples(s, [KeySet(column, keys)]).heap == []
  {
    var ks := [KeySet(column, keys)];
    forall k | 0 <= k < |s.heap| ensures !TupleHitter(s.schema, ks)(s.heap[k]) {
      assert !Hits(s.schema, s.heap[k].row, ks[0]);
    }
    FilterNothing(TupleHitter(s.schema, ks), s.heap);
  }

  lemma {:induction false} InlineSelects(w: World, temps: Temps, schema: seq<Field>, column: string, keys: Table,
                                         extras: seq<KeySet>)
    ensures Selects(w, temps, schema, [InList(column, KeyValues(keys))] + ExtraFilters(extras),
                    [KeySet(column, keys)] + Filter(Riders(), extras))
  {
    ListSelects(w, temps, schema, KeySet(column, keys));
    ExtraFiltersAreHits(w, temps, schema, extras);
    BothSelect(w, temps, schema, [InListOf(KeySet(column, keys))], [KeySet(column, keys)],
               ExtraFilters(extras), Filter(Riders(), extras));
  }

  lemma {:induction false} RidersIn(extras: seq<KeySet>, columns: seq<string>)
    requires ColumnsIn(extras, columns)
    ensures ColumnsIn(Filter(Riders(), extras), columns)
  {
    FilterWithin(Riders(), extras);
    var riding := Filter(Riders(), extras);
    forall i | 0 <= i < |riding| ensures riding[i].column in columns {
      assert riding[i] in extras;
    }
  }

  /** A small key set, with the extra lists beside it. */
  lemma {:induction false} InlineFetch(w: World, pins: Pins, ds: string, scan: ScanSpec, column: string, keys: Table,
                                       extras: seq<KeySet>)
    requires !scan.distinct && scan.limit.None?
    requires scan.rawSql.None? ==> column in scan.columns && ColumnsIn(extras, scan.columns)
    ensures AnswersHits(w, pins, ds, scan, Some([InList(column, KeyValues(keys))] + ExtraFilters(extras)),
                        [KeySet(column, keys)] + Filter(Riders(), extras))
  {
    var more := [InList(column, KeyValues(keys))] + ExtraFilters(extras);
    var ks := [KeySet(column, keys)] + Filter(Riders(), extras);
    if FetchTuples(w, pins, ds, scan, Some(more)).Ok? {
      forall temps: Temps, schema ensures Selects(w, temps, schema, more, ks) {
        InlineSelects(w, temps, schema, column, keys, extras);
      }
      if scan.rawSql.None? {
        RidersIn(extras, scan.columns);
      }
      FilteredFetch(w, pins, ds, scan, more, ks);
    }
  }

  /** The extra lists alone, or no dynamic filter when there is none. */
  lemma {:induction false} WholeFetch(w: World, pins: Pins, ds: string, scan: ScanSpec, extras: seq<KeySet>)
    requires !scan.distinct && scan.limit.None?
    requires scan.rawSql.None? ==> ColumnsIn(extras, scan.columns)
    ensures AnswersHits(w, pins, ds, scan, if ExtraFilters(extras) == [] then None else Some(ExtraFilters(extras)),
                        Filter(Riders(), extras))
  {
    var more, ks := ExtraFilters(extras), Filter(Riders(), extras);
    forall temps: Temps, schema ensures Selects(w, temps, schema, more, ks) {
      ExtraFiltersAreHits(w, temps, schema, extras);
    }
    if more == [] {
      if FetchTuples(w, pins, ds, scan, None).Ok? {
        NoFilterHitsAll(w, FetchTuples(w, pins, ds, scan, None).value, ks);
      }
    } else if FetchTuples(w, pins, ds, scan, Some(more)).Ok? {
      if scan.rawSql.None? {
        RidersIn(extras, scan.columns);
      }
      FilteredFetch(w, pins, ds, scan, more, ks);
    }
  }

  lemma {:induction false} NoFilterHitsAll(w: World, s: Stored, ks: seq<KeySet>)
    requires Selects(w, map[], s.schema, [], ks)
    ensures HitTuples(s, ks) == s
  {
    assert forall t: Tuple :: AllTrue(w, map[], s.schema, [], t);
    FilterEverything(TupleHitter(s.schema, ks), s.heap);
  }

  /** A delivery that is one scan of the source. */
  lemma {:induction false} ScanDelivers(w: World, pins: Pins, ds: string, scan: ScanSpec, column: string, keys: Table,
                                        extras: seq<KeySet>, delivery: Delivery)
    requires !scan.distinct && scan.limit.None? && (delivery.NothingMatches? ==> keys.rows == []) && !delivery.SemiJoin?
    requires scan.rawSql.None? ==> column in scan.columns && ColumnsIn(extras, scan.columns)
    ensures AnswersHits(w, pins, ds, scan, FilterOf(delivery, InList(column, KeyValues(keys)), ExtraFilters(extras)),
                        UsedSets(delivery, column, keys, extras))
  {
    match delivery
    case NothingMatches => EmptyFetch(w, pins, ds, scan, column, keys);
    case InlineList => InlineFetch(w, pins, ds, scan, column, keys, extras);
    case ExtrasAlone => WholeFetch(w, pins, ds, scan, extras);
    case WholeProbe =>
      if FetchTuples(w, pins, ds, scan, None).Ok? {
        AllHit(FetchTuples(w, pins, ds, scan, None).value);
      }
  }

  /** What the semi-join answers: its relation under its own filter and membership in the ingested keys. */
  lemma {:induction false} SemiJoinShape(w: World, spec: DsSpec, scan: ScanSpec, column: string, keys: Table, q: Query)
    requires TempJoinQuery(scan, KeyName(keys), column) == Ok(q)
    requires Answer(w, spec, KeyTemps(keys), q).Some?
    ensures keys.schema != [] && (scan.rawSql.None? ==> scan.table.Some? && scan.columns != [])
    ensures var from := FromItem(w, spec, KeyTemps(keys), FromOf(scan));
            && from.Some? && (scan.rawSql.None? ==> HasColumns(from.value.schema, scan.columns))
            && Answer(w, spec, KeyTemps(keys), q).value ==
                 Stored(ProjectSchema(from.value.schema, OutputColumns(scan)),
                        SelectTuples(w, KeyTemps(keys), from.value, OutputColumns(scan),
                                     OwnFilter(scan) + [InTemp(column, KeyName(keys), DYN_KEYS_TEMP_TABLE)]))
  {
    var own, membership := OwnFilter(scan), InTemp(column, KeyName(keys), DYN_KEYS_TEMP_TABLE);
    assert [] + [membership] == [membership];
    assert q.where_ == own + [membership];
    assert (own + [membership])[|own|] == membership;
    assert Resolves(KeyTemps(keys), FromItem(w, spec, KeyTemps(keys), FromOf(scan)).value.schema, q);
  }

  /** The server-side semi-join answers exactly the plain scan's tuples whose key is ingested. */
  lemma {:induction false} SemiJoinFetch(w: World, pins: Pins, ds: string, scan: ScanSpec, column: string, keys: Table,
                                         q: Query)
    requires !scan.distinct && scan.limit.None?
    requires scan.rawSql.None? ==> column in scan.columns
    requires ds in w.registry && SameFromItem(w, pins, w.registry[ds], scan, keys)
    requires TempJoinQuery(scan, KeyName(keys), column) == Ok(q)
    requires Answer(w, w.registry[ds], KeyTemps(keys), q).Some?
    ensures FetchTuples(w, pins, ds, scan, None).Ok?
    ensures Answer(w, w.registry[ds], KeyTemps(keys), q).value ==
              HitTuples(FetchTuples(w, pins, ds, scan, None).value, [KeySet(column, keys)])
  {
    var spec := w.registry[ds];
    var membership := InTemp(column, KeyName(keys), DYN_KEYS_TEMP_TABLE);
    SemiJoinShape(w, spec, scan, column, keys, q);
    var s := FromItem(w, spec, KeyTemps(keys), FromOf(scan)).value;
    if scan.rawSql.None? {
      PlainAnswer(w, pins, ds, scan, s);
    }
    BaseShape(w, pins, ds, scan);
    MembershipSelects(w, s.schema, column, keys);
    NarrowedScan(w, VisibleTemps(pins, spec), KeyTemps(keys), s, OutputColumns(scan), OwnFilter(scan), [membership],
                 [KeySet(column, keys)]);
  }

  /** The temp-table strategy: the generic semi-join, or the planner's prerendered island. */
  lemma {:induction false} TempTableFetch(w: World, pins: Pins, ds: string, scan: ScanSpec, column: string, keys: Table)
    requires !scan.distinct && scan.limit.None? && (scan.rawSql.None? ==> column in scan.columns)
    requires ds in w.registry && SessionAgrees(w, pins, w.registry[ds], scan, column, keys)
    ensures ReadsHits(w, pins, ds, scan, TempTableProbe(w, w.registry[ds], scan, keys, column), [KeySet(column, keys)])
  {
    if TempTableProbe(w, w.registry[ds], scan, keys, column).Ok? && scan.injectedSql.None? {
      SemiJoinFetch(w, pins, ds, scan, column, keys, TempJoinQuery(scan, KeyName(keys), column).value);
    }
  }

  // --- the parallel read ---------------------------------------------------------------------------------------

  /** Each partition reads its page range of the statically filtered table. */
  lemma {:induction false} PartitionReadsItsRange(w: World, spec: DsSpec, scan: ScanSpec, range: (nat, nat))
    requires scan.table.Some?
    ensures var a := Answer(w, spec, map[], PartitionQuery(scan, range));
            var s := w.stored(spec, scan.schema, scan.table.value);
            a.Some? ==>
              && s.Some? && HasColumns(s.value.schema, scan.columns)
              && a.value.schema == ProjectSchema(s.value.schema, Some(scan.columns))
              && a.value.heap == Map(Projector(s.value.schema, Some(scan.columns)),
                                     ReadRange(s.value.heap, Keeper(w, map[], s.value.schema, StaticFilter(scan)),
                                       range))
  {
    var s := w.stored(spec, scan.schema, scan.table.value);
    if s.Some? {
      var keep := Keeper(w, map[], s.value.schema, StaticFilter(scan));
      FilterCongruence(Keeper(w, map[], s.value.schema, PartitionQuery(scan, range).where_),
                       (t: Tuple) => InRange(range, t) && keep(t), s.value.heap);
    }
  }

  lemma {:induction false} GatheredRanges(w: World, spec: DsSpec, scan: ScanSpec, ranges: seq<(nat, nat)>)
    requires scan.table.Some? && ranges != []
    requires GatherPartitions(w, spec, scan, ranges).Ok?
    ensures var s := w.stored(spec, scan.schema, scan.table.value);
            var parts := GatherPartitions(w, spec, scan, ranges).value;
            && s.Some? && HasColumns(s.value.schema, scan.columns)
            && parts.schema == ProjectSchema(s.value.schema, Some(scan.columns))
            && Flat(parts.heaps) ==
                 Map(Projector(s.value.schema, Some(scan.columns)),
                     ReadRanges(s.value.heap, Keeper(w, map[], s.value.schema, StaticFilter(scan)), ranges))
  {
    PartitionReadsItsRange(w, spec, scan, ranges[0]);
    var s := w.stored(spec, scan.schema, scan.table.value).value;
    var ask, schema, f := Asker(w, spec, scan), ProjectSchema(s.schema, Some(scan.columns)),
      Projector(s.schema, Some(scan.columns));
    var keep := Keeper(w, map[], s.schema, StaticFilter(scan));
    forall range | ask(range).Ok? ensures ask(range).value == Stored(schema, Map(f, ReadRange(s.heap, keep, range))) {
      PartitionReadsItsRange(w, spec, scan, range);
    }
    GatheredHeaps(ask, schema, f, s.heap, keep, ranges);
  }

  lemma {:induction false} GatheredHeaps(ask: ((nat, nat)) -> Result<Stored>, schema: seq<Field>, f: Tuple -> Tuple,
                                         heap: seq<Tuple>, keep: Tuple -> bool, ranges: seq<(nat, nat)>)
    requires ranges != [] && Gather(ask, ranges).Ok?
    requires forall range :: ask(range).Ok? ==> ask(range).value == Stored(schema, Map(f, ReadRange(heap, keep, range)))
    ensures Gather(ask, ranges).value.schema == schema
    ensures Flat(Gather(ask, ranges).value.heaps) == Map(f, ReadRanges(heap, keep, ranges))
  {
    var heaps := Gather(ask, ranges).value.heaps;
    if |ranges| == 1 {
      assert heaps[1..] == [] && ReadRanges(heap, keep, ranges[1..]) == [];
    } else {
      GatheredHeaps(ask, schema, f, heap, keep, ranges[1..]);
      assert heaps[1..] == Gather(ask, ranges[1..]).value.heaps;
      MapAppend(f, ReadRange(heap, keep, ranges[0]), ReadRanges(heap, keep, ranges[1..]));
    }
  }

  /** A parallel read reads ranges that tile the page space, however stale the page count. */
  lemma {:induction false} ParallelRanges(w: World, ds: string, scan: ScanSpec) returns (ranges: seq<(nat, nat)>)
    requires ParallelScan(w, ds, scan).Ok?
    ensures ds in w.registry && w.registry[ds].kind == Postgres && scan.table.Some? && Tiles(ranges)
    ensures ParallelScan(w, ds, scan) == ReadRangesOf(w, w.registry[ds], scan, ranges)
  {
    ranges := PlannedRanges(w.pages(w.registry[ds], scan.schema, scan.table.value).value);
  }

  function PlainSpec(scan: ScanSpec): ScanSpec {
    scan.(rawSql := None, distinct := false, limit := None)
  }

  /** The partitions hold the plain scan's tuples, in its order. */
  lemma {:induction false} TiledTuples(w: World, pins: Pins, ds: string, scan: ScanSpec, ranges: seq<(nat, nat)>)
    requires ds in w.registry && w.registry[ds].kind == Postgres && scan.table.Some? && scan.columns != []
    requires Tiles(ranges)
    requires Ordered(w, w.registry[ds], scan)
    requires GatherPartitions(w, w.registry[ds], scan, ranges).Ok?
    ensures var parts := GatherPartitions(w, w.registry[ds], scan, ranges).value;
            && parts.schema != []
            && FetchTuples(w, pins, ds, PlainSpec(scan), None) == Ok(Stored(parts.schema, Flat(parts.heaps)))
  {
    var spec, plain := w.registry[ds], PlainSpec(scan);
    GatheredRanges(w, spec, scan, ranges);
    var s := w.stored(spec, scan.schema, scan.table.value).value;
    TilingReadsAll(s.heap, Keeper(w, map[], s.schema, StaticFilter(scan)), ranges);
    assert VisibleTemps(pins, spec) == map[] && StaticFilter(plain) == StaticFilter(scan);
    PlainAnswer(w, pins, ds, plain, s);
    BaseShape(w, pins, ds, plain);
  }

  /**
   * A partitioned read, over any ranges that tile the page space, is the plain read of the table without DISTINCT and
   * LIMIT, row for row and type for type, if and only if the widest scales survive the split.
   */
  lemma {:induction false} TiledReadIff(w: World, pins: Pins, ds: string, scan: ScanSpec, ranges: seq<(nat, nat)>)
    requires ds in w.registry && w.registry[ds].kind == Postgres && scan.table.Some? && scan.columns != []
    requires Tiles(ranges)
    requires Ordered(w, w.registry[ds], scan)
    ensures ReadRangesOf(w, w.registry[ds], scan, ranges).Ok? ==>
              var parts := GatherPartitions(w, w.registry[ds], scan, ranges).value;
              ReadRangesOf(w, w.registry[ds], scan, ranges) == FetchScan(w, pins, ds, PlainSpec(scan), None) <==>
                ScalesSurvive(parts.schema, w.cut, parts.heaps)
  {
    if ReadRangesOf(w, w.registry[ds], scan, ranges).Ok? {
      var parts := GatherPartitions(w, w.registry[ds], scan, ranges).value;
      TiledTuples(w, pins, ds, scan, ranges);
      PartsReadIff(parts.schema, w.cut, parts.heaps);
    }
  }

  /** Where the plain read keeps every value, the parallel read is that read, type for type. */
  lemma {:induction false} ParallelReadIsPlainRead(w: World, pins: Pins, ds: string, scan: ScanSpec)
    requires scan.columns != [] && (ds in w.registry ==> Ordered(w, w.registry[ds], scan))
    requires Kept(w, pins, ds, PlainSpec(scan))
    ensures ParallelScan(w, ds, scan).Ok? ==> ParallelScan(w, ds, scan) == FetchScan(w, pins, ds, PlainSpec(scan), None)
  {
    if ParallelScan(w, ds, scan).Ok? {
      var ranges := ParallelRanges(w, ds, scan);
      var parts := GatherPartitions(w, w.registry[ds], scan, ranges).value;
      TiledTuples(w, pins, ds, scan, ranges);
      KeptSurvive(parts.schema, w.cut, parts.heaps);
    }
  }

  /** The same rows, and the same schema up to the scales of decimals. */
  ghost predicate SameRead(a: Table, b: Table) {
    a.rows == b.rows && SameShape(a.schema, b.schema)
  }

  /** Where no value that fits alone is lost, the parallel read has the rows of the plain read. */
  lemma {:induction false} ParallelReadHasPlainRows(w: World, pins: Pins, ds: string, scan: ScanSpec)
    requires scan.columns != [] && (ds in w.registry ==> Ordered(w, w.registry[ds], scan))
    requires var plain := FetchTuples(w, pins, ds, PlainSpec(scan), None); plain.Ok? ==> StableTyping(plain.value)
    ensures ParallelScan(w, ds, scan).Ok? ==>
              && FetchScan(w, pins, ds, PlainSpec(scan), None).Ok?
              && SameRead(ParallelScan(w, ds, scan).value, FetchScan(w, pins, ds, PlainSpec(scan), None).value)
  {
    if ParallelScan(w, ds, scan).Ok? {
      var ranges := ParallelRanges(w, ds, scan);
      var parts := GatherPartitions(w, w.registry[ds], scan, ranges).value;
      TiledTuples(w, pins, ds, scan, ranges);
      StablePartsRead(parts.schema, w.cut, parts.heaps);
    }
  }

  // --- every delivery -----------------------------------------------------------------------------------------------

  lemma {:induction false} AllHit(s: Stored)
    ensures HitTuples(s, []) == s
  {
    FilterEverything(TupleHitter(s.schema, []), s.heap);
  }

  /** An unindexed Postgres probe and an unselective one read whole. */
  lemma {:induction false} UnselectiveFetch(w: World, pins: Pins, ds: string, scan: ScanSpec)
    requires scan == PlainSpec(scan) && scan.columns != []
    requires ds in w.registry && Ordered(w, w.registry[ds], scan)
    requires Fitting(w.registry[ds], WholeProbe, FetchTuples(w, pins, ds, scan, None))
    ensures UnselectiveProbe(w, pins, w.registry[ds], ds, scan).Ok? ==>
              && FetchScan(w, pins, ds, scan, None).Ok?
              && SameRead(UnselectiveProbe(w, pins, w.registry[ds], ds, scan).value,
                   FetchScan(w, pins, ds, scan, None).value)
  {
    if w.registry[ds].kind == Postgres {
      ParallelReadHasPlainRows(w, pins, ds, scan);
    }
  }

  /** The deliveries that one query answers; the partitioned read of Postgres takes several. */
  predicate OneQuery(spec: DsSpec, delivery: Delivery) {
    spec.kind == Postgres ==> delivery != WholeProbe
  }

  /**
   * Every branch of the delivery cascade that one query answers, on every key count, source kind and statistic, reads
   * exactly the plain scan's tuples that the key sets it uses can join, in the plain scan's order.
   */
  lemma {:induction false} DeliveryReads(w: World, pins: Pins, ds: string, scan: ScanSpec, column: string, keys: Table,
                                         ndv: Option<nat>, extras: seq<KeySet>)
    requires Deliverable(w, pins, ds, scan, column, keys, ndv, extras)
    ensures ds in w.registry && OneQuery(w.registry[ds], Chosen(w, w.registry[ds], scan, column, keys, ndv)) ==>
              ReadsHits(w, pins, ds, scan, RunInjectedScan(w, pins, ds, scan, column, keys, ndv, extras),
                        UsedSets(Chosen(w, w.registry[ds], scan, column, keys, ndv), column, keys, extras))
  {
    if ds in w.registry {
      var delivery := Chosen(w, w.registry[ds], scan, column, keys, ndv);
      if delivery == SemiJoin {
        TempTableFetch(w, pins, ds, scan, column, keys);
      } else if OneQuery(w.registry[ds], delivery) {
        ScanDelivers(w, pins, ds, scan, column, keys, extras, delivery);
      }
    }
  }

  /** The one delivery that several queries answer reads the plain scan whole. */
  lemma {:induction false} PartitionedDelivery(w: World, pins: Pins, ds: string, scan: ScanSpec, column: string,
                                               keys: Table, ndv: Option<nat>, extras: seq<KeySet>)
    requires Injectable(w, pins, ds, scan, column, keys, ndv, extras) && ds in w.registry
    requires !OneQuery(w.registry[ds], Chosen(w, w.registry[ds], scan, column, keys, ndv))
    ensures var fetched := RunInjectedScan(w, pins, ds, scan, column, keys, ndv, extras);
            fetched.Ok? ==>
              && FetchScan(w, pins, ds, scan, None).Ok?
              && SameRead(fetched.value, FetchScan(w, pins, ds, scan, None).value)
  {
    var fetched := RunInjectedScan(w, pins, ds, scan, column, keys, ndv, extras);
    if fetched.Ok? {
      assert scan.rawSql.None? && column in scan.columns && PlainSpec(scan) == scan;
      UnselectiveFetch(w, pins, ds, scan);
    }
  }

  /** The rows a part of a read answer holds, and its schema, up to the scales of its decimals. */
  lemma {:induction false} HitRows(kind: DsKind, s: Stored, ks: seq<KeySet>)
    requires kind == Postgres ==> KeepsValues(s)
    ensures Read(kind, HitTuples(s, ks)).rows == Hitting(Read(kind, s), ks)
    ensures SameShape(Read(kind, HitTuples(s, ks)).schema, Read(kind, s).schema)
  {
    FilterWithin(TupleHitter(s.schema, ks), s.heap);
    ReadPart(kind, s, HitTuples(s, ks).heap);
    ReadPart(kind, s, s.heap);
    assert Stored(s.schema, s.heap) == s;
    forall t: Tuple ensures TupleHitter(s.schema, ks)(t) <==> Hitter(Read(kind, s).schema, ks)(t.row) {
      forall i | 0 <= i < |ks| ensures Hits(s.schema, t.row, ks[i]) == Hits(Read(kind, s).schema, t.row, ks[i]) {
        ReadShape(kind, s, ks[i].column);
      }
    }
    var all := (t: Tuple) => true;
    FilterEverything(all, s.heap);
    FilterThrough(all, TupleHitter(s.schema, ks), RowOf(), Hitter(Read(kind, s).schema, ks), s.heap);
  }

  /** What a delivery fetches where every value is kept: the plain scan's rows that its key sets can join, in order. */
  lemma {:induction false} DeliveryFetches(w: World, pins: Pins, ds: string, scan: ScanSpec, column: string,
                                           keys: Table, ndv: Option<nat>, extras: seq<KeySet>)
    requires Deliverable(w, pins, ds, scan, column, keys, ndv, extras) && Kept(w, pins, ds, scan)
    ensures var fetched := RunInjectedScan(w, pins, ds, scan, column, keys, ndv, extras);
            fetched.Ok? ==>
              && ds in w.registry && FetchScan(w, pins, ds, scan, None).Ok?
              && var used := UsedSets(Chosen(w, w.registry[ds], scan, column, keys, ndv), column, keys, extras);
                 && fetched.value.rows == Hitting(FetchScan(w, pins, ds, scan, None).value, used)
                 && SameShape(fetched.value.schema, FetchScan(w, pins, ds, scan, None).value.schema)
  {
    var fetched := RunInjectedScan(w, pins, ds, scan, column, keys, ndv, extras);
    if fetched.Ok? {
      var delivery := Chosen(w, w.registry[ds], scan, column, keys, ndv);
      if OneQuery(w.registry[ds], delivery) {
        DeliveryReads(w, pins, ds, scan, column, keys, ndv, extras);
        HitRows(w.registry[ds].kind, FetchTuples(w, pins, ds, scan, None).value,
          UsedSets(delivery, column, keys, extras));
      } else {
        assert scan.rawSql.None? && column in scan.columns && PlainSpec(scan) == scan;
        ParallelReadIsPlainRead(w, pins, ds, scan);
        AllRowsHit(FetchScan(w, pins, ds, scan, None).value);
      }
    }
  }

  lemma {:induction false} AllRowsHit(t: Table)
    ensures Hitting(t, []) == t.rows
  {
    FilterEverything(Hitter(t.schema, []), t.rows);
  }

  // --- reads that keep less than every value --------------------------------------------------------------------

  lemma {:induction false} MapMonotone<T(!new), U>(f: T -> U, p: T -> bool, q: T -> bool, s: seq<T>)
    requires forall x :: x in s && p(x) ==> q(x)
    ensures multiset(Map(f, Filter(p, s))) <= multiset(Map(f, Filter(q, s)))
  {
    if s != [] {
      assert forall x :: x in s[1..] ==> x in s;
      MapMonotone(f, p, q, s[1..]);
      FilterHead(p, f, s);
      FilterHead(q, f, s);
    }
  }

  /** The peers of a joinable tuple are joinable. */
  lemma {:induction false} PeersHit(s: Stored, ks: seq<KeySet>, t: Tuple)
    requires TupleHitter(s.schema, ks)(t)
    ensures forall u :: u in Peers(s, t) ==> u in HitTuples(s, ks).heap
  {
    FilterWithin(Peering(s.schema, t), s.heap);
    FilterWithin(TupleHitter(s.schema, ks), s.heap);
    forall u | u in Peers(s, t) ensures u in HitTuples(s, ks).heap {
      forall j | 0 <= j < |ks| ensures Hits(s.schema, u.row, ks[j]) {
        assert Hits(s.schema, t.row, ks[j]);
        var i := IndexOf(s.schema, ks[j].column).value;
        assert Cell(s.schema, t.row, s.schema[i].name) != Null;
      }
    }
  }

  /** Where nothing turns, the part that some key sets can join is typed, tuple by tuple, as in the whole. */
  lemma {:induction false} HitsTypedAlike(s: Stored, ks: seq<KeySet>)
    requires NothingTurns(s)
    ensures TypedAlike(s, HitTuples(s, ks).heap)
  {
    var part := HitTuples(s, ks).heap;
    FilterWithin(TupleHitter(s.schema, ks), s.heap);
    forall k: nat | k < |part|
      ensures TypedRow(s.schema, ScalesOf(part), part[k]) == TypedRow(s.schema, ScalesOf(s.heap), part[k])
    {
      assert part[k] in part;
      PeersHit(s, ks, part[k]);
      forall i: nat | i < |s.schema| && s.schema[i].dtype == Numeric
        ensures TypedValue(ScaleAt(part, i), TextAt(i)(part[k])) == TypedValue(ScaleAt(s.heap, i), TextAt(i)(part[k]))
      {
        PeerCell(s, part, part[k], i);
      }
    }
  }

  lemma {:induction false} PeerCell(s: Stored, part: seq<Tuple>, t: Tuple, i: nat)
    requires NothingTurns(s) && i < |s.schema| && s.schema[i].dtype == Numeric && t in s.heap
    requires forall u :: u in part ==> u in s.heap
    requires forall u :: u in Peers(s, t) ==> u in part
    ensures TypedValue(ScaleAt(part, i), TextAt(i)(t)) == TypedValue(ScaleAt(s.heap, i), TextAt(i)(t))
  {
    FilterWithin(Peering(s.schema, t), s.heap);
    assert t in Peers(s, t);
    var m :| 0 <= m < |Peers(s, t)| && Peers(s, t)[m] == t;
    ScalesWithin(part, Peers(s, t), m, i);
    PartScales(s.heap, part, i);
    ScalesWithin(s.heap, s.heap, IndexIn(s.heap, t), i);
    assert Settled(s, s.heap[IndexIn(s.heap, t)], i);
    BetweenScales(TextAt(i)(t), ScaleAt(Peers(s, t), i), ScaleAt(part, i), ScaleAt(s.heap, i));
  }

  function IndexIn(heap: seq<Tuple>, t: Tuple): (k: nat)
    requires t in heap
    ensures k < |heap| && heap[k] == t
  {
    if heap[0] == t then 0 else 1 + IndexIn(heap[1..], t)
  }

  /** A row that is read as one some key sets can join was one before it was typed. */
  lemma {:induction false} TypedHitsAreHits(s: Stored, ks: seq<KeySet>, t: Tuple)
    requires NothingTurns(s) && t in s.heap
    requires HitsAll(Read(Postgres, s).schema, TypedRow(s.schema, ScalesOf(s.heap), t), ks)
    ensures TupleHitter(s.schema, ks)(t)
  {
    forall j | 0 <= j < |ks| ensures Hits(s.schema, t.row, ks[j]) {
      ReadShape(Postgres, s, ks[j].column);
      assert Hits(Read(Postgres, s).schema, TypedRow(s.schema, ScalesOf(s.heap), t), ks[j]);
      var i := IndexOf(s.schema, ks[j].column).value;
      assert s.schema[i].dtype == Numeric ==> Settled(s, s.heap[IndexIn(s.heap, t)], i);
    }
  }

  /** Where nothing turns, reading what some key sets can join lies between their joinable rows and the plain read. */
  lemma {:induction false} HitSandwich(s: Stored, ks: seq<KeySet>)
    requires NothingTurns(s)
    ensures Sandwiched(Read(Postgres, s), Read(Postgres, HitTuples(s, ks)), ks)
  {
    var base := Read(Postgres, s);
    var f := RowTyper(s.schema, ScalesOf(s.heap));
    HitsTypedAlike(s, ks);
    assert Read(Postgres, HitTuples(s, ks)).rows == Map(f, Filter(TupleHitter(s.schema, ks), s.heap));
    forall t | t in s.heap && Hitter(base.schema, ks)(f(t)) ensures TupleHitter(s.schema, ks)(t) {
      TypedHitsAreHits(s, ks, t);
    }
    SandwichedMaps(f, TupleHitter(s.schema, ks), Hitter(base.schema, ks), s.heap);
  }

  /** What passes after a map, what passes before it, and the whole. */
  lemma {:induction false} SandwichedMaps<T(!new), U>(f: T -> U, before: T -> bool, after: U -> bool, s: seq<T>)
    requires forall t :: t in s && after(f(t)) ==> before(t)
    ensures multiset(Filter(after, Map(f, s))) <= multiset(Map(f, Filter(before, s))) <= multiset(Map(f, s))
  {
    var all, mapped := (t: T) => true, (t: T) => after(f(t));
    FilterEverything(all, s);
    FilterThrough(all, mapped, f, after, s);
    MapMonotone(f, mapped, before, s);
    MapMonotone(f, before, all, s);
  }

  /** A delivery uses no key set that is not given. */
  lemma {:induction false} UsedAreGiven(delivery: Delivery, column: string, keys: Table, extras: seq<KeySet>)
    ensures forall k :: k in UsedSets(delivery, column, keys, extras) ==> k in [KeySet(column, keys)] + extras
  {
    FilterWithin(Riders(), extras);
  }

  /** Rows that more key sets can join are among those that fewer can. */
  lemma {:induction false} FewerKeySets(base: Table, used: seq<KeySet>, ks: seq<KeySet>)
    requires forall k :: k in used ==> k in ks
    ensures multiset(Hitting(base, ks)) <= multiset(Hitting(base, used)) <= multiset(base.rows)
  {
    FilterIsPart(Hitter(base.schema, used), base.rows);
    forall x ensures multiset(Hitting(base, ks))[x] <= multiset(Hitting(base, used))[x] {
      FilterCount(Hitter(base.schema, ks), base.rows, x);
      FilterCount(Hitter(base.schema, used), base.rows, x);
      HitsFewer(base.schema, x, used, ks);
    }
  }

  lemma {:induction false} HitsFewer(schema: seq<Field>, row: Row, used: seq<KeySet>, ks: seq<KeySet>)
    requires forall k :: k in used ==> k in ks
    ensures HitsAll(schema, row, ks) ==> HitsAll(schema, row, used)
  {
    if HitsAll(schema, row, ks) {
      forall i | 0 <= i < |used| ensures Hits(schema, row, used[i]) {
        assert used[i] in ks;
      }
    }
  }

  /** A read of what some of the key sets can join is sandwiched for all of them. */
  lemma {:induction false} MoreKeySets(base: Table, fetched: Table, used: seq<KeySet>, ks: seq<KeySet>)
    requires Sandwiched(base, fetched, used) && forall k :: k in used ==> k in ks
    ensures Sandwiched(base, fetched, ks)
  {
    FewerKeySets(base, used, ks);
  }

  lemma {:induction false} ReadSandwich(kind: DsKind, s: Stored, used: seq<KeySet>, ks: seq<KeySet>)
    requires (kind == Postgres ==> NothingTurns(s)) && forall k :: k in used ==> k in ks
    ensures Sandwiched(Read(kind, s), Read(kind, HitTuples(s, used)), ks)
  {
    if kind == Postgres {
      HitSandwich(s, used);
    } else {
      HitRows(kind, s, used);
      FewerKeySets(Read(kind, s), used, used);
    }
    MoreKeySets(Read(kind, s), Read(kind, HitTuples(s, used)), used, ks);
  }

  lemma {:induction false} WholeSandwich(base: Table, fetched: Table, ks: seq<KeySet>)
    requires SameRead(fetched, base)
    ensures Sandwiched(base, fetched, ks)
  {
    AllRowsHit(base);
    MoreKeySets(base, fetched, [], ks);
  }

  /**
   * So the fetched multiset holds every base row that the primary keys and all extra key sets can join, and nothing
   * beyond the base scan.
   */
  lemma {:induction false} StrategySandwich(w: World, pins: Pins, ds: string, scan: ScanSpec, column: string,
                                            keys: Table, ndv: Option<nat>, extras: seq<KeySet>)
    requires Injectable(w, pins, ds, scan, column, keys, ndv, extras)
    ensures RunInjectedScan(w, pins, ds, scan, column, keys, ndv, extras).Ok? ==>
              && FetchScan(w, pins, ds, scan, None).Ok?
              && Sandwiched(FetchScan(w, pins, ds, scan, None).value,
                            RunInjectedScan(w, pins, ds, scan, column, keys, ndv, extras).value,
                            [KeySet(column, keys)] + extras)
  {
    var fetched := RunInjectedScan(w, pins, ds, scan, column, keys, ndv, extras);
    if fetched.Ok? {
      var ks := [KeySet(column, keys)] + extras;
      var delivery := Chosen(w, w.registry[ds], scan, column, keys, ndv);
      if OneQuery(w.registry[ds], delivery) {
        DeliveryReads(w, pins, ds, scan, column, keys, ndv, extras);
        UsedAreGiven(delivery, column, keys, extras);
        ReadSandwich(w.registry[ds].kind, FetchTuples(w, pins, ds, scan, None).value,
                     UsedSets(delivery, column, keys, extras), ks);
      } else {
        PartitionedDelivery(w, pins, ds, scan, column, keys, ndv, extras);
        WholeSandwich(FetchScan(w, pins, ds, scan, None).value, fetched.value, ks);
      }
    }
  }
}

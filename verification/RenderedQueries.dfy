/** The rendered SQL of a scan reads back as the query that the model gives it. */
module RenderedQueries {
  import opened Outcomes
  import opened Ir
  import opened Sources
  import opened Injection
  import Sql

  /** A semi-join with ingested keys, from the parts of its text. */
  function ReadSemiJoin(p: Sql.Skeleton): Option<Query> {
    match Sql.After(" WHERE ", p.rest)
    case None => None
    case Some(condition) =>
      match Sql.ParseMembership(condition)
      case None => None
      case Some((probe, key, temp)) =>
        Some(Select(Base(p.from.schema, p.from.table), Some(p.columns), p.distinct, None, [InTemp(probe, key, temp)]))
  }

  /** The query that a text without a static filter is: a scan with its limit, or a semi-join with ingested keys. */
  function ReadBack(text: string): Option<Query> {
    match Sql.ParseSkeleton(text)
    case None => None
    case Some(p) =>
      match Sql.ParseLimit(p.rest)
      case Some(limit) => Some(Select(Base(p.from.schema, p.from.table), Some(p.columns), p.distinct, limit, []))
      case None => ReadSemiJoin(p)
  }

  /** The text of a scan without a filter is its query: the same table, columns, DISTINCT and LIMIT. */
  lemma {:induction false} ScanTextIsQuery(scan: ScanSpec)
    requires scan.rawSql.None? && scan.table.Some? && scan.columns != [] && scan.filter.None?
    ensures ScanQuery(scan, None).Ok?
    ensures ReadBack(Sql.ScanText(scan, scan.table.value, None)) == Some(ScanQuery(scan, None).value)
  {
    Sql.ScanRoundTrip(scan, scan.table.value, None);
    assert StaticFilter(scan) + [] == [];
  }

  /** The text of a semi-join without a static filter is its query. */
  lemma {:induction false} TempJoinTextIsQuery(scan: ScanSpec, key: string, column: string)
    requires scan.rawSql.None? && scan.table.Some? && scan.columns != [] && scan.filter.None?
    ensures TempJoinQuery(scan, key, column).Ok?
    ensures ReadBack(Sql.TempJoinText(scan, scan.table.value, None, DYN_KEYS_TEMP_TABLE, key, column)) ==
              Some(TempJoinQuery(scan, key, column).value)
  {
    Sql.TempJoinRoundTrip(scan, scan.table.value, None, DYN_KEYS_TEMP_TABLE, key, column);
    ReadsSemiJoin(Sql.TempJoinText(scan, scan.table.value, None, DYN_KEYS_TEMP_TABLE, key, column), scan, key, column);
  }

  lemma {:induction false} ReadsSemiJoin(text: string, scan: ScanSpec, key: string, column: string)
    requires scan.rawSql.None? && scan.table.Some? && scan.columns != [] && scan.filter.None?
    requires Sql.ParseSkeleton(text).Some?
    requires var p := Sql.ParseSkeleton(text).value;
             && !p.distinct && p.columns == scan.columns
             && p.from == Sql.Reference(scan.schema, scan.table.value, scan.alias)
             && Sql.After(" WHERE ", p.rest).Some?
             && Sql.ParseMembership(Sql.After(" WHERE ", p.rest).value) == Some((column, key, DYN_KEYS_TEMP_TABLE))
    ensures ReadBack(text) == Some(TempJoinQuery(scan, key, column).value)
  {
    WhereIsNoLimit(Sql.ParseSkeleton(text).value.rest);
    var membership := InTemp(column, key, DYN_KEYS_TEMP_TABLE);
    assert StaticFilter(scan) + [membership] == [membership];
  }

  lemma {:induction false} WhereIsNoLimit(rest: string)
    requires Sql.After(" WHERE ", rest).Some?
    ensures Sql.ParseLimit(rest) == None
  {
    assert rest[1] == 'W';
    Sql.NotAfter(" LIMIT ", rest, 1);
  }

  /** A semi-join under a static filter asks for that filter and for membership in the ingested keys. */
  lemma {:induction false} FilteredTempJoin(scan: ScanSpec, key: string, column: string)
    requires scan.rawSql.None? && scan.table.Some? && scan.columns != [] && scan.filter.Some?
    ensures TempJoinQuery(scan, key, column) ==
              Ok(Select(Base(scan.schema, scan.table.value), Some(scan.columns), false, None,
                        [Matches(scan.filter.value), InTemp(column, key, "fedq_dyn_keys")]))
  {
    assert [Matches(scan.filter.value)] + [InTemp(column, key, DYN_KEYS_TEMP_TABLE)] ==
      [Matches(scan.filter.value), InTemp(column, key, DYN_KEYS_TEMP_TABLE)];
  }

  /**
   * The text of a semi-join under a static filter, whatever that renders to, names the table and columns of its query,
   * which asks for the filter and for the membership that the text and's to it.
   */
  lemma {:induction false} FilteredTempJoinTextIsQuery(scan: ScanSpec, filter: string, key: string, column: string)
    requires scan.rawSql.None? && scan.table.Some? && scan.columns != [] && scan.filter.Some?
    ensures var text := Sql.TempJoinText(scan, scan.table.value, Some(filter), DYN_KEYS_TEMP_TABLE, key, column);
            && TempJoinQuery(scan, key, column).Ok? && Sql.ParseSkeleton(text).Some?
            && var q, p := TempJoinQuery(scan, key, column).value, Sql.ParseSkeleton(text).value;
               && q.Select? && q.from == Base(p.from.schema, p.from.table) && q.columns == Some(p.columns)
               && !q.distinct && !p.distinct && q.limit.None?
               && |q.where_| == 2 && q.where_[0] == Matches(scan.filter.value) && q.where_[1].InTemp?
               && Sql.After(" WHERE " + filter + " AND ", p.rest).Some?
               && Sql.ParseMembership(Sql.After(" WHERE " + filter + " AND ", p.rest).value) ==
                    Some((q.where_[1].column, q.where_[1].keyColumn, q.where_[1].temp))
  {
    FilteredTempJoin(scan, key, column);
    Sql.TempJoinRoundTrip(scan, scan.table.value, Some(filter), DYN_KEYS_TEMP_TABLE, key, column);
    assert Sql.BeforeMembership(Some(filter)) == " WHERE " + filter + " AND ";
  }

  /** A prerendered scan is filtered as a derived table, and its semi-join on membership in the ingested keys. */
  lemma {:induction false} WrappedTextIsQuery(scan: ScanSpec, ps: seq<Pred>, key: string, column: string)
    requires scan.rawSql.Some?
    ensures ScanQuery(scan, Some(ps)) == Ok(Select(Derived(scan.rawSql.value), None, false, None, ps))
    ensures var text := Sql.WrappedText(scan.rawSql.value, Sql.Membership(DYN_KEYS_TEMP_TABLE, key, column));
            && TempJoinQuery(scan, key, column).Ok?
            && var q := TempJoinQuery(scan, key, column).value;
               && q.Select? && q.from == Derived(scan.rawSql.value) && q.columns.None? && !q.distinct && q.limit.None?
               && |q.where_| == 1 && q.where_[0].InTemp? && Sql.After("SELECT * FROM (", text).Some?
               && var inner := Sql.After(scan.rawSql.value + ") AS \"fedq_probe\" WHERE ",
                                         Sql.After("SELECT * FROM (", text).value);
                  && inner.Some?
                  && Sql.ParseMembership(inner.value) ==
                       Some((q.where_[0].column, q.where_[0].keyColumn, q.where_[0].temp))
  {
    Sql.WrappedRoundTrip(scan.rawSql.value, Sql.Membership(DYN_KEYS_TEMP_TABLE, key, column));
    Sql.MembershipRoundTrip(DYN_KEYS_TEMP_TABLE, key, column);
  }

  /**
   * Whatever text a filter renders to, the text of a scan names the table and columns of its query, and DISTINCT with
   * it; the query asks for the scan's own filter and for the dynamic one.
   */
  lemma {:induction false} FilteredTextIsQuery(scan: ScanSpec, extra: Option<seq<Pred>>, filter: Option<string>)
    requires scan.rawSql.None? && scan.table.Some? && scan.columns != []
    ensures ScanQuery(scan, extra).Ok? && Sql.ParseSkeleton(Sql.ScanText(scan, scan.table.value, filter)).Some?
    ensures var q, p := ScanQuery(scan, extra).value,
              Sql.ParseSkeleton(Sql.ScanText(scan, scan.table.value, filter)).value;
            && q.from == Base(p.from.schema, p.from.table) && q.columns == Some(p.columns) && q.distinct == p.distinct
            && q.where_ == (if scan.filter.Some? then [Matches(scan.filter.value)] else []) +
                 (if extra.Some? then extra.value else [])
            && (filter.None? ==> Sql.ParseLimit(p.rest) == Some(q.limit))
            && (filter.Some? ==> Sql.After(" WHERE " + filter.value, p.rest).Some?
                                 && Sql.ParseLimit(Sql.After(" WHERE " + filter.value, p.rest).value) == Some(q.limit))
  {
    Sql.ScanRoundTrip(scan, scan.table.value, filter);
    if filter.Some? {
      Sql.AfterPrefix(" WHERE " + filter.value, Sql.LimitText(scan.limit));
      Sql.LimitRoundTrip(scan.limit);
    }
  }
}

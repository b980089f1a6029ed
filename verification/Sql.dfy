/** Rendering scans to SQL, and reading every name back out of the rendered text. */
module Sql {
  import opened Outcomes
  import opened Ir

  // --- identifiers -----------------------------------------------------------------------------------

  function Escape(name: string): string {
    if name == "" then ""
    else (if name[0] == '"' then "\"\"" else [name[0]]) + Escape(name[1..])
  }

  /** A delimited identifier: quoted, inner quotes doubled (section 5.2 of ISO/IEC 9075:1992). */
  function QuoteIdent(name: string): string {
    "\"" + Escape(name) + "\""
  }

  /** The body of a delimited identifier up to its closing quote, and what follows. */
  function Unquote(s: string): Option<(string, string)> {
    if s == "" then None
    else if s[0] == '"' then
      if 1 < |s| && s[1] == '"' then
        match Unquote(s[2..])
        case None => None
        case Some(parsed) => Some(("\"" + parsed.0, parsed.1))
      else Some(("", s[1..]))
    else
      match Unquote(s[1..])
      case None => None
      case Some(parsed) => Some(([s[0]] + parsed.0, parsed.1))
  }

  function ParseIdent(s: string): Option<(string, string)> {
    if s == "" || s[0] != '"' then None else Unquote(s[1..])
  }

  /** Whatever follows an identifier must not continue it. */
  predicate EndsIdent(rest: string) {
    rest == "" || rest[0] != '"'
  }

  lemma {:induction false} UnquoteEscaped(name: string, rest: string)
    requires EndsIdent(rest)
    ensures Unquote(Escape(name) + "\"" + rest) == Some((name, rest))
  {
    var s := Escape(name) + "\"" + rest;
    if name == "" {
      assert s == "\"" + rest;
      assert s[1..] == rest;
    } else {
      UnquoteEscaped(name[1..], rest);
      var tail := Escape(name[1..]) + "\"" + rest;
      if name[0] == '"' {
        assert s == "\"\"" + tail;
        assert s[2..] == tail;
      } else {
        assert s == [name[0]] + tail;
        assert s[1..] == tail;
      }
      assert name == [name[0]] + name[1..];
    }
  }

  /** A quoted name reads back as itself, whatever quotes, dots or commas it contains. */
  lemma {:induction false} IdentRoundTrip(name: string, rest: string)
    requires EndsIdent(rest)
    ensures ParseIdent(QuoteIdent(name) + rest) == Some((name, rest))
  {
    UnquoteEscaped(name, rest);
    var s := QuoteIdent(name) + rest;
    assert s[1..] == Escape(name) + "\"" + rest;
  }

  // --- lists, table references and numbers ----------------------------------------------------------------

  function JoinQuoted(names: seq<string>): string {
    if names == [] then ""
    else if |names| == 1 then QuoteIdent(names[0])
    else QuoteIdent(names[0]) + ", " + JoinQuoted(names[1..])
  }

  /** What follows a prefix, if the text starts with it. */
  function After(prefix: string, s: string): Option<string> {
    if prefix <= s then Some(s[|prefix|..]) else None
  }

  lemma {:induction false} Assoc(a: string, b: string, c: string)
    ensures (a + b) + c == a + (b + c)
  {
  }

  /** A text that differs from a prefix somewhere does not start with it. */
  lemma {:induction false} NotAfter(prefix: string, s: string, k: nat)
    requires k < |prefix| && (|s| <= k || s[k] != prefix[k])
    ensures After(prefix, s).None?
  {
  }

  lemma {:induction false} AfterPrefix(prefix: string, s: string)
    ensures After(prefix, prefix + s) == Some(s)
  {
  }

  function ParseList(s: string): Option<(seq<string>, string)>
    decreases |s|
  {
    match ParseIdent(s)
    case None => None
    case Some((name, rest)) =>
      match After(", ", rest)
      case None => Some(([name], rest))
      case Some(more) =>
        if |more| >= |s| then None
        else
          match ParseList(more)
          case None => None
          case Some((names, end)) => Some(([name] + names, end))
  }

  predicate EndsList(rest: string) {
    EndsIdent(rest) && After(", ", rest).None?
  }

  lemma {:induction false} ListRoundTrip(names: seq<string>, rest: string)
    requires names != [] && EndsList(rest)
    ensures ParseList(JoinQuoted(names) + rest) == Some((names, rest))
  {
    if |names| == 1 {
      assert names == [names[0]];
      IdentRoundTrip(names[0], rest);
    } else {
      var first, others := QuoteIdent(names[0]), JoinQuoted(names[1..]);
      var more := others + rest;
      Assoc(first, ", ", others);
      Assoc(first, ", " + others, rest);
      Assoc(", ", others, rest);
      IdentRoundTrip(names[0], ", " + more);
      AfterPrefix(", ", more);
      ListRoundTrip(names[1..], rest);
      ListHead(names, rest);
    }
  }

  /** A list of several names starts with its first and goes on after a comma. */
  lemma {:induction false} ListHead(names: seq<string>, rest: string)
    requires |names| > 1
    requires ParseIdent(JoinQuoted(names) + rest) == Some((names[0], ", " + (JoinQuoted(names[1..]) + rest)))
    requires ParseList(JoinQuoted(names[1..]) + rest) == Some((names[1..], rest))
    ensures ParseList(JoinQuoted(names) + rest) == Some((names, rest))
  {
    AfterPrefix(", ", JoinQuoted(names[1..]) + rest);
    assert |JoinQuoted(names)| > |JoinQuoted(names[1..])|;
    assert [names[0]] + names[1..] == names;
  }

  function TableRef(schema: Option<string>, table: string, alias: Option<string>): string {
    (if schema.Some? then QuoteIdent(schema.value) + "." else "") + QuoteIdent(table) +
    (if alias.Some? then " AS " + QuoteIdent(alias.value) else "")
  }

  datatype Reference = Reference(schema: Option<string>, table: string, alias: Option<string>)

  function ParseAlias(schema: Option<string>, table: string, s: string): Option<(Reference, string)> {
    match After(" AS ", s)
    case None => Some((Reference(schema, table, None), s))
    case Some(named) =>
      match ParseIdent(named)
      case None => None
      case Some((alias, rest)) => Some((Reference(schema, table, Some(alias)), rest))
  }

  function ParseRef(s: string): Option<(Reference, string)> {
    match ParseIdent(s)
    case None => None
    case Some((first, rest)) =>
      match After(".", rest)
      case None => ParseAlias(None, first, rest)
      case Some(qualified) =>
        match ParseIdent(qualified)
        case None => None
        case Some((table, end)) => ParseAlias(Some(first), table, end)
  }

  predicate EndsRef(rest: string) {
    EndsIdent(rest) && After(".", rest).None? && After(" AS ", rest).None?
  }

  lemma {:induction false} AliasRoundTrip(schema: Option<string>, table: string, alias: Option<string>, rest: string)
    requires EndsRef(rest)
    ensures var s := (if alias.Some? then " AS " + QuoteIdent(alias.value) else "") + rest;
            && ParseAlias(schema, table, s) == Some((Reference(schema, table, alias), rest))
            && EndsIdent(s) && After(".", s).None?
  {
    if alias.Some? {
      var named := QuoteIdent(alias.value) + rest;
      assert " AS " + QuoteIdent(alias.value) + rest == " AS " + named;
      AfterPrefix(" AS ", named);
      IdentRoundTrip(alias.value, rest);
    } else {
      assert "" + rest == rest;
    }
  }

  lemma {:induction false} RefRoundTrip(schema: Option<string>, table: string, alias: Option<string>, rest: string)
    requires EndsRef(rest)
    ensures ParseRef(TableRef(schema, table, alias) + rest) == Some((Reference(schema, table, alias), rest))
  {
    var aliased := if alias.Some? then " AS " + QuoteIdent(alias.value) else "";
    var named := aliased + rest;
    AliasRoundTrip(schema, table, alias, rest);
    IdentRoundTrip(table, named);
    var qualified := QuoteIdent(table) + named;
    Assoc(QuoteIdent(table), aliased, rest);
    if schema.Some? {
      var prefix := QuoteIdent(schema.value);
      Assoc(prefix, ".", QuoteIdent(table));
      Assoc(prefix, "." + QuoteIdent(table), aliased);
      Assoc(".", QuoteIdent(table), aliased);
      Assoc(prefix, "." + (QuoteIdent(table) + aliased), rest);
      Assoc(".", QuoteIdent(table) + aliased, rest);
      IdentRoundTrip(schema.value, "." + qualified);
      AfterPrefix(".", qualified);
    } else {
      assert "" + QuoteIdent(table) == QuoteIdent(table);
    }
  }

  function Digit(d: nat): char
    requires d < 10
  {
    "0123456789"[d]
  }

  function Digits(n: nat): (s: string)
    ensures s != "" && forall k :: 0 <= k < |s| ==> '0' <= s[k] <= '9'
  {
    if n < 10 then [Digit(n)] else Digits(n / 10) + [Digit(n % 10)]
  }

  function ParseNat(s: string): Option<nat> {
    if s == "" || exists k :: 0 <= k < |s| && !('0' <= s[k] <= '9') then None
    else Some(NatOf(s))
  }

  function NatOf(s: string): nat
    requires forall k :: 0 <= k < |s| ==> '0' <= s[k] <= '9'
  {
    if s == "" then 0 else 10 * NatOf(s[..|s| - 1]) + (s[|s| - 1] as int - '0' as int)
  }

  lemma {:induction false} NatRoundTrip(n: nat)
    ensures ParseNat(Digits(n)) == Some(n)
  {
    if 10 <= n {
      NatRoundTrip(n / 10);
      assert Digits(n)[..|Digits(n)| - 1] == Digits(n / 10);
      DigitValue(n % 10);
    } else {
      DigitValue(n);
      var s := Digits(n);
      assert s == [Digit(n)] && s[..|s| - 1] == "";
      assert NatOf(s) == 10 * NatOf("") + (s[0] as int - '0' as int);
    }
  }

  lemma {:induction false} DigitValue(d: nat)
    requires d < 10
    ensures Digit(d) as int - '0' as int == d
  {
  }

  // --- scans -----------------------------------------------------------------------------------------------

  function DistinctText(distinct: bool): string {
    if distinct then "DISTINCT " else ""
  }

  function LimitText(limit: Option<nat>): string {
    if limit.Some? then " LIMIT " + Digits(limit.value) else ""
  }

  function SelectText(distinct: bool, columns: seq<string>, from: Reference, rest: string): string {
    "SELECT " + DistinctText(distinct) + JoinQuoted(columns) + " FROM " +
      TableRef(from.schema, from.table, from.alias) + rest
  }

  function WhereText(filter: Option<string>): string {
    if filter.Some? then " WHERE " + filter.value else ""
  }

  /** A structured scan under an already rendered filter, if any. */
  function ScanText(scan: ScanSpec, table: string, filter: Option<string>): string {
    SelectText(scan.distinct, scan.columns, Reference(scan.schema, table, scan.alias),
               WhereText(filter) + LimitText(scan.limit))
  }

  /** The server-side semi-join of a structured scan, under its rendered static filter, if any. */
  function TempJoinText(scan: ScanSpec, table: string, filter: Option<string>, temp: string, key: string,
                        probe: string): string {
    SelectText(false, scan.columns, Reference(scan.schema, table, scan.alias),
               " WHERE " + ((if filter.Some? then filter.value + " AND " else "") + Membership(temp, key, probe)))
  }

  /** A prerendered scan filtered on its output columns. */
  function WrappedText(raw: string, condition: string): string {
    "SELECT * FROM (" + raw + ") AS \"fedq_probe\" WHERE " + condition
  }

  function Membership(temp: string, key: string, probe: string): string {
    QuoteIdent(probe) + " IN (SELECT " + QuoteIdent(key) + " FROM " + QuoteIdent(temp) + ")"
  }

  method SelectListSql(columns: seq<string>) returns (sql: string)
    ensures sql == JoinQuoted(columns)
  {
    sql := "";
    var i := |columns|;
    while 0 < i
      invariant 0 <= i <= |columns| && sql == JoinQuoted(columns[i..])
    {
      i := i - 1;
      assert columns[i..][0] == columns[i] && columns[i..][1..] == columns[i + 1..];
      sql := if i == |columns| - 1 then QuoteIdent(columns[i]) else QuoteIdent(columns[i]) + ", " + sql;
    }
    assert columns[0..] == columns;
  }

  method TableRefSql(scan: ScanSpec, table: string) returns (s: string)
    ensures s == TableRef(scan.schema, table, scan.alias)
  {
    s := "";
    if scan.schema.Some? {
      s := s + QuoteIdent(scan.schema.value);
      s := s + ".";
    }
    s := s + QuoteIdent(table);
    if scan.alias.Some? {
      s := s + " AS ";
      s := s + QuoteIdent(scan.alias.value);
    }
  }

  /** Render a scan; a pre-rendered one passes through, or is wrapped to filter its output. */
  method ScanSql(scan: ScanSpec, filter: Option<string>) returns (r: Result<string>)
    ensures r == if scan.rawSql.Some?
              then Ok(if filter.Some? then WrappedText(scan.rawSql.value, filter.value) else scan.rawSql.value)
                 else if scan.table.None? || scan.columns == [] then Err(BadSpec)
                 else Ok(ScanText(scan, scan.table.value, filter))
  {
    if scan.rawSql.Some? {
      return Ok(if filter.Some? then WrappedText(scan.rawSql.value, filter.value) else scan.rawSql.value);
    }
    if scan.table.None? || scan.columns == [] {
      return Err(BadSpec);
    }
    var sql := "SELECT ";
    if scan.distinct {
      sql := sql + "DISTINCT ";
    }
    assert sql == "SELECT " + DistinctText(scan.distinct);
    var cols := SelectListSql(scan.columns);
    sql := sql + cols;
    sql := sql + " FROM ";
    var reference := TableRefSql(scan, scan.table.value);
    sql := sql + reference;
    ghost var skeleton := sql;
    if filter.Some? {
      sql := sql + " WHERE ";
      sql := sql + filter.value;
      Assoc(skeleton, " WHERE ", filter.value);
    }
    assert sql == skeleton + WhereText(filter);
    Assoc(skeleton, WhereText(filter), LimitText(scan.limit));
    if scan.limit.Some? {
      sql := sql + (" LIMIT " + Digits(scan.limit.value));
    }
    assert sql == skeleton + WhereText(filter) + LimitText(scan.limit);
    return Ok(sql);
  }

  /** Render the temp-table semi-join; DISTINCT and LIMIT are not rendered. */
  method TempJoinSql(scan: ScanSpec, filter: Option<string>, temp: string, key: string,
                     probe: string) returns (r: Result<string>)
    ensures r == if scan.rawSql.Some? then Ok(WrappedText(scan.rawSql.value, Membership(temp, key, probe)))
                 else if scan.table.None? || scan.columns == [] then Err(BadSpec)
                 else Ok(TempJoinText(scan, scan.table.value, filter, temp, key, probe))
  {
    var membership := Membership(temp, key, probe);
    if scan.rawSql.Some? {
      return Ok(WrappedText(scan.rawSql.value, membership));
    }
    if scan.table.None? || scan.columns == [] {
      return Err(BadSpec);
    }
    var sql := "SELECT ";
    assert sql == "SELECT " + DistinctText(false);
    var cols := SelectListSql(scan.columns);
    sql := sql + cols;
    sql := sql + " FROM ";
    var reference := TableRefSql(scan, scan.table.value);
    sql := sql + reference;
    var clauses := if filter.Some? then filter.value + " AND " + membership else membership;
    assert clauses == (if filter.Some? then filter.value + " AND " else "") + membership;
    Assoc(sql, " WHERE ", clauses);
    sql := sql + " WHERE ";
    sql := sql + clauses;
    return Ok(sql);
  }

  // --- reading a scan back -------------------------------------------------------------------------------------

  datatype Skeleton = Skeleton(distinct: bool, columns: seq<string>, from: Reference, rest: string)

  function ParseSource(distinct: bool, columns: seq<string>, s: string): Option<Skeleton> {
    match After(" FROM ", s)
    case None => None
    case Some(source) =>
      match ParseRef(source)
      case None => None
      case Some((from, rest)) => Some(Skeleton(distinct, columns, from, rest))
  }

  function ParseColumns(distinct: bool, s: string): Option<Skeleton> {
    match ParseList(s)
    case None => None
    case Some((columns, listed)) => ParseSource(distinct, columns, listed)
  }

  function ParseSkeleton(s: string): Option<Skeleton> {
    match After("SELECT ", s)
    case None => None
    case Some(selected) =>
      match After("DISTINCT ", selected)
      case None => ParseColumns(false, selected)
      case Some(cols) => ParseColumns(true, cols)
  }

  function ParseLimit(s: string): Option<Option<nat>> {
    if s == "" then Some(None)
    else
      match After(" LIMIT ", s)
      case None => None
      case Some(digits) => (match ParseNat(digits) case None => None case Some(n) => Some(Some(n)))
  }

  /** The same text, read from the left. */
  lemma {:induction false} SelectTextNests(distinct: bool, columns: seq<string>, from: Reference, rest: string)
    ensures SelectText(distinct, columns, from, rest) ==
              "SELECT " + (DistinctText(distinct) +
                (JoinQuoted(columns) + (" FROM " + (TableRef(from.schema, from.table, from.alias) + rest))))
  {
    var d, c, r := DistinctText(distinct), JoinQuoted(columns), TableRef(from.schema, from.table, from.alias);
    Assoc("SELECT " + d + c + " FROM ", r, rest);
    Assoc("SELECT " + d + c, " FROM ", r + rest);
    Assoc("SELECT " + d, c, " FROM " + (r + rest));
    Assoc("SELECT ", d, c + (" FROM " + (r + rest)));
  }

  lemma {:induction false} SourceRoundTrip(distinct: bool, columns: seq<string>, from: Reference, rest: string)
    requires EndsRef(rest)
    ensures ParseSource(distinct, columns, " FROM " + (TableRef(from.schema, from.table, from.alias) + rest)) ==
              Some(Skeleton(distinct, columns, from, rest))
  {
    AfterPrefix(" FROM ", TableRef(from.schema, from.table, from.alias) + rest);
    RefRoundTrip(from.schema, from.table, from.alias, rest);
  }

  lemma {:induction false} ColumnsRoundTrip(distinct: bool, columns: seq<string>, from: Reference, rest: string)
    requires columns != [] && EndsRef(rest)
    ensures ParseColumns(distinct, JoinQuoted(columns) +
              (" FROM " + (TableRef(from.schema, from.table, from.alias) + rest))) ==
              Some(Skeleton(distinct, columns, from, rest))
  {
    var listed := " FROM " + (TableRef(from.schema, from.table, from.alias) + rest);
    NotAfter(", ", listed, 0);
    ListRoundTrip(columns, listed);
    SourceRoundTrip(distinct, columns, from, rest);
  }

  lemma {:induction false} SkeletonRoundTrip(distinct: bool, columns: seq<string>, from: Reference, rest: string)
    requires columns != [] && EndsRef(rest)
    ensures ParseSkeleton(SelectText(distinct, columns, from, rest)) == Some(Skeleton(distinct, columns, from, rest))
  {
    var cols := JoinQuoted(columns) + (" FROM " + (TableRef(from.schema, from.table, from.alias) + rest));
    SelectTextNests(distinct, columns, from, rest);
    AfterPrefix("SELECT ", DistinctText(distinct) + cols);
    ColumnsRoundTrip(distinct, columns, from, rest);
    if distinct {
      AfterPrefix("DISTINCT ", cols);
    } else {
      assert DistinctText(distinct) + cols == cols;
      assert cols[0] == '"';
      NotAfter("DISTINCT ", cols, 0);
    }
  }

  lemma {:induction false} LimitRoundTrip(limit: Option<nat>)
    ensures ParseLimit(LimitText(limit)) == Some(limit)
  {
    if limit.Some? {
      AfterPrefix(" LIMIT ", Digits(limit.value));
      NatRoundTrip(limit.value);
    }
  }

  /**
   * DISTINCT, the column list, schema, table and alias are recovered for all names and filters; LIMIT too without a
   * filter.
   */
  lemma {:induction false} ScanRoundTrip(scan: ScanSpec, table: string, filter: Option<string>)
    requires scan.columns != []
    ensures ParseSkeleton(ScanText(scan, table, filter)).Some?
    ensures var p := ParseSkeleton(ScanText(scan, table, filter)).value;
            && p.distinct == scan.distinct && p.columns == scan.columns
            && p.from == Reference(scan.schema, table, scan.alias)
            && p.rest == WhereText(filter) + LimitText(scan.limit)
            && (filter.None? ==> ParseLimit(p.rest) == Some(scan.limit))
  {
    var rest := WhereText(filter) + LimitText(scan.limit);
    NotAfter(".", rest, 0);
    NotAfter(" AS ", rest, 1);
    SkeletonRoundTrip(scan.distinct, scan.columns, Reference(scan.schema, table, scan.alias), rest);
    if filter.None? {
      assert rest == LimitText(scan.limit);
      LimitRoundTrip(scan.limit);
    }
  }

  /** The probe, key and temp-table names of a membership test. */
  function ParseMembership(s: string): Option<(string, string, string)> {
    match ParseIdent(s)
    case None => None
    case Some((probe, in_)) =>
      match After(" IN (SELECT ", in_)
      case None => None
      case Some(keyed) =>
        match ParseIdent(keyed)
        case None => None
        case Some((key, from)) =>
          match After(" FROM ", from)
          case None => None
          case Some(source) =>
            match ParseIdent(source)
            case None => None
            case Some((temp, end)) => if end == ")" then Some((probe, key, temp)) else None
  }

  lemma {:induction false} MembershipRoundTrip(temp: string, key: string, probe: string)
    ensures ParseMembership(Membership(temp, key, probe)) == Some((probe, key, temp))
  {
    var source := QuoteIdent(temp) + ")";
    var keyed := QuoteIdent(key) + (" FROM " + source);
    var in_ := " IN (SELECT " + keyed;
    assert Membership(temp, key, probe) == QuoteIdent(probe) + in_;
    IdentRoundTrip(probe, in_);
    AfterPrefix(" IN (SELECT ", keyed);
    IdentRoundTrip(key, " FROM " + source);
    AfterPrefix(" FROM ", source);
    IdentRoundTrip(temp, ")");
  }

  /** The text before a membership test: the static filter, whatever it renders to, and'ed with it. */
  function BeforeMembership(filter: Option<string>): string {
    match filter
    case None => " WHERE "
    case Some(f) => " WHERE " + f + " AND "
  }

  /**
   * The semi-join's columns, table and all three key names are recovered, for all names and filter texts, and the
   * membership test is and'ed to the filter.
   */
  lemma {:induction false} TempJoinRoundTrip(scan: ScanSpec, table: string, filter: Option<string>, temp: string,
                                             key: string, probe: string)
    requires scan.columns != []
    ensures ParseSkeleton(TempJoinText(scan, table, filter, temp, key, probe)).Some?
    ensures var p := ParseSkeleton(TempJoinText(scan, table, filter, temp, key, probe)).value;
            && !p.distinct && p.columns == scan.columns && p.from == Reference(scan.schema, table, scan.alias)
            && After(BeforeMembership(filter), p.rest).Some?
            && ParseMembership(After(BeforeMembership(filter), p.rest).value) == Some((probe, key, temp))
  {
    var membership := Membership(temp, key, probe);
    var own := if filter.Some? then filter.value + " AND " else "";
    var rest := " WHERE " + (own + membership);
    NotAfter(".", rest, 0);
    NotAfter(" AS ", rest, 1);
    SkeletonRoundTrip(false, scan.columns, Reference(scan.schema, table, scan.alias), rest);
    Assoc(" WHERE ", own, membership);
    if filter.Some? {
      Assoc(" WHERE ", filter.value, " AND ");
    }
    AfterPrefix(BeforeMembership(filter), membership);
    MembershipRoundTrip(temp, key, probe);
  }

  /** A wrapped scan holds the prerendered text as a derived table, and its condition to the last character. */
  lemma {:induction false} WrappedRoundTrip(raw: string, condition: string)
    ensures After("SELECT * FROM (", WrappedText(raw, condition)).Some?
    ensures After(raw + ") AS \"fedq_probe\" WHERE ", After("SELECT * FROM (", WrappedText(raw, condition)).value) ==
              Some(condition)
  {
    var close := ") AS \"fedq_probe\" WHERE ";
    assert WrappedText(raw, condition) == "SELECT * FROM (" + ((raw + close) + condition);
    AfterPrefix("SELECT * FROM (", (raw + close) + condition);
    AfterPrefix(raw + close, condition);
  }

  /** Two unfiltered scans that render alike are the same scan. */
  lemma {:induction false} ScanTextIsInjective(a: ScanSpec, tableA: string, b: ScanSpec, tableB: string)
    requires a.columns != [] && b.columns != [] && ScanText(a, tableA, None) == ScanText(b, tableB, None)
    ensures a.distinct == b.distinct && a.columns == b.columns && a.schema == b.schema && tableA == tableB
    ensures a.alias == b.alias && a.limit == b.limit
  {
    ScanRoundTrip(a, tableA, None);
    ScanRoundTrip(b, tableB, None);
  }
}

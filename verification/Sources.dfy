/** What the registered sources hold, and what they answer to the queries the engine sends. */
module Sources {
  import opened Outcomes
  import opened Ir
  import opened Relations
  import opened Partition

  /** SQL truth values. */
  datatype Truth = True | False | Unknown

  function And(a: Truth, b: Truth): Truth {
    if a == False || b == False then False
    else if a == True && b == True then True
    else Unknown
  }

  datatype DsSpec = DsSpec(kind: DsKind, uri: string)

  /** Session-local tables by name, as one connection sees them. */
  type Temps = map<string, Table>

  /** Temporary tables shipped to pinned connections, by database path. */
  type Pins = map<string, Temps>

  datatype Stored = Stored(schema: seq<Field>, heap: seq<Tuple>)

  /**
   * Everything outside the engine: the registry, the sources' contents and statistics, and the relational evaluator.
   * All are fixed while one query runs.
   */
  datatype World = World(
    registry: map<string, DsSpec>,
    stored: (DsSpec, Option<string>, string) -> Option<Stored>,
    raw: (DsSpec, string, Temps) -> Option<Stored>,
    truth: (IrExpr, seq<Field>, Row) -> Truth,
    scalar: (IrExpr, seq<Field>, Row) -> Value,
    pages: (DsSpec, Option<string>, string) -> Option<nat>,
    indexed: (DsSpec, Option<string>, string, string) -> bool,
    estimate: (DsSpec, Option<string>, string, string, nat) -> Option<real>,
    eval: (Fragment, seq<(string, Table)>) -> Table,
    cut: seq<Tuple> -> seq<seq<Tuple>>)

  datatype Pred =
    | Matches(e: IrExpr)
    | InList(column: string, values: seq<Value>)
    | InTemp(column: string, keyColumn: string, temp: string)
    | CtidIn(lo: nat, hi: nat)
    | Never

  datatype From =
    | Base(schema: Option<string>, table: string)
    | Derived(sql: string)

  /** A query as sent to a source; `columns` is None for `SELECT *`, `where_` is a conjunction. */
  datatype Query =
    | Select(from: From, columns: Option<seq<string>>, distinct: bool, limit: Option<nat>, where_: seq<Pred>)
    | Prerendered(sql: string)

  /** The IN predicate (section 8.4 of ISO/IEC 9075:1992). */
  function InTruth(v: Value, values: seq<Value>): Truth {
    if values == [] then False
    else if v == Null then Unknown
    else if v in values then True
    else if Null in values then Unknown
    else False
  }

  function TempColumn(temps: Temps, temp: string, column: string): seq<Value> {
    if temp in temps then Map((r: Row) => Cell(temps[temp].schema, r, column), temps[temp].rows) else []
  }

  function PredTruth(w: World, temps: Temps, schema: seq<Field>, p: Pred, t: Tuple): Truth {
    match p
    case Matches(e) => w.truth(e, schema, t.row)
    case InList(column, values) => InTruth(Cell(schema, t.row, column), values)
    case InTemp(column, keyColumn, temp) =>
      InTruth(Cell(schema, t.row, column), TempColumn(temps, temp, keyColumn))
    case CtidIn(lo, hi) => if InRange((lo, hi), t) then True else False
    case Never => False
  }

  /** The WHERE clause: the three-valued conjunction of its predicates. */
  function Where(w: World, temps: Temps, schema: seq<Field>, ps: seq<Pred>, t: Tuple): Truth {
    if ps == [] then True
    else And(PredTruth(w, temps, schema, ps[0], t), Where(w, temps, schema, ps[1..], t))
  }

  function ProjectRow(schema: seq<Field>, columns: Option<seq<string>>, row: Row): Row {
    match columns
    case None => row
    case Some(names) => Map((n: string) => Cell(schema, row, n), names)
  }

  function ProjectSchema(schema: seq<Field>, columns: Option<seq<string>>): seq<Field> {
    match columns
    case None => schema
    case Some(names) =>
      Map((n: string) => match IndexOf(schema, n) case Some(k) => schema[k] case None => Field(n, OtherType("")), names)
  }

  /** The columns a predicate reads, beyond those of an opaque filter. */
  function PredColumns(p: Pred): seq<string> {
    match p
    case InList(column, _) => [column]
    case InTemp(column, _, _) => [column]
    case _ => []
  }

  /** Every name in the query resolves: its columns, and the key column of any temp table it reads. */
  predicate Resolves(temps: Temps, schema: seq<Field>, q: Query)
    requires q.Select?
  {
    && (q.columns.Some? ==> HasColumns(schema, q.columns.value))
    && (forall k :: 0 <= k < |q.where_| ==> HasColumns(schema, PredColumns(q.where_[k])))
    && (forall k :: 0 <= k < |q.where_| && q.where_[k].InTemp? ==>
          && q.where_[k].temp in temps
          && IndexOf(temps[q.where_[k].temp].schema, q.where_[k].keyColumn).Some?)
  }

  /** Rows that are not a heap's: they print no NUMERIC and have no page. */
  function WithoutPages(rows: seq<Row>): seq<Tuple> {
    Map((r: Row) => Tuple(0, r, []), rows)
  }

  /** The relation a FROM item names: a visible temp table shadows a stored one. */
  function FromItem(w: World, ds: DsSpec, temps: Temps, from: From): Option<Stored> {
    match from
    case Derived(sql) => w.raw(ds, sql, temps)
    case Base(schema, table) =>
      if schema.None? && table in temps then Some(Stored(temps[table].schema, WithoutPages(temps[table].rows)))
      else w.stored(ds, schema, table)
  }

  function Keeper(w: World, temps: Temps, schema: seq<Field>, ps: seq<Pred>): Tuple -> bool {
    (t: Tuple) => Where(w, temps, schema, ps, t) == True
  }

  function ProjectDigits(schema: seq<Field>, names: seq<string>, digits: seq<nat>): seq<nat> {
    Map((n: string) => match IndexOf(schema, n)
                       case Some(k) => if k < |digits| then digits[k] else 0
                       case None => 0, names)
  }

  function Projector(schema: seq<Field>, columns: Option<seq<string>>): Tuple -> Tuple {
    (t: Tuple) =>
      match columns
      case None => t
      case Some(names) => Tuple(t.page, ProjectRow(schema, columns, t.row), ProjectDigits(schema, names, t.digits))
  }

  function RowOf(): Tuple -> Row {
    (t: Tuple) => t.row
  }

  function RowsIn(heap: seq<Tuple>): seq<Row> {
    Map(RowOf(), heap)
  }

  /** What a WHERE clause keeps, in stored order, cut to the output columns. */
  function SelectTuples(w: World, temps: Temps, s: Stored, columns: Option<seq<string>>, ps: seq<Pred>): seq<Tuple> {
    Map(Projector(s.schema, columns), Filter(Keeper(w, temps, s.schema, ps), s.heap))
  }

  /** The first tuple of each row. */
  function FirstOfEach(heap: seq<Tuple>): (unique: seq<Tuple>)
    ensures RowsIn(unique) == Distinct(RowsIn(heap))
  {
    if heap == [] then []
    else
      var init := FirstOfEach(heap[..|heap| - 1]);
      var last := heap[|heap| - 1];
      assert RowsIn(heap)[..|heap| - 1] == RowsIn(heap[..|heap| - 1]);
      if last.row in RowsIn(init) then init else init + [last]
  }

  function Cut<T>(s: seq<T>, limit: Option<nat>): seq<T> {
    if limit.Some? && limit.value < |s| then s[..limit.value] else s
  }

  /** What a source answers; None when a name does not resolve. */
  function Answer(w: World, ds: DsSpec, temps: Temps, q: Query): Option<Stored> {
    match q
    case Prerendered(sql) => w.raw(ds, sql, temps)
    case Select(from, columns, distinct, limit, where_) =>
      match FromItem(w, ds, temps, from)
      case None => None
      case Some(s) =>
        if !Resolves(temps, s.schema, q) then None
        else
          var tuples := SelectTuples(w, temps, s, columns, where_);
          Some(Stored(ProjectSchema(s.schema, columns), Cut(if distinct then FirstOfEach(tuples) else tuples, limit)))
  }

  /** Membership in a temp table looks into the named column, and finds nothing in a table that is not there. */
  lemma {:induction false} MembershipInColumn(w: World, temps: Temps, schema: seq<Field>, column: string,
                                              keyColumn: string, temp: string, t: Tuple)
    ensures PredTruth(w, temps, schema, InTemp(column, keyColumn, temp), t) == True <==>
              && temp in temps && Cell(schema, t.row, column) != Null
              && exists k :: 0 <= k < |temps[temp].rows| &&
                             Cell(temps[temp].schema, temps[temp].rows[k], keyColumn) == Cell(schema, t.row, column)
    ensures temp !in temps ==> PredTruth(w, temps, schema, InTemp(column, keyColumn, temp), t) == False
  {
    if temp in temps {
      var values := TempColumn(temps, temp, keyColumn);
      assert forall k :: 0 <= k < |values| ==> values[k] == Cell(temps[temp].schema, temps[temp].rows[k], keyColumn);
    }
  }

  /** A page range is true of a tuple on its pages and false of any other, and the empty filter false of every tuple. */
  lemma {:induction false} PagesAndNothing(w: World, temps: Temps, schema: seq<Field>, lo: nat, hi: nat, t: Tuple)
    ensures PredTruth(w, temps, schema, CtidIn(lo, hi), t) == if lo <= t.page < hi then True else False
    ensures PredTruth(w, temps, schema, Never, t) == False
  {
  }

  /** A row passes a WHERE clause exactly when every predicate of it is true, and fails it when one is false. */
  lemma {:induction false} WhereIsAll(w: World, temps: Temps, schema: seq<Field>, ps: seq<Pred>, t: Tuple)
    ensures Where(w, temps, schema, ps, t) == True <==>
              forall k :: 0 <= k < |ps| ==> PredTruth(w, temps, schema, ps[k], t) == True
    ensures Where(w, temps, schema, ps, t) == False <==>
              exists k :: 0 <= k < |ps| && PredTruth(w, temps, schema, ps[k], t) == False
  {
    if ps != [] {
      WhereIsAll(w, temps, schema, ps[1..], t);
      assert forall k :: 0 <= k < |ps| ==> ps[k] == if k == 0 then ps[0] else ps[1..][k - 1];
      assert forall k :: 0 <= k < |ps[1..]| ==> ps[1..][k] == ps[k + 1];
    }
  }

  /**
   * IN is true only for a non-NULL member, so neither a NULL cell nor a NULL key ever passes; it is false of an empty
   * list, and of a value that differs from every member of a list without NULLs.
   */
  lemma {:induction false} InTruthIsMembership(v: Value, values: seq<Value>)
    ensures InTruth(v, values) == True <==> v != Null && v in values
    ensures InTruth(v, values) == False <==> values == [] || (v != Null && v !in values && Null !in values)
  {
  }
}

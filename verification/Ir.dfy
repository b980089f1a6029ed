/** The serializable plan the interpreter runs: ordered steps and the fragments they name. */
module Ir {
  import opened Outcomes

  datatype DsKind = Postgres | DuckDb | Parquet

  /** A scalar expression. Its structure is not modelled, only what it evaluates to. */
  datatype IrExpr = IrExpr(text: string)

  datatype ScanSpec = ScanSpec(
    rawSql: Option<string>,
    schema: Option<string>,
    table: Option<string>,
    alias: Option<string>,
    columns: seq<string>,
    filter: Option<IrExpr>,
    limit: Option<nat>,
    distinct: bool,
    parallel: bool,
    injectedSql: Option<string>)

  datatype ExtraInjection = ExtraInjection(column: string, keysFrom: string)

  /** One entry of a merge's ordered input map: table name in the fragment, binding read. */
  datatype MergeInput = MergeInput(table: string, binding: string)

  datatype JoinKind = Inner | Left | Right | Full | Semi | Anti

  datatype Projection = Projection(expr: IrExpr, alias: string)

  datatype SortKey = SortKey(expr: IrExpr, ascending: bool, nullsFirst: bool)

  datatype AggSelectItem = AggSelectItem(expr: Option<IrExpr>, agg: Option<IrExpr>, alias: string)

  datatype Fragment =
    | HashJoin(joinType: JoinKind, leftKeys: seq<string>, rightKeys: seq<string>, project: seq<Projection>)
    | NestedLoopJoin(joinType: JoinKind, condition: Option<IrExpr>, project: seq<Projection>)
    | Project(project: seq<Projection>, distinct: bool)
    | Aggregate(select: seq<AggSelectItem>, groupBy: seq<IrExpr>, groupingSets: seq<seq<IrExpr>>)
    | Sort(keys: seq<SortKey>)
    | FilterRows(predicate_: IrExpr)
    | Limit(limit: Option<nat>, offset: nat)
    | SingleRowGuard(guardKeys: seq<IrExpr>)
    | RawSql(sql: string)

  datatype Step =
    | SourceScan(datasource: string, scan: ScanSpec, binding: string)
    | CollectDistinct(input: string, key: string, cap: nat, binding: string)
    | InjectedScan(datasource: string, scan: ScanSpec, injectColumn: string, keysFrom: string,
                   binding: string, ndv: Option<nat>, extras: seq<ExtraInjection>)
    | Ship(datasource: string, input: string, table: string)
    | Merge(fragment: string, inputs: seq<MergeInput>, binding: string)
    | Return(input: string)

  datatype Plan = Plan(steps: seq<Step>, fragments: map<string, Fragment>)
}

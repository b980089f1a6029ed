/** Session state in the connectors: key tables on a reused connection, shipped tables on pinned ones. */
module Sessions {
  import opened Outcomes
  import opened Ir
  import opened Relations
  import opened Sources
  import opened Injection
  import R = Reference

  // --- dynamic keys on a pooled Postgres connection ------------------------------------------------------

  /** A semi-join to run against ingested keys. */
  datatype TempJoin = TempJoin(keys: Table, query: Query)

  /** Some request fails, by an oracle that says so of each request in order. */
  ghost predicate CanFail(faults: nat -> bool) {
    exists n: nat :: faults(n)
  }

  /** Some request of those from one on, up to another, fails. */
  ghost predicate FailedWithin(faults: nat -> bool, first: nat, end: nat) {
    exists n: nat :: first <= n < end && faults(n)
  }

  /** One pooled connection. Every statement on it can fail, and a failed one may have done part of its work. */
  class PgConnection {
    const world: World
    const spec: DsSpec
    var temps: Temps
    /** Which statements fail, by their order, and how many were sent. */
    const faults: nat -> bool
    var asked: nat

    constructor (world: World, spec: DsSpec, faults: nat -> bool)
      ensures this.world == world && this.spec == spec && this.faults == faults && temps == map[]
    {
      this.world := world;
      this.spec := spec;
      this.faults := faults;
      temps := map[];
      asked := 0;
    }

    /** `DROP TABLE IF EXISTS`. */
    method DropTable(table: string) returns (ok: bool)
      modifies this
      ensures asked == old(asked) + 1 && ok == !faults(old(asked))
      ensures ok ==> temps == old(temps) - {table}
      ensures temps - {table} == old(temps) - {table}
    {
      ok := !faults(asked);
      asked := asked + 1;
      var dropped: bool := *;
      if ok || dropped {
        temps := temps - {table};
      }
    }

    /** Bulk ingest in create mode: refused when the table exists; a failure can leave some of the rows. */
    method IngestTemp(table: string, keys: Table) returns (ok: bool)
      modifies this
      ensures asked == old(asked) + 1 && ok == (table !in old(temps) && !faults(old(asked)))
      ensures ok ==> temps == old(temps)[table := keys]
      ensures temps - {table} == old(temps) - {table}
    {
      ok := table !in temps && !faults(asked);
      asked := asked + 1;
      if table in temps {
        return;
      }
      var written: int := *;
      if ok {
        temps := temps[table := keys];
      } else if 0 <= written <= |keys.rows| {
        temps := temps[table := Table(keys.schema, keys.rows[..written])];
      }
    }

    method RunQuery(q: Query) returns (r: Result<Table>)
      modifies this`asked
      ensures asked == old(asked) + 1
      ensures r == if faults(old(asked)) then Err(Backend) else Queried(world, spec, temps, q)
    {
      r := Queried(world, spec, temps, q);
      if faults(asked) {
        r := Err(Backend);
      }
      asked := asked + 1;
    }

    /**
     * Drop any leftover keys, ingest, query, and clean up as well as possible. Whatever an earlier call left behind,
     * the answer is the query's over exactly these keys unless one of the first three statements fails.
     */
    method FetchTempJoin(join: TempJoin) returns (r: Result<Table>)
      requires temps.Keys <= {DYN_KEYS_TEMP_TABLE}
      modifies this
      ensures temps.Keys <= {DYN_KEYS_TEMP_TABLE} && old(asked) < asked <= old(asked) + 4
      ensures r == if faults(old(asked)) || faults(old(asked) + 1) || faults(old(asked) + 2) then Err(Backend)
                   else Queried(world, spec, KeyTemps(join.keys), join.query)
      ensures !faults(asked - 1) ==> temps == map[]
    {
      var dropped := DropTable(DYN_KEYS_TEMP_TABLE);
      OnlyOneTable(old(temps), temps);
      if !dropped {
        return Err(Backend);
      }
      ghost var before := temps;
      var ingested := IngestTemp(DYN_KEYS_TEMP_TABLE, join.keys);
      OnlyOneTable(before, temps);
      if !ingested {
        return Err(Backend);
      }
      assert temps == KeyTemps(join.keys);
      r := RunQuery(join.query);
      ghost var after := temps;
      var cleaned := DropTable(DYN_KEYS_TEMP_TABLE);
      OnlyOneTable(after, temps);
    }
  }

  lemma {:induction false} OnlyOneTable(before: Temps, after: Temps)
    requires before.Keys <= {DYN_KEYS_TEMP_TABLE}
    requires after - {DYN_KEYS_TEMP_TABLE} == before - {DYN_KEYS_TEMP_TABLE}
    ensures after.Keys <= {DYN_KEYS_TEMP_TABLE}
  {
    assert forall n :: n in after && n != DYN_KEYS_TEMP_TABLE ==> n in after - {DYN_KEYS_TEMP_TABLE};
  }

  /** The answer of one semi-join over exactly its own keys. */
  function OwnAnswer(world: World, spec: DsSpec, join: TempJoin): Result<Table> {
    Queried(world, spec, KeyTemps(join.keys), join.query)
  }

  /** An answer, or a failure of one of three statements. */
  predicate AnsweredUnless(r: Result<Table>, answer: Result<Table>, faults: nat -> bool, first: nat) {
    r == if faults(first) || faults(first + 1) || faults(first + 2) then Err(Backend) else answer
  }

  /**
   * Any sequence of semi-joins over one connection, with any statements failing: each result is the answer over
   * exactly the join's own keys, or comes from a failing statement among the three that are its own.
   */
  method RunTempJoins(world: World, spec: DsSpec, joins: seq<TempJoin>, faults: nat -> bool)
    returns (results: seq<Result<Table>>, ghost sent: seq<nat>)
    ensures |results| == |sent| == |joins| && forall j, k :: 0 <= j < k < |joins| ==> sent[j] < sent[k]
    ensures forall k :: 0 <= k < |joins| ==>
              AnsweredUnless(results[k], OwnAnswer(world, spec, joins[k]), faults, sent[k])
    ensures !CanFail(faults) ==> forall k :: 0 <= k < |joins| ==> results[k] == OwnAnswer(world, spec, joins[k])
  {
    var conn := new PgConnection(world, spec, faults);
    results, sent := [], [];
    for i := 0 to |joins|
      invariant |results| == |sent| == i && conn.temps.Keys <= {DYN_KEYS_TEMP_TABLE}
      invariant conn.world == world && conn.spec == spec && conn.faults == faults
      invariant (forall j :: 0 <= j < i ==> sent[j] < conn.asked) && forall j, k :: 0 <= j < k < i ==> sent[j] < sent[k]
      invariant forall k :: 0 <= k < i ==>
                  AnsweredUnless(results[k], OwnAnswer(world, spec, joins[k]), faults, sent[k])
    {
      sent := sent + [conn.asked];
      var r := conn.FetchTempJoin(joins[i]);
      assert AnsweredUnless(r, OwnAnswer(world, spec, joins[i]), faults, sent[i]);
      results := results + [r];
    }
  }

  // --- shipped tables on pinned DuckDB connections --------------------------------------------------------

  /** A relation shipped to a database path under a table name. */
  datatype Shipment = Shipment(uri: string, table: string, t: Table)

  /** The pinned connections after a query's shipments, in order. */
  function PinsAfter(ships: seq<Shipment>): Pins {
    if ships == [] then map[]
    else
      var last := ships[|ships| - 1];
      R.Shipped(PinsAfter(ships[..|ships| - 1]), last.uri, last.table, last.t)
  }

  /** The last relation shipped to a path under a name. */
  function Latest(ships: seq<Shipment>, uri: string, table: string): Option<Table> {
    if ships == [] then None
    else
      var last := ships[|ships| - 1];
      if last.uri == uri && last.table == table then Some(last.t) else Latest(ships[..|ships| - 1], uri, table)
  }

  /** Every fetch on a path sees, under each name, exactly the latest relation shipped to that path. */
  lemma {:induction false} FetchSeesLatest(ships: seq<Shipment>, spec: DsSpec, table: string)
    requires spec.kind == DuckDb
    ensures var seen := VisibleTemps(PinsAfter(ships), spec);
            && (table in seen <==> Latest(ships, spec.uri, table).Some?)
            && (table in seen ==> seen[table] == Latest(ships, spec.uri, table).value)
  {
    if ships != [] {
      FetchSeesLatest(ships[..|ships| - 1], spec, table);
    }
  }

  /** Two datasource names with one DuckDB path see the same shipped tables. */
  lemma {:induction false} SamePathSameTables(w: World, ships: seq<Shipment>, a: DsSpec, b: DsSpec, table: string,
                                              columns: seq<string>)
    requires a.kind == DuckDb && b.kind == DuckDb && a.uri == b.uri
    requires Latest(ships, a.uri, table).Some? && columns != []
    ensures var q := Select(Base(None, table), Some(columns), false, None, []);
            Answer(w, a, VisibleTemps(PinsAfter(ships), a), q) == Answer(w, b, VisibleTemps(PinsAfter(ships), b), q)
  {
    FetchSeesLatest(ships, a, table);
    FetchSeesLatest(ships, b, table);
  }

  lemma {:induction false} ShippedAgain(pins: Pins, uri: string, table: string, first: Table, second: Table)
    ensures R.Shipped(R.Shipped(pins, uri, table, first), uri, table, second) == R.Shipped(pins, uri, table, second)
  {
    var temps := if uri in pins then pins[uri] else map[];
    assert temps[table := first][table := second] == temps[table := second];
  }

  /**
   * Create and fill a shipped table on its path's pinned connection; a failure can leave it half filled. The
   * statement that creates it drops the stored table of that name first, and `gone` says whether it got that far.
   */
  method LoadTable(world: World, before: Pins, ds: string, table: string, t: Table, faults: nat -> bool, first: nat)
    returns (r: Result<DsSpec>, pinned: Pins, gone: set<(string, string)>, asked: nat)
    ensures r.Ok? ==> Lookup(world, ds) == r && R.ShipTable(world, before, ds, table, t) == Ok(pinned)
    ensures first <= asked
    ensures r.Err? ==> || (r.error == Backend && FailedWithin(faults, first, asked))
                       || R.ShipTable(world, before, ds, table, t) == Err(r.error)
    ensures gone <= if ds in world.registry then {(world.registry[ds].uri, table)} else {}
    ensures r.Ok? ==> gone == {(r.value.uri, table)}
    ensures pinned != before ==> gone != {}
  {
    pinned, gone, asked := before, {}, first;
    r := Lookup(world, ds);
    if r.Err? {
      return;
    }
    var uri := r.value.uri;
    if r.value.kind != DuckDb {
      return Err(ShipTarget(ds)), pinned, gone, asked;
    }
    if exists k :: 0 <= k < |t.schema| && t.schema[k].dtype.OtherType? {
      return Err(BadSpec), pinned, gone, asked;
    }
    asked := asked + 1;
    if faults(asked - 1) {
      return Err(Backend), pinned, gone, asked;
    }
    gone := {(uri, table)};
    asked := asked + 1;
    if faults(asked - 1) {
      return Err(Backend), pinned, gone, asked;
    }
    pinned := R.Shipped(before, uri, table, Table(t.schema, []));
    for appended := 0 to |t.rows|
      invariant asked == first + 2 + appended
      invariant pinned == R.Shipped(before, uri, table, Table(t.schema, t.rows[..appended]))
    {
      asked := asked + 1;
      if faults(asked - 1) {
        return Err(Backend), pinned, gone, asked;
      }
      var grown := Table(t.schema, t.rows[..appended + 1]);
      ShippedAgain(before, uri, table, Table(t.schema, t.rows[..appended]), grown);
      pinned := R.Shipped(pinned, uri, table, grown);
    }
    assert t.rows[..|t.rows|] == t.rows;
  }

  /**
   * A dropped table is refused under its plain name and under the default schema's, with nothing pinned in its place.
   */
  lemma {:induction false} DroppedIsRefused(w: World, dropped: set<(string, string)>, spec: DsSpec, q: Query)
    requires spec.kind == DuckDb && q.Select? && q.from.Base? && (spec.uri, q.from.table) in dropped
    requires q.from.schema.None? || q.from.schema.value == DUCK_DEFAULT_SCHEMA
    ensures Queried(Without(w, dropped), spec, map[], q) == Err(SourceRefused)
  {
  }

  lemma {:induction false} ShippedNamesGrow(pins: Pins, uri: string, table: string, t: Table)
    ensures ShippedNames(R.Shipped(pins, uri, table, t)) == ShippedNames(pins) + {(uri, table)}
  {
    var after := R.Shipped(pins, uri, table, t);
    forall name ensures name in ShippedNames(after) <==> name in ShippedNames(pins) + {(uri, table)} {
      assert name in ShippedNames(after) <==> name.0 in after && name.1 in after[name.0];
      assert name in ShippedNames(pins) <==> name.0 in pins && name.1 in pins[name.0];
    }
  }

  /** A ship leaves pinned what one more shipment does. */
  lemma {:induction false} OneMoreShipment(w: World, ships: seq<Shipment>, before: Pins, spec: DsSpec, ds: string,
                                           table: string, t: Table, after: Pins)
    requires before == PinsAfter(ships) && Lookup(w, ds) == Ok(spec)
    requires R.ShipTable(w, before, ds, table, t) == Ok(after)
    ensures after == PinsAfter(ships + [Shipment(spec.uri, table, t)])
    ensures ShippedNames(after) == ShippedNames(before) + {(spec.uri, table)}
  {
    var more := ships + [Shipment(spec.uri, table, t)];
    assert more[..|more| - 1] == ships;
    ShippedNamesGrow(before, spec.uri, table, t);
  }

  /** The query-driving thread's pinned connections. */
  class PinnedConnections {
    const world: World
    var pinned: Pins
    /** The stored tables that shipments have dropped, by path and name; no clear brings one back. */
    var dropped: set<(string, string)>
    ghost var ships: seq<Shipment>
    /** Which requests to the database fail, by their order, and how many were made. */
    const faults: nat -> bool
    var asked: nat

    /** The pinned tables are those of the shipments since the last clear, and no stored namesake is left beside one. */
    ghost predicate Valid()
      reads this
    {
      pinned == PinsAfter(ships) && ShippedNames(pinned) <= dropped
    }

    constructor (world: World, faults: nat -> bool)
      ensures this.world == world && this.faults == faults && Valid() && ships == [] && dropped == {}
    {
      this.world := world;
      this.faults := faults;
      pinned := map[];
      dropped := {};
      asked := 0;
      ships := [];
    }

    /** Drop every pinned connection, and with it every shipped table; valid again whatever went wrong before. */
    method ClearShipments()
      modifies this`pinned, this`ships
      ensures Valid() && pinned == map[] && ships == []
    {
      pinned := map[];
      ships := [];
    }

    /** Ship a relation to a datasource's pinned connection. */
    method ShipTable(ds: string, table: string, t: Table) returns (r: Result<DsSpec>)
      requires Valid()
      modifies this
      ensures r.Ok? ==> Valid() && ships == old(ships) + [Shipment(r.value.uri, table, t)]
      ensures r.Ok? ==> Lookup(world, ds) == r && R.ShipTable(world, old(pinned), ds, table, t) == Ok(pinned)
      ensures r.Err? ==> || (r.error == Backend && FailedWithin(faults, old(asked), asked))
                         || R.ShipTable(world, old(pinned), ds, table, t) == Err(r.error)
      ensures old(dropped) <= dropped
      ensures dropped <= old(dropped) + if ds in world.registry then {(world.registry[ds].uri, table)} else {}
      ensures r.Ok? ==> (r.value.uri, table) in dropped
    {
      var gone: set<(string, string)>;
      r, pinned, gone, asked := LoadTable(world, pinned, ds, table, t, faults, asked);
      dropped := dropped + gone;
      if r.Ok? {
        OneMoreShipment(world, ships, old(pinned), r.value, ds, table, t, pinned);
        ships := ships + [Shipment(r.value.uri, table, t)];
      }
    }

    /** A fetch runs on its path's pinned connection when there is one, else on a cursor of its own. */
    method Fetch(ds: string, q: Query) returns (r: Result<Table>)
      requires Valid()
      modifies this`asked
      ensures || (r == Err(Backend) && FailedWithin(faults, old(asked), asked))
              || r == if ds in world.registry
                      then Queried(Without(world, dropped), world.registry[ds],
                                   VisibleTemps(PinsAfter(ships), world.registry[ds]), q)
                      else Err(NotRegistered(ds))
    {
      var spec :- Lookup(world, ds);
      asked := asked + 1;
      if faults(asked - 1) {
        return Err(Backend);
      }
      return Queried(Without(world, dropped), spec, VisibleTemps(pinned, spec), q);
    }
  }
}

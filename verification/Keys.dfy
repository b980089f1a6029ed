/** The distinct, NULL-free values of one column of a relation. */
module Keys {
  import opened Outcomes
  import opened Relations

  function KeyRow(schema: seq<Field>, key: string): Row -> Row {
    (r: Row) => [Cell(schema, r, key)]
  }

  function NotNull(schema: seq<Field>, key: string): Row -> bool {
    (r: Row) => Cell(schema, r, key) != Null
  }

  /** `SELECT DISTINCT key FROM t WHERE key IS NOT NULL`. */
  function DistinctKeys(t: Table, key: string): Result<Table> {
    match IndexOf(t.schema, key)
    case None => Err(UnknownColumn(key))
    case Some(k) =>
      Ok(Table([t.schema[k]], Distinct(Map(KeyRow(t.schema, key), Filter(NotNull(t.schema, key), t.rows)))))
  }

  lemma {:induction false} FilterElements<T>(keep: T -> bool, s: seq<T>, x: T)
    ensures x in Filter(keep, s) <==> keep(x) && x in s
  {
    FilterCount(keep, s, x);
    assert x in s <==> x in multiset(s);
    assert x in Filter(keep, s) <==> x in multiset(Filter(keep, s));
  }

  /** Position `k` holds the first column of that name. */
  predicate FirstNamed(schema: seq<Field>, key: string, k: nat) {
    k < |schema| && schema[k].name == key && forall i :: 0 <= i < k ==> schema[i].name != key
  }

  lemma {:induction false} FoundFirst(schema: seq<Field>, key: string)
    requires IndexOf(schema, key).Some?
    ensures FirstNamed(schema, key, IndexOf(schema, key).value)
  {
    if schema[0].name != key {
      FoundFirst(schema[1..], key);
      assert forall i :: 0 < i < |schema| ==> schema[1..][i - 1] == schema[i];
    }
  }

  /** Keys are collected exactly from a column that exists. */
  lemma {:induction false} CollectsIff(t: Table, key: string)
    ensures DistinctKeys(t, key).Ok? <==> exists k :: 0 <= k < |t.schema| && t.schema[k].name == key
    ensures DistinctKeys(t, key).Err? ==> DistinctKeys(t, key).error == UnknownColumn(key)
  {
    if k :| 0 <= k < |t.schema| && t.schema[k].name == key {
      assert IndexOf(t.schema, key).Some?;
    }
  }

  /** The collected keys are exactly the non-NULL values of the named column, each once, under its name and type. */
  lemma {:induction false} CollectedKeys(t: Table, key: string, v: Value)
    requires DistinctKeys(t, key).Ok?
    ensures var keys := DistinctKeys(t, key).value;
            && |keys.schema| == 1 && keys.schema[0].name == key
            && (exists k: nat :: FirstNamed(t.schema, key, k) && keys.schema[0].dtype == t.schema[k].dtype)
            && (forall i :: 0 <= i < |keys.rows| ==> |keys.rows[i]| == 1 && keys.rows[i][0] != Null)
            && (forall i, j :: 0 <= i < j < |keys.rows| ==> keys.rows[i][0] != keys.rows[j][0])
            && ([v] in keys.rows <==> v != Null && exists k :: 0 <= k < |t.rows| && Cell(t.schema, t.rows[k], key) == v)
  {
    var keys := DistinctKeys(t, key).value;
    FoundFirst(t.schema, key);
    var kept := Filter(NotNull(t.schema, key), t.rows);
    var mapped := Map(KeyRow(t.schema, key), kept);
    forall i | 0 <= i < |keys.rows| ensures |keys.rows[i]| == 1 && keys.rows[i][0] != Null {
      assert keys.rows[i] in mapped;
      var k :| 0 <= k < |mapped| && mapped[k] == keys.rows[i];
      FilterElements(NotNull(t.schema, key), t.rows, kept[k]);
    }
    forall i, j | 0 <= i < j < |keys.rows| ensures keys.rows[i][0] != keys.rows[j][0] {
      assert keys.rows[i] == [keys.rows[i][0]] && keys.rows[j] == [keys.rows[j][0]];
    }
    if [v] in keys.rows {
      var k :| 0 <= k < |mapped| && mapped[k] == [v];
      assert [v][0] == Cell(t.schema, kept[k], key);
      FilterElements(NotNull(t.schema, key), t.rows, kept[k]);
    }
    if k :| 0 <= k < |t.rows| && Cell(t.schema, t.rows[k], key) == v && v != Null {
      FilterElements(NotNull(t.schema, key), t.rows, t.rows[k]);
      var m :| 0 <= m < |kept| && kept[m] == t.rows[k];
      assert mapped[m] == [v];
    }
  }
}

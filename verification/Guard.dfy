/** The scalar-subquery cardinality guard, and the join it protects. */
module Guard {
  import opened Outcomes
  import opened Ir
  import opened Relations
  import opened Sources
  import opened Joins

  function KeyTuple(w: World, keys: seq<IrExpr>, schema: seq<Field>): Row -> seq<Value> {
    (r: Row) => Map((e: IrExpr) => w.scalar(e, schema, r), keys)
  }

  function Tuples(w: World, keys: seq<IrExpr>, t: Table): seq<seq<Value>> {
    Map(KeyTuple(w, keys, t.schema), t.rows)
  }

  function Repeated(tuples: seq<seq<Value>>): seq<Value> -> bool {
    (g: seq<Value>) => multiset(tuples)[g] > 1
  }

  /** Rows of the probe query: the groups (NULLs group together) counting more than one row. */
  function Violations(w: World, keys: seq<IrExpr>, t: Table): nat {
    if keys == [] then
      if |t.rows| > 1 then 1 else 0
    else
      var tuples := Tuples(w, keys, t);
      var groups := Filter(Repeated(tuples), Distinct(tuples));
      if |groups| > 1 then 1 else |groups|
  }

  /** The guard: an error on any violation, otherwise its input unchanged. */
  function SingleRowGuarded(w: World, keys: seq<IrExpr>, t: Table): Result<Table> {
    if Violations(w, keys, t) > 0 then Err(GuardViolated) else Ok(t)
  }

  /** No two rows share a key tuple; without keys, no two rows at all. */
  ghost predicate SingleValued(tuples: seq<seq<Value>>) {
    forall i, j :: 0 <= i < j < |tuples| ==> tuples[i] != tuples[j]
  }

  lemma {:induction false} RepeatedCounts<T>(s: seq<T>, i: nat, j: nat)
    requires i < j < |s| && s[i] == s[j]
    ensures multiset(s)[s[i]] > 1
  {
    var tail := s[i + 1..];
    assert s == s[..i] + [s[i]] + tail;
    assert tail[j - i - 1] == s[i];
    assert s[i] in multiset(tail);
  }

  lemma {:induction false} CountedRepeats<T>(s: seq<T>, x: T)
    requires multiset(s)[x] > 1
    ensures exists i, j :: 0 <= i < j < |s| && s[i] == x && s[j] == x
  {
    assert s == [s[0]] + s[1..];
    if s[0] == x {
      assert x in multiset(s[1..]);
      var k :| 0 <= k < |s[1..]| && s[1..][k] == x;
      assert s[0] == x && s[k + 1] == x;
    } else {
      CountedRepeats(s[1..], x);
      var i, j :| 0 <= i < j < |s[1..]| && s[1..][i] == x && s[1..][j] == x;
      assert s[i + 1] == x && s[j + 1] == x;
    }
  }

  /** The groups counting more than one row are empty exactly when no tuple repeats. */
  lemma {:induction false} NoRepeatedGroup(tuples: seq<seq<Value>>)
    ensures Filter(Repeated(tuples), Distinct(tuples)) == [] <==> SingleValued(tuples)
  {
    var groups := Filter(Repeated(tuples), Distinct(tuples));
    if i, j :| 0 <= i < j < |tuples| && tuples[i] == tuples[j] {
      RepeatedCounts(tuples, i, j);
      FilterCount(Repeated(tuples), Distinct(tuples), tuples[i]);
      assert tuples[i] in Distinct(tuples);
      assert tuples[i] in multiset(groups);
    }
    if groups != [] {
      FilterCount(Repeated(tuples), Distinct(tuples), groups[0]);
      assert groups[0] in multiset(groups);
      CountedRepeats(tuples, groups[0]);
    }
  }

  /** The guard passes its input through exactly when it is single-valued per key tuple. */
  lemma {:induction false} GuardIsSingleValued(w: World, keys: seq<IrExpr>, t: Table)
    ensures SingleRowGuarded(w, keys, t) == if SingleValued(Tuples(w, keys, t)) then Ok(t) else Err(GuardViolated)
  {
    var tuples := Tuples(w, keys, t);
    if keys == [] {
      assert forall k :: 0 <= k < |tuples| ==> tuples[k] == [];
      if |t.rows| > 1 {
        assert tuples[0] == tuples[1];
      }
    } else {
      NoRepeatedGroup(tuples);
    }
  }

  /** Every key expression has the same value, or is NULL, in both rows. */
  predicate SameKeys(w: World, keys: seq<IrExpr>, schema: seq<Field>, a: Row, b: Row) {
    forall m :: 0 <= m < |keys| ==> w.scalar(keys[m], schema, a) == w.scalar(keys[m], schema, b)
  }

  /** So it passes exactly when no two of its rows agree on every key expression. */
  lemma {:induction false} GuardPassesIff(w: World, keys: seq<IrExpr>, t: Table)
    ensures SingleRowGuarded(w, keys, t).Ok? <==>
              forall i, j :: 0 <= i < j < |t.rows| ==> !SameKeys(w, keys, t.schema, t.rows[i], t.rows[j])
    ensures SingleRowGuarded(w, keys, t).Err? ==> SingleRowGuarded(w, keys, t) == Err(GuardViolated)
  {
    GuardIsSingleValued(w, keys, t);
    var tuples := Tuples(w, keys, t);
    forall i, j | 0 <= i < j < |t.rows|
      ensures tuples[i] == tuples[j] <==> SameKeys(w, keys, t.schema, t.rows[i], t.rows[j])
    {
      assert tuples[i] == tuples[j] <==> forall m :: 0 <= m < |keys| ==> tuples[i][m] == tuples[j][m];
    }
  }

  // --- the join above the guard --------------------------------------------------------------

  function KeyCells(schema: seq<Field>, names: seq<string>): Row -> seq<Value> {
    (r: Row) => Map((n: string) => Cell(schema, r, n), names)
  }

  /** The guard's keys are the columns the join above compares. */
  ghost predicate GuardsJoin(w: World, keys: seq<IrExpr>, t: Table, j: JoinSpec) {
    && j.right == t.schema && |j.leftKeys| == |j.rightKeys|
    && Tuples(w, keys, t) == Map(KeyCells(t.schema, j.rightKeys), t.rows)
  }

  /** Some outer row holds a key: its columns exist, nothing is NULL, and a column named twice gets one value. */
  ghost predicate Holdable(j: JoinSpec, key: seq<Value>) {
    && |key| == |j.leftKeys| && Null !in key
    && (forall i :: 0 <= i < |key| ==> IndexOf(j.left, j.leftKeys[i]).Some?)
    && (forall a, b :: 0 <= a < |key| && 0 <= b < |key| && j.leftKeys[a] == j.leftKeys[b] ==> key[a] == key[b])
  }

  /** Two rows share join keys that an outer row can hold. */
  ghost predicate JoinableTwice(j: JoinSpec, rows: seq<Row>) {
    exists a, b :: 0 <= a < b < |rows|
      && KeyCells(j.right, j.rightKeys)(rows[a]) == KeyCells(j.right, j.rightKeys)(rows[b])
                   && Holdable(j, KeyCells(j.right, j.rightKeys)(rows[a]))
  }

  lemma {:induction false} SumOfNothing(f: Row -> multiset<Row>, rows: seq<Row>)
    requires forall k :: 0 <= k < |rows| ==> f(rows[k]) == multiset{}
    ensures Sum(f, rows) == multiset{}
  {
    if rows != [] {
      SumOfNothing(f, rows[1..]);
    }
  }

  lemma {:induction false} PairsAt(j: JoinSpec, l: Row, rows: seq<Row>, k: nat)
    requires k < |rows| && RowsMatch(j, l, rows[k])
    requires forall m :: 0 <= m < |rows| && m != k ==> !RowsMatch(j, l, rows[m])
    ensures Sum(PairWith(j, l), rows) == multiset{l + rows[k]}
  {
    var rest := rows[1..];
    assert forall m :: 0 <= m < |rest| ==> rest[m] == rows[m + 1];
    if k == 0 {
      SumOfNothing(PairWith(j, l), rest);
    } else {
      PairsAt(j, l, rest, k - 1);
    }
  }

  lemma {:induction false} MatchedKeys(j: JoinSpec, l: Row, a: Row, b: Row)
    requires |j.leftKeys| == |j.rightKeys|
    requires RowsMatch(j, l, a) && RowsMatch(j, l, b)
    ensures KeyCells(j.right, j.rightKeys)(a) == KeyCells(j.right, j.rightKeys)(b)
    ensures Holdable(j, KeyCells(j.right, j.rightKeys)(a))
  {
    var key := KeyCells(j.right, j.rightKeys)(a);
    forall i | 0 <= i < |j.rightKeys|
      ensures key[i] == Cell(j.left, l, j.leftKeys[i]) == KeyCells(j.right, j.rightKeys)(b)[i] != Null
    {
      assert Cell(j.left, l, j.leftKeys[i]) != Null;
    }
  }

  /** Exactly one output row, which extends the outer row. */
  ghost predicate ExtendsOnce(l: Row, share: multiset<Row>) {
    exists tail: Row :: share == multiset{l + tail}
  }

  /** Without joinable duplicates, a LEFT join gives each outer row exactly one row, which extends it. */
  lemma {:induction false} OneRowPerOuterRow(j: JoinSpec, rows: seq<Row>, l: Row)
    requires |j.leftKeys| == |j.rightKeys| && !JoinableTwice(j, rows)
    ensures ExtendsOnce(l, LeftShare(Left, j, rows, l))
  {
    if LeftHasMatch(j, l, rows) {
      var k :| 0 <= k < |rows| && RowsMatch(j, l, rows[k]);
      forall m | 0 <= m < |rows| && m != k ensures !RowsMatch(j, l, rows[m]) {
        if RowsMatch(j, l, rows[m]) {
          MatchedKeys(j, l, rows[k], rows[m]);
          MatchedKeys(j, l, rows[m], rows[k]);
          assert false;
        }
      }
      PairsAt(j, l, rows, k);
      assert LeftShare(Left, j, rows, l) == multiset{l + rows[k]};
    } else {
      NoMatchNoPairs(j, l, rows);
      assert LeftShare(Left, j, rows, l) == multiset{l + Nulls(|j.right|)};
    }
  }

  /** A LEFT equi-join on the guarded keys neither drops nor duplicates an outer row. */
  lemma {:induction false} GuardedJoinKeepsOuterRows(w: World, keys: seq<IrExpr>, t: Table, j: JoinSpec,
                                                     outer: seq<Row>)
    requires GuardsJoin(w, keys, t, j) && SingleRowGuarded(w, keys, t).Ok?
    ensures forall l :: l in outer ==> ExtendsOnce(l, LeftShare(Left, j, t.rows, l))
    ensures |Join(Left, j, outer, t.rows)| == |outer|
  {
    GuardIsSingleValued(w, keys, t);
    var tuples := Tuples(w, keys, t);
    assert forall k :: 0 <= k < |t.rows| ==> KeyCells(j.right, j.rightKeys)(t.rows[k]) == tuples[k];
    forall l ensures ExtendsOnce(l, LeftShare(Left, j, t.rows, l)) {
      OneRowPerOuterRow(j, t.rows, l);
    }
    OneEach(LeftPart(Left, j, t.rows), outer);
    SumOfNothing(RightPart(Left, j, outer), t.rows);
  }

  lemma {:induction false} OneEach(f: Row -> multiset<Row>, rows: seq<Row>)
    requires forall l :: ExtendsOnce(l, f(l))
    ensures |Sum(f, rows)| == |rows|
  {
    if rows != [] {
      OneEach(f, rows[1..]);
      var tail: Row :| f(rows[0]) == multiset{rows[0] + tail};
    }
  }

  /** What an outer row that holds a key has at column `k`: NULL where no key column is. */
  function Held(left: seq<Field>, names: seq<string>, key: seq<Value>, k: nat): Value {
    if names == [] || key == [] then Null
    else if IndexOf(left, names[0]) == Some(k) then key[0]
    else Held(left, names[1..], key[1..], k)
  }

  function Holder(j: JoinSpec, key: seq<Value>): Row {
    seq(|j.left|, (k: int) => if k < 0 then Null else Held(j.left, j.leftKeys, key, k))
  }

  lemma {:induction false} HeldAt(left: seq<Field>, names: seq<string>, key: seq<Value>, i: nat)
    requires i < |names| == |key| && IndexOf(left, names[i]).Some?
    requires forall a :: 0 <= a < i && names[a] == names[i] ==> key[a] == key[i]
    ensures Held(left, names, key, IndexOf(left, names[i]).value) == key[i]
  {
    if i != 0 && names[0] != names[i] {
      HeldAt(left, names[1..], key[1..], i - 1);
    }
  }

  /** The row that holds a key matches every row with that key, whatever other columns it has. */
  lemma {:induction false} HeldKeyMatches(j: JoinSpec, r: Row)
    requires |j.leftKeys| == |j.rightKeys| && Holdable(j, KeyCells(j.right, j.rightKeys)(r))
    ensures RowsMatch(j, Holder(j, KeyCells(j.right, j.rightKeys)(r)), r)
  {
    var key := KeyCells(j.right, j.rightKeys)(r);
    forall i | 0 <= i < |j.leftKeys|
      ensures Cell(j.left, Holder(j, key), j.leftKeys[i]) == Cell(j.right, r, j.rightKeys[i]) != Null
    {
      HeldAt(j.left, j.leftKeys, key, i);
      assert key[i] == Cell(j.right, r, j.rightKeys[i]) && key[i] in key;
    }
  }

  lemma {:induction false} MatchesCount(j: JoinSpec, l: Row, rows: seq<Row>, a: nat)
    requires a < |rows| && RowsMatch(j, l, rows[a])
    ensures |Sum(PairWith(j, l), rows)| > 0
  {
    SumWithout(PairWith(j, l), rows, a);
    assert |PairWith(j, l)(rows[a])| == 1;
  }

  lemma {:induction false} TwoMatchesCount(j: JoinSpec, l: Row, rows: seq<Row>, a: nat, b: nat)
    requires a < b < |rows| && RowsMatch(j, l, rows[a]) && RowsMatch(j, l, rows[b])
    ensures |Sum(PairWith(j, l), rows)| > 1
  {
    var tail := rows[a + 1..];
    assert rows == rows[..a + 1] + tail;
    SumAppend(PairWith(j, l), rows[..a + 1], tail);
    MatchesCount(j, l, rows[..a + 1], a);
    assert tail[b - a - 1] == rows[b];
    MatchesCount(j, l, tail, b - a - 1);
  }

  /** Joinable duplicates do duplicate the outer row that holds their key. */
  lemma {:induction false} DuplicatesMultiply(j: JoinSpec, rows: seq<Row>)
    requires |j.leftKeys| == |j.rightKeys| && JoinableTwice(j, rows)
    ensures exists l: Row :: |LeftShare(Left, j, rows, l)| > 1
  {
    var key := KeyCells(j.right, j.rightKeys);
    var a, b :| 0 <= a < b < |rows| && key(rows[a]) == key(rows[b]) && Holdable(j, key(rows[a]));
    HeldKeyMatches(j, rows[a]);
    HeldKeyMatches(j, rows[b]);
    TwoMatchesCount(j, Holder(j, key(rows[a])), rows, a, b);
    assert |LeftShare(Left, j, rows, Holder(j, key(rows[a])))| > 1;
  }

  /** The join above is single-valued for every outer row exactly when no two rows share a key that one can hold. */
  lemma {:induction false} JoinSingleValuedIff(j: JoinSpec, rows: seq<Row>)
    requires |j.leftKeys| == |j.rightKeys|
    ensures (forall l: Row :: |LeftShare(Left, j, rows, l)| == 1) <==> !JoinableTwice(j, rows)
  {
    if JoinableTwice(j, rows) {
      DuplicatesMultiply(j, rows);
    } else {
      forall l: Row ensures |LeftShare(Left, j, rows, l)| == 1 {
        OneRowPerOuterRow(j, rows, l);
        var tail: Row :| LeftShare(Left, j, rows, l) == multiset{l + tail};
      }
    }
  }

  /**
   * The guard refuses exactly what would multiply outer rows, unless its only duplicates are ones no outer row
   * matches.
   */
  lemma {:induction false} GuardAgreesIff(w: World, keys: seq<IrExpr>, t: Table, j: JoinSpec)
    requires GuardsJoin(w, keys, t, j)
    ensures (SingleRowGuarded(w, keys, t).Ok? <==> forall l: Row :: |LeftShare(Left, j, t.rows, l)| == 1) <==>
              (SingleValued(Tuples(w, keys, t)) || JoinableTwice(j, t.rows))
  {
    GuardIsSingleValued(w, keys, t);
    JoinSingleValuedIff(j, t.rows);
    var tuples := Tuples(w, keys, t);
    assert forall k :: 0 <= k < |t.rows| ==> KeyCells(j.right, j.rightKeys)(t.rows[k]) == tuples[k];
  }

  /**
   * The guard is stricter than the join needs: grouping puts NULL keys together, so two rows with a NULL in the same
   * key tuple are refused although no outer row could ever match them.
   */
  lemma {:induction false} NullDuplicatesAreRefused(w: World, keys: seq<IrExpr>, t: Table, j: JoinSpec, a: nat, b: nat)
    requires GuardsJoin(w, keys, t, j) && a < b < |t.rows|
    requires var key := KeyCells(j.right, j.rightKeys);
             && key(t.rows[a]) == key(t.rows[b])
             && forall m, n :: 0 <= m < n < |t.rows| && key(t.rows[m]) == key(t.rows[n]) ==> Null in key(t.rows[m])
    ensures SingleRowGuarded(w, keys, t) == Err(GuardViolated)
    ensures forall l: Row :: |LeftShare(Left, j, t.rows, l)| == 1
  {
    GuardIsSingleValued(w, keys, t);
    var tuples := Tuples(w, keys, t);
    assert tuples[a] == KeyCells(j.right, j.rightKeys)(t.rows[a])
      && tuples[b] == KeyCells(j.right, j.rightKeys)(t.rows[b]);
    JoinSingleValuedIff(j, t.rows);
  }
}

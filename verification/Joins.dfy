/** Equi-joins under SQL NULL rules, and when a reduced probe gives the join of the whole probe. */
module Joins {
  import opened Ir
  import opened Relations

  /** The two inputs of a join on paired key columns. */
  datatype JoinSpec = JoinSpec(left: seq<Field>, right: seq<Field>, leftKeys: seq<string>, rightKeys: seq<string>)

  /** Every key pair is equal and not NULL. */
  predicate RowsMatch(j: JoinSpec, l: Row, r: Row) {
    forall i :: 0 <= i < |j.leftKeys| && i < |j.rightKeys| ==>
                  var v := Cell(j.left, l, j.leftKeys[i]);
                  v != Null && v == Cell(j.right, r, j.rightKeys[i])
  }

  function Nulls(n: nat): Row {
    seq(n, _ => Null)
  }

  function Sum(f: Row -> multiset<Row>, rows: seq<Row>): multiset<Row> {
    if rows == [] then multiset{} else f(rows[0]) + Sum(f, rows[1..])
  }

  function PairWith(j: JoinSpec, l: Row): Row -> multiset<Row> {
    (r: Row) => if RowsMatch(j, l, r) then multiset{l + r} else multiset{}
  }

  predicate LeftHasMatch(j: JoinSpec, l: Row, right: seq<Row>) {
    exists k :: 0 <= k < |right| && RowsMatch(j, l, right[k])
  }

  predicate RightHasMatch(j: JoinSpec, left: seq<Row>, r: Row) {
    exists k :: 0 <= k < |left| && RowsMatch(j, left[k], r)
  }

  /** What one left row contributes to each kind of join. */
  function LeftShare(kind: JoinKind, j: JoinSpec, right: seq<Row>, l: Row): multiset<Row> {
    match kind
    case Semi => if LeftHasMatch(j, l, right) then multiset{l} else multiset{}
    case Anti => if LeftHasMatch(j, l, right) then multiset{} else multiset{l}
    case _ =>
      Sum(PairWith(j, l), right) +
      (if (kind == Left || kind == Full) && !LeftHasMatch(j, l, right) then multiset{l + Nulls(|j.right|)}
       else multiset{})
  }

  /** An unmatched right row, padded, in a RIGHT or FULL join. */
  function RightShare(kind: JoinKind, j: JoinSpec, left: seq<Row>, r: Row): multiset<Row> {
    if (kind == Right || kind == Full) && !RightHasMatch(j, left, r) then multiset{Nulls(|j.left|) + r} else multiset{}
  }

  function LeftPart(kind: JoinKind, j: JoinSpec, right: seq<Row>): Row -> multiset<Row> {
    (l: Row) => LeftShare(kind, j, right, l)
  }

  function RightPart(kind: JoinKind, j: JoinSpec, left: seq<Row>): Row -> multiset<Row> {
    (r: Row) => RightShare(kind, j, left, r)
  }

  /** The join of two inputs as a multiset of output rows. */
  function Join(kind: JoinKind, j: JoinSpec, left: seq<Row>, right: seq<Row>): multiset<Row> {
    Sum(LeftPart(kind, j, right), left) + Sum(RightPart(kind, j, left), right)
  }

  datatype Side = InLeft | InRight

  /** The join kinds and probe sides for which the planner may reduce the probe by the other side's keys. */
  predicate Reducible(kind: JoinKind, probe: Side) {
    match kind
    case Inner => true
    case Semi => true
    case Left => probe == InRight
    case Anti => probe == InRight
    case Right => probe == InLeft
    case Full => false
  }

  function JoinWith(kind: JoinKind, j: JoinSpec, probe: Side, build: seq<Row>, probeRows: seq<Row>): multiset<Row> {
    if probe == InLeft then Join(kind, j, probeRows, build) else Join(kind, j, build, probeRows)
  }

  predicate Joinable(j: JoinSpec, probe: Side, build: seq<Row>, p: Row) {
    if probe == InLeft then LeftHasMatch(j, p, build) else RightHasMatch(j, build, p)
  }

  function JoinableRows(j: JoinSpec, probe: Side, build: seq<Row>): Row -> bool {
    (p: Row) => Joinable(j, probe, build, p)
  }

  lemma {:induction false} SumAppend(f: Row -> multiset<Row>, a: seq<Row>, b: seq<Row>)
    ensures Sum(f, a + b) == Sum(f, a) + Sum(f, b)
  {
    if a == [] {
      assert a + b == b;
    } else {
      SumAppend(f, a[1..], b);
      assert (a + b)[1..] == a[1..] + b;
    }
  }

  lemma {:induction false} SumHolds(f: Row -> multiset<Row>, rows: seq<Row>, x: Row)
    ensures x in Sum(f, rows) <==> exists k :: 0 <= k < |rows| && x in f(rows[k])
  {
    if rows != [] {
      SumHolds(f, rows[1..], x);
      if k :| 0 <= k < |rows[1..]| && x in f(rows[1..][k]) {
        assert x in f(rows[k + 1]);
      }
      if k :| 0 <= k < |rows| && x in f(rows[k]) {
        assert k > 0 ==> rows[1..][k - 1] == rows[k];
      }
    }
  }

  /** A row pairs a left row with a right one that has equal keys, none of them NULL. */
  ghost predicate IsPair(j: JoinSpec, left: seq<Row>, right: seq<Row>, x: Row) {
    exists a, b :: 0 <= a < |left| && 0 <= b < |right| && x == left[a] + right[b] && KeysEqual(j, left[a], right[b])
  }

  predicate KeysEqual(j: JoinSpec, l: Row, r: Row) {
    forall i :: 0 <= i < |j.leftKeys| && i < |j.rightKeys| ==>
      Cell(j.left, l, j.leftKeys[i]) == Cell(j.right, r, j.rightKeys[i]) != Null
  }

  ghost predicate Alone(j: JoinSpec, l: Row, right: seq<Row>) {
    forall b :: 0 <= b < |right| ==> !KeysEqual(j, l, right[b])
  }

  ghost predicate AloneRight(j: JoinSpec, left: seq<Row>, r: Row) {
    forall a :: 0 <= a < |left| ==> !KeysEqual(j, left[a], r)
  }

  predicate AllNull(row: Row, width: nat) {
    |row| == width && forall i :: 0 <= i < width ==> row[i] == Null
  }

  /** A left row without a match, followed by a NULL for each column of the right input. */
  ghost predicate IsPaddedLeft(j: JoinSpec, left: seq<Row>, right: seq<Row>, x: Row) {
    exists a, pad: Row :: 0 <= a < |left| && x == left[a] + pad && AllNull(pad, |j.right|) && Alone(j, left[a], right)
  }

  ghost predicate IsPaddedRight(j: JoinSpec, left: seq<Row>, right: seq<Row>, x: Row) {
    exists b, pad: Row :: 0 <= b < |right| && x == pad + right[b] && AllNull(pad, |j.left|)
                          && AloneRight(j, left, right[b])
  }

  lemma {:induction false} MatchIsKeysEqual(j: JoinSpec, l: Row, r: Row)
    ensures RowsMatch(j, l, r) <==> KeysEqual(j, l, r)
  {
  }

  lemma {:induction false} OnlyNulls(pad: Row, width: nat)
    ensures AllNull(pad, width) <==> pad == Nulls(width)
  {
  }

  lemma {:induction false} PairIn(j: JoinSpec, l: Row, right: seq<Row>, x: Row)
    ensures x in Sum(PairWith(j, l), right) <==>
              exists b :: 0 <= b < |right| && x == l + right[b] && KeysEqual(j, l, right[b])
  {
    SumHolds(PairWith(j, l), right, x);
    forall b | 0 <= b < |right| ensures x in PairWith(j, l)(right[b]) <==>
                                          x == l + right[b] && KeysEqual(j, l, right[b]) {
      MatchIsKeysEqual(j, l, right[b]);
    }
  }

  /** What one left row contributes. */
  lemma {:induction false} InLeftShare(kind: JoinKind, j: JoinSpec, right: seq<Row>, l: Row, x: Row)
    ensures var padded := l + Nulls(|j.right|);
            x in LeftShare(kind, j, right, l) <==>
              match kind
              case Semi => x == l && !Alone(j, l, right)
              case Anti => x == l && Alone(j, l, right)
              case _ =>
                || (exists b :: 0 <= b < |right| && x == l + right[b] && KeysEqual(j, l, right[b]))
                || ((kind == Left || kind == Full) && Alone(j, l, right) && x == padded)
  {
    PairIn(j, l, right, x);
    forall b | 0 <= b < |right| ensures RowsMatch(j, l, right[b]) <==> KeysEqual(j, l, right[b]) {
      MatchIsKeysEqual(j, l, right[b]);
    }
  }

  lemma {:induction false} InRightShare(kind: JoinKind, j: JoinSpec, left: seq<Row>, r: Row, x: Row)
    ensures x in RightShare(kind, j, left, r) <==>
              (kind == Right || kind == Full) && AloneRight(j, left, r) && x == Nulls(|j.left|) + r
  {
    forall a | 0 <= a < |left| ensures RowsMatch(j, left[a], r) <==> KeysEqual(j, left[a], r) {
      MatchIsKeysEqual(j, left[a], r);
    }
  }

  /**
   * The rows of each kind of join: pairs with equal keys, left rows with or without a match, and unmatched rows of
   * either input padded with NULLs.
   */
  lemma {:induction false} InJoin(kind: JoinKind, j: JoinSpec, left: seq<Row>, right: seq<Row>, x: Row)
    ensures x in Join(kind, j, left, right) <==>
              match kind
              case Inner => IsPair(j, left, right, x)
              case Left => IsPair(j, left, right, x) || IsPaddedLeft(j, left, right, x)
              case Right => IsPair(j, left, right, x) || IsPaddedRight(j, left, right, x)
              case Full =>
                IsPair(j, left, right, x) || IsPaddedLeft(j, left, right, x) || IsPaddedRight(j, left, right, x)
              case Semi => exists a :: 0 <= a < |left| && x == left[a] && !Alone(j, left[a], right)
              case Anti => exists a :: 0 <= a < |left| && x == left[a] && Alone(j, left[a], right)
  {
    InLeftPart(kind, j, left, right, x);
    InRightPart(kind, j, left, right, x);
  }

  lemma {:induction false} InLeftPart(kind: JoinKind, j: JoinSpec, left: seq<Row>, right: seq<Row>, x: Row)
    ensures x in Sum(LeftPart(kind, j, right), left) <==>
              match kind
              case Semi => exists a :: 0 <= a < |left| && x == left[a] && !Alone(j, left[a], right)
              case Anti => exists a :: 0 <= a < |left| && x == left[a] && Alone(j, left[a], right)
              case _ => IsPair(j, left, right, x)
                        || ((kind == Left || kind == Full) && IsPaddedLeft(j, left, right, x))
  {
    SumHolds(LeftPart(kind, j, right), left, x);
    OnlyNulls(Nulls(|j.right|), |j.right|);
    forall a | 0 <= a < |left|
      ensures x in LeftPart(kind, j, right)(left[a]) <==> x in LeftShare(kind, j, right, left[a])
    {
      InLeftShare(kind, j, right, left[a], x);
    }
    LeftCases(kind, j, left, right, x);
  }

  lemma {:induction false} LeftCases(kind: JoinKind, j: JoinSpec, left: seq<Row>, right: seq<Row>, x: Row)
    ensures (exists a :: 0 <= a < |left| && x in LeftShare(kind, j, right, left[a])) <==>
              match kind
              case Semi => exists a :: 0 <= a < |left| && x == left[a] && !Alone(j, left[a], right)
              case Anti => exists a :: 0 <= a < |left| && x == left[a] && Alone(j, left[a], right)
              case _ => IsPair(j, left, right, x)
                        || ((kind == Left || kind == Full) && IsPaddedLeft(j, left, right, x))
  {
    forall a | 0 <= a < |left|
      ensures x in LeftShare(kind, j, right, left[a]) <==>
                match kind
                case Semi => x == left[a] && !Alone(j, left[a], right)
                case Anti => x == left[a] && Alone(j, left[a], right)
                case _ =>
                  || (exists b :: 0 <= b < |right| && x == left[a] + right[b] && KeysEqual(j, left[a], right[b]))
                  || ((kind == Left || kind == Full) && Alone(j, left[a], right) && x == left[a] + Nulls(|j.right|))
    {
      InLeftShare(kind, j, right, left[a], x);
    }
    OnlyNulls(Nulls(|j.right|), |j.right|);
    if IsPaddedLeft(j, left, right, x) {
      var a, pad: Row :| 0 <= a < |left| && x == left[a] + pad && AllNull(pad, |j.right|) && Alone(j, left[a], right);
      OnlyNulls(pad, |j.right|);
    }
  }

  lemma {:induction false} InRightPart(kind: JoinKind, j: JoinSpec, left: seq<Row>, right: seq<Row>, x: Row)
    ensures x in Sum(RightPart(kind, j, left), right) <==>
              (kind == Right || kind == Full) && IsPaddedRight(j, left, right, x)
  {
    SumHolds(RightPart(kind, j, left), right, x);
    OnlyNulls(Nulls(|j.left|), |j.left|);
    forall b | 0 <= b < |right|
      ensures x in RightPart(kind, j, left)(right[b]) <==>
                (kind == Right || kind == Full) && AloneRight(j, left, right[b]) && x == Nulls(|j.left|) + right[b]
    {
      InRightShare(kind, j, left, right[b], x);
    }
    if IsPaddedRight(j, left, right, x) {
      var b, pad: Row :| 0 <= b < |right| && x == pad + right[b] && AllNull(pad, |j.left|)
                         && AloneRight(j, left, right[b]);
      OnlyNulls(pad, |j.left|);
    }
  }

  lemma {:induction false} SumWithout(f: Row -> multiset<Row>, rows: seq<Row>, k: nat)
    requires k < |rows|
    ensures Sum(f, rows) == f(rows[k]) + Sum(f, rows[..k] + rows[k + 1..])
    ensures multiset(rows[..k] + rows[k + 1..]) == multiset(rows) - multiset{rows[k]}
  {
    assert rows == rows[..k] + ([rows[k]] + rows[k + 1..]);
    SumAppend(f, rows[..k], [rows[k]] + rows[k + 1..]);
    SumAppend(f, rows[..k], rows[k + 1..]);
    assert ([rows[k]] + rows[k + 1..])[1..] == rows[k + 1..];
  }

  /** A sum does not depend on the order of the rows. */
  lemma {:induction false} SumPermutes(f: Row -> multiset<Row>, a: seq<Row>, b: seq<Row>)
    requires multiset(a) == multiset(b)
    ensures Sum(f, a) == Sum(f, b)
  {
    if a == [] {
      assert |b| == |multiset(b)| == 0;
    } else {
      assert a[0] in multiset(b);
      var k :| 0 <= k < |b| && b[k] == a[0];
      SumWithout(f, b, k);
      assert a == [a[0]] + a[1..];
      SumPermutes(f, a[1..], b[..k] + b[k + 1..]);
    }
  }

  lemma {:induction false} SumCongruence(f: Row -> multiset<Row>, g: Row -> multiset<Row>, rows: seq<Row>)
    requires forall k :: 0 <= k < |rows| ==> f(rows[k]) == g(rows[k])
    ensures Sum(f, rows) == Sum(g, rows)
  {
    if rows != [] {
      SumCongruence(f, g, rows[1..]);
    }
  }

  /** Rows that contribute nothing can be filtered out. */
  lemma {:induction false} SumFilter(f: Row -> multiset<Row>, keep: Row -> bool, rows: seq<Row>)
    requires forall k :: 0 <= k < |rows| && !keep(rows[k]) ==> f(rows[k]) == multiset{}
    ensures Sum(f, Filter(keep, rows)) == Sum(f, rows)
  {
    if rows != [] {
      SumFilter(f, keep, rows[1..]);
      SumAppend(f, if keep(rows[0]) then [rows[0]] else [], Filter(keep, rows[1..]));
    }
  }

  /** A left row finds a match in the filtered right side if it finds one in the whole of it. */
  lemma {:induction false} MatchSurvives(j: JoinSpec, l: Row, keep: Row -> bool, right: seq<Row>)
    requires forall k :: 0 <= k < |right| && RowsMatch(j, l, right[k]) ==> keep(right[k])
    ensures LeftHasMatch(j, l, Filter(keep, right)) == LeftHasMatch(j, l, right)
  {
    if LeftHasMatch(j, l, right) {
      var k :| 0 <= k < |right| && RowsMatch(j, l, right[k]);
      FilterCount(keep, right, right[k]);
      assert right[k] in multiset(Filter(keep, right));
    }
    if LeftHasMatch(j, l, Filter(keep, right)) {
      var k :| 0 <= k < |Filter(keep, right)| && RowsMatch(j, l, Filter(keep, right)[k]);
      FilterIsPart(keep, right);
      assert Filter(keep, right)[k] in multiset(Filter(keep, right));
      assert Filter(keep, right)[k] in multiset(right);
    }
  }

  lemma {:induction false} RightMatchSurvives(j: JoinSpec, r: Row, keep: Row -> bool, left: seq<Row>)
    requires forall k :: 0 <= k < |left| && RowsMatch(j, left[k], r) ==> keep(left[k])
    ensures RightHasMatch(j, Filter(keep, left), r) == RightHasMatch(j, left, r)
  {
    if RightHasMatch(j, left, r) {
      var k :| 0 <= k < |left| && RowsMatch(j, left[k], r);
      FilterCount(keep, left, left[k]);
      assert left[k] in multiset(Filter(keep, left));
    }
    if RightHasMatch(j, Filter(keep, left), r) {
      var k :| 0 <= k < |Filter(keep, left)| && RowsMatch(j, Filter(keep, left)[k], r);
      FilterIsPart(keep, left);
      assert Filter(keep, left)[k] in multiset(Filter(keep, left));
      assert Filter(keep, left)[k] in multiset(left);
    }
  }

  /** Matching depends on which rows are present, not on their order. */
  lemma {:induction false} MatchPermutes(j: JoinSpec, l: Row, a: seq<Row>, b: seq<Row>)
    requires multiset(a) == multiset(b)
    ensures LeftHasMatch(j, l, a) == LeftHasMatch(j, l, b)
    ensures RightHasMatch(j, a, l) == RightHasMatch(j, b, l)
  {
    assert forall x :: x in a <==> x in multiset(a);
    assert forall x :: x in b <==> x in multiset(b);
    assert forall k :: 0 <= k < |a| ==> a[k] in b;
    assert forall k :: 0 <= k < |b| ==> b[k] in a;
  }

  lemma {:induction false} NoMatchNoPairs(j: JoinSpec, l: Row, right: seq<Row>)
    requires !LeftHasMatch(j, l, right)
    ensures Sum(PairWith(j, l), right) == multiset{}
  {
    var none := (r: Row) => false;
    SumFilter(PairWith(j, l), none, right);
    FilterNothing(none, right);
  }

  lemma {:induction false} LeftPermutes(kind: JoinKind, j: JoinSpec, build: seq<Row>, a: seq<Row>, b: seq<Row>)
    requires multiset(a) == multiset(b)
    ensures Join(kind, j, a, build) == Join(kind, j, b, build)
  {
    SumPermutes(LeftPart(kind, j, build), a, b);
    forall r: Row ensures RightShare(kind, j, a, r) == RightShare(kind, j, b, r) {
      MatchPermutes(j, r, a, b);
    }
    SumCongruence(RightPart(kind, j, a), RightPart(kind, j, b), build);
  }

  lemma {:induction false} SharePermutes(kind: JoinKind, j: JoinSpec, l: Row, a: seq<Row>, b: seq<Row>)
    requires multiset(a) == multiset(b)
    ensures LeftShare(kind, j, a, l) == LeftShare(kind, j, b, l)
  {
    MatchPermutes(j, l, a, b);
    SumPermutes(PairWith(j, l), a, b);
  }

  lemma {:induction false} RightPermutes(kind: JoinKind, j: JoinSpec, build: seq<Row>, a: seq<Row>, b: seq<Row>)
    requires multiset(a) == multiset(b)
    ensures Join(kind, j, build, a) == Join(kind, j, build, b)
  {
    SumPermutes(RightPart(kind, j, build), a, b);
    forall k | 0 <= k < |build| ensures LeftPart(kind, j, a)(build[k]) == LeftPart(kind, j, b)(build[k]) {
      SharePermutes(kind, j, build[k], a, b);
    }
    SumCongruence(LeftPart(kind, j, a), LeftPart(kind, j, b), build);
  }

  /** The order of the probe rows is irrelevant. */
  lemma {:induction false} ProbePermutes(kind: JoinKind, j: JoinSpec, probe: Side, build: seq<Row>, a: seq<Row>,
                                         b: seq<Row>)
    requires multiset(a) == multiset(b)
    ensures JoinWith(kind, j, probe, build, a) == JoinWith(kind, j, probe, build, b)
  {
    if probe == InLeft {
      LeftPermutes(kind, j, build, a, b);
    } else {
      RightPermutes(kind, j, build, a, b);
    }
  }

  lemma {:induction false} OnlyJoinableLeftMatter(kind: JoinKind, j: JoinSpec, build: seq<Row>, rows: seq<Row>)
    requires Reducible(kind, InLeft)
    ensures Join(kind, j, Filter(JoinableRows(j, InLeft, build), rows), build) == Join(kind, j, rows, build)
  {
    var keep := JoinableRows(j, InLeft, build);
    forall k | 0 <= k < |rows| && !keep(rows[k]) ensures LeftPart(kind, j, build)(rows[k]) == multiset{} {
      UnmatchedGivesNothing(kind, j, build, rows[k]);
    }
    SumFilter(LeftPart(kind, j, build), keep, rows);
    RightSharesSurvive(kind, j, keep, build, rows);
  }

  /** An unmatched left row gives nothing to a join whose left side is reducible. */
  lemma {:induction false} UnmatchedGivesNothing(kind: JoinKind, j: JoinSpec, build: seq<Row>, l: Row)
    requires Reducible(kind, InLeft) && !LeftHasMatch(j, l, build)
    ensures LeftShare(kind, j, build, l) == multiset{}
  {
    NoMatchNoPairs(j, l, build);
  }

  lemma {:induction false} RightSharesSurvive(kind: JoinKind, j: JoinSpec, keep: Row -> bool, build: seq<Row>,
                                              rows: seq<Row>)
    requires keep == JoinableRows(j, InLeft, build)
    ensures Sum(RightPart(kind, j, Filter(keep, rows)), build) == Sum(RightPart(kind, j, rows), build)
  {
    forall k | 0 <= k < |build|
      ensures RightPart(kind, j, Filter(keep, rows))(build[k]) == RightPart(kind, j, rows)(build[k])
    {
      RightMatchSurvives(j, build[k], keep, rows);
    }
    SumCongruence(RightPart(kind, j, Filter(keep, rows)), RightPart(kind, j, rows), build);
  }

  /** Filtering the right rows by anything the left row's matches pass keeps the left row's share. */
  lemma {:induction false} ShareSurvives(kind: JoinKind, j: JoinSpec, l: Row, keep: Row -> bool, right: seq<Row>)
    requires forall k :: 0 <= k < |right| && RowsMatch(j, l, right[k]) ==> keep(right[k])
    ensures LeftShare(kind, j, Filter(keep, right), l) == LeftShare(kind, j, right, l)
  {
    MatchSurvives(j, l, keep, right);
    SumFilter(PairWith(j, l), keep, right);
  }

  lemma {:induction false} OnlyJoinableRightMatter(kind: JoinKind, j: JoinSpec, build: seq<Row>, rows: seq<Row>)
    requires Reducible(kind, InRight)
    ensures Join(kind, j, build, Filter(JoinableRows(j, InRight, build), rows)) == Join(kind, j, build, rows)
  {
    var keep := JoinableRows(j, InRight, build);
    SumFilter(RightPart(kind, j, build), keep, rows);
    forall k | 0 <= k < |build|
      ensures LeftPart(kind, j, Filter(keep, rows))(build[k]) == LeftPart(kind, j, rows)(build[k])
    {
      ShareSurvives(kind, j, build[k], keep, rows);
    }
    SumCongruence(LeftPart(kind, j, Filter(keep, rows)), LeftPart(kind, j, rows), build);
  }

  /** For a reducible join, only the joinable probe rows matter. */
  lemma {:induction false} OnlyJoinableMatter(kind: JoinKind, j: JoinSpec, probe: Side, build: seq<Row>, rows: seq<Row>)
    requires Reducible(kind, probe)
    ensures JoinWith(kind, j, probe, build, Filter(JoinableRows(j, probe, build), rows)) ==
              JoinWith(kind, j, probe, build, rows)
  {
    if probe == InLeft {
      OnlyJoinableLeftMatter(kind, j, build, rows);
    } else {
      OnlyJoinableRightMatter(kind, j, build, rows);
    }
  }

  /** Any probe between the joinable rows and the whole probe gives the join of the whole probe. */
  lemma {:induction false} ReducedProbeIsExact(kind: JoinKind, j: JoinSpec, probe: Side, build: seq<Row>,
                                               base: seq<Row>, fetched: seq<Row>)
    requires Reducible(kind, probe)
    requires multiset(Filter(JoinableRows(j, probe, build), base)) <= multiset(fetched) <= multiset(base)
    ensures JoinWith(kind, j, probe, build, fetched) == JoinWith(kind, j, probe, build, base)
  {
    var keep := JoinableRows(j, probe, build);
    FilterBetween(keep, base, fetched);
    OnlyJoinableMatter(kind, j, probe, build, base);
    OnlyJoinableMatter(kind, j, probe, build, fetched);
    ProbePermutes(kind, j, probe, build, Filter(keep, fetched), Filter(keep, base));
  }

  /** Fetching `fetched` instead of `base` does not show in the join. */
  ghost predicate Exact(kind: JoinKind, j: JoinSpec, probe: Side, build: seq<Row>, base: seq<Row>, fetched: seq<Row>) {
    multiset(Filter(JoinableRows(j, probe, build), base)) <= multiset(fetched) <= multiset(base) ==>
      JoinWith(kind, j, probe, build, fetched) == JoinWith(kind, j, probe, build, base)
  }

  /** Reducing the probe is exact for every build and probe. */
  ghost predicate AlwaysExact(kind: JoinKind, probe: Side) {
    forall j, build, base, fetched :: Exact(kind, j, probe, build, base, fetched)
  }

  /** With no build rows nothing is joinable, yet every other kind or side keeps the whole probe. */
  lemma {:induction false} UnreducedProbeIsKept(kind: JoinKind, j: JoinSpec, probe: Side, p: Row)
    requires !Reducible(kind, probe)
    ensures JoinWith(kind, j, probe, [], []) == multiset{}
    ensures JoinWith(kind, j, probe, [], [p]) != multiset{}
  {
    if probe == InLeft {
      SumOne(LeftPart(kind, j, []), p);
      UnmatchedLeftIsKept(kind, j, p);
    } else {
      SumOne(RightPart(kind, j, []), p);
      UnmatchedRightIsKept(kind, j, p);
    }
  }

  lemma {:induction false} SumOne(f: Row -> multiset<Row>, p: Row)
    ensures Sum(f, [p]) == f(p)
  {
    assert [p][1..] == [];
  }

  lemma {:induction false} UnmatchedLeftIsKept(kind: JoinKind, j: JoinSpec, p: Row)
    requires !Reducible(kind, InLeft)
    ensures |LeftShare(kind, j, [], p)| == 1
  {
  }

  lemma {:induction false} UnmatchedRightIsKept(kind: JoinKind, j: JoinSpec, p: Row)
    requires !Reducible(kind, InRight)
    ensures |RightShare(kind, j, [], p)| == 1
  {
  }

  lemma {:induction false} IrreducibleIsInexact(kind: JoinKind, probe: Side)
    requires !Reducible(kind, probe)
    ensures !AlwaysExact(kind, probe)
  {
    var j := JoinSpec([], [], [], []);
    var p: Row := [Int(1)];
    UnreducedProbeIsKept(kind, j, probe, p);
    assert !Joinable(j, probe, [], p);
    assert Filter(JoinableRows(j, probe, []), [p]) == Filter(JoinableRows(j, probe, []), []) == [];
    assert multiset(Filter(JoinableRows(j, probe, []), [p])) == multiset{};
    assert !Exact(kind, j, probe, [], [p], []);
  }

  /** The reducible kinds and sides are exactly those for which the reduction is always exact. */
  lemma {:induction false} ReducibleIsExact(kind: JoinKind, probe: Side)
    ensures Reducible(kind, probe) <==> AlwaysExact(kind, probe)
  {
    if Reducible(kind, probe) {
      forall j, build, base, fetched ensures Exact(kind, j, probe, build, base, fetched) {
        if multiset(Filter(JoinableRows(j, probe, build), base)) <= multiset(fetched) <= multiset(base) {
          ReducedProbeIsExact(kind, j, probe, build, base, fetched);
        }
      }
    } else {
      IrreducibleIsInexact(kind, probe);
    }
  }
}

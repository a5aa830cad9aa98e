/** The order in which the columns are balanced: along a connection, from its main sink or
    from its main source. Part of CAmActionSetVolumeCore. */
module VolumeOrder {
  import opened KeyOrder
  import opened Sequences
  import opened VolumeBalance
  import opened ConnectionTable
  import opened VolumeMatrix
  import opened VolumeOutcome

  // ------------------------------------------------------ the order of the columns

  datatype Direction = SinkToSource | SourceToSink

  predicate Precedes(d: Direction, m: Matrix, x: nat, y: nat)
    requires x in m && y in m
  {
    match d
    case SinkToSource => m[x].ordinal < m[y].ordinal
    case SourceToSink => m[x].ordinal > m[y].ordinal
  }

  /** A stable sort: x stays in front of the elements that it does not have to follow. */
  function SortInto(d: Direction, m: Matrix, x: nat, es: seq<nat>): (r: seq<nat>)
    requires x in m && forall e | e in es :: e in m
    ensures forall e :: e in r <==> e == x || e in es
    decreases es
  {
    if es == [] || !Precedes(d, m, es[0], x) then [x] + es else [es[0]] + SortInto(d, m, x, es[1..])
  }

  function Sorted(d: Direction, m: Matrix, es: seq<nat>): (r: seq<nat>)
    requires forall e | e in es :: e in m
    ensures forall e :: e in r <==> e in es
    decreases es
  {
    if es == [] then [] else SortInto(d, m, es[0], Sorted(d, m, es[1..]))
  }

  predicate InOrder(d: Direction, m: Matrix, es: seq<nat>) {
    (forall e | e in es :: e in m) && forall i, j | 0 <= i < j < |es| :: !Precedes(d, m, es[j], es[i])
  }

  lemma {:induction false} SortIntoSorts(d: Direction, m: Matrix, x: nat, es: seq<nat>)
    requires x in m && InOrder(d, m, es) && Distinct(es) && x !in es
    ensures InOrder(d, m, SortInto(d, m, x, es)) && Distinct(SortInto(d, m, x, es))
    decreases es
  {
    if es != [] && Precedes(d, m, es[0], x) {
      var rest := SortInto(d, m, x, es[1..]);
      SortIntoSorts(d, m, x, es[1..]);
      assert es[0] !in es[1..];
      forall j | 0 <= j < |rest| ensures rest[j] != es[0] && !Precedes(d, m, rest[j], es[0]) {
        assert rest[j] in rest;
        if rest[j] != x { var k :| 0 <= k < |es[1..]| && es[1..][k] == rest[j]; assert es[k + 1] == rest[j]; }
      }
    }
  }

  lemma {:induction false} SortedSorts(d: Direction, m: Matrix, es: seq<nat>)
    requires Distinct(es) && forall e | e in es :: e in m
    ensures InOrder(d, m, Sorted(d, m, es)) && SameElements(Sorted(d, m, es), es)
    decreases es
  {
    if es != [] {
      SortedSorts(d, m, es[1..]);
      assert es[0] !in es[1..];
      SortIntoSorts(d, m, es[0], Sorted(d, m, es[1..]));
    }
  }

  // ------------------------------------------------------ ordinals along a connection

  ghost predicate Filled(t: Table) {
    forall e | e in t.matrix :: t.matrix[e].connections != {}
  }

  /** Columns that were there keep their ordinals. */
  ghost predicate OrdinalsKept(t: Table, t1: Table) {
    Filled(t1) && forall e | e in t.matrix :: e in t1.matrix && t1.matrix[e].ordinal == t.matrix[e].ordinal
  }

  /** The columns for the elements es count on from the column before. */
  ghost predicate CountsOn(t: Table, t1: Table, es: seq<nat>, j: nat)
    requires j < |es| && forall e | e in es :: e in t1.matrix
  {
    es[j] !in t.matrix ==>
      t1.matrix[es[j]].ordinal == if j == 0 then t.next else t1.matrix[es[j - 1]].ordinal + 1
  }

  lemma ElementCounts(w: World, t: Table, c: nat, e: nat)
    requires Filled(t)
    ensures var t1 := EnterElement(w, t, c, e);
            && OrdinalsKept(t, t1) && t1.matrix.Keys == t.matrix.Keys + {e}
            && t1.next == t1.matrix[e].ordinal + 1
            && (e !in t.matrix ==> t1.matrix[e].ordinal == t.next)
  {
    hide Users, Link;
  }

  /** Entering es made the one table of the other. */
  ghost predicate Counted(t: Table, t1: Table, es: seq<nat>) {
    && OrdinalsKept(t, t1)
    && (forall e :: e in t1.matrix <==> e in t.matrix || e in es)
    && (Distinct(es) ==> forall j | 0 <= j < |es| :: CountsOn(t, t1, es, j))
  }

  lemma {:induction false} ElementsCount(w: World, t: Table, c: nat, es: seq<nat>)
    requires Filled(t)
    ensures Counted(t, EnterElements(w, t, c, es), es)
    decreases es
  {
    hide EnterElement, CountsOn;
    if es != [] {
      var mid := EnterElement(w, t, c, es[0]);
      ElementCounts(w, t, c, es[0]);
      assert Filled(mid);
      ElementsCount(w, mid, c, es[1..]);
      CountedJoins(t, mid, EnterElements(w, t, c, es), es);
    }
  }

  lemma CountedJoins(t: Table, mid: Table, t1: Table, es: seq<nat>)
    requires es != [] && OrdinalsKept(t, mid) && mid.matrix.Keys == t.matrix.Keys + {es[0]}
    requires mid.next == mid.matrix[es[0]].ordinal + 1 && (es[0] !in t.matrix ==> mid.matrix[es[0]].ordinal == t.next)
    requires Counted(mid, t1, es[1..])
    ensures Counted(t, t1, es)
  {
    forall e ensures e in es <==> e == es[0] || e in es[1..] { }
    forall j | 0 <= j < |es| && Distinct(es) ensures CountsOn(t, t1, es, j) {
      if j > 0 {
        assert es[j] == es[1..][j - 1] && es[j] != es[0];
        assert CountsOn(mid, t1, es[1..], j - 1);
        assert j > 1 ==> es[1..][j - 2] == es[j - 1];
      }
    }
  }

  // ------------------------------------------------------ over all rows

  /** No connection with a turn before c passes through e. */
  ghost predicate ReachedFirstBy(w: World, addressed: set<nat>, c: nat, e: nat) {
    forall k | k < c && (k in addressed || k in w.connections) :: e !in w.elements(k)
  }

  /** Every column was entered for a connection below `from`. */
  ghost predicate Traced(w: World, addressed: set<nat>, t: Table, from: nat) {
    && t.rows.Keys <= addressed + Known(w)
    && forall e | e in t.matrix :: exists k | k in addressed + Known(w) :: k < from && e in w.elements(k)
  }

  lemma RowTraced(w: World, addressed: set<nat>, t: Table, from: nat, c: nat)
    requires Filled(t) && Traced(w, addressed, t, from) && c in t.rows && c >= from
    ensures Traced(w, addressed, EnterElements(w, t, c, w.elements(c)), c + 1)
  {
    hide EnterElements;
    ElementsCount(w, t, c, w.elements(c));
  }

  lemma {:induction false} RowsKeep(w: World, t: Table, from: nat)
    requires Filled(t)
    ensures OrdinalsKept(t, EnterRows(w, t, from))
    decreases Ahead(t.rows.Keys + Known(w), from)
  {
    hide EnterElements, Known;
    var ahead := Ahead(t.rows.Keys, from);
    if ahead != {} {
      var c := Least(ahead);
      var t1 := EnterElements(w, t, c, w.elements(c));
      ElementsCount(w, t, c, w.elements(c));
      assert t1.rows.Keys + Known(w) == t.rows.Keys + Known(w);
      assert c in Ahead(t.rows.Keys + Known(w), from) && c !in Ahead(t1.rows.Keys + Known(w), c + 1);
      RowsKeep(w, t1, c + 1);
    }
  }

  /** Along connection c the ordinals go up by one wherever c is the first to get to. */
  ghost predicate CountsAlong(w: World, addressed: set<nat>, m: Matrix, c: nat) {
    var es := w.elements(c);
    && (forall e | e in es :: e in m)
    && forall j | 0 < j < |es| && ReachedFirstBy(w, addressed, c, es[j]) ::
         m[es[j]].ordinal == m[es[j - 1]].ordinal + 1
  }

  lemma RowCounts(w: World, addressed: set<nat>, t: Table, c: nat)
    requires Filled(t) && Traced(w, addressed, t, c) && c in t.rows && Distinct(w.elements(c))
    ensures CountsAlong(w, addressed, EnterRows(w, EnterElements(w, t, c, w.elements(c)), c + 1).matrix, c)
  {
    hide EnterElements, EnterRows;
    var es := w.elements(c);
    var t1 := EnterElements(w, t, c, es);
    ElementsCount(w, t, c, es);
    RowsKeep(w, t1, c + 1);
    forall j | 0 < j < |es| && ReachedFirstBy(w, addressed, c, es[j])
      ensures t1.matrix[es[j]].ordinal == t1.matrix[es[j - 1]].ordinal + 1
    {
      assert es[j] !in t.matrix;
      assert CountsOn(t, t1, es, j);
    }
  }

  lemma {:induction false} RowsCount(w: World, addressed: set<nat>, t: Table, from: nat, c: nat)
    requires Filled(t) && Traced(w, addressed, t, from) && c in t.rows && c >= from && Distinct(w.elements(c))
    ensures CountsAlong(w, addressed, EnterRows(w, t, from).matrix, c)
    decreases Ahead(t.rows.Keys + Known(w), from)
  {
    hide EnterElements, CountsAlong, Traced, Known, Filled;
    var ahead := Ahead(t.rows.Keys, from);
    assert c in ahead;
    var k := Least(ahead);
    var t1 := EnterElements(w, t, k, w.elements(k));
    assert t1.rows.Keys + Known(w) == t.rows.Keys + Known(w);
    assert k in Ahead(t.rows.Keys + Known(w), from) && k !in Ahead(t1.rows.Keys + Known(w), k + 1);
    TracedFurther(w, addressed, t, from, k);
    if k == c {
      RowCounts(w, addressed, t, c);
    } else {
      RowTraced(w, addressed, t, from, k);
      ElementsCount(w, t, k, w.elements(k));
      RowsCount(w, addressed, t1, k + 1, c);
    }
  }

  lemma TracedFurther(w: World, addressed: set<nat>, t: Table, from: nat, k: nat)
    requires Traced(w, addressed, t, from) && from <= k
    ensures Traced(w, addressed, t, k)
  {
  }

  /** Between two elements of an addressed connection, if no connection with an earlier turn
      passes through what follows the first, the ordinals go up by one at a time; then
      SinkToSource puts the one nearer the main sink in front, and SourceToSink the other. */
  lemma {:induction false} OrdinalsAlong(w: World, rows: Rows, c: nat, i: nat, j: nat)
    requires c in rows && Distinct(w.elements(c)) && i <= j < |w.elements(c)|
    requires forall k | i < k <= j :: ReachedFirstBy(w, rows.Keys, c, w.elements(c)[k])
    ensures var m, es := SetUp(w, rows).matrix, w.elements(c);
            && es[i] in m && es[j] in m && m[es[j]].ordinal == m[es[i]].ordinal + (j - i)
            && (i < j ==> Precedes(SinkToSource, m, es[i], es[j]) && !Precedes(SinkToSource, m, es[j], es[i])
                          && Precedes(SourceToSink, m, es[j], es[i]) && !Precedes(SourceToSink, m, es[i], es[j]))
    decreases j
  {
    hide ReachedFirstBy, EnterRows;
    RowsCount(w, rows.Keys, Table(rows, map[], 0), 0, c);
    if i < j { OrdinalsAlong(w, rows, c, i, j - 1); }
  }

  // ------------------------------------------------------ where the order turns back

  /** Connection 0 has element 5 alone; connection 1 passes through 1, 3, 5 and 2. */
  function CrossedElements(c: nat): seq<nat> {
    if c == 0 then [5] else if c == 1 then [1, 3, 5, 2] else []
  }

  lemma OneEntered(w: World, t: Table, c: nat, e: nat)
    ensures EnterElements(w, t, c, [e]) == EnterElement(w, t, c, e)
  {
    var t1 := EnterElement(w, t, c, e);
    assert [e][1..] == [] && EnterElements(w, t1, c, []) == t1;
  }

  lemma TwoRows(w: World, t0: Table, es: seq<nat>, fs: seq<nat>)
    requires w.connections == [] && w.elements(0) == es && w.elements(1) == fs && t0.rows.Keys == {0, 1}
    ensures EnterRows(w, t0, 0) == EnterElements(w, EnterElements(w, t0, 0, es), 1, fs)
  {
    hide EnterElements;
    var t1 := EnterElements(w, t0, 0, es);
    var t2 := EnterElements(w, t1, 1, fs);
    assert t1.rows.Keys == {0, 1} && t2.rows.Keys == {0, 1};
    assert Ahead({0, 1}, 0) == {0, 1} && Least({0, 1}) == 0;
    assert Ahead({0, 1}, 1) == {1} && Least({1}) == 1;
    assert Ahead({0, 1}, 2) == {};
    assert EnterRows(w, t1, 1) == EnterRows(w, t2, 2) == t2;
  }

  /** Entering a, b, a shared element and z, in this order. */
  lemma TurnsBack(w: World, t: Table, c: nat, s: nat, es: seq<nat>)
    requires Filled(t) && s in t.matrix && |es| == 4 && Distinct(es) && es[2] == s
    requires es[0] !in t.matrix && es[1] !in t.matrix && es[3] !in t.matrix
    ensures var m := EnterElements(w, t, c, es).matrix;
            && es[1] in m && es[3] in m
            && m[es[1]].ordinal == t.next + 1 && m[es[3]].ordinal == t.matrix[s].ordinal + 1
  {
    hide EnterElements;
    var t1 := EnterElements(w, t, c, es);
    ElementsCount(w, t, c, es);
    assert CountsOn(t, t1, es, 0) && CountsOn(t, t1, es, 1) && CountsOn(t, t1, es, 3);
  }

  /** An element that an earlier connection passes through as well sets the ordinals back:
      of two elements that connection 1 has to itself, the one nearer the main source then
      has the lower ordinal, and is balanced first by an action that shall start at the
      main sink. */
  lemma SharedElementTurnsBack(w: World, rows: Rows)
    requires w.connections == [] && (forall c :: w.elements(c) == CrossedElements(c)) && rows.Keys == {0, 1}
    ensures Own(w, rows.Keys, 1, 3) && Own(w, rows.Keys, 1, 2)
    ensures var m := SetUp(w, rows).matrix; 3 in m && 2 in m && Precedes(SinkToSource, m, 2, 3)
  {
    hide EnterElements, EnterElement, EnterRows;
    var t0 := Table(rows, map[], 0);
    OneEntered(w, t0, 0, 5);
    ElementCounts(w, t0, 0, 5);
    var es := [1, 3, 5, 2];
    TurnsBack(w, EnterElements(w, t0, 0, [5]), 1, 5, es);
    TwoRows(w, t0, [5], es);
  }
}

/** What a request for other volumes comes to, for the connections it addresses and for
    those that it does not: the promise of the volume management as a whole. */
module VolumeOutcome {
  import opened KeyOrder
  import opened Sequences
  import opened VolumeBalance
  import opened ConnectionTable
  import opened VolumeMatrix

  function RangesOf(w: World, m: Matrix): Ranges {
    map e | e in m :: w.range(e)
  }

  /** The rows after set-up may be given any new targets; resolving relative limits and
      setting target mute states are such changes. */
  ghost predicate Aims(w: World, rows: Rows, aims: Rows) {
    var r := SetUp(w, rows).rows;
    aims.Keys == r.Keys && forall c | c in r :: aims[c].adjustable == r[c].adjustable
  }

  /** What CAmActionMute makes of the rows. */
  function Remuted(rows: Rows, mute: Mute): Rows {
    map c | c in rows :: rows[c].(target := rows[c].target.(mute := mute))
  }

  lemma FlagsKept(rows: Rows)
    ensures Resolve(rows).Keys == rows.Keys && forall c | c in rows :: Resolve(rows)[c].adjustable == rows[c].adjustable
  {
    hide Resolve;
    ResolveLowers(rows);
  }

  lemma RequestsAreAims(w: World, rows: Rows, mute: Mute)
    ensures Aims(w, rows, Resolve(SetUp(w, rows).rows))
    ensures Aims(w, rows, Resolve(Remuted(SetUp(w, rows).rows, mute)))
  {
    hide Resolve, SetUp;
    FlagsKept(SetUp(w, rows).rows);
    FlagsKept(Remuted(SetUp(w, rows).rows, mute));
  }

  /** The state of the columns after _setupVolumeMatrix() and _calculateElementVolumes(),
      with the columns visited in the order es. */
  function Outcome(w: World, rows: Rows, aims: Rows, es: seq<nat>): Matrix {
    var t := SetUp(w, rows);
    Balance(aims, t.matrix, RangesOf(w, t.matrix), es)
  }

  /** The state of an element once the new targets are in force. */
  function After(w: World, m: Matrix, e: nat): VolumeInfo {
    if e in m then m[e].target else w.state(e)
  }

  function Heard(w: World, m: Matrix, a: Axis): nat -> int {
    (e: nat) => Of(After(w, m, e), a)
  }

  /** Element e serves connection c and no other that is addressed or in use. */
  predicate Own(w: World, addressed: set<nat>, c: nat, e: nat) {
    && c in addressed && e in w.elements(c)
    && (forall k | k in addressed && e in w.elements(k) :: k == c)
    && (forall k | k in w.connections && e in w.elements(k) :: k == c)
  }

  function Reserve(w: World, addressed: set<nat>, c: nat, a: Axis, up: bool): nat -> int {
    (e: nat) =>
      if Own(w, addressed, c, e) then (if up then w.range(e).max else w.range(e).min) - Of(w.state(e), a) else 0
  }

  // ------------------------------------------------------ bystanders

  lemma LinkedRow(w: World, rows: Rows, aims: Rows, k: nat)
    requires Aims(w, rows, aims) && k !in rows
    ensures k !in aims || !aims[k].adjustable
  {
    hide SetUp, Fetch, Proper;
    MatrixIsComplete(w, rows);
    FetchIs(w, k, false);
  }

  /** A connection in use that is not addressed keeps every one of its elements as it was,
      and so its volume, its limit and its mute state. */
  lemma BystandersAreUnchanged(w: World, rows: Rows, aims: Rows, es: seq<nat>, k: nat)
    requires Aims(w, rows, aims) && k in w.connections && k !in rows
    ensures forall e | e in w.elements(k) :: After(w, Outcome(w, rows, aims, es), e) == w.state(e)
  {
    hide SetUp, Balance;
    var t := SetUp(w, rows);
    var m1 := Outcome(w, rows, aims, es);
    MatrixIsComplete(w, rows);
    LinkedRow(w, rows, aims, k);
    Untouchable(aims, t.matrix, RangesOf(w, t.matrix), es);
    forall e | e in w.elements(k) ensures After(w, m1, e) == w.state(e) {
      if e in t.matrix {
        assert Proper(w, t, e);
        Protected(aims, t.matrix, k, e);
      }
    }
  }

  // ------------------------------------------------------ addressed connections

  /** The request is sound: the connection is adjustable and passes each of its elements
      once, and the current state of each element is one that it allows. */
  ghost predicate Sound(w: World, rows: Rows, c: nat) {
    && c in rows && rows[c].adjustable && Distinct(w.elements(c))
    && (forall e :: InRange(w.state(e), w.range(e)))
  }

  /** A column lists an addressed connection exactly when that passes its element. */
  lemma ColumnIs(w: World, rows: Rows, c: nat, e: nat)
    requires c in rows
    ensures var m := SetUp(w, rows).matrix;
            && (e in w.elements(c) <==> e in m && c in m[e].connections)
            && (e in m ==> m[e].target == m[e].actual == w.state(e))
  {
    hide SetUp, Fetch;
    var t := SetUp(w, rows);
    MatrixIsComplete(w, rows);
    assert Entered(w, t, c, w.elements(c));
    if e in t.matrix { assert Proper(w, t, e); }
  }

  lemma AddressedRow(w: World, rows: Rows, aims: Rows, c: nat)
    requires Aims(w, rows, aims) && c in rows
    ensures c in aims && aims[c].adjustable == rows[c].adjustable
  {
    hide SetUp, Fetch, Proper;
    MatrixIsComplete(w, rows);
  }

  lemma OwnIsExclusive(w: World, rows: Rows, aims: Rows, c: nat, e: nat)
    requires Aims(w, rows, aims) && c in rows && rows[c].adjustable && e in SetUp(w, rows).matrix
    ensures Own(w, rows.Keys, c, e) <==> Exclusive(aims, SetUp(w, rows).matrix, c, e)
  {
    hide SetUp, Fetch;
    var t := SetUp(w, rows);
    MatrixIsComplete(w, rows);
    AddressedRow(w, rows, aims, c);
    assert Proper(w, t, e);
    var ks := t.matrix[e].connections;
    forall k | k in rows && e in w.elements(k) ensures k in ks { assert Entered(w, t, k, w.elements(k)); }
    if Own(w, rows.Keys, c, e) {
      assert forall k | k in ks :: k == c;
      assert ks == {c};
    }
  }

  lemma PartIsHeard(w: World, rows: Rows, m: Matrix, c: nat, a: Axis, e: nat)
    requires c in rows && SameLayout(SetUp(w, rows).matrix, m)
    ensures e in w.elements(c) ==> e in m
    ensures Parts(m, c, a)(e) == if e in w.elements(c) then Heard(w, m, a)(e) else 0
  {
    hide SetUp;
    ColumnIs(w, rows, c, e);
  }

  /** What the columns of an addressed connection add up to is what it sounds like. */
  lemma TotalIsHeard(w: World, rows: Rows, m: Matrix, c: nat, a: Axis)
    requires c in rows && Distinct(w.elements(c)) && SameLayout(SetUp(w, rows).matrix, m)
    ensures Total(m, c, a, Ascending(m.Keys)) == Sum(Heard(w, m, a), w.elements(c))
  {
    hide SetUp, Sum, Parts, Heard, Total, SameLayout, Distinct;
    var all := Ascending(m.Keys);
    TotalIsSum(m, c, a, all);
    forall e ensures e in w.elements(c) ==> e in all
      ensures Parts(m, c, a)(e) == if e in w.elements(c) then Heard(w, m, a)(e) else 0
    {
      PartIsHeard(w, rows, m, c, a, e);
    }
    SumWithin(Heard(w, m, a), Parts(m, c, a), w.elements(c), all);
  }

  function Parts(m: Matrix, c: nat, a: Axis): nat -> int {
    (e: nat) => Part(m, c, a, e)
  }

  lemma TotalIsSum(m: Matrix, c: nat, a: Axis, es: seq<nat>)
    ensures Total(m, c, a, es) == Sum(Parts(m, c, a), es)
  {
    if es != [] { TotalIsSum(m, c, a, es[1..]); }
  }

  lemma RoomIsReserve(w: World, rows: Rows, aims: Rows, c: nat, a: Axis, up: bool, es: seq<nat>)
    requires Aims(w, rows, aims) && c in rows && rows[c].adjustable && Distinct(w.elements(c))
    requires SameElements(es, Ascending(SetUp(w, rows).matrix.Keys))
    ensures var t := SetUp(w, rows);
            Room(aims, t.matrix, RangesOf(w, t.matrix), c, a, up, es)
            == Sum(Reserve(w, rows.Keys, c, a, up), w.elements(c))
  {
    hide SetUp, Own, Exclusive, Sum, Room;
    var t := SetUp(w, rows);
    var spare := Spare(aims, t.matrix, RangesOf(w, t.matrix), c, a, up);
    RoomIsSum(aims, t.matrix, RangesOf(w, t.matrix), c, a, up, es);
    forall e | e in es
      ensures Reserve(w, rows.Keys, c, a, up)(e) == spare(e) && (e !in w.elements(c) ==> spare(e) == 0)
    {
      OwnIsExclusive(w, rows, aims, c, e);
      ColumnIs(w, rows, c, e);
      OwnPasses(w, rows, c, e);
    }
    forall e | e in w.elements(c) ensures e in es { ColumnIs(w, rows, c, e); }
    SumWithin(Reserve(w, rows.Keys, c, a, up), spare, w.elements(c), es);
  }

  lemma OwnPasses(w: World, rows: Rows, c: nat, e: nat)
    ensures Own(w, rows.Keys, c, e) ==> e in w.elements(c)
  {
  }

  lemma ColumnsRest(w: World, rows: Rows, es: seq<nat>)
    requires SameElements(es, Ascending(SetUp(w, rows).matrix.Keys))
    requires forall e :: InRange(w.state(e), w.range(e))
    ensures var t := SetUp(w, rows); AllRest(t.matrix, RangesOf(w, t.matrix), es)
  {
    hide SetUp, Fetch;
    var t := SetUp(w, rows);
    MatrixIsComplete(w, rows);
    forall e | e in es ensures Rests(t.matrix, RangesOf(w, t.matrix), e) { assert Proper(w, t, e); }
  }

  /** An addressed connection comes as close to its target as its own elements allow:
      its volume (or limit) changes by the requested difference, or else by all that its
      own elements have left in that direction. */
  lemma AddressedReachesTarget(w: World, rows: Rows, aims: Rows, es: seq<nat>, c: nat, a: Axis)
    requires Aims(w, rows, aims) && Sound(w, rows, c) && SameElements(es, Ascending(SetUp(w, rows).matrix.Keys))
    ensures c in aims
    ensures var was := Sum(Volumes(w, a), w.elements(c));
            var wanted := Of(aims[c].target, a) - was;
            Sum(Heard(w, Outcome(w, rows, aims, es), a), w.elements(c))
            == was + Clamp(wanted, Sum(Reserve(w, rows.Keys, c, a, false), w.elements(c)),
                Sum(Reserve(w, rows.Keys, c, a, true), w.elements(c)))
  {
    hide SetUp, Fetch, Own, Exclusive, Diff, Balance, Room, Total, Sum, Rests, Ascending;
    var t := SetUp(w, rows);
    var ranges := RangesOf(w, t.matrix);
    var m1 := Outcome(w, rows, aims, es);
    AddressedRow(w, rows, aims, c);
    ColumnsRest(w, rows, es);
    GreedyClosedForm(aims, t.matrix, ranges, es, c, a);
    RoomIsReserve(w, rows, aims, c, a, false, es);
    RoomIsReserve(w, rows, aims, c, a, true, es);
    Untouchable(aims, t.matrix, ranges, es);
    DiffIs(aims, t.matrix, c, a);
    DiffIs(aims, m1, c, a);
    TotalIsHeard(w, rows, t.matrix, c, a);
    TotalIsHeard(w, rows, m1, c, a);
    HeardBefore(w, rows, c, a);
  }

  lemma HeardBefore(w: World, rows: Rows, c: nat, a: Axis)
    ensures Sum(Heard(w, SetUp(w, rows).matrix, a), w.elements(c)) == Sum(Volumes(w, a), w.elements(c))
  {
    hide SetUp, Fetch;
    var t := SetUp(w, rows);
    MatrixIsComplete(w, rows);
    forall e ensures Heard(w, t.matrix, a)(e) == Volumes(w, a)(e) { if e in t.matrix { assert Proper(w, t, e); } }
    SumSame(Heard(w, t.matrix, a), Volumes(w, a), w.elements(c));
  }

  // ------------------------------------------------------ mute states

  predicate Quiet(w: World, m: Matrix, c: nat) {
    exists e | e in w.elements(c) :: After(w, m, e).mute.Muted?
  }

  lemma QuietIsOverall(w: World, rows: Rows, m: Matrix, c: nat)
    requires c in rows && SameLayout(SetUp(w, rows).matrix, m)
    ensures Quiet(w, m, c) <==> Overall(m, c).Muted?
    ensures !Quiet(w, m, c) <==> Overall(m, c).Unmuted?
  {
    hide SetUp;
    forall e ensures (e in w.elements(c) && After(w, m, e).mute.Muted?) <==> Silenced(m, c, e)
        { ColumnIs(w, rows, c, e); }
  }

  /** A connection that shall be muted is silent afterwards exactly when it was silent
      before or has an element of its own. */
  lemma AddressedIsMuted(w: World, rows: Rows, aims: Rows, es: seq<nat>, c: nat)
    requires Aims(w, rows, aims) && Sound(w, rows, c) && SameElements(es, Ascending(SetUp(w, rows).matrix.Keys))
    requires c in aims && aims[c].target.mute.Muted?
    ensures Quiet(w, Outcome(w, rows, aims, es), c)
            <==>
            (exists e | e in w.elements(c) :: w.state(e).mute.Muted?) ||
            (exists e | e in w.elements(c) :: Own(w, rows.Keys, c, e))
  {
    hide SetUp, Fetch, Own, Exclusive, Overall, Balance, Ascending;
    var t := SetUp(w, rows);
    var ranges := RangesOf(w, t.matrix);
    var m1 := Outcome(w, rows, aims, es);
    MatrixIsComplete(w, rows);
    AddressedRow(w, rows, aims, c);
    ColumnsRest(w, rows, es);
    MutedEndsMuted(aims, t.matrix, ranges, es, c);
    Untouchable(aims, t.matrix, ranges, es);
    QuietIsOverall(w, rows, t.matrix, c);
    QuietIsOverall(w, rows, m1, c);
    QuietBefore(w, rows, c);
    OwnColumns(w, rows, aims, es, c);
  }

  lemma QuietBefore(w: World, rows: Rows, c: nat)
    ensures Quiet(w, SetUp(w, rows).matrix, c) <==> exists e | e in w.elements(c) :: w.state(e).mute.Muted?
  {
    hide SetUp, Fetch;
    var t := SetUp(w, rows);
    MatrixIsComplete(w, rows);
    forall e ensures After(w, t.matrix, e) == w.state(e) { if e in t.matrix { assert Proper(w, t, e); } }
  }

  lemma OwnColumns(w: World, rows: Rows, aims: Rows, es: seq<nat>, c: nat)
    requires Aims(w, rows, aims) && c in rows && rows[c].adjustable
        && SameElements(es, Ascending(SetUp(w, rows).matrix.Keys))
    ensures (exists e | e in es :: Exclusive(aims, SetUp(w, rows).matrix, c, e))
            <==> exists e | e in w.elements(c) :: Own(w, rows.Keys, c, e)
  {
    hide SetUp, Fetch, Own, Exclusive;
    var t := SetUp(w, rows);
    MatrixIsComplete(w, rows);
    assert Entered(w, t, c, w.elements(c));
    if e :| e in es && Exclusive(aims, t.matrix, c, e) {
      OwnIsExclusive(w, rows, aims, c, e);
      OwnPasses(w, rows, c, e);
    }
    if e :| e in w.elements(c) && Own(w, rows.Keys, c, e) {
      OwnIsExclusive(w, rows, aims, c, e);
    }
  }

  /** A connection that shall be audible is audible afterwards exactly when every muted
      element on its way is its own. */
  lemma AddressedIsUnmuted(w: World, rows: Rows, aims: Rows, es: seq<nat>, c: nat)
    requires Aims(w, rows, aims) && Sound(w, rows, c) && SameElements(es, Ascending(SetUp(w, rows).matrix.Keys))
    requires c in aims && aims[c].target.mute.Unmuted?
    ensures !Quiet(w, Outcome(w, rows, aims, es), c)
            <==> forall e | e in w.elements(c) && w.state(e).mute.Muted? :: Own(w, rows.Keys, c, e)
  {
    hide SetUp, Own, Exclusive, Overall, Balance, Ascending, AllRest;
    var t := SetUp(w, rows);
    var ranges := RangesOf(w, t.matrix);
    var m1 := Outcome(w, rows, aims, es);
    AddressedRow(w, rows, aims, c);
    ColumnsRest(w, rows, es);
    UnmutedEndsAudible(aims, t.matrix, ranges, es, c);
    Untouchable(aims, t.matrix, ranges, es);
    QuietIsOverall(w, rows, m1, c);
    forall e | e in t.matrix || e in w.elements(c)
      ensures e in w.elements(c) <==> e in t.matrix && c in t.matrix[e].connections
      ensures e in w.elements(c) ==>
                Own(w, rows.Keys, c, e) == Exclusive(aims, t.matrix, c, e) && t.matrix[e].target == w.state(e)
    {
      ColumnIs(w, rows, c, e);
      if e in t.matrix { OwnIsExclusive(w, rows, aims, c, e); }
    }
  }
}

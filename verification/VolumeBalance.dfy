/** How a change of connection volumes is spread over sinks and sources: the second step
    of CAmActionSetVolumeCore. Connections and elements are named by numbers that stand
    for the order in which the maps hold them. */
module VolumeBalance {
  import opened KeyOrder
  import opened Sequences

  datatype Mute = Unknown | Muted | Unmuted

  datatype VolumeInfo = VolumeInfo(mute: Mute, volume: int, offset: int)

  const NO_DIFF := VolumeInfo(Unknown, 0, 0)

  /** The two components of a volume that add up along a connection. */
  datatype Axis = Volume | Offset

  function Of(v: VolumeInfo, a: Axis): int {
    match a
    case Volume => v.volume
    case Offset => v.offset
  }

  datatype Column = Column(actual: VolumeInfo, target: VolumeInfo, ordinal: nat, connections: set<nat>)

  datatype Row = Row(actual: VolumeInfo, target: VolumeInfo, relative: int, adjustable: bool)

  datatype Range = Range(min: int, max: int)

  type Rows = map<nat, Row>
  type Matrix = map<nat, Column>
  type Ranges = map<nat, Range>

  function Min(x: int, y: int): int {
    if x < y then x else y
  }

  function Max(x: int, y: int): int {
    if x > y then x else y
  }

  function Clamp(x: int, lo: int, hi: int): int {
    Max(lo, Min(hi, x))
  }

  // ------------------------------------------------------ differences

  function Part(m: Matrix, c: nat, a: Axis, e: nat): int {
    if e in m && c in m[e].connections then Of(m[e].target, a) else 0
  }

  /** What the columns of a connection add up to. */
  function Total(m: Matrix, c: nat, a: Axis, es: seq<nat>): int {
    if es == [] then 0 else Part(m, c, a, es[0]) + Total(m, c, a, es[1..])
  }

  predicate Silenced(m: Matrix, c: nat, e: nat) {
    e in m && c in m[e].connections && m[e].target.mute.Muted?
  }

  function Overall(m: Matrix, c: nat): Mute {
    if exists e | e in m :: Silenced(m, c, e) then Muted else Unmuted
  }

  /** _getVolumeDiff() */
  function Diff(rows: Rows, m: Matrix, c: nat): VolumeInfo {
    if c !in rows || !rows[c].adjustable then NO_DIFF
    else
      var t := rows[c].target;
      var es := Ascending(m.Keys);
      VolumeInfo(if Overall(m, c) == t.mute then Unknown else t.mute,
                 t.volume - Total(m, c, Volume, es), t.offset - Total(m, c, Offset, es))
  }

  // ------------------------------------------------------ balancing

  /** _qualifiesForChanges(): used by one connection only, and that one is adjustable. */
  predicate Qualifies(rows: Rows, m: Matrix, e: nat) {
    e in m && exists c | c in m[e].connections :: m[e].connections == {c} && c in rows && rows[c].adjustable
  }

  function Owner(col: Column): (c: nat)
    requires exists c | c in col.connections :: col.connections == {c}
    ensures col.connections == {c}
  {
    Least(col.connections)
  }

  function Adjusted(col: Column, d: VolumeInfo, r: Range): Column {
    col.(target := VolumeInfo(if d.mute.Unknown? then col.target.mute else d.mute,
                              Clamp(col.actual.volume + d.volume, r.min, r.max),
                              Clamp(col.actual.offset + d.offset, r.min, r.max)))
  }

  predicate Ranged(m: Matrix, ranges: Ranges) {
    m.Keys <= ranges.Keys
  }

  function BalanceOne(rows: Rows, m: Matrix, ranges: Ranges, e: nat): (m1: Matrix)
    requires Ranged(m, ranges)
    ensures m1.Keys == m.Keys
  {
    if Qualifies(rows, m, e) then m[e := Adjusted(m[e], Diff(rows, m, Owner(m[e])), ranges[e])] else m
  }

  predicate Settled(rows: Rows, m: Matrix) {
    forall c | c in rows :: Diff(rows, m, c) == NO_DIFF
  }

  /** The main loop of _calculateElementVolumes() over the columns in the order es; it
      stops as soon as no connection differs from its target. */
  function Balance(rows: Rows, m: Matrix, ranges: Ranges, es: seq<nat>): (m1: Matrix)
    requires Ranged(m, ranges)
    ensures m1.Keys == m.Keys
    decreases es
  {
    if es == [] || Settled(rows, m) then m
    else Balance(rows, BalanceOne(rows, m, ranges, es[0]), ranges, es[1..])
  }

  // ------------------------------------------------------ non-interference

  /** Column e belongs to the addressed connection c alone. */
  predicate Exclusive(rows: Rows, m: Matrix, c: nat, e: nat) {
    e in m && m[e].connections == {c} && c in rows && rows[c].adjustable
  }

  lemma ExclusiveQualifies(rows: Rows, m: Matrix, c: nat, e: nat)
    requires Exclusive(rows, m, c, e)
    ensures Qualifies(rows, m, e) && Owner(m[e]) == c
  {
    assert c in m[e].connections;
    assert Owner(m[e]) in {c};
  }

  lemma QualifiesExclusive(rows: Rows, m: Matrix, e: nat) returns (c: nat)
    requires Qualifies(rows, m, e)
    ensures Exclusive(rows, m, c, e)
  {
    c :| c in m[e].connections && m[e].connections == {c} && c in rows && rows[c].adjustable;
  }

  /** Only what a column aims at is ever changed. */
  predicate SameLayout(m: Matrix, m1: Matrix) {
    m1.Keys == m.Keys && forall e | e in m :: m1[e] == m[e].(target := m1[e].target)
  }

  lemma OneLayout(rows: Rows, m: Matrix, ranges: Ranges, e: nat)
    requires Ranged(m, ranges)
    ensures var m1 := BalanceOne(rows, m, ranges, e);
            SameLayout(m, m1) && forall x | x in m && (x != e || !Qualifies(rows, m, x)) :: m1[x] == m[x]
  {
    hide Diff;
  }

  /** Columns that are shared, or used by a connection that nobody addressed, keep their
      target; so does every column that is not in the list. */
  lemma {:induction false} Untouchable(rows: Rows, m: Matrix, ranges: Ranges, es: seq<nat>)
    requires Ranged(m, ranges)
    ensures var m1 := Balance(rows, m, ranges, es);
            && SameLayout(m, m1)
            && forall e | e in m && (e !in es || !Qualifies(rows, m, e)) :: m1[e] == m[e]
    decreases es
  {
    if es != [] && !Settled(rows, m) {
      hide Diff, Adjusted;
      var m1 := BalanceOne(rows, m, ranges, es[0]);
      OneLayout(rows, m, ranges, es[0]);
      Untouchable(rows, m1, ranges, es[1..]);
      forall e | e in m ensures Qualifies(rows, m1, e) == Qualifies(rows, m, e) {
        assert m1[e].connections == m[e].connections;
      }
    }
  }

  lemma TotalSame(m: Matrix, m1: Matrix, c: nat, a: Axis, es: seq<nat>)
    requires SameLayout(m, m1)
    requires forall e | e in m && c in m[e].connections :: Of(m1[e].target, a) == Of(m[e].target, a)
    ensures Total(m1, c, a, es) == Total(m, c, a, es)
  {
  }

  lemma Protected(rows: Rows, m: Matrix, k: nat, e: nat)
    requires e in m && k in m[e].connections && (k !in rows || !rows[k].adjustable)
    ensures !Qualifies(rows, m, e)
  {
  }

  /** A connection that was not addressed sounds as before: what its columns add up to,
      and whether one of them is muted, is unchanged. */
  lemma NonInterference(rows: Rows, m: Matrix, ranges: Ranges, es: seq<nat>, k: nat)
    requires Ranged(m, ranges) && (k !in rows || !rows[k].adjustable)
    ensures var m1 := Balance(rows, m, ranges, es);
            && (forall e | e in m && k in m[e].connections :: m1[e] == m[e])
            && (forall a: Axis, fs: seq<nat> :: Total(m1, k, a, fs) == Total(m, k, a, fs))
            && Overall(m1, k) == Overall(m, k)
  {
    var m1 := Balance(rows, m, ranges, es);
    Untouchable(rows, m, ranges, es);
    forall e | e in m && k in m[e].connections ensures m1[e] == m[e] {
      Protected(rows, m, k, e);
    }
    forall a: Axis, fs: seq<nat> ensures Total(m1, k, a, fs) == Total(m, k, a, fs) {
      TotalSame(m, m1, k, a, fs);
    }
    assert forall e | e in m :: Silenced(m1, k, e) == Silenced(m, k, e);
  }

  // ------------------------------------------------------ the greedy closed form

  /** How far the exclusive columns of a connection can go down (or up) together. */
  function Room(rows: Rows, m: Matrix, ranges: Ranges, c: nat, a: Axis, up: bool, es: seq<nat>): int
    requires Ranged(m, ranges)
  {
    if es == [] then 0 else
      var e := es[0];
      (if Exclusive(rows, m, c, e) then (if up then ranges[e].max else ranges[e].min) - Of(m[e].actual, a) else 0)
      + Room(rows, m, ranges, c, a, up, es[1..])
  }

  predicate InRange(v: VolumeInfo, r: Range) {
    r.min <= v.volume <= r.max && r.min <= v.offset <= r.max
  }

  /** The state that the matrix is set up in: a column aims at what it has. */
  predicate Rests(m: Matrix, ranges: Ranges, e: nat) {
    e in m && e in ranges && m[e].target == m[e].actual && InRange(m[e].actual, ranges[e])
  }

  predicate AllRest(m: Matrix, ranges: Ranges, es: seq<nat>) {
    Distinct(es) && forall e | e in es :: Rests(m, ranges, e)
  }

  lemma RoomSame(rows: Rows, m: Matrix, m1: Matrix, ranges: Ranges, c: nat, a: Axis, up: bool, es: seq<nat>)
    requires Ranged(m, ranges) && SameLayout(m, m1)
    ensures Room(rows, m1, ranges, c, a, up, es) == Room(rows, m, ranges, c, a, up, es)
  {
  }

  lemma RoomSign(rows: Rows, m: Matrix, ranges: Ranges, c: nat, a: Axis, es: seq<nat>)
    requires Ranged(m, ranges) && AllRest(m, ranges, es)
    ensures Room(rows, m, ranges, c, a, false, es) <= 0 <= Room(rows, m, ranges, c, a, true, es)
  {
    if es != [] {
      assert Rests(m, ranges, es[0]);
      RoomSign(rows, m, ranges, c, a, es[1..]);
    }
  }

  lemma TotalUpdate(m: Matrix, e: nat, col: Column, c: nat, a: Axis, es: seq<nat>)
    requires e in m && col.connections == m[e].connections && Distinct(es)
    ensures Total(m[e := col], c, a, es) == Total(m, c, a, es)
            + if e in es && c in col.connections then Of(col.target, a) - Of(m[e].target, a) else 0
  {
    if es != [] {
      TotalUpdate(m, e, col, c, a, es[1..]);
      assert es[0] !in es[1..];
    }
  }

  lemma DiffIs(rows: Rows, m: Matrix, c: nat, a: Axis)
    requires c in rows && rows[c].adjustable
    ensures Of(Diff(rows, m, c), a) == Of(rows[c].target, a) - Total(m, c, a, Ascending(m.Keys))
  {
    hide Total, Ascending, Overall;
  }

  /** The share of column e in a difference d of connection c. */
  function Share(rows: Rows, m: Matrix, ranges: Ranges, e: nat, c: nat, a: Axis, d: int): int
    requires e in m && e in ranges
  {
    if Exclusive(rows, m, c, e) then
      Clamp(d, ranges[e].min - Of(m[e].actual, a), ranges[e].max - Of(m[e].actual, a))
    else 0
  }

  /** What is left of the difference of connection c once column e had its turn. */
  lemma OneStep(rows: Rows, m: Matrix, ranges: Ranges, e: nat, c: nat, a: Axis)
    requires Ranged(m, ranges) && Rests(m, ranges, e) && c in rows && rows[c].adjustable
    ensures var d := Of(Diff(rows, m, c), a);
            var d1 := Of(Diff(rows, BalanceOne(rows, m, ranges, e), c), a);
            d1 == d - Share(rows, m, ranges, e, c, a, d)
  {
    hide Total, Diff, Ascending;
    var m1 := BalanceOne(rows, m, ranges, e);
    DiffIs(rows, m, c, a);
    DiffIs(rows, m1, c, a);
    if Qualifies(rows, m, e) {
      TotalUpdate(m, e, m1[e], c, a, Ascending(m.Keys));
      var o := QualifiesExclusive(rows, m, e);
      ExclusiveQualifies(rows, m, o, e);
      assert c in m1[e].connections <==> c == o;
    } else if Exclusive(rows, m, c, e) {
      ExclusiveQualifies(rows, m, c, e);
    }
  }

  /** Two columns that take what they can, one after the other, are as good as one column
      with the room of both. */
  lemma ShareThenRest(rows: Rows, m: Matrix, ranges: Ranges, es: seq<nat>, c: nat, a: Axis, d: int)
    requires Ranged(m, ranges) && AllRest(m, ranges, es) && es != [] && es[0] in m
    ensures var lo, hi := Room(rows, m, ranges, c, a, false, es), Room(rows, m, ranges, c, a, true, es);
            var lo1, hi1 := Room(rows, m, ranges, c, a, false, es[1..]), Room(rows, m, ranges, c, a, true, es[1..]);
            var d1 := d - Share(rows, m, ranges, es[0], c, a, d);
            d - Clamp(d, lo, hi) == d1 - Clamp(d1, lo1, hi1)
  {
    RoomSign(rows, m, ranges, c, a, es[1..]);
    assert Rests(m, ranges, es[0]);
  }

  lemma RestAfter(rows: Rows, m: Matrix, ranges: Ranges, es: seq<nat>)
    requires Ranged(m, ranges) && AllRest(m, ranges, es) && es != []
    ensures var m1 := BalanceOne(rows, m, ranges, es[0]); SameLayout(m, m1) && AllRest(m1, ranges, es[1..])
  {
    var m1 := BalanceOne(rows, m, ranges, es[0]);
    assert es[0] !in es[1..];
    forall e | e in es[1..] ensures Rests(m1, ranges, e) { assert e in es && Rests(m, ranges, e) && m1[e] == m[e]; }
  }

  /** What the greedy loop leaves of a difference is what a single column with all the
      room of the exclusive columns would leave. */
  lemma {:induction false} GreedyClosedForm(rows: Rows, m: Matrix, ranges: Ranges, es: seq<nat>, c: nat, a: Axis)
    requires Ranged(m, ranges) && AllRest(m, ranges, es) && c in rows && rows[c].adjustable
    ensures var d := Of(Diff(rows, m, c), a);
            Of(Diff(rows, Balance(rows, m, ranges, es), c), a)
            == d - Clamp(d, Room(rows, m, ranges, c, a, false, es), Room(rows, m, ranges, c, a, true, es))
    decreases es
  {
    hide Diff, Total, Share, SameLayout, BalanceOne, Exclusive;
    RoomSign(rows, m, ranges, c, a, es);
    if es != [] && !Settled(rows, m) {
      var m1 := BalanceOne(rows, m, ranges, es[0]);
      RestAfter(rows, m, ranges, es);
      GreedyClosedForm(rows, m1, ranges, es[1..], c, a);
      assert Rests(m, ranges, es[0]);
      OneStep(rows, m, ranges, es[0], c, a);
      RoomSame(rows, m, m1, ranges, c, a, false, es[1..]);
      RoomSame(rows, m, m1, ranges, c, a, true, es[1..]);
      ShareThenRest(rows, m, ranges, es, c, a, Of(Diff(rows, m, c), a));
    }
  }

  /** What the listed columns can give is enough for the difference, or it is not. */
  lemma ReachedExactlyWhenPossible(rows: Rows, m: Matrix, ranges: Ranges, es: seq<nat>, c: nat, a: Axis)
    requires Ranged(m, ranges) && AllRest(m, ranges, es) && c in rows && rows[c].adjustable
    ensures Of(Diff(rows, Balance(rows, m, ranges, es), c), a) == 0
            <==> Room(rows, m, ranges, c, a, false, es) <= Of(Diff(rows, m, c), a)
                <= Room(rows, m, ranges, c, a, true, es)
  {
    hide Diff, Room;
    GreedyClosedForm(rows, m, ranges, es, c, a);
    RoomSign(rows, m, ranges, c, a, es);
  }

  // ------------------------------------------------------ order does not matter

  function Spare(rows: Rows, m: Matrix, ranges: Ranges, c: nat, a: Axis, up: bool): nat -> int {
    (e: nat) =>
      if Exclusive(rows, m, c, e) && e in ranges then
        (if up then ranges[e].max else ranges[e].min) - Of(m[e].actual, a)
      else 0
  }

  lemma RoomIsSum(rows: Rows, m: Matrix, ranges: Ranges, c: nat, a: Axis, up: bool, es: seq<nat>)
    requires Ranged(m, ranges)
    ensures Room(rows, m, ranges, c, a, up, es) == Sum(Spare(rows, m, ranges, c, a, up), es)
  {
    if es != [] { RoomIsSum(rows, m, ranges, c, a, up, es[1..]); }
  }

  lemma RoomOrderFree(rows: Rows, m: Matrix, ranges: Ranges, c: nat, a: Axis, up: bool, es: seq<nat>, fs: seq<nat>)
    requires Ranged(m, ranges) && SameElements(es, fs)
    ensures Room(rows, m, ranges, c, a, up, es) == Room(rows, m, ranges, c, a, up, fs)
  {
    RoomIsSum(rows, m, ranges, c, a, up, es);
    RoomIsSum(rows, m, ranges, c, a, up, fs);
    SumOrderFree(Spare(rows, m, ranges, c, a, up), es, fs);
  }

  /** The direction in which the columns are visited, and where the loop stops, do not
      change what a connection ends up with. */
  lemma BalanceOrderFree(rows: Rows, m: Matrix, ranges: Ranges, es: seq<nat>, fs: seq<nat>, c: nat, a: Axis)
    requires Ranged(m, ranges) && AllRest(m, ranges, es) && SameElements(es, fs) && c in rows && rows[c].adjustable
    ensures Of(Diff(rows, Balance(rows, m, ranges, es), c), a) == Of(Diff(rows, Balance(rows, m, ranges, fs), c), a)
  {
    hide Diff, Room, Rests, Balance;
    GreedyClosedForm(rows, m, ranges, es, c, a);
    GreedyClosedForm(rows, m, ranges, fs, c, a);
    RoomOrderFree(rows, m, ranges, c, a, false, es, fs);
    RoomOrderFree(rows, m, ranges, c, a, true, es, fs);
  }

  // ------------------------------------------------------ what the order is for

  /** What becomes of column e once it has had its turn is not changed any more. */
  lemma TurnIsOver(rows: Rows, m: Matrix, ranges: Ranges, es: seq<nat>, c: nat, a: Axis)
    requires Ranged(m, ranges) && AllRest(m, ranges, es) && es != [] && !Settled(rows, m)
    requires Exclusive(rows, m, c, es[0])
    ensures var e, d := es[0], Of(Diff(rows, m, c), a);
            var end := Balance(rows, m, ranges, es);
            e in end && Of(end[e].target, a) == Clamp(Of(m[e].actual, a) + d, ranges[e].min, ranges[e].max)
  {
    hide Diff, Settled;
    var m1 := BalanceOne(rows, m, ranges, es[0]);
    ExclusiveQualifies(rows, m, c, es[0]);
    assert es[0] !in es[1..];
    Untouchable(rows, m1, ranges, es[1..]);
  }

  /** The direction matters: a later column of a connection moves only if there is a
      difference, in its direction, and only if every earlier one is at its bound there. */
  lemma {:induction false} EarlierColumnsFirst(rows: Rows, m: Matrix, ranges: Ranges, es: seq<nat>,
      c: nat, a: Axis, j: nat)
    requires Ranged(m, ranges) && AllRest(m, ranges, es) && j < |es| && Exclusive(rows, m, c, es[j])
    ensures var end, d := Balance(rows, m, ranges, es), Of(Diff(rows, m, c), a);
            && end.Keys == m.Keys
            && (Of(end[es[j]].target, a) > Of(m[es[j]].actual, a) ==>
                  d > 0 && forall i | 0 <= i < j && Exclusive(rows, m, c, es[i]) ::
                      Of(end[es[i]].target, a) == ranges[es[i]].max)
            && (Of(end[es[j]].target, a) < Of(m[es[j]].actual, a) ==>
                  d < 0 && forall i | 0 <= i < j && Exclusive(rows, m, c, es[i]) ::
                      Of(end[es[i]].target, a) == ranges[es[i]].min)
    decreases es
  {
    hide Diff, Settled, Share;
    assert es[0] in es && es[j] in es;
    assert Rests(m, ranges, es[0]) && Rests(m, ranges, es[j]);
    if !Settled(rows, m) {
      if Exclusive(rows, m, c, es[0]) { TurnIsOver(rows, m, ranges, es, c, a); }
      if j > 0 {
        var m1 := BalanceOne(rows, m, ranges, es[0]);
        RestAfter(rows, m, ranges, es);
        OneStep(rows, m, ranges, es[0], c, a);
        ShareSign(rows, m, ranges, es[0], c, a, Of(Diff(rows, m, c), a));
        Untouched(rows, m, ranges, es, j);
        EarlierColumnsFirst(rows, m1, ranges, es[1..], c, a, j - 1);
        forall i | 0 < i < j && Exclusive(rows, m, c, es[i])
            ensures es[i] == es[1..][i - 1] && Exclusive(rows, m1, c, es[1..][i - 1]) { }
      }
    }
  }

  lemma Untouched(rows: Rows, m: Matrix, ranges: Ranges, es: seq<nat>, j: nat)
    requires Ranged(m, ranges) && AllRest(m, ranges, es) && 0 < j < |es|
    ensures var m1 := BalanceOne(rows, m, ranges, es[0]);
            es[j] in m && m1[es[j]] == m[es[j]] && SameLayout(m, m1)
  {
    hide Diff;
    assert Rests(m, ranges, es[j]);
    OneLayout(rows, m, ranges, es[0]);
  }

  /** A share is never more than the difference, nor in the other direction, and what it
      leaves means that the column is at its bound. */
  lemma ShareSign(rows: Rows, m: Matrix, ranges: Ranges, e: nat, c: nat, a: Axis, d: int)
    requires Rests(m, ranges, e)
    ensures var r := d - Share(rows, m, ranges, e, c, a, d);
            && (r > 0 ==> d > 0) && (r < 0 ==> d < 0)
            && (Exclusive(rows, m, c, e) && r > 0 ==>
                  Clamp(Of(m[e].actual, a) + d, ranges[e].min, ranges[e].max) == ranges[e].max)
            && (Exclusive(rows, m, c, e) && r < 0 ==>
                  Clamp(Of(m[e].actual, a) + d, ranges[e].min, ranges[e].max) == ranges[e].min)
  {
  }

  // ------------------------------------------------------ nothing does better

  /** Any other way to change the exclusive columns within their ranges. */
  predicate Allowed(rows: Rows, m: Matrix, m2: Matrix, ranges: Ranges) {
    && Ranged(m, ranges) && SameLayout(m, m2)
    && forall e | e in m && m2[e] != m[e] :: Qualifies(rows, m, e) && InRange(m2[e].target, ranges[e])
  }

  lemma AllowedKeys(rows: Rows, m: Matrix, m2: Matrix, ranges: Ranges)
    requires Allowed(rows, m, m2, ranges)
    ensures Ranged(m, ranges) && m2.Keys == m.Keys
  {
  }

  lemma PartWithin(rows: Rows, m: Matrix, m2: Matrix, ranges: Ranges, c: nat, a: Axis, e: nat)
    requires Allowed(rows, m, m2, ranges) && Rests(m, ranges, e) && c in rows && rows[c].adjustable
    ensures var moved := Part(m2, c, a, e) - Part(m, c, a, e);
            if Exclusive(rows, m, c, e)
                then ranges[e].min - Of(m[e].actual, a) <= moved <= ranges[e].max - Of(m[e].actual, a)
            else moved == 0
  {
    if m2[e] != m[e] {
      var o := QualifiesExclusive(rows, m, e);
      assert c in m[e].connections <==> c == o;
    } else if Exclusive(rows, m, c, e) {
      assert c in {c};
    }
  }

  lemma {:induction false} WithinRoom(rows: Rows, m: Matrix, m2: Matrix, ranges: Ranges, c: nat, a: Axis, es: seq<nat>)
    requires Allowed(rows, m, m2, ranges) && AllRest(m, ranges, es) && c in rows && rows[c].adjustable
    ensures Room(rows, m, ranges, c, a, false, es) <= Total(m2, c, a, es) - Total(m, c, a, es)
            <= Room(rows, m, ranges, c, a, true, es)
  {
    hide Part, Exclusive;
    if es != [] {
      assert Rests(m, ranges, es[0]);
      PartWithin(rows, m, m2, ranges, c, a, es[0]);
      RoomHead(rows, m, ranges, c, a, es);
      WithinRoom(rows, m, m2, ranges, c, a, es[1..]);
    }
  }

  lemma RoomHead(rows: Rows, m: Matrix, ranges: Ranges, c: nat, a: Axis, es: seq<nat>)
    requires Ranged(m, ranges) && es != [] && es[0] in m
    ensures forall up: bool :: Room(rows, m, ranges, c, a, up, es) ==
              (if Exclusive(rows, m, c, es[0])
                  then (if up then ranges[es[0]].max else ranges[es[0]].min) - Of(m[es[0]].actual, a) else 0)
              + Room(rows, m, ranges, c, a, up, es[1..])
  {
  }

  function Abs(x: int): nat {
    if x < 0 then -x else x
  }

  /** The greedy result is the best there is: no other choice of volumes for the exclusive
      columns, within their ranges, brings a connection closer to its target. */
  lemma GreedyIsBest(rows: Rows, m: Matrix, m2: Matrix, ranges: Ranges, es: seq<nat>, c: nat, a: Axis)
    requires Allowed(rows, m, m2, ranges) && AllRest(m, ranges, es) && c in rows && rows[c].adjustable
    requires SameElements(es, Ascending(m.Keys))
    ensures Abs(Of(Diff(rows, Balance(rows, m, ranges, es), c), a)) <= Abs(Of(Diff(rows, m2, c), a))
  {
    hide Diff, Room, Rests, Balance, Total, Exclusive, Allowed, Ascending, Of;
    var all := Ascending(m.Keys);
    AllowedKeys(rows, m, m2, ranges);
    GreedyClosedForm(rows, m, ranges, es, c, a);
    RoomOrderFree(rows, m, ranges, c, a, false, es, all);
    RoomOrderFree(rows, m, ranges, c, a, true, es, all);
    WithinRoom(rows, m, m2, ranges, c, a, all);
    DiffIs(rows, m, c, a);
    DiffIs(rows, m2, c, a);
    RoomSign(rows, m, ranges, c, a, es);
  }

  // ------------------------------------------------------ mute states

  /** A column had its turn: what that means for the mute state of connection c. */
  lemma OneMute(rows: Rows, m: Matrix, ranges: Ranges, e: nat, c: nat)
    requires Ranged(m, ranges) && e in m && c in rows && rows[c].adjustable && !rows[c].target.mute.Unknown?
    ensures var m1 := BalanceOne(rows, m, ranges, e);
            && (rows[c].target.mute.Muted? ==>
                  Overall(m1, c) == if Exclusive(rows, m, c, e) then Muted else Overall(m, c))
            && (rows[c].target.mute.Unmuted? && Exclusive(rows, m, c, e) ==> !m1[e].target.mute.Muted?)
  {
    hide Total, Ascending;
    var m1 := BalanceOne(rows, m, ranges, e);
    if Exclusive(rows, m, c, e) {
      ExclusiveQualifies(rows, m, c, e);
      assert c in m[e].connections;
      assert m1[e].target.mute.Muted? ==> Silenced(m1, c, e);
      assert m[e].target.mute.Muted? ==> Silenced(m, c, e);
      forall x | x in m && x != e ensures Silenced(m1, c, x) == Silenced(m, c, x) { assert m1[x] == m[x]; }
    } else {
      forall x | x in m ensures Silenced(m1, c, x) == Silenced(m, c, x) {
        if x == e && Qualifies(rows, m, e) {
          var o := QualifiesExclusive(rows, m, e);
          ExclusiveQualifies(rows, m, o, e);
        }
      }
    }
  }

  /** A connection that shall be muted ends muted exactly when it was or when one of the
      listed columns is its own. */
  lemma {:induction false} MutedEndsMuted(rows: Rows, m: Matrix, ranges: Ranges, es: seq<nat>, c: nat)
    requires Ranged(m, ranges) && AllRest(m, ranges, es)
    requires c in rows && rows[c].adjustable && rows[c].target.mute.Muted?
    ensures Overall(Balance(rows, m, ranges, es), c).Muted?
            <==> Overall(m, c).Muted? || exists e | e in es :: Exclusive(rows, m, c, e)
    decreases es
  {
    if es != [] {
      var e0 := es[0];
      assert Rests(m, ranges, e0);
      if Settled(rows, m) {
        assert Diff(rows, m, c) == NO_DIFF;
      } else {
        hide Overall, Exclusive, Balance;
        RestAfter(rows, m, ranges, es);
        OneMute(rows, m, ranges, e0, c);
        var m1 := BalanceOne(rows, m, ranges, e0);
        MutedEndsMuted(rows, m1, ranges, es[1..], c);
        ExclusiveSame(rows, m, m1, c);
        assert forall e | e in es :: e == e0 || e in es[1..];
        BalanceStep(rows, m, ranges, es);
      }
    }
  }

  lemma BalanceStep(rows: Rows, m: Matrix, ranges: Ranges, es: seq<nat>)
    requires Ranged(m, ranges) && es != [] && !Settled(rows, m)
    ensures Balance(rows, m, ranges, es) == Balance(rows, BalanceOne(rows, m, ranges, es[0]), ranges, es[1..])
  {
  }

  lemma ExclusiveSame(rows: Rows, m: Matrix, m1: Matrix, c: nat)
    requires SameLayout(m, m1)
    ensures forall e :: Exclusive(rows, m1, c, e) == Exclusive(rows, m, c, e)
  {
  }

  lemma SettledColumns(rows: Rows, m: Matrix, c: nat)
    requires Settled(rows, m) && c in rows && rows[c].adjustable && rows[c].target.mute.Unmuted?
    ensures forall e | Exclusive(rows, m, c, e) :: !m[e].target.mute.Muted?
  {
    hide Total, Ascending;
    assert Diff(rows, m, c) == NO_DIFF;
    forall e | Exclusive(rows, m, c, e) ensures !m[e].target.mute.Muted? {
      assert c in m[e].connections && !Silenced(m, c, e);
    }
  }

  /** A connection that shall be audible keeps no listed column of its own muted; it ends
      audible exactly when no other column keeps it muted. */
  lemma {:induction false} UnmutedFreesColumns(rows: Rows, m: Matrix, ranges: Ranges, es: seq<nat>, c: nat)
    requires Ranged(m, ranges) && AllRest(m, ranges, es)
    requires c in rows && rows[c].adjustable && rows[c].target.mute.Unmuted?
    ensures forall e | e in es && Exclusive(rows, m, c, e) :: !Balance(rows, m, ranges, es)[e].target.mute.Muted?
    decreases es
  {
    hide Overall, Diff;
    if es != [] {
      var e0 := es[0];
      var m2 := Balance(rows, m, ranges, es);
      if Settled(rows, m) {
        SettledColumns(rows, m, c);
      } else {
        assert Rests(m, ranges, e0) && e0 !in es[1..];
        hide Overall, Balance, Settled, Rests, BalanceOne, Qualifies;
        RestAfter(rows, m, ranges, es);
        OneMute(rows, m, ranges, e0, c);
        var m1 := BalanceOne(rows, m, ranges, e0);
        UnmutedFreesColumns(rows, m1, ranges, es[1..], c);
        Untouchable(rows, m1, ranges, es[1..]);
        ExclusiveSame(rows, m, m1, c);
        BalanceStep(rows, m, ranges, es);
        forall e | e in es && Exclusive(rows, m, c, e) ensures !m2[e].target.mute.Muted? {
          assert e != e0 ==> e in es[1..] && Exclusive(rows, m1, c, e);
        }
      }
    }
  }

  lemma UnmutedEndsAudible(rows: Rows, m: Matrix, ranges: Ranges, es: seq<nat>, c: nat)
    requires Ranged(m, ranges) && AllRest(m, ranges, es) && SameElements(es, Ascending(m.Keys))
    requires c in rows && rows[c].adjustable && rows[c].target.mute.Unmuted?
    ensures Overall(Balance(rows, m, ranges, es), c).Unmuted?
            <==> forall e | e in m && c in m[e].connections && m[e].target.mute.Muted? :: Exclusive(rows, m, c, e)
  {
    hide Total, Rests;
    var m1 := Balance(rows, m, ranges, es);
    UnmutedFreesColumns(rows, m, ranges, es, c);
    Untouchable(rows, m, ranges, es);
    assert forall e | e in m :: e in es;
    forall e | e in m && c in m[e].connections
      ensures Silenced(m1, c, e) <==> m[e].target.mute.Muted? && !Exclusive(rows, m, c, e)
    {
      if !Exclusive(rows, m, c, e) {
        NotOwn(rows, m, c, e);
      }
    }
  }

  lemma NotOwn(rows: Rows, m: Matrix, c: nat, e: nat)
    requires e in m && c in m[e].connections && !Exclusive(rows, m, c, e)
    ensures !Qualifies(rows, m, e)
  {
  }
}

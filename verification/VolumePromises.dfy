/** What the actions that change volumes aim at and what they request; and what becomes of
    every connection once these requests have been carried out. */
module VolumePromises {
  import opened KeyOrder
  import opened Sequences
  import opened VolumeBalance
  import opened ConnectionTable
  import opened VolumeMatrix
  import opened VolumeOutcome
  import opened VolumeOrder

  // ------------------------------------------------------ main volume changes

  /** _compensateMainVolumeChange() */
  function Compensated(r: Row): Row {
    var volumeDiff := r.target.volume - r.actual.volume;
    var offsetDiff := r.target.offset - r.actual.offset;
    if volumeDiff != 0 && r.target.offset < NO_LIMIT then
      r.(target := r.target.(offset := Min(NO_LIMIT, r.target.offset + (offsetDiff - volumeDiff))))
    else r
  }

  /** While a limit is in force, a change of the main volume does not make the connection
      louder than it was; the requested volume counts again as soon as it is the lower one.
      A change of the limit that comes with it counts twice. */
  lemma CompensationKeepsTotal(r: Row)
    requires r.target.offset < NO_LIMIT && r.target.volume != r.actual.volume
    ensures var before := r.actual.volume + r.actual.offset;
            Audible(Compensated(r)) == Min(r.target.volume, before + 2 * (r.target.offset - r.actual.offset))
    ensures r.target.offset == r.actual.offset ==>
              Audible(Compensated(r)) == Min(r.target.volume, r.actual.volume + r.actual.offset)
  {
  }

  /** What CAmActionSetVolume makes of the rows it addresses. */
  function Retarget(r: Row, volume: int, single: bool, main: bool): Row {
    var r1 := if single || volume < r.target.offset then r.(target := r.target.(volume := volume)) else r;
    if main then Compensated(r1) else r1
  }

  function Retargeted(rows: Rows, wanted: nat -> int, main: bool): Rows {
    map c | c in rows :: Retarget(rows[c], wanted(c), |rows| == 1, main)
  }

  function Addressed(w: World, list: seq<nat>): Rows {
    map c | c in list :: Fetch(w, c, true)
  }

  // ------------------------------------------------------ the requests

  function Requests(m: Matrix, es: seq<nat>): seq<(nat, VolumeInfo)> {
    if es == [] then []
    else (if es[0] in m && m[es[0]].target != m[es[0]].actual
        then [(es[0], m[es[0]].target)] else []) + Requests(m, es[1..])
  }

  /** There is one request for every column that shall change, and no other. */
  lemma {:induction false} RequestsAre(m: Matrix, es: seq<nat>)
    requires Distinct(es)
    ensures forall e, v :: (e, v) in Requests(m, es) <==> e in es && e in m && v == m[e].target && v != m[e].actual
    ensures forall i, j | 0 <= i < j < |Requests(m, es)| :: Requests(m, es)[i].0 != Requests(m, es)[j].0
    decreases es
  {
    if es != [] {
      RequestsAre(m, es[1..]);
      assert es[0] !in es[1..];
      var rest := Requests(m, es[1..]);
      forall j | 0 <= j < |rest| ensures rest[j].0 != es[0] { assert (rest[j].0, rest[j].1) in rest; }
      assert forall e :: e in es <==> e == es[0] || e in es[1..];
    }
  }

  lemma RequestsStart(m: Matrix, es: seq<nat>)
    ensures [] + Requests(m, es[0..]) == Requests(m, es)
    ensures forall acc: seq<(nat, VolumeInfo)> :: acc + Requests(m, es[|es|..]) == acc
  {
    assert es[0..] == es && es[|es|..] == [];
  }

  lemma RequestStep(m: Matrix, es: seq<nat>, i: nat, acc: seq<(nat, VolumeInfo)>)
    requires i < |es|
    ensures acc + Requests(m, es[i..]) ==
              (if es[i] in m && m[es[i]].target != m[es[i]].actual
                  then acc + [(es[i], m[es[i]].target)] else acc) + Requests(m, es[i + 1..])
  {
    PrefixGrows(es, i);
  }

  // ------------------------------------------------------ when the requests are carried out

  /** The state of an element once the requests have been carried out in their order. */
  function Carried(w: World, requests: seq<(nat, VolumeInfo)>, e: nat): VolumeInfo {
    if requests == [] then w.state(e)
    else
      var last := requests[|requests| - 1];
      if last.0 == e then last.1 else Carried(w, requests[..|requests| - 1], e)
  }

  function Result(w: World, requests: seq<(nat, VolumeInfo)>, a: Axis): nat -> int {
    (e: nat) => Of(Carried(w, requests, e), a)
  }

  /** What the elements of c add up to before. */
  function Before(w: World, c: nat, a: Axis): int {
    Sum(Volumes(w, a), w.elements(c))
  }

  /** And once the requests have been carried out. */
  function Afterwards(w: World, requests: seq<(nat, VolumeInfo)>, c: nat, a: Axis): int {
    Sum(Result(w, requests, a), w.elements(c))
  }

  /** As close to `aim` as the elements that serve c alone can bring it. */
  function Nearest(w: World, addressed: set<nat>, c: nat, a: Axis, aim: int): int {
    var was := Before(w, c, a);
    was + Clamp(aim - was, Sum(Reserve(w, addressed, c, a, false), w.elements(c)),
        Sum(Reserve(w, addressed, c, a, true), w.elements(c)))
  }

  /** Connection c passes each of its elements once, and these are within their ranges. */
  ghost predicate Fit(w: World, c: nat) {
    Distinct(w.elements(c)) && forall e :: InRange(w.state(e), w.range(e))
  }

  /** The lowest limit of a kind, apart from limits that mute. */
  function Lowest(ls: seq<Limit>, kind: LimitType): (x: int)
    ensures x <= NO_LIMIT
    ensures forall l | l in ls && l.kind == kind && l != Limit(Absolute, AM_MUTE) :: x <= l.volume
    ensures x == NO_LIMIT || (Limit(kind, x) in ls && Limit(kind, x) != Limit(Absolute, AM_MUTE))
  {
    if ls == [] then NO_LIMIT
    else
      var x := Lowest(ls[1..], kind);
      if ls[0].kind == kind && ls[0] != Limit(Absolute, AM_MUTE) && ls[0].volume < x then ls[0].volume else x
  }

  // ------------------------------------------------------ what is promised

  /** Whether c is silent in the end, if that is what is aimed at, or if it is not. */
  ghost predicate SilentAsAimed(w: World, addressed: set<nat>, requests: seq<(nat, VolumeInfo)>, c: nat, aim: Mute) {
    var es := w.elements(c);
    var silent := exists e | e in es :: Carried(w, requests, e).mute.Muted?;
    && (aim.Muted? ==> (silent <==> exists e | e in es :: w.state(e).mute.Muted? || Own(w, addressed, c, e)))
    && (aim.Unmuted? ==> (silent <==> exists e | e in es :: w.state(e).mute.Muted? && !Own(w, addressed, c, e)))
  }

  /** Every addressed connection comes as close to its aim as can be. */
  ghost predicate AimsReached(w: World, addressed: set<nat>, aims: Rows, requests: seq<(nat, VolumeInfo)>) {
    forall c | c in addressed && Fit(w, c) ::
      && c in aims
      && (forall a: Axis :: Afterwards(w, requests, c, a) == Nearest(w, addressed, c, a, Of(aims[c].target, a)))
      && SilentAsAimed(w, addressed, requests, c, aims[c].target.mute)
  }

  /** Connections in use that were not addressed keep the states of all their elements. */
  ghost predicate OthersKept(w: World, addressed: set<nat>, requests: seq<(nat, VolumeInfo)>) {
    forall c, e | c in w.connections && c !in addressed && e in w.elements(c) :: Carried(w, requests, e) == w.state(e)
  }

  /** Element x is at its bound wherever y moves in that direction. */
  ghost predicate BoundFirst(w: World, requests: seq<(nat, VolumeInfo)>, x: nat, y: nat) {
    forall a: Axis ::
      && (Result(w, requests, a)(y) > Volumes(w, a)(y) ==> Result(w, requests, a)(x) == w.range(x).max)
      && (Result(w, requests, a)(y) < Volumes(w, a)(y) ==> Result(w, requests, a)(x) == w.range(x).min)
  }

  /** Of two elements of its own, a connection moves the one nearer the main sink first, or
      the one nearer the main source. */
  ghost predicate InTurn(w: World, addressed: set<nat>, requests: seq<(nat, VolumeInfo)>, d: Direction) {
    forall c, i, j |
      && c in addressed && Fit(w, c) && 0 <= i < j < |w.elements(c)|
      && Own(w, addressed, c, w.elements(c)[i]) && Own(w, addressed, c, w.elements(c)[j])
      && (forall k | i < k < j :: ReachedFirstBy(w, addressed, c, w.elements(c)[k])) ::
      if d.SinkToSource? then BoundFirst(w, requests, w.elements(c)[i], w.elements(c)[j])
      else BoundFirst(w, requests, w.elements(c)[j], w.elements(c)[i])
  }

  /** No element is requested twice, or to be what it is. */
  ghost predicate NoIdleRequests(w: World, requests: seq<(nat, VolumeInfo)>) {
    && (forall i | 0 <= i < |requests| :: requests[i].1 != w.state(requests[i].0))
    && (forall i, j | 0 <= i < j < |requests| :: requests[i].0 != requests[j].0)
  }

  ghost predicate Delivered(w: World, addressed: set<nat>, aims: Rows, requests: seq<(nat, VolumeInfo)>, d: Direction) {
    && AimsReached(w, addressed, aims, requests)
    && OthersKept(w, addressed, requests)
    && InTurn(w, addressed, requests, d)
    && NoIdleRequests(w, requests)
  }

  // ------------------------------------------------------ and kept

  lemma CarriedIs(w: World, requests: seq<(nat, VolumeInfo)>, e: nat)
    requires forall i, j | 0 <= i < j < |requests| :: requests[i].0 != requests[j].0
    ensures forall i | 0 <= i < |requests| && requests[i].0 == e :: Carried(w, requests, e) == requests[i].1
    ensures (forall i | 0 <= i < |requests| :: requests[i].0 != e) ==> Carried(w, requests, e) == w.state(e)
  {
  }

  /** What is carried out is what the columns aim at. */
  lemma RequestsCarry(w: World, m: Matrix, e: nat)
    requires forall x | x in m :: m[x].actual == w.state(x)
    ensures Carried(w, Requests(m, Ascending(m.Keys)), e) == After(w, m, e)
  {
    hide Ascending, Requests, Carried;
    var requests := Requests(m, Ascending(m.Keys));
    RequestsAre(m, Ascending(m.Keys));
    CarriedIs(w, requests, e);
    assert e in m && m[e].target != m[e].actual ==> (e, m[e].target) in requests;
    if i :| 0 <= i < |requests| && requests[i].0 == e {
      assert (requests[i].0, requests[i].1) in requests;
    }
  }

  lemma RequestsAreNotIdle(w: World, m: Matrix)
    requires forall x | x in m :: m[x].actual == w.state(x)
    ensures NoIdleRequests(w, Requests(m, Ascending(m.Keys)))
  {
    hide Ascending, Requests;
    var requests := Requests(m, Ascending(m.Keys));
    RequestsAre(m, Ascending(m.Keys));
    forall i | 0 <= i < |requests| ensures requests[i].1 != w.state(requests[i].0) {
      assert (requests[i].0, requests[i].1) in requests;
    }
  }

  lemma ColumnsAreActual(w: World, rows: Rows, m: Matrix)
    requires SameLayout(SetUp(w, rows).matrix, m)
    ensures forall x | x in m :: m[x].actual == w.state(x)
  {
    hide SetUp;
    MatrixIsComplete(w, rows);
    forall x | x in m ensures m[x].actual == w.state(x) { assert Proper(w, SetUp(w, rows), x); }
  }

  /** The tables and requests of an action with these rows and aims. */
  ghost predicate Ran(w: World, rows: Rows, aims: Rows, d: Direction, m: Matrix, requests: seq<(nat, VolumeInfo)>) {
    && Aims(w, rows, aims) && (forall c | c in rows :: rows[c].adjustable)
    && (var t := SetUp(w, rows);
        m == Outcome(w, rows, aims, Sorted(d, t.matrix, Ascending(t.matrix.Keys))))
    && requests == Requests(m, Ascending(m.Keys))
  }

  lemma OrderIsComplete(d: Direction, m: Matrix)
    ensures SameElements(Sorted(d, m, Ascending(m.Keys)), Ascending(m.Keys))
    ensures InOrder(d, m, Sorted(d, m, Ascending(m.Keys)))
  {
    SortedSorts(d, m, Ascending(m.Keys));
  }

  lemma OutcomeCarries(w: World, rows: Rows, aims: Rows, d: Direction, m: Matrix, requests: seq<(nat, VolumeInfo)>)
    requires Ran(w, rows, aims, d, m, requests)
    ensures NoIdleRequests(w, requests) && forall e :: Carried(w, requests, e) == After(w, m, e)
  {
    hide SetUp, Sorted, Ascending, NoIdleRequests, Requests, Balance;
    var t := SetUp(w, rows);
    Untouchable(aims, t.matrix, RangesOf(w, t.matrix), Sorted(d, t.matrix, Ascending(t.matrix.Keys)));
    ColumnsAreActual(w, rows, m);
    RequestsAreNotIdle(w, m);
    forall e { RequestsCarry(w, m, e); }
  }

  lemma AddressedDelivered(w: World, rows: Rows, aims: Rows, d: Direction, m: Matrix,
      requests: seq<(nat, VolumeInfo)>, c: nat)
    requires Ran(w, rows, aims, d, m, requests) && c in rows && Fit(w, c)
    ensures c in aims
    ensures forall a: Axis :: Afterwards(w, requests, c, a) == Nearest(w, rows.Keys, c, a, Of(aims[c].target, a))
    ensures SilentAsAimed(w, rows.Keys, requests, c, aims[c].target.mute)
  {
    hide SetUp, Sorted, Ascending, NoIdleRequests, Requests, Outcome, Aims, Own, Of, Carried;
    var t := SetUp(w, rows);
    var es := Sorted(d, t.matrix, Ascending(t.matrix.Keys));
    OrderIsComplete(d, t.matrix);
    OutcomeCarries(w, rows, aims, d, m, requests);
    AddressedRow(w, rows, aims, c);
    forall a: Axis
      ensures Afterwards(w, requests, c, a) == Nearest(w, rows.Keys, c, a, Of(aims[c].target, a))
    {
      AddressedReachesTarget(w, rows, aims, es, c, a);
      SumSame(Result(w, requests, a), Heard(w, m, a), w.elements(c));
    }
    if aims[c].target.mute.Muted? {
      AddressedIsMuted(w, rows, aims, es, c);
    } else if aims[c].target.mute.Unmuted? {
      AddressedIsUnmuted(w, rows, aims, es, c);
    }
  }

  lemma OthersDelivered(w: World, rows: Rows, aims: Rows, d: Direction, m: Matrix, requests: seq<(nat, VolumeInfo)>)
    requires Ran(w, rows, aims, d, m, requests)
    ensures OthersKept(w, rows.Keys, requests)
  {
    hide SetUp, Sorted, Ascending, NoIdleRequests, Requests, Outcome, Aims;
    var t := SetUp(w, rows);
    OutcomeCarries(w, rows, aims, d, m, requests);
    forall c | c in w.connections && c !in rows
      ensures forall e | e in w.elements(c) :: Carried(w, requests, e) == w.state(e)
    {
      BystandersAreUnchanged(w, rows, aims, Sorted(d, t.matrix, Ascending(t.matrix.Keys)), c);
    }
  }

  lemma Places(d: Direction, m: Matrix, es: seq<nat>, x: nat, y: nat) returns (i: nat, j: nat)
    requires InOrder(d, m, es) && SameElements(es, Ascending(m.Keys))
    requires x in m && y in m && Precedes(d, m, x, y) && !Precedes(d, m, y, x)
    ensures i < j < |es| && es[i] == x && es[j] == y
  {
    hide Ascending;
    AscendingHas(m.Keys);
    i :| 0 <= i < |es| && es[i] == x;
    j :| 0 <= j < |es| && es[j] == y;
  }

  /** Element x comes before y in the order of the columns. */
  lemma FirstIsBound(w: World, rows: Rows, aims: Rows, d: Direction, m: Matrix, requests: seq<(nat, VolumeInfo)>,
      c: nat, x: nat, y: nat)
    requires Ran(w, rows, aims, d, m, requests) && c in rows && Fit(w, c)
    requires Own(w, rows.Keys, c, x) && Own(w, rows.Keys, c, y)
    requires x in SetUp(w, rows).matrix && y in SetUp(w, rows).matrix
    requires Precedes(d, SetUp(w, rows).matrix, x, y) && !Precedes(d, SetUp(w, rows).matrix, y, x)
    ensures BoundFirst(w, requests, x, y)
  {
    hide SetUp, Sorted, Ascending, NoIdleRequests, Requests, Balance, Aims, Own, Of, Carried, Precedes, Exclusive;
    hide InOrder, AllRest, SameElements;
    var t := SetUp(w, rows);
    var es := Sorted(d, t.matrix, Ascending(t.matrix.Keys));
    var ranges := RangesOf(w, t.matrix);
    OrderIsComplete(d, t.matrix);
    OutcomeCarries(w, rows, aims, d, m, requests);
    ColumnsRest(w, rows, es);
    var i, j := Places(d, t.matrix, es, x, y);
    OwnIsExclusive(w, rows, aims, c, x);
    OwnIsExclusive(w, rows, aims, c, y);
    ColumnIs(w, rows, c, x);
    ColumnIs(w, rows, c, y);
    forall a: Axis
      ensures Result(w, requests, a)(y) > Volumes(w, a)(y) ==> Result(w, requests, a)(x) == w.range(x).max
      ensures Result(w, requests, a)(y) < Volumes(w, a)(y) ==> Result(w, requests, a)(x) == w.range(x).min
    {
      EarlierColumnsFirst(aims, t.matrix, ranges, es, c, a, j);
    }
  }

  lemma TurnsDelivered(w: World, rows: Rows, aims: Rows, d: Direction, m: Matrix, requests: seq<(nat, VolumeInfo)>)
    requires Ran(w, rows, aims, d, m, requests)
    ensures InTurn(w, rows.Keys, requests, d)
  {
    hide SetUp, Ran, BoundFirst, ReachedFirstBy;
    forall c, i, j |
      && c in rows && Fit(w, c) && 0 <= i < j < |w.elements(c)|
      && Own(w, rows.Keys, c, w.elements(c)[i]) && Own(w, rows.Keys, c, w.elements(c)[j])
      && (forall k | i < k < j :: ReachedFirstBy(w, rows.Keys, c, w.elements(c)[k]))
      ensures if d.SinkToSource? then BoundFirst(w, requests, w.elements(c)[i], w.elements(c)[j])
              else BoundFirst(w, requests, w.elements(c)[j], w.elements(c)[i])
    {
      var es := w.elements(c);
      OwnIsReachedFirst(w, rows.Keys, c, es[j]);
      OrdinalsAlong(w, rows, c, i, j);
      if d.SinkToSource? {
        FirstIsBound(w, rows, aims, d, m, requests, c, es[i], es[j]);
      } else {
        FirstIsBound(w, rows, aims, d, m, requests, c, es[j], es[i]);
      }
    }
  }

  lemma OwnIsReachedFirst(w: World, addressed: set<nat>, c: nat, e: nat)
    requires Own(w, addressed, c, e)
    ensures ReachedFirstBy(w, addressed, c, e)
  {
  }

  /** Whatever the rows aim at: what is promised is delivered. */
  lemma ActionDelivers(w: World, rows: Rows, aims: Rows, d: Direction, m: Matrix, requests: seq<(nat, VolumeInfo)>)
    requires Ran(w, rows, aims, d, m, requests)
    ensures Delivered(w, rows.Keys, aims, requests, d)
  {
    hide Ran, InTurn, OthersKept, NoIdleRequests, SilentAsAimed, Nearest, Afterwards;
    forall c | c in rows && Fit(w, c)
      ensures c in aims
      ensures forall a: Axis :: Afterwards(w, requests, c, a) == Nearest(w, rows.Keys, c, a, Of(aims[c].target, a))
      ensures SilentAsAimed(w, rows.Keys, requests, c, aims[c].target.mute)
    {
      AddressedDelivered(w, rows, aims, d, m, requests, c);
    }
    OthersDelivered(w, rows, aims, d, m, requests);
    TurnsDelivered(w, rows, aims, d, m, requests);
    OutcomeCarries(w, rows, aims, d, m, requests);
  }

  // ------------------------------------------------------ what is aimed at

  ghost predicate AimsAt(w: World, aims: Rows, c: nat, volume: int, offset: int, mute: Mute) {
    && c in aims && aims[c].target.volume == volume && aims[c].target.mute == mute && aims[c].target.offset <= offset
    && (Lowest(w.limits(c), Relative) == NO_LIMIT ==> aims[c].target.offset == offset)
  }

  /** A connection with a limit relative to the others aims below each of those that come
      earlier or have none, by that much. */
  ghost predicate RelativelyLimited(w: World, aims: Rows) {
    forall c, k | c in aims && k in aims && k != c && Lowest(w.limits(c), Relative) < NO_LIMIT ::
      Audible(aims[c]) <= Audible(aims[k]) + Lowest(w.limits(c), Relative)
      <==> k < c || Lowest(w.limits(k), Relative) == NO_LIMIT
  }

  function MuteLimit(w: World, c: nat): Mute {
    if Limit(Absolute, AM_MUTE) in w.limits(c) then Muted else Unmuted
  }

  /** The row of a connection says what its elements add up to and how it is limited. */
  lemma FetchedRow(w: World, c: nat, adjustable: bool)
    ensures Fetch(w, c, adjustable)
            == Row(VolumeInfo(w.mute(c), Before(w, c, Volume), Before(w, c, Offset)),
                   VolumeInfo(MuteLimit(w, c), Before(w, c, Volume), Lowest(w.limits(c), Absolute)),
                   Lowest(w.limits(c), Relative), adjustable)
  {
    var volume, offset := Before(w, c, Volume), Before(w, c, Offset);
    HighestRestrictionWins(
      Row(VolumeInfo(w.mute(c), volume, offset), VolumeInfo(Unmuted, volume, NO_LIMIT), NO_LIMIT, adjustable),
      w.limits(c));
  }

  ghost predicate RelativesAsSet(w: World, rows: Rows) {
    forall c | c in rows :: rows[c].relative == Lowest(w.limits(c), Relative)
  }

  lemma ResolvedAims(w: World, rows: Rows)
    requires RelativesAsSet(w, rows)
    ensures RelativelyLimited(w, Resolve(rows))
    ensures forall c | c in rows ::
        AimsAt(w, Resolve(rows), c, rows[c].target.volume, rows[c].target.offset, rows[c].target.mute)
  {
    hide Resolve, Ascending, Lowest;
    ResolveLowers(rows);
    AscendingHas(rows.Keys);
    var aims := Resolve(rows);
    forall c, k | c in aims && k in aims && k != c && Lowest(w.limits(c), Relative) < NO_LIMIT
      ensures Audible(aims[c]) <= Audible(aims[k]) + Lowest(w.limits(c), Relative)
              <==> k < c || Lowest(w.limits(k), Relative) == NO_LIMIT
    {
      assert Lowest(w.limits(k), Relative) <= NO_LIMIT;
      RelativeLimitHolds(rows, c, k);
    }
  }

  /** The table that the rows become part of. */
  lemma TableIs(w: World, rows: Rows)
    requires RelativesAsSet(w, rows)
    ensures RelativesAsSet(w, SetUp(w, rows).rows)
    ensures forall c | c in rows :: c in SetUp(w, rows).rows && SetUp(w, rows).rows[c] == rows[c]
  {
    hide SetUp, Proper, Fetch, Lowest;
    var t := SetUp(w, rows);
    MatrixIsComplete(w, rows);
    forall c | c in t.rows ensures t.rows[c].relative == Lowest(w.limits(c), Relative) {
      if c !in rows { FetchedRow(w, c, false); }
    }
  }

  // ------------------------------------------------------ the three actions

  function Named(list: seq<nat>): set<nat> {
    set k | k in list
  }

  function TheOnly(list: seq<nat>, c: nat): bool {
    forall k | k in list :: k == c
  }

  /** The volume that is asked for counts for a single connection, and for one of several
      if it is below that one's limit. */
  function VolumeAim(w: World, list: seq<nat>, c: nat, wanted: int): int {
    if TheOnly(list, c) || wanted < Lowest(w.limits(c), Absolute) then wanted else Before(w, c, Volume)
  }

  /** The lowest limit; when the main volume of a limited connection changes, what leaves
      the lower one of the new volume and of the audible total there was, with any change
      of the limit counted twice. */
  function OffsetAim(w: World, c: nat, volume: int, main: bool): int {
    var limit := Lowest(w.limits(c), Absolute);
    var total := Before(w, c, Volume) + Before(w, c, Offset);
    if main && volume != Before(w, c, Volume) && limit < NO_LIMIT then
      Min(volume, total + 2 * (limit - Before(w, c, Offset))) - volume
    else limit
  }

  lemma OneKey(list: seq<nat>, rows: Rows, c: nat)
    requires c in list && forall k :: k in rows <==> k in list
    ensures |rows| == 1 <==> TheOnly(list, c)
  {
    assert rows.Keys == {c} + (rows.Keys - {c});
    if k :| k in list && k != c {
      assert {c, k} <= rows.Keys;
      assert |rows.Keys - {c} - {k}| == |rows| - 2;
    } else {
      assert rows.Keys == {c};
    }
  }

  lemma SetVolumeAims(w: World, list: seq<nat>, wanted: nat -> int, main: bool)
    ensures var rows := Retargeted(Addressed(w, list), wanted, main);
            var aims := Resolve(SetUp(w, rows).rows);
            RelativelyLimited(w, aims) && SetVolumeAimed(w, list, wanted, main, aims)
  {
    hide Fetch, Resolve, SetUp, Lowest, Before, AimsAt, RelativelyLimited, TheOnly, MuteLimit;
    var rows := Retargeted(Addressed(w, list), wanted, main);
    forall c | c in list
      ensures rows[c].target.volume == VolumeAim(w, list, c, wanted(c))
      ensures rows[c].target.offset == OffsetAim(w, c, VolumeAim(w, list, c, wanted(c)), main)
      ensures rows[c].target.mute == MuteLimit(w, c) && rows[c].relative == Lowest(w.limits(c), Relative)
    {
      RetargetedRow(w, list, wanted, main, c);
    }
    TableIs(w, rows);
    ResolvedAims(w, SetUp(w, rows).rows);
  }

  lemma RetargetedRow(w: World, list: seq<nat>, wanted: nat -> int, main: bool, c: nat)
    requires c in list
    ensures var row, volume := Retargeted(Addressed(w, list), wanted, main)[c], VolumeAim(w, list, c, wanted(c));
            && row.target == VolumeInfo(MuteLimit(w, c), volume, OffsetAim(w, c, volume, main))
            && row.relative == Lowest(w.limits(c), Relative) && row.adjustable
  {
    hide Fetch, Lowest, Before, TheOnly, MuteLimit;
    FetchedRow(w, c, true);
    OneKey(list, Addressed(w, list), c);
  }

  lemma LimitAims(w: World, list: seq<nat>)
    ensures var aims := Resolve(SetUp(w, Addressed(w, list)).rows);
            && RelativelyLimited(w, aims)
            && forall c | c in list ::
                 AimsAt(w, aims, c, Before(w, c, Volume), Lowest(w.limits(c), Absolute), MuteLimit(w, c))
  {
    hide Fetch, Resolve, SetUp, Lowest, Before, AimsAt, RelativelyLimited, MuteLimit;
    var rows := Addressed(w, list);
    forall c | c in list { FetchedRow(w, c, true); }
    TableIs(w, rows);
    ResolvedAims(w, SetUp(w, rows).rows);
  }

  lemma MuteAims(w: World, list: seq<nat>, requested: Mute)
    ensures var aims := Resolve(Remuted(SetUp(w, Addressed(w, list)).rows, requested));
            && RelativelyLimited(w, aims)
            && forall c | c in list ::
                 AimsAt(w, aims, c, Before(w, c, Volume), Lowest(w.limits(c), Absolute), requested)
  {
    hide Fetch, Resolve, SetUp, Lowest, Before, AimsAt, RelativelyLimited, MuteLimit;
    var rows := Addressed(w, list);
    forall c | c in list { FetchedRow(w, c, true); }
    TableIs(w, rows);
    ResolvedAims(w, Remuted(SetUp(w, rows).rows, requested));
  }

  /** Aiming at what is there changes nothing. */
  lemma NearestToItself(w: World, addressed: set<nat>, c: nat, a: Axis)
    requires Fit(w, c)
    ensures Nearest(w, addressed, c, a, Before(w, c, a)) == Before(w, c, a)
  {
    ReserveSign(w, addressed, c, a, w.elements(c));
  }

  lemma ReserveSign(w: World, addressed: set<nat>, c: nat, a: Axis, es: seq<nat>)
    requires forall e :: InRange(w.state(e), w.range(e))
    ensures Sum(Reserve(w, addressed, c, a, false), es) <= 0 <= Sum(Reserve(w, addressed, c, a, true), es)
  {
    if es != [] {
      assert InRange(w.state(es[0]), w.range(es[0]));
      ReserveSign(w, addressed, c, a, es[1..]);
    }
  }

  ghost predicate AllFrom(w: World, rows: Rows, before: Rows, d: Direction, aims: Rows, m: Matrix,
      requests: seq<(nat, VolumeInfo)>)
  {
    && aims == Resolve(before)
    && (var t := SetUp(w, rows);
        m == Outcome(w, rows, aims, Sorted(d, t.matrix, Ascending(t.matrix.Keys))))
    && requests == Requests(m, Ascending(m.Keys))
  }

  lemma AimIsReached(w: World, addressed: set<nat>, aims: Rows, requests: seq<(nat, VolumeInfo)>, d: Direction,
      c: nat, volume: int, offset: int, mute: Mute)
    requires Delivered(w, addressed, aims, requests, d) && AimsAt(w, aims, c, volume, offset, mute)
    requires c in addressed && Fit(w, c)
    ensures Afterwards(w, requests, c, Volume) == Nearest(w, addressed, c, Volume, volume)
    ensures volume == Before(w, c, Volume) ==> Afterwards(w, requests, c, Volume) == volume
    ensures SilentAsAimed(w, addressed, requests, c, mute)
    ensures Lowest(w.limits(c), Relative) == NO_LIMIT ==>
              Afterwards(w, requests, c, Offset) == Nearest(w, addressed, c, Offset, offset)
  {
    hide Afterwards, Before, Nearest, SilentAsAimed, Fit, Lowest;
    NearestToItself(w, addressed, c, Volume);
    assert Of(aims[c].target, Volume) == volume && Of(aims[c].target, Offset) == aims[c].target.offset;
  }

  /** Each connection comes as close as it can to the volume that was asked for if it is the
      only one or that volume is below its limit; otherwise its volume stays. */
  ghost predicate VolumesFollow(w: World, list: seq<nat>, wanted: nat -> int, requests: seq<(nat, VolumeInfo)>) {
    forall c | c in list && Fit(w, c) ::
      Afterwards(w, requests, c, Volume)
      == if (forall k | k in list :: k == c) || wanted(c) < Lowest(w.limits(c), Absolute)
         then Nearest(w, Named(list), c, Volume, wanted(c)) else Before(w, c, Volume)
  }

  /** Its offset goes to its limit; or, when the main volume of a limited connection changes,
      to what leaves the lower one of the new volume and of the total there was, with any
      change of the limit counted twice. */
  ghost predicate TotalsFollow(w: World, list: seq<nat>, wanted: nat -> int, main: bool,
      requests: seq<(nat, VolumeInfo)>)
  {
    forall c | c in list && Fit(w, c) && Lowest(w.limits(c), Relative) == NO_LIMIT ::
      var limit, volume := Lowest(w.limits(c), Absolute), VolumeAim(w, list, c, wanted(c));
      var total := Before(w, c, Volume) + Before(w, c, Offset);
      Afterwards(w, requests, c, Offset)
      == Nearest(w, Named(list), c, Offset,
                 if main && volume != Before(w, c, Volume) && limit < NO_LIMIT
                 then Min(volume, total + 2 * (limit - Before(w, c, Offset))) - volume else limit)
  }

  ghost predicate VolumesStay(w: World, list: seq<nat>, requests: seq<(nat, VolumeInfo)>) {
    forall c | c in list && Fit(w, c) :: Afterwards(w, requests, c, Volume) == Before(w, c, Volume)
  }

  ghost predicate LimitsInForce(w: World, list: seq<nat>, requests: seq<(nat, VolumeInfo)>) {
    forall c | c in list && Fit(w, c) && Lowest(w.limits(c), Relative) == NO_LIMIT ::
      Afterwards(w, requests, c, Offset) == Nearest(w, Named(list), c, Offset, Lowest(w.limits(c), Absolute))
  }

  /** A limit that mutes is in force, or none is. */
  ghost predicate SilentAsLimited(w: World, list: seq<nat>, requests: seq<(nat, VolumeInfo)>) {
    forall c | c in list && Fit(w, c) ::
      SilentAsAimed(w, Named(list), requests, c, if Limit(Absolute, AM_MUTE) in w.limits(c) then Muted else Unmuted)
  }

  ghost predicate SilentAsRequested(w: World, list: seq<nat>, requested: Mute, requests: seq<(nat, VolumeInfo)>) {
    forall c | c in list && Fit(w, c) :: SilentAsAimed(w, Named(list), requests, c, requested)
  }

  /** A request for volumes. */
  lemma SetVolumeDelivers(w: World, list: seq<nat>, wanted: nat -> int, main: bool,
      aims: Rows, m: Matrix, requests: seq<(nat, VolumeInfo)>)
    requires var rows := Retargeted(Addressed(w, list), wanted, main);
             AllFrom(w, rows, SetUp(w, rows).rows, SinkToSource, aims, m, requests)
    ensures Delivered(w, Named(list), aims, requests, SinkToSource) && RelativelyLimited(w, aims)
    ensures VolumesFollow(w, list, wanted, requests) && TotalsFollow(w, list, wanted, main, requests)
    ensures SilentAsLimited(w, list, requests)
  {
    hide Fetch, Resolve, SetUp, Retarget, Outcome, Requests, VolumesFollow, TotalsFollow, SilentAsLimited;
    hide RelativelyLimited, Ascending, Sorted, Aims, OffsetAim, Lowest, Before, AimsAt, Delivered;
    var rows := Retargeted(Addressed(w, list), wanted, main);
    assert rows.Keys == Named(list);
    RequestsAreAims(w, rows, Unknown);
    SetVolumeAims(w, list, wanted, main);
    forall c | c in rows ensures rows[c].adjustable { RetargetedRow(w, list, wanted, main, c); }
    ActionDelivers(w, rows, aims, SinkToSource, m, requests);
    VolumesReached(w, list, wanted, main, aims, requests);
    TotalsReached(w, list, wanted, main, aims, requests);
  }

  /** What a request for volumes makes the tables aim at. */
  ghost predicate SetVolumeAimed(w: World, list: seq<nat>, wanted: nat -> int, main: bool, aims: Rows) {
    forall c | c in list ::
      var volume := VolumeAim(w, list, c, wanted(c));
      AimsAt(w, aims, c, volume, OffsetAim(w, c, volume, main), MuteLimit(w, c))
  }

  lemma SetVolumeReached(w: World, list: seq<nat>, wanted: nat -> int, main: bool,
      aims: Rows, requests: seq<(nat, VolumeInfo)>, c: nat)
    requires Delivered(w, Named(list), aims, requests, SinkToSource) && SetVolumeAimed(w, list, wanted, main, aims)
    requires c in list && Fit(w, c)
    ensures var volume := VolumeAim(w, list, c, wanted(c));
            && Afterwards(w, requests, c, Volume) == Nearest(w, Named(list), c, Volume, volume)
            && (volume == Before(w, c, Volume) ==> Afterwards(w, requests, c, Volume) == volume)
            && SilentAsAimed(w, Named(list), requests, c, MuteLimit(w, c))
            && (Lowest(w.limits(c), Relative) == NO_LIMIT ==>
                  Afterwards(w, requests, c, Offset)
                  == Nearest(w, Named(list), c, Offset, OffsetAim(w, c, volume, main)))
  {
    hide Delivered, AimsAt, SilentAsAimed, Nearest, Before, Afterwards, Lowest, Fit, MuteLimit, VolumeAim, OffsetAim;
    var volume := VolumeAim(w, list, c, wanted(c));
    AimIsReached(w, Named(list), aims, requests, SinkToSource, c,
        volume, OffsetAim(w, c, volume, main), MuteLimit(w, c));
  }

  lemma VolumesReached(w: World, list: seq<nat>, wanted: nat -> int, main: bool,
      aims: Rows, requests: seq<(nat, VolumeInfo)>)
    requires Delivered(w, Named(list), aims, requests, SinkToSource) && SetVolumeAimed(w, list, wanted, main, aims)
    ensures VolumesFollow(w, list, wanted, requests)
  {
    hide Delivered, SetVolumeAimed, SilentAsAimed, Nearest, Before, Afterwards, Lowest, Fit, OffsetAim;
    forall c | c in list && Fit(w, c)
      ensures Afterwards(w, requests, c, Volume)
              == if (forall k | k in list :: k == c) || wanted(c) < Lowest(w.limits(c), Absolute)
                 then Nearest(w, Named(list), c, Volume, wanted(c)) else Before(w, c, Volume)
    {
      SetVolumeReached(w, list, wanted, main, aims, requests, c);
    }
  }

  lemma TotalsReached(w: World, list: seq<nat>, wanted: nat -> int, main: bool,
      aims: Rows, requests: seq<(nat, VolumeInfo)>)
    requires Delivered(w, Named(list), aims, requests, SinkToSource) && SetVolumeAimed(w, list, wanted, main, aims)
    ensures TotalsFollow(w, list, wanted, main, requests)
    ensures SilentAsLimited(w, list, requests)
  {
    hide Delivered, SetVolumeAimed, SilentAsAimed, Nearest, Before, Afterwards, Lowest, Fit, VolumeAim;
    forall c | c in list && Fit(w, c)
      ensures Lowest(w.limits(c), Relative) == NO_LIMIT ==>
                Afterwards(w, requests, c, Offset)
                == Nearest(w, Named(list), c, Offset, OffsetAim(w, c, VolumeAim(w, list, c, wanted(c)), main))
      ensures SilentAsAimed(w, Named(list), requests, c, MuteLimit(w, c))
    {
      SetVolumeReached(w, list, wanted, main, aims, requests, c);
    }
  }

  /** What becomes of connections whose volume shall stay and whose limits shall be in force. */
  lemma LimitsFollow(w: World, list: seq<nat>, mute: nat -> Mute, d: Direction,
      aims: Rows, requests: seq<(nat, VolumeInfo)>)
    requires Delivered(w, Named(list), aims, requests, d)
    requires forall c | c in list ::
               AimsAt(w, aims, c, Before(w, c, Volume), Lowest(w.limits(c), Absolute), mute(c))
    ensures VolumesStay(w, list, requests) && LimitsInForce(w, list, requests)
    ensures forall c | c in list && Fit(w, c) :: SilentAsAimed(w, Named(list), requests, c, mute(c))
  {
    hide Delivered, AimsAt, SilentAsAimed, Nearest, Before, Afterwards, Lowest, Fit;
    forall c | c in list && Fit(w, c)
      ensures Afterwards(w, requests, c, Volume) == Before(w, c, Volume)
      ensures SilentAsAimed(w, Named(list), requests, c, mute(c))
      ensures Lowest(w.limits(c), Relative) == NO_LIMIT ==>
                Afterwards(w, requests, c, Offset)
                == Nearest(w, Named(list), c, Offset, Lowest(w.limits(c), Absolute))
    {
      AimIsReached(w, Named(list), aims, requests, d, c,
          Before(w, c, Volume), Lowest(w.limits(c), Absolute), mute(c));
    }
  }

  /** A new limit. */
  lemma LimitDelivers(w: World, list: seq<nat>, aims: Rows, m: Matrix, requests: seq<(nat, VolumeInfo)>)
    requires var rows := Addressed(w, list);
             AllFrom(w, rows, SetUp(w, rows).rows, SourceToSink, aims, m, requests)
    ensures Delivered(w, Named(list), aims, requests, SourceToSink) && RelativelyLimited(w, aims)
    ensures VolumesStay(w, list, requests) && LimitsInForce(w, list, requests)
    ensures SilentAsLimited(w, list, requests)
  {
    hide Fetch, Resolve, SetUp, Outcome, Requests, VolumesStay, LimitsInForce, SilentAsAimed;
    hide RelativelyLimited, Ascending, Sorted, Aims, Lowest, Before, AimsAt, Delivered;
    var rows := Addressed(w, list);
    assert rows.Keys == Named(list);
    RequestsAreAims(w, rows, Unknown);
    LimitAims(w, list);
    forall c | c in rows ensures rows[c].adjustable { FetchedRow(w, c, true); }
    ActionDelivers(w, rows, aims, SourceToSink, m, requests);
    LimitsFollow(w, list, (c: nat) => MuteLimit(w, c), SourceToSink, aims, requests);
  }

  /** A mute request. */
  lemma MuteDelivers(w: World, list: seq<nat>, requested: Mute, aims: Rows, m: Matrix,
      requests: seq<(nat, VolumeInfo)>)
    requires var rows := Addressed(w, list);
             AllFrom(w, rows, Remuted(SetUp(w, rows).rows, requested), SinkToSource, aims, m, requests)
    ensures Delivered(w, Named(list), aims, requests, SinkToSource) && RelativelyLimited(w, aims)
    ensures VolumesStay(w, list, requests) && LimitsInForce(w, list, requests)
    ensures SilentAsRequested(w, list, requested, requests)
  {
    hide Fetch, Resolve, SetUp, Outcome, Requests, VolumesStay, LimitsInForce, SilentAsAimed;
    hide RelativelyLimited, Ascending, Sorted, Aims, Lowest, Before, AimsAt, Delivered;
    var rows := Addressed(w, list);
    assert rows.Keys == Named(list);
    RequestsAreAims(w, rows, requested);
    MuteAims(w, list, requested);
    forall c | c in rows ensures rows[c].adjustable { FetchedRow(w, c, true); }
    ActionDelivers(w, rows, aims, SinkToSource, m, requests);
    LimitsFollow(w, list, (c: nat) => requested, SinkToSource, aims, requests);
  }
}

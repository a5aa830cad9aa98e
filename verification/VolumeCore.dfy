/** CAmActionSetVolumeCore: the two tables and the loops that fill and balance them, proved
    to compute the functions of the modules above. */
module VolumeCore {
  import opened KeyOrder
  import opened Sequences
  import opened VolumeBalance
  import opened ConnectionTable
  import opened VolumeMatrix
  import opened VolumeOutcome
  import opened VolumeOrder
  import opened VolumePromises

  // ------------------------------------------------------ the action

  class SetVolumeCore {
    const world: World
    var connectionMap: Rows
    var matrix: Matrix

    constructor (w: World)
      ensures world == w && connectionMap == map[] && matrix == map[]
    {
      world := w;
      connectionMap := map[];
      matrix := map[];
    }

    method AddUp(a: Axis, es: seq<nat>) returns (total: int)
      ensures total == Sum(Volumes(world, a), es)
    {
      total := 0;
      var f := Volumes(world, a);
      var i := 0;
      while i < |es|
        invariant 0 <= i <= |es| && total + Sum(f, es[i..]) == Sum(f, es)
      {
        total := total + f(es[i]);
        assert es[i..][1..] == es[i + 1..];
        i := i + 1;
      }
    }

    method GetConnectionVolumes(c: nat, adjustable: bool) returns (r: Row)
      ensures r == Fetch(world, c, adjustable)
    {
      var volume := AddUp(Volume, world.elements(c));
      var offset := AddUp(Offset, world.elements(c));
      var limits := world.limits(c);
      r := Row(VolumeInfo(world.mute(c), volume, offset), VolumeInfo(Unmuted, volume, NO_LIMIT), NO_LIMIT, adjustable);
      ghost var r0 := r;
      var i := 0;
      while i < |limits|
        invariant 0 <= i <= |limits| && ApplyLimits(r, limits[i..]) == ApplyLimits(r0, limits)
      {
        assert limits[i..][1..] == limits[i + 1..];
        var limit := limits[i];
        if limit.kind == Absolute && limit.volume == AM_MUTE {
          r := r.(target := r.target.(mute := Muted));
        } else if limit.kind == Absolute && limit.volume < r.target.offset {
          r := r.(target := r.target.(offset := limit.volume));
        } else if limit.kind == Relative && limit.volume < r.relative {
          r := r.(relative := limit.volume);
        }
        i := i + 1;
      }
    }

    /** The list is what the parameters of the action select. */
    method SetupConnectionMap(list: seq<nat>)
      modifies this`connectionMap
      ensures forall c :: c in connectionMap <==> c in old(connectionMap) || c in list
      ensures forall c | c in connectionMap ::
                connectionMap[c] == if c in list then Fetch(world, c, true) else old(connectionMap)[c]
    {
      hide Fetch;
      var i := 0;
      while i < |list|
        invariant 0 <= i <= |list|
        invariant forall c :: c in connectionMap <==> c in old(connectionMap) || c in list[..i]
        invariant forall c | c in connectionMap ::
                    connectionMap[c] == if c in list[..i] then Fetch(world, c, true) else old(connectionMap)[c]
      {
        var row := GetConnectionVolumes(list[i], true);
        connectionMap := connectionMap[list[i] := row];
        i := i + 1;
      }
    }

    // ---------------------------------------------------- the matrix

    /** The connections that use an element are linked to it, with a row of their own if
        they have none yet. */
    method LinkUsers(e: nat)
      requires e in matrix
      modifies this
      ensures var us := Users(world, world.connections, e);
              connectionMap == Link(world, old(connectionMap), us) && matrix == Joined(old(matrix), e, us)
    {
      hide Users, Link, Joined, Fetch;
      var cs := world.connections;
      var i := 0;
      LinkNone(world, connectionMap, cs, e);
      JoinNone(matrix, e);
      while i < |cs|
        invariant 0 <= i <= |cs|
        invariant connectionMap == Link(world, old(connectionMap), Users(world, cs[..i], e))
        invariant matrix == Joined(old(matrix), e, Users(world, cs[..i], e))
      {
        LinkOne(world, old(connectionMap), cs, i, e);
        if e in world.elements(cs[i]) {
          JoinOne(old(matrix), e, Users(world, cs[..i], e), cs[i]);
          matrix := matrix[e := matrix[e].(connections := matrix[e].connections + {cs[i]})];
          if cs[i] !in connectionMap {
            var row := GetConnectionVolumes(cs[i], false);
            connectionMap := connectionMap[cs[i] := row];
          }
        }
        i := i + 1;
      }
      assert cs[..|cs|] == cs;
    }

    method SetupVolumeMatrix()
      requires matrix == map[]
      modifies this
      ensures SetUp(world, old(connectionMap)) == Table(connectionMap, matrix, SetUp(world, old(connectionMap)).next)
    {
      hide EnterElements;
      var next := 0;
      var from := 0;
      ghost var rows := connectionMap;
      while Ahead(connectionMap.Keys, from) != {}
        invariant EnterRows(world, Table(connectionMap, matrix, next), from) == SetUp(world, rows)
        decreases Ahead(connectionMap.Keys + Known(world), from)
      {
        var c := Least(Ahead(connectionMap.Keys, from));
        ghost var keys := connectionMap.Keys;
        next := EnterConnection(c, next);
        assert connectionMap.Keys + Known(world) == keys + Known(world);
        assert c in Ahead(keys + Known(world), from) && c !in Ahead(connectionMap.Keys + Known(world), c + 1);
        from := c + 1;
      }
    }

    method EnterConnection(c: nat, next: nat) returns (after: nat)
      modifies this
      ensures Table(connectionMap, matrix, after)
              == EnterElements(world, Table(old(connectionMap), old(matrix), next), c, world.elements(c))
    {
      hide EnterElement;
      after := next;
      var es := world.elements(c);
      var i := 0;
      assert es[0..] == es;
      while i < |es|
        invariant 0 <= i <= |es|
        invariant EnterElements(world, Table(connectionMap, matrix, after), c, es[i..])
                  == EnterElements(world, Table(old(connectionMap), old(matrix), next), c, es)
      {
        PrefixGrows(es, i);
        after := Enter(c, es[i], after);
        i := i + 1;
      }
    }

    method Enter(c: nat, e: nat, next: nat) returns (after: nat)
      modifies this
      ensures Table(connectionMap, matrix, after)
          == EnterElement(world, Table(old(connectionMap), old(matrix), next), c, e)
    {
      hide Fetch;
      var column := ColumnOf(matrix, e);
      if column.connections == {} {
        column := column.(ordinal := next);
        after := next + 1;
      } else {
        after := column.ordinal + 1;
      }
      column := column.(connections := column.connections + {c}, actual := world.state(e), target := world.state(e));
      matrix := matrix[e := column];
      LinkUsers(e);
    }

    // ---------------------------------------------------- balancing

    method CompensateMainVolumeChange(c: nat)
      requires c in connectionMap
      modifies this`connectionMap
      ensures connectionMap == old(connectionMap)[c := Compensated(old(connectionMap)[c])]
    {
      var changeInfo := connectionMap[c];
      var volumeDiff := changeInfo.target.volume - changeInfo.actual.volume;
      var offsetDiff := changeInfo.target.offset - changeInfo.actual.offset;
      if volumeDiff != 0 && changeInfo.target.offset < NO_LIMIT {
        offsetDiff := offsetDiff - volumeDiff;
        changeInfo :=
            changeInfo.(target := changeInfo.target.(offset := Min(NO_LIMIT, changeInfo.target.offset + offsetDiff)));
      }
      connectionMap := connectionMap[c := changeInfo];
    }

    method ResolveRelativeLimits()
      modifies this`connectionMap
      ensures connectionMap == Resolve(old(connectionMap))
    {
      var ks := Ascending(connectionMap.Keys);
      var i := 0;
      while i < |ks|
        invariant 0 <= i <= |ks| && connectionMap.Keys == old(connectionMap).Keys
        invariant ResolveAll(connectionMap, ks[i..]) == ResolveAll(old(connectionMap), ks)
      {
        assert ks[i..][1..] == ks[i + 1..];
        ResolveRow(ks[i]);
        i := i + 1;
      }
    }

    method ResolveRow(i: nat)
      requires i in connectionMap
      modifies this`connectionMap
      ensures connectionMap == ResolveOne(old(connectionMap), i)
    {
      hide LimitToOthers, Ascending;
      if connectionMap[i].relative != NO_LIMIT {
        ghost var rows := connectionMap;
        var js := Ascending(connectionMap.Keys);
        var k := 0;
        while k < |js|
          invariant 0 <= k <= |js| && i in connectionMap
          invariant connectionMap == rows[i := rows[i].(target := connectionMap[i].target)]
          invariant LimitToOthers(rows, i, js[k..], connectionMap[i].target)
              == LimitToOthers(rows, i, js, rows[i].target)
        {
          var j := js[k];
          LimitStep(rows, i, js, k, connectionMap[i].target);
          if i != j {
            var limit := connectionMap[j].target.volume + connectionMap[j].target.offset + connectionMap[i].relative;
            LimitTarget(i, limit);
          }
          k := k + 1;
        }
        assert js[|js|..] == [];
        LimitNoMore(rows, i, connectionMap[i].target);
        connectionMap := connectionMap[i := connectionMap[i].(relative := NO_LIMIT)];
      }
    }

    method LimitTarget(i: nat, limit: int)
      requires i in connectionMap
      modifies this`connectionMap
      ensures connectionMap
          == old(connectionMap)[i := old(connectionMap)[i].(target := LimitTo(old(connectionMap)[i].target, limit))]
    {
      var target := connectionMap[i].target;
      if limit < target.volume + target.offset {
        connectionMap := connectionMap[i := connectionMap[i].(target := target.(offset := limit - target.volume))];
      }
    }

    method TakeOff(c: nat, e: nat, diff: VolumeInfo, overall: Mute) returns (diff1: VolumeInfo, overall1: Mute)
      requires e in matrix
      ensures diff1
          == VolumeInfo(diff.mute, diff.volume - Part(matrix, c, Volume, e), diff.offset - Part(matrix, c, Offset, e))
      ensures overall1 == if Silenced(matrix, c, e) then Muted else overall
    {
      diff1, overall1 := diff, overall;
      var settings := matrix[e];
      if c in settings.connections {
        diff1 := diff.(volume := diff.volume - settings.target.volume, offset := diff.offset - settings.target.offset);
        if settings.target.mute == Muted {
          overall1 := Muted;
        }
      }
    }

    method GetVolumeDiff(c: nat) returns (diff: VolumeInfo)
      requires c in connectionMap
      ensures diff == Diff(connectionMap, matrix, c)
    {
      hide Total, Ascending, Part, Silenced;
      if !connectionMap[c].adjustable {
        return NO_DIFF;
      }
      var target := connectionMap[c].target;
      diff := target;
      var overall := Unmuted;
      var es := Ascending(matrix.Keys);
      var i := 0;
      while i < |es|
        invariant 0 <= i <= |es| && diff.mute == target.mute
        invariant diff.volume - Total(matrix, c, Volume, es[i..]) == target.volume - Total(matrix, c, Volume, es)
        invariant diff.offset - Total(matrix, c, Offset, es[i..]) == target.offset - Total(matrix, c, Offset, es)
        invariant overall == SoFar(matrix, c, es, i)
      {
        TotalStep(matrix, c, Volume, es, i);
        TotalStep(matrix, c, Offset, es, i);
        diff, overall := TakeOff(c, es[i], diff, overall);
        i := i + 1;
      }
      TotalStep(matrix, c, Volume, es, i);
      TotalStep(matrix, c, Offset, es, i);
      SoFarIsOverall(matrix, c);
      if overall == target.mute {
        diff := diff.(mute := Unknown);
      }
    }

    method QualifiesForChanges(e: nat) returns (b: bool)
      requires e in matrix
      ensures b == Qualifies(connectionMap, matrix, e)
    {
      var connections := matrix[e].connections;
      if connections == {} || Least(connections) !in connectionMap {
        return false;
      }
      if |connections| > 1 {
        SharedIsNotOne(connections);
        return false;
      }
      OneIsLeast(connections);
      return connectionMap[Least(connections)].adjustable;
    }

    method Done(diffMap: map<nat, VolumeInfo>) returns (b: bool)
      ensures b == forall c | c in diffMap :: diffMap[c] == NO_DIFF
    {
      b := true;
      var cs := Ascending(diffMap.Keys);
      var i := 0;
      while i < |cs|
        invariant 0 <= i <= |cs|
        invariant b == forall c | c in cs[..i] :: diffMap[c] == NO_DIFF
      {
        b := b && diffMap[cs[i]] == NO_DIFF;
        assert cs[..i + 1] == cs[..i] + [cs[i]];
        i := i + 1;
      }
      assert cs[..|cs|] == cs;
    }

    /** The differences that the loop keeps are those of the tables as they are. */
    ghost predicate Tracks(diffMap: map<nat, VolumeInfo>)
      reads this
    {
      diffMap.Keys == connectionMap.Keys && forall c | c in diffMap :: diffMap[c] == Diff(connectionMap, matrix, c)
    }

    method MeasureAll() returns (diffMap: map<nat, VolumeInfo>)
      ensures Tracks(diffMap)
    {
      hide Diff, Ascending;
      diffMap := map[];
      var cs := Ascending(connectionMap.Keys);
      var i := 0;
      while i < |cs|
        invariant 0 <= i <= |cs| && forall k | 0 <= k < i :: cs[k] in diffMap
        invariant forall c | c in diffMap :: c in connectionMap && diffMap[c] == Diff(connectionMap, matrix, c)
      {
        assert cs[i] in cs;
        var diff := GetVolumeDiff(cs[i]);
        diffMap := diffMap[cs[i] := diff];
        i := i + 1;
      }
      assert forall c | c in connectionMap :: c in cs;
    }

    method BalanceColumn(e: nat, diffMap: map<nat, VolumeInfo>) returns (diffMap1: map<nat, VolumeInfo>)
      requires Tracks(diffMap) && Qualifies(connectionMap, matrix, e)
      modifies this`matrix
      ensures matrix == old(matrix)[e :=
          Adjusted(old(matrix)[e], Diff(connectionMap, old(matrix), Owner(old(matrix)[e])), world.range(e))]
      ensures Tracks(diffMap1)
    {
      hide Diff;
      var column := matrix[e];
      var cs := Ascending(column.connections);
      ghost var owner := QualifiesExclusive(connectionMap, matrix, e);
      OneConnection(owner);
      ExclusiveQualifies(connectionMap, matrix, owner, e);
      var elementDiff := NO_DIFF;
      var i := 0;
      while i < |cs|
        invariant 0 <= i <= |cs| && elementDiff == if i == 0 then NO_DIFF else diffMap[owner]
      {
        var connectionDiff := diffMap[cs[i]];
        if connectionDiff.volume != 0 {
          elementDiff := elementDiff.(volume := connectionDiff.volume);
        }
        if connectionDiff.offset != 0 {
          elementDiff := elementDiff.(offset := connectionDiff.offset);
        }
        if connectionDiff.mute != Unknown {
          elementDiff := elementDiff.(mute := connectionDiff.mute);
        }
        i := i + 1;
      }
      var r := world.range(e);
      column := column.(target := VolumeInfo(
        if elementDiff.mute != Unknown then elementDiff.mute else column.target.mute,
        Max(r.min, Min(r.max, column.actual.volume + elementDiff.volume)),
        Max(r.min, Min(r.max, column.actual.offset + elementDiff.offset))));
      OthersKeepDiff(connectionMap, matrix, e, column, owner);
      matrix := matrix[e := column];
      diffMap1 := diffMap;
      i := 0;
      while i < |cs|
        modifies {}
        invariant 0 <= i <= |cs| && diffMap1.Keys == connectionMap.Keys
        invariant forall c | c in diffMap1 && c != owner :: diffMap1[c] == diffMap[c]
        invariant i > 0 ==> diffMap1[owner] == Diff(connectionMap, matrix, owner)
      {
        var diff := GetVolumeDiff(cs[i]);
        diffMap1 := diffMap1[cs[i] := diff];
        i := i + 1;
      }
    }

    method BalanceColumns(es: seq<nat>)
      requires forall e | e in es :: e in matrix
      modifies this`matrix
      ensures matrix == Balance(connectionMap, old(matrix), RangesOf(world, old(matrix)), es)
    {
      hide Diff, Adjusted, Qualifies, Owner, Balance, RangesOf;
      ghost var ranges := RangesOf(world, matrix);
      assert Ranged(matrix, ranges) && forall e | e in matrix :: ranges[e] == world.range(e)
          by { RangesFit(world, matrix); }
      var diffMap := MeasureAll();
      var i := 0;
      assert es[0..] == es;
      while i < |es|
        invariant 0 <= i <= |es| && matrix.Keys == old(matrix).Keys && Tracks(diffMap)
        invariant Balance(connectionMap, matrix, ranges, es[i..]) == Balance(connectionMap, old(matrix), ranges, es)
      {
        assert es[i] in es;
        BalanceAt(connectionMap, matrix, ranges, es, i);
        var done := Done(diffMap);
        if done {
          return;
        }
        var qualifies := QualifiesForChanges(es[i]);
        if qualifies {
          diffMap := BalanceColumn(es[i], diffMap);
        }
        i := i + 1;
      }
      BalanceAt(connectionMap, matrix, ranges, es, i);
    }

    method CalculateElementVolumes(direction: Direction)
      modifies this
      ensures connectionMap == Resolve(old(connectionMap))
      ensures matrix == Balance(connectionMap, old(matrix), RangesOf(world, old(matrix)),
                                Sorted(direction, old(matrix), Ascending(old(matrix).Keys)))
    {
      hide Balance, Sorted;
      if connectionMap == map[] {
        NothingAddressed(matrix, RangesOf(world, matrix), Sorted(direction, matrix, Ascending(matrix.Keys)));
        return;
      }
      ResolveRelativeLimits();
      BalanceColumns(Sorted(direction, matrix, Ascending(matrix.Keys)));
    }

    /** _createActionSetElementVolume() for every column */
    method CreateActions() returns (requests: seq<(nat, VolumeInfo)>)
      ensures requests == Requests(matrix, Ascending(matrix.Keys))
    {
      hide Ascending, Requests;
      requests := [];
      var es := Ascending(matrix.Keys);
      var i := 0;
      RequestsStart(matrix, es);
      while i < |es|
        invariant 0 <= i <= |es| && requests + Requests(matrix, es[i..]) == Requests(matrix, es)
      {
        RequestStep(matrix, es, i, requests);
        assert es[i] in es;
        var settings := matrix[es[i]];
        if settings.target != settings.actual {
          requests := requests + [(es[i], settings.target)];
        }
        i := i + 1;
      }
    }

    method RetargetAll(wanted: nat -> int, main: bool)
      modifies this`connectionMap
      ensures connectionMap == Retargeted(old(connectionMap), wanted, main)
    {
      hide Ascending, Retarget, Halfway;
      ghost var rows := connectionMap;
      var single := |connectionMap| == 1;
      var cs := Ascending(connectionMap.Keys);
      var i := 0;
      HalfwayStarts(rows, wanted, main);
      HalfwayEnds(rows, wanted, main);
      while i < |cs|
        invariant 0 <= i <= |cs| && connectionMap == Halfway(rows, wanted, main, i)
      {
        HalfwayStep(rows, wanted, main, i);
        RetargetOne(cs[i], wanted(cs[i]), single, main);
        i := i + 1;
      }
    }

    method RetargetOne(c: nat, requestedVolume: int, single: bool, main: bool)
      requires c in connectionMap
      modifies this`connectionMap
      ensures connectionMap == old(connectionMap)[c := Retarget(old(connectionMap)[c], requestedVolume, single, main)]
    {
      var settings := connectionMap[c];
      if single || requestedVolume < settings.target.offset {
        connectionMap := connectionMap[c := settings.(target := settings.target.(volume := requestedVolume))];
      }
      if main {
        CompensateMainVolumeChange(c);
      }
    }

    /** _execute() of CAmActionSetVolume for a balanced request: `wanted` is the volume that
        the parameters ask for, `main` says whether they do so in user scale. */
    method ExecuteSetVolume(list: seq<nat>, wanted: nat -> int, main: bool) returns (requests: seq<(nat, VolumeInfo)>)
      requires connectionMap == map[] && matrix == map[]
      modifies this
      ensures Delivered(world, Named(list), connectionMap, requests, SinkToSource)
      ensures RelativelyLimited(world, connectionMap)
      ensures VolumesFollow(world, list, wanted, requests) && TotalsFollow(world, list, wanted, main, requests)
      ensures SilentAsLimited(world, list, requests)
      ensures var rows := Retargeted(Addressed(world, list), wanted, main);
              var t := SetUp(world, rows);
              && connectionMap == Resolve(t.rows)
              && matrix == Outcome(world, rows, connectionMap, Sorted(SinkToSource, t.matrix, Ascending(t.matrix.Keys)))
      ensures requests == Requests(matrix, Ascending(matrix.Keys))
    {
      hide Fetch, SetUp, Resolve, Balance, Sorted, Retarget, Requests;
      hide Delivered, RelativelyLimited, VolumesFollow, TotalsFollow, SilentAsLimited;
      SetupConnectionMap(list);
      assert connectionMap == Addressed(world, list);
      RetargetAll(wanted, main);
      SetupVolumeMatrix();
      CalculateElementVolumes(SinkToSource);
      requests := CreateActions();
      SetVolumeDelivers(world, list, wanted, main, connectionMap, matrix, requests);
    }

    /** _execute() of CAmActionLimit for a request that goes to connections; the world is
        the one in which the new limit has been stored. */
    method ExecuteLimit(list: seq<nat>) returns (requests: seq<(nat, VolumeInfo)>)
      requires connectionMap == map[] && matrix == map[]
      modifies this
      ensures Delivered(world, Named(list), connectionMap, requests, SourceToSink)
      ensures RelativelyLimited(world, connectionMap)
      ensures VolumesStay(world, list, requests) && LimitsInForce(world, list, requests)
      ensures SilentAsLimited(world, list, requests)
      ensures var rows := Addressed(world, list);
              var t := SetUp(world, rows);
              && connectionMap == Resolve(t.rows)
              && matrix == Outcome(world, rows, connectionMap, Sorted(SourceToSink, t.matrix, Ascending(t.matrix.Keys)))
      ensures requests == Requests(matrix, Ascending(matrix.Keys))
    {
      hide Fetch, SetUp, Resolve, Balance, Sorted, Requests;
      hide Delivered, RelativelyLimited, VolumesStay, LimitsInForce, SilentAsLimited;
      SetupConnectionMap(list);
      assert connectionMap == Addressed(world, list);
      SetupVolumeMatrix();
      CalculateElementVolumes(SourceToSink);
      requests := CreateActions();
      LimitDelivers(world, list, connectionMap, matrix, requests);
    }

    /** _execute() of CAmActionMute for a request that goes to connections; the limit maps
        of the classes are the subject of module LimitMap. */
    method ExecuteMute(list: seq<nat>, requested: Mute) returns (requests: seq<(nat, VolumeInfo)>)
      requires connectionMap == map[] && matrix == map[]
      modifies this
      ensures Delivered(world, Named(list), connectionMap, requests, SinkToSource)
      ensures RelativelyLimited(world, connectionMap)
      ensures VolumesStay(world, list, requests) && LimitsInForce(world, list, requests)
      ensures SilentAsRequested(world, list, requested, requests)
      ensures var rows := Addressed(world, list);
              var t := SetUp(world, rows);
              && connectionMap == Resolve(Remuted(t.rows, requested))
              && matrix == Outcome(world, rows, connectionMap, Sorted(SinkToSource, t.matrix, Ascending(t.matrix.Keys)))
      ensures requests == Requests(matrix, Ascending(matrix.Keys))
    {
      hide Fetch, SetUp, Resolve, Balance, Sorted, Requests;
      hide Delivered, RelativelyLimited, VolumesStay, LimitsInForce, SilentAsRequested;
      SetupConnectionMap(list);
      assert connectionMap == Addressed(world, list);
      SetupVolumeMatrix();
      connectionMap := map c | c in connectionMap ::
          connectionMap[c].(target := connectionMap[c].target.(mute := requested));
      CalculateElementVolumes(SinkToSource);
      requests := CreateActions();
      MuteDelivers(world, list, requested, connectionMap, matrix, requests);
    }
  }

  /** Between a key and the next there is none. */
  lemma NextKey(s: set<nat>, i: nat)
    requires i < |Ascending(s)|
    ensures var cs := Ascending(s);
            forall c | c in s :: (i + 1 == |cs| || c < cs[i + 1]) <==> c < cs[i] || c == cs[i]
  {
    var cs := Ascending(s);
    forall c | c in s ensures (i + 1 == |cs| || c < cs[i + 1]) <==> c < cs[i] || c == cs[i] {
      var k :| 0 <= k < |cs| && cs[k] == c;
      assert k < i ==> c < cs[i];
      assert k > i + 1 ==> cs[i + 1] < c;
    }
  }

  /** The rows when the loop is at the i-th key. */
  function Halfway(rows: Rows, wanted: nat -> int, main: bool, i: nat): Rows
    requires i <= |Ascending(rows.Keys)|
  {
    var cs := Ascending(rows.Keys);
    map c | c in rows :: if i == |cs| || c < cs[i] then Retarget(rows[c], wanted(c), |rows| == 1, main) else rows[c]
  }

  lemma FirstKey(s: set<nat>)
    ensures forall c | c in s :: |Ascending(s)| > 0 && c >= Ascending(s)[0]
  {
    var cs := Ascending(s);
    forall c | c in s ensures |cs| > 0 && c >= cs[0] {
      var k :| 0 <= k < |cs| && cs[k] == c;
      assert k > 0 ==> cs[0] < c;
    }
  }

  lemma HalfwayStarts(rows: Rows, wanted: nat -> int, main: bool)
    ensures Halfway(rows, wanted, main, 0) == rows
  {
    hide Ascending, Retarget;
    FirstKey(rows.Keys);
  }

  lemma HalfwayEnds(rows: Rows, wanted: nat -> int, main: bool)
    ensures Halfway(rows, wanted, main, |Ascending(rows.Keys)|) == Retargeted(rows, wanted, main)
  {
    hide Ascending, Retarget;
  }

  lemma HalfwayStep(rows: Rows, wanted: nat -> int, main: bool, i: nat)
    requires i < |Ascending(rows.Keys)|
    ensures var c := Ascending(rows.Keys)[i];
            && c in rows && c in Halfway(rows, wanted, main, i) && Halfway(rows, wanted, main, i)[c] == rows[c]
            && Halfway(rows, wanted, main, i)[c := Retarget(rows[c], wanted(c), |rows| == 1, main)]
                == Halfway(rows, wanted, main, i + 1)
  {
    hide Ascending, Retarget;
    NextKey(rows.Keys, i);
    assert Ascending(rows.Keys)[i] in Ascending(rows.Keys);
  }

  lemma OneConnection(c: nat)
    ensures Ascending({c}) == [c]
  {
    var ks := Ascending({c});
    assert Least({c}) in {c};
    assert {c} - {c} == {};
  }

  lemma OthersKeepDiff(rows: Rows, m: Matrix, e: nat, col: Column, owner: nat)
    requires e in m && m[e].connections == {owner} && col.connections == {owner}
    ensures forall c | c in rows && c != owner :: Diff(rows, m[e := col], c) == Diff(rows, m, c)
  {
    hide Total, Ascending;
    var m1 := m[e := col];
    forall c | c in rows && c != owner ensures Diff(rows, m1, c) == Diff(rows, m, c) {
      TotalElsewhere(m, e, col, owner, c);
      assert forall x | x in m :: Silenced(m1, c, x) == Silenced(m, c, x);
    }
  }

  lemma TotalElsewhere(m: Matrix, e: nat, col: Column, owner: nat, c: nat)
    requires e in m && m[e].connections == {owner} && col.connections == {owner} && c != owner
    ensures m[e := col].Keys == m.Keys
    ensures Total(m[e := col], c, Volume, Ascending(m.Keys)) == Total(m, c, Volume, Ascending(m.Keys))
    ensures Total(m[e := col], c, Offset, Ascending(m.Keys)) == Total(m, c, Offset, Ascending(m.Keys))
  {
    TotalUpdate(m, e, col, c, Volume, Ascending(m.Keys));
    TotalUpdate(m, e, col, c, Offset, Ascending(m.Keys));
  }

  lemma RangesFit(w: World, m: Matrix)
    ensures Ranged(m, RangesOf(w, m)) && forall e | e in m :: RangesOf(w, m)[e] == w.range(e)
  {
  }

  lemma BalanceAt(rows: Rows, m: Matrix, ranges: Ranges, es: seq<nat>, i: nat)
    requires Ranged(m, ranges) && i <= |es|
    ensures Balance(rows, m, ranges, es[i..]) ==
              if i == |es| || Settled(rows, m) then m
                  else Balance(rows, BalanceOne(rows, m, ranges, es[i]), ranges, es[i + 1..])
  {
    hide Diff;
    if i < |es| { assert es[i..][1..] == es[i + 1..]; }
  }

  lemma NothingAddressed(m: Matrix, ranges: Ranges, es: seq<nat>)
    requires Ranged(m, ranges)
    ensures Resolve(map[]) == map[] && Balance(map[], m, ranges, es) == m
  {
  }

  lemma LimitStep(rows: Rows, i: nat, js: seq<nat>, k: nat, v: VolumeInfo)
    requires i in rows && k < |js| && forall j | j in js :: j in rows
    ensures LimitToOthers(rows, i, js[k..], v)
            == LimitToOthers(rows, i, js[k + 1..],
                if js[k] == i then v else LimitTo(v, Audible(rows[js[k]]) + rows[i].relative))
  {
    assert js[k..][1..] == js[k + 1..];
  }

  lemma LimitNoMore(rows: Rows, i: nat, v: VolumeInfo)
    requires i in rows
    ensures LimitToOthers(rows, i, [], v) == v
  {
  }

  function Joined(m: Matrix, e: nat, us: set<nat>): Matrix
    requires e in m
  {
    m[e := m[e].(connections := m[e].connections + us)]
  }

  lemma JoinNone(m: Matrix, e: nat)
    requires e in m
    ensures Joined(m, e, {}) == m
  {
    assert m[e].connections + {} == m[e].connections;
    assert m[e := m[e]] == m;
  }

  lemma JoinOne(m: Matrix, e: nat, us: set<nat>, c: nat)
    requires e in m
    ensures var j := Joined(m, e, us);
            e in j && j[e := j[e].(connections := j[e].connections + {c})] == Joined(m, e, us + {c})
  {
    assert m[e].connections + us + {c} == m[e].connections + (us + {c});
  }

  function SoFar(m: Matrix, c: nat, es: seq<nat>, i: nat): Mute
    requires i <= |es|
  {
    if i == 0 then Unmuted else if Silenced(m, c, es[i - 1]) then Muted else SoFar(m, c, es, i - 1)
  }

  lemma {:induction false} SoFarIs(m: Matrix, c: nat, es: seq<nat>, i: nat)
    requires i <= |es|
    ensures SoFar(m, c, es, i) == if exists k | 0 <= k < i :: Silenced(m, c, es[k]) then Muted else Unmuted
  {
    if i > 0 { SoFarIs(m, c, es, i - 1); }
  }

  lemma SoFarIsOverall(m: Matrix, c: nat)
    ensures SoFar(m, c, Ascending(m.Keys), |Ascending(m.Keys)|) == Overall(m, c)
  {
    var es := Ascending(m.Keys);
    SoFarIs(m, c, es, |es|);
    if e :| e in m && Silenced(m, c, e) {
      var k :| 0 <= k < |es| && es[k] == e;
    }
  }

  lemma TotalStep(m: Matrix, c: nat, a: Axis, es: seq<nat>, i: nat)
    requires i <= |es|
    ensures Total(m, c, a, es[i..]) == if i == |es| then 0 else Part(m, c, a, es[i]) + Total(m, c, a, es[i + 1..])
    ensures es[0..] == es
  {
    if i < |es| { assert es[i..][1..] == es[i + 1..]; }
  }

  lemma LinkNone(w: World, rows: Rows, cs: seq<nat>, e: nat)
    ensures Users(w, cs[..0], e) == {} && Link(w, rows, {}) == rows
  {
  }

  lemma LinkOne(w: World, rows: Rows, cs: seq<nat>, i: nat, e: nat)
    requires i < |cs|
    ensures var us, us1 := Users(w, cs[..i], e), Users(w, cs[..i + 1], e);
            && us1 == (if e in w.elements(cs[i]) then us + {cs[i]} else us)
            && var linked := Link(w, rows, us);
               Link(w, rows, us1) == if e !in w.elements(cs[i]) || cs[i] in linked then linked
                                     else linked[cs[i] := Fetch(w, cs[i], false)]
  {
    hide Fetch;
    UsersGrow(w, cs, i, e);
  }

  lemma UsersGrow(w: World, cs: seq<nat>, i: nat, e: nat)
    requires i < |cs|
    ensures Users(w, cs[..i + 1], e) == Users(w, cs[..i], e) + if e in w.elements(cs[i]) then {cs[i]} else {}
  {
    assert cs[..i + 1] == cs[..i] + [cs[i]];
  }

  lemma SharedIsNotOne(s: set<nat>)
    requires |s| > 1
    ensures forall c :: s != {c}
  {
  }

  lemma OneIsLeast(s: set<nat>)
    requires |s| == 1
    ensures s == {Least(s)}
  {
    var x := Least(s);
    assert |s - {x}| == 0;
  }
}

/** The first table that a change of volumes is computed from: what each connection is
    limited to, and how limits relative to other connections become absolute ones. First
    step of CAmActionSetVolumeCore. */
module ConnectionTable {
  import opened KeyOrder
  import opened Sequences
  import opened VolumeBalance

  const NO_LIMIT := 0
  const AM_MUTE := -3000

  // ------------------------------------------------------ limits of one connection

  datatype LimitType = Unspecified | Absolute | Relative

  datatype Limit = Limit(kind: LimitType, volume: int)

  predicate Mutes(l: Limit) {
    l.kind.Absolute? && l.volume == AM_MUTE
  }

  function ApplyLimit(r: Row, l: Limit): Row {
    if Mutes(l) then r.(target := r.target.(mute := Muted))
    else if l.kind.Absolute? && l.volume < r.target.offset then r.(target := r.target.(offset := l.volume))
    else if l.kind.Relative? && l.volume < r.relative then r.(relative := l.volume)
    else r
  }

  function ApplyLimits(r: Row, ls: seq<Limit>): Row
    decreases ls
  {
    if ls == [] then r else ApplyLimits(ApplyLimit(r, ls[0]), ls[1..])
  }

  /** The highest restriction wins, in each of the three kinds separately. */
  lemma {:induction false} HighestRestrictionWins(r: Row, ls: seq<Limit>)
    ensures var s := ApplyLimits(r, ls);
            && s == r.(target := r.target.(mute := s.target.mute, offset := s.target.offset), relative := s.relative)
            && (s.target.mute == if exists l | l in ls :: Mutes(l) then Muted else r.target.mute)
            && s.target.offset <= r.target.offset && s.relative <= r.relative
            && (forall l | l in ls :: l.kind.Absolute? && !Mutes(l) ==> s.target.offset <= l.volume)
            && (forall l | l in ls :: l.kind.Relative? ==> s.relative <= l.volume)
            && (s.target.offset == r.target.offset ||
                exists l | l in ls :: l == Limit(Absolute, s.target.offset) && !Mutes(l))
            && (s.relative == r.relative || Limit(Relative, s.relative) in ls)
    decreases ls
  {
    if ls != [] {
      HighestRestrictionWins(ApplyLimit(r, ls[0]), ls[1..]);
      assert forall l :: l in ls <==> l == ls[0] || l in ls[1..];
    }
  }

  lemma LimitsInAnyOrder(r: Row, ls: seq<Limit>, ks: seq<Limit>)
    requires forall l :: l in ls <==> l in ks
    ensures ApplyLimits(r, ls) == ApplyLimits(r, ks)
  {
    HighestRestrictionWins(r, ls);
    HighestRestrictionWins(r, ks);
  }

  // ------------------------------------------------------ relative limits

  function Audible(r: Row): int {
    r.target.volume + r.target.offset
  }

  function LimitTo(v: VolumeInfo, limit: int): VolumeInfo {
    if limit < v.volume + v.offset then v.(offset := limit - v.volume) else v
  }

  function LimitToOthers(rows: Rows, i: nat, js: seq<nat>, v: VolumeInfo): VolumeInfo
    requires i in rows && forall j | j in js :: j in rows
    decreases js
  {
    if js == [] then v
    else LimitToOthers(rows, i, js[1..], if js[0] == i then v else LimitTo(v, Audible(rows[js[0]]) + rows[i].relative))
  }

  function ResolveOne(rows: Rows, i: nat): Rows
    requires i in rows
  {
    if rows[i].relative == NO_LIMIT then rows
    else rows[i := rows[i].(target := LimitToOthers(rows, i, Ascending(rows.Keys), rows[i].target),
        relative := NO_LIMIT)]
  }

  function ResolveAll(rows: Rows, ks: seq<nat>): (r: Rows)
    requires forall k | k in ks :: k in rows
    ensures r.Keys == rows.Keys
    decreases ks
  {
    if ks == [] then rows else ResolveAll(ResolveOne(rows, ks[0]), ks[1..])
  }

  /** _resolveRelativeLimits() */
  function Resolve(rows: Rows): Rows {
    ResolveAll(rows, Ascending(rows.Keys))
  }

  lemma {:induction false} LimitToOthersIs(rows: Rows, i: nat, js: seq<nat>, v: VolumeInfo)
    requires i in rows && forall j | j in js :: j in rows
    ensures var w := LimitToOthers(rows, i, js, v);
            && w == v.(offset := w.offset) && w.offset <= v.offset
            && (forall j | j in js && j != i :: w.volume + w.offset <= Audible(rows[j]) + rows[i].relative)
            && (w == v || exists j | j in js && j != i :: w.volume + w.offset == Audible(rows[j]) + rows[i].relative)
    decreases js
  {
    if js != [] {
      LimitToOthersIs(rows, i, js[1..], if js[0] == i then v else LimitTo(v, Audible(rows[js[0]]) + rows[i].relative));
      assert forall j :: j in js <==> j == js[0] || j in js[1..];
    }
  }

  /** Row i as it is compared with row j: as it is when i has its turn. */
  function Seen(rows: Rows, after: Rows, before: seq<nat>, j: nat): int
    requires j in rows && j in after
  {
    if j in before then Audible(after[j]) else Audible(rows[j])
  }

  /** Only offsets are changed, and only to lower values; the rows in ks have no relative
      limit any more. */
  ghost predicate Lowered(rows: Rows, after: Rows, ks: seq<nat>) {
    && after.Keys == rows.Keys
    && (forall k | k in rows ::
          after[k] == rows[k].(target := rows[k].target.(offset := after[k].target.offset),
                               relative := after[k].relative))
    && (forall k | k in rows :: after[k].target.offset <= rows[k].target.offset)
    && (forall k | k in rows && (k !in ks || rows[k].relative == NO_LIMIT) :: after[k] == rows[k])
    && (forall k | k in rows && k in ks :: after[k].relative == NO_LIMIT)
  }

  /** Row i keeps its distance to every other row, and is not lowered further than that. */
  ghost predicate LimitMet(rows: Rows, after: Rows, before: seq<nat>, i: nat)
    requires after.Keys == rows.Keys && i in rows
  {
    && (rows[i].relative != NO_LIMIT ==>
          forall j | j in rows && j != i :: Audible(after[i]) <= Seen(rows, after, before, j) + rows[i].relative)
    && (Audible(after[i]) != Audible(rows[i]) ==>
          exists j | j in rows && j != i :: Audible(after[i]) == Seen(rows, after, before, j) + rows[i].relative)
  }

  ghost predicate Resolved(rows: Rows, after: Rows, ks: seq<nat>) {
    Lowered(rows, after, ks) && forall p | 0 <= p < |ks| && ks[p] in rows :: LimitMet(rows, after, ks[..p], ks[p])
  }

  lemma OneResolved(rows: Rows, i: nat)
    requires i in rows
    ensures Resolved(rows, ResolveOne(rows, i), [i])
  {
    hide LimitToOthers, Ascending;
    var js := Ascending(rows.Keys);
    LimitToOthersIs(rows, i, js, rows[i].target);
    assert [i][..0] == [];
    AscendingHas(rows.Keys);
  }

  lemma AscendingHas(s: set<nat>)
    ensures forall k :: k in Ascending(s) <==> k in s
  {
  }

  lemma {:induction false} ResolveAllResolves(rows: Rows, ks: seq<nat>)
    requires Distinct(ks) && forall k | k in ks :: k in rows
    ensures Resolved(rows, ResolveAll(rows, ks), ks)
    decreases ks
  {
    if ks != [] {
      var mid := ResolveOne(rows, ks[0]);
      OneResolved(rows, ks[0]);
      ResolveAllResolves(mid, ks[1..]);
      ResolvedJoins(rows, mid, ResolveAll(rows, ks), ks);
    }
  }

  lemma ResolvedJoins(rows: Rows, mid: Rows, after: Rows, ks: seq<nat>)
    requires Distinct(ks) && ks != [] && ks[0] in rows
    requires Resolved(rows, mid, [ks[0]]) && Resolved(mid, after, ks[1..])
    ensures Resolved(rows, after, ks)
  {
    assert ks[0] !in ks[1..];
    forall k ensures k in ks <==> k == ks[0] || k in ks[1..] { }
    assert Lowered(rows, after, ks);
    forall p | 0 <= p < |ks| && ks[p] in rows ensures LimitMet(rows, after, ks[..p], ks[p]) {
      MetJoins(rows, mid, after, ks, p);
    }
  }

  lemma MetJoins(rows: Rows, mid: Rows, after: Rows, ks: seq<nat>, p: nat)
    requires Distinct(ks) && p < |ks| && ks[0] in rows && ks[p] in rows
    requires Resolved(rows, mid, [ks[0]]) && Resolved(mid, after, ks[1..])
    ensures after.Keys == rows.Keys && LimitMet(rows, after, ks[..p], ks[p])
  {
    var i := ks[0];
    if p == 0 {
      assert [i][0] == i && [i][..0] == [] && LimitMet(rows, mid, [], i);
    } else {
      assert ks[p] == ks[1..][p - 1] && ks[p] != i && ks[p] !in [i];
      assert LimitMet(mid, after, ks[1..][..p - 1], ks[p]);
      assert ks[..p] == [i] + ks[1..][..p - 1];
      assert i !in ks[1..];
      forall j | j in rows ensures Seen(rows, after, ks[..p], j) == Seen(mid, after, ks[1..][..p - 1], j) {
        assert j in ks[..p] <==> j == i || j in ks[1..][..p - 1];
      }
    }
  }

  lemma ResolveLowers(rows: Rows)
    ensures Lowered(rows, Resolve(rows), Ascending(rows.Keys))
    ensures forall k | k in rows :: Resolve(rows)[k].relative == NO_LIMIT
  {
    ResolveAllResolves(rows, Ascending(rows.Keys));
  }

  lemma RowMet(rows: Rows, i: nat, j: nat)
    requires i in rows && j in rows && i != j && rows[i].relative != NO_LIMIT
    ensures Resolve(rows).Keys == rows.Keys
    ensures Audible(Resolve(rows)[i]) <= rows[i].relative + Audible(if j < i then Resolve(rows)[j] else rows[j])
  {
    hide ResolveAll, Ascending, Lowered, Audible;
    var ks := Ascending(rows.Keys);
    ResolveAllResolves(rows, ks);
    var p := AscendingAt(rows.Keys, i);
    ResolveLowersKeys(rows);
    assert LimitMet(rows, Resolve(rows), ks[..p], i);
  }

  lemma ResolveLowersKeys(rows: Rows)
    ensures Resolve(rows).Keys == rows.Keys
  {
  }

  /** A relative limit holds against another connection, in the end, exactly when that one
      has no relative limit of its own or comes earlier. */
  lemma RelativeLimitHolds(rows: Rows, i: nat, j: nat)
    requires i in rows && j in rows && i != j && rows[i].relative < 0 && rows[j].relative <= 0
    ensures Resolve(rows).Keys == rows.Keys
    ensures Audible(Resolve(rows)[i]) <= Audible(Resolve(rows)[j]) + rows[i].relative
            <==> j < i || rows[j].relative == NO_LIMIT
  {
    hide Resolve, Ascending;
    ResolveLowers(rows);
    RowMet(rows, i, j);
    if rows[j].relative != NO_LIMIT { RowMet(rows, j, i); }
  }

  /** Once resolved, there is nothing left to resolve. */
  lemma ResolveTwice(rows: Rows)
    ensures Resolve(Resolve(rows)) == Resolve(rows)
  {
    ResolveAllResolves(rows, Ascending(rows.Keys));
    ResolveNothing(Resolve(rows), Ascending(rows.Keys));
  }

  lemma ResolveNothing(rows: Rows, ks: seq<nat>)
    requires (forall k | k in ks :: k in rows) && forall k | k in rows :: rows[k].relative == NO_LIMIT
    ensures ResolveAll(rows, ks) == rows
  {
  }
}

/** Limits keyed by bit patterns (CAmLimitableElement) and the actions that set and undo
    them: CAmActionMute, and CAmActionLimit, whose undo forgets the pattern. */
module LimitMap {
  import opened VolumeBalance
  import opened ConnectionTable

  /** A 32-bit pattern. */
  datatype Pattern = Pattern(bits: bv32)

  type Limits = map<Pattern, Limit>

  const DEFAULT_PATTERN := Pattern(0xFFFF_FFFF)

  datatype LimitState = Undefined | Limited | Unlimited

  /** All bits of k are bits of p. */
  predicate Within(k: Pattern, p: Pattern) {
    k.bits & !p.bits == 0
  }

  function Erased(m: Limits, p: Pattern): Limits {
    map k | k in m && !Within(k, p) :: m[k]
  }

  /** setLimitState() */
  function Set(m: Limits, state: LimitState, limit: Limit, p: Pattern): Limits {
    match state
    case Undefined => m
    case Limited => m[p := limit]
    case Unlimited => Erased(m, p)
  }

  /** getLimit() */
  function Get(m: Limits, p: Pattern): (LimitState, Limit) {
    if p in m then (Limited, m[p]) else (Unlimited, Limit(Absolute, NO_LIMIT))
  }

  lemma WithinItself(p: Pattern)
    ensures Within(p, p) && Within(p, DEFAULT_PATTERN)
  {
  }

  // ------------------------------------------------------ one request and its undo

  function Undone(m: Limits, changed: Limits, p: Pattern, q: Pattern): Limits {
    Set(changed, Get(m, p).0, Get(m, p).1, q)
  }

  /** No stored pattern is a proper part of p. */
  predicate Unsplit(m: Limits, p: Pattern) {
    forall k | k in m && Within(k, p) :: k == p
  }

  /** What undo with the same pattern gives back: a new or changed limit always where there
      was one before; otherwise, everything exactly when no smaller pattern was stored. */
  lemma UndoRestoresOne(m: Limits, state: LimitState, limit: Limit, p: Pattern)
    requires !state.Undefined?
    ensures Undone(m, Set(m, state, limit, p), p, p) == m <==> (state.Limited? && p in m) || Unsplit(m, p)
  {
    WithinItself(p);
    var r := Undone(m, Set(m, state, limit, p), p, p);
    if Unsplit(m, p) || (state.Limited? && p in m) {
      forall k ensures k in r <==> k in m { }
      assert forall k | k in m :: r[k] == m[k];
    } else {
      var k :| k in m && Within(k, p) && k != p;
      assert k !in r;
    }
  }

  /** The undo of CAmActionLimit restores the limits under another pattern, unless the
      action was given the default pattern. It gives back what was there only if all of
      it had been erased or had been stored under the default pattern anyway. */
  lemma LimitUndoRestores(m: Limits, state: LimitState, limit: Limit, p: Pattern)
    requires !state.Undefined? && p != DEFAULT_PATTERN
    ensures Undone(m, Set(m, state, limit, p), p, DEFAULT_PATTERN) == m
            <==> m == map[]
                 || (state.Limited? && p in m && m[p] == limit && DEFAULT_PATTERN in m && m[DEFAULT_PATTERN] == limit)
  {
    WithinItself(p);
    var r := Undone(m, Set(m, state, limit, p), p, DEFAULT_PATTERN);
    if p !in m {
      assert r == map[] by { forall k: Pattern ensures Within(k, DEFAULT_PATTERN) { WithinItself(k); } }
    } else if state.Unlimited? {
      assert p !in r;
    } else {
      assert r[p] == limit && r[DEFAULT_PATTERN] == m[p];
      if m[p] == limit && DEFAULT_PATTERN in m && m[DEFAULT_PATTERN] == limit {
        assert r == m;
      }
    }
  }

  // ------------------------------------------------------ any list of requests

  datatype UndoItem<E> = UndoItem(element: E, state: LimitState, limit: Limit)

  function StateFor(requested: Mute): LimitState {
    if requested.Muted? then Limited else Unlimited
  }

  function LimitFor(requested: Mute): Limit {
    Limit(Absolute, if requested.Muted? then AM_MUTE else NO_LIMIT)
  }

  function MuteOne<E(==)>(s: map<E, Limits>, e: E, requested: Mute, p: Pattern): map<E, Limits>
    requires e in s
  {
    s[e := Set(s[e], StateFor(requested), LimitFor(requested), p)]
  }

  function MuteAll<E(==)>(s: map<E, Limits>, es: seq<E>, requested: Mute, p: Pattern): (r: map<E, Limits>)
    requires forall e | e in es :: e in s
    ensures r.Keys == s.Keys
    decreases es
  {
    if es == [] then s else MuteAll(MuteOne(s, es[0], requested, p), es[1..], requested, p)
  }

  function ItemFor<E(==)>(s: map<E, Limits>, e: E, p: Pattern): UndoItem<E>
    requires e in s
  {
    UndoItem(e, Get(s[e], p).0, Get(s[e], p).1)
  }

  /** The undo list, the latest request first. */
  function UndoItems<E(==)>(s: map<E, Limits>, es: seq<E>, requested: Mute, p: Pattern): (items: seq<UndoItem<E>>)
    requires forall e | e in es :: e in s
    ensures forall item | item in items :: item.element in s
    decreases es
  {
    if es == [] then [] else UndoItems(MuteOne(s, es[0], requested, p), es[1..], requested, p) + [ItemFor(s, es[0], p)]
  }

  function Replay<E(==)>(s: map<E, Limits>, items: seq<UndoItem<E>>, p: Pattern): (r: map<E, Limits>)
    requires forall item | item in items :: item.element in s
    ensures r.Keys == s.Keys
    decreases items
  {
    if items == [] then s
    else
      var item := items[0];
      Replay(s[item.element := Set(s[item.element], item.state, item.limit, p)], items[1..], p)
  }

  lemma {:induction false} ReplayLast<E>(s: map<E, Limits>, items: seq<UndoItem<E>>, item: UndoItem<E>, p: Pattern)
    requires item.element in s && forall i | i in items :: i.element in s
    ensures var r := Replay(s, items, p);
            Replay(s, items + [item], p) == r[item.element := Set(r[item.element], item.state, item.limit, p)]
    decreases items
  {
    if items != [] {
      assert (items + [item])[1..] == items[1..] + [item];
      var s1 := s[items[0].element := Set(s[items[0].element], items[0].state, items[0].limit, p)];
      ReplayLast(s1, items[1..], item, p);
    }
  }

  /** Whether an element gets its limits back: something a caller can look up before. */
  predicate Restorable(m: Limits, requested: Mute, p: Pattern) {
    (requested.Muted? && p in m) || Unsplit(m, p)
  }

  lemma RestorableAfter(m: Limits, requested: Mute, p: Pattern)
    ensures Restorable(Set(m, StateFor(requested), LimitFor(requested), p), requested, p)
  {
  }

  /** A mute or unmute action over any list of elements, repeated or not, undone from the
      front of its undo list: an element has its limits back exactly when it was restorable
      before the action or the action did not address it. */
  lemma {:induction false} UndoRestores<E>(s: map<E, Limits>, es: seq<E>, requested: Mute, p: Pattern, e: E)
    requires e in s && forall x | x in es :: x in s
    ensures Replay(MuteAll(s, es, requested, p), UndoItems(s, es, requested, p), p)[e] == s[e]
            <==> e !in es || Restorable(s[e], requested, p)
    decreases es
  {
    if es != [] {
      var x := es[0];
      var s1 := MuteOne(s, x, requested, p);
      UndoRestores(s1, es[1..], requested, p, e);
      ReplayLast(MuteAll(s1, es[1..], requested, p), UndoItems(s1, es[1..], requested, p), ItemFor(s, x, p), p);
      if e == x {
        RestorableAfter(s[e], requested, p);
        UndoRestoresOne(s[e], StateFor(requested), LimitFor(requested), p);
      }
    }
  }

  // ------------------------------------------------------ what is stored afterwards

  /** Just the limits whose patterns have a bit that p has not are left. */
  ghost predicate Kept(was: Limits, now: Limits, p: Pattern) {
    forall k :: (k in now <==> k in was && !Within(k, p)) && (k in now ==> now[k] == was[k])
  }

  /** A pattern within another adds no bit to it. */
  lemma WithinAddsNothing(k: Pattern, p: Pattern)
    ensures Within(k, p) <==> k.bits | p.bits == p.bits
  {
  }

  lemma ErasedIsKept(m: Limits, p: Pattern)
    ensures Kept(m, Erased(m, p), p)
  {
    hide Within;
  }

  /** A mute is stored under the pattern itself and leaves the other patterns alone. */
  ghost predicate Applied(was: Limits, now: Limits, requested: Mute, p: Pattern) {
    if requested.Muted? then
      && now.Keys == was.Keys + {p} && now[p] == Limit(Absolute, AM_MUTE)
      && forall k | k in was && k != p :: now[k] == was[k]
    else Kept(was, now, p)
  }

  lemma OneApplied(m: Limits, requested: Mute, p: Pattern)
    ensures Applied(m, Set(m, StateFor(requested), LimitFor(requested), p), requested, p)
  {
    hide Kept, Erased;
    ErasedIsKept(m, p);
  }

  lemma AppliedTwice(was: Limits, once: Limits, now: Limits, requested: Mute, p: Pattern)
    requires Applied(was, once, requested, p) && Applied(once, now, requested, p)
    ensures Applied(was, now, requested, p)
  {
    hide Within;
    assert forall k | k in now :: k in once;
  }

  /** However often an element is listed, it is muted or unmuted once; the others keep theirs. */
  lemma {:induction false} MuteStores<E>(s: map<E, Limits>, es: seq<E>, requested: Mute, p: Pattern, e: E)
    requires e in s && forall x | x in es :: x in s
    ensures var now := MuteAll(s, es, requested, p)[e];
            if e in es then Applied(s[e], now, requested, p) else now == s[e]
    decreases es
  {
    hide Applied, Set;
    if es != [] {
      var s1 := MuteOne(s, es[0], requested, p);
      MuteStores(s1, es[1..], requested, p, e);
      if e == es[0] {
        OneApplied(s[e], requested, p);
        if e in es[1..] {
          AppliedTwice(s[e], s1[e], MuteAll(s, es, requested, p)[e], requested, p);
        }
      }
    }
  }

  /** After muting, the element is mute; after unmuting, exactly when a mute had been stored
      under a pattern with a bit outside of p. */
  lemma MuteTakesEffect<E>(s: map<E, Limits>, es: seq<E>, requested: Mute, p: Pattern, e: E)
    requires e in s && e in es && forall x | x in es :: x in s
    ensures var now := MuteAll(s, es, requested, p)[e];
            (exists k | k in now :: now[k] == Limit(Absolute, AM_MUTE))
            <==> requested.Muted?
                 || exists k | k in s[e] && !Within(k, p) :: s[e][k] == Limit(Absolute, AM_MUTE)
  {
    hide MuteAll, Within;
    MuteStores(s, es, requested, p, e);
    var now := MuteAll(s, es, requested, p)[e];
    if requested.Muted? {
      assert p in now;
    } else if k :| k in s[e] && !Within(k, p) && s[e][k] == Limit(Absolute, AM_MUTE) {
      assert k in now;
    }
  }

  // ------------------------------------------------------ the classes

  /** The loop of setLimitState() has still to look at the patterns in `ahead`. */
  function ErasedBut(m: Limits, p: Pattern, ahead: set<Pattern>): Limits {
    map k | k in m && (k in ahead || !Within(k, p)) :: m[k]
  }

  lemma ErasedFrom(m: Limits, p: Pattern)
    ensures ErasedBut(m, p, m.Keys) == m && ErasedBut(m, p, {}) == Erased(m, p)
  {
  }

  lemma EraseOne(m: Limits, p: Pattern, ahead: set<Pattern>, k: Pattern)
    requires k in ahead && ahead <= m.Keys
    ensures var r := ErasedBut(m, p, ahead - {k});
            && r == (if Within(k, p) then ErasedBut(m, p, ahead) - {k} else ErasedBut(m, p, ahead))
            && ahead - {k} <= r.Keys
  {
  }

  class LimitableElement {
    var limits: Limits

    constructor ()
      ensures limits == map[]
    {
      limits := map[];
    }

    method SetLimitState(state: LimitState, limit: Limit, p: Pattern)
      modifies this
      ensures limits == Set(old(limits), state, limit, p)
    {
      if state == Limited {
        limits := limits[p := limit];
      } else if state == Unlimited {
        Erase(p);
      }
    }

    method Erase(p: Pattern)
      modifies this
      ensures limits == Erased(old(limits), p)
    {
      hide ErasedBut, Erased;
      var ahead := limits.Keys;
      ErasedFrom(limits, p);
      while ahead != {}
        invariant ahead <= limits.Keys && limits == ErasedBut(old(limits), p, ahead)
        invariant ahead <= old(limits).Keys
      {
        var k :| k in ahead;
        EraseOne(old(limits), p, ahead, k);
        ahead := ahead - {k};
        if k.bits & !p.bits == 0 {
          limits := limits - {k};
        }
      }
    }

    method GetLimit(p: Pattern) returns (state: LimitState, limit: Limit)
      ensures (state, limit) == Get(limits, p)
    {
      if p !in limits {
        return Unlimited, Limit(Absolute, NO_LIMIT);
      }
      return Limited, limits[p];
    }

    method GetLimits() returns (list: seq<Limit>)
      ensures forall l :: l in list <==> exists k | k in limits :: limits[k] == l
    {
      list := [];
      var ahead := limits.Keys;
      while ahead != {}
        invariant ahead <= limits.Keys
        invariant forall l :: l in list <==> exists k | k in limits && k !in ahead :: limits[k] == l
      {
        var k :| k in ahead;
        ahead := ahead - {k};
        list := list + [limits[k]];
      }
    }

    method GetMuteState() returns (mute: Mute)
      ensures mute == if exists k | k in limits :: Mutes(limits[k]) then Muted else Unmuted
    {
      var ahead := limits.Keys;
      while ahead != {}
        invariant ahead <= limits.Keys && forall k | k in limits && k !in ahead :: !Mutes(limits[k])
      {
        var k :| k in ahead;
        if limits[k].kind == Absolute && limits[k].volume == AM_MUTE {
          return Muted;
        }
        ahead := ahead - {k};
      }
      return Unmuted;
    }
  }

  ghost function StateOf(elements: set<LimitableElement>): (s: map<LimitableElement, Limits>)
    reads elements
    ensures s.Keys == elements
  {
    map e | e in elements :: e.limits
  }

  /** The elements that could be found. */
  function Present(es: seq<LimitableElement?>): (r: seq<LimitableElement>)
    ensures (forall e | e in r :: e in es) && forall e | e in es && e != null :: e in r
  {
    if es == [] then [] else if es[0] == null then Present(es[1..]) else [es[0]] + Present(es[1..])
  }

  lemma UpdateFrom(s: map<LimitableElement, Limits>, list: seq<LimitableElement?>, requested: Mute, p: Pattern)
    requires forall e: LimitableElement | e in list :: e in s
    ensures list[0..] == list
    ensures UndoItems<LimitableElement>(s, Present(list[0..]), requested, p) + []
        == UndoItems<LimitableElement>(s, Present(list), requested, p)
  {
    assert list[0..] == list;
  }

  lemma UpdateEnds(s: map<LimitableElement, Limits>, list: seq<LimitableElement?>, requested: Mute,
      p: Pattern, undo: seq<UndoItem<LimitableElement>>)
    ensures Present(list[|list|..]) == []
    ensures MuteAll<LimitableElement>(s, Present(list[|list|..]), requested, p) == s
    ensures UndoItems<LimitableElement>(s, Present(list[|list|..]), requested, p) + undo == undo
  {
    assert list[|list|..] == [];
  }

  lemma UpdateStores(s: map<LimitableElement, Limits>, list: seq<LimitableElement?>, requested: Mute, p: Pattern)
    requires forall e: LimitableElement | e in list :: e in s
    ensures var r := MuteAll<LimitableElement>(s, Present(list), requested, p);
            forall e | e in s :: if e in list then Applied(s[e], r[e], requested, p) else r[e] == s[e]
  {
    forall e | e in s {
      MuteStores<LimitableElement>(s, Present(list), requested, p, e);
    }
  }

  lemma UpdateStep(s: map<LimitableElement, Limits>, list: seq<LimitableElement?>, i: nat, requested: Mute, p: Pattern,
                   undo: seq<UndoItem<LimitableElement>>)
    requires i < |list| && forall e: LimitableElement | e in list :: e in s
    ensures var e, more := list[i], Present(list[i + 1..]);
            var after: map<LimitableElement, Limits> :=
                if e == null then s else MuteOne<LimitableElement>(s, e, requested, p);
            && MuteAll<LimitableElement>(s, Present(list[i..]), requested, p)
                == MuteAll<LimitableElement>(after, more, requested, p)
            && UndoItems<LimitableElement>(s, Present(list[i..]), requested, p) + undo
               == UndoItems<LimitableElement>(after, more, requested, p)
                   + if e == null then undo else [ItemFor<LimitableElement>(s, e, p)] + undo
  {
    assert list[i..][1..] == list[i + 1..];
    if list[i] != null {
      var e: LimitableElement := list[i];
      var more := Present(list[i + 1..]);
      assert Present(list[i..])[1..] == more;
    }
  }

  class MuteAction {
    const pattern: Pattern
    var undoList: seq<UndoItem<LimitableElement>>

    constructor (p: Pattern)
      ensures pattern == p && undoList == []
    {
      pattern := p;
      undoList := [];
    }

    method UpdateLimitState(element: LimitableElement?, requested: Mute, ghost elements: set<LimitableElement>)
      requires element != null ==> element in elements
      modifies this, element
      ensures element == null ==> StateOf(elements) == old(StateOf(elements)) && undoList == old(undoList)
      ensures element != null ==> Applied(old(element.limits), element.limits, requested, pattern)
      ensures element != null ==>
                && StateOf(elements) == MuteOne<LimitableElement>(old(StateOf(elements)), element, requested, pattern)
                && undoList == [ItemFor<LimitableElement>(old(StateOf(elements)), element, pattern)] + old(undoList)
    {
      if element == null {
        return;
      }
      var state, limitVolume := Unlimited, NO_LIMIT;
      if requested == Muted {
        limitVolume := AM_MUTE;
        state := Limited;
      }
      var prevState, prev := element.GetLimit(pattern);
      undoList := [UndoItem(element, prevState, prev)] + undoList;
      element.SetLimitState(state, Limit(Absolute, limitVolume), pattern);
    }

    method UpdateAll(list: seq<LimitableElement?>, requested: Mute, ghost elements: set<LimitableElement>)
      requires undoList == [] && forall e: LimitableElement | e in list :: e in elements
      modifies this, elements
      ensures forall e | e in elements ::
                if e in list then Applied(old(e.limits), e.limits, requested, pattern) else e.limits == old(e.limits)
      ensures StateOf(elements) == MuteAll<LimitableElement>(old(StateOf(elements)), Present(list), requested, pattern)
      ensures undoList == UndoItems<LimitableElement>(old(StateOf(elements)), Present(list), requested, pattern)
    {
      hide MuteAll, UndoItems, Present, MuteOne, ItemFor;
      ghost var s0 := StateOf(elements);
      var i := 0;
      UpdateFrom(s0, list, requested, pattern);
      while i < |list|
        invariant 0 <= i <= |list|
        invariant MuteAll<LimitableElement>(StateOf(elements), Present(list[i..]), requested, pattern)
            == MuteAll<LimitableElement>(s0, Present(list), requested, pattern)
        invariant UndoItems<LimitableElement>(StateOf(elements), Present(list[i..]), requested, pattern) + undoList
                  == UndoItems<LimitableElement>(s0, Present(list), requested, pattern)
      {
        assert list[i] in list;
        UpdateStep(StateOf(elements), list, i, requested, pattern, undoList);
        UpdateLimitState(list[i], requested, elements);
        i := i + 1;
      }
      UpdateEnds(StateOf(elements), list, requested, pattern, undoList);
      UpdateStores(s0, list, requested, pattern);
    }

    method Undo(ghost elements: set<LimitableElement>)
      requires forall item | item in undoList :: item.element in elements
      modifies this, elements
      ensures StateOf(elements) == Replay<LimitableElement>(old(StateOf(elements)), old(undoList), pattern)
      ensures undoList == []
    {
      RestoreLimits(undoList, pattern, elements);
      undoList := [];
    }
  }

  method RestoreLimits(items: seq<UndoItem<LimitableElement>>, p: Pattern, ghost elements: set<LimitableElement>)
    requires forall item | item in items :: item.element in elements
    modifies elements
    ensures StateOf(elements) == Replay<LimitableElement>(old(StateOf(elements)), items, p)
  {
    ghost var s0 := StateOf(elements);
    var i := 0;
    assert items[0..] == items;
    while i < |items|
      invariant 0 <= i <= |items|
      invariant Replay<LimitableElement>(StateOf(elements), items[i..], p) == Replay<LimitableElement>(s0, items, p)
    {
      assert items[i..][1..] == items[i + 1..];
      assert items[i] in items;
      ghost var s := StateOf(elements);
      items[i].element.SetLimitState(items[i].state, items[i].limit, p);
      assert StateOf(elements) == s[items[i].element := Set(s[items[i].element], items[i].state, items[i].limit, p)];
      i := i + 1;
    }
  }

  datatype Parameter = Given(value: int) | Missing

  /** The limit that a request stands for: a volume, or else a step. */
  function Asked(state: LimitState, volume: Parameter, step: Parameter): Limit {
    if state.Limited? && volume.Given? then Limit(Absolute, volume.value)
    else if state.Limited? && step.Given? then Limit(Relative, step.value)
    else Limit(Unspecified, 0)
  }

  /** The class that is named, or else that of the named connection, the source or the sink. */
  function Addressed(named: LimitableElement?, ofConnection: LimitableElement?,
                     source: LimitableElement?, sink: LimitableElement?): LimitableElement? {
    if named != null then named
    else if ofConnection != null then ofConnection
    else if source != null then source
    else sink
  }

  /** e is the first of the candidates that was found. */
  predicate IsFirst(candidates: seq<LimitableElement?>, e: LimitableElement) {
    exists i | 0 <= i < |candidates| :: candidates[i] == e && forall j | 0 <= j < i :: candidates[j] == null
  }

  lemma AddressedIsFirst(candidates: seq<LimitableElement?>, e: LimitableElement)
    requires |candidates| == 4
    ensures IsFirst(candidates, e) <==> Addressed(candidates[0], candidates[1], candidates[2], candidates[3]) == e
  {
    assert IsFirst(candidates, e) ==> candidates[0] in [null, e];
    if Addressed(candidates[0], candidates[1], candidates[2], candidates[3]) == e {
      var i := if candidates[0] != null then 0 else if candidates[1] != null then 1
          else if candidates[2] != null then 2 else 3;
      assert candidates[i] == e;
    }
  }

  /** A given volume is stored as it is, else a given step. */
  ghost predicate Stored(was: Limits, now: Limits, state: LimitState, volume: Parameter, step: Parameter, p: Pattern) {
    if state.Limited? then
      && now.Keys == was.Keys + {p} && (forall k | k in was && k != p :: now[k] == was[k])
      && (volume.Given? ==> now[p] == Limit(Absolute, volume.value))
      && (volume.Missing? && step.Given? ==> now[p] == Limit(Relative, step.value))
      && (volume.Missing? && step.Missing? ==> now[p].kind.Unspecified?)
    else Kept(was, now, p)
  }

  lemma AskedIsStored(was: Limits, state: LimitState, volume: Parameter, step: Parameter, p: Pattern)
    requires !state.Undefined?
    ensures Stored(was, Set(was, state, Asked(state, volume, step), p), state, volume, step, p)
  {
    hide Kept, Erased;
    ErasedIsKept(was, p);
  }

  class LimitAction {
    const pattern: Pattern
    var undoList: seq<UndoItem<LimitableElement>>

    constructor (p: Pattern)
      ensures pattern == p && undoList == []
    {
      pattern := p;
      undoList := [];
    }

    /** What the parameters ask for goes to the element that they address, and to no other;
        an invalid state, or names that lead nowhere, change nothing. */
    method ApplyLimit(state: LimitState, volume: Parameter, step: Parameter, named: LimitableElement?,
                      ofConnection: LimitableElement?, source: LimitableElement?, sink: LimitableElement?,
                      ghost elements: set<LimitableElement>)
      requires forall e: LimitableElement | e in [named, ofConnection, source, sink] :: e in elements
      modifies this, elements
      ensures forall e | e in elements ::
                if !state.Undefined? && IsFirst([named, ofConnection, source, sink], e)
                then Stored(old(e.limits), e.limits, state, volume, step, pattern)
                else e.limits == old(e.limits)
      ensures var e := Addressed(named, ofConnection, source, sink);
              var s := old(StateOf(elements));
              if state.Undefined? || e == null then StateOf(elements) == s && undoList == old(undoList)
              else
                && StateOf(elements) == s[e := Set(s[e], state, Asked(state, volume, step), pattern)]
                && undoList == [ItemFor<LimitableElement>(s, e, pattern)] + old(undoList)
    {
      hide Set, Stored, IsFirst, ItemFor;
      if state == Undefined {
        return;
      }
      forall e | e in elements
        ensures IsFirst([named, ofConnection, source, sink], e) <==> Addressed(named, ofConnection, source, sink) == e
        ensures var now := Set(e.limits, state, Asked(state, volume, step), pattern);
                Stored(e.limits, now, state, volume, step, pattern)
      {
        AddressedIsFirst([named, ofConnection, source, sink], e);
        AskedIsStored(e.limits, state, volume, step, pattern);
      }
      var limit := Limit(Unspecified, 0);
      if state == Limited {
        if volume.Given? {
          limit := Limit(Absolute, volume.value);
        } else if step.Given? {
          limit := Limit(Relative, step.value);
        }
      }
      var class0 := named;
      if class0 == null {
        class0 := ofConnection;
      }
      assert named in [named, ofConnection, source, sink] && ofConnection in [named, ofConnection, source, sink];
      assert source in [named, ofConnection, source, sink] && sink in [named, ofConnection, source, sink];
      if class0 != null {
        Apply(class0, state, limit, elements);
      } else if source != null {
        Apply(source, state, limit, elements);
      } else if sink != null {
        Apply(sink, state, limit, elements);
      }
    }

    method Apply(element: LimitableElement, state: LimitState, limit: Limit, ghost elements: set<LimitableElement>)
      requires element in elements
      modifies this, element
      ensures var s := old(StateOf(elements));
              && StateOf(elements) == s[element := Set(s[element], state, limit, pattern)]
              && undoList == [ItemFor<LimitableElement>(s, element, pattern)] + old(undoList)
    {
      var prevState, prev := element.GetLimit(pattern);
      undoList := [UndoItem(element, prevState, prev)] + undoList;
      element.SetLimitState(state, limit, pattern);
    }

    /** The pattern is looked up but not passed on. */
    method Undo(ghost elements: set<LimitableElement>)
      requires forall item | item in undoList :: item.element in elements
      modifies this, elements
      ensures StateOf(elements) == Replay<LimitableElement>(old(StateOf(elements)), old(undoList), DEFAULT_PATTERN)
      ensures undoList == []
    {
      RestoreLimits(undoList, DEFAULT_PATTERN, elements);
      undoList := [];
    }
  }
}

/** Elements that observe each other (CAmElement): mutual lists of observers and subjects,
    and the search through subjects. getElement() is taken to return the element itself. */
module ElementGraph {
  import opened Sequences

  datatype Error = Ok | AlreadyExists | NotPossible

  class Element {
    const kind: nat
    const name: string
    var observers: seq<Element>
    var subjects: seq<Element>

    constructor (kind: nat, name: string)
      ensures this.kind == kind && this.name == name && observers == [] && subjects == []
    {
      this.kind, this.name := kind, name;
      observers, subjects := [], [];
    }

    /** _register() */
    method Register(observer: Element?) returns (result: Error)
      modifies this`observers
      ensures observer == null ==> result == NotPossible && observers == old(observers)
      ensures observer != null && observer in old(observers) ==> result == AlreadyExists && observers == old(observers)
      ensures observer != null && observer !in old(observers) ==>
          result == Ok && observers == old(observers) + [observer]
    {
      if observer == null {
        return NotPossible;
      }
      if observer !in observers {
        observers := observers + [observer];
        return Ok;
      }
      return AlreadyExists;
    }

    /** _deregister() */
    method Deregister(observer: Element?) returns (result: Error)
      modifies this`observers
      ensures result == Ok
      ensures observers == if observer == null then old(observers) else Erase<Element>(old(observers), observer)
    {
      if observer != null {
        var i := 0;
        while i < |observers|
          invariant 0 <= i <= |observers| && observers == old(observers)
              && forall j | 0 <= j < i :: observers[j] != observer
        {
          if observers[i] == observer {
            EraseAt<Element>(observers, observer, i);
            observers := observers[..i] + observers[i + 1..];
            return Ok;
          }
          i := i + 1;
        }
      }
      return Ok;
    }

    /** A subject that knows its observer already is also known to it, so that the list of
        subjects never has to be mended. */
    method Attach(subject: Element?, ghost elements: set<Element>) returns (result: Error)
      requires Mutual(elements) && this in elements && (subject != null ==> subject in elements)
      modifies subject, this
      ensures Mutual(elements)
      ensures subject == null ==> result == NotPossible
      ensures subject != null ==> this in subject.observers && subject in subjects && result != NotPossible
      ensures subject != null ==> (result == AlreadyExists <==> old(this in subject.observers && subject in subjects))
    {
      if subject == null {
        return NotPossible;
      }
      result := subject.Register(this);
      if result == Ok {
        subjects := subjects + [subject];
      }
    }

    method Detach(subject: Element?, ghost elements: set<Element>) returns (result: Error)
      requires Mutual(elements) && this in elements && (subject != null ==> subject in elements)
      modifies subject, this
      ensures Mutual(elements)
      ensures result == if subject == null then NotPossible else Ok
      ensures subject != null ==> this !in subject.observers
      ensures subject != null && subject != this ==> subjects == Erase<Element>(old(subjects), subject)
    {
      if subject == null {
        return NotPossible;
      }
      if subject in subjects {
        subjects := Erase<Element>(subjects, subject);
        result := subject.Deregister(this);
      } else {
        result := Ok;
      }
    }

    /** _detachAll(): nobody has this element as an observer afterwards. */
    method DetachAll(ghost elements: set<Element>)
      requires Mutual(elements) && this in elements
      modifies elements
      ensures Mutual(elements) && subjects == []
      ensures forall s | s in elements :: this !in s.observers && s.observers == Erase<Element>(old(s.observers), this)
      ensures forall s | s in elements && s != this :: s.subjects == old(s.subjects)
    {
      hide Erase, Distinct;
      while subjects != []
        invariant Mutual(elements)
        invariant forall s | s in elements ::
            s.observers == old(s.observers) || s.observers == Erase<Element>(old(s.observers), this)
        invariant forall s | s in elements && s != this :: s.subjects == old(s.subjects)
        decreases |subjects|
      {
        DropFirst(elements);
      }
      forall s | s in elements ensures this !in s.observers && s.observers == Erase<Element>(old(s.observers), this) {
        EraseAbsent<Element>(s.observers, this);
        EraseAbsent<Element>(old(s.observers), this);
      }
    }

    method DropFirst(ghost elements: set<Element>)
      requires Mutual(elements) && this in elements && subjects != []
      modifies elements
      ensures Mutual(elements) && subjects == old(subjects)[1..]
      ensures forall s | s in elements ::
                s.observers ==
                    if s == old(subjects)[0] then Erase<Element>(old(s.observers), this) else old(s.observers)
      ensures forall s | s in elements && s != this :: s.subjects == old(s.subjects)
    {
      var subject := subjects[0];
      assert subject in subjects;
      var result := subject.Deregister(this);
      assert forall s | s in subjects :: s == subject || s in subjects[1..];
      subjects := subjects[1..];
    }

    /** removeObservers(): the observers keep this element among their subjects. */
    method RemoveObservers(ghost elements: set<Element>)
      requires Mutual(elements) && this in elements
      modifies this`observers
      ensures Mutual(elements) && observers == []
    {
      while observers != []
        invariant Mutual(elements)
        decreases |observers|
      {
        assert observers[0] in observers;
        var result := Deregister(observers[0]);
      }
    }
  }

  /** The elements know only each other; no observer is listed twice; whoever is listed as
      an observer of s has s among its subjects. */
  ghost predicate Mutual(elements: set<Element>)
    reads elements
  {
    && (forall e | e in elements :: forall x | x in e.observers :: x in elements)
    && (forall e | e in elements :: forall x | x in e.subjects :: x in elements)
    && (forall e | e in elements :: Distinct(e.observers))
    && (forall s | s in elements :: forall o | o in s.observers :: s in o.subjects)
  }

  // ------------------------------------------------------ searching through subjects

  type Net = map<Element, seq<Element>>

  /** The subjects of all elements. */
  ghost predicate Shows(net: Net)
    reads net.Keys
  {
    forall e | e in net :: net[e] == e.subjects
  }

  /** A rank that falls from each element to its subjects: there are no cycles. */
  predicate Ranked(net: Net, rank: map<Element, nat>) {
    && rank.Keys == net.Keys
    && forall e | e in net :: forall s | s in net[e] :: s in net && rank[s] < rank[e]
  }

  /** Everything below e, through subjects and their subjects. */
  ghost function Below(e: Element, net: Net, rank: map<Element, nat>): (r: set<Element>)
    requires Ranked(net, rank) && e in net
    ensures r <= net.Keys
    decreases rank[e], |net[e]| + 1
  {
    BelowAny(net[e], rank[e], net, rank)
  }

  ghost function BelowAny(ss: seq<Element>, bound: nat, net: Net, rank: map<Element, nat>): (r: set<Element>)
    requires Ranked(net, rank) && forall s | s in ss :: s in net && rank[s] < bound
    ensures r <= net.Keys
    decreases bound, |ss|
  {
    if ss == [] then {} else {ss[0]} + Below(ss[0], net, rank) + BelowAny(ss[1..], bound, net, rank)
  }

  /** A chain of subjects. */
  ghost predicate Path(p: seq<Element>, net: Net)
  {
    && p != [] && (forall i | 0 <= i < |p| :: p[i] in net)
    && forall i | 0 <= i < |p| - 1 :: p[i + 1] in net[p[i]]
  }

  lemma {:induction false} BelowAnyHas(ss: seq<Element>, bound: nat, net: Net, rank: map<Element, nat>, s: Element)
    requires Ranked(net, rank) && (forall x | x in ss :: x in net && rank[x] < bound) && s in ss
    ensures s in BelowAny(ss, bound, net, rank) && Below(s, net, rank) <= BelowAny(ss, bound, net, rank)
    decreases |ss|
  {
    if s != ss[0] { BelowAnyHas(ss[1..], bound, net, rank, s); }
  }

  /** Whatever a chain of subjects leads to is below its start. */
  lemma {:induction false} PathLeadsBelow(p: seq<Element>, net: Net, rank: map<Element, nat>)
    requires Ranked(net, rank) && Path(p, net) && |p| > 1
    ensures p[|p| - 1] in Below(p[0], net, rank)
    decreases |p|
  {
    assert p[0 + 1] in net[p[0]];
    BelowAnyHas(net[p[0]], rank[p[0]], net, rank, p[1]);
    if |p| > 2 {
      var q := p[1..];
      forall i | 0 <= i < |q| - 1 ensures q[i + 1] in net[q[i]] { assert p[i + 2] in net[p[i + 1]]; }
      PathLeadsBelow(q, net, rank);
    }
  }

  /** Whatever is below an element is the end of a chain of subjects. */
  lemma {:induction false} BelowHasPath(e: Element, net: Net, rank: map<Element, nat>, x: Element)
      returns (p: seq<Element>)
    requires Ranked(net, rank) && e in net && x in Below(e, net, rank)
    ensures Path(p, net) && |p| > 1 && p[0] == e && p[|p| - 1] == x
    decreases rank[e], |net[e]| + 1
  {
    var s, q := BelowAnyHasPath(net[e], rank[e], net, rank, x);
    p := [e] + q;
    forall i | 0 <= i < |p| - 1 ensures p[i + 1] in net[p[i]] { if i > 0 { assert q[i - 1 + 1] in net[q[i - 1]]; } }
  }

  lemma {:induction false} BelowAnyHasPath(ss: seq<Element>, bound: nat, net: Net, rank: map<Element, nat>, x: Element)
    returns (s: Element, q: seq<Element>)
    requires Ranked(net, rank) && (forall y | y in ss :: y in net && rank[y] < bound)
    requires x in BelowAny(ss, bound, net, rank)
    ensures s in ss && Path(q, net) && q[0] == s && q[|q| - 1] == x
    decreases bound, |ss|
  {
    if x == ss[0] {
      s, q := x, [x];
    } else if x in Below(ss[0], net, rank) {
      s := ss[0];
      q := BelowHasPath(s, net, rank, x);
    } else {
      s, q := BelowAnyHasPath(ss[1..], bound, net, rank, x);
    }
  }

  lemma BelowAnyStep(ss: seq<Element>, i: nat, bound: nat, net: Net, rank: map<Element, nat>)
    requires Ranked(net, rank) && (forall s | s in ss :: s in net && rank[s] < bound) && i < |ss|
    ensures (forall s | s in ss[i..] :: s in ss) && forall s | s in ss[i + 1..] :: s in ss
    ensures ss[i] in ss
    ensures BelowAny(ss[i..], bound, net, rank)
            == {ss[i]} + Below(ss[i], net, rank) + BelowAny(ss[i + 1..], bound, net, rank)
  {
    assert ss[i..][1..] == ss[i + 1..];
  }

  lemma BelowIsAny(e: Element, net: Net, rank: map<Element, nat>)
    requires Ranked(net, rank) && e in net
    ensures Below(e, net, rank) == BelowAny(net[e], rank[e], net, rank)
  {
  }

  /** The list has only grown, and not by what it had already. */
  predicate Extends(list: seq<Element>, r: seq<Element>) {
    list <= r && (Distinct(list) ==> Distinct(r))
  }

  lemma ExtendsTwice(a: seq<Element>, b: seq<Element>, c: seq<Element>)
    requires Extends(a, b) && Extends(b, c)
    ensures Extends(a, c) && forall x | x in b :: x in c
  {
  }

  method AddOnce(filter: Element -> bool, s: Element, list: seq<Element>) returns (r: seq<Element>)
    ensures Extends(list, r)
    ensures forall x :: x in r <==> x in list || (x == s && filter(s))
  {
    r := list;
    if filter(s) && s !in r {
      r := r + [s];
    }
  }

  /** getListElements(): adds each matching element that can be reached through subjects,
      once; what the list held before stays in front. */
  method GetListElements(e: Element, filter: Element -> bool, list: seq<Element>,
      ghost net: Net, ghost rank: map<Element, nat>)
    returns (r: seq<Element>)
    requires Shows(net) && Ranked(net, rank) && e in net
    ensures Extends(list, r)
    ensures forall x | x in r :: x in list || (filter(x) && x in Below(e, net, rank))
    ensures forall x | x in Below(e, net, rank) && filter(x) :: x in r
    decreases rank[e]
  {
    hide Extends;
    r := list;
    var i := 0;
    assert e.subjects[0..] == e.subjects;
    ExtendsItself(list);
    BelowIsAny(e, net, rank);
    while i < |e.subjects|
      modifies {}
      invariant 0 <= i <= |e.subjects| && Extends(list, r)
      invariant forall x | x in r :: x in list || (filter(x) && x in Below(e, net, rank))
      invariant forall s | s in e.subjects[i..] :: s in net && rank[s] < rank[e]
      invariant forall x | x in Below(e, net, rank) && filter(x) ::
          x in r || x in BelowAny(e.subjects[i..], rank[e], net, rank)
    {
      hide Below, BelowAny;
      var s := e.subjects[i];
      BelowAnyStep(e.subjects, i, rank[e], net, rank);
      BelowAnyHas(e.subjects, rank[e], net, rank, s);
      var r1 := AddOnce(filter, s, r);
      var r2 := GetListElements(s, filter, r1, net, rank);
      ExtendsTwice(r, r1, r2);
      ExtendsTwice(list, r, r2);
      r := r2;
      i := i + 1;
    }
  }

  lemma ExtendsItself(list: seq<Element>)
    ensures Extends(list, list)
  {
  }
}

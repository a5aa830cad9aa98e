/** Rolling back: which leaves undo() visits, in what order, and which it misses. */
module ActionRollback {
  import opened ActionTree
  import opened ActionInvariant

  /** The leaves that a rollback has still to visit, in the order in which it will. */
  function Pending(t: Action): seq<nat>
    decreases t
  {
    match t
    case Leaf(c) => if c.status.Completed? && c.error == 0 then [c.id] else []
    case Node(n) => if Undoable(t) then AllPending(n.children) else []
  }

  function AllPending(ts: seq<Action>): seq<nat>
    decreases ts
  {
    if ts == [] then [] else AllPending(ts[1..]) + Pending(ts[0])
  }

  /** The leaves below a container on which its parent gave up while it was executing. */
  function Lost(t: Action): seq<nat>
    decreases t
  {
    match t
    case Leaf(_) => []
    case Node(n) => if n.status.Executing? then Done(t) else AllLost(n.children)
  }

  function AllLost(ts: seq<Action>): seq<nat>
    decreases ts
  {
    if ts == [] then [] else Lost(ts[0]) + AllLost(ts[1..])
  }

  function Reverse(s: seq<nat>): seq<nat> {
    if s == [] then [] else Reverse(s[1..]) + [s[0]]
  }

  lemma ReverseConcat(a: seq<nat>, b: seq<nat>)
    ensures Reverse(a + b) == Reverse(b) + Reverse(a)
  {
    if a == [] {
      assert a + b == b;
    } else {
      assert (a + b)[1..] == a[1..] + b;
      ReverseConcat(a[1..], b);
    }
  }

  lemma NoTail(s: seq<nat>)
    ensures s + [] == s
  {
  }

  lemma NoHead(s: seq<nat>)
    ensures [] + s == s
  {
  }

  lemma Associates(a: seq<nat>, b: seq<nat>, c: seq<nat>)
    ensures (a + b) + c == a + (b + c)
  {
  }

  // ------------------------------------------------------ sequences of children

  lemma PendingConcat(a: seq<Action>, b: seq<Action>)
    ensures AllPending(a + b) == AllPending(b) + AllPending(a)
    ensures AllLost(a + b) == AllLost(a) + AllLost(b)
  {
    if a == [] {
      assert a + b == b;
    } else {
      assert (a + b)[1..] == a[1..] + b;
      PendingConcat(a[1..], b);
    }
  }

  lemma PendingAt(ts: seq<Action>, i: nat)
    requires i < |ts|
    ensures AllPending(ts) == AllPending(ts[i + 1..]) + Pending(ts[i]) + AllPending(ts[..i])
    ensures AllLost(ts) == AllLost(ts[..i]) + Lost(ts[i]) + AllLost(ts[i + 1..])
  {
    assert ts == ts[..i] + ts[i..];
    PendingConcat(ts[..i], ts[i..]);
    assert ts[i..][1..] == ts[i + 1..];
  }

  lemma PendingUpdate(ts: seq<Action>, i: nat, c: Action)
    requires i < |ts|
    ensures var us := ts[i := c];
            && AllPending(us) == AllPending(ts[i + 1..]) + Pending(c) + AllPending(ts[..i])
            && (Lost(c) == Lost(ts[i]) ==> AllLost(us) == AllLost(ts))
  {
    var us := ts[i := c];
    assert us[..i] == ts[..i] && us[i + 1..] == ts[i + 1..];
    PendingAt(ts, i);
    PendingAt(us, i);
  }

  lemma NonePending(ts: seq<Action>)
    requires forall i | 0 <= i < |ts| :: Pending(ts[i]) == []
    ensures AllPending(ts) == []
  {
    if ts != [] {
      NonePending(ts[1..]);
    }
  }

  lemma RetiredPending(t: Action)
    requires Retired(t)
    ensures Pending(t) == []
  {
  }

  // ------------------------------------------------------ one undo()

  /** What undo() leaves behind: the leaves it visited were the next in line, nothing was
      lost on the way, and it returns only when a leaf waits or everything is undone. */
  predicate Unwound(t: Action, r: Outcome<Action>) {
    && WF(r.state)
    && r.state.Node? == t.Node?
    && r.state.Timeout() == t.Timeout()
    && Pending(t) == r.log + Pending(r.state)
    && Lost(r.state) == Lost(t)
    && (r.state.Status().Undoing? || r.state.Status().UndoComplete?)
    && (r.state.Status().Undoing? ==> r.note.Silent? && Waits(r.state) == 1)
  }

  /** The state of a container between two turns of the undo loop. */
  predicate Unwinding(n: Container) {
    && n.status.Undoing? && n.planned == [] && -1 <= n.index < |n.children|
    && (forall i | 0 <= i < |n.children| :: WF(n.children[i]))
    && (forall i | 0 <= i < |n.children| && i < n.index :: Succeeded(n.children[i]))
    && (n.index >= 0 ==>
          Undoable(n.children[n.index]) || n.children[n.index].Status().UndoComplete? || Retires(n, n.index))
    && (forall i | n.index < i < |n.children| :: Retires(n, i))
  }

  lemma RightOfIndex(n: Container)
    requires n.index >= -1 && n.index < |n.children|
    requires forall i | n.index < i < |n.children| :: Retires(n, i)
    ensures AllPending(n.children[n.index + 1..]) == []
  {
    var b := n.children[n.index + 1..];
    forall k | 0 <= k < |b| ensures Pending(b[k]) == [] {
      assert Retires(n, n.index + 1 + k);
      RetiredPending(b[k]);
    }
    NonePending(b);
  }

  lemma UndoFinishedShape(n: Container)
    requires Unwinding(n) && n.index < 0
    ensures WF(Node(n.(status := UndoComplete)))
  {
    var n1 := n.(status := UndoComplete);
    forall i | 0 <= i < |n1.children| ensures Retires(n1, i) { assert Retires(n, i); }
    assert Shape(n1);
  }

  lemma UndoFinished(n: Container)
    requires Unwinding(n) && n.index < 0
    ensures Unwound(Node(n), AsNode(SelfUpdate(n, n.error)))
  {
    hide WF, AllPending, AllLost, Retires;
    UndoFinishedShape(n);
    RightOfIndex(n);
    assert n.children[0..] == n.children;
    assert UpdateNode(n, n.error) == (n.(status := UndoComplete), Told(n.error));
  }

  /** The loop passes over a child that has nothing to undo. */
  lemma UndoSkips(n: Container)
    requires Unwinding(n) && n.index >= 0 && !Undoable(n.children[n.index])
    ensures var n1 := n.(index := n.index - 1);
            Unwinding(n1) && Pending(Node(n1)) == Pending(Node(n)) && Lost(Node(n1)) == Lost(Node(n))
  {
    var n1 := n.(index := n.index - 1);
    forall i | n1.index < i < |n1.children| ensures Retires(n1, i) {
      assert i > n.index ==> Retires(n, i);
      assert i == n.index ==> Retires(n, n.index) || n.children[i].Status().UndoComplete?;
    }
  }

  lemma UndoneInPlace(n: Container, c: Action)
    requires n.status.Undoing? && 0 <= n.index < |n.children| && AllPending(n.children[n.index + 1..]) == []
    requires Lost(c) == Lost(n.children[n.index])
    ensures var cs := n.children[n.index := c];
            && AllPending(n.children) == Pending(n.children[n.index]) + AllPending(n.children[..n.index])
            && AllPending(cs) == Pending(c) + AllPending(n.children[..n.index])
            && AllLost(cs) == AllLost(n.children)
  {
    PendingAt(n.children, n.index);
    PendingUpdate(n.children, n.index, c);
  }

  /** The current child was told to undo; its container heard of it. */
  lemma ChildUnwound(n: Container, r: Outcome<Action>)
    requires Unwinding(n) && n.index >= 0
    requires Unwound(n.children[n.index], r)
    ensures var (n1, note) := Resume(n, r);
            && note.Silent? && n1.index == n.index && n1.status.Undoing?
            && n1.timeout == n.timeout && n1.children == n.children[n.index := r.state] && n1.planned == []
    ensures AllPending(n.children) == r.log + AllPending(n.children[n.index := r.state])
    ensures AllLost(n.children[n.index := r.state]) == AllLost(n.children)
  {
    RightOfIndex(n);
    UndoneInPlace(n, r.state);
    Associates(r.log, Pending(r.state), AllPending(n.children[..n.index]));
  }

  lemma ChildStillUnwinds(n: Container, r: Outcome<Action>)
    requires Unwinding(n) && n.index >= 0 && Undoable(n.children[n.index])
    requires Unwound(n.children[n.index], r) && !r.state.Status().UndoComplete?
    ensures var (n1, note) := Resume(n, r); Unwound(Node(n), Outcome(Node(n1), note, r.log))
  {
    ChildUnwound(n, r);
    var n1 := Resume(n, r).0;
    forall i | n1.index < i < |n1.children| ensures Retires(n1, i) { assert Retires(n, i); }
    assert Shape(n1);
    WaitsAtIndex(n1);
  }

  lemma ChildUndone(n: Container, r: Outcome<Action>)
    requires Unwinding(n) && n.index >= 0 && Undoable(n.children[n.index])
    requires Unwound(n.children[n.index], r) && r.state.Status().UndoComplete?
    ensures var n1 := Resume(n, r).0.(index := n.index - 1);
            Unwinding(n1) && Pending(Node(n)) == r.log + Pending(Node(n1)) && Lost(Node(n1)) == Lost(Node(n))
  {
    ChildUnwound(n, r);
    var n1 := Resume(n, r).0.(index := n.index - 1);
    forall i | n1.index < i < |n1.children| ensures Retires(n1, i) {
      assert i > n.index ==> Retires(n, i);
    }
  }

  /** A container at rest that was told to undo enters the loop, unless it is empty. */
  function UndoStart(n: Container): Container {
    var n1 := if n.status.Undoing? then n
              else n.(error := if n.undoRequired then n.undoResult else n.error, status := Undoing);
    n1.(index := if n.index < 0 || n.index >= |n.children| then |n.children| - 1 else n.index)
  }

  lemma UndoEnters(n: Container)
    requires WF(Node(n)) && Undoable(Node(n)) && n.children != []
    ensures Unwinding(UndoStart(n))
    ensures Pending(Node(UndoStart(n))) == Pending(Node(n)) && Lost(Node(UndoStart(n))) == Lost(Node(n))
  {
    var n2 := UndoStart(n);
    forall i | n2.index < i < |n2.children| ensures Retires(n2, i) {
      assert n.status.Undoing? ==> Retires(n, i);
    }
    var c := n2.children[n2.index];
    assert Undoable(c) || c.Status().UndoComplete? || Retires(n2, n2.index);
  }

  lemma StartSize(n: Container)
    requires n.children != [] && n.index >= -1
    ensures UndoStart(n).children == n.children && UndoStart(n).planned == n.planned
    ensures 0 <= UndoStart(n).index < |n.children|
    ensures UndoStart(n).timeout == n.timeout
  {
  }

  lemma UndoIsLoop(n: Container)
    requires WF(Node(n)) && Undoable(Node(n)) && n.children != []
    ensures UndoContainer(n) == UndoLoop(UndoStart(n))
  {
    hide UndoLoop, WF, SizeAll;
    assert UndoContainer(n) == UndoFrom(UndoStart(n).(index := n.index));
  }

  lemma EmptyUndone(n: Container)
    requires WF(Node(n)) && Undoable(Node(n)) && n.children == []
    ensures Unwound(Node(n), AsNode(UndoContainer(n)))
  {
    assert UndoContainer(n).state.status.UndoComplete?;
    assert Shape(UndoContainer(n).state);
  }

  /** A leaf waits in undo() if and only if an undo is required and not done at once; else
      it tells the result at once. */
  lemma CommandUnwinds(c: Command)
    requires CommandShape(c) && Undoable(Leaf(c))
    ensures Unwound(Leaf(c), Undo(Leaf(c)))
    ensures c.status.Completed? ==>
              var r, e := Undo(Leaf(c)), if c.undoRequired then c.undoResult else c.error;
              && (r.state.Status().Undoing? <==> e < 0) && r.state.Error() == e
              && r.note == if e < 0 then Silent else Told(e)
  {
  }

  /** undo() keeps the invariant; it visits the next leaves in line, from the last that
      succeeded back to the first. */
  lemma {:induction false} UndoUnwinds(t: Action)
    requires WF(t) && Undoable(t)
    ensures Unwound(t, Undo(t))
    decreases Size(t), 2
  {
    match t
    case Leaf(c) => CommandUnwinds(c);
    case Node(n) =>
      if n.children == [] {
        EmptyUndone(n);
      } else {
        hide UndoContainer, UndoLoop, AllPending, AllLost, Unwinding, UndoStart;
        UndoEnters(n);
        UndoIsLoop(n);
        StartSize(n);
        SizeAllAt(n.children, UndoStart(n).index);
        UndoLoopUnwinds(UndoStart(n));
        UnwoundFrom(Node(n), Node(UndoStart(n)), [], AsNode(UndoContainer(n)));
      }
  }

  lemma UnwoundFrom(t: Action, u: Action, log: seq<nat>, r: Outcome<Action>)
    requires Unwound(u, r) && u.Node? == t.Node? && u.Timeout() == t.Timeout()
    requires Pending(t) == log + Pending(u) && Lost(u) == Lost(t)
    ensures Unwound(t, Outcome(r.state, r.note, log + r.log))
  {
    Associates(log, r.log, Pending(r.state));
  }

  lemma SkippedUnwinds(n: Container)
    requires Unwinding(n) && n.index >= 0 && !Undoable(n.children[n.index])
    requires Unwound(Node(n.(index := n.index - 1)), AsNode(UndoLoop(n.(index := n.index - 1))))
    ensures Unwound(Node(n), AsNode(UndoLoop(n)))
  {
    UndoSkips(n);
  }

  lemma UnwindingChild(n: Container)
    requires Unwinding(n)
    ensures -1 <= n.index < |n.children| && (n.index >= 0 ==> WF(n.children[n.index]))
  {
  }

  lemma {:induction false} UndoLoopUnwinds(n: Container)
    requires Unwinding(n)
    ensures Unwound(Node(n), AsNode(UndoLoop(n)))
    decreases if n.index >= 0 then SizeAll(n.children[..n.index + 1]) else 0, 1
  {
    hide Unwinding, Unwound, UndoLoop, Undo, Pending, Lost, WF;
    UnwindingChild(n);
    if n.index < 0 {
      UndoFinished(n);
      FinishedLoop(n);
    } else {
      SizeAllAt(n.children, n.index);
      if !Undoable(n.children[n.index]) {
        UndoSkips(n);
        UndoLoopUnwinds(n.(index := n.index - 1));
        SkippedUnwinds(n);
      } else {
        var r := Undo(n.children[n.index]);
        UndoUnwinds(n.children[n.index]);
        UndoTurn(n, r);
        if r.state.Status().UndoComplete? {
          var n1 := UndoNext(n);
          UndoLoopUnwinds(n1);
          UnwoundFrom(Node(n), Node(n1), r.log, AsNode(UndoLoop(n1)));
        }
      }
    }
  }

  lemma FinishedLoop(n: Container)
    requires n.index < 0
    ensures UndoLoop(n) == SelfUpdate(n, n.error)
  {
  }

  function UndoNext(n: Container): Container
    requires 0 <= n.index < |n.children|
  {
    Resume(n, Undo(n.children[n.index])).0.(index := n.index - 1)
  }

  lemma UndoTurn(n: Container, r: Outcome<Action>)
    requires Unwinding(n) && n.index >= 0 && Undoable(n.children[n.index])
    requires r == Undo(n.children[n.index]) && Unwound(n.children[n.index], r)
    ensures if r.state.Status().UndoComplete? then
              var n1 := UndoNext(n);
              && Unwinding(n1) && n1.timeout == n.timeout && n1.children[..n.index] == n.children[..n.index]
              && Pending(Node(n)) == r.log + Pending(Node(n1)) && Lost(Node(n1)) == Lost(Node(n))
              && UndoLoop(n) == Outcome(UndoLoop(n1).state, UndoLoop(n1).note, r.log + UndoLoop(n1).log)
            else Unwound(Node(n), AsNode(UndoLoop(n)))
  {
    ChildUnwound(n, r);
    if r.state.Status().UndoComplete? {
      ChildUndone(n, r);
    } else {
      ChildStillUnwinds(n, r);
    }
  }

  // ------------------------------------------------------ acknowledgements

  /** An acknowledgement while executing: the waiting leaf completes, with or without
      error, and nobody waits any more. */
  lemma {:induction false} DeliverRan(t: Action, r: nat, ms: nat)
    requires WF(t) && t.Status().Executing? && Waits(t) == 1
    ensures Ran(t, Deliver(t, r, ms)) && Waits(Deliver(t, r, ms).state) == 0
    decreases t
  {
    match t
    case Leaf(_) =>
    case Node(n) =>
      var c := n.children[n.index];
      assert Waits(c) == 1 by { WaitsAtIndex(n); }
      assert c.Status().Executing? by { if c.Status().NotStarted? { RestingWaits(c); } }
      DeliverRan(c, r, ms);
      var d := Deliver(c, r, ms);
      ChildRan(n, c, d);
      ChildRanShape(n, c, d);
      var n2 := Resume(n, d).0;
      if !n2.status.Executing? { RestingWaits(Node(n2)); }
  }

  /** An acknowledgement while undoing, whatever its result: the leaf is undone. */
  predicate Acked(t: Action, r: Outcome<Action>) {
    && WF(r.state) && r.state.Node? == t.Node? && r.state.Timeout() == t.Timeout()
    && Pending(r.state) == Pending(t) && Lost(r.state) == Lost(t) && r.log == []
    && Waits(r.state) == 0
    && (if t.Leaf? then r.state.Status().UndoComplete? else r.state.Status().Undoing? && r.note.Silent?)
  }

  lemma {:induction false} DeliverAcks(t: Action, r: nat, ms: nat)
    requires WF(t) && t.Status().Undoing? && Waits(t) == 1
    ensures Acked(t, Deliver(t, r, ms))
    ensures t.Leaf? ==> Deliver(t, r, ms).state.Error() == r && Deliver(t, r, ms).note == Told(r)
    ensures t.Node? && t.n.children[t.n.index].Leaf? ==> Deliver(t, r, ms).state.Error() == r
    decreases t
  {
    match t
    case Leaf(_) =>
    case Node(n) =>
      assert Waits(n.children[n.index]) == 1 by { WaitsAtIndex(n); }
      DeliverAcks(n.children[n.index], r, ms);
      ChildAcked(n, Deliver(n.children[n.index], r, ms));
  }

  lemma PendingKept(ts: seq<Action>, i: nat, c: Action)
    requires i < |ts| && Pending(c) == Pending(ts[i]) && Lost(c) == Lost(ts[i])
    ensures AllPending(ts[i := c]) == AllPending(ts) && AllLost(ts[i := c]) == AllLost(ts)
  {
    PendingAt(ts, i);
    PendingUpdate(ts, i, c);
  }

  lemma ChildAcked(n: Container, d: Outcome<Action>)
    requires WF(Node(n)) && n.status.Undoing? && Acked(n.children[n.index], d)
    ensures var (n1, note) := Resume(n, d); Acked(Node(n), Outcome(Node(n1), note, d.log))
  {
    var n1 := Resume(n, d).0;
    ChildAckedShape(n, d);
    PendingKept(n.children, n.index, d.state);
    WaitsAtIndex(n1);
  }

  lemma ChildAckedShape(n: Container, d: Outcome<Action>)
    requires WF(Node(n)) && n.status.Undoing? && Acked(n.children[n.index], d)
    ensures var (n1, note) := Resume(n, d);
            && WF(Node(n1)) && n1.status.Undoing? && n1.timeout == n.timeout && n1.index == n.index && note.Silent?
            && n1.children == n.children[n.index := d.state]
  {
    var n1 := Resume(n, d).0;
    forall i | n1.index < i < |n1.children| ensures Retires(n1, i) { assert Retires(n, i); }
    assert Shape(n1);
  }

  /** Nobody waits: an acknowledgement finds nobody. */
  lemma {:induction false} DeliverNobody(t: Action, r: nat, ms: nat)
    requires WF(t) && Waits(t) == 0
    ensures Idle(t, Deliver(t, r, ms))
    decreases t
  {
    match t
    case Leaf(_) =>
    case Node(n) =>
      if n.status.Executing? || n.status.Undoing? {
        assert Waits(n.children[n.index]) == 0 by { WaitsAtIndex(n); }
        DeliverNobody(n.children[n.index], r, ms);
        assert n.children[n.index := n.children[n.index]] == n.children;
      }
  }

  // ------------------------------------------------------ what a rollback covers

  predicate Splits(t: Action) {
    Done(t) == Reverse(Pending(t)) + Lost(t)
  }

  /** When a tree has stopped, the leaves that had succeeded are those a rollback will
      visit, in reverse, followed by those it will miss. */
  lemma {:induction false} StoppedSplits(t: Action)
    requires WF(t) && (Succeeded(t) || t.Status().ErrorStopped?)
    ensures Splits(t) && (Succeeded(t) ==> Lost(t) == [])
    decreases t, 1
  {
    match t
    case Leaf(_) =>
    case Node(n) =>
      PrefixSplits(n.children, if n.index < |n.children| then n.index else |n.children|);
  }

  lemma {:induction false} PrefixSplits(ts: seq<Action>, k: nat)
    requires k <= |ts|
    requires forall i | 0 <= i < |ts| :: WF(ts[i])
    requires forall i | 0 <= i < k :: Succeeded(ts[i])
    requires k < |ts| ==> var c := ts[k];
               c.Status().NotStarted? || FailedLeaf(c) || c.Status().ErrorStopped? || Abandoned(c)
    requires forall i | k < i < |ts| :: ts[i].Status().NotStarted?
    ensures AllDone(ts) == Reverse(AllPending(ts)) + AllLost(ts)
    ensures k == |ts| ==> AllLost(ts) == []
    decreases ts, 0
  {
    if k > 0 {
      StoppedSplits(ts[0]);
      PrefixSplits(ts[1..], k - 1);
      assert Done(ts[0]) == Reverse(Pending(ts[0])) by { NoTail(Reverse(Pending(ts[0]))); }
      JoinSplits(Done(ts[0]), Pending(ts[0]), AllDone(ts[1..]), AllPending(ts[1..]), AllLost(ts[1..]));
      assert AllLost(ts) == AllLost(ts[1..]) by { NoHead(AllLost(ts[1..])); }
    } else if ts != [] {
      AllFreshQuiet(ts[1..]);
      assert AllPending(ts) == Pending(ts[0]) && AllLost(ts) == Lost(ts[0]) && AllDone(ts) == Done(ts[0]);
      StopperSplits(ts[0]);
    }
  }

  lemma JoinSplits(d0: seq<nat>, p0: seq<nat>, d: seq<nat>, p: seq<nat>, l: seq<nat>)
    requires d0 == Reverse(p0) && d == Reverse(p) + l
    ensures d0 + d == Reverse(p + p0) + l
  {
    ReverseConcat(p, p0);
    assert d0 + (Reverse(p) + l) == (d0 + Reverse(p)) + l;
  }

  lemma {:induction false} StopperSplits(c: Action)
    requires WF(c)
    requires c.Status().NotStarted? || FailedLeaf(c) || c.Status().ErrorStopped? || Abandoned(c)
    ensures Splits(c)
    decreases c, 2
  {
    if c.Status().ErrorStopped? { StoppedSplits(c); }
    else if c.Status().NotStarted? { FreshQuiet(c); }
  }

  lemma {:induction false} FreshQuiet(t: Action)
    requires WF(t) && t.Status().NotStarted?
    ensures Pending(t) == [] && Lost(t) == [] && Done(t) == []
    decreases t, 1
  {
    FreshFacts(t);
    match t
    case Leaf(_) =>
    case Node(n) =>
      forall i | 0 <= i < |n.children| ensures WF(n.children[i]) && n.children[i].Status().NotStarted? {
        FreshFacts(n.children[i]);
      }
      AllFreshQuiet(n.children);
  }

  lemma {:induction false} AllFreshQuiet(ts: seq<Action>)
    requires forall i | 0 <= i < |ts| :: WF(ts[i]) && ts[i].Status().NotStarted?
    ensures AllPending(ts) == [] && AllLost(ts) == [] && AllDone(ts) == []
    decreases ts, 0
  {
    if ts != [] {
      FreshQuiet(ts[0]);
      AllFreshQuiet(ts[1..]);
    }
  }

  /** After the rollback, exactly the missed leaves still stand as completed. */
  lemma {:induction false} UndoneLeaves(t: Action)
    requires WF(t) && (t.Status().UndoComplete? || FailedLeaf(t))
    ensures Done(t) == Lost(t)
    decreases t, 1
  {
    match t
    case Leaf(_) =>
    case Node(n) =>
      forall i | 0 <= i < |n.children| ensures Retired(n.children[i]) { assert Retires(n, i); }
      RetiredLeaves(n.children);
  }

  lemma {:induction false} RetiredLeaves(ts: seq<Action>)
    requires forall i | 0 <= i < |ts| :: WF(ts[i]) && Retired(ts[i])
    ensures AllDone(ts) == AllLost(ts)
    decreases ts, 0
  {
    if ts != [] {
      var c := ts[0];
      if c.Status().NotStarted? { FreshQuiet(c); }
      else if c.Status().UndoComplete? || FailedLeaf(c) { UndoneLeaves(c); }
      RetiredLeaves(ts[1..]);
    }
  }

  // ------------------------------------------------------ the loop, turn by turn

  /** One turn of the loop of undo(); the flag says whether there is another. */
  function UndoOnce(n: Container): (Container, bool)
    requires 0 <= n.index < |n.children|
  {
    if !Undoable(n.children[n.index]) then (n.(index := n.index - 1), true)
    else
      var r := Undo(n.children[n.index]);
      var n1 := Resume(n, r).0;
      if r.state.Status().UndoComplete? then (n1.(index := n.index - 1), true) else (n1, false)
  }

  lemma UndoTurns(n: Container)
    requires n.status.Undoing? && 0 <= n.index < |n.children|
    ensures var (n2, again) := UndoOnce(n);
            && n2.status.Undoing? && |n2.children| == |n.children|
            && if again then
                 n2.index == n.index - 1 && UndoLoop(n).state == UndoLoop(n2).state
                 && UndoLoop(n).note == UndoLoop(n2).note
               else n2.index == n.index && UndoLoop(n).state == n2 && UndoLoop(n).note.Silent?
  {
  }

  predicate Stopped(n: Container) {
    n.status.ErrorStopped? || (n.status.Completed? && n.error == 0)
  }

  function OwnUndo(n: Container): int {
    if n.undoRequired then n.undoResult else n.error
  }

  /** What undo() makes of a stopped container before its loop. */
  function UndoOwn(n: Container): Container {
    if Stopped(n) then n.(error := OwnUndo(n), status := if |n.children| > 0 then Undoing else UndoComplete)
    else n
  }

  lemma UndoOfEmpty(n: Container)
    requires Stopped(n) && |n.children| == 0
    ensures UndoContainer(n).state == UndoOwn(n) && UndoContainer(n).note.Silent?
  {
  }

  lemma UndoFromStart(n: Container)
    requires n.status.Undoing?
    ensures UndoFrom(n) == UndoLoop(UndoStart(n))
  {
    hide UndoLoop, SizeAll;
  }

  lemma UndoIsFrom(n: Container)
    requires UndoOwn(n).status.Undoing?
    ensures UndoContainer(n) == UndoFrom(UndoOwn(n)) && UndoStart(UndoOwn(n)) == UndoStart(n)
  {
    hide UndoFrom, SizeAll;
  }

  lemma UndoOfOthers(n: Container)
    requires UndoOwn(n).status.Undoing?
    ensures UndoStart(n).status.Undoing? && UndoStart(n).index < |n.children|
    ensures UndoContainer(n).state == UndoLoop(UndoStart(n)).state
    ensures UndoContainer(n).note == UndoLoop(UndoStart(n)).note
  {
    hide UndoLoop, UndoFrom, UndoContainer, SizeAll;
    UndoIsFrom(n);
    UndoFromStart(UndoOwn(n));
  }

  lemma UndoOfNone(n: Container)
    requires !Stopped(n) && !n.status.Undoing?
    ensures UndoContainer(n).state == n && UndoContainer(n).note.Silent?
  {
  }
}

/** What every call keeps: the shape of a tree at rest, and what a call reports. */
module ActionInvariant {
  import opened ActionTree

  // ------------------------------------------------------ readings of a tree

  /** How many leaves wait for an acknowledgement. */
  function Waits(t: Action): nat
    decreases t
  {
    match t
    case Leaf(c) => if c.status.Executing? || c.status.Undoing? then 1 else 0
    case Node(n) => AllWaits(n.children)
  }

  function AllWaits(ts: seq<Action>): nat
    decreases ts
  {
    if ts == [] then 0 else Waits(ts[0]) + AllWaits(ts[1..])
  }

  /** The leaves that stand COMPLETED with error 0, from left to right. */
  function Done(t: Action): seq<nat>
    decreases t
  {
    match t
    case Leaf(c) => if c.status.Completed? && c.error == 0 then [c.id] else []
    case Node(n) => AllDone(n.children)
  }

  function AllDone(ts: seq<Action>): seq<nat>
    decreases ts
  {
    if ts == [] then [] else Done(ts[0]) + AllDone(ts[1..])
  }

  // ------------------------------------------------------ sums over children

  lemma AllConcat(a: seq<Action>, b: seq<Action>)
    ensures AllElapsed(a + b) == AllElapsed(a) + AllElapsed(b)
    ensures AllWaits(a + b) == AllWaits(a) + AllWaits(b)
    ensures AllDone(a + b) == AllDone(a) + AllDone(b)
  {
    if a == [] {
      assert a + b == b;
    } else {
      assert (a + b)[1..] == a[1..] + b;
      AllConcat(a[1..], b);
    }
  }

  lemma AllAt(ts: seq<Action>, i: nat)
    requires i < |ts|
    ensures AllElapsed(ts) == AllElapsed(ts[..i]) + Elapsed(ts[i]) + AllElapsed(ts[i + 1..])
    ensures AllWaits(ts) == AllWaits(ts[..i]) + Waits(ts[i]) + AllWaits(ts[i + 1..])
    ensures AllDone(ts) == AllDone(ts[..i]) + Done(ts[i]) + AllDone(ts[i + 1..])
  {
    assert ts == ts[..i] + ts[i..];
    AllConcat(ts[..i], ts[i..]);
    assert ts[i..][1..] == ts[i + 1..];
  }

  /** One child changed. */
  lemma AllUpdate(ts: seq<Action>, i: nat, c: Action)
    requires i < |ts|
    ensures AllElapsed(ts[i := c]) == AllElapsed(ts) - Elapsed(ts[i]) + Elapsed(c)
    ensures AllWaits(ts[i := c]) == AllWaits(ts) - Waits(ts[i]) + Waits(c)
    ensures AllDone(ts[i := c]) == AllDone(ts[..i]) + Done(c) + AllDone(ts[i + 1..])
  {
    var us := ts[i := c];
    assert us[..i] == ts[..i] && us[i + 1..] == ts[i + 1..];
    AllAt(ts, i);
    AllAt(us, i);
  }

  // ------------------------------------------------------ shapes

  /** Never touched yet. */
  predicate Fresh(t: Action)
    decreases t
  {
    match t
    case Leaf(c) => c.status.NotStarted? && c.error == 0 && c.ms == 0
    case Node(n) =>
      && n.status.NotStarted? && n.error == 0 && n.ms == 0 && n.index == 0
      && (forall i | 0 <= i < |n.children| :: Fresh(n.children[i]))
      && (forall i | 0 <= i < |n.planned| :: Fresh(n.planned[i]))
  }

  predicate Succeeded(t: Action) {
    t.Status().Completed? && t.Error() == 0
  }

  predicate FailedLeaf(t: Action) {
    t.Leaf? && t.c.status.Completed? && t.c.error > 0
  }

  /** A container that was executing when its own parent gave up on it: nobody waits
      below it, and nobody will come back to it. */
  predicate Abandoned(t: Action) {
    t.Node? && t.n.status.Executing? && Waits(t) == 0
  }

  /** Nothing to roll back here any more. */
  predicate Retired(t: Action) {
    t.Status().UndoComplete? || t.Status().NotStarted? || FailedLeaf(t) || Abandoned(t)
  }

  /** The time budget handed to the running child is what its parent has left. */
  predicate Telescopes(n: Container)
    requires 0 <= n.index < |n.children|
  {
    var c := n.children[n.index];
    n.timeout != INFINITE_TIMEOUT && c.Status().Executing? ==>
      c.Timeout() == n.timeout - (Elapsed(Node(n)) - Elapsed(c))
  }

  predicate ForwardShape(n: Container) {
    && 0 <= n.index
    && (forall i | 0 <= i < |n.children| && i < n.index :: Succeeded(n.children[i]))
    && (forall i | n.index < i < |n.children| :: n.children[i].Status().NotStarted?)
  }

  /** The local shape of a container at rest, in each of its states. */
  predicate Shape(n: Container) {
    match n.status
    case NotStarted => true
    case Executing =>
      && n.planned == [] && n.error == 0 && ForwardShape(n) && n.index < |n.children|
      && (n.children[n.index].Status().NotStarted? || n.children[n.index].Status().Executing?)
      && Telescopes(n)
    case Completed =>
      && n.planned == [] && n.error == 0 && ForwardShape(n) && n.index >= |n.children|
    case ErrorStopped =>
      && n.planned == [] && n.error > 0 && ForwardShape(n)
      && (n.index < |n.children| || n.children == [])
      && (n.index < |n.children| ==>
            var c := n.children[n.index];
            || (c.Status().NotStarted? && (n.error == n.execResult || OutOfTime(n)))
            || ((FailedLeaf(c) || c.Status().ErrorStopped?) && n.error == c.Error())
            || (Abandoned(c) && OutOfTime(n)))
      && (n.children == [] ==> n.error == n.execResult)
    case Undoing =>
      && n.planned == [] && 0 <= n.index < |n.children|
      && (forall i | 0 <= i < n.index :: Succeeded(n.children[i]))
      && (var c := n.children[n.index]; c.Status().Undoing? || (c.Leaf? && c.c.status.UndoComplete?))
      && (forall i | n.index < i < |n.children| :: Retires(n, i))
    case UndoComplete =>
      && n.planned == []
      && (forall i | 0 <= i < |n.children| :: Retires(n, i))
  }

  predicate OutOfTime(n: Container) {
    n.error == E_ABORTED && n.timeout != INFINITE_TIMEOUT
  }

  predicate Retires(n: Container, i: nat)
    requires i < |n.children|
  {
    Retired(n.children[i]) && (n.timeout == INFINITE_TIMEOUT ==> !Abandoned(n.children[i]))
  }

  predicate CommandShape(c: Command) {
    match c.status
    case NotStarted => c.error == 0 && c.ms == 0
    case Executing => c.error < 0 && c.ms == 0 && c.execResult < 0
    case Completed => c.error >= 0 && (c.execResult >= 0 ==> c.error == c.execResult)
    case Undoing => c.error < 0 && c.undoRequired && c.undoResult < 0
    case UndoComplete => true
    case ErrorStopped => false
  }

  /** The invariant of every reachable tree. */
  predicate WF(t: Action)
    decreases t
  {
    match t
    case Leaf(c) => CommandShape(c)
    case Node(n) =>
      if n.status.NotStarted? then Fresh(t)
      else Shape(n) && forall i | 0 <= i < |n.children| :: WF(n.children[i])
  }

  lemma {:induction false} FreshFacts(t: Action)
    requires Fresh(t)
    ensures WF(t) && Elapsed(t) == 0 && Waits(t) == 0 && Done(t) == []
    decreases t, 1
  {
    match t
    case Leaf(_) =>
    case Node(n) => AllFresh(n.children);
  }

  lemma {:induction false} AllFresh(ts: seq<Action>)
    requires forall i | 0 <= i < |ts| :: Fresh(ts[i])
    ensures AllElapsed(ts) == 0 && AllWaits(ts) == 0 && AllDone(ts) == []
    decreases ts, 0
  {
    if ts != [] {
      FreshFacts(ts[0]);
      AllFresh(ts[1..]);
    }
  }

  /** Only an executing or an undoing action can have a leaf that waits. */
  lemma {:induction false} RestingWaits(t: Action)
    requires WF(t) && !t.Status().Executing? && !t.Status().Undoing?
    ensures Waits(t) == 0
    decreases t, 1
  {
    match t
    case Leaf(_) =>
    case Node(n) =>
      if n.status.NotStarted? {
        FreshFacts(t);
      } else {
        forall i | 0 <= i < |n.children| ensures Waits(n.children[i]) == 0 {
          assert n.status.UndoComplete? ==> Retires(n, i);
          if !Abandoned(n.children[i]) { RestingWaits(n.children[i]); }
        }
        NoneWaits(n.children);
      }
  }

  lemma NoneWaits(ts: seq<Action>)
    requires forall i | 0 <= i < |ts| :: Waits(ts[i]) == 0
    ensures AllWaits(ts) == 0
  {
    if ts != [] {
      NoneWaits(ts[1..]);
    }
  }

  lemma BesideIndexNoneWaits(n: Container)
    requires WF(Node(n)) && (n.status.Executing? || n.status.Undoing?)
    ensures forall i | 0 <= i < |n.children| && i != n.index :: Waits(n.children[i]) == 0
  {
    forall i | 0 <= i < |n.children| && i != n.index ensures Waits(n.children[i]) == 0 {
      assert n.status.Undoing? && i > n.index ==> Retires(n, i);
      if !Abandoned(n.children[i]) { RestingWaits(n.children[i]); }
    }
  }

  /** The leaves that wait in a running container all wait below its current child. */
  lemma WaitsAtIndex(n: Container)
    requires WF(Node(n)) && (n.status.Executing? || n.status.Undoing?)
    ensures Waits(Node(n)) == Waits(n.children[n.index])
  {
    BesideIndexNoneWaits(n);
    AllAt(n.children, n.index);
    NoneWaits(n.children[..n.index]);
    NoneWaits(n.children[n.index + 1..]);
  }

  /** In the whole tree at most one leaf waits. */
  lemma {:induction false} AtMostOneWaits(t: Action)
    requires WF(t)
    ensures Waits(t) <= 1
    decreases t
  {
    if t.Status().Executing? || t.Status().Undoing? {
      match t
      case Leaf(_) =>
      case Node(n) =>
        WaitsAtIndex(n);
        AtMostOneWaits(n.children[n.index]);
    } else {
      RestingWaits(t);
    }
  }

  /** While a leaf waits, no container above it has used up its time. */
  lemma {:induction false} InTimeWhileWaiting(t: Action)
    requires WF(t) && t.Status().Executing? && Waits(t) > 0
    ensures t.Timeout() == INFINITE_TIMEOUT || Elapsed(t) <= t.Timeout()
    decreases t
  {
    match t
    case Leaf(_) =>
    case Node(n) =>
      WaitsAtIndex(n);
      var c := n.children[n.index];
      if c.Status().NotStarted? { RestingWaits(c); }
      AllAt(n.children, n.index);
      InTimeWhileWaiting(c);
  }

  /** The error of an action that has stopped has its cause below: a leaf that failed with
      it, a container whose own _execute() answered it, or a container out of time. */
  predicate Caused(t: Action, error: int)
    decreases t
  {
    match t
    case Leaf(c) => c.status.Completed? && c.error == error
    case Node(n) =>
      && n.status.ErrorStopped? && n.error == error
      && (|| error == n.execResult
          || (error == E_ABORTED && n.timeout != INFINITE_TIMEOUT)
          || (0 <= n.index < |n.children| && Caused(n.children[n.index], error)))
  }

  lemma {:induction false} ErrorHasCause(t: Action)
    requires WF(t) && (FailedLeaf(t) || t.Status().ErrorStopped?)
    ensures Caused(t, t.Error())
    decreases t
  {
    match t
    case Leaf(_) =>
    case Node(n) =>
      if n.index < |n.children| {
        var c := n.children[n.index];
        if FailedLeaf(c) || c.Status().ErrorStopped? { ErrorHasCause(c); }
      }
  }

  // ------------------------------------------------------ running forward

  /** What any call that moves an action forward leaves behind: a well-formed action that
      logged exactly the leaves that newly succeeded, and that told its observer its
      error as soon as it came to rest. */
  predicate Ran(t: Action, r: Outcome<Action>) {
    && WF(r.state)
    && r.state.Node? == t.Node?
    && r.state.Timeout() == t.Timeout()
    && Done(r.state) == Done(t) + r.log
    && (r.state.Status().Executing? || r.state.Status().Completed? || r.state.Status().ErrorStopped?)
    && r.note == if r.state.Status().Executing? then Silent else Told(r.state.Error())
  }

  /** A call that changed nothing, told nobody and logged nothing. */
  predicate Idle(t: Action, r: Outcome<Action>) {
    r.state == t && r.note.Silent? && r.log == []
  }

  ghost function AsNode(r: Outcome<Container>): Outcome<Action> {
    Outcome(Node(r.state), r.note, r.log)
  }

  predicate Running(n: Container) {
    n.status.Executing? && WF(Node(n))
  }

  /** The child c, in the place of n's current child, has run with outcome r. */
  predicate ChildRuns(n: Container, c: Action, r: Outcome<Action>) {
    && Running(n)
    && Ran(c, r) && Done(c) == Done(n.children[n.index])
    && (r.state.Status().Executing? && n.timeout != INFINITE_TIMEOUT ==>
          c.Timeout() == n.timeout - (Elapsed(Node(n)) - Elapsed(n.children[n.index])))
  }

  lemma ChildrenAfter(n: Container, c: Action, r: Outcome<Action>, cs: seq<Action>)
    requires ChildRuns(n, c, r) && cs == n.children[n.index := r.state]
    ensures forall k | 0 <= k < |cs| :: WF(cs[k])
    ensures forall k | 0 <= k < n.index :: Succeeded(cs[k])
    ensures forall k | n.index < k < |cs| :: cs[k].Status().NotStarted?
  {
  }

  lemma ChildStillRuns(n: Container, c: Action, r: Outcome<Action>)
    requires ChildRuns(n, c, r) && r.state.Status().Executing?
    ensures Resume(n, r) == (n.(children := n.children[n.index := r.state]), Silent)
    ensures WF(Node(Resume(n, r).0))
  {
    var n2 := n.(children := n.children[n.index := r.state]);
    ChildrenAfter(n, c, r, n2.children);
    AllUpdate(n.children, n.index, r.state);
    assert Shape(n2);
  }

  lemma ChildRested(n: Container, c: Action, r: Outcome<Action>)
    requires ChildRuns(n, c, r) && !r.state.Status().Executing?
    ensures var (n2, note) := Resume(n, r);
            && WF(Node(n2)) && n2.timeout == n.timeout && n2.children == n.children[n.index := r.state]
            && note == (if n2.status.Executing? then Silent else Told(n2.error))
            && (n2.status.ErrorStopped? || (n2.index == n.index + 1 &&
                n2.status == if n2.index < |n2.children| then Executing else Completed))
  {
    var (n2, note) := Resume(n, r);
    ChildrenAfter(n, c, r, n2.children);
    assert FailedLeaf(r.state) || Succeeded(r.state) || r.state.Status().ErrorStopped?;
    assert Shape(n2);
  }

  lemma ChildRanShape(n: Container, c: Action, r: Outcome<Action>)
    requires ChildRuns(n, c, r)
    ensures var (n2, note) := Resume(n, r);
            && WF(Node(n2))
            && note == (if n2.status.Executing? then Silent else Told(n2.error))
            && (n2.status.Executing? || n2.status.Completed? || n2.status.ErrorStopped?)
            && n2.timeout == n.timeout && n2.children == n.children[n.index := r.state]
            && (n2.status.Executing? && n2.index != n.index ==>
                  n2.index == n.index + 1 && n2.children[n2.index].Status().NotStarted?)
            && (r.state.Status().Executing? <==> (n2.status.Executing? && n2.index == n.index))
  {
    if r.state.Status().Executing? {
      ChildStillRuns(n, c, r);
    } else {
      ChildRested(n, c, r);
    }
  }

  lemma ChildRanDone(n: Container, c: Action, r: Outcome<Action>)
    requires ChildRuns(n, c, r)
    ensures AllDone(n.children[n.index := r.state]) == AllDone(n.children) + r.log
  {
    var i := n.index;
    AllUpdate(n.children, i, r.state);
    AllAt(n.children, i);
    assert AllDone(n.children[i + 1..]) == [] by { FreshTail(n); }
  }

  lemma FreshTail(n: Container)
    requires Running(n)
    ensures AllDone(n.children[n.index + 1..]) == []
  {
    var b := n.children[n.index + 1..];
    forall k | 0 <= k < |b| ensures Fresh(b[k]) {
      var j := n.index + 1 + k;
      assert b[k] == n.children[j] && n.children[j].Status().NotStarted? && WF(n.children[j]);
    }
    AllFresh(b);
  }

  /** The current child ran; its container heard of it. */
  lemma ChildRan(n: Container, c: Action, r: Outcome<Action>)
    requires ChildRuns(n, c, r)
    ensures var (n2, note) := Resume(n, r);
            && Ran(Node(n), Outcome(Node(n2), note, r.log))
            && (n2.status.Executing? ==> Waits(Node(n2)) == if n2.index == n.index then Waits(r.state) else 0)
  {
    var (n2, note) := Resume(n, r);
    ChildRanShape(n, c, r);
    ChildRanDone(n, c, r);
    if n2.status.Executing? {
      WaitsAtIndex(n2);
      if n2.index != n.index { RestingWaits(n2.children[n2.index]); }
    }
  }

  /** The next child is timed and about to execute. */
  lemma ChildBegins(n: Container)
    requires Running(n) && (n.timeout == INFINITE_TIMEOUT || Elapsed(Node(n)) <= n.timeout)
    ensures var c0 := n.children[n.index];
            var c := Timed(n, c0);
            && WF(c) && c.Status() == c0.Status() && Done(c) == Done(c0) && Size(c) == Size(c0)
            && (n.timeout != INFINITE_TIMEOUT ==>
                  c.Timeout() == n.timeout - (Elapsed(Node(n)) - Elapsed(c0)))
  {
    var c := n.children[n.index];
    assert WF(c);
    if c.Status().NotStarted? { FreshFacts(c); }
  }

  lemma RanThenRan(t: Action, u: Action, note: Note, log: seq<nat>, r: Outcome<Action>)
    requires Ran(t, Outcome(u, note, log)) && Ran(u, r)
    ensures Ran(t, Outcome(r.state, r.note, log + r.log))
  {
    assert Done(t) + (log + r.log) == Done(t) + log + r.log;
  }

  /** One turn of the loop in which the child came to rest or started to wait. */
  lemma LoopTurn(n: Container, r: Outcome<Action>)
    requires Running(n) && (n.timeout == INFINITE_TIMEOUT || Elapsed(Node(n)) <= n.timeout)
    requires Ran(Timed(n, n.children[n.index]), r)
    requires r.state.Status().Executing? ==> Waits(r.state) == 1
    ensures var (n2, note) := Resume(n, r);
            && Ran(Node(n), Outcome(Node(n2), note, r.log))
            && if r.state.Status().Executing? then n2.status.Executing? && Waits(Node(n2)) == 1
               else n2.status.Executing? ==>
                      Running(n2) && n2.index == n.index + 1 && n2.children[n2.index..] == n.children[n.index + 1..]
  {
    var c := Timed(n, n.children[n.index]);
    ChildBegins(n);
    ChildRan(n, c, r);
    ChildRanShape(n, c, r);
  }

  predicate Enters(n: Container) {
    Running(n) || (n.status.Executing? && n.children == [] && n.index == 0 && n.error == 0 && n.planned == [])
  }

  lemma StartedChildren(n: Container)
    requires Fresh(Node(n))
    ensures var cs := Started(n).children; forall k | 0 <= k < |cs| :: WF(cs[k]) && cs[k].Status().NotStarted?
    ensures Done(Node(Started(n))) == [] && Done(Node(n)) == [] && n.index == 0
  {
    var cs := n.children + n.planned;
    forall k | 0 <= k < |cs| ensures Fresh(cs[k]) && WF(cs[k]) {
      if k >= |n.children| { assert cs[k] == n.planned[k - |n.children|]; }
      FreshFacts(cs[k]);
    }
    AllFresh(cs);
    AllFresh(n.children);
  }

  lemma StartedEnters(n: Container)
    requires Fresh(Node(n)) && n.execResult == 0
    ensures Enters(Started(n))
  {
    StartedChildren(n);
    if Started(n).children != [] { assert Shape(Started(n)); }
  }

  lemma StartedFails(n: Container, r: int)
    requires n.status.Executing? && n.index == 0 && n.planned == [] && r == n.execResult > 0
    requires forall k | 0 <= k < |n.children| :: WF(n.children[k]) && n.children[k].Status().NotStarted?
    ensures WF(Node(UpdateNode(n, r).0))
  {
    hide Fresh;
    assert Shape(UpdateNode(n, r).0);
  }

  /** The container's own _execute() has run. */
  lemma StartedShape(n: Container)
    requires Fresh(Node(n))
    ensures n.execResult == 0 ==> Enters(Started(n))
    ensures n.execResult > 0 ==> Ran(Node(n), AsNode(SelfUpdate(Started(n), n.execResult)))
  {
    hide Enters;
    if n.execResult == 0 {
      StartedEnters(n);
    } else {
      hide Fresh;
      StartedChildren(n);
      StartedFails(Started(n), n.execResult);
    }
  }

  /** The time budget is spent: the container stops, and no leaf is left waiting. */
  lemma GivesUp(n: Container)
    requires Running(n) && n.timeout != INFINITE_TIMEOUT && Elapsed(Node(n)) > n.timeout
    ensures Waits(Node(n)) == 0
    ensures Ran(Node(n), AsNode(ExecLoop(n))) && ExecLoop(n).state.status.ErrorStopped?
  {
    AtMostOneWaits(Node(n));
    WaitsAtIndex(n);
    if Waits(Node(n)) > 0 { InTimeWhileWaiting(Node(n)); }
  }

  /** While a leaf waits, execute() called again changes nothing at all. */
  lemma {:induction false} ExecIdleWhileWaiting(t: Action)
    requires WF(t) && t.Status().Executing? && Waits(t) > 0
    ensures Idle(t, Exec(t))
    decreases t
  {
    match t
    case Leaf(_) =>
    case Node(n) =>
      var c := n.children[n.index];
      assert Waits(c) > 0 by { WaitsAtIndex(n); }
      assert c.Status().Executing? by { if c.Status().NotStarted? { RestingWaits(c); } }
      ExecIdleWhileWaiting(c);
      InTimeWhileWaiting(t);
      assert n.children[n.index := c] == n.children;
      assert ExecContainer(n) == ExecLoop(n);
  }

  /** A leaf waits in execute() if and only if it is not done at once. */
  lemma CommandRan(c: Command)
    requires CommandShape(c) && (c.status.NotStarted? || c.status.Executing?)
    ensures Ran(Leaf(c), Exec(Leaf(c)))
    ensures Exec(Leaf(c)).state.Status().Executing? <==> c.execResult < 0
    ensures c.execResult >= 0 ==> Exec(Leaf(c)).state.Error() == c.execResult
  {
  }

  /** execute() keeps the invariant and returns only when a leaf waits or the action is
      at rest. */
  lemma {:induction false} ExecRan(t: Action)
    requires WF(t) && (t.Status().NotStarted? || t.Status().Executing?)
    ensures Ran(t, Exec(t))
    ensures Exec(t).state.Status().Executing? ==> Waits(Exec(t).state) == 1
    decreases Size(t), 2
  {
    match t
    case Leaf(c) => CommandRan(c);
    case Node(n) =>
      if n.status.Executing? {
        SizeAllAt(n.children, n.index);
        ExecLoopRan(n);
      } else {
        var n1 := Started(n);
        StartedChildren(n);
        StartedShape(n);
        SizeAllConcat(n.children, n.planned);
        if n1.error == 0 {
          if n1.children != [] { SizeAllAt(n1.children, 0); }
          ExecLoopRan(n1);
        }
      }
  }

  lemma EmptyLoop(n: Container)
    requires Enters(n) && n.children == []
    ensures Ran(Node(n), AsNode(ExecLoop(n))) && ExecLoop(n).state.status.Completed?
  {
    assert Shape(ExecLoop(n).state);
  }

  lemma {:induction false} ExecLoopRan(n: Container)
    requires Enters(n)
    ensures Ran(Node(n), AsNode(ExecLoop(n)))
    ensures ExecLoop(n).state.status.Executing? ==> Waits(Node(ExecLoop(n).state)) == 1
    decreases if 0 <= n.index < |n.children| then SizeAll(n.children[n.index..]) else 0, 1
  {
    if n.children == [] {
      EmptyLoop(n);
    } else if n.timeout != INFINITE_TIMEOUT && Elapsed(Node(n)) > n.timeout {
      GivesUp(n);
    } else {
      var c := Timed(n, n.children[n.index]);
      SizeAllAt(n.children, n.index);
      ChildBegins(n);
      ExecRan(c);
      ExecTurn(n);
      var (n2, note) := Resume(n, Exec(c));
      if !Exec(c).state.Status().Executing? && n2.status.Executing? {
        ExecLoopRan(n2);
        RanThenRan(Node(n), Node(n2), note, Exec(c).log, AsNode(ExecLoop(n2)));
      }
    }
  }

  lemma ExecTurn(n: Container)
    requires Running(n) && (n.timeout == INFINITE_TIMEOUT || Elapsed(Node(n)) <= n.timeout)
    requires var c := Timed(n, n.children[n.index]);
             Ran(c, Exec(c)) && (Exec(c).state.Status().Executing? ==> Waits(Exec(c).state) == 1)
    ensures var r := Exec(Timed(n, n.children[n.index]));
            var (n2, note) := Resume(n, r);
            if !r.state.Status().Executing? && n2.status.Executing? then
              && Running(n2) && n2.index == n.index + 1 && n2.children[n2.index..] == n.children[n.index + 1..]
              && Ran(Node(n), Outcome(Node(n2), note, r.log))
              && ExecLoop(n) == Outcome(ExecLoop(n2).state, ExecLoop(n2).note, r.log + ExecLoop(n2).log)
            else
              && Ran(Node(n), AsNode(ExecLoop(n)))
              && ExecLoop(n) == Outcome(n2, note, r.log)
              && (ExecLoop(n).state.status.Executing? ==> Waits(Node(ExecLoop(n).state)) == 1)
  {
    LoopTurn(n, Exec(Timed(n, n.children[n.index])));
  }

  function TimedChild(n: Container): Container
    requires 0 <= n.index < |n.children|
  {
    n.(children := n.children[n.index := Timed(n, n.children[n.index])])
  }

  /** One turn of the loop of execute(): time the child, run it, hear of it. The flag
      says whether there is another turn. */
  function LoopOnce(n: Container): (Container, Note, bool)
    requires 0 <= n.index < |n.children|
  {
    if n.timeout != INFINITE_TIMEOUT && Elapsed(Node(n)) > n.timeout then
      var (n1, note) := UpdateNode(n, E_ABORTED);
      (n1, note, false)
    else
      var m := TimedChild(n);
      var r := Exec(m.children[m.index]);
      var (n2, note) := Resume(m, r);
      (n2, note, !r.state.Status().Executing? && n2.status.Executing?)
  }

  lemma TimedResumes(n: Container, r: Outcome<Action>)
    requires 0 <= n.index < |n.children|
    ensures Resume(TimedChild(n), r) == Resume(n, r)
  {
    var c := Timed(n, n.children[n.index]);
    assert n.children[n.index := c][n.index := r.state] == n.children[n.index := r.state];
  }

  /** The child that the loop will run next is well-formed once it is timed. */
  predicate ReadyChild(n: Container) {
    && 0 <= n.index < |n.children|
    && (n.timeout == INFINITE_TIMEOUT || Elapsed(Node(n)) <= n.timeout ==> WF(TimedChild(n).children[n.index]))
  }

  lemma LoopOnceChild(n: Container)
    requires Running(n)
    ensures ReadyChild(n)
  {
    if n.timeout == INFINITE_TIMEOUT || Elapsed(Node(n)) <= n.timeout { ChildBegins(n); }
  }

  /** The loop is the repetition of its turns. */
  lemma LoopTurns(n: Container)
    requires Running(n)
    ensures var (n2, note, again) := LoopOnce(n);
            if again then
              && Running(n2) && n2.index == n.index + 1 && |n2.children| == |n.children| && note.Silent?
              && ExecLoop(n).state == ExecLoop(n2).state && ExecLoop(n).note == ExecLoop(n2).note
            else ExecLoop(n).state == n2 && ExecLoop(n).note == note
  {
    hide ExecLoop, AllElapsed, Exec;
    if n.timeout == INFINITE_TIMEOUT || Elapsed(Node(n)) <= n.timeout {
      var c := Timed(n, n.children[n.index]);
      ChildBegins(n);
      ExecRan(c);
      ExecTurn(n);
      TimedResumes(n, Exec(c));
    } else {
      LoopStops(n);
    }
  }

  lemma LoopStops(n: Container)
    requires Running(n) && n.timeout != INFINITE_TIMEOUT && Elapsed(Node(n)) > n.timeout
    ensures ExecLoop(n).state == UpdateNode(n, E_ABORTED).0 && ExecLoop(n).note == UpdateNode(n, E_ABORTED).1
  {
    hide AllElapsed;
  }

  /** execute() by the state it finds. */
  lemma ExecParts(n: Container)
    requires WF(Node(n))
    ensures n.status.NotStarted? && n.execResult == 0 ==>
              Enters(Started(n)) && ExecContainer(n).state == ExecLoop(Started(n)).state
                  && ExecContainer(n).note == ExecLoop(Started(n)).note
    ensures n.status.NotStarted? && n.execResult != 0 ==>
              UpdateNode(Started(n), n.execResult) == (ExecContainer(n).state, ExecContainer(n).note)
              && ExecContainer(n).state.status.ErrorStopped?
    ensures n.status.Executing? ==>
              Enters(n) && ExecContainer(n).state == ExecLoop(n).state && ExecContainer(n).note == ExecLoop(n).note
    ensures n.status.Completed? ==>
              UpdateNode(n, n.error) == (ExecContainer(n).state, ExecContainer(n).note)
    ensures n.status.ErrorStopped? || n.status.Undoing? || n.status.UndoComplete? ==>
              ExecContainer(n).state == n && ExecContainer(n).note.Silent?
  {
    if n.status.NotStarted? { StartedShape(n); }
  }
}

/** Whole runs of one transaction: any interleaving of execute(), undo(),
    acknowledgements and expiring timers. */
module ActionRuns {
  import opened ActionTree
  import opened ActionInvariant
  import opened ActionRollback

  /** Acknowledge also stands for the timer of the waiting leaf: result E_ABORTED. */
  datatype Step = Execute | Rollback | Acknowledge(result: nat, ms: nat)

  /** The tree, the leaves that have completed with success and the leaves that have been
      told to undo, both in the order in which that happened. */
  datatype Run = Run(root: Container, completed: seq<nat>, undone: seq<nat>)

  function Take(s: Run, step: Step): Run {
    match step
    case Execute =>
      var r := ExecContainer(s.root);
      Run(r.state, s.completed + r.log, s.undone)
    case Rollback =>
      var r := UndoContainer(s.root);
      Run(r.state, s.completed, s.undone + r.log)
    case Acknowledge(result, ms) =>
      var r := Deliver(Node(s.root), result, ms);
      Run(r.state.n, s.completed + r.log, s.undone)
  }

  function TakeAll(s: Run, steps: seq<Step>): Run
    decreases steps
  {
    if steps == [] then s else TakeAll(Take(s, steps[0]), steps[1..])
  }

  predicate Backward(n: Container) {
    n.status.Undoing? || n.status.UndoComplete?
  }

  /** The invariant of a run: going forward, the tree shows the leaves that completed in
      the order in which they did; going back, the leaves told to undo are the last ones
      to have completed, in reverse, apart from those that were lost. */
  predicate Sound(s: Run) {
    && WF(Node(s.root))
    && if Backward(s.root) then s.completed == Reverse(s.undone + Pending(Node(s.root))) + Lost(Node(s.root))
       else s.undone == [] && s.completed == Done(Node(s.root))
  }

  lemma ExecuteSound(s: Run)
    requires Sound(s)
    ensures Sound(Take(s, Execute))
  {
    var t := Node(s.root);
    if s.root.status.NotStarted? || s.root.status.Executing? { ExecRan(t); }
  }

  lemma RollbackSound(s: Run)
    requires Sound(s)
    ensures Sound(Take(s, Rollback))
  {
    var t := Node(s.root);
    if Undoable(t) {
      UndoUnwinds(t);
      var r := UndoContainer(s.root);
      if !Backward(s.root) { StoppedSplits(t); }
      Associates(s.undone, r.log, Pending(Node(r.state)));
      NoHead(Pending(t));
    } else {
      NoTail(s.undone);
    }
  }

  lemma AcknowledgeSound(s: Run, result: nat, ms: nat)
    requires Sound(s)
    ensures Sound(Take(s, Acknowledge(result, ms)))
  {
    var t := Node(s.root);
    AtMostOneWaits(t);
    if Waits(t) == 0 {
      DeliverNobody(t, result, ms);
    } else if s.root.status.Executing? {
      DeliverRan(t, result, ms);
    } else {
      if !s.root.status.Undoing? { RestingWaits(t); }
      DeliverAcks(t, result, ms);
    }
  }

  /** Every run keeps the invariant. */
  lemma {:induction false} RunSound(s: Run, steps: seq<Step>)
    requires Sound(s)
    ensures Sound(TakeAll(s, steps))
    decreases steps
  {
    if steps != [] {
      match steps[0] {
        case Execute => ExecuteSound(s);
        case Rollback => RollbackSound(s);
        case Acknowledge(result, ms) => AcknowledgeSound(s, result, ms);
      }
      RunSound(Take(s, steps[0]), steps[1..]);
    }
  }

  function Begin(root: Container): Run { Run(root, [], []) }

  lemma BeginSound(root: Container)
    requires Fresh(Node(root))
    ensures Sound(Begin(root))
  {
    FreshFacts(Node(root));
  }

  /** In every reachable tree: the invariant holds, at most one leaf waits, and the index of
      a container that moves is one of its children. */
  lemma Reachable(root: Container, steps: seq<Step>)
    requires Fresh(Node(root))
    ensures var s := TakeAll(Begin(root), steps);
            && WF(Node(s.root)) && Waits(Node(s.root)) <= 1
            && (s.root.status.Executing? || s.root.status.Undoing? ==> 0 <= s.root.index < |s.root.children|)
  {
    BeginSound(root);
    RunSound(Begin(root), steps);
    AtMostOneWaits(Node(TakeAll(Begin(root), steps).root));
  }

  /** What a stopped tree reports is the error of a part that failed, or that of a container
      out of time. */
  lemma StoppedForCause(root: Container, steps: seq<Step>)
    requires Fresh(Node(root))
    ensures var s := TakeAll(Begin(root), steps);
            s.root.status.ErrorStopped? ==> s.root.error > 0 && Caused(Node(s.root), s.root.error)
  {
    BeginSound(root);
    RunSound(Begin(root), steps);
    var s := TakeAll(Begin(root), steps);
    if s.root.status.ErrorStopped? { ErrorHasCause(Node(s.root)); }
  }

  /** A finished rollback has undone, last to first, all leaves that had completed except
      those that still stand as completed; these completed last of all. */
  lemma RollbackIsReverse(root: Container, steps: seq<Step>)
    requires Fresh(Node(root))
    ensures var s := TakeAll(Begin(root), steps);
            s.root.status.UndoComplete? ==> s.completed == Reverse(s.undone) + Done(Node(s.root))
  {
    BeginSound(root);
    RunSound(Begin(root), steps);
    var s := TakeAll(Begin(root), steps);
    if s.root.status.UndoComplete? {
      UndoneLeaves(Node(s.root));
      assert s.undone + [] == s.undone;
    }
  }

  lemma ReverseTwice(s: seq<nat>)
    ensures Reverse(Reverse(s)) == s && |Reverse(s)| == |s|
  {
    if s != [] {
      ReverseConcat(Reverse(s[1..]), [s[0]]);
      assert Reverse([s[0]]) == [s[0]];
      ReverseTwice(s[1..]);
    }
  }

  /** Exactly when a rollback is complete: the order of undoing is the reverse of the
      order of completion if and only if, at the moment the tree stopped, no leaf had
      completed below a container that its parent abandoned while it was executing. */
  lemma RollbackCompleteIff(s: Run, steps: seq<Step>)
    requires Sound(s) && s.root.status.ErrorStopped?
    requires TakeAll(s, steps).root.status.UndoComplete?
    ensures var e := TakeAll(s, steps);
            && e.completed == s.completed
            && (e.undone == Reverse(s.completed) <==> Lost(Node(s.root)) == [])
            && (Done(Node(e.root)) == [] <==> Lost(Node(s.root)) == [])
  {
    var e := TakeAll(s, steps);
    RunSound(s, steps);
    StoppedRun(s, steps);
    UndoneLeaves(Node(e.root));
    assert e.undone + [] == e.undone;
    ReverseTwice(e.undone);
    ReverseTwice(s.completed);
    if Lost(Node(s.root)) == [] {
      assert e.completed == Reverse(e.undone);
    }
  }

  /** Once stopped, a tree completes no further leaf and loses no further leaf. */
  lemma {:induction false} StoppedRun(s: Run, steps: seq<Step>)
    requires Sound(s) && (s.root.status.ErrorStopped? || Backward(s.root))
    ensures var e := TakeAll(s, steps);
            e.completed == s.completed && Lost(Node(e.root)) == Lost(Node(s.root))
    decreases steps
  {
    if steps != [] {
      var t := Node(s.root);
      match steps[0] {
        case Execute => ExecuteSound(s);
        case Rollback =>
          RollbackSound(s);
          if Undoable(t) { UndoUnwinds(t); }
        case Acknowledge(result, ms) =>
          AcknowledgeSound(s, result, ms);
          if s.root.status.Undoing? {
            AtMostOneWaits(t);
            if Waits(t) == 1 { DeliverAcks(t, result, ms); } else { DeliverNobody(t, result, ms); }
          } else {
            RestingWaits(t);
            DeliverNobody(t, result, ms);
          }
      }
      StoppedRun(Take(s, steps[0]), steps[1..]);
    }
  }

  // ------------------------------------------------------ the incomplete rollback

  /** A timer for so long is refused, so that the acknowledgement may come late. */
  const LIMIT: uint32 := 20_000

  const LATE := 20_001

  function Waiter(id: nat, timeout: uint32, status: Status, error: int, ms: nat): Action {
    Leaf(Command(id, status, error, timeout, ms, true, -1, 0, 0))
  }

  function Inner(first: Action, status: Status, index: int, timeout: uint32): Container {
    var cs := [first, Waiter(2, INFINITE_TIMEOUT, NotStarted, 0, 0)];
    if status.NotStarted? then Container(status, 0, index, timeout, 0, false, 0, 0, 0, [], cs)
    else Container(status, 0, index, timeout, 0, false, 0, 0, 0, cs, [])
  }

  function Outer(inner: Container, status: Status, error: int, index: int): Container {
    if status.NotStarted? then Container(status, error, index, LIMIT, 0, false, 0, 0, 0, [], [Node(inner)])
    else Container(status, error, index, LIMIT, 0, false, 0, 0, 0, [Node(inner)], [])
  }

  lemma Sums(a: Action, b: Action)
    ensures AllElapsed([a]) == Elapsed(a) && AllElapsed([a, b]) == Elapsed(a) + Elapsed(b)
    ensures AllDone([a]) == Done(a) && AllDone([a, b]) == Done(a) + Done(b)
  {
    AllConcat([a], [b]);
    assert [a] + [b] == [a, b];
  }

  /** One turn of the loop of execute(), for a child that starts to wait. */
  lemma TurnThatWaits(n: Container, w: Action)
    requires n.status.Executing? && 0 <= n.index < |n.children|
    requires n.timeout == INFINITE_TIMEOUT || Elapsed(Node(n)) <= n.timeout
    requires Exec(Timed(n, n.children[n.index])) == Outcome(w, Silent, []) && w.Status().Executing?
    ensures ExecLoop(n) == Outcome(n.(children := n.children[n.index := w]), Silent, [])
  {
  }

  lemma InnerIdle(idle: Action, wait: Action)
    requires idle == Waiter(1, INFINITE_TIMEOUT, NotStarted, 0, 0) && wait == Waiter(1, LIMIT, Executing, -1, 0)
    ensures var n := Inner(idle, Executing, 0, LIMIT);
            Elapsed(Node(n)) == 0 && Exec(Timed(n, n.children[0])) == Outcome(wait, Silent, [])
  {
    Sums(idle, Waiter(2, INFINITE_TIMEOUT, NotStarted, 0, 0));
    var n := Inner(idle, Executing, 0, LIMIT);
    assert Elapsed(Node(n)) == 0;
    assert Timed(n, n.children[0]) == idle.TimedBy(LIMIT);
  }

  lemma InnerStarts(idle: Action, wait: Action)
    requires idle == Waiter(1, INFINITE_TIMEOUT, NotStarted, 0, 0) && wait == Waiter(1, LIMIT, Executing, -1, 0)
    ensures ExecContainer(Inner(idle, NotStarted, 0, LIMIT)) == Outcome(Inner(wait, Executing, 0, LIMIT), Silent, [])
  {
    hide ExecLoop, Elapsed, Timed, Exec, SizeAll;
    InnerIdle(idle, wait);
    var n := Inner(idle, Executing, 0, LIMIT);
    assert Started(Inner(idle, NotStarted, 0, LIMIT)) == n;
    assert n.children[0 := wait] == Inner(wait, Executing, 0, LIMIT).children;
    TurnThatWaits(n, wait);
  }

  lemma OuterStarts(idle: Action, wait: Action)
    requires idle == Waiter(1, INFINITE_TIMEOUT, NotStarted, 0, 0) && wait == Waiter(1, LIMIT, Executing, -1, 0)
    ensures ExecContainer(Outer(Inner(idle, NotStarted, 0, INFINITE_TIMEOUT), NotStarted, 0, 0))
         == Outcome(Outer(Inner(wait, Executing, 0, LIMIT), Executing, 0, 0), Silent, [])
  {
    hide ExecLoop;
    InnerStarts(idle, wait);
    var n := Started(Outer(Inner(idle, NotStarted, 0, INFINITE_TIMEOUT), NotStarted, 0, 0));
    assert n == Outer(Inner(idle, NotStarted, 0, INFINITE_TIMEOUT), Executing, 0, 0);
    Sums(idle, Waiter(2, INFINITE_TIMEOUT, NotStarted, 0, 0));
    Sums(Node(Inner(idle, NotStarted, 0, INFINITE_TIMEOUT)), idle);
    assert Elapsed(Node(n)) == 0;
    assert Timed(n, n.children[0]) == Node(Inner(idle, NotStarted, 0, LIMIT));
    var running := Node(Inner(wait, Executing, 0, LIMIT));
    assert n.children[0 := running] == [running];
    TurnThatWaits(n, running);
  }

  lemma InnerHears(wait: Action, done: Action)
    requires wait == Waiter(1, LIMIT, Executing, -1, 0) && done == Waiter(1, LIMIT, Completed, 0, LATE)
    ensures Deliver(Node(Outer(Inner(wait, Executing, 0, LIMIT), Executing, 0, 0)), 0, LATE)
         == Outcome(Node(Outer(Inner(done, Executing, 1, LIMIT), Executing, 0, 0)), Silent, [1])
  {
    var n := Inner(wait, Executing, 0, LIMIT);
    assert n.children[0 := done] == Inner(done, Executing, 1, LIMIT).children;
    assert Deliver(Node(n), 0, LATE) == Outcome(Node(Inner(done, Executing, 1, LIMIT)), Silent, [1]);
    assert [Node(n)][0 := Node(Inner(done, Executing, 1, LIMIT))] == [Node(Inner(done, Executing, 1, LIMIT))];
  }

  lemma OuterGivesUp(done: Action)
    requires done == Waiter(1, LIMIT, Completed, 0, LATE)
    ensures ExecContainer(Outer(Inner(done, Executing, 1, LIMIT), Executing, 0, 0))
         == Outcome(Outer(Inner(done, Executing, 1, LIMIT), ErrorStopped, E_ABORTED, 0), Told(E_ABORTED), [])
  {
    var n := Outer(Inner(done, Executing, 1, LIMIT), Executing, 0, 0);
    Sums(done, Waiter(2, INFINITE_TIMEOUT, NotStarted, 0, 0));
    Sums(n.children[0], done);
    assert Elapsed(Node(n)) == LATE;
  }

  /** A container with a budget of 20 seconds holds a container of two leaves. The first
      leaf is acknowledged with success 1 ms too late: the outer container gives up while
      the inner one is executing, and the rollback ends without having undone the leaf. */
  lemma RollbackCanMissLeaves()
    ensures var idle := Waiter(1, INFINITE_TIMEOUT, NotStarted, 0, 0);
            var root := Outer(Inner(idle, NotStarted, 0, INFINITE_TIMEOUT), NotStarted, 0, 0);
            var s := TakeAll(Begin(root), [Execute, Acknowledge(0, LATE), Execute, Rollback]);
            && Fresh(Node(root))
            && s.root.status.UndoComplete? && s.completed == [1] && s.undone == [] && Done(Node(s.root)) == [1]
  {
    hide ExecContainer, UndoContainer, Deliver;
    var idle := Waiter(1, INFINITE_TIMEOUT, NotStarted, 0, 0);
    var wait := Waiter(1, LIMIT, Executing, -1, 0);
    var done := Waiter(1, LIMIT, Completed, 0, LATE);
    var root := Outer(Inner(idle, NotStarted, 0, INFINITE_TIMEOUT), NotStarted, 0, 0);
    var steps := [Execute, Acknowledge(0, LATE), Execute, Rollback];
    assert Fresh(idle) && Fresh(Waiter(2, INFINITE_TIMEOUT, NotStarted, 0, 0));
    assert Fresh(Node(Inner(idle, NotStarted, 0, INFINITE_TIMEOUT)));
    assert Fresh(Node(root));
    OuterStarts(idle, wait);
    var s1 := Take(Begin(root), Execute);
    InnerHears(wait, done);
    var s2 := Take(s1, Acknowledge(0, LATE));
    assert s2 == Run(Outer(Inner(done, Executing, 1, LIMIT), Executing, 0, 0), [1], []);
    OuterGivesUp(done);
    var s3 := Take(s2, Execute);
    OuterUndone(done);
    var s4 := Take(s3, Rollback);
    assert steps[1..] == [Acknowledge(0, LATE), Execute, Rollback];
    assert steps[1..][1..] == [Execute, Rollback];
    assert steps[1..][1..][1..] == [Rollback];
    assert TakeAll(Begin(root), steps) == TakeAll(s1, steps[1..]) == TakeAll(s2, steps[1..][1..]);
    assert TakeAll(s2, steps[1..][1..]) == TakeAll(s3, [Rollback]) == s4;
  }

  lemma OuterUndone(done: Action)
    requires done == Waiter(1, LIMIT, Completed, 0, LATE)
    ensures var r := UndoContainer(Outer(Inner(done, Executing, 1, LIMIT), ErrorStopped, E_ABORTED, 0));
            r.state.status.UndoComplete? && r.log == [] && Done(Node(r.state)) == [1]
  {
    var inner := Inner(done, Executing, 1, LIMIT);
    var n := Outer(inner, ErrorStopped, E_ABORTED, 0).(status := Undoing);
    assert UndoLoop(n) == UndoLoop(n.(index := -1));
    Sums(done, Waiter(2, INFINITE_TIMEOUT, NotStarted, 0, 0));
    Sums(Node(inner), done);
  }
}

/** All or nothing: what a container of element-volume actions leaves in the elements. The
    order in which its leaves complete and are undone comes from module ActionRuns, what
    each of them does from the class in module ElementVolume. */
module VolumeTransaction {
  import opened ActionTree
  import opened ActionInvariant
  import opened ActionRollback
  import opened ActionRuns
  import opened ActionPatience
  import opened Sequences
  import opened VolumeBalance
  import opened VolumeEffects

  type Requests = map<nat, Request<nat>>

  type Cells = map<nat, VolumeInfo>

  type State = Routing<nat, nat>

  predicate Covered(q: Requests, cells: Cells, log: seq<nat>) {
    forall id | id in log :: id in q && q[id].element in cells
  }

  /** The leaves complete in this order. */
  function Commit(r: State, q: Requests, log: seq<nat>): (c: State)
    requires Covered(q, r.cells, log)
    ensures c.cells.Keys == r.cells.Keys
    decreases log
  {
    if log == [] then r
    else
      assert log[0] in log;
      Commit(CommitOne(r, log[0], q[log[0]]), q, log[1..])
  }

  /** The leaves are undone in this order. */
  function Restore(r: State, q: Requests, log: seq<nat>): (c: State)
    requires Covered(q, r.cells, log)
    ensures c.cells.Keys == r.cells.Keys && c.recent == r.recent
    decreases log
  {
    if log == [] then r
    else
      assert log[0] in log;
      Restore(RestoreOne(r, log[0], q[log[0]]), q, log[1..])
  }

  /** A leaf answers at once only if its target is in force already when it runs. */
  predicate Truthful(r: State, q: Requests, log: seq<nat>)
    requires Covered(q, r.cells, log)
    decreases log
  {
    log == []
    || (assert log[0] in log;
        var w := q[log[0]];
        (w.atOnce ==> r.cells[w.element] == w.target) && Truthful(CommitOne(r, log[0], w), q, log[1..]))
  }

  lemma {:induction false} CommitKeeps(r: State, q: Requests, log: seq<nat>, id: nat)
    requires Covered(q, r.cells, log) && id !in log && id in r.recent
    ensures var c := Commit(r, q, log); id in c.recent && c.recent[id] == r.recent[id]
    decreases log
  {
    if log != [] {
      assert log[0] in log;
      CommitKeeps(CommitOne(r, log[0], q[log[0]]), q, log[1..], id);
    }
  }

  lemma {:induction false} RestoreLast(r: State, q: Requests, log: seq<nat>, id: nat)
    requires Covered(q, r.cells, log + [id])
    ensures id in q && Covered(q, r.cells, log)
    ensures Restore(r, q, log + [id]) == RestoreOne(Restore(r, q, log), id, q[id])
    decreases log
  {
    assert id in log + [id];
    forall x | x in log ensures x in log + [id] { }
    if log != [] {
      assert log[0] in log;
      assert (log + [id])[1..] == log[1..] + [id];
      RestoreLast(RestoreOne(r, log[0], q[log[0]]), q, log[1..], id);
    }
  }

  lemma ReverseMembers(log: seq<nat>)
    ensures forall id :: id in Reverse(log) <==> id in log
  {
  }

  lemma ReversedCovered(q: Requests, cells: Cells, log: seq<nat>)
    requires Covered(q, cells, log)
    ensures Covered(q, cells, Reverse(log))
  {
    ReverseMembers(log);
  }

  /** All leaves complete in the order of the log, and are undone last to first. */
  function ThereAndBack(r: State, q: Requests, log: seq<nat>): State
    requires Covered(q, r.cells, log)
  {
    ReversedCovered(q, r.cells, log);
    Restore(Commit(r, q, log), q, Reverse(log))
  }

  /** The first leaf of the log for an element whose undo is accepted, or the end. */
  function FirstAccepted(q: Requests, log: seq<nat>, e: nat): (k: nat)
    requires forall id | id in log :: id in q
    ensures k <= |log|
    ensures k < |log| ==> q[log[k]].element == e && q[log[k]].accepted
    ensures forall i | 0 <= i < k :: !(q[log[i]].element == e && q[log[i]].accepted)
  {
    if log == [] || (assert log[0] in log; q[log[0]].element == e && q[log[0]].accepted) then 0
    else 1 + FirstAccepted(q, log[1..], e)
  }

  lemma CoveredPart(q: Requests, cells: Cells, log: seq<nat>, k: nat)
    requires Covered(q, cells, log) && k <= |log|
    ensures Covered(q, cells, log[..k]) && Covered(q, cells, log[k..])
  {
  }

  /** The first leaf of the log comes back last, to what it found. */
  lemma FirstComesLast(r: State, q: Requests, log: seq<nat>)
    requires Distinct(log) && Covered(q, r.cells, log) && log != []
    ensures log[0] in q && Covered(q, r.cells, log[1..])
    ensures var w := q[log[0]];
            var back := ThereAndBack(CommitOne(r, log[0], w), q, log[1..]);
            && w.element in back.cells && w.element in r.cells
            && ThereAndBack(r, q, log).cells
               == if w.accepted then back.cells[w.element := r.cells[w.element]] else back.cells
  {
    var id := log[0];
    assert id in log && id !in log[1..];
    var r1 := CommitOne(r, id, q[id]);
    CommitKeeps(r1, q, log[1..], id);
    ReversedCovered(q, r.cells, log);
    ReversedCovered(q, r1.cells, log[1..]);
    RestoreLast(Commit(r, q, log), q, Reverse(log[1..]), id);
  }

  /** What undoing last to first comes to: an element gets the state that it had before the
      first leaf for it whose undo was accepted. */
  lemma {:induction false} RestoredTo(r: State, q: Requests, log: seq<nat>, e: nat)
    requires Distinct(log) && Covered(q, r.cells, log) && e in r.cells
    ensures Covered(q, r.cells, log[..FirstAccepted(q, log, e)])
    ensures e in ThereAndBack(r, q, log).cells
    ensures ThereAndBack(r, q, log).cells[e] == Commit(r, q, log[..FirstAccepted(q, log, e)]).cells[e]
    decreases log
  {
    hide Reverse, ThereAndBack;
    var k := FirstAccepted(q, log, e);
    CoveredPart(q, r.cells, log, k);
    if log == [] {
      assert ThereAndBack(r, q, []) == r by { ThereAndBackEmpty(r, q); }
    } else {
      var id := log[0];
      FirstComesLast(r, q, log);
      RestoredTo(CommitOne(r, id, q[id]), q, log[1..], e);
      if k > 0 {
        assert log[..k][1..] == log[1..][..k - 1] && log[..k][0] == id;
      }
    }
  }

  lemma ThereAndBackEmpty(r: State, q: Requests)
    ensures ThereAndBack(r, q, []) == r
  {
  }

  predicate AllAccepted(q: Requests, log: seq<nat>) {
    forall id | id in log :: id in q && q[id].accepted
  }

  /** If all undo requests are accepted, all elements are as before, even if leaves share
      elements. */
  lemma RestoreUndoesCommit(r: State, q: Requests, log: seq<nat>)
    requires Distinct(log) && Covered(q, r.cells, log) && AllAccepted(q, log)
    ensures ThereAndBack(r, q, log).cells == r.cells
  {
    var end := ThereAndBack(r, q, log).cells;
    ReversedCovered(q, r.cells, log);
    assert end.Keys == r.cells.Keys;
    forall e | e in r.cells ensures end[e] == r.cells[e] {
      var k := FirstAccepted(q, log, e);
      RestoredTo(r, q, log, e);
      CoveredPart(q, r.cells, log, k);
      forall id | id in log[..k] ensures q[id].element != e {
        var i :| 0 <= i < k && log[..k][i] == id;
        assert log[i] == id && id in log;
      }
      CommitSpares(r, q, log[..k], e);
    }
  }

  /** After a commit, a cell has what the last leaf for it has asked for. */
  lemma {:induction false} CommitSets(r: State, q: Requests, log: seq<nat>, k: nat)
    requires Covered(q, r.cells, log) && Truthful(r, q, log) && k < |log|
    requires forall j | k < j < |log| :: q[log[j]].element != q[log[k]].element
    ensures var e := q[log[k]].element; e in Commit(r, q, log).cells && Commit(r, q, log).cells[e] == q[log[k]].target
    decreases log
  {
    assert log[0] in log;
    var r1 := CommitOne(r, log[0], q[log[0]]);
    if k > 0 {
      CommitSets(r1, q, log[1..], k - 1);
    } else {
      CommitSpares(r1, q, log[1..], q[log[0]].element);
    }
  }

  lemma {:induction false} CommitSpares(r: State, q: Requests, log: seq<nat>, e: nat)
    requires Covered(q, r.cells, log) && e in r.cells && forall id | id in log :: q[id].element != e
    ensures e in Commit(r, q, log).cells && Commit(r, q, log).cells[e] == r.cells[e]
    decreases log
  {
    if log != [] {
      assert log[0] in log;
      CommitSpares(CommitOne(r, log[0], q[log[0]]), q, log[1..], e);
    }
  }

  /** One leaf alone changes an element: it is back in its old state if and only if the
      undo was accepted, or the leaf had nothing to do, or its target was that state. */
  lemma {:induction false} OneLeafRestored(r: State, q: Requests, log: seq<nat>, k: nat)
    requires Distinct(log) && Covered(q, r.cells, log) && k < |log|
    requires forall i | 0 <= i < |log| && i != k :: q[log[i]].element != q[log[k]].element
    ensures var w, end := q[log[k]], ThereAndBack(r, q, log).cells;
            w.element in end && (end[w.element] == r.cells[w.element]
                                 <==> w.accepted || w.atOnce || w.target == r.cells[w.element])
  {
    var w := q[log[k]];
    assert log[k] in log;
    var n := FirstAccepted(q, log, w.element);
    RestoredTo(r, q, log, w.element);
    CoveredPart(q, r.cells, log, n);
    if w.accepted {
      forall id | id in log[..n] ensures q[id].element != w.element {
        var i :| 0 <= i < n && log[..n][i] == id;
        assert i != k;
      }
      CommitSpares(r, q, log[..n], w.element);
    } else {
      assert log[..n] == log by { assert n == |log|; }
      CommitAlone(r, q, log, k);
    }
  }

  lemma {:induction false} CommitAlone(r: State, q: Requests, log: seq<nat>, k: nat)
    requires Covered(q, r.cells, log) && k < |log|
    requires forall i | 0 <= i < |log| && i != k :: q[log[i]].element != q[log[k]].element
    ensures var w, c := q[log[k]], Commit(r, q, log).cells;
            w.element in c && c[w.element] == if w.atOnce then r.cells[w.element] else w.target
    decreases log
  {
    assert log[0] in log;
    var r1 := CommitOne(r, log[0], q[log[0]]);
    if k > 0 {
      CommitAlone(r1, q, log[1..], k - 1);
    } else {
      forall id | id in log[1..] ensures q[id].element != q[log[0]].element {
        var i :| 0 <= i < |log| - 1 && log[1..][i] == id;
        assert log[i + 1] == id;
      }
      CommitSpares(r1, q, log[1..], q[log[0]].element);
    }
  }

  // ------------------------------------------------------ flat containers

  function Ids(ts: seq<Action>): seq<nat>
    requires AllLeaves(ts)
  {
    seq(|ts|, i requires 0 <= i < |ts| => ts[i].c.id)
  }

  /** A container whose children, planned or appended, are leaves with different names. */
  predicate Flat(n: Container) {
    AllLeaves(n.children + n.planned) && Distinct(Ids(n.children + n.planned))
  }

  predicate SamePlan(n: Container, m: Container) {
    && AllLeaves(n.children + n.planned) && AllLeaves(m.children + m.planned)
    && Ids(m.children + m.planned) == Ids(n.children + n.planned)
  }

  lemma OneChild(n: Container, m: Container, c: Action)
    requires AllLeaves(n.children + n.planned) && 0 <= n.index < |n.children|
    requires c.Leaf? && c.c.id == (n.children + n.planned)[n.index].c.id
    requires m.children == n.children[n.index := c] && m.planned == n.planned
    ensures SamePlan(n, m)
  {
    assert m.children + m.planned == (n.children + n.planned)[n.index := c];
  }

  lemma LeafAt(n: Container)
    requires AllLeaves(n.children + n.planned) && 0 <= n.index < |n.children|
    ensures n.children[n.index] == (n.children + n.planned)[n.index] && n.children[n.index].Leaf?
  {
    assert n.children[n.index] == (n.children + n.planned)[n.index];
  }

  lemma {:induction false} ExecLoopPlan(n: Container)
    requires AllLeaves(n.children + n.planned)
    ensures SamePlan(n, ExecLoop(n).state)
    decreases |n.children| - n.index
  {
    if 0 <= n.index < |n.children| && !(n.timeout != INFINITE_TIMEOUT && Elapsed(Node(n)) > n.timeout) {
      LeafAt(n);
      var r := Exec(Timed(n, n.children[n.index]));
      var n2 := Resume(n, r).0;
      OneChild(n, n2, r.state);
      if !(r.state.Status().Executing? || !n2.status.Executing? || n2.index != n.index + 1) { ExecLoopPlan(n2); }
    }
  }

  lemma ExecPlan(n: Container)
    requires AllLeaves(n.children + n.planned)
    ensures SamePlan(n, ExecContainer(n).state)
  {
    hide ExecLoop;
    var n1 := Started(n);
    assert n1.children + n1.planned == n.children + n.planned;
    ExecLoopPlan(n1);
    ExecLoopPlan(n);
  }

  lemma {:induction false} UndoLoopPlan(n: Container)
    requires AllLeaves(n.children + n.planned) && n.index < |n.children|
    ensures SamePlan(n, UndoLoop(n).state)
    decreases n.index + 1
  {
    if n.index >= 0 {
      LeafAt(n);
      if !Undoable(n.children[n.index]) {
        UndoLoopPlan(n.(index := n.index - 1));
      } else {
        var r := Undo(n.children[n.index]);
        var n1 := Resume(n, r).0;
        OneChild(n, n1, r.state);
        if !(!r.state.Status().UndoComplete? || n1.index != n.index) { UndoLoopPlan(n1.(index := n.index - 1)); }
      }
    }
  }

  lemma UndoPlan(n: Container)
    requires AllLeaves(n.children + n.planned)
    ensures SamePlan(n, UndoContainer(n).state)
  {
    if UndoOwn(n).status.Undoing? {
      UndoOfOthers(n);
      UndoLoopPlan(UndoStart(n));
    } else if Stopped(n) {
      UndoOfEmpty(n);
    } else {
      UndoOfNone(n);
    }
  }

  lemma DeliverPlan(n: Container, result: nat, ms: nat)
    requires AllLeaves(n.children + n.planned)
    ensures SamePlan(n, Deliver(Node(n), result, ms).state.n)
  {
    if (n.status.Executing? || n.status.Undoing?) && 0 <= n.index < |n.children| {
      LeafAt(n);
      var d := Deliver(n.children[n.index], result, ms);
      OneChild(n, Resume(n, d).0, d.state);
    }
  }

  lemma TakePlan(s: Run, step: Step)
    requires Flat(s.root)
    ensures Flat(Take(s, step).root) && SamePlan(s.root, Take(s, step).root)
  {
    match step
    case Execute => ExecPlan(s.root);
    case Rollback => UndoPlan(s.root);
    case Acknowledge(result, ms) => DeliverPlan(s.root, result, ms);
  }

  // ------------------------------------------------------ the order of completion

  lemma {:induction false} FlatDone(ts: seq<Action>)
    requires AllLeaves(ts) && Distinct(Ids(ts))
    ensures Distinct(AllDone(ts)) && forall id | id in AllDone(ts) :: id in Ids(ts)
    decreases ts
  {
    if ts != [] {
      assert Ids(ts)[1..] == Ids(ts[1..]);
      FlatDone(ts[1..]);
      assert Ids(ts)[0] == ts[0].c.id && Ids(ts)[0] !in Ids(ts)[1..];
      assert Done(ts[0]) == [] || Done(ts[0]) == [ts[0].c.id];
    }
  }

  lemma {:induction false} AllSucceeded(ts: seq<Action>)
    requires AllLeaves(ts) && forall i | 0 <= i < |ts| :: Succeeded(ts[i])
    ensures AllDone(ts) == Ids(ts)
    decreases ts
  {
    if ts != [] {
      AllSucceeded(ts[1..]);
      assert Ids(ts) == [ts[0].c.id] + Ids(ts[1..]);
    }
  }

  lemma ForwardStays(s: Run, step: Step)
    requires Sound(s) && !Backward(s.root) && !step.Rollback?
    ensures !Backward(Take(s, step).root)
  {
    var t := Node(s.root);
    match step
    case Execute => if s.root.status.NotStarted? || s.root.status.Executing? { ExecRan(t); }
    case Acknowledge(result, ms) =>
      AtMostOneWaits(t);
      if Waits(t) == 1 && s.root.status.Executing? { DeliverRan(t, result, ms); }
      else if s.root.status.Executing? { DeliverNobody(t, result, ms); }
  }

  lemma CompletedStays(s: Run, step: Step)
    requires Sound(s) && Backward(Take(s, step).root)
    ensures Take(s, step).completed == s.completed
  {
    if !step.Rollback? {
      if !Backward(s.root) { ForwardStays(s, step); }
      StoppedRun(s, [step]);
      assert [step][1..] == [];
      assert TakeAll(s, [step]) == TakeAll(Take(s, step), [step][1..]);
    }
  }

  /** Each leaf of a flat container completes at most once. */
  predicate Orderly(s: Run, ids: seq<nat>) {
    Sound(s) && Flat(s.root) && Ids(s.root.children + s.root.planned) == ids
    && Distinct(s.completed) && forall id | id in s.completed :: id in ids
  }

  lemma NothingPlanned(n: Container)
    requires WF(Node(n)) && !n.status.NotStarted?
    ensures n.children + n.planned == n.children
  {
  }

  lemma FlatLog(n: Container)
    requires WF(Node(n)) && Flat(n)
    ensures Distinct(Done(Node(n))) && forall id | id in Done(Node(n)) :: id in Ids(n.children + n.planned)
  {
    if n.status.NotStarted? {
      FreshQuiet(Node(n));
    } else {
      NothingPlanned(n);
      FlatDone(n.children);
    }
  }

  lemma StepOrderly(s: Run, step: Step, ids: seq<nat>)
    requires Orderly(s, ids)
    ensures Orderly(Take(s, step), ids)
  {
    hide Flat, Sound;
    var s1 := Take(s, step);
    TakePlan(s, step);
    StepSound(s, step);
    if Backward(s1.root) {
      CompletedStays(s, step);
    } else {
      ForwardLog(s1);
      FlatLog(s1.root);
    }
  }

  lemma ForwardLog(s: Run)
    requires Sound(s)
    ensures WF(Node(s.root)) && (!Backward(s.root) ==> s.completed == Done(Node(s.root)))
  {
  }

  lemma StepSound(s: Run, step: Step)
    requires Sound(s)
    ensures Sound(Take(s, step))
  {
    match step
    case Execute => ExecuteSound(s);
    case Rollback => RollbackSound(s);
    case Acknowledge(result, ms) => AcknowledgeSound(s, result, ms);
  }

  lemma {:induction false} RunOrderly(s: Run, steps: seq<Step>, ids: seq<nat>)
    requires Orderly(s, ids)
    ensures Orderly(TakeAll(s, steps), ids)
    decreases steps
  {
    hide Orderly;
    if steps != [] {
      StepOrderly(s, steps[0], ids);
      RunOrderly(Take(s, steps[0]), steps[1..], ids);
    }
  }

  lemma FlatLosesNothing(n: Container)
    requires AllLeaves(n.children) && !n.status.Executing?
    ensures Lost(Node(n)) == []
  {
    LeavesLoseNothing(n.children);
  }

  lemma {:induction false} LeavesLoseNothing(ts: seq<Action>)
    requires AllLeaves(ts)
    ensures AllLost(ts) == []
    decreases ts
  {
    if ts != [] { LeavesLoseNothing(ts[1..]); }
  }

  // ------------------------------------------------------ all or nothing

  /** The requests are those of the leaves: what a leaf will return says whether it finds
      its target in force, and whether its undo request is accepted. */
  predicate Describes(q: Requests, ts: seq<Action>)
    requires AllLeaves(ts)
  {
    forall i | 0 <= i < |ts| ::
      var c := ts[i].c;
      c.id in q && q[c.id].atOnce == (c.execResult == 0) && q[c.id].accepted == (c.undoRequired && c.undoResult < 0)
  }

  function Leaves(root: Container): seq<Action> {
    root.children + root.planned
  }

  predicate Transaction(root: Container, q: Requests, cells: Cells) {
    && Fresh(Node(root)) && Flat(root)
    && Describes(q, Leaves(root)) && Covered(q, cells, Ids(Leaves(root)))
  }

  function Before(cells: Cells): State {
    Routing(cells, map[])
  }

  lemma TransactionRuns(root: Container, q: Requests, cells: Cells, steps: seq<Step>)
    requires Transaction(root, q, cells)
    ensures var s := TakeAll(Begin(root), steps);
            && Orderly(s, Ids(Leaves(root))) && Covered(q, cells, s.completed) && Covered(q, cells, s.undone)
  {
    BeginSound(root);
    RunOrderly(Begin(root), steps, Ids(Leaves(root)));
    var s := TakeAll(Begin(root), steps);
    UndoneWereCompleted(s);
  }

  lemma UndoneWereCompleted(s: Run)
    requires Sound(s)
    ensures forall id | id in s.undone :: id in s.completed
  {
    ReverseMembers(s.undone + Pending(Node(s.root)));
    forall id | id in s.undone ensures id in s.completed {
      if Backward(s.root) { assert id in s.undone + Pending(Node(s.root)); }
    }
  }

  /** The states of the elements after a run. */
  function Settled(root: Container, q: Requests, cells: Cells, steps: seq<Step>): Cells
    requires Transaction(root, q, cells)
  {
    TransactionRuns(root, q, cells, steps);
    var s := TakeAll(Begin(root), steps);
    Restore(Commit(Before(cells), q, s.completed), q, s.undone).cells
  }

  /** When the container has completed, every element has the state that the last leaf for
      it requested, if only leaves whose target was in force had nothing to do. */
  lemma CompletedMeansAll(root: Container, q: Requests, cells: Cells, steps: seq<Step>, k: nat)
    requires Transaction(root, q, cells) && k < |Leaves(root)|
    requires forall j | k < j < |Leaves(root)| :: q[Leaves(root)[j].c.id].element != q[Leaves(root)[k].c.id].element
    requires TakeAll(Begin(root), steps).root.status.Completed?
    requires Truthful(Before(cells), q, Ids(Leaves(root)))
    ensures var w := q[Leaves(root)[k].c.id];
            w.element in Settled(root, q, cells, steps) && Settled(root, q, cells, steps)[w.element] == w.target
  {
    var s := TakeAll(Begin(root), steps);
    var ids := Ids(Leaves(root));
    TransactionRuns(root, q, cells, steps);
    NothingPlanned(s.root);
    AllSucceeded(s.root.children);
    assert s.completed == ids && s.undone == [];
    forall j | k < j < |ids| ensures q[ids[j]].element != q[ids[k]].element { assert ids[j] == Leaves(root)[j].c.id; }
    CommitSets(Before(cells), q, ids, k);
  }

  lemma SettledBack(root: Container, q: Requests, cells: Cells, steps: seq<Step>)
    requires Transaction(root, q, cells) && TakeAll(Begin(root), steps).root.status.UndoComplete?
    ensures var s := TakeAll(Begin(root), steps);
            && Covered(q, cells, s.completed) && Distinct(s.completed)
            && (forall id | id in s.completed :: id in Ids(Leaves(root)))
            && Settled(root, q, cells, steps) == ThereAndBack(Before(cells), q, s.completed).cells
  {
    TransactionRuns(root, q, cells, steps);
    UndoneLog(root, steps);
  }

  /** When the rollback is complete, every element has the state that it had before the
      first leaf for it that had completed and whose undo request was accepted. */
  lemma RolledBackTo(root: Container, q: Requests, cells: Cells, steps: seq<Step>, e: nat)
    requires Transaction(root, q, cells) && e in cells
    requires TakeAll(Begin(root), steps).root.status.UndoComplete?
    ensures var log := TakeAll(Begin(root), steps).completed;
            && Covered(q, cells, log) && Covered(q, cells, log[..FirstAccepted(q, log, e)])
            && e in Settled(root, q, cells, steps)
            && Settled(root, q, cells, steps)[e] == Commit(Before(cells), q, log[..FirstAccepted(q, log, e)]).cells[e]
  {
    SettledBack(root, q, cells, steps);
    RestoredTo(Before(cells), q, TakeAll(Begin(root), steps).completed, e);
  }

  /** When the rollback is complete and every leaf gets its undo request accepted, all
      elements are as they were, whichever leaf failed or timed out, and when. */
  lemma UndoneMeansNothing(root: Container, q: Requests, cells: Cells, steps: seq<Step>)
    requires Transaction(root, q, cells)
    requires forall i | 0 <= i < |Leaves(root)| :: Leaves(root)[i].c.undoRequired && Leaves(root)[i].c.undoResult < 0
    requires TakeAll(Begin(root), steps).root.status.UndoComplete?
    ensures Settled(root, q, cells, steps) == cells
  {
    SettledBack(root, q, cells, steps);
    var log := TakeAll(Begin(root), steps).completed;
    forall id | id in log ensures q[id].accepted {
      var i :| 0 <= i < |Leaves(root)| && Ids(Leaves(root))[i] == id;
      assert Leaves(root)[i].c.id == id;
    }
    RestoreUndoesCommit(Before(cells), q, log);
  }

  /** When the rollback is complete, an element that one completed leaf alone was for is
      back in its old state if and only if the routing side accepted the undo of that leaf,
      or the leaf had nothing to do, or the old state was its target. */
  lemma RefusedUndo(root: Container, q: Requests, cells: Cells, steps: seq<Step>, i: nat)
    requires Transaction(root, q, cells) && i < |Leaves(root)|
    requires TakeAll(Begin(root), steps).root.status.UndoComplete?
    requires var log := TakeAll(Begin(root), steps).completed;
             && Leaves(root)[i].c.id in log
             && forall id | id in log && id in q && id != Leaves(root)[i].c.id ::
                 q[id].element != q[Leaves(root)[i].c.id].element
    ensures var c, end := Leaves(root)[i].c, Settled(root, q, cells, steps);
            var e := q[c.id].element;
            && e in cells && e in end
            && (end[e] == cells[e]
                <==> (c.undoRequired && c.undoResult < 0) || c.execResult == 0 || q[c.id].target == cells[e])
  {
    SettledBack(root, q, cells, steps);
    var log := TakeAll(Begin(root), steps).completed;
    var k :| 0 <= k < |log| && log[k] == Leaves(root)[i].c.id;
    forall j | 0 <= j < |log| && j != k ensures q[log[j]].element != q[log[k]].element {
      assert log[j] in log && log[j] != log[k];
    }
    OneLeafRestored(Before(cells), q, log, k);
  }

  lemma UndoneLog(root: Container, steps: seq<Step>)
    requires Fresh(Node(root)) && TakeAll(Begin(root), steps).root.status.UndoComplete?
    requires Flat(TakeAll(Begin(root), steps).root)
    ensures TakeAll(Begin(root), steps).undone == Reverse(TakeAll(Begin(root), steps).completed)
  {
    var s := TakeAll(Begin(root), steps);
    RollbackIsReverse(root, steps);
    BeginSound(root);
    RunSound(Begin(root), steps);
    UndoneLeaves(Node(s.root));
    NothingPlanned(s.root);
    FlatLosesNothing(s.root);
    assert s.completed == Reverse(s.undone);
    ReverseTwice(s.undone);
  }
}

/** The root action and the controller's loop that drives it: execute, undo if stopped,
    clean up. */
module ActionDriver {
  import opened ActionTree
  import opened ActionInvariant
  import opened ActionRollback

  // ------------------------------------------------------ cleanup()

  predicate Removable(s: Status, c: Action) {
    c.Status().UndoComplete? || c.Status().Completed? || (c.Status().NotStarted? && s.UndoComplete?)
  }

  /** How many children cleanup() removes: the longest removable prefix. */
  function Finished(s: Status, ts: seq<Action>): (k: nat)
    ensures k <= |ts|
    ensures forall i | 0 <= i < k :: Removable(s, ts[i])
    ensures k < |ts| ==> !Removable(s, ts[k])
  {
    if ts == [] || !Removable(s, ts[0]) then 0 else 1 + Finished(s, ts[1..])
  }

  /** The root resets itself once its last child is gone. */
  function Cleanup(n: Container, isRoot: bool): Container {
    var n1 := n.(children := n.children[Finished(n.status, n.children)..], index := 0, ms := 0);
    if n1.children == [] && isRoot then n1.(status := NotStarted, error := 0) else n1
  }

  /** The leaves that stand completed in what cleanup() removes. */
  function Freed(n: Container): seq<nat> {
    AllDone(n.children[..Finished(n.status, n.children)])
  }

  lemma FinishedIs(s: Status, ts: seq<Action>, k: nat)
    requires k <= |ts|
    requires forall i | 0 <= i < k :: Removable(s, ts[i])
    requires k < |ts| ==> !Removable(s, ts[k])
    ensures Finished(s, ts) == k
  {
  }

  // ------------------------------------------------------ the root

  /** The invariant of the root. It is never given a time limit, so it never gives up on
      a running child, and it has no children of its own making. */
  predicate Root(n: Container) {
    WF(Node(n)) && n.timeout == INFINITE_TIMEOUT && n.execResult == 0 && n.planned == []
  }

  /** While the root executes, cleanup() removes exactly the finished children, and the
      index points at the same current child as before. */
  lemma CleanupExecuting(n: Container)
    requires Root(n) && n.status.Executing?
    ensures Finished(n.status, n.children) == n.index
    ensures var m := Cleanup(n, true);
            && Root(m) && m.status.Executing? && m.index == 0 && m.children[0] == n.children[n.index]
            && Waits(Node(m)) == Waits(Node(n)) && Done(Node(n)) == Freed(n) + Done(Node(m))
  {
    FinishedIs(n.status, n.children, n.index);
    var m := Cleanup(n, true);
    forall i | 0 < i < |m.children| ensures m.children[i].Status().NotStarted? {
      assert m.children[i] == n.children[n.index + i];
    }
    forall i | 0 <= i < |m.children| ensures WF(m.children[i]) {
      assert m.children[i] == n.children[n.index + i];
    }
    assert Shape(m);
    WaitsAtIndex(n);
    WaitsAtIndex(m);
    assert n.children == n.children[..n.index] + m.children;
    AllConcat(n.children[..n.index], m.children);
  }

  /** After a run that completed, or whose rollback is complete, every child is removed
      and the root is as good as new. */
  lemma CleanupDrains(n: Container)
    requires Root(n) && (n.status.Completed? || n.status.UndoComplete?)
    ensures Finished(n.status, n.children) == |n.children|
    ensures var m := Cleanup(n, true);
            Root(m) && Fresh(Node(m)) && m.children == [] && Done(Node(n)) == Freed(n)
  {
    forall i | 0 <= i < |n.children| ensures Removable(n.status, n.children[i]) {
      if n.status.UndoComplete? { assert Retires(n, i); }
    }
    FinishedIs(n.status, n.children, |n.children|);
    assert n.children[..|n.children|] == n.children;
  }

  lemma CleanedUndoing(n: Container)
    requires Root(n) && n.status.Undoing? && !n.children[n.index].Status().UndoComplete?
    ensures Finished(n.status, n.children) == n.index
    ensures var m := Cleanup(n, true);
            Root(m) && m.status.Undoing? && m.index == 0 && m.children == n.children[n.index..]
  {
    hide AllDone, AllWaits, AllElapsed;
    FinishedIs(n.status, n.children, n.index);
    var m := Cleanup(n, true);
    forall i | 0 < i < |m.children| ensures Retires(m, i) {
      assert m.children[i] == n.children[n.index + i] && Retires(n, n.index + i);
    }
    forall i | 0 <= i < |m.children| ensures WF(m.children[i]) {
      assert m.children[i] == n.children[n.index + i];
    }
    assert Shape(m);
  }

  /** While the root waits in the middle of a rollback, cleanup() removes the completed
      children before the current one, although they have not been rolled back. */
  lemma CleanupUndoing(n: Container)
    requires Root(n) && n.status.Undoing? && !n.children[n.index].Status().UndoComplete?
    ensures Finished(n.status, n.children) == n.index
    ensures var m := Cleanup(n, true);
            && Root(m) && m.status.Undoing? && m.index == 0 && m.children[0] == n.children[n.index]
            && Waits(Node(m)) == Waits(Node(n)) && Done(Node(n)) == Freed(n) + Done(Node(m))
  {
    hide Shape, AllDone, AllWaits, AllElapsed;
    CleanedUndoing(n);
    var m := Cleanup(n, true);
    WaitsAtIndex(n);
    WaitsAtIndex(m);
    assert n.children == n.children[..n.index] + m.children;
    AllConcat(n.children[..n.index], m.children);
  }

  // ------------------------------------------------------ one pass of the driver

  /** The root, the leaves that completed, were told to undo, and were removed while they
      stood completed. */
  datatype Pass = Pass(root: Container, completed: seq<nat>, undone: seq<nat>, freed: seq<nat>)

  /** The body of the loop in iterateActions(), up to the look at the trigger queue. */
  function DriveOnce(n: Container): Pass {
    var e := ExecContainer(n);
    var u := if e.state.status.ErrorStopped? || e.state.status.Undoing? then UndoContainer(e.state)
             else Outcome(e.state, Silent, []);
    Pass(Cleanup(u.state, true), e.log, u.log, Freed(u.state))
  }

  /** What has completed is still standing, or was told to undo, or was removed. */
  predicate Balanced(completed: seq<nat>, undone: seq<nat>, freed: seq<nat>, standing: seq<nat>) {
    multiset(completed) == multiset(undone) + multiset(freed) + multiset(standing)
  }

  /** The completed leaves of any tree are those that a rollback would visit and those
      that it would miss. */
  lemma {:induction false} Accounted(t: Action)
    requires WF(t)
    ensures multiset(Done(t)) == multiset(Pending(t)) + multiset(Lost(t))
    decreases t, 1
  {
    match t
    case Leaf(_) =>
    case Node(n) =>
      if n.status.NotStarted? {
        FreshQuiet(t);
      } else if !n.status.Executing? {
        AllAccounted(n.children);
        if n.status.UndoComplete? { UndonePending(n); }
      }
  }

  lemma UndonePending(n: Container)
    requires WF(Node(n)) && n.status.UndoComplete?
    ensures AllPending(n.children) == []
  {
    forall i | 0 <= i < |n.children| ensures Pending(n.children[i]) == [] {
      assert Retires(n, i);
      RetiredPending(n.children[i]);
    }
    NonePending(n.children);
  }

  lemma {:induction false} AllAccounted(ts: seq<Action>)
    requires forall i | 0 <= i < |ts| :: WF(ts[i])
    ensures multiset(AllDone(ts)) == multiset(AllPending(ts)) + multiset(AllLost(ts))
    decreases ts, 0
  {
    if ts != [] {
      Accounted(ts[0]);
      AllAccounted(ts[1..]);
    }
  }

  lemma UndoBalances(n: Container)
    requires WF(Node(n)) && Undoable(Node(n))
    ensures multiset(Done(Node(n))) == multiset(UndoContainer(n).log) + multiset(Done(Node(UndoContainer(n).state)))
  {
    UndoUnwinds(Node(n));
    Accounted(Node(n));
    Accounted(Node(UndoContainer(n).state));
  }

  lemma ExecInPass(n: Container)
    requires Root(n)
    ensures Root(ExecContainer(n).state)
    ensures Done(Node(ExecContainer(n).state)) == Done(Node(n)) + ExecContainer(n).log
    ensures !ExecContainer(n).state.status.NotStarted?
  {
    if n.status.NotStarted? || n.status.Executing? { ExecRan(Node(n)); }
  }

  lemma UndoInPass(n: Container)
    requires Root(n) && (n.status.ErrorStopped? || n.status.Undoing?)
    ensures var m := UndoContainer(n).state;
            Root(m) && (m.status.UndoComplete? || (m.status.Undoing? && Waits(Node(m)) == 1))
  {
    UndoUnwinds(Node(n));
  }

  /** Between two events the driver leaves a root that waits for one leaf, going forward
      or back, or one that is empty and as good as new. */
  predicate AtRest(n: Container) {
    || ((n.status.Executing? || n.status.Undoing?) && Waits(Node(n)) == 1)
    || (Fresh(Node(n)) && n.children == [])
  }

  lemma UndoingWaitsBelow(n: Container)
    requires Root(n) && n.status.Undoing? && Waits(Node(n)) == 1
    ensures !n.children[n.index].Status().UndoComplete?
  {
    var c := n.children[n.index];
    assert Waits(c) == 1 by { WaitsAtIndex(n); }
    assert !c.Status().UndoComplete? by { if c.Status().UndoComplete? { RestingWaits(c); } }
  }

  lemma ExecRests(n: Container)
    requires Root(n)
    ensures var m := ExecContainer(n).state; m.status.Executing? ==> Waits(Node(m)) == 1
  {
    if n.status.NotStarted? || n.status.Executing? { ExecRan(Node(n)); }
  }

  /** One pass keeps the root well-formed, leaves it at rest and accounts for every leaf:
      what had completed or completes now is undone, removed or still standing. */
  lemma DrivePass(n: Container)
    requires Root(n)
    ensures var p := DriveOnce(n);
            && Root(p.root) && AtRest(p.root)
            && Balanced(Done(Node(n)) + p.completed, p.undone, p.freed, Done(Node(p.root)))
  {
    hide WF, Shape, ExecContainer, UndoContainer, Cleanup, Freed;
    var e := ExecContainer(n);
    ExecInPass(n);
    ExecRests(n);
    if e.state.status.ErrorStopped? || e.state.status.Undoing? {
      UndoInPass(e.state);
      UndoBalances(e.state);
      DriveCleans(UndoContainer(e.state).state);
    } else {
      DriveCleans(e.state);
    }
  }

  lemma DriveCleans(n: Container)
    requires Root(n) && !n.status.NotStarted? && !n.status.ErrorStopped?
    requires n.status.Executing? || n.status.Undoing? ==> Waits(Node(n)) == 1
    ensures var m := Cleanup(n, true);
            Root(m) && AtRest(m) && Done(Node(n)) == Freed(n) + Done(Node(m))
  {
    hide WF, Shape, Cleanup, Freed;
    if n.status.Executing? { CleanupExecuting(n); }
    else if n.status.Undoing? {
      UndoingWaitsBelow(n);
      CleanupUndoing(n);
    } else {
      CleanupDrains(n);
    }
  }

  // ------------------------------------------------------ whole lives of the root

  /** The driver runs after every event. It takes a trigger from the queue, and so submits
      an action, only when the root has not started and is empty. */
  datatype Event = Drive | Acknowledged(result: nat, ms: nat) | Submitted(action: Action)

  function Handle(s: Pass, e: Event): Pass {
    match e
    case Drive =>
      var p := DriveOnce(s.root);
      Pass(p.root, s.completed + p.completed, s.undone + p.undone, s.freed + p.freed)
    case Acknowledged(result, ms) =>
      var d := Deliver(Node(s.root), result, ms);
      Pass(d.state.n, s.completed + d.log, s.undone, s.freed)
    case Submitted(a) =>
      if s.root.status.NotStarted? && s.root.children == [] && Fresh(a) then s.(root := s.root.(children := [a]))
      else s
  }

  function HandleAll(s: Pass, events: seq<Event>): Pass
    decreases events
  {
    if events == [] then s else HandleAll(Handle(s, events[0]), events[1..])
  }

  predicate Accounts(s: Pass) {
    Root(s.root) && Balanced(s.completed, s.undone, s.freed, Done(Node(s.root)))
  }

  lemma DriveAccounts(s: Pass)
    requires Accounts(s)
    ensures Accounts(Handle(s, Drive)) && AtRest(Handle(s, Drive).root)
  {
    hide Root, AtRest, DriveOnce, Done, Balanced;
    DrivePass(s.root);
    var p := DriveOnce(s.root);
    BalancesAdd(s, p, Done(Node(s.root)), Done(Node(p.root)));
  }

  lemma BalancesAdd(s: Pass, p: Pass, before: seq<nat>, after: seq<nat>)
    requires Balanced(s.completed, s.undone, s.freed, before)
    requires Balanced(before + p.completed, p.undone, p.freed, after)
    ensures Balanced(s.completed + p.completed, s.undone + p.undone, s.freed + p.freed, after)
  {
    assert multiset(before + p.completed) == multiset(before) + multiset(p.completed);
    assert multiset(s.completed + p.completed) == multiset(s.completed) + multiset(p.completed);
    assert multiset(s.undone + p.undone) == multiset(s.undone) + multiset(p.undone);
    assert multiset(s.freed + p.freed) == multiset(s.freed) + multiset(p.freed);
    CountsAdd(multiset(s.completed), multiset(s.undone), multiset(s.freed), multiset(before),
              multiset(p.completed), multiset(p.undone), multiset(p.freed), multiset(after));
  }

  lemma CountsAdd(c: multiset<nat>, u: multiset<nat>, f: multiset<nat>, b: multiset<nat>,
                  c1: multiset<nat>, u1: multiset<nat>, f1: multiset<nat>, a: multiset<nat>)
    requires c == u + f + b && b + c1 == u1 + f1 + a
    ensures c + c1 == (u + u1) + (f + f1) + a
  {
    forall x: nat ensures (c + c1)[x] == ((u + u1) + (f + f1) + a)[x] {
      assert (b + c1)[x] == (u1 + f1 + a)[x];
    }
  }

  lemma AcknowledgedAccounts(s: Pass, result: nat, ms: nat)
    requires Accounts(s)
    ensures Accounts(Handle(s, Acknowledged(result, ms)))
  {
    var t := Node(s.root);
    AtMostOneWaits(t);
    if Waits(t) == 0 {
      DeliverNobody(t, result, ms);
    } else if s.root.status.Executing? {
      DeliverRan(t, result, ms);
    } else {
      if !s.root.status.Undoing? { RestingWaits(t); }
      DeliverAcks(t, result, ms);
      Accounted(t);
      Accounted(Deliver(t, result, ms).state);
    }
  }

  lemma SubmittedAccounts(s: Pass, a: Action)
    requires Accounts(s)
    ensures Accounts(Handle(s, Submitted(a)))
  {
    if s.root.status.NotStarted? && s.root.children == [] && Fresh(a) {
      var n := s.root.(children := [a]);
      assert Fresh(Node(n));
      FreshFacts(Node(n));
      FreshFacts(Node(s.root));
    }
  }

  /** Whatever happens, every leaf that ever completed is at any time either still
      standing, or has been told to undo, or has been removed; nothing is undone twice
      or undone and removed. */
  lemma {:induction false} LifeAccounts(s: Pass, events: seq<Event>)
    requires Accounts(s)
    ensures Accounts(HandleAll(s, events))
    decreases events
  {
    if events != [] {
      match events[0] {
        case Drive => DriveAccounts(s);
        case Acknowledged(result, ms) => AcknowledgedAccounts(s, result, ms);
        case Submitted(a) => SubmittedAccounts(s, a);
      }
      LifeAccounts(Handle(s, events[0]), events[1..]);
    }
  }
}

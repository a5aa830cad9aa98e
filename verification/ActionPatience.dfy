/** A condition on the plan of a transaction under which every rollback is complete: only
    containers of leaves have a time limit of their own. */
module ActionPatience {
  import opened ActionTree
  import opened ActionInvariant
  import opened ActionRollback
  import opened ActionRuns

  predicate AllLeaves(ts: seq<Action>) {
    forall i | 0 <= i < |ts| :: ts[i].Leaf?
  }

  predicate Patient(t: Action)
    decreases t
  {
    match t
    case Leaf(_) => true
    case Node(n) =>
      && (n.timeout != INFINITE_TIMEOUT ==> AllLeaves(n.children) && AllLeaves(n.planned))
      && (forall i | 0 <= i < |n.children| :: Patient(n.children[i]))
      && (forall i | 0 <= i < |n.planned| :: Patient(n.planned[i]))
  }

  /** One child changed into an action of the same kind. */
  lemma ChildPatient(n: Container, c: Action, m: Container)
    requires Patient(Node(n)) && 0 <= n.index < |n.children|
    requires Patient(c) && c.Node? == n.children[n.index].Node?
    requires m.children == n.children[n.index := c] && m.planned == n.planned && m.timeout == n.timeout
    ensures Patient(Node(m))
  {
    forall i | 0 <= i < |m.children| ensures Patient(m.children[i])
        { assert i != n.index ==> m.children[i] == n.children[i]; }
  }

  lemma TimedPatient(n: Container)
    requires Patient(Node(n)) && 0 <= n.index < |n.children|
    ensures Patient(Timed(n, n.children[n.index])) && Timed(n, n.children[n.index]).Node? == n.children[n.index].Node?
    ensures Size(Timed(n, n.children[n.index])) == Size(n.children[n.index])
  {
  }

  lemma StartedPatient(n: Container)
    requires Patient(Node(n))
    ensures Patient(Node(Started(n)))
  {
    var cs := n.children + n.planned;
    forall i | 0 <= i < |cs| ensures Patient(cs[i]) && (n.timeout != INFINITE_TIMEOUT ==> cs[i].Leaf?) {
      if i >= |n.children| { assert cs[i] == n.planned[i - |n.children|]; }
    }
  }

  lemma {:induction false} ExecPatient(t: Action)
    requires Patient(t)
    ensures Patient(Exec(t).state) && Exec(t).state.Node? == t.Node?
    decreases Size(t), 2
  {
    match t
    case Leaf(_) =>
    case Node(n) =>
      if 0 <= n.index < |n.children| { SizeAllAt(n.children, n.index); }
      ExecLoopPatient(n);
      var n1 := Started(n);
      StartedPatient(n);
      SizeAllConcat(n.children, n.planned);
      if 0 <= n1.index < |n1.children| { SizeAllAt(n1.children, n1.index); }
      ExecLoopPatient(n1);
      ExecIsLoop(n);
  }

  lemma ExecIsLoop(n: Container)
    requires Patient(Node(n)) && Patient(Node(Started(n)))
    requires Patient(Node(ExecLoop(n).state)) && Patient(Node(ExecLoop(Started(n)).state))
    ensures Patient(Node(ExecContainer(n).state))
  {
    hide ExecLoop;
  }

  lemma {:induction false} ExecLoopPatient(n: Container)
    requires Patient(Node(n))
    ensures Patient(Node(ExecLoop(n).state))
    decreases if 0 <= n.index < |n.children| then SizeAll(n.children[n.index..]) else 0, 1
  {
    hide Patient;
    if !(0 <= n.index < |n.children|) || (n.timeout != INFINITE_TIMEOUT && Elapsed(Node(n)) > n.timeout) {
      UpdatePatient(n, n.error);
      UpdatePatient(n, E_ABORTED);
    } else {
      var c := Timed(n, n.children[n.index]);
      SizeAllAt(n.children, n.index);
      TimedPatient(n);
      ExecPatient(c);
      var n2 := Resume(n, Exec(c)).0;
      ResumeTimeout(n, Exec(c));
      ChildPatient(n, Exec(c).state, n2);
      if !(Exec(c).state.Status().Executing? || !n2.status.Executing? || n2.index != n.index + 1) {
        assert n2.index < |n2.children| ==> n2.children[n2.index..] == n.children[n.index + 1..];
        ExecLoopPatient(n2);
      }
    }
  }

  lemma UpdatePatient(n: Container, r: int)
    requires Patient(Node(n))
    ensures Patient(Node(UpdateNode(n, r).0)) && SelfUpdate(n, r).state == UpdateNode(n, r).0
  {
  }

  lemma ResumeTimeout(n: Container, r: Outcome<Action>)
    requires 0 <= n.index < |n.children|
    ensures Resume(n, r).0.timeout == n.timeout && Resume(n, r).0.planned == n.planned
  {
  }

  lemma {:induction false} UndoPatient(t: Action)
    requires Patient(t)
    ensures Patient(Undo(t).state) && Undo(t).state.Node? == t.Node?
    decreases Size(t), 2
  {
    match t
    case Leaf(_) =>
    case Node(n) =>
      if UndoOwn(n).status.Undoing? {
        UndoOfOthers(n);
        var n1 := UndoStart(n);
        if n1.index >= 0 { SizeAllAt(n1.children, n1.index); }
        UndoLoopPatient(n1);
      } else if Stopped(n) {
        UndoOfEmpty(n);
      } else {
        UndoOfNone(n);
      }
  }

  lemma {:induction false} UndoLoopPatient(n: Container)
    requires Patient(Node(n)) && n.index < |n.children|
    ensures Patient(Node(UndoLoop(n).state))
    decreases if n.index >= 0 then SizeAll(n.children[..n.index + 1]) else 0, 1
  {
    if n.index < 0 {
      UpdatePatient(n, n.error);
    } else {
      SizeAllAt(n.children, n.index);
      if !Undoable(n.children[n.index]) {
        UndoLoopPatient(n.(index := n.index - 1));
      } else {
        var r := Undo(n.children[n.index]);
        UndoPatient(n.children[n.index]);
        var n1 := Resume(n, r).0;
        ResumeTimeout(n, r);
        ChildPatient(n, r.state, n1);
        if !(!r.state.Status().UndoComplete? || n1.index != n.index) {
          assert n1.children[..n.index] == n.children[..n.index];
          UndoLoopPatient(n1.(index := n.index - 1));
        }
      }
    }
  }

  lemma {:induction false} DeliverPatient(t: Action, result: nat, ms: nat)
    requires Patient(t)
    ensures Patient(Deliver(t, result, ms).state) && Deliver(t, result, ms).state.Node? == t.Node?
    decreases t
  {
    match t
    case Leaf(_) =>
    case Node(n) =>
      if (n.status.Executing? || n.status.Undoing?) && 0 <= n.index < |n.children| {
        var d := Deliver(n.children[n.index], result, ms);
        DeliverPatient(n.children[n.index], result, ms);
        ResumeTimeout(n, d);
        ChildPatient(n, d.state, Resume(n, d).0);
      }
  }

  lemma {:induction false} RunPatient(s: Run, steps: seq<Step>)
    requires Patient(Node(s.root))
    ensures Patient(Node(TakeAll(s, steps).root))
    decreases steps
  {
    hide Patient, ExecContainer, UndoContainer, Deliver;
    if steps != [] {
      TakePatient(s, steps[0]);
      RunPatient(Take(s, steps[0]), steps[1..]);
    }
  }

  lemma TakePatient(s: Run, step: Step)
    requires Patient(Node(s.root))
    ensures Patient(Node(Take(s, step).root))
  {
    hide Patient, ExecContainer, UndoContainer;
    var t := Node(s.root);
    match step
    case Execute => ExecPatient(t);
    case Rollback => UndoPatient(t);
    case Acknowledge(result, ms) => DeliverPatient(t, result, ms);
  }

  /** Nothing is lost where nobody gives up on a running container. */
  lemma {:induction false} PatientLosesNothing(t: Action)
    requires WF(t) && Patient(t) && (!t.Status().Executing? || t.Leaf?)
    ensures Lost(t) == []
    decreases t, 1
  {
    match t
    case Leaf(_) =>
    case Node(n) =>
      if n.status.NotStarted? {
        FreshQuiet(t);
      } else {
        forall i | 0 <= i < |n.children| ensures Lost(n.children[i]) == [] {
          ChildNotAbandoned(n, i);
          PatientLosesNothing(n.children[i]);
        }
        NoneLost(n.children);
      }
  }

  lemma ChildNotAbandoned(n: Container, i: nat)
    requires WF(Node(n)) && Patient(Node(n)) && !n.status.NotStarted? && !n.status.Executing? && i < |n.children|
    ensures WF(n.children[i]) && (n.children[i].Status().Executing? ==> n.children[i].Leaf?)
  {
    var c := n.children[i];
    if n.status.Undoing? && i > n.index { assert Retires(n, i); }
    if n.status.UndoComplete? { assert Retires(n, i); }
  }

  lemma {:induction false} NoneLost(ts: seq<Action>)
    requires forall i | 0 <= i < |ts| :: Lost(ts[i]) == []
    ensures AllLost(ts) == []
    decreases ts
  {
    if ts != [] { NoneLost(ts[1..]); }
  }

  /** If only containers of leaves have time limits, every rollback that is finished is
      complete: it has undone exactly the leaves that had completed, last to first, and
      none is left standing. */
  lemma PatientRollback(root: Container, steps: seq<Step>)
    requires Fresh(Node(root)) && Patient(Node(root))
    requires TakeAll(Begin(root), steps).root.status.UndoComplete?
    ensures var s := TakeAll(Begin(root), steps);
            s.undone == Reverse(s.completed) && Done(Node(s.root)) == []
  {
    hide Patient, Lost;
    var s := TakeAll(Begin(root), steps);
    RollbackIsReverse(root, steps);
    Reachable(root, steps);
    RunPatient(Begin(root), steps);
    PatientLosesNothing(Node(s.root));
    UndoneLeaves(Node(s.root));
    assert s.completed == Reverse(s.undone);
    ReverseTwice(s.undone);
  }
}

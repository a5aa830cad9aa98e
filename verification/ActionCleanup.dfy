/** Rollback under the controller's loop, whose cleanup() runs in the middle of it. A root
    with several actions could lose leaves to it that were still to be undone; in the lives
    that the driver leads, with one action at a time, none is. */
module ActionCleanup {
  import opened ActionTree
  import opened ActionInvariant
  import opened ActionRollback
  import opened ActionDriver
  import ActionPatience

  // ------------------------------------------------------ one cleanup()

  lemma ReverseEmpty(s: seq<nat>)
    ensures |Reverse(s)| == |s|
  {
  }

  /** The children before the current one of a rollback all have succeeded. */
  lemma PrefixStands(n: Container)
    requires Root(n) && n.status.Undoing?
    ensures AllDone(n.children[..n.index]) == Reverse(AllPending(n.children[..n.index]))
    ensures AllLost(n.children[..n.index]) == []
  {
    var ts := n.children[..n.index];
    PrefixSplits(ts, |ts|);
    NoTail(Reverse(AllPending(ts)));
  }

  /** What cleanup() takes away from a rollback in progress: nothing, exactly when no leaf
      stands completed in a child before the current one. */
  lemma CleanupUndoingIff(n: Container)
    requires Root(n) && n.status.Undoing? && !n.children[n.index].Status().UndoComplete?
    ensures var m := Cleanup(n, true);
            && Pending(Node(n)) == Pending(Node(m)) + AllPending(n.children[..n.index])
            && Lost(Node(n)) == Lost(Node(m))
            && Freed(n) == AllDone(n.children[..n.index])
            && (Pending(Node(m)) == Pending(Node(n)) <==> AllDone(n.children[..n.index]) == [])
  {
    CleanupUndoing(n);
    PrefixStands(n);
    var ts := n.children[..n.index];
    ReverseEmpty(AllPending(ts));
    assert n.children == ts + n.children[n.index..];
    PendingConcat(ts, n.children[n.index..]);
  }

  // ------------------------------------------------------ counts and indices

  lemma {:induction false} ExecLoopCount(n: Container)
    ensures |ExecLoop(n).state.children| == |n.children|
    decreases |n.children| - n.index
  {
    if 0 <= n.index < |n.children| && !(n.timeout != INFINITE_TIMEOUT && Elapsed(Node(n)) > n.timeout) {
      var r := Exec(Timed(n, n.children[n.index]));
      var n2 := Resume(n, r).0;
      if !(r.state.Status().Executing? || !n2.status.Executing? || n2.index != n.index + 1) { ExecLoopCount(n2); }
    }
  }

  lemma ExecCount(n: Container)
    requires n.planned == []
    ensures |ExecContainer(n).state.children| == |n.children|
  {
    hide ExecLoop;
    ExecLoopCount(n);
    ExecLoopCount(Started(n));
  }

  lemma {:induction false} UndoLoopFalls(n: Container)
    requires n.index < |n.children| && n.status.Undoing?
    ensures UndoLoop(n).state.index <= n.index && |UndoLoop(n).state.children| == |n.children|
    decreases n.index + 1
  {
    if n.index >= 0 {
      UndoTurns(n);
      var (n2, again) := UndoOnce(n);
      if again { UndoLoopFalls(n2); }
    }
  }

  /** Going back, the index never rises. */
  lemma UndoFalls(n: Container)
    requires Root(n) && n.children != [] && (n.status.ErrorStopped? || n.status.Undoing?)
    ensures |UndoContainer(n).state.children| == |n.children|
    ensures n.status.Undoing? ==> UndoContainer(n).state.index <= n.index
  {
    hide UndoContainer, UndoLoop;
    UndoOfOthers(n);
    UndoLoopFalls(UndoStart(n));
  }

  // ------------------------------------------------------ once the rollback has begun

  /** The root between two events of a rollback: cleanup() has put the current child first. */
  predicate Rolling(n: Container) {
    Root(n) && n.status.Undoing? && n.index == 0
  }

  /** From then on the driver removes nothing more that is still to be undone. */
  lemma RollingDrive(s: Pass)
    requires Rolling(s.root)
    ensures var s1 := Handle(s, Drive);
            && s1.completed == s.completed
            && if s1.root.status.NotStarted?
               then s1.undone == s.undone + Pending(Node(s.root)) && s1.freed == s.freed + Lost(Node(s.root))
               else Continues(s, s1)
  {
    var n := s.root;
    ExecParts(n);
    assert ExecContainer(n) == Outcome(n, Silent, []);
    UndoUnwinds(Node(n));
    var u := UndoContainer(n);
    UndoFalls(n);
    UndoInPass(n);
    if u.state.status.Undoing? {
      UndoingWaitsBelow(u.state);
      CleanupUndoing(u.state);
      CleanupUndoingIff(u.state);
      assert u.state.children[..0] == [];
      Associates(s.undone, u.log, Pending(Node(u.state)));
    } else {
      CleanupDrains(u.state);
      UndonePending(u.state);
      UndoneLeaves(Node(u.state));
    }
  }

  /** The rollback goes on: what is undone and what is still to be undone stay the same
      together, and nothing is removed. */
  predicate Continues(s: Pass, s1: Pass) {
    && Rolling(s1.root) && s1.completed == s.completed && s1.freed == s.freed
    && s1.undone + Pending(Node(s1.root)) == s.undone + Pending(Node(s.root))
    && Lost(Node(s1.root)) == Lost(Node(s.root))
  }

  lemma RollingAcknowledged(s: Pass, result: nat, ms: nat)
    requires Rolling(s.root)
    ensures Continues(s, Handle(s, Acknowledged(result, ms)))
  {
    var t := Node(s.root);
    AtMostOneWaits(t);
    if Waits(t) == 0 {
      DeliverNobody(t, result, ms);
    } else {
      DeliverAcks(t, result, ms);
    }
    assert Deliver(t, result, ms).state.n.index == 0;
  }

  /** The events end with the one that gives back a root that has not started. */
  predicate Finishes(s: Pass, events: seq<Event>)
    decreases events
  {
    && events != []
    && var s1 := Handle(s, events[0]);
       if s1.root.status.NotStarted? then |events| == 1 else Finishes(s1, events[1..])
  }

  lemma {:induction false} RollingFinishes(s: Pass, events: seq<Event>)
    requires Rolling(s.root) && Finishes(s, events)
    ensures var e := HandleAll(s, events);
            && e.completed == s.completed
            && e.undone == s.undone + Pending(Node(s.root)) && e.freed == s.freed + Lost(Node(s.root))
    decreases events
  {
    hide Rolling, DriveOnce, Pending, Lost, Deliver;
    var s1 := Handle(s, events[0]);
    match events[0] {
      case Drive => RollingDrive(s);
      case Acknowledged(result, ms) =>
        RollingAcknowledged(s, result, ms);
        NotFinished(s1.root);
      case Submitted(a) => NotFinished(s.root);
    }
    if s1.root.status.NotStarted? {
      assert HandleAll(s1, events[1..]) == s1;
    } else {
      RollingFinishes(s1, events[1..]);
    }
  }

  lemma NotFinished(n: Container)
    requires Rolling(n)
    ensures !n.status.NotStarted?
  {
  }

  // ------------------------------------------------------ the whole rollback

  /** The leaves that stand completed before the child whose undo is the first to wait. */
  function Overtaken(m: Container): seq<nat> {
    var u := UndoContainer(m).state;
    if u.status.Undoing? && 0 <= u.index <= |u.children| then AllDone(u.children[..u.index]) else []
  }

  /** The pass in which a stopped root begins to roll back. */
  lemma DriveStopped(s: Pass)
    requires Root(s.root) && ExecContainer(s.root).state.status.ErrorStopped?
    ensures var m, s1 := ExecContainer(s.root).state, Handle(s, Drive);
            && s1.completed == s.completed + ExecContainer(s.root).log
            && if s1.root.status.NotStarted?
               then Overtaken(m) == [] && s1.undone == s.undone + Pending(Node(m))
                   && s1.freed == s.freed + Lost(Node(m))
               else && Rolling(s1.root) && s1.freed == s.freed + Overtaken(m) && Lost(Node(s1.root)) == Lost(Node(m))
                    && s1.undone + Pending(Node(s1.root)) + Reverse(Overtaken(m)) == s.undone + Pending(Node(m))
  {
    ExecInPass(s.root);
    var m := ExecContainer(s.root).state;
    UndoUnwinds(Node(m));
    UndoInPass(m);
    var u := UndoContainer(m);
    if u.state.status.Undoing? {
      UndoingWaitsBelow(u.state);
      CleanupUndoing(u.state);
      CleanupUndoingIff(u.state);
      PrefixStands(u.state);
      ReverseBack(AllPending(u.state.children[..u.state.index]));
      Joins(s.undone, u.log, Pending(Node(Cleanup(u.state, true))), Reverse(Overtaken(m)));
    } else {
      CleanupDrains(u.state);
      UndonePending(u.state);
      UndoneLeaves(Node(u.state));
    }
  }

  lemma ReverseBack(s: seq<nat>)
    ensures Reverse(Reverse(s)) == s
  {
    if s != [] {
      ReverseConcat(Reverse(s[1..]), [s[0]]);
      assert Reverse([s[0]]) == [s[0]];
    }
  }

  lemma Joins(a: seq<nat>, b: seq<nat>, c: seq<nat>, d: seq<nat>)
    ensures (a + b) + c + d == a + (b + (c + d))
  {
  }

  /** From the pass in which the root has stopped to the one that gives it back: the leaves
      that a rollback has to visit are told to undo, in order, except for the overtaken
      ones, which are removed while they stand completed. */
  lemma DrivenRollback(s: Pass, events: seq<Event>)
    requires Root(s.root) && ExecContainer(s.root).state.status.ErrorStopped?
    requires Finishes(s, [Drive] + events)
    ensures var m, e := ExecContainer(s.root).state, HandleAll(s, [Drive] + events);
            && e.completed == s.completed + ExecContainer(s.root).log
            && e.undone + Reverse(Overtaken(m)) == s.undone + Pending(Node(m))
            && e.freed == s.freed + Overtaken(m) + Lost(Node(m))
  {
    hide ExecContainer, Overtaken, Rolling, DriveOnce, Pending, Lost;
    DriveStopped(s);
    assert ([Drive] + events)[1..] == events;
    var s1 := Handle(s, Drive);
    var m := ExecContainer(s.root).state;
    if s1.root.status.NotStarted? {
      assert HandleAll(s1, events) == s1;
      NoTail(s1.undone);
    } else {
      RollingFinishes(s1, events);
    }
  }

  lemma SameLengths(a: seq<nat>, p: seq<nat>, u: seq<nat>, r: seq<nat>)
    requires u + r == a + p
    ensures u == a + p <==> r == []
  {
    if u == a + p { assert |u + r| == |u| + |r|; }
  }

  /** Exactly when the driver undoes everything that was to be undone when the root had
      stopped: no leaf stands completed in a child before the one whose undo is the first to
      wait. It undoes everything that stood completed at all if also nothing was lost. */
  lemma DrivenRollbackIff(s: Pass, events: seq<Event>)
    requires Root(s.root) && ExecContainer(s.root).state.status.ErrorStopped?
    requires Finishes(s, [Drive] + events)
    ensures var m, e := ExecContainer(s.root).state, HandleAll(s, [Drive] + events);
            && (e.undone == s.undone + Pending(Node(m)) <==> Overtaken(m) == [])
            && (e.undone == s.undone + Reverse(Done(Node(m))) <==> Overtaken(m) == [] && Lost(Node(m)) == [])
  {
    hide ExecContainer, Overtaken, Finishes, HandleAll, Pending, Lost, Done;
    DrivenRollback(s, events);
    var m, e := ExecContainer(s.root).state, HandleAll(s, [Drive] + events);
    ReverseEmpty(Overtaken(m));
    SameLengths(s.undone, Pending(Node(m)), e.undone, Reverse(Overtaken(m)));
    StoppedLeaves(s.root);
    ReverseEmpty(Lost(Node(m)));
    if Lost(Node(m)) != [] {
      assert |e.undone| <= |s.undone| + |Pending(Node(m))|;
      assert |s.undone + Reverse(Done(Node(m)))| > |e.undone|;
    } else {
      NoHead(Pending(Node(m)));
    }
  }

  lemma StoppedLeaves(n: Container)
    requires Root(n) && ExecContainer(n).state.status.ErrorStopped?
    ensures var m := Node(ExecContainer(n).state); Reverse(Done(m)) == Reverse(Lost(m)) + Pending(m)
  {
    ExecInPass(n);
    var m := Node(ExecContainer(n).state);
    StoppedSplits(m);
    ReverseConcat(Reverse(Pending(m)), Lost(m));
    ReverseBack(Pending(m));
  }

  /** A single top-level action cannot be overtaken. */
  lemma SingleIsNotOvertaken(n: Container)
    requires Root(n) && ExecContainer(n).state.status.ErrorStopped? && |n.children| == 1
    ensures Overtaken(ExecContainer(n).state) == []
  {
    ExecInPass(n);
    ExecCount(n);
    var m := ExecContainer(n).state;
    UndoFalls(m);
    UndoInPass(m);
    var u := UndoContainer(m).state;
    if u.status.Undoing? { assert u.children[..0] == []; }
  }

  // ------------------------------------------------------ whole lives

  function TheRoot(children: seq<Action>): Container {
    Container(NotStarted, 0, 0, INFINITE_TIMEOUT, 0, false, 0, 0, 0, children, [])
  }

  /** Where every life of the driver begins. */
  const START := Pass(TheRoot([]), [], [], [])

  /** What holds of the root between any two events. Above all, it never holds more than
      one action: the driver submits the next one only to an empty root. */
  predicate Alive(s: Pass) {
    && Accounts(s) && !s.root.status.UndoComplete?
    && |s.root.children| <= 1
    && (s.root.status.Undoing? ==> s.root.index == 0)
  }

  /** What one pass removes of the completed leaves: those of an action that has completed,
      and those that are lost when a rollback ends. */
  function Removed(m: Container, over: bool): seq<nat> {
    if m.status.Completed? then Done(Node(m)) else if over then Lost(Node(m)) else []
  }

  lemma DriveForward(s: Pass)
    requires Alive(s)
    requires var m := ExecContainer(s.root).state; m.status.Executing? || m.status.Completed?
    ensures var m, s1 := ExecContainer(s.root).state, Handle(s, Drive);
            && s1.freed == s.freed + Removed(m, false) && s1.undone == s.undone
            && |s1.root.children| <= 1
            && if m.status.Executing? then s1.root.status.Executing? && Done(Node(s1.root)) == Done(Node(m))
               else s1.root.status.NotStarted? && s1.root.children == []
  {
    ExecInPass(s.root);
    ExecRests(s.root);
    ExecCount(s.root);
    var m := ExecContainer(s.root).state;
    NoTail(s.undone);
    if m.status.Executing? {
      CleanupExecuting(m);
      assert m.children[..0] == [];
    } else {
      CleanupDrains(m);
    }
  }

  lemma CleanupCount(n: Container)
    ensures |Cleanup(n, true).children| <= |n.children|
  {
  }

  lemma UndoCount(n: Container)
    requires Root(n) && n.children != [] && (n.status.ErrorStopped? || n.status.Undoing?)
    ensures |Cleanup(UndoContainer(n).state, true).children| <= |n.children|
  {
    hide Cleanup, UndoContainer;
    UndoFalls(n);
    CleanupCount(UndoContainer(n).state);
  }

  /** The pass in which the action of the root has failed: nothing is overtaken. */
  lemma DriveBack(s: Pass)
    requires Alive(s) && ExecContainer(s.root).state.status.ErrorStopped?
    ensures var m, s1 := ExecContainer(s.root).state, Handle(s, Drive);
            && s1.completed == s.completed + ExecContainer(s.root).log && |s1.root.children| <= 1
            && if s1.root.status.NotStarted?
               then s1.undone == s.undone + Pending(Node(m)) && s1.freed == s.freed + Lost(Node(m))
               else && Rolling(s1.root) && s1.freed == s.freed && Lost(Node(s1.root)) == Lost(Node(m))
                    && s1.undone + Pending(Node(s1.root)) == s.undone + Pending(Node(m))
  {
    hide ExecContainer, UndoContainer, Overtaken, Pending, Lost, Cleanup, Freed, Rolling;
    DriveStopped(s);
    ExecCount(s.root);
    ExecInPass(s.root);
    NoneOvertaken(s.root);
    NoTail(s.freed);
    NoTail(Handle(s, Drive).undone + Pending(Node(Handle(s, Drive).root)));
    var m := ExecContainer(s.root).state;
    if m.children != [] { UndoCount(m); } else { EmptyBack(m); }
  }

  lemma EmptyBack(m: Container)
    requires m.children == [] && m.status.ErrorStopped?
    ensures Cleanup(UndoContainer(m).state, true).children == []
  {
  }

  lemma NoneOvertaken(n: Container)
    requires Root(n) && ExecContainer(n).state.status.ErrorStopped? && |n.children| <= 1
    ensures Overtaken(ExecContainer(n).state) == []
  {
    hide ExecContainer, Overtaken;
    if |n.children| == 1 {
      SingleIsNotOvertaken(n);
    } else {
      ExecCount(n);
      assert ExecContainer(n).state.children == [];
      EmptyNotOvertaken(ExecContainer(n).state);
    }
  }

  lemma EmptyNotOvertaken(m: Container)
    requires m.children == [] && m.status.ErrorStopped?
    ensures Overtaken(m) == []
  {
  }

  lemma RollingCount(s: Pass)
    requires Rolling(s.root) && |s.root.children| <= 1
    ensures |Handle(s, Drive).root.children| <= 1
  {
    hide UndoContainer, Cleanup;
    var n := s.root;
    ExecParts(n);
    assert ExecContainer(n).state == n;
    UndoCount(n);
  }

  /** What a pass of the driver removes, and what it leaves. */
  lemma DriveFrees(s: Pass)
    requires Alive(s)
    ensures var m, s1 := ExecContainer(s.root).state, Handle(s, Drive);
            && s1.freed == s.freed + Removed(m, s1.root.status.NotStarted?) && |s1.root.children| <= 1
            && (s1.root.status.Undoing? ==> s1.root.index == 0) && !s1.root.status.UndoComplete?
  {
    hide ExecContainer, UndoContainer, Overtaken, Freed, Cleanup, Pending, Lost, DriveOnce;
    ExecInPass(s.root);
    ExecParts(s.root);
    var m := ExecContainer(s.root).state;
    if m.status.Executing? || m.status.Completed? {
      DriveForward(s);
    } else if m.status.ErrorStopped? {
      DriveBack(s);
      NoTail(s.freed);
    } else {
      BackIsBack(s.root);
      RollingDrive(s);
      RollingCount(s);
      NoTail(s.freed);
    }
  }

  lemma BackIsBack(n: Container)
    requires Root(n) && !n.status.UndoComplete?
    requires var m := ExecContainer(n).state; !m.status.Executing? && !m.status.Completed? && !m.status.ErrorStopped?
    ensures n.status.Undoing? && ExecContainer(n).state == n
  {
    if n.status.NotStarted? || n.status.Executing? { ExecRan(Node(n)); }
    ExecParts(n);
  }

  lemma DeliverCount(n: Container, result: nat, ms: nat)
    ensures |Deliver(Node(n), result, ms).state.n.children| == |n.children|
  {
  }

  lemma AcknowledgedAlive(s: Pass, result: nat, ms: nat)
    requires Alive(s)
    ensures var n := Handle(s, Acknowledged(result, ms)).root;
            !n.status.UndoComplete? && (n.status.Undoing? ==> n.index == 0) && |n.children| <= 1
  {
    var t := Node(s.root);
    DeliverCount(s.root, result, ms);
    if s.root.status.Undoing? {
      RollingAcknowledged(s, result, ms);
    } else {
      AtMostOneWaits(t);
      if Waits(t) == 0 {
        DeliverNobody(t, result, ms);
      } else {
        if !s.root.status.Executing? { RestingWaits(t); }
        DeliverRan(t, result, ms);
      }
    }
  }

  lemma HandleAlive(s: Pass, e: Event)
    requires Alive(s)
    ensures Alive(Handle(s, e))
  {
    hide Accounts, Deliver, DriveOnce, ExecContainer;
    LifeAccounts(s, [e]);
    assert [e][1..] == [];
    assert HandleAll(s, [e]) == HandleAll(Handle(s, e), []);
    match e
    case Drive => DriveFrees(s);
    case Acknowledged(result, ms) => AcknowledgedAlive(s, result, ms);
    case Submitted(a) =>
  }

  /** Over the whole life of the root: it never holds more than one action, and every pass
      removes exactly what is said above. */
  lemma {:induction false} LifeFrees(s: Pass, events: seq<Event>)
    requires Alive(s)
    ensures var e := HandleAll(s, events);
            && Alive(e)
            && Handle(e, Drive).freed
               == e.freed + Removed(ExecContainer(e.root).state, Handle(e, Drive).root.status.NotStarted?)
    decreases events
  {
    hide Alive, Removed, Handle, ExecContainer;
    if events == [] {
      DriveFrees(s);
    } else {
      HandleAlive(s, events[0]);
      LifeFrees(Handle(s, events[0]), events[1..]);
    }
  }

  lemma StartsAlive()
    ensures Alive(START)
  {
    assert Fresh(Node(START.root));
    FreshFacts(Node(START.root));
  }

  lemma AliveSays(s: Pass)
    requires Alive(s)
    ensures Root(s.root) && |s.root.children| <= 1
  {
  }

  /** In every life of the driver, a rollback that is finished has undone everything that
      was to be undone when the action had failed. */
  lemma LifeRollsBack(events: seq<Event>, more: seq<Event>)
    requires var s := HandleAll(START, events);
             ExecContainer(s.root).state.status.ErrorStopped? && Finishes(s, [Drive] + more)
    ensures var s := HandleAll(START, events);
            var m, e := ExecContainer(s.root).state, HandleAll(s, [Drive] + more);
            e.undone == s.undone + Pending(Node(m)) && e.freed == s.freed + Lost(Node(m))
  {
    hide Alive, ExecContainer, Finishes, HandleAll, Pending, Lost, Overtaken;
    StartsAlive();
    LifeFrees(START, events);
    var s := HandleAll(START, events);
    AliveSays(s);
    NoneOvertaken(s.root);
    DrivenRollback(s, more);
    NoTail(HandleAll(s, [Drive] + more).undone);
    NoTail(s.freed);
  }

  // ------------------------------------------------------ one action, from end to end

  /** What completed since `s0` was undone, last to first, apart from the lost leaves, which
      completed last, if the action has failed; if not, nothing was undone. */
  ghost predicate Concluded(s0: Pass, e: Pass, failed: bool, lost: seq<nat>) {
    exists done, undone ::
      && e.completed == s0.completed + done && e.undone == s0.undone + undone
      && if failed then done == Reverse(undone) + lost && e.freed == s0.freed + lost
         else undone == [] && e.freed == s0.freed + done
  }

  /** The action goes forward, or has stopped and the driver has not looked at it yet. */
  predicate Forward(s0: Pass, s: Pass) {
    && Alive(s) && s.root.children != [] && !s.root.status.Undoing?
    && s.completed == s0.completed + Done(Node(s.root)) && s.undone == s0.undone && s.freed == s0.freed
  }

  lemma ForwardDrive(s0: Pass, s: Pass)
    requires Forward(s0, s)
    ensures var m, s1 := ExecContainer(s.root).state, Handle(s, Drive);
            && (m.status.Executing? || m.status.Completed? || m.status.ErrorStopped?)
            && s1.completed == s0.completed + Done(Node(m))
            && (m.status.Executing? ==> Forward(s0, s1) && s1.root.status.Executing?)
            && (m.status.Completed? ==>
                  s1.root.status.NotStarted? && s1.undone == s0.undone && s1.freed == s0.freed + Done(Node(m)))
  {
    hide ExecContainer, Done, DriveOnce;
    ExecInPass(s.root);
    HandleAlive(s, Drive);
    DriveCompletes(s);
    Associates(s0.completed, Done(Node(s.root)), ExecContainer(s.root).log);
    NotBack(s.root);
    var m := ExecContainer(s.root).state;
    if !m.status.ErrorStopped? {
      DriveForward(s);
      NoTail(s.freed);
      if m.status.Executing? { ExecutingHasChildren(Handle(s, Drive).root); }
    }
  }

  lemma DriveCompletes(s: Pass)
    ensures Handle(s, Drive).completed == s.completed + ExecContainer(s.root).log
  {
  }

  lemma ExecutingHasChildren(n: Container)
    requires Root(n) && n.status.Executing?
    ensures n.children != []
  {
  }

  lemma NotBack(n: Container)
    requires Root(n) && !n.status.UndoComplete? && !n.status.Undoing?
    ensures var m := ExecContainer(n).state; m.status.Executing? || m.status.Completed? || m.status.ErrorStopped?
  {
    if n.status.NotStarted? || n.status.Executing? { ExecRan(Node(n)); }
    ExecParts(n);
  }

  lemma ForwardAcknowledged(s0: Pass, s: Pass, result: nat, ms: nat)
    requires Forward(s0, s)
    ensures Forward(s0, Handle(s, Acknowledged(result, ms)))
  {
    var t := Node(s.root);
    HandleAlive(s, Acknowledged(result, ms));
    DeliverCount(s.root, result, ms);
    AtMostOneWaits(t);
    if Waits(t) == 0 {
      DeliverNobody(t, result, ms);
    } else {
      if !s.root.status.Executing? { RestingWaits(t); }
      DeliverRan(t, result, ms);
      Associates(s0.completed, Done(t), Deliver(t, result, ms).log);
    }
  }

  /** Some pass finds that the action has stopped with an error. */
  predicate Fails(s: Pass, events: seq<Event>)
    decreases events
  {
    && events != []
    && ((events[0].Drive? && ExecContainer(s.root).state.status.ErrorStopped?)
        || Fails(Handle(s, events[0]), events[1..]))
  }

  /** The leaves that are lost in what comes: those below an abandoned container when the
      root stops. */
  function LostIn(s: Pass, events: seq<Event>): seq<nat>
    decreases events
  {
    if events == [] then []
    else if events[0].Drive? && ExecContainer(s.root).state.status.ErrorStopped? then
      Lost(Node(ExecContainer(s.root).state))
    else LostIn(Handle(s, events[0]), events[1..])
  }

  lemma {:induction false} ForwardConcludes(s0: Pass, s: Pass, events: seq<Event>)
    requires Forward(s0, s) && Finishes(s, events)
    requires s.root.status.NotStarted? ==> events[0].Drive?
    ensures Concluded(s0, HandleAll(s, events), Fails(s, events), LostIn(s, events))
    decreases events
  {
    hide Forward, ExecContainer, Done, Lost, Pending, Deliver, DriveOnce;
    var s1 := Handle(s, events[0]);
    if events[0].Drive? {
      ForwardDrive(s0, s);
      var m := ExecContainer(s.root).state;
      if m.status.ErrorStopped? {
        assert events == [Drive] + events[1..];
        ForwardFails(s0, s, events[1..]);
      } else if m.status.Completed? {
        assert HandleAll(s, events) == s1;
        NoTail(s0.undone);
        assert Concluded(s0, s1, Fails(s, events), LostIn(s, events)) by {
          assert s1.completed == s0.completed + Done(Node(m)) && s1.undone == s0.undone + [];
        }
      } else {
        ForwardConcludes(s0, s1, events[1..]);
      }
    } else {
      ForwardStays(s0, s, events[0]);
      ForwardConcludes(s0, s1, events[1..]);
    }
  }

  lemma ForwardStays(s0: Pass, s: Pass, e: Event)
    requires Forward(s0, s) && !e.Drive? && !s.root.status.NotStarted?
    ensures Forward(s0, Handle(s, e)) && !Handle(s, e).root.status.NotStarted?
  {
    match e
    case Acknowledged(result, ms) =>
      ForwardAcknowledged(s0, s, result, ms);
      StaysStarted(s.root, result, ms);
    case Submitted(a) =>
  }

  lemma StaysStarted(n: Container, result: nat, ms: nat)
    requires !n.status.NotStarted?
    ensures !Deliver(Node(n), result, ms).state.n.status.NotStarted?
  {
  }

  lemma ForwardFails(s0: Pass, s: Pass, more: seq<Event>)
    requires Forward(s0, s) && ExecContainer(s.root).state.status.ErrorStopped? && Finishes(s, [Drive] + more)
    ensures Concluded(s0, HandleAll(s, [Drive] + more), Fails(s, [Drive] + more), LostIn(s, [Drive] + more))
  {
    hide ExecContainer, Finishes, HandleAll, Pending, Lost, Done, Overtaken;
    var m, e := Node(ExecContainer(s.root).state), HandleAll(s, [Drive] + more);
    DrivenRollback(s, more);
    NoneOvertaken(s.root);
    NoTail(e.undone);
    NoTail(s.freed);
    ExecInPass(s.root);
    Associates(s0.completed, Done(Node(s.root)), ExecContainer(s.root).log);
    StoppedSplits(m);
    assert e.completed == s0.completed + Done(m) && e.undone == s0.undone + Pending(m);
  }

  /** From the submission of an action to an empty root until the driver gives back the
      root, whatever comes between: if the action does not fail, nothing was undone; if it
      does, all its leaves that had completed were undone, last to first, but for the lost. */
  lemma ActionConcludes(s: Pass, a: Action, more: seq<Event>)
    requires Alive(s) && s.root.status.NotStarted? && s.root.children == [] && Fresh(a)
    requires Finishes(Handle(s, Submitted(a)), [Drive] + more)
    ensures var s1 := Handle(s, Submitted(a));
            Concluded(s, HandleAll(s1, [Drive] + more), Fails(s1, [Drive] + more), LostIn(s1, [Drive] + more))
  {
    hide Finishes, HandleAll, ExecContainer;
    var s1 := Handle(s, Submitted(a));
    HandleAlive(s, Submitted(a));
    FreshFacts(Node(s1.root));
    NoTail(s.completed);
    ForwardConcludes(s, s1, [Drive] + more);
  }

  lemma {:induction false} PatientLoses(s: Pass, events: seq<Event>)
    requires Alive(s) && ActionPatience.Patient(Node(s.root))
    requires forall e | e in events && e.Submitted? :: ActionPatience.Patient(e.action)
    ensures LostIn(s, events) == []
    decreases events
  {
    hide Alive, ActionPatience.Patient, ExecContainer, Handle, Lost;
    if events != [] {
      assert events[0] in events;
      if events[0].Drive? && ExecContainer(s.root).state.status.ErrorStopped? {
        AliveSays(s);
        ExecInPass(s.root);
        ActionPatience.ExecPatient(Node(s.root));
        ActionPatience.PatientLosesNothing(Node(ExecContainer(s.root).state));
      } else {
        HandleAlive(s, events[0]);
        HandlePatient(s, events[0]);
        PatientLoses(Handle(s, events[0]), events[1..]);
      }
    }
  }

  lemma HandlePatient(s: Pass, e: Event)
    requires Alive(s) && ActionPatience.Patient(Node(s.root)) && (e.Submitted? ==> ActionPatience.Patient(e.action))
    ensures ActionPatience.Patient(Node(Handle(s, e).root))
  {
    hide ExecContainer, UndoContainer, Deliver, ActionPatience.Patient, Cleanup;
    match e
    case Drive =>
      var n := ExecContainer(s.root).state;
      ActionPatience.ExecPatient(Node(s.root));
      ActionPatience.UndoPatient(Node(n));
      CleanupPatient(n);
      CleanupPatient(UndoContainer(n).state);
    case Acknowledged(result, ms) => ActionPatience.DeliverPatient(Node(s.root), result, ms);
    case Submitted(a) =>
      if Handle(s, e) != s { SubmittedPatient(s.root, a); }
  }

  lemma SubmittedPatient(n: Container, a: Action)
    requires ActionPatience.Patient(Node(n)) && ActionPatience.Patient(a)
    requires n.timeout == INFINITE_TIMEOUT || a.Leaf?
    ensures ActionPatience.Patient(Node(n.(children := [a])))
  {
  }

  lemma CleanupPatient(n: Container)
    requires ActionPatience.Patient(Node(n))
    ensures ActionPatience.Patient(Node(Cleanup(n, true)))
  {
  }

  /** An action in which only containers of leaves have a time limit is all or nothing. */
  lemma PatientActionConcludes(s: Pass, a: Action, more: seq<Event>)
    requires Alive(s) && s.root.status.NotStarted? && s.root.children == [] && Fresh(a)
    requires ActionPatience.Patient(Node(s.root)) && ActionPatience.Patient(a)
    requires forall e | e in more && e.Submitted? :: ActionPatience.Patient(e.action)
    requires Finishes(Handle(s, Submitted(a)), [Drive] + more)
    ensures var s1 := Handle(s, Submitted(a));
            Concluded(s, HandleAll(s1, [Drive] + more), Fails(s1, [Drive] + more), [])
  {
    hide Alive, ActionPatience.Patient, Finishes, HandleAll, Handle, Concluded, Fails;
    ActionConcludes(s, a, more);
    HandleAlive(s, Submitted(a));
    HandlePatient(s, Submitted(a));
    PatientLoses(Handle(s, Submitted(a)), [Drive] + more);
  }
}

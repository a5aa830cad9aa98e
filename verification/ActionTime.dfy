/** Where the time of an action goes: what a container counts as elapsed is what its started
    parts have really taken, so that time limits are shared out as they should be. */
module ActionTime {
  import opened ActionTree
  import opened ActionInvariant
  import opened ActionRollback
  import opened ActionRuns
  import opened ActionBudget

  /** How long the leaves took that were acknowledged, by their places in the tree: the
      positions of the children on the way to a leaf. */
  type Clock = map<seq<nat>, nat>

  function At(clock: Clock, path: seq<nat>): nat {
    if path in clock then clock[path] else 0
  }

  /** The time spent in t: a container that has started took its own _execute(); a leaf that
      has completed took its _execute() if that gave a result at once, and else the time
      up to its acknowledgement. */
  function Taken(t: Action, clock: Clock, path: seq<nat>): nat
    decreases t, 0
  {
    match t
    case Leaf(c) =>
      if c.status.NotStarted? || c.status.Executing? then 0
      else if c.execResult >= 0 then c.execMs
      else At(clock, path)
    case Node(n) =>
      (if n.status.NotStarted? then 0 else n.execMs) + AllTaken(n.children, clock, path, 0)
  }

  /** For the children from position i on. */
  function AllTaken(ts: seq<Action>, clock: Clock, path: seq<nat>, i: nat): nat
    decreases ts, |ts| - i
  {
    if i >= |ts| then 0 else Taken(ts[i], clock, path + [i]) + AllTaken(ts, clock, path, i + 1)
  }

  /** Every part of t has noted the time it took. */
  predicate Timely(t: Action, clock: Clock, path: seq<nat>)
    decreases t
  {
    match t
    case Leaf(c) => c.ms == Taken(t, clock, path) && (c.status.Executing? ==> c.execResult < 0)
    case Node(n) =>
      if n.status.NotStarted? then Fresh(t)
      else n.ms == n.execMs && forall i | 0 <= i < |n.children| :: Timely(n.children[i], clock, path + [i])
  }

  lemma {:induction false} ElapsedFrom(ts: seq<Action>, clock: Clock, path: seq<nat>, i: nat)
    requires i <= |ts| && forall k | i <= k < |ts| :: Timely(ts[k], clock, path + [k])
    ensures AllElapsed(ts[i..]) == AllTaken(ts, clock, path, i)
    decreases ts, |ts| - i
  {
    if i < |ts| {
      assert ts[i..][0] == ts[i] && ts[i..][1..] == ts[i + 1..];
      ElapsedIsTaken(ts[i], clock, path + [i]);
      ElapsedFrom(ts, clock, path, i + 1);
    }
  }

  lemma {:induction false} FreshTimely(t: Action, clock: Clock, path: seq<nat>)
    requires Fresh(t)
    ensures Timely(t, clock, path)
  {
  }

  /** What getExecutionTime() answers is the time taken. */
  lemma {:induction false} ElapsedIsTaken(t: Action, clock: Clock, path: seq<nat>)
    requires Timely(t, clock, path)
    ensures Elapsed(t) == Taken(t, clock, path)
    decreases t
  {
    match t
    case Leaf(_) =>
    case Node(n) =>
      forall i | 0 <= i < |n.children| ensures Timely(n.children[i], clock, path + [i]) {
        if n.status.NotStarted? { FreshTimely(n.children[i], clock, path + [i]); }
      }
      ElapsedFrom(n.children, clock, path, 0);
      assert n.children[0..] == n.children;
  }

  // ------------------------------------------------------ execute()

  lemma StartedTimely(n: Container, clock: Clock, path: seq<nat>)
    requires Fresh(Node(n))
    ensures Timely(Node(Started(n)), clock, path)
  {
    var cs := n.children + n.planned;
    forall i | 0 <= i < |cs| ensures Timely(cs[i], clock, path + [i]) {
      if i >= |n.children| { assert cs[i] == n.planned[i - |n.children|]; }
      FreshTimely(cs[i], clock, path + [i]);
    }
  }

  lemma TimedTimely(n: Container, c: Action, clock: Clock, path: seq<nat>)
    requires Timely(c, clock, path)
    ensures Timely(Timed(n, c), clock, path)
  {
    hide Elapsed;
  }

  /** A child was replaced and the container heard of it. */
  lemma ResumeTimely(n: Container, r: Outcome<Action>, clock: Clock, path: seq<nat>)
    requires !n.status.NotStarted? && Timely(Node(n), clock, path) && 0 <= n.index < |n.children|
    requires Timely(r.state, clock, path + [n.index])
    ensures var n1 := Resume(n, r).0;
            !n1.status.NotStarted? && Timely(Node(n1), clock, path)
  {
  }

  lemma {:induction false} ExecTimely(t: Action, clock: Clock, path: seq<nat>)
    requires Timely(t, clock, path)
    ensures Timely(Exec(t).state, clock, path)
    decreases Size(t), 1
  {
    match t
    case Leaf(_) =>
    case Node(n) =>
      if n.status.NotStarted? {
        var n1 := Started(n);
        StartedTimely(n, clock, path);
        SizeAllConcat(n.children, n.planned);
        if n1.error == 0 {
          if 0 <= n1.index < |n1.children| { SizeAllAt(n1.children, n1.index); }
          ExecLoopTimely(n1, clock, path);
        }
      } else if n.status.Executing? {
        if 0 <= n.index < |n.children| { SizeAllAt(n.children, n.index); }
        ExecLoopTimely(n, clock, path);
      }
  }

  lemma {:induction false} ExecLoopTimely(n: Container, clock: Clock, path: seq<nat>)
    requires !n.status.NotStarted? && Timely(Node(n), clock, path)
    ensures Timely(Node(ExecLoop(n).state), clock, path)
    decreases if 0 <= n.index < |n.children| then SizeAll(n.children[n.index..]) else 0, 0
  {
    if 0 <= n.index < |n.children| && (n.timeout == INFINITE_TIMEOUT || Elapsed(Node(n)) <= n.timeout) {
      var c := Timed(n, n.children[n.index]);
      SizeAllAt(n.children, n.index);
      TimedTimely(n, n.children[n.index], clock, path + [n.index]);
      assert Size(c) == Size(n.children[n.index]);
      ExecTimely(c, clock, path + [n.index]);
      var r := Exec(c);
      ResumeTimely(n, r, clock, path);
      var n2 := Resume(n, r).0;
      if !r.state.Status().Executing? && n2.status.Executing? && n2.index == n.index + 1 {
        assert n2.children[n2.index..] == n.children[n.index + 1..];
        ExecLoopTimely(n2, clock, path);
      }
    }
  }

  // ------------------------------------------------------ undo()

  lemma UndoTurns(n: Container)
    requires n.status.Undoing? || (Undoable(Node(n)) && n.children != [])
    ensures UndoStart(n).index < |n.children| && UndoContainer(n) == UndoLoop(UndoStart(n))
  {
    hide UndoLoop, SizeAll, Undo, SelfUpdate, Timely;
    var n1 := UndoStart(n).(index := n.index);
    assert n1.children == n.children;
    assert UndoContainer(n) == UndoFrom(n1);
  }

  lemma {:induction false} UndoTimely(t: Action, clock: Clock, path: seq<nat>)
    requires Timely(t, clock, path)
    ensures Timely(Undo(t).state, clock, path)
    decreases Size(t), 2
  {
    match t
    case Leaf(_) =>
    case Node(n) =>
      if n.status.Undoing? || (Undoable(t) && n.children != []) {
        var n1 := UndoStart(n);
        UndoTurns(n);
        if n1.index >= 0 { SizeAllAt(n1.children, n1.index); }
        UndoLoopTimely(n1, clock, path);
      }
  }

  lemma IndexTimely(n: Container, index: int, clock: Clock, path: seq<nat>)
    requires !n.status.NotStarted? && Timely(Node(n), clock, path)
    ensures Timely(Node(n.(index := index)), clock, path)
    ensures Timely(Node(UpdateNode(n, n.error).0), clock, path)
    ensures forall i | 0 <= i < |n.children| :: Timely(n.children[i], clock, path + [i])
  {
  }

  lemma {:induction false} UndoLoopTimely(n: Container, clock: Clock, path: seq<nat>)
    requires !n.status.NotStarted? && Timely(Node(n), clock, path) && n.index < |n.children|
    ensures Timely(Node(UndoLoop(n).state), clock, path)
    decreases if n.index >= 0 then SizeAll(n.children[..n.index + 1]) else 0, 1
  {
    hide Timely;
    IndexTimely(n, n.index - 1, clock, path);
    if n.index >= 0 {
      SizeAllAt(n.children, n.index);
      if !Undoable(n.children[n.index]) {
        UndoLoopTimely(n.(index := n.index - 1), clock, path);
      } else {
        UndoTimely(n.children[n.index], clock, path + [n.index]);
        var r := Undo(n.children[n.index]);
        ResumeTimely(n, r, clock, path);
        var n1 := Resume(n, r).0;
        if r.state.Status().UndoComplete? && n1.index == n.index {
          assert n1.children[..n.index] == n.children[..n.index];
          IndexTimely(n1, n.index - 1, clock, path);
          UndoLoopTimely(n1.(index := n.index - 1), clock, path);
        }
      }
    }
  }

  // ------------------------------------------------------ acknowledgements

  /** The place of the leaf on the way along current children. */
  function CurrentLeaf(t: Action): seq<nat>
    decreases t
  {
    match t
    case Leaf(_) => []
    case Node(n) =>
      if 0 <= n.index < |n.children| then [n.index] + CurrentLeaf(n.children[n.index]) else []
  }

  /** An acknowledgement that comes while a leaf is executing says how long that leaf took. */
  function Ticked(t: Action, ms: nat, clock: Clock, path: seq<nat>): Clock {
    if t.Status().Executing? && Waits(t) > 0 then clock[path + CurrentLeaf(t) := ms] else clock
  }

  predicate Below(path: seq<nat>, key: seq<nat>) {
    path <= key
  }

  /** What is noted elsewhere does not matter. */
  lemma {:induction false} TakenElsewhere(t: Action, clock: Clock, path: seq<nat>, key: seq<nat>, ms: nat)
    requires !Below(path, key)
    ensures Taken(t, clock[key := ms], path) == Taken(t, clock, path)
    decreases t
  {
    match t
    case Leaf(_) =>
    case Node(n) => AllTakenElsewhere(n.children, clock, path, key, ms, 0);
  }

  lemma {:induction false} AllTakenElsewhere(ts: seq<Action>, clock: Clock, path: seq<nat>, key: seq<nat>,
      ms: nat, i: nat)
    requires !Below(path, key)
    ensures AllTaken(ts, clock[key := ms], path, i) == AllTaken(ts, clock, path, i)
    decreases ts, |ts| - i
  {
    if i < |ts| {
      NotBelow(path, i, key);
      TakenElsewhere(ts[i], clock, path + [i], key, ms);
      AllTakenElsewhere(ts, clock, path, key, ms, i + 1);
    }
  }

  lemma NotBelow(path: seq<nat>, i: nat, key: seq<nat>)
    requires !Below(path, key)
    ensures !Below(path + [i], key)
  {
    assert path <= path + [i];
  }

  lemma {:induction false} TimelyElsewhere(t: Action, clock: Clock, path: seq<nat>, key: seq<nat>, ms: nat)
    requires Timely(t, clock, path) && !Below(path, key)
    ensures Timely(t, clock[key := ms], path)
    decreases t
  {
    match t
    case Leaf(_) =>
    case Node(n) =>
      if !n.status.NotStarted? {
        forall i | 0 <= i < |n.children| ensures Timely(n.children[i], clock[key := ms], path + [i]) {
          NotBelow(path, i, key);
          TimelyElsewhere(n.children[i], clock, path + [i], key, ms);
        }
      }
  }

  lemma SiblingsApart(path: seq<nat>, i: nat, j: nat, rest: seq<nat>)
    requires i != j
    ensures !Below(path + [i], path + ([j] + rest))
  {
    assert (path + [i])[|path|] == i && (path + ([j] + rest))[|path|] == j;
  }

  lemma TickedBelow(n: Container, ms: nat, clock: Clock, path: seq<nat>)
    requires WF(Node(n)) && (n.status.Executing? || n.status.Undoing?)
    ensures var c := n.children[n.index];
            && Ticked(Node(n), ms, clock, path) == Ticked(c, ms, clock, path + [n.index])
            && path + CurrentLeaf(Node(n)) == path + ([n.index] + CurrentLeaf(c))
  {
    var c := n.children[n.index];
    WaitsAtIndex(n);
    if c.Status().NotStarted? { RestingWaits(c); }
    assert path + ([n.index] + CurrentLeaf(c)) == path + [n.index] + CurrentLeaf(c);
  }

  lemma {:induction false} DeliverTimely(t: Action, r: nat, ms: nat, clock: Clock, path: seq<nat>)
    requires WF(t) && Timely(t, clock, path)
    ensures Timely(Deliver(t, r, ms).state, Ticked(t, ms, clock, path), path)
    decreases t
  {
    match t
    case Leaf(_) => assert path + [] == path;
    case Node(n) =>
      if n.status.Executing? || n.status.Undoing? {
        var c := n.children[n.index];
        var clock1 := Ticked(t, ms, clock, path);
        TickedBelow(n, ms, clock, path);
        DeliverTimely(c, r, ms, clock, path + [n.index]);
        forall i | 0 <= i < |n.children| && i != n.index ensures Timely(n.children[i], clock1, path + [i]) {
          SiblingsApart(path, i, n.index, CurrentLeaf(c));
          if clock1 != clock { TimelyElsewhere(n.children[i], clock, path + [i], path + CurrentLeaf(t), ms); }
        }
        DeliveredTimely(n, Deliver(c, r, ms), clock1, path);
      }
  }

  lemma DeliveredTimely(n: Container, r: Outcome<Action>, clock: Clock, path: seq<nat>)
    requires !n.status.NotStarted? && n.ms == n.execMs && 0 <= n.index < |n.children|
    requires forall i | 0 <= i < |n.children| && i != n.index :: Timely(n.children[i], clock, path + [i])
    requires Timely(r.state, clock, path + [n.index])
    ensures Timely(Node(Resume(n, r).0), clock, path)
  {
  }

  // ------------------------------------------------------ over whole runs

  /** What a step adds to the clock. */
  function TickedBy(s: Run, clock: Clock, step: Step): Clock {
    if step.Acknowledge? then Ticked(Node(s.root), step.ms, clock, []) else clock
  }

  /** The acknowledgements of a run. */
  function ClockOf(s: Run, clock: Clock, steps: seq<Step>): Clock
    decreases steps
  {
    if steps == [] then clock else ClockOf(Take(s, steps[0]), TickedBy(s, clock, steps[0]), steps[1..])
  }

  lemma {:induction false} RunTimely(s: Run, clock: Clock, steps: seq<Step>)
    requires Sound(s) && Timely(Node(s.root), clock, [])
    ensures Timely(Node(TakeAll(s, steps).root), ClockOf(s, clock, steps), [])
    decreases steps
  {
    if steps != [] {
      var t := Node(s.root);
      match steps[0] {
        case Execute => ExecTimely(t, clock, []);
        case Rollback => UndoTimely(t, clock, []);
        case Acknowledge(result, ms) => DeliverTimely(t, result, ms, clock, []);
      }
      RunSound(s, [steps[0]]);
      assert TakeAll(s, [steps[0]]) == Take(s, steps[0]);
      RunTimely(Take(s, steps[0]), TickedBy(s, clock, steps[0]), steps[1..]);
    }
  }

  /** The place of the k-th action on the way along current children. */
  function PlaceOf(t: Action, k: nat): seq<nat>
    requires Reaches(t, k)
    decreases k
  {
    if k == 0 then [] else [t.n.index] + PlaceOf(t.n.children[t.n.index], k - 1)
  }

  lemma {:induction false} AlongTimely(t: Action, clock: Clock, path: seq<nat>, k: nat)
    requires Timely(t, clock, path) && Reaches(t, k)
    ensures Timely(Along(t, k), clock, path + PlaceOf(t, k))
    decreases k
  {
    if k == 0 {
      assert path + [] == path;
    } else {
      var i := t.n.index;
      if t.n.status.NotStarted? { FreshTimely(t.n.children[i], clock, path + [i]); }
      AlongTimely(t.n.children[i], clock, path + [i], k - 1);
      assert path + [i] + PlaceOf(t.n.children[i], k - 1) == path + PlaceOf(t, k);
    }
  }

  /** After any run, what the whole tree, and each container on the way to the current leaf,
      counts as elapsed is the time that its started parts have taken. */
  lemma TimeIsAccounted(root: Container, steps: seq<Step>, k: nat)
    requires Fresh(Node(root)) && Reaches(Node(TakeAll(Begin(root), steps).root), k)
    ensures var t, clock := Node(TakeAll(Begin(root), steps).root), ClockOf(Begin(root), map[], steps);
            Elapsed(Along(t, k)) == Taken(Along(t, k), clock, PlaceOf(t, k))
  {
    BeginSound(root);
    FreshTimely(Node(root), map[], []);
    RunTimely(Begin(root), map[], steps);
    var t, clock := Node(TakeAll(Begin(root), steps).root), ClockOf(Begin(root), map[], steps);
    AlongTimely(t, clock, [], k);
    assert [] + PlaceOf(t, k) == PlaceOf(t, k);
    ElapsedIsTaken(Along(t, k), clock, PlaceOf(t, k));
  }

  /** In any run, while a leaf waits, it was given what each container above it with a time
      limit had left: the limit less the time that the container's started parts have taken. */
  lemma BudgetIsTimeLeft(root: Container, steps: seq<Step>, j: nat, k: nat)
    requires Fresh(Node(root)) && j < k
    requires var t := Node(TakeAll(Begin(root), steps).root);
             t.Status().Executing? && Waits(t) > 0 && Reaches(t, k) && Along(t, k).Leaf?
    ensures var t, clock := Node(TakeAll(Begin(root), steps).root), ClockOf(Begin(root), map[], steps);
            && Reaches(t, j)
            && (Along(t, j).Timeout() != INFINITE_TIMEOUT ==>
                  Along(t, k).Timeout() == Along(t, j).Timeout() - Taken(Along(t, j), clock, PlaceOf(t, j)))
  {
    Reachable(root, steps);
    EveryAncestorsBudget(Node(TakeAll(Begin(root), steps).root), j, k);
    TimeIsAccounted(root, steps, j);
  }
}

/** The action engine as a function of its state. A value of type `Action` is a whole
    tree of actions at rest; `Exec`, `Undo` and `Deliver` say what one call of
    execute(), undo() or update() makes of it. The classes of module ActionObjects are
    proved to compute exactly these functions.

    What the environment decides is part of a node: the value its virtual _execute() or
    _undo() will return, the time that takes and the children it will append. */
module ActionTree {

  type uint32 = x: int | 0 <= x < 0x1_0000_0000

  const INFINITE_TIMEOUT: uint32 := 0xFFFF_FFFF
  const E_ABORTED: nat := 9

  datatype Status = NotStarted | Executing | Completed | Undoing | UndoComplete | ErrorStopped

  /** What an action tells its first observer during one call: nothing, or one result. */
  datatype Note = Silent | Told(result: int)

  /** CAmActionCommand; `id` names the leaf in the logs. */
  datatype Command = Command(
    id: nat, status: Status, error: int, timeout: uint32, ms: nat, undoRequired: bool,
    execResult: int, execMs: nat, undoResult: int)

  /** CAmActionContainer; its own _execute() and _undo() never wait. */
  datatype Container = Container(
    status: Status, error: int, index: int, timeout: uint32, ms: nat, undoRequired: bool,
    execResult: nat, execMs: nat, undoResult: nat,
    children: seq<Action>, planned: seq<Action>)

  datatype Action = Leaf(c: Command) | Node(n: Container) {
    function Status(): Status {
      match this
      case Leaf(c) => c.status
      case Node(n) => n.status
    }

    function Error(): int {
      match this
      case Leaf(c) => c.error
      case Node(n) => n.error
    }

    function Timeout(): uint32 {
      match this
      case Leaf(c) => c.timeout
      case Node(n) => n.timeout
    }

    /** setTimeout() */
    function TimedBy(timeout: uint32): Action {
      match this
      case Leaf(c) => Leaf(c.(timeout := timeout))
      case Node(n) => Node(n.(timeout := timeout))
    }
  }

  /** The state after a call, what the observer was told, and the leaves that completed
      with success (Exec, Deliver) or whose undo() began (Undo), in temporal order. */
  datatype Outcome<T> = Outcome(state: T, note: Note, log: seq<nat>)

  // ------------------------------------------------------------------ sizes

  ghost function Size(t: Action): nat
    decreases t
  {
    match t
    case Leaf(_) => 1
    case Node(n) => 1 + SizeAll(n.children) + SizeAll(n.planned)
  }

  ghost function SizeAll(ts: seq<Action>): nat
    decreases ts
  {
    if ts == [] then 0 else 1 + Size(ts[0]) + SizeAll(ts[1..])
  }

  lemma SizeAllConcat(a: seq<Action>, b: seq<Action>)
    ensures SizeAll(a + b) == SizeAll(a) + SizeAll(b)
  {
    if a == [] {
      assert a + b == b;
    } else {
      assert (a + b)[1..] == a[1..] + b;
    }
  }

  lemma SizeAllAt(ts: seq<Action>, i: nat)
    requires i < |ts|
    ensures SizeAll(ts[i..]) == 1 + Size(ts[i]) + SizeAll(ts[i + 1..])
    ensures SizeAll(ts[..i + 1]) == SizeAll(ts[..i]) + 1 + Size(ts[i])
    ensures SizeAll(ts[i..]) <= SizeAll(ts) && SizeAll(ts[..i + 1]) <= SizeAll(ts)
  {
    assert ts[i..][1..] == ts[i + 1..];
    assert ts[..i + 1] == ts[..i] + [ts[i]];
    SizeAllConcat(ts[..i], [ts[i]]);
    assert ts == ts[..i] + ts[i..];
    SizeAllConcat(ts[..i], ts[i..]);
    assert ts == ts[..i + 1] + ts[i + 1..];
    SizeAllConcat(ts[..i + 1], ts[i + 1..]);
  }

  // ------------------------------------------------- execution time

  /** getExecutionTime() */
  function Elapsed(t: Action): nat
    decreases t
  {
    match t
    case Leaf(c) => c.ms
    case Node(n) => n.ms + AllElapsed(n.children)
  }

  function AllElapsed(ts: seq<Action>): nat
    decreases ts
  {
    if ts == [] then 0 else Elapsed(ts[0]) + AllElapsed(ts[1..])
  }

  // -------------------------------------------------------- one update()

  /** CAmActionContainer::update(): the reaction of a container to the result of its
      current child, or to its own. */
  function UpdateNode(n: Container, r: int): (u: (Container, Note))
    ensures u.0 == n.(status := u.0.status, error := r, index := u.0.index)
  {
    var n1 := n.(error := r);
    if n.status.Executing? then
      if r > 0 then
        (n1.(status := ErrorStopped), Told(r))
      else if n.index + 1 >= |n.children| then
        (n1.(index := n.index + 1, status := Completed), Told(r))
      else
        (n1.(index := n.index + 1), Silent)
    else if n.status.Undoing? && n.index < 0 then
      (n1.(status := UndoComplete), Told(r))
    else
      (n1, Silent)
  }

  function Heed(n: Container, note: Note): (Container, Note) {
    match note
    case Silent => (n, Silent)
    case Told(r) => UpdateNode(n, r)
  }

  /** The current child has run and become r.state; its container hears of it. */
  function Resume(n: Container, r: Outcome<Action>): (u: (Container, Note))
    requires 0 <= n.index < |n.children|
    ensures u.0.children == n.children[n.index := r.state]
  {
    Heed(n.(children := n.children[n.index := r.state]), r.note)
  }

  /** update() called by a container on itself. */
  function SelfUpdate(n: Container, r: int): Outcome<Container> {
    var (n1, note) := UpdateNode(n, r);
    Outcome(n1, note, [])
  }

  // -------------------------------------------------------- execute()

  function ExecCommand(c: Command): Outcome<Command> {
    if !c.status.NotStarted? then Outcome(c, Silent, [])
    else if c.execResult < 0 then Outcome(c.(status := Executing, error := c.execResult), Silent, [])
    else Outcome(c.(status := Completed, error := c.execResult, ms := c.execMs), Told(c.execResult),
                 if c.execResult == 0 then [c.id] else [])
  }

  function Exec(t: Action): Outcome<Action>
    decreases Size(t), 1
  {
    match t
    case Leaf(c) => var r := ExecCommand(c); Outcome(Leaf(r.state), r.note, r.log)
    case Node(n) => var r := ExecContainer(n); Outcome(Node(r.state), r.note, r.log)
  }

  /** A container that starts: its own _execute() has run and appended its children. */
  function Started(n: Container): Container {
    n.(error := n.execResult, ms := n.execMs, status := Executing,
       children := n.children + n.planned, planned := [])
  }

  function ExecContainer(n: Container): (r: Outcome<Container>)
    ensures r.state.execResult == n.execResult
    decreases 1 + SizeAll(n.children) + SizeAll(n.planned), 0
  {
    if n.status.NotStarted? then
      var n1 := Started(n);
      if n1.error != 0 then SelfUpdate(n1, n1.error)
      else
        SizeAllConcat(n.children, n.planned);
        if 0 <= n1.index < |n1.children| then SizeAllAt(n1.children, n1.index); ExecLoop(n1)
        else ExecLoop(n1)
    else if n.status.Executing? then
      if 0 <= n.index < |n.children| then SizeAllAt(n.children, n.index); ExecLoop(n)
      else ExecLoop(n)
    else if n.status.Completed? then SelfUpdate(n, n.error)
    else Outcome(n, Silent, [])
  }

  /** A child that has not started inherits what is left of a finite timeout. */
  function Timed(n: Container, c: Action): Action {
    if n.timeout != INFINITE_TIMEOUT && c.Status().NotStarted? && Elapsed(Node(n)) <= n.timeout
    then c.TimedBy(n.timeout - Elapsed(Node(n)))
    else c
  }

  /** The while loop of CAmActionContainer::execute(), entered with status EXECUTING. */
  function ExecLoop(n: Container): (r: Outcome<Container>)
    ensures r.state.execResult == n.execResult
    decreases if 0 <= n.index < |n.children| then SizeAll(n.children[n.index..]) else 0, 0
  {
    if !(0 <= n.index < |n.children|) then SelfUpdate(n, n.error)
    else if n.timeout != INFINITE_TIMEOUT && Elapsed(Node(n)) > n.timeout then SelfUpdate(n, E_ABORTED)
    else
      var c := Timed(n, n.children[n.index]);
      SizeAllAt(n.children, n.index);
      var r := Exec(c);
      var (n2, note) := Resume(n, r);
      if r.state.Status().Executing? || !n2.status.Executing? || n2.index != n.index + 1 then
        Outcome(n2, note, r.log)
      else
        assert n2.index < |n2.children| ==> n2.children[n2.index..] == n.children[n.index + 1..];
        var rest := ExecLoop(n2);
        Outcome(rest.state, rest.note, r.log + rest.log)
  }

  // -------------------------------------------------------- undo()

  predicate Undoable(t: Action) {
    t.Status().ErrorStopped? || (t.Status().Completed? && t.Error() == 0) || t.Status().Undoing?
  }

  function UndoCommand(c: Command): Outcome<Command> {
    if !c.status.Completed? then Outcome(c, Silent, [])
    else
      var e := if c.undoRequired then c.undoResult else c.error;
      if e >= 0 then Outcome(c.(status := UndoComplete, error := e), Told(e), [c.id])
      else Outcome(c.(status := Undoing, error := e), Silent, [c.id])
  }

  function Undo(t: Action): Outcome<Action>
    decreases Size(t), 1
  {
    match t
    case Leaf(c) => var r := UndoCommand(c); Outcome(Leaf(r.state), r.note, r.log)
    case Node(n) => var r := UndoContainer(n); Outcome(Node(r.state), r.note, r.log)
  }

  function UndoContainer(n: Container): (r: Outcome<Container>)
    ensures r.state.execResult == n.execResult
    decreases 1 + SizeAll(n.children) + SizeAll(n.planned), 0
  {
    if n.status.ErrorStopped? || (n.status.Completed? && n.error == 0) then
      var n1 := n.(error := if n.undoRequired then n.undoResult else n.error);
      if |n.children| > 0 then UndoFrom(n1.(status := Undoing))
      else SelfUpdate(n1.(status := UndoComplete), n1.error)
    else if n.status.Undoing? then UndoFrom(n)
    else Outcome(n, Silent, [])
  }

  /** The index is signed and the number of children is not, so a negative index
      compares as a large one. */
  function UndoFrom(n: Container): (r: Outcome<Container>)
    ensures r.state.execResult == n.execResult
    decreases SizeAll(n.children), 1
  {
    var last := |n.children| - 1;
    var n1 := n.(index := if n.index < 0 || n.index > last then last else n.index);
    if n1.index >= 0 then SizeAllAt(n1.children, n1.index); UndoLoop(n1) else UndoLoop(n1)
  }

  /** The while loop of CAmActionContainer::undo(), entered with status UNDOING. */
  function UndoLoop(n: Container): (r: Outcome<Container>)
    requires n.index < |n.children|
    ensures r.state.execResult == n.execResult
    decreases if n.index >= 0 then SizeAll(n.children[..n.index + 1]) else 0, 0
  {
    if n.index < 0 then SelfUpdate(n, n.error)
    else
      SizeAllAt(n.children, n.index);
      if !Undoable(n.children[n.index]) then UndoLoop(n.(index := n.index - 1))
      else
        var r := Undo(n.children[n.index]);
        var (n1, note) := Resume(n, r);
        if !r.state.Status().UndoComplete? || n1.index != n.index then Outcome(n1, note, r.log)
        else
          assert n1.children[..n.index] == n.children[..n.index];
          var rest := UndoLoop(n1.(index := n.index - 1));
          Outcome(rest.state, rest.note, r.log + rest.log)
  }

  // ------------------------------------------------- acknowledgements and timers

  /** CAmActionCommand::update() */
  function UpdateCommand(c: Command, r: int, ms: nat): Command {
    if c.status.Executing? then c.(error := r, status := Completed, ms := ms)
    else c.(error := r, status := UndoComplete)
  }

  /** An acknowledgement reaches the waiting leaf on the path of current children; its
      result then climbs from observer to observer. A leaf's timer expiring is
      Deliver(t, E_ABORTED, ms). */
  function Deliver(t: Action, r: nat, ms: nat): Outcome<Action>
    decreases t
  {
    match t
    case Leaf(c) =>
      if c.status.Executing? || c.status.Undoing? then
        Outcome(Leaf(UpdateCommand(c, r, ms)), Told(r), if c.status.Executing? && r == 0 then [c.id] else [])
      else Outcome(t, Silent, [])
    case Node(n) =>
      if (n.status.Executing? || n.status.Undoing?) && 0 <= n.index < |n.children| then
        var d := Deliver(n.children[n.index], r, ms);
        var (n1, note) := Resume(n, d);
        Outcome(Node(n1), note, d.log)
      else Outcome(t, Silent, [])
  }
}

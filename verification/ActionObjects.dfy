/** The action engine as the program has it: objects that hold their children, notify
    their first observer and are updated in place while callers further up are in the
    middle of their own loops. Every method is proved to do what the functions of
    module ActionTree say. */
module ActionObjects {
  import opened ActionTree
  import opened Sequences
  import opened ActionInvariant
  import opened ActionRollback
  import opened ActionDriver
  import opened ActionBudget

  /** The part of a container that an update from below can change. */
  datatype Frame = Frame(status: Status, error: int, index: int, count: nat)

  function UpdateFrame(f: Frame, r: int): (Frame, Note) {
    var f1 := f.(error := r);
    if f.status.Executing? then
      if r > 0 then (f1.(status := ErrorStopped), Told(r))
      else if f.index + 1 >= f.count then (f1.(index := f.index + 1, status := Completed), Told(r))
      else (f1.(index := f.index + 1), Silent)
    else if f.status.Undoing? && f.index < 0 then (f1.(status := UndoComplete), Told(r))
    else (f1, Silent)
  }

  /** A result climbs along the observers, as far as they pass it on. */
  function Climb(fs: seq<Frame>, note: Note): seq<Frame> {
    if fs == [] || note.Silent? then fs
    else
      var (f, note1) := UpdateFrame(fs[0], note.result);
      [f] + Climb(fs[1..], note1)
  }

  function FrameOf(n: Container): Frame { Frame(n.status, n.error, n.index, |n.children|) }

  function WithFrame(n: Container, f: Frame): Container {
    n.(status := f.status, error := f.error, index := f.index)
  }

  /** Updating a container is updating its frame. */
  lemma FrameUpdates(n: Container, r: int)
    ensures UpdateNode(n, r) == (WithFrame(n, UpdateFrame(FrameOf(n), r).0), UpdateFrame(FrameOf(n), r).1)
  {
  }

  /** What a container and those above it become when its child tells them `r.note`. */
  lemma ResumeClimbs(n: Container, r: Outcome<Action>, fs: seq<Frame>)
    requires 0 <= n.index < |n.children| && fs != [] && fs[0] == FrameOf(n)
    ensures var (n2, note) := Resume(n, r);
            var gs := Climb(fs, r.note);
            && gs != [] && gs[1..] == Climb(fs[1..], note)
            && n2 == WithFrame(n.(children := n.children[n.index := r.state]), gs[0])
  {
    var n1 := n.(children := n.children[n.index := r.state]);
    assert FrameOf(n1) == FrameOf(n);
    if r.note.Told? { FrameUpdates(n1, r.note.result); }
  }

  ghost function Frames(ups: seq<ActionContainer>): (fs: seq<Frame>)
    reads ups`status, ups`error, ups`index, ups`children
    ensures |fs| == |ups|
  {
    if ups == [] then [] else [ups[0].Head()] + Frames(ups[1..])
  }

  /** `ups` are the containers above, nearest first: each is the first observer of the
      one before. */
  ghost predicate Chain(observers: seq<ActionContainer>, ups: seq<ActionContainer>)
    reads ups`observers
    decreases |ups|
  {
    if ups == [] then observers == []
    else
      && |observers| > 0 && observers[0] == ups[0]
      && ups[0] !in ups[1..]
      && Chain(ups[0].observers, ups[1..])
  }

  /** The first observer of a subject hears of a result; the others never do. */
  method Notify(observers: seq<ActionContainer>, result: int, ghost ups: seq<ActionContainer>)
    requires Chain(observers, ups)
    modifies ups`status, ups`error, ups`index
    ensures Frames(ups) == Climb(old(Frames(ups)), Told(result))
    decreases |ups|, 0
  {
    if |observers| > 0 {
      assert Frames(ups)[1..] == Frames(ups[1..]);
      observers[0].Update(result, ups[1..]);
    }
  }

  lemma FinishedFrom(s: Status, ts: seq<Action>)
    ensures ts[0..] == ts && Finished(s, ts[|ts|..]) == 0
  {
  }

  lemma FinishedStep(s: Status, ts: seq<Action>, k: nat)
    requires k < |ts|
    ensures ts[k..][0] == ts[k] && ts[k..][1..] == ts[k + 1..]
    ensures Finished(s, ts[k..]) == if Removable(s, ts[k]) then 1 + Finished(s, ts[k + 1..]) else 0
  {
  }

  lemma SlotFrom(ts: seq<Action>)
    ensures ts[0..] == ts && Slot(ts[|ts|..]) == 0
  {
  }

  lemma SlotStep(ts: seq<Action>, k: nat)
    requires k < |ts|
    ensures Slot(ts[k..]) == if ts[k].Status().NotStarted? then 0 else 1 + Slot(ts[k + 1..])
  {
    assert ts[k..][1..] == ts[k + 1..];
  }

  // ------------------------------------------------------ references to actions

  datatype Ref = Cmd(c: ActionCommand) | Grp(g: ActionContainer)

  ghost function Foot(r: Ref): set<object>
    reads match r case Cmd(c) => {} case Grp(g) => {g}
  {
    match r
    case Cmd(c) => {c}
    case Grp(g) => g.repr
  }

  ghost predicate ValidRef(r: Ref)
    reads match r case Cmd(c) => {} case Grp(g) => {g} + g.repr
    decreases Foot(r), 3
  {
    match r
    case Cmd(c) => true
    case Grp(g) => g.Valid()
  }

  ghost function Look(r: Ref): Action
    requires ValidRef(r)
    reads match r case Cmd(c) => {c as object} case Grp(g) => {g} + g.repr
    decreases Foot(r), 3
  {
    match r
    case Cmd(c) => Leaf(c.View())
    case Grp(g) => Node(g.View())
  }

  ghost predicate ObservedBy(r: Ref, g0: ActionContainer)
    reads match r case Cmd(c) => {c as object} case Grp(g) => {g as object}
  {
    match r
    case Cmd(c) => c.parent == g0 && c.observers == [g0]
    case Grp(g) => g.parent == g0 && g.observers == [g0]
  }

  ghost predicate Orphan(r: Ref)
    reads match r case Cmd(c) => {c as object} case Grp(g) => {g as object}
  {
    match r
    case Cmd(c) => c.parent == null && c.observers == []
    case Grp(g) => g.parent == null && g.observers == []
  }

  ghost predicate RefAbove(r: Ref, ups: seq<ActionContainer>)
    reads match r case Cmd(c) => {c as object} case Grp(g) => {g as object}
    reads ups`observers
  {
    match r
    case Cmd(c) => Chain(c.observers, ups)
    case Grp(g) => g.Above(ups)
  }

  twostate predicate RefKept(r: Ref)
    reads match r case Cmd(c) => {c as object} case Grp(g) => {g as object}
  {
    match r
    case Cmd(c) => c.parent == old(c.parent) && c.observers == old(c.observers)
    case Grp(g) => g.Kept()
  }

  // ------------------------------------------------------ calls on any action

  method SetParentOf(r: Ref, p: ActionContainer)
    requires ValidRef(r) && Orphan(r)
    modifies Foot(r)
    ensures ValidRef(r) && ObservedBy(r, p) && Foot(r) == old(Foot(r)) && Look(r) == old(Look(r))
  {
    match r
    case Cmd(c) => c.SetParent(p, []);
    case Grp(g) => g.SetParent(p);
  }

  method ExecutionTimeOf(r: Ref) returns (t: nat)
    requires ValidRef(r)
    ensures t == Elapsed(Look(r))
    decreases Foot(r), 1
  {
    match r
    case Cmd(c) => t := c.ms;
    case Grp(g) => t := g.GetExecutionTime();
  }

  method StatusOf(r: Ref) returns (s: Status)
    requires ValidRef(r)
    ensures s == Look(r).Status()
  {
    match r
    case Cmd(c) => s := c.status;
    case Grp(g) => s := g.status;
  }

  method ErrorOf(r: Ref) returns (e: int)
    requires ValidRef(r)
    ensures e == Look(r).Error()
  {
    match r
    case Cmd(c) => e := c.error;
    case Grp(g) => e := g.error;
  }

  method SetTimeoutOf(r: Ref, t: uint32)
    requires ValidRef(r)
    modifies Foot(r)
    ensures ValidRef(r) && RefKept(r) && Look(r) == old(Look(r)).TimedBy(t)
  {
    match r
    case Cmd(c) => c.timeout := t;
    case Grp(g) => g.SetTimeout(t);
  }

  method ExecuteRef(r: Ref, ghost ups: seq<ActionContainer>)
    requires ValidRef(r) && RefAbove(r, ups) && WF(Look(r))
    modifies Foot(r), ups`status, ups`error, ups`index
    ensures ValidRef(r) && RefKept(r)
    ensures Look(r) == Exec(old(Look(r))).state
    ensures Frames(ups) == Climb(old(Frames(ups)), Exec(old(Look(r))).note)
    decreases Foot(r), 10
  {
    match r
    case Cmd(c) => c.Execute(ups);
    case Grp(g) => g.Execute(ups);
  }

  method CleanupRef(r: Ref)
    requires ValidRef(r)
    modifies Foot(r)
    ensures ValidRef(r) && RefKept(r) && Foot(r) == old(Foot(r))
    decreases Foot(r), 10
  {
    match r
    case Cmd(c) => c.Cleanup();
    case Grp(g) => var freed := g.Cleanup();
  }

  /** An acknowledgement, or the waiting leaf's timer, on its way to that leaf. */
  method AcknowledgeRef(r: Ref, result: nat, elapsed: nat, ghost ups: seq<ActionContainer>)
    requires ValidRef(r) && RefAbove(r, ups)
    modifies Foot(r), ups`status, ups`error, ups`index
    ensures ValidRef(r) && RefKept(r)
    ensures Look(r) == Deliver(old(Look(r)), result, elapsed).state
    ensures Frames(ups) == Climb(old(Frames(ups)), Deliver(old(Look(r)), result, elapsed).note)
    decreases Foot(r), 10
  {
    match r
    case Cmd(c) =>
      if c.status == Executing || c.status == Undoing {
        c.Update(result, elapsed, ups);
      }
    case Grp(g) => g.Acknowledge(result, elapsed, ups);
  }

  method UndoRef(r: Ref, ghost ups: seq<ActionContainer>)
    requires ValidRef(r) && RefAbove(r, ups)
    modifies Foot(r), ups`status, ups`error, ups`index
    ensures ValidRef(r) && RefKept(r)
    ensures Look(r) == ActionTree.Undo(old(Look(r))).state
    ensures Frames(ups) == Climb(old(Frames(ups)), ActionTree.Undo(old(Look(r))).note)
    decreases Foot(r), 10
  {
    match r
    case Cmd(c) => c.Undo(ups);
    case Grp(g) => g.Undo(ups);
  }

  /** The action and everything below it is as it was. */
  twostate predicate RefSame(r: Ref)
    reads match r case Cmd(c) => {c as object} case Grp(g) => {g} + g.repr
  {
    && old(ValidRef(r)) && ValidRef(r) && Foot(r) == old(Foot(r)) && Look(r) == old(Look(r))
    && match r
       case Cmd(c) => c.parent == old(c.parent) && c.observers == old(c.observers)
       case Grp(g) => g.parent == old(g.parent) && g.observers == old(g.observers)
  }

  twostate lemma RefUnchanged(r: Ref)
    requires old(ValidRef(r))
    requires forall o: object | o in old(Foot(r)) :: unchanged(o)
    ensures RefSame(r)
  {
    match r
    case Cmd(c) => assert c in old(Foot(r));
    case Grp(g) => assert g in old(Foot(r));
  }

  class ActionCommand {
    const id: nat
    var status: Status
    var error: int
    var timeout: uint32
    var ms: nat
    var undoRequired: bool
    var parent: ActionContainer?
    var observers: seq<ActionContainer>

    // what the environment will answer
    const execResult: int
    const execMs: nat
    const undoResult: int

    ghost function View(): Command
      reads this
    {
      Command(id, status, error, timeout, ms, undoRequired, execResult, execMs, undoResult)
    }

    /** A leaf without a parent reports to its parent. As written, with a parent already
        set, it is the new parent that is taken off the list of observers, not the former
        one: results still climb through the former parent, and not to the new one. */
    method SetParent(p: ActionContainer, ghost ups: seq<ActionContainer>)
      requires Chain(observers, ups)
      modifies this`parent, this`observers
      ensures parent == p
      ensures observers == (if old(parent) != null then Erase<ActionContainer>(old(observers), p)
          else old(observers)) + [p]
      ensures ups == [] && p.observers == [] ==> Chain(observers, [p])
      ensures ups != [] && ups[0] != p ==> Chain(observers, ups)
    {
      if parent != null {
        observers := Erase<ActionContainer>(observers, p);
        parent := null;
      }
      parent := p;
      observers := observers + [p];
    }

    method Execute(ghost ups: seq<ActionContainer>)
      requires Chain(observers, ups)
      modifies this, ups`status, ups`error, ups`index
      ensures View() == ExecCommand(old(View())).state
      ensures Frames(ups) == Climb(old(Frames(ups)), ExecCommand(old(View())).note)
      ensures observers == old(observers) && parent == old(parent)
    {
      if status == NotStarted {
        error := execResult;
        if error >= 0 {
          status := Completed;
          ms := execMs;
          Notify(observers, error, ups);
        } else {
          status := Executing;
        }
      }
    }

    method Cleanup()
      modifies this`ms
      ensures ms == 0
    {
      ms := 0;
    }

    method Undo(ghost ups: seq<ActionContainer>)
      requires Chain(observers, ups)
      modifies this, ups`status, ups`error, ups`index
      ensures View() == UndoCommand(old(View())).state
      ensures Frames(ups) == Climb(old(Frames(ups)), UndoCommand(old(View())).note)
      ensures observers == old(observers) && parent == old(parent)
    {
      if status == Completed {
        if undoRequired {
          error := undoResult;
        }
        if error >= 0 {
          status := UndoComplete;
          Notify(observers, error, ups);
        } else {
          status := Undoing;
        }
      }
    }

    /** The result of a request that was sent by Execute or Undo, or of its timer. */
    method Update(result: int, elapsed: nat, ghost ups: seq<ActionContainer>)
      requires Chain(observers, ups)
      modifies this, ups`status, ups`error, ups`index
      ensures View() == UpdateCommand(old(View()), result, elapsed)
      ensures Frames(ups) == Climb(old(Frames(ups)), Told(result))
      ensures observers == old(observers) && parent == old(parent)
    {
      error := result;
      if status == Executing {
        status := Completed;
        ms := elapsed;
      } else {
        status := UndoComplete;
      }
      Notify(observers, error, ups);
    }
  }

  class ActionContainer {
    var status: Status
    var error: int
    var index: int
    var timeout: uint32
    var ms: nat
    var undoRequired: bool
    var children: seq<Ref>
    var planned: seq<Ref>
    var parent: ActionContainer?
    var observers: seq<ActionContainer>

    const isRoot: bool
    const execResult: nat
    const execMs: nat
    const undoResult: nat

    ghost var repr: set<object>

    ghost function Head(): Frame
      reads this`status, this`error, this`index, this`children
    {
      Frame(status, error, index, |children|)
    }

    /** A tree of objects: every child and every planned child lies in `repr`, no two
        share an object, and this container is the only observer of its children. */
    ghost predicate Valid()
      reads this, repr
      ensures Valid() ==> this in repr
      decreases repr, 2
    {
      && this in repr
      && Owns(children) && Owns(planned)
      && (forall i | 0 <= i < |children| :: ObservedBy(children[i], this))
      && (forall i | 0 <= i < |planned| :: Orphan(planned[i]))
      && (forall i, j | 0 <= i < |children| && 0 <= j < |planned| :: Foot(children[i]) !! Foot(planned[j]))
    }

    ghost predicate Owns(rs: seq<Ref>)
      requires this in repr
      reads this, repr
      decreases repr, 1
    {
      && (forall i | 0 <= i < |rs| :: rs[i].Cmd? ==> rs[i].c in repr)
      && (forall i | 0 <= i < |rs| :: rs[i].Grp? ==> rs[i].g in repr)
      && (forall i | 0 <= i < |rs| :: Foot(rs[i]) <= repr - {this} && ValidRef(rs[i]))
      && (forall i, j | 0 <= i < j < |rs| :: Foot(rs[i]) !! Foot(rs[j]))
    }

    ghost function View(): (n: Container)
      reads this, repr
      requires Valid()
      ensures n.status == status && n.error == error && n.index == index && n.timeout == timeout
      ensures n.undoRequired == undoRequired && n.undoResult == undoResult
      ensures |n.children| == |children| && |n.planned| == |planned| && n.execResult == execResult && n.execMs == execMs
      decreases repr, 2
    {
      Container(status, error, index, timeout, ms, undoRequired, execResult, execMs, undoResult,
                LookAll(children), LookAll(planned))
    }

    ghost function LookAll(rs: seq<Ref>): (ts: seq<Action>)
      requires this in repr && Owns(rs)
      reads this, repr
      ensures |ts| == |rs| && forall i | 0 <= i < |rs| :: ts[i] == Look(rs[i])
      decreases repr, 1, |rs|
    {
      if rs == [] then [] else [Look(rs[0])] + LookAll(rs[1..])
    }

    method Update(result: int, ghost ups: seq<ActionContainer>)
      requires Chain(observers, ups) && this !in ups
      modifies this`status, this`error, this`index
      modifies ups`status, ups`error, ups`index
      ensures Head() == UpdateFrame(old(Head()), result).0
      ensures Frames(ups) == Climb(old(Frames(ups)), UpdateFrame(old(Head()), result).1)
      decreases |ups|, 1
    {
      hide UpdateFrame;
      var told := Hear(result, ups);
      if told {
        Notify(observers, error, ups);
      }
    }

    /** The container's own part of an update; says whether its observer hears of it. */
    method Hear(result: int, ghost ups: seq<ActionContainer>) returns (told: bool)
      requires Chain(observers, ups) && this !in ups
      modifies this`status, this`error, this`index
      ensures Head() == UpdateFrame(old(Head()), result).0 && error == result
      ensures UpdateFrame(old(Head()), result).1 == if told then Told(result) else Silent
      ensures Chain(observers, ups) && Frames(ups) == old(Frames(ups))
    {
      error := result;
      told := false;
      if status == Executing {
        if error > 0 {
          status := ErrorStopped;
          told := true;
        } else {
          index := index + 1;
          if index >= |children| {
            status := Completed;
            told := true;
          }
        }
      } else if status == Undoing {
        if index < 0 {
          status := UndoComplete;
          told := true;
        }
      }
    }

    /** What no call made from above or below changes. */
    twostate predicate Kept()
      reads this
    {
      && repr == old(repr) && observers == old(observers) && parent == old(parent)
    }

    twostate predicate KeptBody()
      reads this
    {
      && Kept() && children == old(children) && planned == old(planned)
      && timeout == old(timeout) && ms == old(ms) && undoRequired == old(undoRequired)
    }

    ghost predicate Apart(rs: seq<Ref>, foot: set<object>)
      reads set i | 0 <= i < |rs| && rs[i].Grp? :: rs[i].g
    {
      forall i | 0 <= i < |rs| :: Foot(rs[i]) !! foot
    }

    /** Only the objects in `changed` changed, and no child reaches them. */
    twostate lemma RefsSame(changed: set<object>)
      requires old(Valid()) && old(repr) <= repr
      requires old(Apart(children, changed)) && old(Apart(planned, changed))
      requires forall o: object | o in old(repr) && o != this && o !in changed :: unchanged(o)
      ensures var rs := old(children);
              Owns(rs) && LookAll(rs) == old(LookAll(rs)) && forall i | 0 <= i < |rs| :: RefSame(rs[i])
      ensures var qs := old(planned);
              Owns(qs) && LookAll(qs) == old(LookAll(qs)) && forall i | 0 <= i < |qs| :: RefSame(qs[i])
    {
      hide LookAll;
      forall i | 0 <= i < |old(children)| ensures RefSame(old(children)[i]) { RefUnchanged(old(children)[i]); }
      forall i | 0 <= i < |old(planned)| ensures RefSame(old(planned)[i]) { RefUnchanged(old(planned)[i]); }
    }

    twostate lemma OthersUnchanged(changed: set<object>)
      requires old(Valid())
      requires forall o: object | o in old(repr) && o != this && o !in changed :: unchanged(o)
      ensures forall i | 0 <= i < |old(children)| && old(Foot(children[i])) !! changed :: RefSame(old(children)[i])
      ensures forall i | 0 <= i < |old(planned)| && old(Foot(planned[i])) !! changed :: RefSame(old(planned)[i])
    {
      forall i | 0 <= i < |old(children)| && old(Foot(children[i])) !! changed ensures RefSame(old(children)[i]) {
        RefUnchanged(old(children)[i]);
      }
      forall i | 0 <= i < |old(planned)| && old(Foot(planned[i])) !! changed ensures RefSame(old(planned)[i]) {
        RefUnchanged(old(planned)[i]);
      }
    }

    twostate lemma FieldsChanged()
      requires old(Valid()) && repr == old(repr) && children == old(children) && planned == old(planned)
      requires forall o: object | o in old(repr) && o != this :: unchanged(o)
      ensures Valid()
      ensures View() == old(View()).(status := status, error := error, index := index,
                                     timeout := timeout, ms := ms, undoRequired := undoRequired)
    {
      RefsSame({});
    }

    twostate lemma ChildChanged(k: nat)
      requires old(Valid()) && KeptBody() && k < |children|
      requires forall o: object | o in old(repr) && o != this && o !in old(Foot(children[k])) :: unchanged(o)
      requires ValidRef(children[k]) && Foot(children[k]) == old(Foot(children[k])) && ObservedBy(children[k], this)
      ensures Valid() && View() ==
          WithFrame(old(View()).(children := old(View()).children[k := Look(children[k])]), Head())
    {
      hide LookAll;
      var foot := old(Foot(children[k]));
      OthersUnchanged(foot);
      forall i | 0 <= i < |children| && i != k ensures RefSame(children[i]) {
        assert old(Foot(children[i])) !! foot;
      }
      assert Owns(children) && Owns(planned);
      assert LookAll(planned) == old(LookAll(planned));
      assert LookAll(children) == old(LookAll(children))[k := Look(children[k])];
    }

    /** The containers above this one, and not below it. */
    ghost predicate Above(ups: seq<ActionContainer>)
      reads this`observers, this`repr, ups`observers
    {
      Chain(observers, ups) && forall u | u in ups :: u !in repr
    }

    /** getExecutionTime() */
    method GetExecutionTime() returns (total: nat)
      requires Valid()
      ensures total == Elapsed(Node(View()))
      decreases repr, 0
    {
      ghost var ts := View().children;
      var sum := 0;
      var i := 0;
      while i < |children|
        invariant i <= |children| == |ts|
        invariant sum == AllElapsed(ts[..i])
      {
        var t := ExecutionTimeOf(children[i]);
        AllAt(ts[..i + 1], i);
        assert ts[..i + 1][..i] == ts[..i] && ts[..i + 1][i + 1..] == [];
        sum := sum + t;
        i := i + 1;
      }
      assert ts[..i] == ts;
      total := ms + sum;
    }

    /** child->execute(): the child runs, this container hears of it, and so do those above. */
    method ExecuteChild(ghost ups: seq<ActionContainer>)
      requires Valid() && Above(ups) && 0 <= index < |children| && WF(View().children[index])
      modifies repr, ups`status, ups`error, ups`index
      ensures KeptBody() && Valid() && Above(ups)
      ensures var (n2, note) := Resume(old(View()), Exec(old(View()).children[old(index)]));
              View() == n2 && Frames(ups) == Climb(old(Frames(ups)), note)
      decreases repr, 3
    {
      hide WF, Shape, Exec, UpdateNode, Resume, Climb, LookAll;
      ghost var k := index;
      ghost var all := [this] + ups;
      assert all[1..] == ups;
      ResumeClimbs(View(), Exec(View().children[k]), Frames(all));
      ExecuteRef(children[index], all);
      assert Head() == Frames(all)[0] && Frames(ups) == Frames(all)[1..];
      ChildChanged(k);
    }

    method SetTimeout(t: uint32)
      requires Valid()
      modifies this`timeout
      ensures Valid() && View() == old(View()).(timeout := t)
    {
      timeout := t;
      FieldsChanged();
    }

    /** update() called on itself, between two calls from outside. */
    method UpdateSelf(result: int, ghost ups: seq<ActionContainer>)
      requires Valid() && Above(ups)
      modifies this`status, this`error, this`index, ups`status, ups`error, ups`index
      ensures KeptBody() && Valid() && Above(ups)
      ensures View() == UpdateNode(old(View()), result).0
      ensures Frames(ups) == Climb(old(Frames(ups)), UpdateNode(old(View()), result).1)
    {
      FrameUpdates(View(), result);
      Update(result, ups);
      FieldsChanged();
    }

    /** The current child inherits what is left of a finite timeout, if it has not started. */
    method TimeChild(elapsed: nat, ghost ups: seq<ActionContainer>)
      requires Valid() && Above(ups) && 0 <= index < |children|
      requires elapsed == Elapsed(Node(View())) && (timeout == INFINITE_TIMEOUT || elapsed <= timeout)
      modifies repr - {this}
      ensures Valid() && Above(ups) && View() == TimedChild(old(View())) && Frames(ups) == old(Frames(ups))
    {
      hide WF, Shape, Chain, Frames, Elapsed, LookAll;
      if timeout != INFINITE_TIMEOUT {
        var s := StatusOf(children[index]);
        if s == NotStarted {
          SetTimeoutOf(children[index], timeout - elapsed);
        }
      }
      ChildChanged(index);
    }

    method ChildStatus(i: nat) returns (s: Status)
      requires Valid() && i < |children|
      ensures s == View().children[i].Status()
    {
      s := StatusOf(children[i]);
    }

    /** The current child is given its time and runs. */
    method ExecuteInTime(elapsed: nat, ghost ups: seq<ActionContainer>)
      requires Valid() && Above(ups) && 0 <= index < |children|
      requires elapsed == Elapsed(Node(View())) && (timeout == INFINITE_TIMEOUT || elapsed <= timeout)
      requires WF(TimedChild(View()).children[index])
      modifies repr, ups`status, ups`error, ups`index
      ensures KeptBody() && Valid() && Above(ups)
      ensures var m := TimedChild(old(View()));
              var (n2, note) := Resume(m, Exec(m.children[m.index]));
              && View() == n2 && Frames(ups) == Climb(old(Frames(ups)), note)
              && n2.children[m.index] == Exec(m.children[m.index]).state
      decreases repr, 4
    {
      hide Valid, View, WF, Above, Climb, Exec, UpdateNode;
      TimeChild(elapsed, ups);
      ExecuteChild(ups);
    }

    /** One turn of the loop of execute(); `again` says whether there is another. */
    method ExecuteNext(ghost ups: seq<ActionContainer>) returns (again: bool)
      requires Valid() && Above(ups) && ReadyChild(View())
      modifies repr, ups`status, ups`error, ups`index
      ensures KeptBody() && Valid() && Above(ups)
      ensures var (n2, note, more) := LoopOnce(old(View()));
              View() == n2 && Frames(ups) == Climb(old(Frames(ups)), note) && again == more
      decreases repr, 5
    {
      hide Valid, View, Above, Climb, Exec;
      ghost var n := View();
      var elapsed := GetExecutionTime();
      if timeout != INFINITE_TIMEOUT && elapsed > timeout {
        UpdateSelf(E_ABORTED, ups);
        again := false;
      } else {
        var i := index;
        ExecuteInTime(elapsed, ups);
        var s := ChildStatus(i);
        again := s != Executing && status == Executing;
      }
    }

    /** The same, in terms of what the whole loop will make of the container. */
    method ExecuteTurn(ghost n: Container, ghost ups: seq<ActionContainer>) returns (again: bool, ghost n2: Container)
      requires Valid() && Above(ups) && n == View() && Running(n)
      modifies repr, ups`status, ups`error, ups`index
      ensures KeptBody() && Valid() && Above(ups) && View() == n2
      ensures again ==> Running(n2) && old(index) < index < |children| && Frames(ups) == old(Frames(ups))
      ensures again ==> ExecLoop(n2).state == ExecLoop(n).state && ExecLoop(n2).note == ExecLoop(n).note
      ensures !again ==> n2 == ExecLoop(n).state && Frames(ups) == Climb(old(Frames(ups)), ExecLoop(n).note)
      decreases repr, 6
    {
      hide Valid, Frames;
      LoopTurns(n);
      LoopOnceChild(n);
      again := ExecuteNext(ups);
      n2 := View();
    }

    /** The loop of execute(); i is the index of the child that ran last. */
    method ExecuteChildren(ghost ups: seq<ActionContainer>) returns (i: int)
      requires Valid() && Above(ups) && 0 <= index && (|children| > 0 ==> Running(View()))
      modifies repr, ups`status, ups`error, ups`index
      ensures KeptBody() && Valid() && Above(ups)
      ensures |children| == 0 ==> View() == old(View()) && Frames(ups) == old(Frames(ups)) && i == index
      ensures |children| > 0 ==> i < |children| && View() == ExecLoop(old(View())).state
      ensures |children| > 0 ==> Frames(ups) == Climb(old(Frames(ups)), ExecLoop(old(View())).note)
      decreases repr, 7
    {
      ghost var n := View();
      i := index;
      while i < |children|
        invariant KeptBody() && Valid() && Above(ups) && View() == n && Frames(ups) == old(Frames(ups))
        invariant 0 <= i && (|children| == 0 ==> n == old(View()) && i == index)
        invariant |children| > 0 ==> i < |children| && index < |children| && Running(n)
        invariant ExecLoop(n).state == ExecLoop(old(View())).state && ExecLoop(n).note == ExecLoop(old(View())).note
        decreases |children| - index
      {
        i := index;
        var again;
        again, n := ExecuteTurn(n, ups);
        if !again {
          break;
        }
      }
    }

    /** The new parent becomes the last observer; a former parent stops observing. */
    method SetParent(p: ActionContainer)
      requires Valid()
      modifies this`parent, this`observers
      ensures Valid() && View() == old(View()) && parent == p
      ensures observers == (if old(parent) != null then Erase<ActionContainer>(old(observers), old(parent))
          else old(observers)) + [p]
    {
      if parent != null {
        observers := Erase<ActionContainer>(observers, parent);
        parent := null;
      }
      parent := p;
      observers := observers + [p];
      FieldsChanged();
    }

    lemma OwnsOneMore(rs: seq<Ref>, r: Ref)
      requires this in repr && Owns(rs) && ValidRef(r) && Foot(r) <= repr - {this} && Apart(rs, Foot(r))
      ensures Owns(rs + [r]) && LookAll(rs + [r]) == LookAll(rs) + [Look(r)]
    {
      hide LookAll;
      assert Owns(rs + [r]) by {
        match r
        case Cmd(c) => assert c in Foot(r);
        case Grp(g) => assert g in Foot(r);
      }
    }

    /** append(): the new child goes last, and this container becomes its observer. */
    method Append(r: Ref)
      requires Valid() && ValidRef(r) && Orphan(r) && this !in Foot(r)
      requires Apart(children, Foot(r)) && Apart(planned, Foot(r))
      modifies this`children, this`repr, Foot(r)
      ensures Valid() && repr == old(repr) + Foot(r) && children == old(children) + [r] && Foot(r) == old(Foot(r))
      ensures View() == old(View()).(children := old(View()).children + [old(Look(r))])
    {
      hide LookAll;
      children := children + [r];
      repr := repr + Foot(r);
      SetParentOf(r, this);
      RefsSame(Foot(r));
      OwnsOneMore(old(children), r);
    }

    lemma OwnsInserted(rs: seq<Ref>, r: Ref, k: nat)
      requires k <= |rs| && this in repr && Owns(rs) && ValidRef(r) && Foot(r) <= repr - {this} && Apart(rs, Foot(r))
      ensures Owns(rs[..k] + [r] + rs[k..])
      ensures LookAll(rs[..k] + [r] + rs[k..]) == LookAll(rs)[..k] + [Look(r)] + LookAll(rs)[k..]
    {
      hide LookAll;
      var us := rs[..k] + [r] + rs[k..];
      forall i | 0 <= i < |us| ensures us[i] == if i < k then rs[i] else if i == k then r else rs[i - 1] { }
      assert Owns(us) by {
        match r
        case Cmd(c) => assert c in Foot(r);
        case Grp(g) => assert g in Foot(r);
      }
    }

    method FirstNotStarted() returns (k: nat)
      requires Valid()
      ensures k == Slot(View().children) && k <= |children|
    {
      hide Valid, View, Slot;
      k := 0;
      ghost var ts := View().children;
      SlotFrom(ts);
      while k < |children|
        modifies {}
        invariant 0 <= k <= |children| && Slot(ts) == k + Slot(ts[k..])
      {
        SlotStep(ts, k);
        var s := ChildStatus(k);
        if s == NotStarted {
          break;
        }
        k := k + 1;
      }
    }

    /** insert(): in front of the first child that has not started. */
    method Insert(r: Ref)
      requires Valid() && ValidRef(r) && Orphan(r) && this !in Foot(r)
      requires Apart(children, Foot(r)) && Apart(planned, Foot(r))
      modifies this`children, this`repr, Foot(r)
      ensures Valid() && repr == old(repr) + Foot(r) && Foot(r) == old(Foot(r))
      ensures View() == Inserted(old(View()), old(Look(r)))
    {
      hide LookAll, Slot;
      var k := FirstNotStarted();
      InsertAt(r, k);
    }

    method InsertAt(r: Ref, k: nat)
      requires Valid() && ValidRef(r) && Orphan(r) && this !in Foot(r) && k <= |children|
      requires Apart(children, Foot(r)) && Apart(planned, Foot(r))
      modifies this`children, this`repr, Foot(r)
      ensures Valid() && repr == old(repr) + Foot(r) && Foot(r) == old(Foot(r))
      ensures var ts := old(View()).children;
              View() == old(View()).(children := ts[..k] + [old(Look(r))] + ts[k..])
    {
      hide LookAll;
      children := children[..k] + [r] + children[k..];
      repr := repr + Foot(r);
      SetParentOf(r, this);
      RefsSame(Foot(r));
      OwnsInserted(old(children), r, k);
    }

    /** The next child that _execute() creates. */
    method NextPlanned() returns (r: Ref)
      requires Valid() && |planned| > 0
      modifies this`planned
      ensures Valid() && planned == old(planned)[1..] && r == old(planned)[0]
      ensures ValidRef(r) && Orphan(r) && Foot(r) <= repr - {this}
      ensures View() == old(View()).(planned := old(View()).planned[1..]) && old(View()).planned[0] == Look(r)
      ensures Apart(children, Foot(r)) && Apart(planned, Foot(r))
    {
      r := planned[0];
      planned := planned[1..];
      RefsSame({});
      OwnsTail(old(planned));
    }

    lemma OwnsTail(rs: seq<Ref>)
      requires this in repr && Owns(rs) && |rs| > 0
      ensures Owns(rs[1..]) && LookAll(rs[1..]) == LookAll(rs)[1..] && Apart(rs[1..], Foot(rs[0]))
    {
      forall i | 0 <= i < |rs[1..]| ensures rs[1..][i] == rs[i + 1] {}
    }

    method AppendPlanned(ghost ups: seq<ActionContainer>)
      requires Valid() && Above(ups) && |planned| > 0
      modifies repr
      ensures Valid() && Kept() && status == old(status) && |planned| == |old(planned)| - 1
      ensures Above(ups) && Frames(ups) == old(Frames(ups))
      ensures var n := old(View());
              View() == n.(children := n.children + [n.planned[0]], planned := n.planned[1..])
    {
      hide Owns, LookAll;
      var r := NextPlanned();
      Append(r);
    }

    /** _execute(): the container creates its children. */
    method OwnExecute(ghost ups: seq<ActionContainer>) returns (result: int)
      requires Valid() && Above(ups)
      modifies repr
      ensures Valid() && Kept() && status == old(status)
      ensures Above(ups) && Frames(ups) == old(Frames(ups))
      ensures View() == old(View()).(children := old(View()).children + old(View()).planned, planned := [])
      ensures result == execResult
    {
      hide Valid, View, Above;
      ghost var n := View();
      ghost var k := 0;
      while |planned| > 0
        invariant Valid() && Kept() && status == old(status) && Above(ups) && Frames(ups) == old(Frames(ups))
        invariant k + |planned| == |n.planned|
        invariant View() == n.(children := n.children + n.planned[..k], planned := n.planned[k..])
        decreases |planned|
      {
        AppendPlanned(ups);
        assert n.planned[..k] + [n.planned[k]] == n.planned[..k + 1];
        assert n.children + n.planned[..k] + [n.planned[k]] == n.children + n.planned[..k + 1];
        k := k + 1;
      }
      assert n.planned[..k] == n.planned;
      result := execResult;
    }

    method Execute(ghost ups: seq<ActionContainer>)
      requires Valid() && Above(ups) && WF(Node(View()))
      modifies repr, ups`status, ups`error, ups`index
      ensures Kept() && Valid() && Above(ups)
      ensures View() == ExecContainer(old(View())).state
      ensures Frames(ups) == Climb(old(Frames(ups)), ExecContainer(old(View())).note)
      decreases repr, 9
    {
      hide Valid, Above, WF, Enters, ExecContainer, ExecLoop, UpdateNode;
      ExecParts(View());
      if status == NotStarted {
        Start(ups);
      }
      if status == Executing {
        Proceed(ups);
      } else if status == Completed {
        UpdateSelf(error, ups);
      }
    }

    /** The container's own execution; an error stops it at once. */
    method Start(ghost ups: seq<ActionContainer>)
      requires Valid() && Above(ups) && status == NotStarted
      modifies repr, ups`status, ups`error, ups`index
      ensures Kept() && Valid() && Above(ups)
      ensures var n := Started(old(View()));
              if n.error == 0 then View() == n && Frames(ups) == old(Frames(ups))
              else
                View() == UpdateNode(n, n.error).0
                && Frames(ups) == Climb(old(Frames(ups)), UpdateNode(n, n.error).1)
    {
      hide Valid, View, Above, UpdateNode;
      var result := OwnExecute(ups);
      SetStarted(result, ups);
      if error != 0 {
        UpdateSelf(error, ups);
      }
    }

    method SetStarted(result: int, ghost ups: seq<ActionContainer>)
      requires Valid() && Above(ups)
      modifies this`error, this`ms, this`status
      ensures Valid() && Kept() && Above(ups) && Frames(ups) == old(Frames(ups))
      ensures View() == old(View()).(error := result, ms := execMs, status := Executing)
    {
      hide Frames;
      error := result;
      ms := execMs;
      status := Executing;
      FieldsChanged();
    }

    /** The children run, from the current one on. */
    method Proceed(ghost ups: seq<ActionContainer>)
      requires Valid() && Above(ups) && Enters(View())
      modifies repr, ups`status, ups`error, ups`index
      ensures KeptBody() && Valid() && Above(ups)
      ensures View() == ExecLoop(old(View())).state
      ensures Frames(ups) == Climb(old(Frames(ups)), ExecLoop(old(View())).note)
      decreases repr, 8
    {
      var i := ExecuteChildren(ups);
      if i >= |children| && status == Executing {
        UpdateSelf(error, ups);
      }
    }

    /** child->undo() */
    method UndoChild(ghost ups: seq<ActionContainer>)
      requires Valid() && Above(ups) && 0 <= index < |children|
      modifies repr, ups`status, ups`error, ups`index
      ensures KeptBody() && Valid() && Above(ups)
      ensures var (n2, note) := Resume(old(View()), ActionTree.Undo(old(View()).children[old(index)]));
              View() == n2 && Frames(ups) == Climb(old(Frames(ups)), note)
      decreases repr, 3
    {
      hide ActionTree.Undo, UpdateNode, Resume, Climb, LookAll;
      ghost var k := index;
      ghost var all := [this] + ups;
      assert all[1..] == ups;
      ResumeClimbs(View(), ActionTree.Undo(View().children[k]), Frames(all));
      UndoRef(children[index], all);
      assert Head() == Frames(all)[0] && Frames(ups) == Frames(all)[1..];
      ChildChanged(k);
    }

    method SetFields(e: int, s: Status, i: int, ghost ups: seq<ActionContainer>)
      requires Valid() && Above(ups)
      modifies this`error, this`status, this`index
      ensures Valid() && Above(ups) && Frames(ups) == old(Frames(ups))
      ensures View() == old(View()).(error := e, status := s, index := i)
    {
      error := e;
      status := s;
      index := i;
      FieldsChanged();
    }

    method IsUndoable(i: nat) returns (b: bool)
      requires Valid() && i < |children|
      ensures b == Undoable(View().children[i])
    {
      var s := StatusOf(children[i]);
      var e := ErrorOf(children[i]);
      b := s == ErrorStopped || (s == Completed && e == 0) || s == Undoing;
    }

    /** One turn of the loop of undo(); `again` says whether there is another. */
    method UndoNext(ghost ups: seq<ActionContainer>) returns (again: bool)
      requires Valid() && Above(ups) && 0 <= index < |children| && status == Undoing
      modifies repr, ups`status, ups`error, ups`index
      ensures KeptBody() && Valid() && Above(ups) && Frames(ups) == old(Frames(ups))
      ensures View() == UndoOnce(old(View())).0 && again == UndoOnce(old(View())).1
      decreases repr, 4
    {
      hide Valid, View, Above, Frames, ActionTree.Undo;
      ghost var n := View();
      var i := index;
      var b := IsUndoable(i);
      again := true;
      if b {
        UndoChild(ups);
        var s := ChildStatus(i);
        again := s == UndoComplete;
      }
      if again {
        SetFields(error, status, index - 1, ups);
      }
    }

    /** The loop of undo(). */
    method UndoChildren(ghost ups: seq<ActionContainer>)
      requires Valid() && Above(ups) && status == Undoing && index < |children|
      modifies repr, ups`status, ups`error, ups`index
      ensures KeptBody() && Valid() && Above(ups)
      ensures View() == UndoLoop(old(View())).state
      ensures Frames(ups) == Climb(old(Frames(ups)), UndoLoop(old(View())).note)
      decreases repr, 5
    {
      hide Valid, View, Above, UndoOnce;
      ghost var n := View();
      while index >= 0
        invariant KeptBody() && Valid() && Above(ups) && View() == n && Frames(ups) == old(Frames(ups))
        invariant status == Undoing && index < |children|
        invariant UndoLoop(n).state == UndoLoop(old(View())).state && UndoLoop(n).note == UndoLoop(old(View())).note
        decreases index
      {
        UndoTurns(n);
        var again := UndoNext(ups);
        n := View();
        if !again {
          break;
        }
      }
      if index < 0 {
        UpdateSelf(error, ups);
      }
    }

    /** The container's own undo, if it has stopped. */
    method UndoSelf(ghost ups: seq<ActionContainer>)
      requires Valid() && Above(ups)
      modifies this`error, this`status, this`index
      ensures Valid() && Above(ups) && Frames(ups) == old(Frames(ups)) && View() == UndoOwn(old(View()))
    {
      hide Valid, Above;
      if status == ErrorStopped || (status == Completed && error == 0) {
        var e := error;
        if undoRequired {
          e := undoResult;
        }
        SetFields(e, if |children| > 0 then Undoing else UndoComplete, index, ups);
      }
    }

    method Undo(ghost ups: seq<ActionContainer>)
      requires Valid() && Above(ups)
      modifies repr, ups`status, ups`error, ups`index
      ensures Kept() && Valid() && Above(ups)
      ensures View() == UndoContainer(old(View())).state
      ensures Frames(ups) == Climb(old(Frames(ups)), UndoContainer(old(View())).note)
      decreases repr, 9
    {
      hide Valid, View, Above, UndoContainer, UndoLoop;
      ghost var n := View();
      if UndoOwn(n).status.Undoing? { UndoOfOthers(n); }
      else if Stopped(n) { UndoOfEmpty(n); }
      else { UndoOfNone(n); }
      UndoSelf(ups);
      if status == Undoing {
        if index < 0 || index >= |children| {
          SetFields(error, status, |children| - 1, ups);
        }
        assert View() == UndoStart(n);
        UndoChildren(ups);
      } else if status == UndoComplete {
        UpdateSelf(error, ups);
      }
    }

    /** An acknowledgement for the leaf that waits below: the leaf is updated, and its
        result climbs back through every container on the way. */
    method Acknowledge(result: nat, elapsed: nat, ghost ups: seq<ActionContainer>)
      requires Valid() && Above(ups)
      modifies repr, ups`status, ups`error, ups`index
      ensures Kept() && Valid() && Above(ups)
      ensures Node(View()) == Deliver(old(Node(View())), result, elapsed).state
      ensures Frames(ups) == Climb(old(Frames(ups)), Deliver(old(Node(View())), result, elapsed).note)
      decreases repr, 9
    {
      hide Valid, View, Above, UpdateNode, Resume;
      if (status == Executing || status == Undoing) && 0 <= index < |children| {
        AcknowledgeChild(result, elapsed, ups);
      }
    }

    method AcknowledgeChild(result: nat, elapsed: nat, ghost ups: seq<ActionContainer>)
      requires Valid() && Above(ups) && 0 <= index < |children|
      modifies repr, ups`status, ups`error, ups`index
      ensures KeptBody() && Valid() && Above(ups)
      ensures var (n2, note) := Resume(old(View()), Deliver(old(View()).children[old(index)], result, elapsed));
              View() == n2 && Frames(ups) == Climb(old(Frames(ups)), note)
      decreases repr, 3
    {
      hide Deliver, UpdateNode, Resume, Climb, LookAll;
      ghost var k := index;
      ghost var all := [this] + ups;
      assert all[1..] == ups;
      ResumeClimbs(View(), Deliver(View().children[k], result, elapsed), Frames(all));
      AcknowledgeRef(children[index], result, elapsed, all);
      assert Head() == Frames(all)[0] && Frames(ups) == Frames(all)[1..];
      ChildChanged(k);
    }

    /** The first child is cleaned up and deleted. */
    method DeleteFirst() returns (r: Ref)
      requires Valid() && |children| > 0
      modifies repr
      ensures KeptButChildren() && Valid() && children == old(children)[1..] && r == old(children)[0]
      ensures View() == old(View()).(children := old(View()).children[1..])
      decreases repr, 3
    {
      hide LookAll;
      r := children[0];
      CleanupRef(r);
      ChildChanged(0);
      DropFirst();
    }

    method DropFirst()
      requires Valid() && |children| > 0
      modifies this`children
      ensures Valid() && children == old(children)[1..]
      ensures View() == old(View()).(children := old(View()).children[1..])
    {
      children := children[1..];
      RefsSame({});
      OwnsTail(old(children));
    }

    twostate predicate KeptButChildren()
      reads this
    {
      && Kept() && planned == old(planned) && status == old(status) && error == old(error) && index == old(index)
      && timeout == old(timeout) && ms == old(ms) && undoRequired == old(undoRequired)
    }

    method FirstRemovable() returns (b: bool)
      requires Valid() && |children| > 0
      ensures b == Removable(View().status, View().children[0])
    {
      var s := ChildStatus(0);
      b := s == UndoComplete || s == Completed || (s == NotStarted && status == UndoComplete);
    }

    method DeleteFinished() returns (freed: seq<Ref>)
      requires Valid()
      modifies repr
      ensures KeptButChildren() && Valid() && old(children) == freed + children
      ensures |freed| == Finished(old(View()).status, old(View()).children)
      ensures View() == old(View()).(children := old(View()).children[|freed|..])
      decreases repr, 4
    {
      hide Valid, View, Finished, Removable;
      freed := [];
      ghost var k := 0;
      ghost var n := View();
      FinishedFrom(n.status, n.children);
      while |children| > 0
        invariant KeptButChildren() && Valid() && k + |children| == |n.children|
        invariant |freed| == k && freed == old(children)[..k] && children == old(children)[k..]
        invariant View() == n.(children := n.children[k..])
        invariant Finished(n.status, n.children) == k + Finished(n.status, n.children[k..])
        decreases |children|
      {
        FinishedStep(n.status, n.children, k);
        var b := FirstRemovable();
        if !b {
          break;
        }
        var r := DeleteFirst();
        freed := freed + [r];
        k := k + 1;
      }
    }

    /** cleanup(): the finished children are deleted, each of them once; the root starts
        over when none is left. */
    method Cleanup() returns (freed: seq<Ref>)
      requires Valid()
      modifies repr
      ensures Kept() && Valid() && old(children) == freed + children
      ensures |freed| == Finished(old(View()).status, old(View()).children)
      ensures View() == ActionDriver.Cleanup(old(View()), isRoot)
      decreases repr, 5
    {
      hide Valid, View;
      freed := DeleteFinished();
      Reset();
    }

    method Reset()
      requires Valid()
      modifies this`status, this`error, this`index, this`ms
      ensures Kept() && Valid() && children == old(children)
      ensures View() == (if |children| == 0 && isRoot
          then old(View()).(index := 0, ms := 0, status := NotStarted, error := 0)
                         else old(View()).(index := 0, ms := 0))
    {
      if |children| == 0 && isRoot {
        status := NotStarted;
        error := 0;
      }
      index := 0;
      ms := 0;
      FieldsChanged();
    }

    /** One turn of the driver's loop in iterateActions(), for the root. */
    method DrivePass() returns (freed: seq<Ref>)
      requires Valid() && isRoot && observers == [] && Root(View())
      modifies repr
      ensures Kept() && Valid() && View() == DriveOnce(old(View())).root
    {
      hide Valid, View, WF, Frames, Climb, ExecContainer, UndoContainer, ActionDriver.Cleanup;
      Execute([]);
      if status == ErrorStopped || status == Undoing {
        Undo([]);
      }
      freed := Cleanup();
    }
  }
}

/** Class exclusivity in the runs that the controller makes: a single root runs the actions
    one after another, and a connection is created for a source and a sink that are named. */
module ClassRuns {
  import opened ClassExclusivity
  import opened Sequences

  /** An action for the connection is still to run, runs, or has failed and is to be undone. */
  predicate Pending(t: Transition) {
    Claims(t) || (t.ToConnect? && t.phase.Failed?)
  }

  /** No action for a connection of the class is in flight. */
  predicate Quiet(w: World, className: string) {
    forall t | t in w.transitions && Pending(t) && t.id in w.connections :: w.connections[t.id].className != className
  }

  predicate SameName(a: Connection, b: Connection) {
    a.mainSource == b.mainSource && a.mainSink == b.mainSink
  }

  /** A connection is created only if the request names its source and its sink and there
      is none of that name yet, and not in a class that the request excepts. */
  predicate Named(w: World, r: Request) {
    r.created != [] ==>
      && |r.created| == 1 && r.source != "" && r.sink != ""
      && r.created[0] in w.connections
      && var c := w.connections[r.created[0]];
         c.mainSource == r.source && c.mainSink == r.sink && c.className !in r.excepted
  }

  /** What the controller sees to. */
  predicate Driven(w: World, step: Step) {
    match step
    case Create(_, c) => Reaches(c) && forall id | id in w.connections :: !SameName(w.connections[id], c)
    case Connect(r, className) => Quiet(w, className) && ListsAll(w, r.order + r.created) && Named(w, r)
    case Suspend(r, className) => Quiet(w, className) && ListsAll(w, r.order)
    case Settle(k, s) => k < |w.transitions| && w.transitions[k].ToDisconnect? ==> !Active(s)
    case _ => true
  }

  /** What is left to whoever asks for a connect action: the class name is that of the new
      connection, if given, and the sink is not one that a connection only passes. */
  predicate Apt(w: World, step: Step) {
    match step
    case Connect(r, className) =>
      && EndsThere(w, r.sink, className)
      && forall id | id in r.created && id in w.connections && w.connections[id].className == className ::
           NameMatches(r.className, className)
    case _ => true
  }

  /** A connection that is connecting has an action that is not over. */
  predicate Explained(w: World, className: string) {
    forall id | id in w.connections && w.connections[id].className == className
        && w.connections[id].state.Connecting? ::
      exists t | t in w.transitions :: t.id == id && Pending(t)
  }

  predicate Explains(w: World, step: Step) {
    match step
    case Suspend(_, className) => Explained(w, className)
    case _ => true
  }

  /** An action is given up that has left its connection connecting. */
  predicate Aborts(w: World, step: Step) {
    match step
    case Abort(k) => At(w, k, {Chosen}) && StateAt(w, k).Connecting?
    case Settle(k, s) => s.Connecting?
    case _ => false
  }

  lemma NamedIsProper(w: World, r: Request, className: string)
    requires Valid(w) && ListsAll(w, r.order + r.created) && Named(w, r) && Apt(w, Connect(r, className))
    ensures Proper(w, r, className)
  {
    forall id | id in r.created && id in w.connections && w.connections[id].className == className
      ensures Matches(w.connections[id], r.className, r.excepted, "", r.sink)
    {
      var c := w.connections[id];
      assert Reaches(c);
      var h := c.hops[|c.hops| - 1];
      assert h in c.hops && NameMatches("", h.source) && NameMatches(r.sink, h.sink);
    }
  }

  lemma DrivenIsOrderly(w: World, step: Step)
    requires Valid(w) && Driven(w, step) && Apt(w, step) && Explains(w, step)
    ensures Orderly(w, step)
  {
    hide Valid, Proper, Named, ListsAll;
    match step
    case Connect(r, className) => NamedIsProper(w, r, className);
    case _ =>
  }

  ghost predicate Throughout(w: World, steps: seq<Step>, p: (World, Step) -> bool)
    decreases steps
  {
    steps == [] || (p(w, steps[0]) && Throughout(Take(w, steps[0]), steps[1..], p))
  }

  ghost predicate NoneBeside(w: World) {
    forall a, b | Rivals(w, a, b) && Active(w.connections[a].state) :: !Active(w.connections[b].state)
  }

  lemma ValidNoneBeside(w: World)
    requires Valid(w)
    ensures NoneBeside(w)
  {
    forall a, b | Rivals(w, a, b) && Active(w.connections[a].state) ensures !Active(w.connections[b].state) {
      NotBothSuspended(w, a, b);
    }
  }

  /** In a run of the controller at most one connection of a class and main sink is active,
      if requests are apt and a suspend action meets no connection that an aborted action has
      left connecting. */
  lemma {:induction false} DrivenRunsAreExclusive(w: World, steps: seq<Step>)
    requires Valid(w) && Throughout(w, steps, Driven) && Throughout(w, steps, Apt) && Throughout(w, steps, Explains)
    ensures Valid(TakeAll(w, steps)) && NoneBeside(TakeAll(w, steps))
    decreases steps
  {
    hide Valid, Take, NoneBeside;
    if steps == [] {
      ValidNoneBeside(w);
    } else {
      DrivenIsOrderly(w, steps[0]);
      StepKeeps(w, steps[0]);
      DrivenRunsAreExclusive(Take(w, steps[0]), steps[1..]);
    }
  }

  // ------------------------------------------------------ runs without aborted actions

  ghost predicate AllExplained(w: World) {
    forall id | id in w.connections && w.connections[id].state.Connecting? :: Holder(w, id)
  }

  predicate Holder(w: World, id: nat) {
    exists t | t in w.transitions :: t.id == id && Pending(t)
  }

  /** The step changes the state of c alone, and the transitions of others stay. */
  ghost predicate Local(w: World, w1: World, c: nat) {
    && w1.connections.Keys == w.connections.Keys
    && (forall id | id in w.connections && id != c :: w1.connections[id].state == w.connections[id].state)
    && forall t | t in w.transitions && t.id != c :: t in w1.transitions
  }

  lemma LocalExplained(w: World, w1: World, c: nat)
    requires AllExplained(w) && Local(w, w1, c)
    requires c in w1.connections && w1.connections[c].state.Connecting? ==> Holder(w1, c)
    ensures AllExplained(w1)
  {
    forall id | id in w1.connections && w1.connections[id].state.Connecting? ensures Holder(w1, id) {
      if id != c {
        assert Holder(w, id);
        var t :| t in w.transitions && t.id == id && Pending(t);
      }
    }
  }

  lemma MoveLocal(w: World, k: nat, phase: Phase, s: State)
    requires At(w, k, {Chosen, Running, Done, Failed, Phase.Undoing})
    ensures Local(w, Move(w, k, phase, s), w.transitions[k].id)
    ensures Move(w, k, phase, s).transitions[k] == ToConnect(w.transitions[k].id, phase)
  {
    var w1 := Move(w, k, phase, s);
    forall t | t in w.transitions && t.id != w.transitions[k].id ensures t in w1.transitions {
      var j :| 0 <= j < |w.transitions| && w.transitions[j] == t;
      assert w1.transitions[j] == t;
    }
  }

  lemma GoneLocal(w: World, k: nat)
    requires k < |w.transitions|
    ensures Local(w, Gone(w, k), w.transitions[k].id)
  {
    var w1 := Gone(w, k);
    forall t | t in w.transitions && t.id != w.transitions[k].id ensures t in w1.transitions {
      var j :| 0 <= j < |w.transitions| && w.transitions[j] == t;
      assert if j < k then w1.transitions[j] == t else w1.transitions[j - 1] == t;
    }
  }

  /** A new transition only adds. */
  lemma AddedExplained(w: World, c: nat, s: State, t: Transition)
    requires AllExplained(w) && c in w.connections && t.id == c
    requires s.Connecting? ==> Pending(t)
    ensures AllExplained(Into(w, c, s).(transitions := w.transitions + [t]))
  {
    var w1 := Into(w, c, s).(transitions := w.transitions + [t]);
    assert t in w1.transitions;
    LocalExplained(w, w1, c);
  }

  lemma SelectingExplained(w: World, r: Request, className: string)
    requires AllExplained(w)
    ensures AllExplained(ConnectClass(w, r, className)) && AllExplained(SuspendClass(w, r, className))
  {
    hide AllExplained, Select, Drop, SelectToSuspend;
    var ids := Group(w, r, className);
    var cs := Values(w, ids);
    assert Drop(cs) >= 0 ==> ids[Drop(cs)] in ids;
    assert Select(cs, r.source) >= 0 ==> ids[Select(cs, r.source)] in ids;
    var w1 := if Drop(cs) >= 0 then DropNew(w, ids[Drop(cs)]) else w;
    if Drop(cs) >= 0 { AddedExplained(w, ids[Drop(cs)], Disconnecting, ToDisconnect(ids[Drop(cs)])); }
    if Select(cs, r.source) >= 0 {
      var c := ids[Select(cs, r.source)];
      AddedExplained(w1, c, ConnectBegun(w1.connections[c].state), ToConnect(c, Chosen));
    }
    var ks := Listed(w, r, "", className, r.order);
    var k := SelectToSuspend(Values(w, ks), r.source, r.sink);
    assert k >= 0 ==> ks[k] in ks;
    if k >= 0 { AddedExplained(w, ks[k], SuspendBegun(w.connections[ks[k]].state), ToSuspend(ks[k])); }
  }

  lemma ProgressExplained(w: World, step: Step)
    requires AllExplained(w) && !Aborts(w, step)
    requires step.Execute? || step.Complete? || step.Fail? || step.Undo? || step.Undone? || step.Abort?
    ensures AllExplained(Take(w, step))
  {
    hide AllExplained, Local;
    var k, w1 := step.k, Take(w, step);
    if At(w, k, {Chosen, Running, Done, Failed, Phase.Undoing}) && w1 != w {
      var c := w.transitions[k].id;
      if step.Abort? {
        GoneLocal(w, k);
        LocalExplained(w, w1, c);
      } else if step.Undone? {
        var w2 := Move(w, k, Phase.Undoing, Disconnected);
        MoveLocal(w, k, Phase.Undoing, Disconnected);
        LocalExplained(w, w2, c);
        GoneLocal(w2, k);
        LocalExplained(w2, w1, c);
      } else {
        var t := w1.transitions[k];
        MoveLocal(w, k, t.phase, w1.connections[c].state);
        assert t in w1.transitions && t.id == c;
        assert w1 == Move(w, k, t.phase, w1.connections[c].state);
        LocalExplained(w, w1, c);
      }
    }
  }

  lemma OtherExplained(w: World, step: Step)
    requires AllExplained(w) && !Aborts(w, step) && (step.Create? || step.Dispose? || step.Settle?)
    ensures AllExplained(Take(w, step))
  {
    hide Local;
    var w1 := Take(w, step);
    match step
    case Create(id, c) =>
      forall x | x in w1.connections && w1.connections[x].state.Connecting? ensures Holder(w1, x)
          { assert Holder(w, x); }
    case Dispose(id) =>
      forall x | x in w1.connections && w1.connections[x].state.Connecting? ensures Holder(w1, x)
          { assert Holder(w, x); }
    case Settle(k, s) =>
      if w1 != w {
        var c := w.transitions[k].id;
        GoneLocal(Into(w, c, s), k);
        assert Local(w, w1, c) by { SettleLocal(w, k, s); }
        LocalExplained(w, w1, c);
      }
  }

  lemma SettleLocal(w: World, k: nat, s: State)
    requires k < |w.transitions| && w.transitions[k].id in w.connections
    ensures Local(w, Gone(Into(w, w.transitions[k].id, s), k), w.transitions[k].id)
  {
    GoneLocal(Into(w, w.transitions[k].id, s), k);
  }

  lemma StepExplained(w: World, step: Step)
    requires AllExplained(w) && !Aborts(w, step)
    ensures AllExplained(Take(w, step))
  {
    hide AllExplained, Aborts;
    match step
    case Connect(r, className) => SelectingExplained(w, r, className);
    case Suspend(r, className) => SelectingExplained(w, r, className);
    case Create(_, _) => OtherExplained(w, step);
    case Dispose(_) => OtherExplained(w, step);
    case Settle(_, _) => OtherExplained(w, step);
    case _ => ProgressExplained(w, step);
  }

  predicate Unaborted(w: World, step: Step) {
    !Aborts(w, step)
  }

  /** Only an aborted action leaves a connection connecting. */
  lemma {:induction false} UnabortedRunsExplain(w: World, steps: seq<Step>)
    requires AllExplained(w) && Throughout(w, steps, Unaborted)
    ensures Throughout(w, steps, Explains) && AllExplained(TakeAll(w, steps))
    decreases steps
  {
    hide Take, Aborts;
    if steps != [] {
      assert Unaborted(w, steps[0]);
      StepExplained(w, steps[0]);
      assert Explains(w, steps[0]) by {
        if steps[0].Suspend? {
            assert forall id | id in w.connections && w.connections[id].state.Connecting? :: Holder(w, id); }
      }
      UnabortedRunsExplain(Take(w, steps[0]), steps[1..]);
    }
  }

  const EMPTY := World(map[], [])

  /** In a run of the controller without aborted actions, from its start, at most one
      connection of a class and main sink is active, if requests are apt. Nothing is asked
      of the states that an action finds. */
  lemma UnabortedRunsAreExclusive(steps: seq<Step>)
    requires Throughout(EMPTY, steps, Driven) && Throughout(EMPTY, steps, Apt) && Throughout(EMPTY, steps, Unaborted)
    ensures NoneBeside(TakeAll(EMPTY, steps))
  {
    assert Valid(EMPTY);
    assert AllExplained(EMPTY);
    UnabortedRunsExplain(EMPTY, steps);
    DrivenRunsAreExclusive(EMPTY, steps);
  }
}

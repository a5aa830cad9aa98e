/** How connect and suspend actions choose among the main connections of a class, and why
    at most one connection per class and main sink is ever active. */
module ClassExclusivity {
  import opened Sequences

  datatype State = Unknown | Connecting | Connected | Disconnecting | Disconnected | Suspended

  datatype Hop = Hop(source: string, sink: string)

  /** A main connection; the hops lead from its main source to its main sink. */
  datatype Connection = Connection(className: string, mainSource: string, mainSink: string,
      hops: seq<Hop>, state: State)

  predicate Active(s: State) {
    s.Connecting? || s.Connected? || s.Suspended?
  }

  // ------------------------------------------------------ filters

  predicate NameMatches(filter: string, name: string) {
    filter == "" || filter == name
  }

  /** CAmConnectionListFilter::matches() for names of classes, sources and sinks. */
  predicate Matches(c: Connection, className: string, excepted: seq<string>, source: string, sink: string) {
    && NameMatches(className, c.className) && c.className !in excepted
    && (exists h | h in c.hops :: NameMatches(source, h.source))
    && (exists h | h in c.hops :: NameMatches(sink, h.sink))
  }

  predicate Candidate(c: Connection, source: string) {
    (c.state.Disconnected? || c.state.Disconnecting? || c.state.Unknown? || c.state.Suspended?)
    && Matches(c, "", [], source, "")
  }

  // ------------------------------------------------------ choosing one

  predicate Has(cs: seq<Connection>, s: State) {
    exists i | 0 <= i < |cs| :: cs[i].state == s
  }

  /** The position of the last connection in state s, or -1. */
  function Last(cs: seq<Connection>, s: State): (k: int)
    ensures -1 <= k < |cs|
    ensures k >= 0 ==> cs[k].state == s
    ensures forall i | 0 <= i < |cs| && k < i :: cs[i].state != s
  {
    if cs == [] then -1
    else if cs[|cs| - 1].state == s then |cs| - 1
    else Last(cs[..|cs| - 1], s)
  }

  function FirstCandidate(cs: seq<Connection>, source: string): (k: nat)
    ensures k <= |cs|
    ensures k < |cs| ==> Candidate(cs[k], source)
    ensures forall i | 0 <= i < k :: !Candidate(cs[i], source)
  {
    if cs == [] || Candidate(cs[0], source) then 0 else 1 + FirstCandidate(cs[1..], source)
  }

  /** CAmActionConnect::_selectConnection() among the connections of one class: the
      position of the selected one, or -1. */
  function Select(cs: seq<Connection>, source: string): (k: int)
    ensures -1 <= k < |cs|
  {
    var p := FirstCandidate(cs, source);
    var s := Last(cs, Suspended);
    if Has(cs, Connected) || Has(cs, Connecting) || p == |cs| || (s >= 0 && s != p) then -1 else p
  }

  /** A new connection that meets a conflict is not left in its initial state. */
  function Drop(cs: seq<Connection>): (k: int)
    ensures -1 <= k < |cs| && (k >= 0 ==> cs[k].state.Unknown?)
  {
    if Has(cs, Connected) || Has(cs, Connecting) || Has(cs, Suspended) then Last(cs, Unknown) else -1
  }

  predicate Suspendable(c: Connection, source: string, sink: string) {
    (c.state.Connected? || c.state.Disconnected? || c.state.Unknown?) && Matches(c, "", [], source, sink)
  }

  function FirstToSuspend(cs: seq<Connection>, source: string, sink: string): (k: nat)
    ensures k <= |cs|
    ensures k < |cs| ==> Suspendable(cs[k], source, sink)
    ensures forall i | 0 <= i < k :: !Suspendable(cs[i], source, sink)
  {
    if cs == [] || Suspendable(cs[0], source, sink) then 0 else 1 + FirstToSuspend(cs[1..], source, sink)
  }

  /** CAmActionSuspend::_selectConnection() */
  function SelectToSuspend(cs: seq<Connection>, source: string, sink: string): (k: int)
    ensures -1 <= k < |cs|
  {
    var p := FirstToSuspend(cs, source, sink);
    var c := Last(cs, Connected);
    if Has(cs, Suspended) || p == |cs| || (c >= 0 && c != p) then -1 else p
  }

  // ------------------------------------------------------ who is chosen

  /** Some hop starts at the source, if one is named. */
  predicate Starts(c: Connection, source: string) {
    exists h | h in c.hops :: source == "" || h.source == source
  }

  predicate Ends(c: Connection, sink: string) {
    exists h | h in c.hops :: sink == "" || h.sink == sink
  }

  /** The connection at k is the last in this state, if any is. */
  predicate LastIsAt(cs: seq<Connection>, s: State, k: nat) {
    forall i | 0 <= i < |cs| && cs[i].state == s :: i == k || exists j | i < j < |cs| :: cs[j].state == s
  }

  /** A connect action takes the first connection of the source that is neither connected
      nor connecting, a suspended one included, if nothing in the class is connected or
      connecting and no other one is the last that is suspended. */
  lemma SelectIff(cs: seq<Connection>, source: string, k: nat)
    requires k < |cs|
    ensures Select(cs, source) == k
            <==> && (forall i | 0 <= i < |cs| :: cs[i].state != Connected && cs[i].state != Connecting)
                 && Starts(cs[k], source) && (forall i | 0 <= i < k :: !Starts(cs[i], source))
                 && LastIsAt(cs, Suspended, k)
  {
    hide Last, FirstCandidate;
    forall c: Connection ensures Candidate(c, source) <==>
        c.state != Connected && c.state != Connecting && Starts(c, source) { CandidateIs(c, source); }
    var p, s := FirstCandidate(cs, source), Last(cs, Suspended);
    assert s >= 0 ==> cs[s].state == Suspended && forall j | s < j < |cs| :: cs[j].state != Suspended;
    LastPlace(cs, Suspended, k);
    if forall i | 0 <= i < |cs| :: cs[i].state != Connected && cs[i].state != Connecting {
      assert !Has(cs, Connected) && !Has(cs, Connecting);
    } else {
      assert Has(cs, Connected) || Has(cs, Connecting);
    }
  }

  lemma LastPlace(cs: seq<Connection>, s: State, k: nat)
    ensures LastIsAt(cs, s, k) <==> Last(cs, s) == -1 || Last(cs, s) == k
  {
    hide Last;
    var l := Last(cs, s);
    if l >= 0 { assert !exists j | l < j < |cs| :: cs[j].state == s; }
  }

  lemma CandidateIs(c: Connection, source: string)
    ensures Candidate(c, source) <==> c.state != Connected && c.state != Connecting && Starts(c, source)
  {
    assert forall h | h in c.hops :: NameMatches("", h.sink);
    assert forall h | h in c.hops :: NameMatches(source, h.source) <==> source == "" || h.source == source;
  }

  /** The last new connection gives way if another one is connected, connecting or suspended. */
  lemma DropIff(cs: seq<Connection>, k: nat)
    requires k < |cs|
    ensures Drop(cs) == k
            <==> && cs[k].state == Unknown && (forall i | k < i < |cs| :: cs[i].state != Unknown)
                 && exists i | 0 <= i < |cs| :: Active(cs[i].state)
  {
    hide Last;
    var l := Last(cs, Unknown);
    if exists i | 0 <= i < |cs| :: Active(cs[i].state) {
      assert Has(cs, Connected) || Has(cs, Connecting) || Has(cs, Suspended);
    }
  }

  /** A suspend action takes the first connection from the source to the sink that is
      connected, disconnected or new, if nothing in the class is suspended and no other one
      is the last that is connected. */
  lemma SuspendIff(cs: seq<Connection>, source: string, sink: string, k: nat)
    requires k < |cs|
    ensures SelectToSuspend(cs, source, sink) == k
            <==> && (forall i | 0 <= i < |cs| :: cs[i].state != Suspended)
                 && ToBeSuspended(cs[k], source, sink) && (forall i | 0 <= i < k :: !ToBeSuspended(cs[i], source, sink))
                 && LastIsAt(cs, Connected, k)
  {
    hide Last, FirstToSuspend;
    forall c: Connection ensures Suspendable(c, source, sink) <==> ToBeSuspended(c, source, sink) {
      SuspendableIs(c, source, sink);
    }
    LastPlace(cs, Connected, k);
    var p := FirstToSuspend(cs, source, sink);
  }

  predicate ToBeSuspended(c: Connection, source: string, sink: string) {
    (c.state == Connected || c.state == Disconnected || c.state == Unknown) && Starts(c, source) && Ends(c, sink)
  }

  lemma SuspendableIs(c: Connection, source: string, sink: string)
    ensures Suspendable(c, source, sink) <==> ToBeSuspended(c, source, sink)
  {
    assert forall h | h in c.hops :: NameMatches(source, h.source) <==> source == "" || h.source == source;
    assert forall h | h in c.hops :: NameMatches(sink, h.sink) <==> sink == "" || h.sink == sink;
  }

  // ------------------------------------------------------ the transitions of one action

  /** Constructor of CAmMainConnectionActionConnect */
  function ConnectBegun(s: State): State {
    if s.Unknown? || s.Disconnected? || s.Suspended? then Connecting else s
  }

  /** Its _execute(), once the route is available. */
  function ConnectExecuted(s: State): State {
    if s.Connected? then s else Connecting
  }

  /** Constructor of CAmMainConnectionActionSuspend */
  function SuspendBegun(s: State): State {
    if s.Unknown? || s.Disconnected? then Connecting else s
  }

  // ------------------------------------------------------ runs

  datatype Phase = Chosen | Running | Done | Failed | Undoing

  datatype Transition = ToConnect(id: nat, phase: Phase) | ToSuspend(id: nat) | ToDisconnect(id: nat)

  datatype World = World(connections: map<nat, Connection>, transitions: seq<Transition>)

  /** The parameters of an action, the order in which the factory lists connections, and
      the connection that the action has just created, if any. */
  datatype Request = Request(
    className: string, excepted: seq<string>, source: string, sink: string, order: seq<nat>, created: seq<nat>)

  datatype Step =
    | Create(id: nat, connection: Connection)
    | Connect(request: Request, className: string)
    | Execute(k: nat, available: bool)
    | Complete(k: nat, sourceOn: bool)
    | Fail(k: nat)
    | Undo(k: nat)
    | Undone(k: nat)
    | Abort(k: nat)
    | Dispose(id: nat)
    | Suspend(request: Request, className: string)
    | Settle(k: nat, state: State)

  /** The connections of a class that pass the filter, in the order of the factory. */
  function Listed(w: World, r: Request, sink: string, className: string, order: seq<nat>): (ids: seq<nat>)
    ensures forall id :: id in ids <==> id in order && id in w.connections && w.connections[id].className == className
                                        && Matches(w.connections[id], r.className, r.excepted, "", sink)
  {
    if order == [] then []
    else
      var id := order[0];
      (if id in w.connections && w.connections[id].className == className
          && Matches(w.connections[id], r.className, r.excepted, "", sink) then [id] else [])
      + Listed(w, r, sink, className, order[1..])
  }

  function OfClass(w: World, ids: seq<nat>, className: string): (r: seq<nat>)
    ensures forall id :: id in r <==> id in ids && id in w.connections && w.connections[id].className == className
  {
    if ids == [] then []
    else
      (if ids[0] in w.connections && w.connections[ids[0]].className == className then [ids[0]] else [])
      + OfClass(w, ids[1..], className)
  }

  function Values(w: World, ids: seq<nat>): (cs: seq<Connection>)
    requires forall id | id in ids :: id in w.connections
    ensures |cs| == |ids| && forall i | 0 <= i < |ids| :: cs[i] == w.connections[ids[i]]
  {
    seq(|ids|, i requires 0 <= i < |ids| => w.connections[ids[i]])
  }

  function Into(w: World, id: nat, s: State): World
    requires id in w.connections
  {
    w.(connections := w.connections[id := w.connections[id].(state := s)])
  }

  function ConnectTo(w: World, id: nat): World
    requires id in w.connections
  {
    Into(w, id, ConnectBegun(w.connections[id].state)).(transitions := w.transitions + [ToConnect(id, Chosen)])
  }

  function SuspendTo(w: World, id: nat): World
    requires id in w.connections
  {
    Into(w, id, SuspendBegun(w.connections[id].state)).(transitions := w.transitions + [ToSuspend(id)])
  }

  function DropNew(w: World, id: nat): World
    requires id in w.connections
  {
    Into(w, id, Disconnecting).(transitions := w.transitions + [ToDisconnect(id)])
  }

  /** CAmActionConnect::_execute(), for the connections of one class. */
  function ConnectClass(w: World, r: Request, className: string): World {
    var ids := Listed(w, r, r.sink, className, r.order) + OfClass(w, r.created, className);
    var cs := Values(w, ids);
    assert Drop(cs) >= 0 ==> ids[Drop(cs)] in ids;
    var w1 := if Drop(cs) >= 0 then DropNew(w, ids[Drop(cs)]) else w;
    assert Select(cs, r.source) >= 0 ==> ids[Select(cs, r.source)] in ids;
    if Select(cs, r.source) >= 0 then ConnectTo(w1, ids[Select(cs, r.source)]) else w1
  }

  function SuspendClass(w: World, r: Request, className: string): World {
    var ids := Listed(w, r, "", className, r.order);
    var k := SelectToSuspend(Values(w, ids), r.source, r.sink);
    assert k >= 0 ==> ids[k] in ids;
    if k >= 0 then SuspendTo(w, ids[k]) else w
  }

  /** Transition k is a connect transition of a connection that exists, in one of the phases. */
  predicate At(w: World, k: nat, phases: set<Phase>) {
    k < |w.transitions| && w.transitions[k].ToConnect? && w.transitions[k].phase in phases
    && w.transitions[k].id in w.connections
  }

  function Move(w: World, k: nat, phase: Phase, s: State): World
    requires At(w, k, {Chosen, Running, Done, Failed, Undoing})
  {
    Into(w, w.transitions[k].id, s).(transitions := w.transitions[k := ToConnect(w.transitions[k].id, phase)])
  }

  function Gone(w: World, k: nat): World
    requires k < |w.transitions|
  {
    w.(transitions := w.transitions[..k] + w.transitions[k + 1..])
  }

  function StateAt(w: World, k: nat): State
    requires At(w, k, {Chosen, Running, Done, Failed, Undoing})
  {
    w.connections[w.transitions[k].id].state
  }

  function Without(ts: seq<Transition>, id: nat): (r: seq<Transition>)
    ensures forall t :: t in r <==> t in ts && t.id != id
  {
    if ts == [] then [] else (if ts[0].id == id then [] else [ts[0]]) + Without(ts[1..], id)
  }

  /** A number that is in use is not given to a new connection. */
  predicate InUse(w: World, id: nat) {
    id in w.connections || exists t | t in w.transitions :: t.id == id
  }

  function Take(w: World, step: Step): World {
    match step
    case Create(id, c) => if InUse(w, id) then w else w.(connections := w.connections[id := c.(state := Unknown)])
    case Connect(r, className) => ConnectClass(w, r, className)
    case Execute(k, available) =>
      if !At(w, k, {Chosen}) then w
      else if StateAt(w, k).Connected? then Move(w, k, Running, Connected)
      else if !available then Move(w, k, Failed, StateAt(w, k))
      else Move(w, k, Running, ConnectExecuted(StateAt(w, k)))
    case Complete(k, sourceOn) =>
        if At(w, k, {Running}) then Move(w, k, Done, if sourceOn then Connected else Suspended) else w
    case Fail(k) => if At(w, k, {Running}) then Move(w, k, Failed, StateAt(w, k)) else w
    case Undo(k) => if At(w, k, {Done, Failed}) then Move(w, k, Undoing, Disconnecting) else w
    case Undone(k) => if At(w, k, {Undoing}) then Gone(Move(w, k, Undoing, Disconnected), k) else w
    case Abort(k) => if At(w, k, {Chosen}) then Gone(w, k) else w
    case Dispose(id) => World(w.connections - {id}, Without(w.transitions, id))
    case Suspend(r, className) => SuspendClass(w, r, className)
    case Settle(k, s) =>
      if k < |w.transitions| && !w.transitions[k].ToConnect? && w.transitions[k].id in w.connections
      then Gone(Into(w, w.transitions[k].id, s), k) else w
  }

  // ------------------------------------------------------ the invariant

  /** The transition may still make its connection active. */
  predicate Claims(t: Transition) {
    t.ToSuspend? || (t.ToConnect? && (t.phase.Chosen? || t.phase.Running?))
  }

  predicate Holds(w: World, id: nat) {
    && id in w.connections
    && (Active(w.connections[id].state) || exists t | t in w.transitions :: t.id == id && Claims(t))
  }

  predicate Rivals(w: World, a: nat, b: nat) {
    && a in w.connections && b in w.connections && a != b
    && w.connections[a].className == w.connections[b].className
    && w.connections[a].mainSink == w.connections[b].mainSink
  }

  /** Of each class and main sink, at most one connection is active or may become so. */
  ghost predicate Exclusive(w: World) {
    forall a, b | Rivals(w, a, b) && Holds(w, a) :: !Holds(w, b)
  }

  predicate Reaches(c: Connection) {
    c.hops != [] && c.hops[0].source == c.mainSource && c.hops[|c.hops| - 1].sink == c.mainSink
  }

  ghost predicate Valid(w: World) {
    Exclusive(w) && forall id | id in w.connections :: Reaches(w.connections[id])
  }

  // ------------------------------------------------------ what callers have to observe

  /** Every transition that may still make a connection of the class active shows in its
      state. */
  predicate Steady(w: World, className: string) {
    forall t | t in w.transitions && Claims(t) && t.id in w.connections && w.connections[t.id].className == className ::
      Active(w.connections[t.id].state)
  }

  predicate ListsAll(w: World, ids: seq<nat>) {
    Distinct(ids) && forall id | id in w.connections :: id in ids
  }

  /** The class name is empty or that of a connection just created, and the sink, if one is
      named, is not one that a connection of the class only passes. */
  predicate Proper(w: World, r: Request, className: string) {
    && ListsAll(w, r.order + r.created)
    && (forall id | id in r.created && id in w.connections && w.connections[id].className == className ::
          Matches(w.connections[id], r.className, r.excepted, "", r.sink))
    && EndsThere(w, r.sink, className)
  }

  predicate EndsThere(w: World, sink: string, className: string) {
    sink != "" ==>
      forall id, h | id in w.connections && w.connections[id].className == className && h in w.connections[id].hops ::
        h.sink == sink ==> w.connections[id].mainSink == sink
  }

  predicate NoneConnecting(w: World, className: string) {
    forall id | id in w.connections && w.connections[id].className == className :: !w.connections[id].state.Connecting?
  }

  predicate Orderly(w: World, step: Step) {
    match step
    case Create(_, c) => Reaches(c)
    case Connect(r, className) => Steady(w, className) && Proper(w, r, className)
    case Suspend(r, className) => Steady(w, className) && ListsAll(w, r.order) && NoneConnecting(w, className)
    case Settle(k, s) => k < |w.transitions| && w.transitions[k].ToDisconnect? ==> !Active(s)
    case _ => true
  }

  // ------------------------------------------------------ steps that only let go

  /** Nobody becomes active, or may become so, who was not. */
  ghost predicate Shrinks(w: World, w1: World) {
    forall id | id in w1.connections ::
      && id in w.connections && w1.connections[id] == w.connections[id].(state := w1.connections[id].state)
      && (Holds(w1, id) ==> Holds(w, id))
  }

  lemma ShrinkingKeeps(w: World, w1: World)
    requires Valid(w) && Shrinks(w, w1)
    ensures Valid(w1)
  {
    hide Holds;
    forall a, b | Rivals(w1, a, b) && Holds(w1, a) ensures !Holds(w1, b) { assert Rivals(w, a, b); }
    forall id | id in w1.connections ensures Reaches(w1.connections[id]) { assert Reaches(w.connections[id]); }
  }

  /** One connection gets hold of its class and sink. */
  ghost predicate Grabs(w: World, w1: World, c: nat) {
    && c in w.connections && c in w1.connections
    && (forall id | id in w1.connections ::
          && id in w.connections && w1.connections[id] == w.connections[id].(state := w1.connections[id].state)
          && (id != c && Holds(w1, id) ==> Holds(w, id)))
  }

  lemma GrabbingKeeps(w: World, w1: World, c: nat)
    requires Valid(w) && Grabs(w, w1, c)
    requires forall d | Rivals(w, c, d) :: !Holds(w, d)
    ensures Valid(w1)
  {
    hide Holds;
    forall a, b | Rivals(w1, a, b) && Holds(w1, a) ensures !Holds(w1, b) {
      assert Rivals(w, a, b) && Rivals(w, b, a);
    }
    forall id | id in w1.connections ensures Reaches(w1.connections[id]) { assert Reaches(w.connections[id]); }
  }

  lemma MoveShrinks(w: World, k: nat, phase: Phase, s: State)
    requires At(w, k, {Chosen, Running, Done, Failed, Undoing})
    requires Active(s) || Claims(ToConnect(w.transitions[k].id, phase)) ==> Holds(w, w.transitions[k].id)
    ensures Shrinks(w, Move(w, k, phase, s))
  {
    var w1 := Move(w, k, phase, s);
    var c := w.transitions[k].id;
    forall id | id in w1.connections && Holds(w1, id) ensures Holds(w, id) {
      if id != c && !Active(w.connections[id].state) {
        var t :| t in w1.transitions && t.id == id && Claims(t);
        assert t in w.transitions;
      } else if id == c && !Active(s) {
        var t :| t in w1.transitions && t.id == id && Claims(t);
        assert t == ToConnect(c, phase) || t in w.transitions;
      }
    }
  }

  lemma GoneShrinks(w: World, k: nat)
    requires k < |w.transitions|
    ensures Shrinks(w, Gone(w, k))
  {
  }

  lemma ShrinksTwice(w: World, w1: World, w2: World)
    requires Shrinks(w, w1) && Shrinks(w1, w2)
    ensures Shrinks(w, w2)
  {
    hide Holds;
  }

  // ------------------------------------------------------ connecting

  /** The candidates of an action on one class. */
  function Group(w: World, r: Request, className: string): (ids: seq<nat>)
    ensures forall id | id in ids :: id in w.connections
  {
    Listed(w, r, r.sink, className, r.order) + OfClass(w, r.created, className)
  }

  /** The position of the selected one among them, or -1. */
  function Selected(w: World, r: Request, className: string): (k: int)
    ensures -1 <= k < |Group(w, r, className)|
  {
    Select(Values(w, Group(w, r, className)), r.source)
  }

  /** The filter lets no rival of a candidate escape. */
  lemma RivalIsSeen(w: World, r: Request, className: string, c: nat, d: nat)
    requires Valid(w) && Proper(w, r, className) && c in Group(w, r, className) && Rivals(w, c, d)
    ensures d in Group(w, r, className)
  {
    var x, y := w.connections[c], w.connections[d];
    assert Matches(x, r.className, r.excepted, "", r.sink) && x.className == className;
    assert Reaches(y);
    var h := y.hops[|y.hops| - 1];
    assert NameMatches("", h.source);
    assert NameMatches(r.sink, h.sink) by {
      if r.sink != "" {
        var g :| g in x.hops && NameMatches(r.sink, g.sink);
        assert g.sink == r.sink;
      }
    }
    assert Matches(y, r.className, r.excepted, "", r.sink);
    assert d in r.order + r.created;
  }

  lemma SelectedHasNoRival(w: World, r: Request, className: string, d: nat)
    requires Valid(w) && Steady(w, className) && Proper(w, r, className)
    requires Selected(w, r, className) >= 0 && Rivals(w, Group(w, r, className)[Selected(w, r, className)], d)
    ensures !Holds(w, d)
  {
    hide Group, Proper, Valid;
    var ids := Group(w, r, className);
    var k := Selected(w, r, className);
    RivalIsSeen(w, r, className, ids[k], d);
    ListedIsIdle(w, r, className, d);
  }

  /** A rival of the selected connection that passes the filter is not active. */
  lemma ListedIsIdle(w: World, r: Request, className: string, d: nat)
    requires Valid(w) && d in Group(w, r, className)
    requires Selected(w, r, className) >= 0 && Rivals(w, Group(w, r, className)[Selected(w, r, className)], d)
    ensures !Active(w.connections[d].state) && w.connections[d].className == className
  {
    hide Valid;
    var ids := Group(w, r, className);
    var cs := Values(w, ids);
    var k := Selected(w, r, className);
    assert ids[k] in ids;
    var j :| 0 <= j < |ids| && ids[j] == d;
    NotBothSuspended(w, ids[k], d);
    assert cs[j].state == w.connections[d].state && cs[k].state == w.connections[ids[k]].state;
  }

  lemma NotBothSuspended(w: World, c: nat, d: nat)
    requires Valid(w) && Rivals(w, c, d)
    ensures !(Active(w.connections[c].state) && Active(w.connections[d].state))
  {
  }

  /** A new connection that is dropped did not hold anything by its state. */
  lemma DropHolds(w: World, id: nat)
    requires id in w.connections && w.connections[id].state.Unknown?
    ensures Alike(w, DropNew(w, id))
  {
    var w1 := DropNew(w, id);
    forall x | x in w.connections ensures Holds(w1, x) <==> Holds(w, x) {
      forall t | Claims(t) ensures t in w1.transitions <==> t in w.transitions { }
    }
  }

  lemma ConnectGrabs(w: World, c: nat)
    requires c in w.connections
    ensures Grabs(w, ConnectTo(w, c), c) && Grabs(w, SuspendTo(w, c), c)
  {
    OthersKeep(w, c, ConnectBegun(w.connections[c].state), ToConnect(c, Chosen));
    OthersKeep(w, c, SuspendBegun(w.connections[c].state), ToSuspend(c));
  }

  lemma OthersKeep(w: World, c: nat, s: State, t: Transition)
    requires c in w.connections && t.id == c
    ensures Grabs(w, Into(w, c, s).(transitions := w.transitions + [t]), c)
  {
    var w1 := Into(w, c, s).(transitions := w.transitions + [t]);
    forall x | x in w1.connections && x != c && Holds(w1, x) ensures Holds(w, x) {
      if !Active(w1.connections[x].state) {
        var u :| u in w1.transitions && u.id == x && Claims(u);
        assert u in w.transitions;
      }
    }
  }

  /** Of the selected connection no rival is active or may become so. */
  ghost predicate Unrivalled(w: World, ids: seq<nat>, k: int)
    requires k < |ids|
  {
    k >= 0 ==> forall d | Rivals(w, ids[k], d) :: !Holds(w, d)
  }

  /** Exactly when connecting keeps exclusivity. */
  lemma ConnectKeepsIff(w: World, r: Request, className: string)
    requires Valid(w)
    ensures Valid(ConnectClass(w, r, className)) <==> Unrivalled(w, Group(w, r, className), Selected(w, r, className))
  {
    hide Holds, Valid, Select, Drop, Shrinks, Rivals, ConnectTo, DropNew;
    var ids := Group(w, r, className);
    var cs := Values(w, ids);
    var k, x := Select(cs, r.source), Drop(cs);
    assert k >= 0 ==> ids[k] in ids;
    assert x >= 0 ==> ids[x] in ids;
    var w1 := if x >= 0 then DropNew(w, ids[x]) else w;
    if x >= 0 { DropHolds(w, ids[x]); } else { HoldsAlike(w); }
    if k >= 0 {
      ConnectedIff(w, w1, ids[k]);
    } else {
      AlikeKeeps(w, w1);
    }
  }

  /** The same connections hold their class and sink. */
  ghost predicate Alike(w: World, w1: World) {
    && w1.connections.Keys == w.connections.Keys
    && forall id | id in w.connections ::
         && w1.connections[id] == w.connections[id].(state := w1.connections[id].state)
         && (Holds(w1, id) <==> Holds(w, id))
  }

  lemma HoldsAlike(w: World)
    ensures Alike(w, w)
  {
  }

  lemma AlikeKeeps(w: World, w1: World)
    requires Alike(w, w1) && Valid(w)
    ensures Valid(w1)
  {
    hide Holds, Valid;
    assert Shrinks(w, w1);
    ShrinkingKeeps(w, w1);
  }

  lemma ConnectedIff(w: World, w1: World, c: nat)
    requires Valid(w) && Alike(w, w1) && c in w.connections
    ensures Valid(ConnectTo(w1, c)) <==> forall d | Rivals(w, c, d) :: !Holds(w, d)
  {
    hide Holds, Valid;
    AlikeKeeps(w, w1);
    ConnectGrabs(w1, c);
    assert forall d :: Rivals(w1, c, d) == Rivals(w, c, d);
    if forall d | Rivals(w, c, d) :: !Holds(w, d) {
      forall d | Rivals(w1, c, d) ensures !Holds(w1, d) { assert Rivals(w, c, d); }
      GrabbingKeeps(w1, ConnectTo(w1, c), c);
    } else {
      var d :| Rivals(w, c, d) && Holds(w, d);
      GrabbingBreaks(w1, c, ConnectBegun(w1.connections[c].state), ToConnect(c, Chosen), d);
    }
  }

  /** Whoever takes what a rival holds breaks exclusivity. */
  lemma GrabbingBreaks(w: World, c: nat, s: State, t: Transition, d: nat)
    requires Rivals(w, c, d) && Holds(w, d) && t.id == c && Claims(t)
    ensures !Valid(Into(w, c, s).(transitions := w.transitions + [t]))
  {
    var w1 := Into(w, c, s).(transitions := w.transitions + [t]);
    assert t in w1.transitions;
    assert Rivals(w1, c, d) && Holds(w1, c);
    assert Holds(w1, d) by { assert forall u | u in w.transitions :: u in w1.transitions; }
  }

  lemma ConnectKeeps(w: World, r: Request, className: string)
    requires Valid(w) && Steady(w, className) && Proper(w, r, className)
    ensures Valid(ConnectClass(w, r, className))
  {
    hide Holds, Valid, Steady, Proper, Selected, Group, Rivals, ConnectClass;
    var ids, k := Group(w, r, className), Selected(w, r, className);
    forall d | k >= 0 && Rivals(w, ids[k], d) ensures !Holds(w, d) { SelectedHasNoRival(w, r, className, d); }
    ConnectKeepsIff(w, r, className);
  }

  /** The ways in which a rival that holds its class and sink escapes: it is not in the
      lists, its class is filtered out (which the created connection is not asked), no hop
      of it ends at the sink of the filter, or it does not yet show in its state. */
  lemma RivalEscapes(w: World, r: Request, className: string, d: nat)
    requires Valid(w) && Selected(w, r, className) >= 0
    requires Rivals(w, Group(w, r, className)[Selected(w, r, className)], d) && Holds(w, d)
    ensures var c, y := Group(w, r, className)[Selected(w, r, className)], w.connections[d];
            || d !in r.order + r.created
            || (c in r.created && !(NameMatches(r.className, className) && className !in r.excepted))
            || (r.sink != "" && forall h | h in y.hops :: h.sink != r.sink)
            || !Active(y.state)
  {
    hide Valid, Selected;
    var ids, k := Group(w, r, className), Selected(w, r, className);
    var c, y := ids[k], w.connections[d];
    assert c in ids && w.connections[c].className == className;
    if d in r.order && Active(y.state) && (r.sink == "" || exists h | h in y.hops :: h.sink == r.sink)
       && NameMatches(r.className, className) && className !in r.excepted
    {
      assert Reaches(y) by { assert Valid(w); ValidReaches(w, d); }
      var h :| h in y.hops && NameMatches(r.sink, h.sink);
      assert NameMatches("", h.source);
      assert Matches(y, r.className, r.excepted, "", r.sink);
      assert d in ids;
    }
    if d in ids { ListedIsIdle(w, r, className, d); }
  }

  lemma ValidReaches(w: World, id: nat)
    requires Valid(w) && id in w.connections
    ensures Reaches(w.connections[id])
  {
  }

  lemma ShrinksNot(w: World)
    ensures Shrinks(w, w)
  {
  }

  // ------------------------------------------------------ what becomes of them

  /** One connection is dropped, if x is not negative, and one chosen, if k is not. */
  function Moved(w: World, ids: seq<nat>, k: int, x: int): World
    requires k < |ids| && x < |ids| && forall id | id in ids :: id in w.connections
  {
    assert x >= 0 ==> ids[x] in ids;
    assert k >= 0 ==> ids[k] in ids;
    var w1 := if x >= 0 then DropNew(w, ids[x]) else w;
    if k >= 0 then ConnectTo(w1, ids[k]) else w1
  }

  lemma ConnectIsMove(w: World, r: Request, className: string)
    ensures ConnectClass(w, r, className)
         == Moved(w, Group(w, r, className), Selected(w, r, className), Drop(Values(w, Group(w, r, className))))
  {
    hide Listed, OfClass, Drop, Select, DropNew, ConnectTo;
  }

  predicate Chooses(w: World, ids: seq<nat>, k: int, id: nat)
    requires k < |ids|
  {
    k >= 0 && ids[k] == id
  }

  lemma MoveEffect(w: World, ids: seq<nat>, k: int, x: int, id: nat)
    requires k < |ids| && x < |ids| && id in w.connections && forall i | i in ids :: i in w.connections
    ensures var w1 := Moved(w, ids, k, x);
            var s := if Chooses(w, ids, x, id) then Disconnecting else w.connections[id].state;
            && w1.connections.Keys == w.connections.Keys
            && w1.connections[id]
               == w.connections[id].(state := if Chooses(w, ids, k, id) then ConnectBegun(s) else s)
            && (k >= 0 ==> w1.transitions != [] && w1.transitions[|w1.transitions| - 1] == ToConnect(ids[k], Chosen))
  {
    hide DropNew, ConnectTo;
    assert x >= 0 ==> ids[x] in ids;
    assert k >= 0 ==> ids[k] in ids;
    var w1 := if x >= 0 then DropNew(w, ids[x]) else w;
    if x >= 0 { DropMoves(w, ids[x], id); }
    if k >= 0 { ConnectMoves(w1, ids[k], id); }
  }

  /** The selected connection is connecting afterwards, also if it was suspended, unless it
      is still disconnecting; the dropped one is disconnecting, and no other is touched. */
  lemma ConnectEffect(w: World, r: Request, className: string, id: nat)
    requires id in w.connections
    ensures var ids, w1 := Group(w, r, className), ConnectClass(w, r, className);
            var k, x := Selected(w, r, className), Drop(Values(w, ids));
            && w1.connections.Keys == w.connections.Keys
            && w1.connections[id] == w.connections[id].(state := w1.connections[id].state)
            && (Chooses(w, ids, k, id) && !Chooses(w, ids, x, id) ==>
                  w1.connections[id].state
                  == if w.connections[id].state == Disconnecting then Disconnecting else Connecting)
            && (Chooses(w, ids, x, id) && !Chooses(w, ids, k, id) ==> w1.connections[id].state == Disconnecting)
            && (!Chooses(w, ids, k, id) && !Chooses(w, ids, x, id) ==> w1.connections[id] == w.connections[id])
            && (k >= 0 ==> w1.transitions != [] && w1.transitions[|w1.transitions| - 1] == ToConnect(ids[k], Chosen))
  {
    hide Group, Drop, Select, Moved, ConnectClass;
    var ids := Group(w, r, className);
    var cs := Values(w, ids);
    var k := Selected(w, r, className);
    ConnectIsMove(w, r, className);
    MoveEffect(w, ids, k, Drop(cs), id);
    if k >= 0 {
      SelectIff(cs, r.source, k);
      assert cs[k].state != Connected && cs[k].state != Connecting;
    }
  }

  lemma DropMoves(w: World, c: nat, id: nat)
    requires c in w.connections && id in w.connections
    ensures var w1 := DropNew(w, c);
            && w1.connections.Keys == w.connections.Keys
            && w1.connections[id] == (if id == c then w.connections[id].(state := Disconnecting) else w.connections[id])
  {
  }

  lemma ConnectMoves(w: World, c: nat, id: nat)
    requires c in w.connections && id in w.connections
    ensures var w1 := ConnectTo(w, c);
            && w1.connections.Keys == w.connections.Keys && w1.transitions == w.transitions + [ToConnect(c, Chosen)]
            && w1.connections[id] == (if id == c then w.connections[id].(state := ConnectBegun(w.connections[id].state))
                                      else w.connections[id])
  {
  }

  /** A suspended connection that is the first of its source and the last that is suspended,
      while none of its group is connected or connecting, can be resumed. */
  lemma SuspendedIsResumed(w: World, r: Request, className: string, k: nat)
    requires var ids := Group(w, r, className);
             && k < |ids| && Distinct(ids) && w.connections[ids[k]].state == Suspended
             && Starts(w.connections[ids[k]], r.source)
             && (forall i | 0 <= i < k :: ids[i] in w.connections && !Starts(w.connections[ids[i]], r.source))
             && (forall i | 0 <= i < |ids| && i != k ::
                   && ids[i] in w.connections && w.connections[ids[i]].state != Connected
                   && w.connections[ids[i]].state != Connecting)
             && (forall i | k < i < |ids| :: ids[i] in w.connections && w.connections[ids[i]].state != Suspended)
    ensures ConnectClass(w, r, className).connections[Group(w, r, className)[k]].state == Connecting
  {
    hide ConnectClass, Group;
    var ids := Group(w, r, className);
    var cs := Values(w, ids);
    SelectIff(cs, r.source, k);
    assert ids[k] in ids;
    ConnectEffect(w, r, className, ids[k]);
    assert Drop(cs) >= 0 ==> cs[Drop(cs)].state == Unknown;
  }

  /** What becomes of a chosen connection: if all goes well, it is connected or suspended,
      as the source is on or not; if not, it ends disconnected, and the action is over. */
  lemma ChosenEnds(w: World, k: nat, sourceOn: bool)
    requires At(w, k, {Chosen})
    ensures var id := w.transitions[k].id;
            var good := TakeAll(w, [Execute(k, true), Complete(k, sourceOn)]);
            var bad := TakeAll(w, [Execute(k, true), Fail(k), Undo(k), Undone(k)]);
            && id in good.connections && good.connections[id].state == (if sourceOn then Connected else Suspended)
            && id in bad.connections && bad.connections[id].state == Disconnected
            && bad.transitions == w.transitions[..k] + w.transitions[k + 1..]
  {
    hide Take;
    var w1 := Take(w, Execute(k, true));
    ExecuteRuns(w, k);
    RunningEnds(w1, k, sourceOn);
    var w2 := Take(w1, Fail(k));
    var w3 := Take(w2, Undo(k));
    TakeThem(w, Execute(k, true), [Complete(k, sourceOn)]);
    TakeThem(w1, Complete(k, sourceOn), []);
    TakeThem(w, Execute(k, true), [Fail(k), Undo(k), Undone(k)]);
    TakeThem(w1, Fail(k), [Undo(k), Undone(k)]);
    TakeThem(w2, Undo(k), [Undone(k)]);
    TakeThem(w3, Undone(k), []);
  }

  /** Without a route a connection is left as it is, and the action has failed unless there
      is nothing to do; with one it connects unless it is connected. A failure by itself
      changes no connection, and an undo disconnects. No other connection is touched. */
  lemma StepsOfChosen(w: World, k: nat, available: bool, c: nat)
    requires At(w, k, {Chosen, Running, Done, Failed}) && c in w.connections
    ensures var t, was := w.transitions[k], w.connections[c];
            var w1, w2, w3 := Take(w, Execute(k, available)), Take(w, Fail(k)), Take(w, Undo(k));
            && c in w1.connections && c in w2.connections && c in w3.connections
            && w1.connections[c] == (if t.phase == Chosen && c == t.id && available && was.state != Connected
                                     then was.(state := Connecting) else was)
            && (t.phase == Chosen ==>
                  (w1.transitions[k] == ToConnect(t.id, Failed) <==>
                   !available && w.connections[t.id].state != Connected))
            && w2.connections[c] == was
            && w3.connections[c] == (if (t.phase == Done || t.phase == Failed) && c == t.id
                                     then was.(state := Disconnecting) else was)
  {
  }

  lemma ExecuteRuns(w: World, k: nat)
    requires At(w, k, {Chosen})
    ensures var w1 := Take(w, Execute(k, true));
            && At(w1, k, {Running}) && w1.transitions[k].id == w.transitions[k].id
            && w1.transitions[..k] == w.transitions[..k] && w1.transitions[k + 1..] == w.transitions[k + 1..]
  {
  }

  lemma RunningEnds(w: World, k: nat, sourceOn: bool)
    requires At(w, k, {Running})
    ensures var id := w.transitions[k].id;
            var good := Take(w, Complete(k, sourceOn));
            var bad := Take(Take(Take(w, Fail(k)), Undo(k)), Undone(k));
            && id in good.connections && good.connections[id].state == (if sourceOn then Connected else Suspended)
            && id in bad.connections && bad.connections[id].state == Disconnected
            && bad.transitions == w.transitions[..k] + w.transitions[k + 1..]
  {
  }

  lemma TakeThem(w: World, step: Step, steps: seq<Step>)
    ensures TakeAll(w, [step] + steps) == TakeAll(Take(w, step), steps)
  {
    assert ([step] + steps)[1..] == steps;
  }

  /** The connection that a suspend action has selected is brought up if it was not connected. */
  lemma SuspendEffect(w: World, r: Request, className: string, id: nat)
    requires id in w.connections
    ensures var ids, w1 := Listed(w, r, "", className, r.order), SuspendClass(w, r, className);
            var k := SelectedToSuspend(w, r, className);
            && w1.connections.Keys == w.connections.Keys
            && w1.connections[id] == w.connections[id].(state := w1.connections[id].state)
            && (k >= 0 && id == ids[k] ==>
                  w1.connections[id].state == if w.connections[id].state == Connected then Connected else Connecting)
            && (k < 0 || id != ids[k] ==> w1.connections[id] == w.connections[id])
            && (k >= 0 ==> w1.transitions != [] && w1.transitions[|w1.transitions| - 1] == ToSuspend(ids[k]))
  {
    hide Listed;
    var ids := Listed(w, r, "", className, r.order);
    var cs := Values(w, ids);
    var k := SelectedToSuspend(w, r, className);
    assert k >= 0 ==> ids[k] in ids;
    if k >= 0 { SuspendIff(cs, r.source, r.sink, k); }
  }

  // ------------------------------------------------------ suspending

  lemma RivalIsListed(w: World, r: Request, className: string, c: nat, d: nat)
    requires Valid(w) && c in Listed(w, r, "", className, r.order) && d in r.order && Rivals(w, c, d)
    ensures d in Listed(w, r, "", className, r.order)
  {
    var x, y := w.connections[c], w.connections[d];
    assert Reaches(y);
    var h := y.hops[|y.hops| - 1];
    assert NameMatches("", h.source) && NameMatches("", h.sink);
    assert Matches(y, r.className, r.excepted, "", "");
  }

  function SelectedToSuspend(w: World, r: Request, className: string): (k: int)
    ensures -1 <= k < |Listed(w, r, "", className, r.order)|
  {
    SelectToSuspend(Values(w, Listed(w, r, "", className, r.order)), r.source, r.sink)
  }

  /** A rival of the connection to suspend is at most connecting. */
  lemma ListedIsConnecting(w: World, r: Request, className: string, d: nat)
    requires Valid(w) && d in Listed(w, r, "", className, r.order)
    requires var k := SelectedToSuspend(w, r, className);
             k >= 0 && Rivals(w, Listed(w, r, "", className, r.order)[k], d)
    ensures Active(w.connections[d].state) ==> w.connections[d].state.Connecting?
  {
    hide Listed, Valid;
    var ids := Listed(w, r, "", className, r.order);
    var cs := Values(w, ids);
    var k := SelectedToSuspend(w, r, className);
    assert ids[k] in ids;
    var j :| 0 <= j < |ids| && ids[j] == d;
    NotBothSuspended(w, ids[k], d);
    assert cs[j].state == w.connections[d].state && cs[k].state == w.connections[ids[k]].state;
  }

  /** Exactly when a suspend action keeps exclusivity. */
  lemma SuspendKeepsIff(w: World, r: Request, className: string)
    requires Valid(w)
    ensures Valid(SuspendClass(w, r, className))
            <==> Unrivalled(w, Listed(w, r, "", className, r.order), SelectedToSuspend(w, r, className))
  {
    hide Holds, Valid, SelectToSuspend, Rivals;
    var ids := Listed(w, r, "", className, r.order);
    var k := SelectedToSuspend(w, r, className);
    assert k >= 0 ==> ids[k] in ids;
    if k >= 0 {
      var c := ids[k];
      if forall d | Rivals(w, c, d) :: !Holds(w, d) {
        ConnectGrabs(w, c);
        GrabbingKeeps(w, SuspendTo(w, c), c);
      } else {
        var d :| Rivals(w, c, d) && Holds(w, d);
        GrabbingBreaks(w, c, SuspendBegun(w.connections[c].state), ToSuspend(c), d);
      }
    }
  }

  /** A suspend action meets a rival that is connecting, is not listed, or does not yet
      show in its state. */
  lemma RivalEscapesSuspend(w: World, r: Request, className: string, d: nat)
    requires Valid(w) && SelectedToSuspend(w, r, className) >= 0
    requires Rivals(w, Listed(w, r, "", className, r.order)[SelectedToSuspend(w, r, className)], d) && Holds(w, d)
    ensures d !in r.order || w.connections[d].state.Connecting? || !Active(w.connections[d].state)
  {
    hide Valid, SelectedToSuspend, Holds;
    var c := Listed(w, r, "", className, r.order)[SelectedToSuspend(w, r, className)];
    assert c in Listed(w, r, "", className, r.order);
    if d in r.order {
      RivalIsListed(w, r, className, c, d);
      ListedIsConnecting(w, r, className, d);
    }
  }

  lemma SuspendKeeps(w: World, r: Request, className: string)
    requires Valid(w) && Orderly(w, Suspend(r, className))
    ensures Valid(SuspendClass(w, r, className))
  {
    hide Valid, Rivals, SelectedToSuspend, SuspendClass;
    var ids, k := Listed(w, r, "", className, r.order), SelectedToSuspend(w, r, className);
    forall d | k >= 0 && Rivals(w, ids[k], d) ensures !Holds(w, d) {
      SuspendedHasNoRival(w, r, className, ids[k], d);
    }
    SuspendKeepsIff(w, r, className);
  }

  lemma SuspendedHasNoRival(w: World, r: Request, className: string, c: nat, d: nat)
    requires Valid(w) && Orderly(w, Suspend(r, className)) && Rivals(w, c, d)
    requires var k := SelectedToSuspend(w, r, className); k >= 0 && Listed(w, r, "", className, r.order)[k] == c
    ensures !Holds(w, d)
  {
    hide Valid, SelectedToSuspend;
    assert c in Listed(w, r, "", className, r.order);
    assert w.connections[d].className == className;
    RivalIsListed(w, r, className, c, d);
    ListedIsConnecting(w, r, className, d);
  }

  // ------------------------------------------------------ whole runs

  lemma CreateKeeps(w: World, id: nat, c: Connection)
    requires Valid(w) && Reaches(c) && !InUse(w, id)
    ensures Valid(Take(w, Create(id, c)))
  {
    var w1 := Take(w, Create(id, c));
    assert !Holds(w1, id);
    forall x | x in w.connections ensures Holds(w1, x) == Holds(w, x) { }
    forall a, b | Rivals(w1, a, b) && Holds(w1, a) ensures !Holds(w1, b) {
      if b != id { assert a != id && Rivals(w, a, b); }
    }
  }

  lemma DisposeShrinks(w: World, id: nat)
    ensures Shrinks(w, Take(w, Dispose(id)))
  {
  }

  lemma SettleShrinks(w: World, k: nat, s: State)
    requires k < |w.transitions| && !w.transitions[k].ToConnect? && w.transitions[k].id in w.connections
    requires w.transitions[k].ToDisconnect? ==> !Active(s)
    ensures Shrinks(w, Take(w, Settle(k, s)))
  {
    var t0 := w.transitions[k];
    var w1 := Into(w, t0.id, s);
    forall x | x in w1.connections && Holds(w1, x) ensures Holds(w, x) {
      if x == t0.id && Active(s) { assert t0 in w.transitions && Claims(t0); }
    }
    GoneShrinks(w1, k);
    ShrinksTwice(w, w1, Gone(w1, k));
  }

  lemma ProgressShrinks(w: World, step: Step)
    requires step.Execute? || step.Complete? || step.Fail? || step.Undo? || step.Undone? || step.Abort?
    ensures Shrinks(w, Take(w, step))
  {
    ShrinksNot(w);
    if step.k < |w.transitions| { assert w.transitions[step.k] in w.transitions; }
    match step
    case Execute(k, available) =>
      if At(w, k, {Chosen}) {
        MoveShrinks(w, k, Running, Connected);
        MoveShrinks(w, k, Running, ConnectExecuted(StateAt(w, k)));
        MoveShrinks(w, k, Failed, StateAt(w, k));
      }
    case Complete(k, sourceOn) =>
      if At(w, k, {Running}) { MoveShrinks(w, k, Done, if sourceOn then Connected else State.Suspended); }
    case Fail(k) =>
      if At(w, k, {Running}) { MoveShrinks(w, k, Failed, StateAt(w, k)); }
    case Abort(k) => if At(w, k, {Chosen}) { GoneShrinks(w, k); }
    case Undo(k) =>
      if At(w, k, {Done, Failed}) { MoveShrinks(w, k, Undoing, Disconnecting); }
    case Undone(k) =>
      if At(w, k, {Undoing}) {
        MoveShrinks(w, k, Undoing, Disconnected);
        var w1 := Move(w, k, Undoing, Disconnected);
        GoneShrinks(w1, k);
        ShrinksTwice(w, w1, Gone(w1, k));
      }
  }

  lemma StepKeeps(w: World, step: Step)
    requires Valid(w) && Orderly(w, step)
    ensures Valid(Take(w, step))
  {
    hide Valid, Holds, Steady, Proper, Reaches, Shrinks, InUse;
    match step
    case Create(id, c) => if !InUse(w, id) { CreateKeeps(w, id, c); }
    case Connect(r, className) => ConnectKeeps(w, r, className);
    case Suspend(r, className) => SuspendKeeps(w, r, className);
    case Dispose(id) => DisposeShrinks(w, id); ShrinkingKeeps(w, Take(w, step));
    case Settle(k, s) =>
      if k < |w.transitions| && !w.transitions[k].ToConnect? && w.transitions[k].id in w.connections {
        SettleShrinks(w, k, s);
        ShrinkingKeeps(w, Take(w, step));
      }
    case _ => ProgressShrinks(w, step); ShrinkingKeeps(w, Take(w, step));
  }

  ghost predicate AllOrderly(w: World, steps: seq<Step>)
    decreases steps
  {
    steps == [] || (Orderly(w, steps[0]) && AllOrderly(Take(w, steps[0]), steps[1..]))
  }

  function TakeAll(w: World, steps: seq<Step>): World
    decreases steps
  {
    if steps == [] then w else TakeAll(Take(w, steps[0]), steps[1..])
  }

  /** Over whole runs, of each class and main sink at most one connection is connecting,
      connected or suspended. */
  lemma {:induction false} RunsAreExclusive(w: World, steps: seq<Step>)
    requires Valid(w) && AllOrderly(w, steps)
    ensures Valid(TakeAll(w, steps))
    ensures forall a, b | Rivals(TakeAll(w, steps), a, b) && Active(TakeAll(w, steps).connections[a].state) ::
              !Active(TakeAll(w, steps).connections[b].state)
    decreases steps
  {
    if steps == [] {
      forall a, b | Rivals(w, a, b) && Active(w.connections[a].state) ensures !Active(w.connections[b].state) {
        NotBothSuspended(w, a, b);
      }
    } else {
      StepKeeps(w, steps[0]);
      RunsAreExclusive(Take(w, steps[0]), steps[1..]);
    }
  }

  // ------------------------------------------------------ exactly when

  /** A new connection reaches its main sink, and a disconnect does not end in an active
      state. */
  predicate Plausible(w: World, step: Step) {
    match step
    case Create(_, c) => Reaches(c)
    case Settle(k, s) => k < |w.transitions| && w.transitions[k].ToDisconnect? ==> !Active(s)
    case _ => true
  }

  /** A connect or suspend action selects nobody whose rival holds its class and sink. */
  ghost predicate Fair(w: World, step: Step) {
    match step
    case Connect(r, className) => Unrivalled(w, Group(w, r, className), Selected(w, r, className))
    case Suspend(r, className) =>
      Unrivalled(w, Listed(w, r, "", className, r.order), SelectedToSuspend(w, r, className))
    case _ => true
  }

  lemma StepKeepsIff(w: World, step: Step)
    requires Valid(w) && Plausible(w, step)
    ensures Valid(Take(w, step)) <==> Fair(w, step)
  {
    hide Valid, Unrivalled, ConnectClass, SuspendClass, Group, Selected, Listed, SelectedToSuspend;
    match step
    case Connect(r, className) => ConnectKeepsIff(w, r, className);
    case Suspend(r, className) => SuspendKeepsIff(w, r, className);
    case _ => assert Orderly(w, step); StepKeeps(w, step);
  }

  ghost predicate AllPlausible(w: World, steps: seq<Step>)
    decreases steps
  {
    steps == [] || (Plausible(w, steps[0]) && AllPlausible(Take(w, steps[0]), steps[1..]))
  }

  ghost predicate AllFair(w: World, steps: seq<Step>)
    decreases steps
  {
    steps == [] || (Fair(w, steps[0]) && AllFair(Take(w, steps[0]), steps[1..]))
  }

  ghost predicate AlwaysValid(w: World, steps: seq<Step>)
    decreases steps
  {
    Valid(w) && (steps == [] || AlwaysValid(Take(w, steps[0]), steps[1..]))
  }

  /** A run is exclusive throughout if and only if none of its actions selects a connection
      whose rival holds the class and sink. */
  lemma {:induction false} RunsAreExclusiveIff(w: World, steps: seq<Step>)
    requires Valid(w) && AllPlausible(w, steps)
    ensures AlwaysValid(w, steps) <==> AllFair(w, steps)
    decreases steps
  {
    hide Valid, Take, Fair, Plausible;
    if steps != [] {
      StepKeepsIff(w, steps[0]);
      if Fair(w, steps[0]) { RunsAreExclusiveIff(Take(w, steps[0]), steps[1..]); }
    }
  }

  /** Two rivals that both hold their class and sink can become active together, by nothing
      but the progress of the actions at work. */
  lemma HeldByBoth(w: World, a: nat, b: nat) returns (steps: seq<Step>)
    requires Rivals(w, a, b) && Holds(w, a) && Holds(w, b)
    ensures AllProgress(steps) && AllPlausible(w, steps)
    ensures var e := TakeAll(w, steps);
            Rivals(e, a, b) && Active(e.connections[a].state) && Active(e.connections[b].state)
  {
    hide Holds;
    var first := BecomesActive(w, a);
    var w1 := TakeAll(w, first);
    var second := BecomesActive(w1, b);
    steps := first + second;
    TakeMore(w, first, second);
  }

  predicate AllProgress(steps: seq<Step>) {
    forall step | step in steps :: step.Execute? || step.Complete? || step.Settle?
  }

  /** Nothing is lost by the other connections, and nothing but the state changes. */
  ghost predicate Spares(w: World, w1: World, a: nat) {
    && w1.connections.Keys == w.connections.Keys
    && forall id | id in w.connections ::
         && w1.connections[id] == w.connections[id].(state := w1.connections[id].state)
         && (id != a ==> w1.connections[id] == w.connections[id] && (Holds(w, id) ==> Holds(w1, id)))
  }

  lemma BecomesActive(w: World, a: nat) returns (steps: seq<Step>)
    requires Holds(w, a)
    ensures AllProgress(steps) && AllPlausible(w, steps)
    ensures var e := TakeAll(w, steps); Spares(w, e, a) && Active(e.connections[a].state)
  {
    if Active(w.connections[a].state) { return []; }
    var t :| t in w.transitions && t.id == a && Claims(t);
    var k :| 0 <= k < |w.transitions| && w.transitions[k] == t;
    var step := if t.ToSuspend? then Settle(k, State.Suspended) else if t.phase.Chosen? then Execute(k, true)
        else Complete(k, true);
    steps := [step];
    assert steps[1..] == [];
    assert TakeAll(w, steps) == TakeAll(Take(w, step), []);
    ClaimStep(w, k, step);
  }

  lemma ClaimStep(w: World, k: nat, step: Step)
    requires k < |w.transitions| && Claims(w.transitions[k]) && w.transitions[k].id in w.connections
    requires var t := w.transitions[k];
             step == if t.ToSuspend? then Settle(k, State.Suspended) else if t.phase.Chosen? then Execute(k, true)
                     else Complete(k, true)
    ensures Plausible(w, step) && Spares(w, Take(w, step), w.transitions[k].id)
    ensures Active(Take(w, step).connections[w.transitions[k].id].state)
  {
    var w1, a := Take(w, step), w.transitions[k].id;
    forall id | id in w.connections && id != a && Holds(w, id) ensures Holds(w1, id) {
      if !Active(w.connections[id].state) {
        var t :| t in w.transitions && t.id == id && Claims(t);
        var j :| 0 <= j < |w.transitions| && w.transitions[j] == t;
        assert t in w1.transitions by {
          if step.Settle? {
            assert w1.transitions == w.transitions[..k] + w.transitions[k + 1..];
            assert if j < k then w1.transitions[j] == t else w1.transitions[j - 1] == t;
          } else {
            assert w1.transitions[j] == t;
          }
        }
      }
    }
  }

  lemma {:induction false} TakeMore(w: World, a: seq<Step>, b: seq<Step>)
    ensures TakeAll(w, a + b) == TakeAll(TakeAll(w, a), b)
    ensures AllPlausible(w, a + b) <==> AllPlausible(w, a) && AllPlausible(TakeAll(w, a), b)
    decreases a
  {
    hide Take, Plausible;
    if a == [] {
      assert a + b == b;
    } else {
      assert (a + b)[0] == a[0] && (a + b)[1..] == a[1..] + b;
      TakeMore(Take(w, a[0]), a[1..], b);
    }
  }

  /** A run in which an action selects a connection whose rival holds the class and sink
      leads to two that are active. */
  lemma {:induction false} UnfairRunEnds(w: World, steps: seq<Step>)
    returns (n: nat, more: seq<Step>, a: nat, b: nat)
    requires Valid(w) && AllPlausible(w, steps) && !AllFair(w, steps)
    ensures n <= |steps| && AllProgress(more) && AllPlausible(w, steps[..n] + more)
    ensures var e := TakeAll(w, steps[..n] + more);
            Rivals(e, a, b) && Active(e.connections[a].state) && Active(e.connections[b].state)
    decreases steps
  {
    hide Holds, Take, Fair, Plausible, AllProgress;
    StepKeepsIff(w, steps[0]);
    var w1 := Take(w, steps[0]);
    if Fair(w, steps[0]) {
      n, more, a, b := UnfairRunEnds(w1, steps[1..]);
      n := n + 1;
      assert (steps[..n] + more)[0] == steps[0] && (steps[..n] + more)[1..] == steps[1..][..n - 1] + more;
    } else {
      StepStillReaches(w, steps[0]);
      a, b :| Rivals(w1, a, b) && Holds(w1, a) && Holds(w1, b);
      more := HeldByBoth(w1, a, b);
      n := 1;
      assert (steps[..1] + more)[0] == steps[0] && (steps[..1] + more)[1..] == more;
    }
  }

  /** What an unfair step breaks is that no two rivals hold the same class and sink. */
  lemma StepStillReaches(w: World, step: Step)
    requires Valid(w) && Plausible(w, step) && !Valid(Take(w, step))
    ensures exists a, b :: Rivals(Take(w, step), a, b) && Holds(Take(w, step), a) && Holds(Take(w, step), b)
  {
    hide Holds, Select, Drop, SelectToSuspend, Listed, OfClass, Rivals;
    StepKeepsIff(w, step);
    OthersAreFair(w, step);
    SelectingSpares(w, step);
    var w1 := Take(w, step);
    assert forall id | id in w1.connections :: Reaches(w1.connections[id]) by {
      hide Take;
      forall id | id in w1.connections ensures Reaches(w1.connections[id]) { ValidReaches(w, id); }
    }
    NotExclusive(w1);
  }

  lemma NotExclusive(w: World)
    requires !Valid(w) && forall id | id in w.connections :: Reaches(w.connections[id])
    ensures exists a, b :: Rivals(w, a, b) && Holds(w, a) && Holds(w, b)
  {
    hide Holds;
  }

  lemma OthersAreFair(w: World, step: Step)
    ensures step.Connect? || step.Suspend? || Fair(w, step)
  {
  }

  lemma SelectingSpares(w: World, step: Step)
    requires step.Connect? || step.Suspend?
    ensures var w1 := Take(w, step);
            forall id | id in w1.connections ::
              id in w.connections && w1.connections[id] == w.connections[id].(state := w1.connections[id].state)
  {
    hide Select, Drop, SelectToSuspend, Listed, OfClass;
    match step
    case Suspend(r, className) =>
    case Connect(r, className) =>
      var ids := Group(w, r, className);
      var k, x := Selected(w, r, className), Drop(Values(w, ids));
      assert k >= 0 ==> ids[k] in ids;
      assert x >= 0 ==> ids[x] in ids;
  }

  // ------------------------------------------------------ one action, several classes

  function ConnectSteps(r: Request, classNames: seq<string>): (steps: seq<Step>)
    ensures |steps| == |classNames| && forall i | 0 <= i < |steps| :: steps[i] == Connect(r, classNames[i])
  {
    seq(|classNames|, i requires 0 <= i < |classNames| => Connect(r, classNames[i]))
  }

  /** What an action does in one class leaves the conditions for the others as they are,
      also where it has chosen a connection that is still disconnecting. */
  lemma OtherClassStaysOrderly(w: World, r: Request, className: string, other: string)
    requires className != other && Orderly(w, Connect(r, other))
    ensures Orderly(ConnectClass(w, r, className), Connect(r, other))
  {
    hide Orderly, Select, Drop;
    var ids := Group(w, r, className);
    var k, x := Selected(w, r, className), Drop(Values(w, ids));
    assert k >= 0 ==> ids[k] in ids;
    assert x >= 0 ==> ids[x] in ids;
    var w1 := if x >= 0 then DropNew(w, ids[x]) else w;
    if x >= 0 { StepsAside(w, ids[x], Disconnecting, ToDisconnect(ids[x]), r, other); }
    if k >= 0 {
        StepsAside(w1, ids[k], ConnectBegun(w1.connections[ids[k]].state), ToConnect(ids[k], Chosen), r, other); }
  }

  lemma StepsAside(w: World, c: nat, s: State, t: Transition, r: Request, other: string)
    requires c in w.connections && w.connections[c].className != other && t.id == c
    requires Orderly(w, Connect(r, other))
    ensures Orderly(Into(w, c, s).(transitions := w.transitions + [t]), Connect(r, other))
  {
    var w1 := Into(w, c, s).(transitions := w.transitions + [t]);
    assert forall id | id in w1.connections ::
        w1.connections[id] == w.connections[id].(state := w1.connections[id].state);
  }

  /** The conditions of a connect action can be looked at before it begins, for all classes
      at once. */
  lemma {:induction false} OneActionIsOrderly(w: World, r: Request, classNames: seq<string>)
    requires Distinct(classNames) && forall name | name in classNames :: Orderly(w, Connect(r, name))
    ensures AllOrderly(w, ConnectSteps(r, classNames))
    decreases classNames
  {
    if classNames != [] {
      var first := classNames[0];
      var w1 := ConnectClass(w, r, first);
      forall name | name in classNames[1..] ensures Orderly(w1, Connect(r, name)) {
        assert name in classNames && name != first;
        OtherClassStaysOrderly(w, r, first, name);
      }
      OneActionIsOrderly(w1, r, classNames[1..]);
      assert ConnectSteps(r, classNames)[1..] == ConnectSteps(r, classNames[1..]);
    }
  }
}

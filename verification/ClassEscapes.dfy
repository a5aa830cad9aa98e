/** What the conditions of module ClassRuns are for: runs of the controller, from its start,
    at the end of which two connections of a class and main sink are active. */
module ClassEscapes {
  import opened ClassExclusivity
  import opened ClassRuns

  // ------------------------------------------------------ one step after the other

  ghost predicate BothActive(w: World, a: nat, b: nat) {
    Rivals(w, a, b) && Active(w.connections[a].state) && Active(w.connections[b].state)
  }

  /** The controller gets from one world to the other, and all requests are apt. */
  ghost predicate Leads(w: World, steps: seq<Step>, w1: World) {
    Throughout(w, steps, Driven) && Throughout(w, steps, Apt) && TakeAll(w, steps) == w1
  }

  lemma {:induction false} ThroughoutMore(w: World, a: seq<Step>, b: seq<Step>, p: (World, Step) -> bool)
    ensures Throughout(w, a + b, p) <==> Throughout(w, a, p) && Throughout(TakeAll(w, a), b, p)
    decreases a
  {
    hide Take;
    if a == [] {
      assert a + b == b;
    } else {
      assert (a + b)[0] == a[0] && (a + b)[1..] == a[1..] + b;
      ThroughoutMore(Take(w, a[0]), a[1..], b, p);
    }
  }

  lemma OneThroughout(w: World, step: Step, p: (World, Step) -> bool)
    ensures Throughout(w, [step], p) <==> p(w, step)
    ensures TakeAll(w, [step]) == Take(w, step)
  {
    hide Take;
    assert [step][1..] == [];
    assert TakeAll(w, [step]) == TakeAll(Take(w, step), []);
    assert Throughout(w, [step], p) == (p(w, step) && Throughout(Take(w, step), [], p));
  }

  lemma BothLead(w: World, a: seq<Step>, w1: World, b: seq<Step>, w2: World)
    requires Leads(w, a, w1) && Leads(w1, b, w2)
    ensures Leads(w, a + b, w2)
  {
    hide Throughout, TakeAll;
    TakeMore(w, a, b);
    ThroughoutMore(w, a, b, Driven);
    ThroughoutMore(w, a, b, Apt);
  }

  lemma OneLeads(w: World, step: Step, w1: World)
    requires Driven(w, step) && Apt(w, step) && Take(w, step) == w1
    ensures Leads(w, [step], w1)
  {
    hide Throughout, TakeAll, Take, Driven, Apt;
    OneThroughout(w, step, Driven);
    OneThroughout(w, step, Apt);
  }

  lemma StepLeads(w: World, a: seq<Step>, w1: World, step: Step, w2: World)
    requires Leads(w, a, w1) && Driven(w1, step) && Apt(w1, step) && Take(w1, step) == w2
    ensures Leads(w, a + [step], w2)
  {
    hide Leads, Driven, Apt, Take;
    OneLeads(w1, step, w2);
    BothLead(w, a, w1, [step], w2);
  }

  /** The last step of a run need not be apt. */
  lemma LastStep(w: World, a: seq<Step>, w1: World, step: Step)
    requires Leads(w, a, w1) && Driven(w1, step)
    ensures Throughout(w, a + [step], Driven) && TakeAll(w, a + [step]) == Take(w1, step)
  {
    hide Throughout, TakeAll, Take, Driven, Apt;
    OneThroughout(w1, step, Driven);
    TakeMore(w, a, [step]);
    ThroughoutMore(w, a, [step], Driven);
  }

  // ------------------------------------------------------ who is listed and selected

  /** The connection `id` of the world with ids 0, 1, ... passes the filter. */
  predicate Passes(w: World, r: Request, sink: string, className: string, id: nat) {
    id in w.connections && w.connections[id].className == className
    && Matches(w.connections[id], r.className, r.excepted, "", sink)
  }

  lemma ListedStep(w: World, r: Request, sink: string, className: string, id: nat, rest: seq<nat>)
    ensures Listed(w, r, sink, className, [id] + rest)
         == (if Passes(w, r, sink, className, id) then [id] else []) + Listed(w, r, sink, className, rest)
    ensures Listed(w, r, sink, className, []) == []
  {
    assert ([id] + rest)[1..] == rest;
  }

  lemma CreatedOnly(w: World, className: string, c: nat)
    requires c in w.connections && w.connections[c].className == className
    ensures OfClass(w, [c], className) == [c] && OfClass(w, [], className) == []
  {
    assert [c][1..] == [];
    assert OfClass(w, [c], className) == [c] + OfClass(w, [c][1..], className);
  }

  predicate Idle(c: Connection) {
    c.state.Unknown? || c.state.Disconnected?
  }

  lemma SelectOne(c: Connection, source: string)
    requires Idle(c) && Candidate(c, source)
    ensures Select([c], source) == 0 && Drop([c]) == -1
  {
    assert [c][..0] == [];
    assert FirstCandidate([c], source) == 0;
  }

  lemma SelectOfTwo(a: Connection, b: Connection, source: string)
    requires a.state.Disconnected? && Idle(b) && (Candidate(a, source) || Candidate(b, source))
    ensures Select([a, b], source) == (if Candidate(a, source) then 0 else 1) && Drop([a, b]) == -1
  {
    hide Candidate;
    var cs := [a, b];
    assert cs[..1] == [a] && [a][..0] == [] && cs[1..] == [b];
    assert FirstCandidate(cs, source) == if Candidate(a, source) then 0 else 1;
  }

  lemma DropOfTwo(a: Connection, b: Connection, source: string)
    requires a.state.Connected? && b.state.Unknown?
    ensures Select([a, b], source) == -1 && Drop([a, b]) == 1
  {
    hide Candidate;
    var cs := [a, b];
    assert cs[0].state == Connected;
    assert Has(cs, Connected);
  }

  /** The only connection of its class that passes the filter is connected. */
  lemma OneIsConnected(w: World, r: Request, className: string, c: nat)
    requires Group(w, r, className) == [c] && Idle(w.connections[c]) && Candidate(w.connections[c], r.source)
    ensures ConnectClass(w, r, className) == ConnectTo(w, c)
  {
    hide Candidate, Select, Drop, Listed, OfClass;
    assert Values(w, [c]) == [w.connections[c]];
    SelectOne(w.connections[c], r.source);
  }

  /** Of two that are idle the first is connected that the source stands for. */
  lemma OneOfTwoIsConnected(w: World, r: Request, className: string, c: nat, d: nat)
    requires Group(w, r, className) == [c, d] && w.connections[c].state.Disconnected? && Idle(w.connections[d])
    requires Candidate(w.connections[c], r.source) || Candidate(w.connections[d], r.source)
    ensures ConnectClass(w, r, className) == ConnectTo(w, if Candidate(w.connections[c], r.source) then c else d)
  {
    hide Candidate, Select, Drop, Listed, OfClass;
    assert Values(w, [c, d]) == [w.connections[c], w.connections[d]];
    SelectOfTwo(w.connections[c], w.connections[d], r.source);
  }

  // ------------------------------------------------------ some connections

  function Direct(className: string, source: string, sink: string, s: State): Connection {
    Connection(className, source, sink, [Hop(source, sink)], s)
  }

  /** It passes another sink on its way. */
  function Detour(s: State): Connection {
    Connection("class", "other", "sink", [Hop("other", "middle"), Hop("middle", "sink")], s)
  }

  lemma DirectMatches(className: string, source: string, sink: string, s: State)
    ensures var c := Direct(className, source, sink, s);
            && Reaches(c)
            && (forall name, excepted, x, y ::
                  Matches(c, name, excepted, x, y) ==
                  (NameMatches(name, className) && className !in excepted
                   && NameMatches(x, source) && NameMatches(y, sink)))
  {
    var c := Direct(className, source, sink, s);
    assert c.hops[0] in c.hops;
    assert forall h | h in c.hops :: h == Hop(source, sink);
  }

  lemma DetourMatches(s: State)
    ensures var c := Detour(s);
            Reaches(c) && Matches(c, "", [], "", "middle") && Matches(c, "", [], "", "sink")
            && Matches(c, "", [], "", "")
            && Matches(c, "", [], "other", "")
  {
    var c := Detour(s);
    assert c.hops[0] in c.hops && c.hops[1] in c.hops;
    assert NameMatches("", c.hops[0].source) && NameMatches("", c.hops[1].source) && NameMatches("", c.hops[0].sink);
    assert NameMatches("other", c.hops[0].source) && NameMatches("middle", c.hops[0].sink)
        && NameMatches("sink", c.hops[1].sink);
  }

  function Plain(source: string, sink: string, order: seq<nat>, created: seq<nat>): Request {
    Request("", [], source, sink, order, created)
  }

  // ------------------------------------------------------ two connections to one sink

  function Old(s: State): Connection { Direct("class", "source", "sink", s) }

  /** The quiet steps of an action that has selected. */
  lemma ProgressLeads(w: World, step: Step)
    requires step.Execute? || step.Complete? || step.Fail? || step.Undo? || step.Undone? || step.Abort?
    ensures Driven(w, step) && Apt(w, step)
  {
  }

  const CONNECTED := World(map[0 := Old(Connected)], [ToConnect(0, Done)])

  const FIRST_CONNECTED := [Create(0, Old(Unknown))] + [Connect(Plain("source", "sink", [], [0]), "class")]
                           + [Execute(0, true)] + [Complete(0, true)]

  lemma FirstIsDriven(w: World, r: Request)
    requires w == World(map[0 := Old(Unknown)], []) && r == Plain("source", "sink", [], [0])
    ensures Driven(w, Connect(r, "class")) && Apt(w, Connect(r, "class"))
  {
  }

  lemma FirstIsSelected(w: World, r: Request)
    requires w == World(map[0 := Old(Unknown)], []) && r == Plain("source", "sink", [], [0])
    ensures ConnectClass(w, r, "class") == World(map[0 := Old(Connecting)], [ToConnect(0, Chosen)])
  {
    hide Matches, ConnectClass;
    DirectMatches("class", "source", "sink", Unknown);
    CreatedOnly(w, "class", 0);
    assert Group(w, r, "class") == [0];
    OneIsConnected(w, r, "class", 0);
    assert w.connections[0 := Old(Connecting)] == map[0 := Old(Connecting)];
  }

  lemma FirstConnects()
    ensures Leads(EMPTY, FIRST_CONNECTED, CONNECTED)
  {
    hide Leads, ConnectClass, Driven, Apt;
    var r := Plain("source", "sink", [], [0]);
    var w := World(map[0 := Old(Unknown)], []);
    var w1 := World(map[0 := Old(Connecting)], [ToConnect(0, Chosen)]);
    var w2 := World(map[0 := Old(Connecting)], [ToConnect(0, Running)]);
    FirstIsCreated(w);
    FirstIsDriven(w, r);
    FirstIsSelected(w, r);
    OneLeads(EMPTY, Create(0, Old(Unknown)), w);
    StepLeads(EMPTY, [Create(0, Old(Unknown))], w, Connect(r, "class"), w1);
    ProgressLeads(w1, Execute(0, true));
    ProgressLeads(w2, Complete(0, true));
    StepLeads(EMPTY, [Create(0, Old(Unknown))] + [Connect(r, "class")], w1, Execute(0, true), w2);
    StepLeads(EMPTY, [Create(0, Old(Unknown))] + [Connect(r, "class")] + [Execute(0, true)],
        w2, Complete(0, true), CONNECTED);
  }

  lemma FirstIsCreated(w: World)
    requires w == World(map[0 := Old(Unknown)], [])
    ensures Driven(EMPTY, Create(0, Old(Unknown))) && Apt(EMPTY, Create(0, Old(Unknown)))
    ensures Take(EMPTY, Create(0, Old(Unknown))) == w
  {
    DirectMatches("class", "source", "sink", Unknown);
  }

  const MISNAMED := Request("misnamed", [], "other", "sink", [0], [1])

  lemma SecondIsCreated(c: Connection)
    requires Reaches(c) && c.mainSource == "other" && c.state.Unknown?
    ensures Driven(CONNECTED, Create(1, c)) && Apt(CONNECTED, Create(1, c))
    ensures Take(CONNECTED, Create(1, c)) == World(map[0 := Old(Connected), 1 := c], [ToConnect(0, Done)])
  {
    assert !InUse(CONNECTED, 1);
    assert CONNECTED.connections[1 := c] == map[0 := Old(Connected), 1 := c];
  }

  /** A class name that is not that of the created connection hides the connected one. */
  lemma ConnectUnderOtherName()
    ensures var steps := FIRST_CONNECTED + [Create(1, Direct("class", "other", "sink", Unknown))]
        + [Connect(MISNAMED, "class")];
            Throughout(EMPTY, steps, Driven) && BothActive(TakeAll(EMPTY, steps), 0, 1)
  {
    hide Leads, Driven, Apt, Take;
    FirstConnects();
    var c := Direct("class", "other", "sink", Unknown);
    DirectMatches("class", "other", "sink", Unknown);
    SecondIsCreated(c);
    var w := Take(CONNECTED, Create(1, c));
    StepLeads(EMPTY, FIRST_CONNECTED, CONNECTED, Create(1, c), w);
    MisnamedIsDriven(w);
    MisnamedSelects(w);
    LastStep(EMPTY, FIRST_CONNECTED + [Create(1, c)], w, Connect(MISNAMED, "class"));
  }

  lemma MisnamedIsDriven(w: World)
    requires w == World(map[0 := Old(Connected), 1 := Direct("class", "other", "sink", Unknown)], [ToConnect(0, Done)])
    ensures Driven(w, Connect(MISNAMED, "class"))
  {
  }

  lemma MisnamedSelects(w: World)
    requires w == World(map[0 := Old(Connected), 1 := Direct("class", "other", "sink", Unknown)], [ToConnect(0, Done)])
    ensures BothActive(Take(w, Connect(MISNAMED, "class")), 0, 1)
  {
    hide Matches, ConnectClass;
    DirectMatches("class", "source", "sink", Connected);
    DirectMatches("class", "other", "sink", Unknown);
    ListedStep(w, MISNAMED, "sink", "class", 0, []);
    CreatedOnly(w, "class", 1);
    assert [0] + [] == [0];
    assert Group(w, MISNAMED, "class") == [1];
    OneIsConnected(w, MISNAMED, "class", 1);
  }

  const BESIDE := World(map[0 := Old(Connected), 1 := Detour(Disconnected)], [ToConnect(0, Done)])

  /** A second connection is created while the first is connected, and given up. */
  const SECOND_DROPPED := FIRST_CONNECTED + [Create(1, Detour(Unknown))]
                          + [Connect(Plain("other", "sink", [0], [1]), "class")] + [Settle(1, Disconnected)]

  lemma SecondIsDropped()
    ensures Leads(EMPTY, SECOND_DROPPED, BESIDE)
  {
    hide Leads, ConnectClass, Driven, Apt;
    FirstConnects();
    var r := Plain("other", "sink", [0], [1]);
    DetourMatches(Unknown);
    SecondIsCreated(Detour(Unknown));
    var w := World(map[0 := Old(Connected), 1 := Detour(Unknown)], [ToConnect(0, Done)]);
    var w1 := World(map[0 := Old(Connected), 1 := Detour(Disconnecting)], [ToConnect(0, Done), ToDisconnect(1)]);
    StepLeads(EMPTY, FIRST_CONNECTED, CONNECTED, Create(1, Detour(Unknown)), w);
    DropIsDriven(w, r);
    NewIsDropped(w, r);
    StepLeads(EMPTY, FIRST_CONNECTED + [Create(1, Detour(Unknown))], w, Connect(r, "class"), w1);
    NewSettles(w1);
    StepLeads(EMPTY, FIRST_CONNECTED + [Create(1, Detour(Unknown))] + [Connect(r, "class")],
        w1, Settle(1, Disconnected), BESIDE);
  }

  lemma NewSettles(w: World)
    requires w == World(map[0 := Old(Connected), 1 := Detour(Disconnecting)], [ToConnect(0, Done), ToDisconnect(1)])
    ensures Driven(w, Settle(1, Disconnected)) && Apt(w, Settle(1, Disconnected))
        && Take(w, Settle(1, Disconnected)) == BESIDE
  {
    assert w.connections[1 := Detour(Disconnected)] == BESIDE.connections;
  }

  lemma DropIsDriven(w: World, r: Request)
    requires w == World(map[0 := Old(Connected), 1 := Detour(Unknown)], [ToConnect(0, Done)])
    requires r == Plain("other", "sink", [0], [1])
    ensures Driven(w, Connect(r, "class")) && Apt(w, Connect(r, "class"))
  {
  }

  lemma NewIsDropped(w: World, r: Request)
    requires w == World(map[0 := Old(Connected), 1 := Detour(Unknown)], [ToConnect(0, Done)])
    requires r == Plain("other", "sink", [0], [1])
    ensures ConnectClass(w, r, "class")
         == World(map[0 := Old(Connected), 1 := Detour(Disconnecting)], [ToConnect(0, Done), ToDisconnect(1)])
  {
    hide Matches, Select, Drop;
    DirectMatches("class", "source", "sink", Connected);
    ListedStep(w, r, "sink", "class", 0, []);
    CreatedOnly(w, "class", 1);
    assert [0] + [] == [0] && [0] + [1] == [0, 1];
    assert Group(w, r, "class") == [0, 1];
    assert Values(w, [0, 1]) == [Old(Connected), Detour(Unknown)];
    DropOfTwo(Old(Connected), Detour(Unknown), "other");
    assert w.connections[1 := Detour(Disconnecting)] == map[0 := Old(Connected), 1 := Detour(Disconnecting)];
  }

  const PASSED := Plain("", "middle", [0, 1], [])

  /** The name of a sink that it only passes lists the second connection, and not the first. */
  lemma ConnectAtPassedSink()
    ensures var steps := SECOND_DROPPED + [Connect(PASSED, "class")];
            Throughout(EMPTY, steps, Driven) && BothActive(TakeAll(EMPTY, steps), 0, 1)
  {
    hide Leads, Driven, Take;
    SecondIsDropped();
    PassedIsDriven();
    PassedSelects();
    LastStep(EMPTY, SECOND_DROPPED, BESIDE, Connect(PASSED, "class"));
  }

  lemma PassedIsDriven()
    ensures Driven(BESIDE, Connect(PASSED, "class"))
  {
  }

  lemma PassedSelects()
    ensures BothActive(Take(BESIDE, Connect(PASSED, "class")), 0, 1)
  {
    hide Matches, ConnectClass;
    DirectMatches("class", "source", "sink", Connected);
    DetourMatches(Disconnected);
    assert [0] + [1] == [0, 1] && [1] + [] == [1];
    ListedStep(BESIDE, PASSED, "middle", "class", 0, [1]);
    ListedStep(BESIDE, PASSED, "middle", "class", 1, []);
    assert Group(BESIDE, PASSED, "class") == [1];
    OneIsConnected(BESIDE, PASSED, "class", 1);
  }

  // ------------------------------------------------------ after an aborted action

  function A(s: State): Connection { Direct("first", "a", "x", s) }

  function B(s: State): Connection { Direct("second", "b", "y", s) }

  function C(s: State): Connection { Direct("second", "c", "y", s) }

  const FAIL := [Execute(0, true)] + [Fail(0)] + [Undo(0)] + [Undone(0)]

  function CreateAndFail(id: nat, c: Connection, order: seq<nat>): seq<Step> {
    [Create(id, c)] + [Connect(Plain(c.mainSource, c.mainSink, order, [id]), c.className)] + FAIL
  }

  /** The connection, and the transition in front that is about it. */
  function At0(w: World, id: nat, s: State, phase: Phase, more: seq<Transition>): World
    requires id in w.connections
  {
    Into(w, id, s).(transitions := [ToConnect(id, phase)] + more)
  }

  lemma PhaseMoves(w: World, id: nat, s: State, phase: Phase, more: seq<Transition>, s1: State, phase1: Phase)
    requires id in w.connections
    ensures At(At0(w, id, s, phase, more), 0, {phase})
    ensures Move(At0(w, id, s, phase, more), 0, phase1, s1) == At0(w, id, s1, phase1, more)
  {
    var m, m1 := At0(w, id, s, phase, more), At0(w, id, s1, phase1, more);
    assert m.connections[id := m1.connections[id]] == m1.connections;
    assert m.transitions[0 := ToConnect(id, phase1)] == m1.transitions;
  }

  lemma FirstIsGone(w: World, id: nat, s: State, phase: Phase, more: seq<Transition>)
    requires id in w.connections
    ensures Gone(At0(w, id, s, phase, more), 0) == Into(w, id, s).(transitions := more)
  {
    var m := At0(w, id, s, phase, more);
    assert m.transitions[..0] + m.transitions[1..] == more;
  }

  lemma FailureSteps(w: World, id: nat, more: seq<Transition>)
    requires id in w.connections
    ensures Take(At0(w, id, Connecting, Chosen, more), Execute(0, true)) == At0(w, id, Connecting, Running, more)
    ensures Take(At0(w, id, Connecting, Running, more), Fail(0)) == At0(w, id, Connecting, Failed, more)
    ensures Take(At0(w, id, Connecting, Failed, more), Undo(0)) == At0(w, id, Disconnecting, Phase.Undoing, more)
    ensures Take(At0(w, id, Disconnecting, Phase.Undoing, more), Undone(0))
        == Into(w, id, Disconnected).(transitions := more)
  {
    hide Move, Gone;
    PhaseMoves(w, id, Connecting, Chosen, more, Connecting, Running);
    PhaseMoves(w, id, Connecting, Running, more, Connecting, Failed);
    PhaseMoves(w, id, Connecting, Failed, more, Disconnecting, Phase.Undoing);
    PhaseMoves(w, id, Disconnecting, Phase.Undoing, more, Disconnected, Phase.Undoing);
    FirstIsGone(w, id, Disconnected, Phase.Undoing, more);
  }

  /** A connect action fails for want of a resource, which leaves the connection. */
  lemma FailsAndUndoes(w: World, id: nat, more: seq<Transition>, w4: World)
    requires id in w.connections && w.connections[id].state.Connecting?
        && w.transitions == [ToConnect(id, Chosen)] + more
    requires w4 == Into(w, id, Disconnected).(transitions := more)
    ensures Leads(w, FAIL, w4)
  {
    hide Leads, Driven, Apt, Take;
    FailureSteps(w, id, more);
    var w1, w2 := At0(w, id, Connecting, Running, more), At0(w, id, Connecting, Failed, more);
    var w3 := At0(w, id, Disconnecting, Phase.Undoing, more);
    assert w.connections[id := w.connections[id]] == w.connections;
    assert At0(w, id, Connecting, Chosen, more) == w;
    ProgressLeads(w, Execute(0, true));
    ProgressLeads(w1, Fail(0));
    ProgressLeads(w2, Undo(0));
    ProgressLeads(w3, Undone(0));
    OneLeads(w, Execute(0, true), w1);
    StepLeads(w, [Execute(0, true)], w1, Fail(0), w2);
    StepLeads(w, [Execute(0, true)] + [Fail(0)], w2, Undo(0), w3);
    StepLeads(w, [Execute(0, true)] + [Fail(0)] + [Undo(0)], w3, Undone(0), w4);
  }

  /** The new connection is the one that the request selects. */
  predicate Selects(w: World, r: Request, className: string, id: nat) {
    id in w.connections && ConnectClass(w, r, className) == ConnectTo(w, id)
  }

  lemma CreatesAndFails(w: World, id: nat, c: Connection, order: seq<nat>)
    requires w.transitions == [] && id !in w.connections && c.state.Unknown? && Reaches(c)
    requires Driven(w, Create(id, c))
    requires var w1 := w.(connections := w.connections[id := c]);
             var step := Connect(Plain(c.mainSource, c.mainSink, order, [id]), c.className);
             Driven(w1, step) && Apt(w1, step) && Selects(w1, step.request, c.className, id)
    ensures Leads(w, CreateAndFail(id, c, order), w.(connections := w.connections[id := c.(state := Disconnected)]))
  {
    hide Leads, ConnectClass, Driven, Apt, Reaches;
    var r := Plain(c.mainSource, c.mainSink, order, [id]);
    var w1 := w.(connections := w.connections[id := c]);
    assert Apt(w, Create(id, c)) by { CreateIsApt(w, id, c); }
    OneLeads(w, Create(id, c), w1);
    var w2 := ConnectTo(w1, id);
    StepLeads(w, [Create(id, c)], w1, Connect(r, c.className), w2);
    assert w2.transitions == [ToConnect(id, Chosen)] + [];
    var w3 := w.(connections := w.connections[id := c.(state := Disconnected)]);
    assert w2.connections[id := c.(state := Disconnected)] == w3.connections;
    FailsAndUndoes(w2, id, [], w3);
    BothLead(w, [Create(id, c)] + [Connect(r, c.className)], w2, FAIL, w3);
  }

  lemma CreateIsApt(w: World, id: nat, c: Connection)
    ensures Apt(w, Create(id, c))
  {
  }

  const ONE := World(map[0 := A(Disconnected)], [])

  const TWO := World(map[0 := A(Disconnected), 1 := B(Disconnected)], [])

  const THREE := World(map[0 := A(Disconnected), 1 := B(Disconnected), 2 := C(Disconnected)], [])

  lemma OneIsDriven(w: World, r: Request)
    requires w == World(map[0 := A(Unknown)], []) && r == Plain("a", "x", [], [0])
    ensures Driven(w, Connect(r, "first")) && Apt(w, Connect(r, "first"))
  {
  }

  lemma SelectsOne(w: World, r: Request)
    requires w == World(map[0 := A(Unknown)], []) && r == Plain("a", "x", [], [0])
    ensures Selects(w, r, "first", 0)
  {
    hide Matches, ConnectClass, ConnectTo;
    DirectMatches("first", "a", "x", Unknown);
    CreatedOnly(w, "first", 0);
    assert Group(w, r, "first") == [0];
    OneIsConnected(w, r, "first", 0);
  }

  lemma CreatesOne()
    ensures Leads(EMPTY, CreateAndFail(0, A(Unknown), []), ONE)
  {
    hide Leads, ConnectClass, Selects;
    var w := World(map[0 := A(Unknown)], []);
    OneIsDriven(w, Plain("a", "x", [], [0]));
    SelectsOne(w, Plain("a", "x", [], [0]));
    CreatesAndFails(EMPTY, 0, A(Unknown), []);
  }

  lemma TwoIsDriven(w: World, r: Request)
    requires w == World(map[0 := A(Disconnected), 1 := B(Unknown)], []) && r == Plain("b", "y", [0], [1])
    ensures Driven(w, Connect(r, "second")) && Apt(w, Connect(r, "second"))
  {
  }

  lemma SelectsTwo(w: World, r: Request)
    requires w == World(map[0 := A(Disconnected), 1 := B(Unknown)], []) && r == Plain("b", "y", [0], [1])
    ensures Selects(w, r, "second", 1)
  {
    hide Matches, ConnectClass, ConnectTo;
    DirectMatches("second", "b", "y", Unknown);
    assert [0] + [] == [0];
    ListedStep(w, r, "y", "second", 0, []);
    CreatedOnly(w, "second", 1);
    assert Group(w, r, "second") == [1];
    OneIsConnected(w, r, "second", 1);
  }

  lemma CreatesTwo()
    ensures Leads(ONE, CreateAndFail(1, B(Unknown), [0]), TWO)
  {
    hide Leads, ConnectClass, Selects;
    var w := World(map[0 := A(Disconnected), 1 := B(Unknown)], []);
    assert ONE.(connections := ONE.connections[1 := B(Unknown)]) == w;
    assert ONE.connections[1 := B(Disconnected)] == TWO.connections;
    TwoIsDriven(w, Plain("b", "y", [0], [1]));
    SelectsTwo(w, Plain("b", "y", [0], [1]));
    CreatesAndFails(ONE, 1, B(Unknown), [0]);
  }

  lemma ThreeIsDriven(w: World, r: Request)
    requires w == World(map[0 := A(Disconnected), 1 := B(Disconnected), 2 := C(Unknown)], [])
    requires r == Plain("c", "y", [0, 1], [2])
    ensures Driven(w, Connect(r, "second")) && Apt(w, Connect(r, "second"))
  {
  }

  lemma ListsTwo(w: World, r: Request)
    requires w == World(map[0 := A(Disconnected), 1 := B(Disconnected), 2 := C(Unknown)], [])
    requires r == Plain("c", "y", [0, 1], [2])
    ensures Group(w, r, "second") == [1, 2]
  {
    hide Matches, Listed, OfClass;
    DirectMatches("second", "b", "y", Disconnected);
    assert [0] + [1] == [0, 1] && [1] + [] == [1] && [1] + [2] == [1, 2];
    ListedStep(w, r, "y", "second", 0, [1]);
    ListedStep(w, r, "y", "second", 1, []);
    CreatedOnly(w, "second", 2);
    assert Passes(w, r, "y", "second", 1);
  }

  lemma SelectsThree(w: World, r: Request)
    requires w == World(map[0 := A(Disconnected), 1 := B(Disconnected), 2 := C(Unknown)], [])
    requires r == Plain("c", "y", [0, 1], [2])
    ensures Selects(w, r, "second", 2)
  {
    hide Matches, ConnectClass, ConnectTo, Group;
    ListsTwo(w, r);
    DirectMatches("second", "b", "y", Disconnected);
    DirectMatches("second", "c", "y", Unknown);
    assert Candidate(C(Unknown), "c") && !Candidate(B(Disconnected), "c");
    OneOfTwoIsConnected(w, r, "second", 1, 2);
  }

  lemma CreatesThree()
    ensures Leads(TWO, CreateAndFail(2, C(Unknown), [0, 1]), THREE)
  {
    hide Leads, ConnectClass, Selects;
    var w := World(map[0 := A(Disconnected), 1 := B(Disconnected), 2 := C(Unknown)], []);
    assert TWO.(connections := TWO.connections[2 := C(Unknown)]) == w;
    assert TWO.connections[2 := C(Disconnected)] == THREE.connections;
    ThreeIsDriven(w, Plain("c", "y", [0, 1], [2]));
    SelectsThree(w, Plain("c", "y", [0, 1], [2]));
    CreatesAndFails(TWO, 2, C(Unknown), [0, 1]);
  }

  const EVERYTHING := Plain("", "", [0, 1, 2], [])

  /** One action selects a connection in each class; the first fails, and the second is never
      executed. It stays connecting. */
  const ABORTED := [Connect(EVERYTHING, "first")] + [Connect(EVERYTHING, "second")] + FAIL + [Abort(0)]

  const STALE := World(map[0 := A(Disconnected), 1 := B(Connecting), 2 := C(Disconnected)], [])

  function Three(s: State, t: State, ts: seq<Transition>): World {
    World(map[0 := A(s), 1 := B(t), 2 := C(Disconnected)], ts)
  }

  lemma ListsThree(w: World, r: Request, s: State, t: State)
    requires w == Three(s, t, w.transitions) && r.className == "" && r.excepted == []
    ensures Listed(w, r, "", "first", [0, 1, 2]) == [0] && Listed(w, r, "", "second", [0, 1, 2]) == [1, 2]
  {
    hide Matches, Listed;
    DirectMatches("first", "a", "x", s);
    DirectMatches("second", "b", "y", t);
    DirectMatches("second", "c", "y", Disconnected);
    assert Passes(w, r, "", "first", 0) && Passes(w, r, "", "second", 1) && Passes(w, r, "", "second", 2);
    assert [0] + [1, 2] == [0, 1, 2] && [1] + [2] == [1, 2] && [2] + [] == [2];
    ListedStep(w, r, "", "first", 0, [1, 2]);
    ListedStep(w, r, "", "first", 1, [2]);
    ListedStep(w, r, "", "first", 2, []);
    ListedStep(w, r, "", "second", 0, [1, 2]);
    ListedStep(w, r, "", "second", 1, [2]);
    ListedStep(w, r, "", "second", 2, []);
  }

  lemma ListIsWhole(w: World, order: seq<nat>)
    requires order == [0, 1, 2] && w.connections.Keys == {0, 1, 2}
    ensures ListsAll(w, order) && ListsAll(w, order + [])
  {
    assert order + [] == order;
  }

  lemma InFirstIsDriven()
    ensures Driven(THREE, Connect(EVERYTHING, "first")) && Apt(THREE, Connect(EVERYTHING, "first"))
  {
    ListIsWhole(THREE, [0, 1, 2]);
  }

  lemma SelectsInFirst()
    ensures Take(THREE, Connect(EVERYTHING, "first")) == Three(Connecting, Disconnected, [ToConnect(0, Chosen)])
  {
    hide Matches, ConnectClass, Listed;
    DirectMatches("first", "a", "x", Disconnected);
    ListsThree(THREE, EVERYTHING, Disconnected, Disconnected);
    assert OfClass(THREE, [], "first") == [];
    assert Group(THREE, EVERYTHING, "first") == [0];
    OneIsConnected(THREE, EVERYTHING, "first", 0);
    assert THREE.connections[0 := A(Connecting)] == Three(Connecting, Disconnected, []).connections;
  }

  lemma InSecondIsDriven(w: World)
    requires w == Three(Connecting, Disconnected, [ToConnect(0, Chosen)])
    ensures Driven(w, Connect(EVERYTHING, "second")) && Apt(w, Connect(EVERYTHING, "second"))
  {
    ListIsWhole(w, [0, 1, 2]);
  }

  lemma SelectsInSecond(w: World)
    requires w == Three(Connecting, Disconnected, [ToConnect(0, Chosen)])
    ensures Take(w, Connect(EVERYTHING, "second"))
        == Three(Connecting, Connecting, [ToConnect(0, Chosen), ToConnect(1, Chosen)])
  {
    hide Matches, ConnectClass, Listed;
    DirectMatches("second", "b", "y", Disconnected);
    ListsThree(w, EVERYTHING, Connecting, Disconnected);
    assert OfClass(w, [], "second") == [] && [1, 2] + [] == [1, 2];
    assert Group(w, EVERYTHING, "second") == [1, 2];
    OneOfTwoIsConnected(w, EVERYTHING, "second", 1, 2);
    assert w.connections[1 := B(Connecting)] == Three(Connecting, Connecting, []).connections;
  }

  lemma ActionAborts()
    ensures Leads(THREE, ABORTED, STALE)
  {
    hide Leads, Driven, Apt, ConnectClass;
    var w := Three(Connecting, Disconnected, [ToConnect(0, Chosen)]);
    var w1 := Three(Connecting, Connecting, [ToConnect(0, Chosen), ToConnect(1, Chosen)]);
    var w2 := Three(Disconnected, Connecting, [ToConnect(1, Chosen)]);
    InFirstIsDriven();
    SelectsInFirst();
    InSecondIsDriven(w);
    SelectsInSecond(w);
    OneLeads(THREE, Connect(EVERYTHING, "first"), w);
    StepLeads(THREE, [Connect(EVERYTHING, "first")], w, Connect(EVERYTHING, "second"), w1);
    assert w1.transitions == [ToConnect(0, Chosen)] + [ToConnect(1, Chosen)];
    assert w1.connections[0 := A(Disconnected)] == w2.connections;
    FailsAndUndoes(w1, 0, [ToConnect(1, Chosen)], w2);
    BothLead(THREE, [Connect(EVERYTHING, "first")] + [Connect(EVERYTHING, "second")], w1, FAIL, w2);
    ProgressLeads(w2, Abort(0));
    assert w2.transitions[..0] + w2.transitions[1..] == [];
    StepLeads(THREE, [Connect(EVERYTHING, "first")] + [Connect(EVERYTHING, "second")] + FAIL, w2, Abort(0), STALE);
  }

  const PRELUDE := CreateAndFail(0, A(Unknown), []) + CreateAndFail(1, B(Unknown), [0])
      + CreateAndFail(2, C(Unknown), [0, 1])

  const LAST := Plain("c", "", [0, 1, 2], [])

  lemma SuspendIsDriven()
    ensures Driven(STALE, Suspend(LAST, "second")) && Apt(STALE, Suspend(LAST, "second"))
  {
    ListIsWhole(STALE, [0, 1, 2]);
  }

  lemma SuspendsOther()
    ensures BothActive(Take(STALE, Suspend(LAST, "second")), 1, 2)
  {
    hide Matches, Listed;
    DirectMatches("second", "b", "y", Connecting);
    DirectMatches("second", "c", "y", Disconnected);
    ListsThree(STALE, LAST, Disconnected, Connecting);
    assert Values(STALE, [1, 2]) == [B(Connecting), C(Disconnected)];
    SecondToSuspend(B(Connecting), C(Disconnected), "c", "");
  }

  lemma SecondToSuspend(a: Connection, b: Connection, source: string, sink: string)
    requires a.state.Connecting? && b.state.Disconnected? && Matches(b, "", [], source, sink)
    ensures SelectToSuspend([a, b], source, sink) == 1
  {
    hide Matches;
    var cs := [a, b];
    assert cs[..1] == [a] && cs[1..] == [b];
    assert FirstToSuspend(cs, source, sink) == 1;
  }

  /** Then a suspend action selects the other connection of the class. All requests are apt,
      and no other action is in flight. */
  lemma SuspendAfterAbort()
    ensures var steps := PRELUDE + ABORTED + [Suspend(LAST, "second")];
            Throughout(EMPTY, steps, Driven) && Throughout(EMPTY, steps, Apt) && BothActive(TakeAll(EMPTY, steps), 1, 2)
  {
    hide Driven, Apt, Take, Throughout, TakeAll, BothActive, CreateAndFail;
    CreatesOne();
    CreatesTwo();
    CreatesThree();
    BothLead(EMPTY, CreateAndFail(0, A(Unknown), []), ONE, CreateAndFail(1, B(Unknown), [0]), TWO);
    BothLead(EMPTY, CreateAndFail(0, A(Unknown), []) + CreateAndFail(1, B(Unknown), [0]), TWO,
             CreateAndFail(2, C(Unknown), [0, 1]), THREE);
    ActionAborts();
    BothLead(EMPTY, PRELUDE, THREE, ABORTED, STALE);
    SuspendIsDriven();
    SuspendsOther();
    StepLeads(EMPTY, PRELUDE + ABORTED, STALE, Suspend(LAST, "second"), Take(STALE, Suspend(LAST, "second")));
  }
}

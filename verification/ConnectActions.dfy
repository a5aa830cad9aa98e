/** The actions that choose and connect main connections (CAmActionConnect, CAmActionSuspend,
    CAmMainConnectionActionConnect), proved to do what module ClassExclusivity says. */
module ConnectActions {
  import opened ClassExclusivity
  import opened Sequences

  class MainConnection {
    const className: string
    const mainSource: string
    const mainSink: string
    const hops: seq<Hop>
    var state: State

    constructor (className: string, mainSource: string, mainSink: string, hops: seq<Hop>, state: State)
      ensures Value() == Connection(className, mainSource, mainSink, hops, state)
    {
      this.className := className;
      this.mainSource := mainSource;
      this.mainSink := mainSink;
      this.hops := hops;
      this.state := state;
    }

    function Value(): Connection
      reads this
    {
      Connection(className, mainSource, mainSink, hops, state)
    }
  }

  function ValuesOf(list: seq<MainConnection>): (cs: seq<Connection>)
    reads list
    ensures |cs| == |list| && forall i | 0 <= i < |list| :: cs[i] == list[i].Value()
  {
    seq(|list|, i requires 0 <= i < |list| reads list => list[i].Value())
  }

  function Position(list: seq<MainConnection>, k: int): MainConnection? {
    if 0 <= k < |list| then list[k] else null
  }

  // ------------------------------------------------------ choosing

  lemma LastIs(cs: seq<Connection>, s: State, k: int)
    requires -1 <= k < |cs| && (k >= 0 ==> cs[k].state == s)
    requires forall i | 0 <= i < |cs| && k < i :: cs[i].state != s
    ensures Last(cs, s) == k
  {
  }

  lemma FirstCandidateIs(cs: seq<Connection>, source: string, k: nat)
    requires k <= |cs| && (k < |cs| ==> Candidate(cs[k], source)) && forall i | 0 <= i < k :: !Candidate(cs[i], source)
    ensures FirstCandidate(cs, source) == k
  {
  }

  lemma FirstToSuspendIs(cs: seq<Connection>, source: string, sink: string, k: nat)
    requires k <= |cs| && (k < |cs| ==> Suspendable(cs[k], source, sink))
    requires forall i | 0 <= i < k :: !Suspendable(cs[i], source, sink)
    ensures FirstToSuspend(cs, source, sink) == k
  {
  }

  /** The last connection that is connected or connecting, the last that is suspended and
      the last that is new. */
  method Survey(list: seq<MainConnection>)
      returns (connected: MainConnection?, suspended: MainConnection?, initialized: MainConnection?)
    ensures connected != null <==> Has(ValuesOf(list), Connected) || Has(ValuesOf(list), Connecting)
    ensures suspended == Position(list, Last(ValuesOf(list), Suspended))
    ensures initialized == Position(list, Last(ValuesOf(list), Unknown))
  {
    ghost var cs := ValuesOf(list);
    connected, suspended, initialized := null, null, null;
    ghost var s, u := -1, -1;
    var i := 0;
    while i < |list|
      invariant 0 <= i <= |list| && -1 <= s < i && -1 <= u < i
      invariant connected != null <==> exists j | 0 <= j < i :: cs[j].state == Connected || cs[j].state == Connecting
      invariant suspended == Position(list, s) && (s >= 0 ==> cs[s].state == Suspended)
      invariant initialized == Position(list, u) && (u >= 0 ==> cs[u].state == Unknown)
      invariant forall j | s < j < i :: cs[j].state != Suspended
      invariant forall j | u < j < i :: cs[j].state != Unknown
    {
      var c := list[i];
      assert c.Value() == cs[i];
      match c.state {
        case Connected => connected := c;
        case Connecting => connected := c;
        case Suspended => suspended, s := c, i;
        case Unknown => initialized, u := c, i;
        case Disconnected =>
        case Disconnecting =>
      }
      i := i + 1;
    }
    LastIs(cs, Suspended, s);
    LastIs(cs, Unknown, u);
  }

  lemma LastHas(cs: seq<Connection>, s: State)
    ensures Has(cs, s) <==> Last(cs, s) >= 0
  {
  }

  /** CAmActionConnect::_selectConnection(): the connection to connect, and a new one that
      has to give way. */
  method SelectConnection(list: seq<MainConnection>, source: string)
      returns (selected: MainConnection?, dropped: MainConnection?)
    requires Distinct(list)
    ensures selected == Position(list, Select(ValuesOf(list), source))
    ensures dropped == Position(list, Drop(ValuesOf(list)))
  {
    hide Has, Last, FirstCandidate, ValuesOf;
    var connected, suspended, initialized := Survey(list);
    var preferred := FirstOf(list, source);
    LastHas(ValuesOf(list), Suspended);
    selected, dropped := null, null;
    if connected != null {
    } else if suspended != null && preferred != null && suspended != preferred {
    } else if preferred != null {
      selected := preferred;
    }
    var conflicting := if connected != null then connected else suspended;
    if conflicting != null && initialized != null {
      dropped := initialized;
    }
  }

  method FirstOf(list: seq<MainConnection>, source: string) returns (preferred: MainConnection?)
    ensures preferred == Position(list, FirstCandidate(ValuesOf(list), source))
  {
    var i := 0;
    while i < |list|
      invariant 0 <= i <= |list| && forall j | 0 <= j < i :: !Candidate(ValuesOf(list)[j], source)
    {
      if Candidate(list[i].Value(), source) {
        FirstCandidateIs(ValuesOf(list), source, i);
        return list[i];
      }
      i := i + 1;
    }
    FirstCandidateIs(ValuesOf(list), source, i);
    return null;
  }

  /** CAmActionSuspend::_selectConnection() */
  method SelectToSuspend(list: seq<MainConnection>, source: string, sink: string) returns (selected: MainConnection?)
    requires Distinct(list)
    ensures selected == Position(list, ClassExclusivity.SelectToSuspend(ValuesOf(list), source, sink))
  {
    hide Matches;
    ghost var cs := ValuesOf(list);
    var connected, preferred: MainConnection? := null, null;
    ghost var c, p := -1, 0;
    var i := 0;
    while i < |list|
      invariant 0 <= i <= |list| && -1 <= c < i && 0 <= p <= i
      invariant forall j | 0 <= j < i :: cs[j].state != Suspended
      invariant connected == Position(list, c) && (c >= 0 ==> cs[c].state == Connected)
      invariant forall j | c < j < i :: cs[j].state != Connected
      invariant if preferred == null then p == i
                else p < i && preferred == list[p] && Suspendable(cs[p], source, sink)
      invariant forall j | 0 <= j < p :: !Suspendable(cs[j], source, sink)
    {
      var candidate := list[i];
      assert candidate.Value() == cs[i];
      match candidate.state {
        case Suspended => return null;
        case Connected =>
          connected, c := candidate, i;
          if preferred == null && Matches(candidate.Value(), "", [], source, sink) {
            preferred := candidate;
          }
        case Disconnected =>
          if preferred == null && Matches(candidate.Value(), "", [], source, sink) {
            preferred := candidate;
          }
        case Unknown =>
          if preferred == null && Matches(candidate.Value(), "", [], source, sink) {
            preferred := candidate;
          }
        case Connecting =>
        case Disconnecting =>
      }
      p := if preferred == null then i + 1 else p;
      i := i + 1;
    }
    LastIs(cs, Connected, c);
    FirstToSuspendIs(cs, source, sink, p);
    if connected != null && preferred != null && preferred != connected {
      return null;
    } else if preferred != null {
      return preferred;
    }
    return null;
  }

  // ------------------------------------------------------ connecting

  datatype Error = Ok | NotPossible

  datatype Status = Executing | Completed | ErrorStopped | Undoing | UndoComplete

  /** The connection is that of transition k of the world, which is in one of the phases. */
  predicate Shows(c: MainConnection, w: World, k: nat, phases: set<Phase>)
    reads c
  {
    At(w, k, phases) && c.Value() == w.connections[w.transitions[k].id]
  }

  /** The connection is as the step leaves it in the world, and the step makes nobody
      active who was not entitled to be. */
  ghost predicate Follows(c: MainConnection, w: World, k: nat, step: Step)
    requires k < |w.transitions|
    reads c
  {
    var w1 := Take(w, step);
    && w.transitions[k].id in w1.connections && c.Value() == w1.connections[w.transitions[k].id]
    && (Valid(w) ==> Valid(w1))
  }

  lemma ProgressKeeps(w: World, step: Step)
    requires step.Execute? || step.Complete? || step.Fail? || step.Undo? || step.Undone?
    ensures Valid(w) ==> Valid(Take(w, step))
  {
    hide Valid;
    if Valid(w) { StepKeeps(w, step); }
  }

  class MainConnectionActionConnect {
    const mainConnection: MainConnection?

    constructor (c: MainConnection?, ghost w: World, ghost id: nat)
      requires c != null ==> id in w.connections && c.Value() == w.connections[id]
      modifies c
      ensures mainConnection == c
      ensures c != null ==> c.Value() == ConnectTo(w, id).connections[id]
    {
      mainConnection := c;
      new;
      if c != null {
        match c.state {
          case Connected =>
          case Disconnecting =>
          case Connecting =>
          case Unknown => c.state := Connecting;
          case Disconnected => c.state := Connecting;
          case Suspended => c.state := Connecting;
        }
      }
    }

    /** The sub-actions for routes and sources are those of module ActionTree. */
    method Execute(available: bool, ghost w: World, ghost k: nat) returns (result: Error)
      requires mainConnection != null ==> Shows(mainConnection, w, k, {Chosen})
      modifies mainConnection
      ensures mainConnection == null ==> result == NotPossible
      ensures mainConnection != null ==> Follows(mainConnection, w, k, Step.Execute(k, available))
      ensures mainConnection != null ==>
                Take(w, Step.Execute(k, available)).transitions[k].phase == if result == Ok then Running else Failed
    {
      hide Valid;
      ProgressKeeps(w, Step.Execute(k, available));
      if mainConnection == null {
        return NotPossible;
      }
      var state := mainConnection.state;
      if state == Connected {
        return Ok;
      }
      if !available {
        return NotPossible;
      }
      if state != Connecting {
        mainConnection.state := Connecting;
      }
      return Ok;
    }

    method Undo(ghost w: World, ghost k: nat)
      requires mainConnection != null && Shows(mainConnection, w, k, {Done, Failed})
      modifies mainConnection
      ensures Follows(mainConnection, w, k, Step.Undo(k))
    {
      hide Valid;
      ProgressKeeps(w, Step.Undo(k));
      mainConnection.state := Disconnecting;
    }

    /** The step that a result stands for, by the state of the action. */
    ghost function Ended(result: int, status: Status, sourceOn: bool, k: nat): Step {
      if status == UndoComplete then Undone(k)
      else if result == 0 && status == Completed then Complete(k, sourceOn)
      else Fail(k)
    }

    method Update(result: int, status: Status, sourceOn: bool, ghost w: World, ghost k: nat)
      requires mainConnection != null
      requires Shows(mainConnection, w, k, {if status == UndoComplete then Phase.Undoing else Running})
      modifies mainConnection
      ensures Follows(mainConnection, w, k, Ended(result, status, sourceOn, k))
    {
      hide Valid;
      ProgressKeeps(w, Ended(result, status, sourceOn, k));
      var connectionState := Unknown;
      if result == 0 && status == Completed {
        connectionState := if sourceOn then Connected else Suspended;
      } else if status == UndoComplete {
        connectionState := Disconnected;
      }
      if connectionState != Unknown {
        mainConnection.state := connectionState;
      }
    }
  }
}

/** The methods around the scan of module Topology: one topology, the first topology that
    has a route, and the choice among the routes of the daemon. */
module TopologyRoutes {
  import opened Topology
  import opened TopologySearch

  datatype Error = Ok | UnknownError | NotPossible

  datatype Route = Route(name: string, sinkId: nat, sourceId: nat, hops: seq<Hop>)

  const NO_ROUTE := Route("", 0, 0, [])

  // ------------------------------------------------------ what a topology is

  predicate Plain(t: Token) {
    t.SinkName? || t.Exclusive? || t.EqualSign?
  }

  /** The sinks, and then sources and groups: what the configuration reader produces. */
  ghost predicate WellFormed(topology: seq<Token>) {
    exists head, items :: Written(topology, head, items)
  }

  predicate Written(topology: seq<Token>, head: seq<Token>, items: seq<Item>) {
    topology == head + Tokens(items) && forall t | t in head :: Plain(t)
  }

  lemma {:induction false} HeadPasses(q: Request, head: seq<Token>, ts: seq<Token>, s: Scanner)
    requires s.open <= |s.route| && forall t | t in head :: Plain(t)
    ensures Scan(q, head + ts, s) == Scan(q, ts, s)
    decreases head
  {
    if head == [] {
      assert head + ts == ts;
    } else {
      assert Plain(head[0]) && (head + ts)[1..] == head[1..] + ts;
      HeadPasses(q, head[1..], ts, s);
    }
  }

  /** A well-formed topology is scanned to a chain of gateways, or to nothing at all. */
  lemma ScanOfWellFormed(q: Request, topology: seq<Token>)
    requires WellFormed(topology)
    ensures var r := Scan(q, topology, Begin(q));
            !r.PastEnd? && (r.Found? ==> Chain(q, r.route)) && (r.NotFound? ==> r.route == [])
  {
    var head, items :| Written(topology, head, items);
    HeadPasses(q, head, Tokens(items), Begin(q));
    ScanOfItems(q, items, Begin(q));
    FoundIsChain(q, topology, Begin(q));
  }

  /** The right-hand side of a linear topology is searched like a tree. */
  lemma ScanOfLinear(q: Request, topology: seq<Token>, head: seq<Token>, items: seq<Item>)
    requires Written(topology, head, items) && Linear(items)
    ensures Scan(q, topology, Begin(q)) == Sought(Find(q, items, q.sinkId, q.sinkDomain), [])
  {
    HeadPasses(q, head, Tokens(items), Begin(q));
    ScanIsSearch(q, items, Begin(q));
  }

  /** The right-hand side of any topology is searched like the tree of its visible part if
      and only if no group is closed before the source, within its top-level group. */
  lemma ScanOfWrittenIff(q: Request, topology: seq<Token>, head: seq<Token>, items: seq<Item>)
    requires Written(topology, head, items)
    ensures Scan(q, topology, Begin(q)) == Sought(Find(q, Visible(q, items), q.sinkId, q.sinkDomain), [])
            <==> Direct(q, Visible(q, items))
    ensures Scan(q, topology, Begin(q)).Found? <==> Offers(q, Visible(q, items))
    ensures Known(q, items) ==> Visible(q, items) == items
    ensures Direct(q, items) ==> Scan(q, topology, Begin(q)) == Sought(Find(q, items, q.sinkId, q.sinkDomain), [])
    ensures Count(q, items) == 1 && !Direct(q, items) ==>
              Scan(q, topology, Begin(q)) != Sought(Find(q, items, q.sinkId, q.sinkDomain), [])
  {
    HeadPasses(q, head, Tokens(items), Begin(q));
    if Direct(q, items) { DirectIsSearch(q, items, Begin(q)); }
    if Count(q, items) == 1 { OneOfferIff(q, items, Begin(q)); }
    ScanIsSearchIff(q, items, Begin(q));
    if Known(q, items) { KnownIsWhole(q, items, 0); }
  }

  lemma SkipAt(topology: seq<Token>, it: nat, n: nat)
    requires it <= |topology| && n >= 1 && Closes(topology[it..], n)
    ensures it < |topology|
    ensures var m := if topology[it].RightBracket? then n - 1 else if topology[it].GatewayName? then n + 1 else n;
            Closes(topology[it + 1..], m) && Skip(topology[it..], n) == Skip(topology[it + 1..], m)
  {
    assert topology[it..] != [] ==> topology[it..][1..] == topology[it + 1..];
  }

  lemma SkipDone(ts: seq<Token>)
    ensures Skip(ts, 0) == ts
  {
  }

  // ------------------------------------------------------ one topology

  predicate SinkPresent(q: Request, topology: seq<Token>) {
    exists i | 0 <= i < |topology| ::
        topology[i].SinkName? && (topology[i].name == q.sinkName || (topology[i].name == "*" && q.sinkInClass))
  }

  method CheckElementPresentInTopology(q: Request, topology: seq<Token>) returns (result: Error)
    ensures result == if SinkPresent(q, topology) then Ok else UnknownError
  {
    var i := 0;
    while i < |topology|
      invariant 0 <= i <= |topology| && !SinkPresent(q, topology[..i])
    {
      var t := topology[i];
      if t.SinkName? {
        if t.name == q.sinkName {
          return Ok;
        }
        if t.name == "*" {
          if q.sinkInClass {
            return Ok;
          }
        }
      }
      assert topology[..i + 1] == topology[..i] + [t];
      i := i + 1;
    }
    assert topology[..|topology|] == topology;
    return UnknownError;
  }

  function ScannerOf(hops: seq<Hop>, element: Hop, count: nat): Scanner {
    Scanner(hops, element.sinkId, element.domain, count)
  }

  method RemoveGateways(hops0: seq<Hop>, element0: Hop, count: nat) returns (hops: seq<Hop>, element: Hop)
    requires count <= |hops0|
    ensures ScannerOf(hops, element, 0) == Unwind(ScannerOf(hops0, element0, count))
  {
    hops, element := hops0, element0;
    var i := 0;
    while i < count
      invariant 0 <= i <= count && hops == hops0[..|hops0| - i]
      invariant element == if i == 0 then element0 else hops0[|hops0| - i]
    {
      element := hops[|hops| - 1];
      hops := hops[..|hops| - 1];
      i := i + 1;
    }
  }

  /** The iterator is moved to the closing bracket behind which the scan goes on. */
  method SkipBrackets(topology: seq<Token>, start: nat, open: nat) returns (it: nat)
    requires start < |topology| && Closes(topology[start + 1..], open + 1)
    ensures start < it < |topology| && topology[it + 1..] == Skip(topology[start + 1..], open + 1)
  {
    hide Closes, Skip;
    it := start;
    var count := open + 1;
    var loopCount := 0;
    while loopCount < count
      invariant start <= it < |topology| && loopCount <= count && count >= 1 && (loopCount > 0 ==> it > start)
      invariant Closes(topology[it + 1..], count - loopCount)
      invariant Skip(topology[it + 1..], count - loopCount) == Skip(topology[start + 1..], open + 1)
      decreases |topology| - it
    {
      it := it + 1;
      SkipAt(topology, it, count - loopCount);
      if it == |topology| {
        break;
      }
      while !topology[it].RightBracket?
        invariant start < it < |topology| && loopCount < count
        invariant Closes(topology[it..], count - loopCount)
        invariant Skip(topology[it..], count - loopCount) == Skip(topology[start + 1..], open + 1)
        decreases |topology| - it
      {
        SkipAt(topology, it, count - loopCount);
        if topology[it].GatewayName? {
          count := count + 1;
        }
        it := it + 1;
        SkipAt(topology, it, count - loopCount);
        if it == |topology| {
          break;
        }
      }
      SkipAt(topology, it, count - loopCount);
      loopCount := loopCount + 1;
    }
    SkipDone(topology[it + 1..]);
  }

  /** _getRouteFromTopology() */
  method GetRouteFromTopology(q: Request, topology: seq<Token>, route0: Route) returns (result: Error, route: Route)
    requires WellFormed(topology) && route0.hops == []
    ensures !q.known ==> result == NotPossible && route == route0
    ensures q.known && !q.pairInClass ==> result == UnknownError && route == route0
    ensures q.known && q.pairInClass && !SinkPresent(q, topology) ==> result == NotPossible && route == route0
    ensures q.known && q.pairInClass && SinkPresent(q, topology) ==>
              var r := Scan(q, topology, Begin(q));
              && result == (if r.Found? then Ok else UnknownError)
              && route == Route(q.sourceName + ":" + q.sinkName, q.sinkId, q.sourceId, if r.Found? then r.route else [])
  {
    route := route0;
    if !q.known {
      return NotPossible, route;
    }
    if !q.pairInClass {
      return UnknownError, route;
    }
    var present := CheckElementPresentInTopology(q, topology);
    if present != Ok {
      return NotPossible, route;
    }
    route := Route(q.sourceName + ":" + q.sinkName, q.sinkId, q.sourceId, []);
    ScanOfWellFormed(q, topology);
    var hops, element, count, it := [], Hop(q.sinkId, 0, q.sinkDomain), 0, 0;
    assert topology[0..] == topology;
    while it < |topology|
      invariant 0 <= it <= |topology| && count <= |hops|
      invariant Scan(q, topology[it..], ScannerOf(hops, element, count)) == Scan(q, topology, Begin(q))
      decreases |topology| - it
    {
      hide Skip, Closes, Unwind;
      var t := topology[it];
      assert topology[it..][1..] == topology[it + 1..];
      if t.SourceName? {
        if t.name == q.sourceName || (t.name == "*" && q.sourceInClass) {
          hops := hops + [element.(sourceId := q.sourceId)];
          return Ok, route.(hops := hops);
        }
      } else if t.GatewayName? {
        if t.name !in q.gateways {
          ghost var s := ScannerOf(hops, element, count);
          hops, element := RemoveGateways(hops, element, count);
          it := SkipBrackets(topology, it, count);
          count := 0;
        } else {
          var g := q.gateways[t.name];
          hops := hops + [element.(sourceId := g.sourceId)];
          element := Hop(g.sinkId, g.sourceId, g.sinkDomain);
          count := count + 1;
        }
      } else if t.RightBracket? {
        hops, element := RemoveGateways(hops, element, count);
        count := 0;
      }
      it := it + 1;
    }
    return UnknownError, route.(hops := hops);
  }

  // ------------------------------------------------------ the preferred route

  predicate Usable(q: Request, topology: seq<Token>) {
    q.known && q.pairInClass && SinkPresent(q, topology)
  }

  /** This topology has a route. */
  predicate Serves(q: Request, topology: seq<Token>) {
    Usable(q, topology) && Scan(q, topology, Begin(q)).Found?
  }

  /** It is the first that has one. */
  predicate FirstServes(q: Request, topologies: seq<seq<Token>>, i: nat) {
    i < |topologies| && Serves(q, topologies[i]) && forall j | 0 <= j < i :: !Serves(q, topologies[j])
  }

  function RouteOf(q: Request, topology: seq<Token>): seq<Hop>
    requires Serves(q, topology)
  {
    Scan(q, topology, Begin(q)).route
  }

  /** The first topology that has a route decides, however many without one come before. */
  method GetPreferredRoute(q: Request, topologies: seq<seq<Token>>, route0: Route) returns (result: Error, route: Route)
    requires (forall t | t in topologies :: WellFormed(t)) && route0.hops == []
    ensures result == Ok <==> exists i | 0 <= i < |topologies| :: Serves(q, topologies[i])
    ensures result == Ok ==> exists i | 0 <= i < |topologies| ::
              FirstServes(q, topologies, i) && route.hops == RouteOf(q, topologies[i])
    ensures result != Ok ==> route.hops == []
  {
    hide Scan, WellFormed;
    result, route := NotPossible, route0;
    var i := 0;
    while i < |topologies|
      invariant 0 <= i <= |topologies| && result != Ok && route.hops == []
      invariant forall j | 0 <= j < i :: !Serves(q, topologies[j])
    {
      assert topologies[i] in topologies;
      result, route := GetRouteFromTopology(q, topologies[i], route);
      if result == Ok {
        assert FirstServes(q, topologies, i);
        return;
      }
      i := i + 1;
    }
  }

  /** The preferred route leads through existing gateways from the sink to the source. */
  lemma PreferredIsChain(q: Request, topologies: seq<seq<Token>>, i: nat)
    requires FirstServes(q, topologies, i)
    ensures Chain(q, RouteOf(q, topologies[i]))
  {
    FoundIsChain(q, topologies[i], Begin(q));
  }

  // ------------------------------------------------------ the routes of the daemon

  predicate SamePair(a: Hop, b: Hop) {
    a.sinkId == b.sinkId && a.sourceId == b.sourceId
  }

  /** The daemon lists the same pairs the other way round, from source to sink. */
  predicate Mirrors(daemon: seq<Hop>, topology: seq<Hop>) {
    |daemon| == |topology| && forall i | 0 <= i < |daemon| :: SamePair(daemon[i], topology[|topology| - 1 - i])
  }

  /** The route that is offered first among those that mirror the topology. */
  predicate FirstMirror(list: seq<Route>, hops: seq<Hop>, k: nat) {
    k < |list| && Mirrors(list[k].hops, hops) && forall j | 0 <= j < k :: !Mirrors(list[j].hops, hops)
  }

  predicate TakenFrom(route: Route, offer: Route) {
    route.sinkId == offer.sinkId && route.sourceId == offer.sourceId && route.hops == offer.hops
  }

  method ValidateRouteFromTopology(list: seq<Route>, route0: Route) returns (result: Error, route: Route)
    ensures result == Ok <==> exists k | 0 <= k < |list| :: Mirrors(list[k].hops, route0.hops)
    ensures result == Ok ==> exists k | 0 <= k < |list| ::
        FirstMirror(list, route0.hops, k) && TakenFrom(route, list[k])
    ensures result != Ok ==> result == NotPossible && route == route0
    ensures route.name == route0.name
  {
    route := route0;
    var i := 0;
    while i < |list|
      invariant 0 <= i <= |list| && forall j | 0 <= j < i :: !Mirrors(list[j].hops, route0.hops)
    {
      if |list[i].hops| == |route0.hops| {
        var d, t := 0, |route0.hops|;
        while d < |list[i].hops|
          invariant 0 <= d <= |list[i].hops| && t == |route0.hops| - d
          invariant forall j | 0 <= j < d :: SamePair(list[i].hops[j], route0.hops[|route0.hops| - 1 - j])
        {
          if list[i].hops[d].sinkId != route0.hops[t - 1].sinkId
              || list[i].hops[d].sourceId != route0.hops[t - 1].sourceId {
            break;
          }
          d := d + 1;
          t := t - 1;
        }
        if d == |list[i].hops| {
          assert FirstMirror(list, route0.hops, i);
          return Ok, route0.(sinkId := list[i].sinkId, sourceId := list[i].sourceId, hops := list[i].hops);
        }
        assert !SamePair(list[i].hops[d], route0.hops[|route0.hops| - 1 - d]);
      }
      i := i + 1;
    }
    return NotPossible, route0;
  }

  /** The routing part of createMainConnection(). Where the topologies have a route, it
      counts only if the daemon offers its mirror; where they have none, the first offer is
      taken if that is allowed, and else only an offer without hops would do. An empty list
      of offers is not taken for an error if the daemon did not report one. */
  method SelectRoute(q: Request, topologies: seq<seq<Token>>, answer: Error, list: seq<Route>, anyRouteAllowed: bool)
    returns (result: Error, route: Route)
    requires forall t | t in topologies :: WellFormed(t)
    ensures answer != Ok || list == [] ==> result == answer && route == NO_ROUTE
    ensures result == Ok && list != [] ==> exists k | 0 <= k < |list| :: TakenFrom(route, list[k])
    ensures answer == Ok && list != [] ==>
              && (forall i | 0 <= i < |topologies| && FirstServes(q, topologies, i) ::
                    var hops := RouteOf(q, topologies[i]);
                    && (result == Ok <==> exists k | 0 <= k < |list| :: Mirrors(list[k].hops, hops))
                    && (result == Ok ==>
                          exists k | 0 <= k < |list| :: FirstMirror(list, hops, k) && TakenFrom(route, list[k])))
              && ((forall i | 0 <= i < |topologies| :: !Serves(q, topologies[i])) ==>
                    && (anyRouteAllowed ==> result == Ok && TakenFrom(route, list[0]))
                    && (!anyRouteAllowed ==> (result == Ok <==> exists k | 0 <= k < |list| :: list[k].hops == [])))
  {
    hide WellFormed, Serves, RouteOf;
    route := NO_ROUTE;
    if answer != Ok || list == [] {
      return answer, route;
    }
    result, route := GetPreferredRoute(q, topologies, route);
    if result != Ok && anyRouteAllowed {
      return Ok, Route(q.sourceName + ":" + q.sinkName, list[0].sinkId, list[0].sourceId, list[0].hops);
    }
    result, route := ValidateRouteFromTopology(list, route);
  }
}

/** Preferred routes (CAmClassElement): a scan over the tokens of a topology with a stack of
    gateways, and the check of its result against the routes that the daemon offers. */
module Topology {

  datatype Token = SinkName(name: string) | SourceName(name: string) | GatewayName(name: string)
                 | EqualSign | Exclusive | LeftBracket | RightBracket

  datatype Gateway = Gateway(sinkId: nat, sourceId: nat, sinkDomain: nat)

  /** One routing element. */
  datatype Hop = Hop(sinkId: nat, sourceId: nat, domain: nat)

  /** The request, and what the factories and the class know about it: whether source and
      sink exist, whether the pair belongs to the class, and which of them an asterisk
      stands for. */
  datatype Request = Request(
    gateways: map<string, Gateway>, sourceName: string, sinkName: string, sourceId: nat, sinkId: nat,
    sinkDomain: nat, known: bool, pairInClass: bool, sourceInClass: bool, sinkInClass: bool)

  predicate Wanted(q: Request, name: string) {
    name == q.sourceName || (name == "*" && q.sourceInClass)
  }

  // ------------------------------------------------------ the scan

  /** The route so far, the sink to go on from, and how many gateways are counted as open. */
  datatype Scanner = Scanner(route: seq<Hop>, sinkId: nat, domain: nat, open: nat)

  function Begin(q: Request): Scanner {
    Scanner([], q.sinkId, q.sinkDomain, 0)
  }

  /** All open gateways are taken off; the scan goes on from where the first began. */
  function Unwind(s: Scanner): Scanner
    requires s.open <= |s.route|
  {
    if s.open == 0 then s
    else
      var k := |s.route| - s.open;
      Scanner(s.route[..k], s.route[k].sinkId, s.route[k].domain, 0)
  }

  function Through(s: Scanner, g: Gateway): Scanner {
    Scanner(s.route + [Hop(s.sinkId, g.sourceId, s.domain)], g.sinkId, g.sinkDomain, s.open + 1)
  }

  /** Are there n closing brackets ahead, and one more for every gateway in between? */
  predicate Closes(ts: seq<Token>, n: nat)
    decreases ts
  {
    n == 0 || (ts != [] && Closes(ts[1..],
        if ts[0].RightBracket? then n - 1 else if ts[0].GatewayName? then n + 1 else n))
  }

  /** What is left behind them. */
  function Skip(ts: seq<Token>, n: nat): (r: seq<Token>)
    requires Closes(ts, n)
    ensures |r| <= |ts|
    decreases ts
  {
    if n == 0 then ts
    else Skip(ts[1..], if ts[0].RightBracket? then n - 1 else if ts[0].GatewayName? then n + 1 else n)
  }

  datatype Scanned = Found(route: seq<Hop>) | NotFound(route: seq<Hop>) | PastEnd

  /** The main loop of _getRouteFromTopology(). */
  function Scan(q: Request, ts: seq<Token>, s: Scanner): Scanned
    requires s.open <= |s.route|
    decreases |ts|
  {
    if ts == [] then NotFound(s.route)
    else
      match ts[0]
      case SourceName(name) =>
        if Wanted(q, name) then Found(s.route + [Hop(s.sinkId, q.sourceId, s.domain)]) else Scan(q, ts[1..], s)
      case GatewayName(name) =>
        if name in q.gateways then Scan(q, ts[1..], Through(s, q.gateways[name]))
        else if Closes(ts[1..], s.open + 1) then Scan(q, Skip(ts[1..], s.open + 1), Unwind(s))
        else PastEnd
      case RightBracket => Scan(q, ts[1..], Unwind(s))
      case _ => Scan(q, ts[1..], s)
  }

  // ------------------------------------------------------ topologies as trees

  /** A source, a group behind a gateway, or a token that means nothing to the scan. */
  datatype Item = Source(name: string) | Group(gateway: string, items: seq<Item>) | Mark

  function Tokens(items: seq<Item>): seq<Token>
    decreases items
  {
    if items == [] then [] else ItemTokens(items[0]) + Tokens(items[1..])
  }

  function ItemTokens(item: Item): seq<Token>
    decreases item
  {
    match item
    case Source(name) => [SourceName(name)]
    case Group(g, items) => [GatewayName(g), LeftBracket] + Tokens(items) + [RightBracket]
    case Mark => [Exclusive]
  }

  /** What follows inside some open groups: of each the closing bracket, and then the rest
      of the items around it. */
  function Rest(levels: seq<seq<Item>>): seq<Token> {
    if levels == [] then [] else [RightBracket] + Tokens(levels[0]) + Rest(levels[1..])
  }

  ghost function Weight(items: seq<Item>): nat
    decreases items
  {
    if items == [] then 0 else ItemWeight(items[0]) + Weight(items[1..])
  }

  ghost function ItemWeight(item: Item): nat
    decreases item
  {
    match item
    case Group(_, items) => 2 + Weight(items)
    case _ => 1
  }

  lemma OpenGroup(g: string, inner: seq<Item>, items: seq<Item>, levels: seq<seq<Item>>)
    ensures Tokens([Group(g, inner)] + items) + Rest(levels)
            == [GatewayName(g), LeftBracket] + (Tokens(inner) + Rest([items] + levels))
  {
    var group := Group(g, inner);
    assert ([group] + items)[1..] == items;
    assert ([items] + levels)[1..] == levels;
  }

  /** An item that is no group is a single token. */
  lemma SingleToken(items: seq<Item>, ts: seq<Token>)
    requires items != [] && !items[0].Group?
    ensures var all := Tokens(items) + ts;
            && all != [] && all[0] == (if items[0].Source? then SourceName(items[0].name) else Exclusive)
            && all[1..] == Tokens(items[1..]) + ts
    ensures Weight(items[1..]) < Weight(items)
  {
    assert Tokens(items) == ItemTokens(items[0]) + Tokens(items[1..]);
    assert Weight(items) == ItemWeight(items[0]) + Weight(items[1..]);
  }

  lemma GroupWeight(items: seq<Item>)
    requires items != [] && items[0].Group?
    ensures Weight(items) == 2 + Weight(items[0].items) + Weight(items[1..])
  {
    assert Weight(items) == ItemWeight(items[0]) + Weight(items[1..]);
  }

  // ------------------------------------------------------ skipping a group

  lemma {:induction false} SkipTokens(items: seq<Item>, ts: seq<Token>, n: nat)
    requires n >= 1
    ensures Closes(Tokens(items) + ts, n) == Closes(ts, n)
    ensures Closes(ts, n) ==> Skip(Tokens(items) + ts, n) == Skip(ts, n)
    decreases items, 0
  {
    if items == [] {
      assert Tokens(items) + ts == ts;
    } else {
      assert Tokens(items) + ts == ItemTokens(items[0]) + (Tokens(items[1..]) + ts);
      SkipItem(items[0], Tokens(items[1..]) + ts, n);
      SkipTokens(items[1..], ts, n);
    }
  }

  lemma {:induction false} SkipItem(item: Item, ts: seq<Token>, n: nat)
    requires n >= 1
    ensures Closes(ItemTokens(item) + ts, n) == Closes(ts, n)
    ensures Closes(ts, n) ==> Skip(ItemTokens(item) + ts, n) == Skip(ts, n)
    decreases item, 1
  {
    match item
    case Source(name) => assert ([SourceName(name)] + ts)[1..] == ts;
    case Mark => assert ([Exclusive] + ts)[1..] == ts;
    case Group(g, items) =>
      var after := [RightBracket] + ts;
      var all := ItemTokens(item) + ts;
      assert all[1..] == [LeftBracket] + (Tokens(items) + after);
      assert all[1..][1..] == Tokens(items) + after;
      SkipTokens(items, after, n + 1);
      assert after[1..] == ts;
  }

  lemma {:induction false} SkipRest(levels: seq<seq<Item>>, n: nat)
    requires 1 <= n <= |levels|
    ensures Closes(Rest(levels), n) && Skip(Rest(levels), n) == Tokens(levels[n - 1]) + Rest(levels[n..])
    decreases n
  {
    var more := Tokens(levels[0]) + Rest(levels[1..]);
    assert Rest(levels)[1..] == more;
    if n > 1 {
      SkipTokens(levels[0], Rest(levels[1..]), n - 1);
      SkipRest(levels[1..], n - 1);
      assert levels[1..][n - 1..] == levels[n..];
    }
  }

  /** A group whose gateway is missing is skipped, together with what follows in the groups
      around it that count as open. */
  lemma SkipGroup(inner: seq<Item>, items: seq<Item>, levels: seq<seq<Item>>, n: nat)
    requires n <= |levels|
    ensures var ts := [LeftBracket] + (Tokens(inner) + Rest([items] + levels));
            && Closes(ts, n + 1)
            && Skip(ts, n + 1) ==
                if n == 0 then Tokens(items) + Rest(levels) else Tokens(levels[n - 1]) + Rest(levels[n..])
  {
    var ts := [LeftBracket] + (Tokens(inner) + Rest([items] + levels));
    assert ts[1..] == Tokens(inner) + Rest([items] + levels);
    SkipTokens(inner, Rest([items] + levels), n + 1);
    SkipRest([items] + levels, n + 1);
    assert ([items] + levels)[n + 1..] == levels[n..];
  }

  lemma BracketSteps(g: string, more: seq<Token>)
    ensures ([GatewayName(g), LeftBracket] + more)[1..] == [LeftBracket] + more
    ensures ([LeftBracket] + more)[1..] == more
  {
  }

  lemma ScanSingle(q: Request, items: seq<Item>, ts: seq<Token>, s: Scanner)
    requires items != [] && !items[0].Group? && s.open <= |s.route|
    ensures Scan(q, Tokens(items) + ts, s) ==
              if items[0].Source? && Wanted(q, items[0].name)
                  then Found(s.route + [Hop(s.sinkId, q.sourceId, s.domain)])
              else Scan(q, Tokens(items[1..]) + ts, s)
    ensures Weight(items[1..]) < Weight(items)
  {
    SingleToken(items, ts);
  }

  /** How the scan leaves a group. */
  lemma ScanClose(q: Request, levels: seq<seq<Item>>, s: Scanner)
    requires levels != [] && s.open <= |s.route|
    ensures Tokens([]) + Rest(levels) == Rest(levels)
    ensures Scan(q, Rest(levels), s) == Scan(q, Tokens(levels[0]) + Rest(levels[1..]), Unwind(s))
  {
    assert Rest(levels)[1..] == Tokens(levels[0]) + Rest(levels[1..]);
  }

  /** How the scan enters a group, or skips it. */
  lemma ScanGroup(q: Request, g: string, inner: seq<Item>, items: seq<Item>, levels: seq<seq<Item>>, s: Scanner)
    requires s.open <= |s.route| && s.open <= |levels|
    ensures Scan(q, Tokens([Group(g, inner)] + items) + Rest(levels), s) ==
              if g in q.gateways then Scan(q, Tokens(inner) + Rest([items] + levels), Through(s, q.gateways[g]))
              else if s.open == 0 then Scan(q, Tokens(items) + Rest(levels), s)
              else Scan(q, Tokens(levels[s.open - 1]) + Rest(levels[s.open..]), Unwind(s))
  {
    hide Tokens, Rest, Closes, Skip, Through;
    OpenGroup(g, inner, items, levels);
    var more := Tokens(inner) + Rest([items] + levels);
    BracketSteps(g, more);
    if g !in q.gateways { SkipGroup(inner, items, levels, s.open); }
  }

  // ------------------------------------------------------ the scan over trees

  lemma UnwindThrough(s: Scanner, g: Gateway)
    requires s.open <= |s.route|
    ensures Unwind(Through(s, g)) == Unwind(s) && Unwind(Unwind(s)) == Unwind(s) && Unwind(s).open == 0
    ensures s.open == 0 ==> Unwind(s) == s
  {
  }

  /** What becomes of the scan in some items: a route, the scanner behind them, or the
      scanner behind some of the groups around them, which it has left. */
  datatype Walked = Hit(route: seq<Hop>) | On(s: Scanner) | Out(levels: nat, s: Scanner)

  /** The scan as a walk over the tree. A closing bracket takes off all open gateways,
      whatever the depth, and a missing gateway ends all groups that count as open. */
  function Walk(q: Request, items: seq<Item>, s: Scanner): (r: Walked)
    requires s.open <= |s.route|
    ensures r.On? ==> r.s.open <= s.open && r.s.open <= |r.s.route| && Unwind(r.s) == Unwind(s)
    ensures r.On? && s.open == |s.route| ==> r.s.open == |r.s.route|
    ensures r.Out? ==> 1 <= r.levels <= s.open && r.s == Unwind(s)
    decreases items
  {
    if items == [] then On(s)
    else
      match items[0]
      case Source(name) =>
        if Wanted(q, name) then Hit(s.route + [Hop(s.sinkId, q.sourceId, s.domain)]) else Walk(q, items[1..], s)
      case Mark => Walk(q, items[1..], s)
      case Group(g, inner) =>
        if g !in q.gateways then
          if s.open == 0 then Walk(q, items[1..], s) else Out(s.open, Unwind(s))
        else
          UnwindThrough(s, q.gateways[g]);
          match Walk(q, inner, Through(s, q.gateways[g]))
          case Hit(route) => Hit(route)
          case On(s1) => Walk(q, items[1..], Unwind(s1))
          case Out(n, s1) => if n == 1 then Walk(q, items[1..], s1) else Out(n - 1, s1)
  }

  /** How the scan of the tokens goes on after a walk. */
  function Resumed(q: Request, levels: seq<seq<Item>>, w: Walked): Scanned
    requires w.On? ==> w.s.open <= |w.s.route|
    requires w.Out? ==> 1 <= w.levels <= |levels| && w.s.open <= |w.s.route|
  {
    match w
    case Hit(route) => Found(route)
    case On(s) => Scan(q, Rest(levels), s)
    case Out(n, s) => Scan(q, Tokens(levels[n - 1]) + Rest(levels[n..]), s)
  }

  /** At every nesting the scan of the tokens is the walk over the tree. */
  lemma {:induction false} ScanIsWalk(q: Request, items: seq<Item>, levels: seq<seq<Item>>, s: Scanner)
    requires s.open <= |s.route| && s.open <= |levels|
    ensures Scan(q, Tokens(items) + Rest(levels), s) == Resumed(q, levels, Walk(q, items, s))
    decreases Weight(items)
  {
    hide Scan, Tokens, Rest, Unwind;
    if items == [] {
      NoTokens(Rest(levels));
    } else if !items[0].Group? {
      ScanSingle(q, items, Rest(levels), s);
      if !(items[0].Source? && Wanted(q, items[0].name)) { ScanIsWalk(q, items[1..], levels, s); }
    } else {
      var g, inner, rest := items[0].gateway, items[0].items, items[1..];
      GroupWeight(items);
      ScanGroup(q, g, inner, rest, levels, s);
      assert [items[0]] + rest == items;
      if g !in q.gateways {
        if s.open == 0 { ScanIsWalk(q, rest, levels, s); }
      } else {
        var more := [rest] + levels;
        assert more[0] == rest && more[1..] == levels;
        var s1 := Through(s, q.gateways[g]);
        ScanIsWalk(q, inner, more, s1);
        var w := Walk(q, inner, s1);
        UnwindThrough(s, q.gateways[g]);
        if w.On? {
          ScanClose(q, more, w.s);
          ScanIsWalk(q, rest, levels, Unwind(w.s));
        } else if w.Out? && w.levels == 1 {
          ScanIsWalk(q, rest, levels, w.s);
        } else if w.Out? {
          assert more[w.levels - 1] == levels[w.levels - 2] && more[w.levels..] == levels[w.levels - 1..];
        }
      }
    }
  }

  lemma NoTokens(ts: seq<Token>)
    ensures Tokens([]) + ts == ts
  {
  }

  lemma NoRest(ts: seq<Token>)
    ensures ts + Rest([]) == ts
  {
  }

  /** A whole topology: the scan never passes the end, and without result it leaves the
      route as it was. */
  lemma ScanOfItems(q: Request, items: seq<Item>, s: Scanner)
    requires s.open == 0
    ensures Scan(q, Tokens(items), s) ==
        if Walk(q, items, s).Hit? then Found(Walk(q, items, s).route) else NotFound(s.route)
    ensures !Walk(q, items, s).Hit? ==> Walk(q, items, s) == On(s)
  {
    hide Walk, Tokens;
    ScanIsWalk(q, items, [], s);
    NoRest(Tokens(items));
  }

  // ------------------------------------------------------ what is found is a chain

  /** Some gateway leads from the source of one hop to the sink of the next. */
  predicate Joins(q: Request, sourceId: nat, sinkId: nat) {
    exists g | g in q.gateways :: q.gateways[g].sourceId == sourceId && q.gateways[g].sinkId == sinkId
  }

  predicate Linked(q: Request, s: Scanner) {
    && (if s.route == [] then s.sinkId == q.sinkId
        else s.route[0].sinkId == q.sinkId && Joins(q, s.route[|s.route| - 1].sourceId, s.sinkId))
    && forall i | 0 <= i < |s.route| - 1 :: Joins(q, s.route[i].sourceId, s.route[i + 1].sinkId)
  }

  predicate Chain(q: Request, route: seq<Hop>) {
    && route != [] && route[0].sinkId == q.sinkId && route[|route| - 1].sourceId == q.sourceId
    && forall i | 0 <= i < |route| - 1 :: Joins(q, route[i].sourceId, route[i + 1].sinkId)
  }

  /** Whatever the tokens are, a route that is found leads from the main sink through
      existing gateways to the main source. */
  lemma {:induction false} FoundIsChain(q: Request, ts: seq<Token>, s: Scanner)
    requires s.open == |s.route| && Linked(q, s)
    ensures var r := Scan(q, ts, s); r.Found? ==> Chain(q, r.route)
    decreases |ts|
  {
    if ts != [] {
      match ts[0]
      case SourceName(name) =>
        if !Wanted(q, name) { FoundIsChain(q, ts[1..], s); }
      case GatewayName(name) =>
        if name in q.gateways {
          FoundIsChain(q, ts[1..], Through(s, q.gateways[name]));
        } else if Closes(ts[1..], s.open + 1) {
          FoundIsChain(q, Skip(ts[1..], s.open + 1), Unwind(s));
        }
      case RightBracket => FoundIsChain(q, ts[1..], Unwind(s));
      case _ => FoundIsChain(q, ts[1..], s);
    }
  }
}

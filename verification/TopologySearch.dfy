/** When the scan of a topology is the search of a tree: what it makes of nested groups and
    of missing gateways. */
module TopologySearch {
  import opened Topology

  datatype Search = Some(chain: seq<Hop>) | None

  /** The first wanted source, in the order of the text, that is not behind a missing
      gateway; the hops say which gateways it is behind. */
  function Find(q: Request, items: seq<Item>, sinkId: nat, domain: nat): Search
    decreases items
  {
    if items == [] then None
    else
      var first := FindIn(q, items[0], sinkId, domain);
      if first.Some? then first else Find(q, items[1..], sinkId, domain)
  }

  function FindIn(q: Request, item: Item, sinkId: nat, domain: nat): Search
    decreases item
  {
    match item
    case Source(name) => if Wanted(q, name) then Some([Hop(sinkId, q.sourceId, domain)]) else None
    case Mark => None
    case Group(g, items) =>
      if g !in q.gateways then None
      else
        var r := Find(q, items, q.gateways[g].sinkId, q.gateways[g].sinkDomain);
        if r.Some? then Some([Hop(sinkId, q.gateways[g].sourceId, domain)] + r.chain) else None
  }

  function Sought(r: Search, route: seq<Hop>): Scanned {
    if r.Some? then Found(r.chain) else NotFound(route)
  }

  /** Is there a wanted source that is not behind a missing gateway? */
  predicate Offers(q: Request, items: seq<Item>)
    decreases items
  {
    items != [] && (OffersIn(q, items[0]) || Offers(q, items[1..]))
  }

  predicate OffersIn(q: Request, item: Item)
    decreases item
  {
    match item
    case Source(name) => Wanted(q, name)
    case Mark => false
    case Group(g, items) => g in q.gateways && Offers(q, items)
  }

  lemma {:induction false} OffersFind(q: Request, items: seq<Item>, sinkId: nat, domain: nat)
    ensures Find(q, items, sinkId, domain).Some? <==> Offers(q, items)
    decreases items
  {
    if items != [] {
      OffersFind(q, items[1..], sinkId, domain);
      if items[0].Group? && items[0].gateway in q.gateways {
        OffersFind(q, items[0].items, q.gateways[items[0].gateway].sinkId, q.gateways[items[0].gateway].sinkDomain);
      }
    }
  }

  /** Which gateways are passed does not depend on where the search begins. */
  lemma {:induction false} FindLength(q: Request, items: seq<Item>, a: nat, b: nat, c: nat, d: nat)
    ensures Find(q, items, a, b).Some? <==> Find(q, items, c, d).Some?
    ensures Find(q, items, a, b).Some? ==> |Find(q, items, a, b).chain| == |Find(q, items, c, d).chain| >= 1
    decreases items
  {
    OffersFind(q, items, a, b);
    OffersFind(q, items, c, d);
    if items != [] { FindLength(q, items[1..], a, b, c, d); }
  }

  /** Where there are no groups, the source is connected directly if it is listed, or an
      asterisk that stands for it, and not at all otherwise. */
  lemma {:induction false} FlatSearch(q: Request, items: seq<Item>, s: Scanner)
    requires (forall i | 0 <= i < |items| :: !items[i].Group?) && s.open == 0
    ensures Scan(q, Tokens(items), s)
         == if exists i | 0 <= i < |items| ::
                 items[i].Source? && (items[i].name == q.sourceName || (items[i].name == "*" && q.sourceInClass))
            then Found(s.route + [Hop(s.sinkId, q.sourceId, s.domain)]) else NotFound(s.route)
    decreases items
  {
    hide Scan, Tokens;
    ScanOfItems(q, items, s);
    if items != [] {
      FlatSearch(q, items[1..], s);
      ScanOfItems(q, items[1..], s);
    }
  }

  // ------------------------------------------------------ nested groups

  /** No gateway is missing. */
  predicate Known(q: Request, items: seq<Item>)
    decreases items
  {
    items == []
    || (Known(q, items[1..]) && (items[0].Group? ==> items[0].gateway in q.gateways && Known(q, items[0].items)))
  }

  /** In a group: no inner group is closed, or lacks its gateway, before the first wanted
      source, if any. */
  predicate Straight(q: Request, items: seq<Item>)
    decreases items
  {
    items == []
    || match items[0]
       case Source(name) => Wanted(q, name) || Straight(q, items[1..])
       case Mark => Straight(q, items[1..])
       case Group(g, inner) => if OffersIn(q, items[0]) then Straight(q, inner) else !Offers(q, items[1..])
  }

  /** In a topology: no group is closed, or lacks its gateway, within the top-level group that
      holds the first wanted source, before that source. */
  predicate Direct(q: Request, items: seq<Item>)
    decreases items
  {
    items == []
    || match items[0]
       case Source(name) => Wanted(q, name) || Direct(q, items[1..])
       case Mark => Direct(q, items[1..])
       case Group(g, inner) => if OffersIn(q, items[0]) then Straight(q, inner) else Direct(q, items[1..])
  }

  /** The walk finds what there is, but never through more gateways than it is behind. */
  lemma {:induction false} WalkBound(q: Request, items: seq<Item>, s: Scanner, sinkId: nat, domain: nat)
    requires Known(q, items) && s.open == |s.route|
    ensures var w, r := Walk(q, items, s), Find(q, items, sinkId, domain);
            && (w.Hit? <==> Offers(q, items)) && (w.On? <==> !Offers(q, items)) && (r.Some? <==> Offers(q, items))
            && (w.Hit? ==> |w.route| <= |s.route| + |r.chain|)
    decreases items
  {
    OffersFind(q, items, sinkId, domain);
    if items != [] {
      if items[0].Group? {
        var g := q.gateways[items[0].gateway];
        var s1 := Through(s, g);
        UnwindThrough(s, g);
        WalkBound(q, items[0].items, s1, g.sinkId, g.sinkDomain);
        WalkBound(q, items[1..], Unwind(s), sinkId, domain);
      } else {
        WalkBound(q, items[1..], s, sinkId, domain);
      }
    }
  }

  lemma {:induction false} WalkStraight(q: Request, items: seq<Item>, s: Scanner)
    requires s.open == |s.route| && Offers(q, items) && Straight(q, items)
    ensures var r := Find(q, items, s.sinkId, s.domain); r.Some? && Walk(q, items, s) == Hit(s.route + r.chain)
    decreases items
  {
    OffersFind(q, items, s.sinkId, s.domain);
    if items[0].Group? {
      var g := q.gateways[items[0].gateway];
      var s1 := Through(s, g);
      WalkStraight(q, items[0].items, s1);
      var r := Find(q, items[0].items, g.sinkId, g.sinkDomain);
      assert s1.route + r.chain == s.route + ([Hop(s.sinkId, g.sourceId, s.domain)] + r.chain);
    } else if !(items[0].Source? && Wanted(q, items[0].name)) {
      WalkStraight(q, items[1..], s);
    }
  }

  /** Behind a closed group the route lacks at least the outermost gateway. */
  lemma {:induction false} WalkCrooked(q: Request, items: seq<Item>, s: Scanner)
    requires Known(q, items) && s.open == |s.route| >= 1 && Offers(q, items) && !Straight(q, items)
    ensures var w, r := Walk(q, items, s), Find(q, items, s.sinkId, s.domain);
            w.Hit? && r.Some? && |w.route| < |s.route| + |r.chain|
    decreases items
  {
    OffersFind(q, items, s.sinkId, s.domain);
    if items[0].Group? {
      var g := q.gateways[items[0].gateway];
      var s1 := Through(s, g);
      UnwindThrough(s, g);
      if Offers(q, items[0].items) {
        WalkCrooked(q, items[0].items, s1);
      } else {
        WalkBound(q, items[0].items, s1, g.sinkId, g.sinkDomain);
        OffersFind(q, items[0].items, g.sinkId, g.sinkDomain);
        WalkBound(q, items[1..], Unwind(s), s.sinkId, s.domain);
      }
    } else {
      WalkCrooked(q, items[1..], s);
    }
  }

  /** Exactly when the scan is the tree search, if no gateway is missing. */
  lemma {:induction false} KnownIff(q: Request, items: seq<Item>, s: Scanner)
    requires Known(q, items) && s.open == 0 && s.route == []
    ensures Scan(q, Tokens(items), s) == Sought(Find(q, items, s.sinkId, s.domain), []) <==> Direct(q, items)
    decreases items
  {
    hide Scan, Tokens, Known, Unwind;
    ScanOfItems(q, items, s);
    if items != [] {
      KnownParts(q, items);
      ScanOfItems(q, items[1..], s);
      KnownIff(q, items[1..], s);
      if items[0].Group? { TopKnown(q, items[0].gateway, items[0].items, s); }
    }
  }

  lemma KnownParts(q: Request, items: seq<Item>)
    requires Known(q, items) && items != []
    ensures Known(q, items[1..]) && (items[0].Group? ==> items[0].gateway in q.gateways && Known(q, items[0].items))
  {
  }

  lemma TopKnown(q: Request, g: string, inner: seq<Item>, s: Scanner)
    requires g in q.gateways && Known(q, inner) && s.open == 0 && s.route == []
    ensures var w, r := Walk(q, inner, Through(s, q.gateways[g])), FindIn(q, Group(g, inner), s.sinkId, s.domain);
            && (if Offers(q, inner) then w.Hit? && r.Some? else w.On? && Unwind(w.s) == s && r.None?)
            && (Offers(q, inner) ==> (w == Hit(r.chain) <==> Straight(q, inner)))
  {
    var s1 := Through(s, q.gateways[g]);
    UnwindThrough(s, q.gateways[g]);
    WalkBound(q, inner, s1, s1.sinkId, s1.domain);
    if Offers(q, inner) {
      if Straight(q, inner) { WalkStraight(q, inner, s1); } else { WalkCrooked(q, inner, s1); }
    }
  }

  // ------------------------------------------------------ missing gateways

  /** What is left of some items, and how many groups around them end with it. */
  datatype Cut = Cut(items: seq<Item>, out: nat)

  /** The part of a topology that the scan looks at, if n groups count as open: a group
      whose gateway is missing is left out, and with it the rest of those groups. */
  function Trim(q: Request, items: seq<Item>, n: nat): (t: Cut)
    ensures t.out <= n && Known(q, t.items)
    decreases items
  {
    if items == [] then Cut([], 0)
    else
      match items[0]
      case Group(g, inner) =>
        if g !in q.gateways then
          if n == 0 then Trim(q, items[1..], 0) else Cut([], n)
        else
          var t := Trim(q, inner, n + 1);
          if t.out <= 1 then Before(Group(g, t.items), Trim(q, items[1..], 0))
          else Cut([Group(g, t.items)], t.out - 1)
      case _ => Before(items[0], Trim(q, items[1..], n))
  }

  function Before(item: Item, t: Cut): (r: Cut)
    ensures r.out == t.out && r.items != [] && r.items[0] == item && r.items[1..] == t.items
  {
    Cut([item] + t.items, t.out)
  }

  /** The walk does not see what is left out. */
  lemma {:induction false} WalkTrim(q: Request, items: seq<Item>, s: Scanner)
    requires s.open <= |s.route|
    ensures var w, t := Walk(q, items, s), Trim(q, items, s.open);
            var v := Walk(q, t.items, s);
            match w
            case Hit(_) => v == w
            case On(_) => v == w && t.out == 0
            case Out(n, _) => v.On? && t.out == n
    decreases items
  {
    hide Unwind, Known;
    if items != [] {
      if items[0].Group? {
        if items[0].gateway !in q.gateways {
          if s.open == 0 { WalkTrim(q, items[1..], s); }
        } else {
          var g := q.gateways[items[0].gateway];
          var s1 := Through(s, g);
          UnwindThrough(s, g);
          WalkTrim(q, items[0].items, s1);
          WalkTrim(q, items[1..], Unwind(s));
        }
      } else if !(items[0].Source? && Wanted(q, items[0].name)) {
        WalkTrim(q, items[1..], s);
      } else {
        assert Trim(q, items, s.open).items[0] == items[0];
      }
    }
  }

  lemma {:induction false} KnownIsWhole(q: Request, items: seq<Item>, n: nat)
    requires Known(q, items)
    ensures Trim(q, items, n) == Cut(items, 0)
    decreases items
  {
    if items != [] {
      assert items == [items[0]] + items[1..];
      KnownIsWhole(q, items[1..], n);
      if items[0].Group? {
        KnownIsWhole(q, items[1..], 0);
        KnownIsWhole(q, items[0].items, n + 1);
      }
    }
  }

  function Visible(q: Request, items: seq<Item>): seq<Item> {
    Trim(q, items, 0).items
  }

  /** The scan of any topology is the scan of its visible part. */
  lemma ScanOfVisible(q: Request, items: seq<Item>, s: Scanner)
    requires s.open == 0
    ensures Scan(q, Tokens(items), s) == Scan(q, Tokens(Visible(q, items)), s)
  {
    hide Scan, Tokens;
    WalkTrim(q, items, s);
    ScanOfItems(q, items, s);
    ScanOfItems(q, Visible(q, items), s);
  }

  /** For any topology: exactly when the scan is the search of the visible part, and when it
      finds anything. */
  lemma ScanIsSearchIff(q: Request, items: seq<Item>, s: Scanner)
    requires s.open == 0 && s.route == []
    ensures Scan(q, Tokens(items), s) == Sought(Find(q, Visible(q, items), s.sinkId, s.domain), [])
            <==> Direct(q, Visible(q, items))
    ensures Scan(q, Tokens(items), s).Found? <==> Offers(q, Visible(q, items))
  {
    hide Scan, Tokens, Walk, Find;
    ScanOfVisible(q, items, s);
    KnownIff(q, Visible(q, items), s);
    ScanOfItems(q, Visible(q, items), s);
    WalkBound(q, Visible(q, items), s, s.sinkId, s.domain);
  }

  /** What is visible was there: the scan finds nothing that the search does not. */
  lemma {:induction false} VisibleOffers(q: Request, items: seq<Item>, n: nat)
    ensures Offers(q, Trim(q, items, n).items) ==> Offers(q, items)
    decreases items
  {
    if items != [] {
      VisibleOffers(q, items[1..], n);
      VisibleOffers(q, items[1..], 0);
      var u := Trim(q, items, n).items;
      if !items[0].Group? {
        assert u[0] == items[0] && u[1..] == Trim(q, items[1..], n).items;
        assert Offers(q, u) == (OffersIn(q, u[0]) || Offers(q, u[1..]));
      } else if items[0].gateway in q.gateways {
        var t := Trim(q, items[0].items, n + 1);
        VisibleOffers(q, items[0].items, n + 1);
        assert u[0] == Group(items[0].gateway, t.items);
        assert u[1..] == if t.out <= 1 then Trim(q, items[1..], 0).items else [];
        assert OffersIn(q, u[0]) ==> OffersIn(q, items[0]);
        assert Offers(q, u) == (OffersIn(q, u[0]) || Offers(q, u[1..]));
      }
    }
  }

  // ------------------------------------------------------ with missing gateways

  /** How many wanted sources are not behind a missing gateway. */
  function Count(q: Request, items: seq<Item>): nat
    decreases items
  {
    if items == [] then 0 else CountIn(q, items[0]) + Count(q, items[1..])
  }

  function CountIn(q: Request, item: Item): nat
    decreases item
  {
    match item
    case Source(name) => if Wanted(q, name) then 1 else 0
    case Mark => 0
    case Group(g, items) => if g in q.gateways then Count(q, items) else 0
  }

  lemma {:induction false} CountOffers(q: Request, items: seq<Item>)
    ensures Offers(q, items) <==> Count(q, items) >= 1
    decreases items
  {
    if items != [] {
      CountOffers(q, items[1..]);
      if items[0].Group? { CountOffers(q, items[0].items); }
    }
  }

  /** What the walk finds was offered; if there was one offer only, it is that one, through
      no more gateways than it is behind. */
  lemma {:induction false} WalkFindsOne(q: Request, items: seq<Item>, s: Scanner, sinkId: nat, domain: nat)
    requires s.open == |s.route| && Count(q, items) <= 1
    ensures var w, r := Walk(q, items, s), Find(q, items, sinkId, domain);
            w.Hit? ==> Offers(q, items) && r.Some? && |w.route| <= |s.route| + |r.chain|
    decreases items
  {
    OffersFind(q, items, sinkId, domain);
    if items != [] {
      CountOffers(q, items[1..]);
      if items[0].Group? && items[0].gateway in q.gateways {
        var g := q.gateways[items[0].gateway];
        UnwindThrough(s, g);
        CountOffers(q, items[0].items);
        OffersFind(q, items[0].items, g.sinkId, g.sinkDomain);
        WalkFindsOne(q, items[0].items, Through(s, g), g.sinkId, g.sinkDomain);
        WalkFindsOne(q, items[1..], Unwind(s), sinkId, domain);
      } else {
        WalkFindsOne(q, items[1..], s, sinkId, domain);
      }
    }
  }

  /** Behind a group that is closed or lacks its gateway, the one wanted source is missed, or
      its route lacks at least the outermost gateway. */
  lemma {:induction false} WalkMissesOne(q: Request, items: seq<Item>, s: Scanner)
    requires s.open == |s.route| >= 1 && Count(q, items) == 1 && !Straight(q, items)
    ensures var w, r := Walk(q, items, s), Find(q, items, s.sinkId, s.domain);
            r.Some? && (w.Hit? ==> |w.route| < |s.route| + |r.chain|)
    decreases items
  {
    CountOffers(q, items);
    OffersFind(q, items, s.sinkId, s.domain);
    CountOffers(q, items[1..]);
    if items[0].Group? {
      CountOffers(q, items[0].items);
      WalkFindsOne(q, items[1..], Unwind(s), s.sinkId, s.domain);
      if items[0].gateway in q.gateways {
        var g := q.gateways[items[0].gateway];
        UnwindThrough(s, g);
        OffersFind(q, items[0].items, g.sinkId, g.sinkDomain);
        WalkFindsOne(q, items[0].items, Through(s, g), g.sinkId, g.sinkDomain);
        if Offers(q, items[0].items) { WalkMissesOne(q, items[0].items, Through(s, g)); }
      }
    } else {
      WalkMissesOne(q, items[1..], s);
    }
  }

  /** Whatever is missing: if no group is closed or lacks its gateway before the first wanted
      source, within its top-level group, the scan is the tree search of the whole. */
  lemma {:induction false} DirectIsSearch(q: Request, items: seq<Item>, s: Scanner)
    requires s.open == 0 && s.route == [] && Direct(q, items)
    ensures Scan(q, Tokens(items), s) == Sought(Find(q, items, s.sinkId, s.domain), [])
    decreases items
  {
    hide Scan, Tokens, Unwind;
    ScanOfItems(q, items, s);
    if items != [] {
      ScanOfItems(q, items[1..], s);
      if items[0].Group? {
        var inner := items[0].items;
        if items[0].gateway in q.gateways {
          var g := q.gateways[items[0].gateway];
          UnwindThrough(s, g);
          OffersFind(q, inner, g.sinkId, g.sinkDomain);
          if Offers(q, inner) {
            assert Through(s, g).open == |Through(s, g).route|;
            WalkStraight(q, inner, Through(s, g));
          } else {
            NothingIsHit(q, inner, Through(s, g));
            DirectIsSearch(q, items[1..], s);
          }
        } else {
          DirectIsSearch(q, items[1..], s);
        }
      } else if !(items[0].Source? && Wanted(q, items[0].name)) {
        DirectIsSearch(q, items[1..], s);
      }
    }
  }

  lemma NothingIsHit(q: Request, items: seq<Item>, s: Scanner)
    requires s.open == |s.route| && !Offers(q, items)
    ensures !Walk(q, items, s).Hit?
  {
    CountOffers(q, items);
    WalkFindsOne(q, items, s, s.sinkId, s.domain);
  }

  /** With a single wanted source that is not behind a missing gateway this is exact, whatever
      else is missing. */
  lemma {:induction false} OneOfferIff(q: Request, items: seq<Item>, s: Scanner)
    requires s.open == 0 && s.route == [] && Count(q, items) == 1
    ensures Scan(q, Tokens(items), s) == Sought(Find(q, items, s.sinkId, s.domain), []) <==> Direct(q, items)
    decreases items
  {
    if Direct(q, items) {
      DirectIsSearch(q, items, s);
    } else {
      hide Scan, Tokens, Unwind;
      ScanOfItems(q, items, s);
      ScanOfItems(q, items[1..], s);
      CountOffers(q, items[1..]);
      if items[0].Group? {
        var inner := items[0].items;
        CountOffers(q, inner);
        if items[0].gateway in q.gateways {
          var g := q.gateways[items[0].gateway];
          UnwindThrough(s, g);
          OffersFind(q, inner, g.sinkId, g.sinkDomain);
          assert Through(s, g).open == |Through(s, g).route| == 1;
          if Offers(q, inner) {
            WalkMissesOne(q, inner, Through(s, g));
            WalkFindsOne(q, items[1..], s, s.sinkId, s.domain);
          } else {
            NothingIsHit(q, inner, Through(s, g));
            OneOfferIff(q, items[1..], s);
          }
        } else {
          OneOfferIff(q, items[1..], s);
        }
      } else {
        OneOfferIff(q, items[1..], s);
      }
    }
  }

  // ------------------------------------------------------ linear topologies

  predicate Marks(items: seq<Item>) {
    forall i | 0 <= i < |items| :: items[i].Mark?
  }

  /** Inside a group nothing follows an inner group. */
  predicate Narrow(items: seq<Item>)
    decreases items
  {
    items == [] || (Narrow(items[1..]) && (items[0].Group? ==> Marks(items[1..]) && Narrow(items[0].items)))
  }

  predicate Linear(items: seq<Item>) {
    forall i | 0 <= i < |items| && items[i].Group? :: Narrow(items[i].items)
  }

  lemma {:induction false} MarksHoldNothing(q: Request, items: seq<Item>, s: Scanner)
    requires Marks(items) && s.open <= |s.route|
    ensures Find(q, items, s.sinkId, s.domain) == None && Walk(q, items, s) == On(s)
    ensures forall sinkId, domain :: Find(q, items, sinkId, domain) == None
    decreases items
  {
    if items != [] { MarksHoldNothing(q, items[1..], s); }
  }

  lemma {:induction false} WalkNarrow(q: Request, items: seq<Item>, s: Scanner)
    requires Narrow(items) && s.open == |s.route| >= 1
    ensures var w, r := Walk(q, items, s), Find(q, items, s.sinkId, s.domain);
            if r.Some? then w == Hit(s.route + r.chain) else w.On? || (w.Out? && w.levels == s.open)
    decreases items
  {
    if items != [] {
      if items[0].Group? {
        MarksHoldNothing(q, items[1..], Unwind(s));
        if items[0].gateway in q.gateways {
          var g := q.gateways[items[0].gateway];
          var s1 := Through(s, g);
          UnwindThrough(s, g);
          WalkNarrow(q, items[0].items, s1);
          var r := Find(q, items[0].items, g.sinkId, g.sinkDomain);
          if r.Some? {
            assert s1.route + r.chain == s.route + ([Hop(s.sinkId, g.sourceId, s.domain)] + r.chain);
          }
        }
      } else if !(items[0].Source? && Wanted(q, items[0].name)) {
        WalkNarrow(q, items[1..], s);
      }
    }
  }

  lemma {:induction false} WalkLinear(q: Request, items: seq<Item>, s: Scanner)
    requires Linear(items) && s.open == 0 && s.route == []
    ensures var r := Find(q, items, s.sinkId, s.domain);
            Walk(q, items, s) == if r.Some? then Hit(r.chain) else On(s)
    decreases items
  {
    if items != [] {
      assert Linear(items[1..]) by {
        forall i | 0 <= i < |items[1..]| && items[1..][i].Group?
            ensures Narrow(items[1..][i].items) { assert items[i + 1].Group?; }
      }
      WalkLinear(q, items[1..], s);
      if items[0].Group? && items[0].gateway in q.gateways {
        var g := q.gateways[items[0].gateway];
        UnwindThrough(s, g);
        WalkNarrow(q, items[0].items, Through(s, g));
      }
    }
  }

  /** For a linear topology the scan is the tree search, whatever is asked for and whatever
      is missing. */
  lemma ScanIsSearch(q: Request, items: seq<Item>, s: Scanner)
    requires Linear(items) && s.open == 0 && s.route == []
    ensures Scan(q, Tokens(items), s) == Sought(Find(q, items, s.sinkId, s.domain), [])
  {
    hide Scan, Tokens, Walk, Find;
    WalkLinear(q, items, s);
    ScanOfItems(q, items, s);
  }

  // ------------------------------------------------------ where it goes wrong

  /** A source behind an inner group. */
  function Behind(h: string, inner: seq<Item>, b: string): seq<Item> {
    [Group(h, inner), Source(b)]
  }

  function Hops(q: Request, g: string): seq<Hop>
    requires g in q.gateways
  {
    [Hop(q.sinkId, q.gateways[g].sourceId, q.sinkDomain),
        Hop(q.gateways[g].sinkId, q.sourceId, q.gateways[g].sinkDomain)]
  }

  lemma FindSplits(q: Request, items: seq<Item>, sinkId: nat, domain: nat)
    requires items != []
    ensures var first := FindIn(q, items[0], sinkId, domain);
            Find(q, items, sinkId, domain) == if first.Some? then first else Find(q, items[1..], sinkId, domain)
  {
  }

  lemma NestedFind(q: Request, g: string, h: string, inner: seq<Item>, b: string)
    requires g in q.gateways && Wanted(q, b) && !OffersIn(q, Group(h, inner))
    ensures Find(q, [Group(g, Behind(h, inner, b))], q.sinkId, q.sinkDomain) == Some(Hops(q, g))
  {
    hide Wanted, Find, Offers;
    var k := q.gateways[g];
    if h in q.gateways { OffersFind(q, inner, q.gateways[h].sinkId, q.gateways[h].sinkDomain); }
    FindSplits(q, Behind(h, inner, b), k.sinkId, k.sinkDomain);
    assert Behind(h, inner, b)[1..] == [Source(b)];
    FindSplits(q, [Source(b)], k.sinkId, k.sinkDomain);
    FindSplits(q, [Group(g, Behind(h, inner, b))], q.sinkId, q.sinkDomain);
  }

  lemma WalkSource(q: Request, b: string, s: Scanner)
    requires Wanted(q, b) && s.open <= |s.route|
    ensures Walk(q, [Source(b)], s) == Hit(s.route + [Hop(s.sinkId, q.sourceId, s.domain)])
  {
  }

  /** Behind an inner group in which there is nothing wanted the scan forgets the outer
      gateway: it connects the source directly. */
  lemma NestedGroupsMislead(q: Request, g: string, h: string, inner: seq<Item>, b: string)
    requires g in q.gateways && h in q.gateways && Known(q, inner) && !Offers(q, inner) && Wanted(q, b)
    ensures Scan(q, Tokens([Group(g, Behind(h, inner, b))]), Begin(q))
        == Found([Hop(q.sinkId, q.sourceId, q.sinkDomain)])
    ensures Find(q, [Group(g, Behind(h, inner, b))], q.sinkId, q.sinkDomain) == Some(Hops(q, g))
  {
    hide Scan, Tokens, Find, Known, Offers, Wanted, Unwind, Through;
    NestedFind(q, g, h, inner, b);
    var s := Begin(q);
    var s1 := Through(s, q.gateways[g]);
    EntersTwo(q, g, h);
    var s2 := Through(s1, q.gateways[h]);
    WalkBound(q, inner, s2, s2.sinkId, s2.domain);
    var outer := Behind(h, inner, b);
    assert outer[1..] == [Source(b)];
    WalkSource(q, b, s);
    assert Walk(q, outer, s1) == Hit([Hop(q.sinkId, q.sourceId, q.sinkDomain)]);
    ScanOfItems(q, [Group(g, outer)], s);
  }

  lemma EntersTwo(q: Request, g: string, h: string)
    requires g in q.gateways && h in q.gateways
    ensures var s := Begin(q);
            var s1 := Through(s, q.gateways[g]);
            var s2 := Through(s1, q.gateways[h]);
            s1.open == |s1.route| == 1 && s2.open == |s2.route| == 2 && Unwind(s1) == s && Unwind(s2) == s
  {
  }

  /** Behind an inner group whose gateway is missing it finds nothing at all. */
  lemma MissingGatewayHides(q: Request, g: string, h: string, inner: seq<Item>, b: string)
    requires g in q.gateways && h !in q.gateways && Wanted(q, b)
    ensures Scan(q, Tokens([Group(g, Behind(h, inner, b))]), Begin(q)) == NotFound([])
    ensures Find(q, [Group(g, Behind(h, inner, b))], q.sinkId, q.sinkDomain) == Some(Hops(q, g))
  {
    hide Scan, Tokens, Find, Wanted, Unwind, Through;
    NestedFind(q, g, h, inner, b);
    var s := Begin(q);
    EntersTwo(q, g, g);
    var outer := Behind(h, inner, b);
    assert Walk(q, outer, Through(s, q.gateways[g])) == Out(1, s);
    assert Walk(q, [], s) == On(s);
    ScanOfItems(q, [Group(g, outer)], s);
  }
}

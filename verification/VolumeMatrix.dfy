/** The second table that a change of volumes is computed from: a column for every sink or
    source that an addressed connection passes through. Set up in CAmActionSetVolumeCore. */
module VolumeMatrix {
  import opened KeyOrder
  import opened Sequences
  import opened VolumeBalance
  import opened ConnectionTable

  /** What the action sees of the other classes: the main connections in a state that the
      action looks at, the elements with volume support along each connection from main
      sink to main source, and the current volumes, ranges and limits. */
  datatype World = World(
    connections: seq<nat>, elements: nat -> seq<nat>, state: nat -> VolumeInfo,
    range: nat -> Range, mute: nat -> Mute, limits: nat -> seq<Limit>)

  function Users(w: World, cs: seq<nat>, e: nat): (us: set<nat>)
    ensures forall c :: c in us <==> c in cs && e in w.elements(c)
  {
    if cs == [] then {} else (if e in w.elements(cs[0]) then {cs[0]} else {}) + Users(w, cs[1..], e)
  }

  function Volumes(w: World, a: Axis): nat -> int {
    (e: nat) => Of(w.state(e), a)
  }

  /** _getConnectionVolumes() */
  function Fetch(w: World, c: nat, adjustable: bool): Row {
    var actual := VolumeInfo(w.mute(c), Sum(Volumes(w, Volume), w.elements(c)), Sum(Volumes(w, Offset), w.elements(c)));
    ApplyLimits(Row(actual, VolumeInfo(Unmuted, actual.volume, NO_LIMIT), NO_LIMIT, adjustable), w.limits(c))
  }

  datatype Table = Table(rows: Rows, matrix: Matrix, next: nat)

  function Link(w: World, rows: Rows, us: set<nat>): Rows {
    map c | c in rows.Keys + us :: if c in rows then rows[c] else Fetch(w, c, false)
  }

  function ColumnOf(m: Matrix, e: nat): Column {
    if e in m then m[e] else Column(NO_DIFF, NO_DIFF, 0, {})
  }

  /** The body of the loop of _setupVolumeMatrix() over the elements of connection c. */
  function EnterElement(w: World, t: Table, c: nat, e: nat): Table {
    var col := ColumnOf(t.matrix, e);
    var ordinal := if col.connections == {} then t.next else col.ordinal;
    var us := Users(w, w.connections, e);
    Table(Link(w, t.rows, us), t.matrix[e :=
        Column(w.state(e), w.state(e), ordinal, col.connections + {c} + us)], ordinal + 1)
  }

  function EnterElements(w: World, t: Table, c: nat, es: seq<nat>): (r: Table)
    ensures t.rows.Keys <= r.rows.Keys <= t.rows.Keys + Known(w)
    decreases es
  {
    if es == [] then t else EnterElements(w, EnterElement(w, t, c, es[0]), c, es[1..])
  }

  function Known(w: World): set<nat> {
    set c | c in w.connections
  }

  /** The rows that an iteration which has passed all keys below `from` has still to visit. */
  function Ahead(ks: set<nat>, from: nat): set<nat> {
    set c | c in ks && c >= from
  }

  /** The loop over the map of connections, into which its own body inserts: it goes on
      with the least key that is not below `from`. */
  function EnterRows(w: World, t: Table, from: nat): Table
    decreases Ahead(t.rows.Keys + Known(w), from)
  {
    var ahead := Ahead(t.rows.Keys, from);
    if ahead == {} then t else
      var c := Least(ahead);
      var t1 := EnterElements(w, t, c, w.elements(c));
      assert t1.rows.Keys + Known(w) == t.rows.Keys + Known(w);
      assert c in Ahead(t.rows.Keys + Known(w), from) && c !in Ahead(t1.rows.Keys + Known(w), c + 1);
      EnterRows(w, t1, c + 1)
  }

  /** _setupVolumeMatrix() */
  function SetUp(w: World, rows: Rows): Table {
    EnterRows(w, Table(rows, map[], 0), 0)
  }

  // ------------------------------------------------------ what the tables say

  /** Column e is complete: it rests, and its connections are rows that pass through e,
      among them every connection in use. */
  ghost predicate Proper(w: World, t: Table, e: nat) {
    && e in t.matrix
    && t.matrix[e].target == t.matrix[e].actual == w.state(e)
    && t.matrix[e].connections != {}
    && (forall c | c in t.matrix[e].connections :: c in t.rows && e in w.elements(c))
    && (forall c | c in w.connections && e in w.elements(c) :: c in t.matrix[e].connections)
  }

  ghost predicate Entered(w: World, t: Table, c: nat, es: seq<nat>) {
    forall e | e in es :: e in t.matrix && c in t.matrix[e].connections
  }

  /** The rows that were there are as they were; the others are not adjustable. */
  ghost predicate Linked(w: World, rows: Rows, t: Table) {
    && (forall c | c in rows :: c in t.rows && t.rows[c] == rows[c])
    && (forall c | c in t.rows && c !in rows :: c in w.connections && t.rows[c] == Fetch(w, c, false))
  }

  ghost predicate Laid(w: World, rows: Rows, t: Table) {
    Linked(w, rows, t) && forall e | e in t.matrix :: Proper(w, t, e)
  }

  /** Columns and rows are only ever added. */
  ghost predicate Grows(t: Table, t1: Table) {
    && t.rows.Keys <= t1.rows.Keys && t.matrix.Keys <= t1.matrix.Keys
    && forall e | e in t.matrix :: t.matrix[e].connections <= t1.matrix[e].connections
  }

  lemma FetchIs(w: World, c: nat, adjustable: bool)
    ensures Fetch(w, c, adjustable).adjustable == adjustable
  {
    var actual := VolumeInfo(w.mute(c), Sum(Volumes(w, Volume), w.elements(c)), Sum(Volumes(w, Offset), w.elements(c)));
    HighestRestrictionWins(Row(actual, VolumeInfo(Unmuted, actual.volume, NO_LIMIT), NO_LIMIT, adjustable),
        w.limits(c));
  }

  lemma LinkKeeps(w: World, rows: Rows, t: Table, c: nat, e: nat)
    requires Linked(w, rows, t)
    ensures Linked(w, rows, EnterElement(w, t, c, e))
    ensures forall k ::
        k in EnterElement(w, t, c, e).rows <==> k in t.rows || (k in w.connections && e in w.elements(k))
  {
    hide Fetch;
  }

  lemma ColumnEntered(w: World, rows: Rows, t: Table, c: nat, e: nat)
    requires Laid(w, rows, t) && c in t.rows && e in w.elements(c)
    ensures var t1 := EnterElement(w, t, c, e);
            Proper(w, t1, e) && c in t1.matrix[e].connections
                && ColumnOf(t.matrix, e).connections <= t1.matrix[e].connections
  {
    hide Fetch, Linked, Link;
    LinkKeeps(w, rows, t, c, e);
    if e in t.matrix { assert Proper(w, t, e); }
  }

  lemma ElementEntered(w: World, rows: Rows, t: Table, c: nat, e: nat)
    requires Laid(w, rows, t) && c in t.rows && e in w.elements(c)
    ensures var t1 := EnterElement(w, t, c, e);
            Laid(w, rows, t1) && Grows(t, t1) && e in t1.matrix && c in t1.matrix[e].connections
  {
    hide Fetch, Linked, Users, Link;
    var t1 := EnterElement(w, t, c, e);
    LinkKeeps(w, rows, t, c, e);
    ColumnEntered(w, rows, t, c, e);
    forall x | x in t1.matrix && x != e ensures Proper(w, t1, x) {
      assert Proper(w, t, x) && t1.matrix[x] == t.matrix[x];
    }
  }

  lemma {:induction false} ElementsEntered(w: World, rows: Rows, t: Table, c: nat, es: seq<nat>)
    requires Laid(w, rows, t) && c in t.rows && forall e | e in es :: e in w.elements(c)
    ensures var t1 := EnterElements(w, t, c, es);
            Laid(w, rows, t1) && Grows(t, t1) && Entered(w, t1, c, es)
    decreases es
  {
    hide Laid, EnterElement;
    if es != [] {
      var t1 := EnterElement(w, t, c, es[0]);
      ElementEntered(w, rows, t, c, es[0]);
      ElementsEntered(w, rows, t1, c, es[1..]);
      assert forall e :: e in es <==> e == es[0] || e in es[1..];
    }
  }

  lemma EnteredStays(w: World, t: Table, t1: Table, c: nat)
    requires Grows(t, t1) && Entered(w, t, c, w.elements(c))
    ensures Entered(w, t1, c, w.elements(c))
  {
  }

  lemma AddressedAreRows(w: World, rows: Rows, t: Table)
    requires Laid(w, rows, t)
    ensures forall c | c in rows :: c in t.rows
  {
  }

  lemma RowEntered(w: World, rows: Rows, t: Table, from: nat, c: nat)
    requires Laid(w, rows, t) && c in t.rows && c >= from && forall k | k in t.rows && k >= from :: c <= k
    requires forall k | k in rows && k < from :: Entered(w, t, k, w.elements(k))
    ensures var t1 := EnterElements(w, t, c, w.elements(c));
            Laid(w, rows, t1) && forall k | k in rows && k < c + 1 :: Entered(w, t1, k, w.elements(k))
  {
    hide EnterElements, Laid, Entered, Grows, Users, Known;
    var t1 := EnterElements(w, t, c, w.elements(c));
    AddressedAreRows(w, rows, t);
    ElementsEntered(w, rows, t, c, w.elements(c));
    forall k | k in rows && k < c + 1 ensures Entered(w, t1, k, w.elements(k)) {
      if k < from { EnteredStays(w, t, t1, k); } else { assert k == c; }
    }
  }

  lemma {:induction false} RowsEntered(w: World, rows: Rows, t: Table, from: nat)
    requires Laid(w, rows, t)
    requires forall c | c in rows && c < from :: Entered(w, t, c, w.elements(c))
    ensures var t1 := EnterRows(w, t, from);
            Laid(w, rows, t1) && forall c | c in rows :: Entered(w, t1, c, w.elements(c))
    decreases Ahead(t.rows.Keys + Known(w), from)
  {
    hide EnterElements, Entered, Laid;
    AddressedAreRows(w, rows, t);
    var ahead := Ahead(t.rows.Keys, from);
    if ahead == {} {
      forall c | c in rows ensures c < from { assert c >= from ==> c in ahead; }
    } else {
      var c := Least(ahead);
      var t1 := EnterElements(w, t, c, w.elements(c));
      assert t1.rows.Keys + Known(w) == t.rows.Keys + Known(w);
      assert c in Ahead(t.rows.Keys + Known(w), from) && c !in Ahead(t1.rows.Keys + Known(w), c + 1);
      forall k | k in t.rows && k >= from ensures c <= k { assert k in ahead; }
      RowEntered(w, rows, t, from, c);
      RowsEntered(w, rows, t1, c + 1);
    }
  }

  /** Although the loop inserts into the map it iterates over, it ends with both tables
      complete: every addressed connection has a column for each of its elements, every
      column lists exactly rows that pass through its element, all connections in use
      among them, addressed rows are untouched and linked rows are not adjustable. */
  lemma MatrixIsComplete(w: World, rows: Rows)
    ensures var t := SetUp(w, rows);
            Laid(w, rows, t) && forall c | c in rows :: Entered(w, t, c, w.elements(c))
  {
    RowsEntered(w, rows, Table(rows, map[], 0), 0);
  }
}

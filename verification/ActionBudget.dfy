/** Time limits and late additions: what a waiting leaf has left of the budget of every
    container above it, and where new children may be added while a container runs. */
module ActionBudget {
  import opened ActionTree
  import opened ActionInvariant

  // ------------------------------------------------------ the budget of a leaf

  /** The k-th action on the way from t along current children. */
  predicate Reaches(t: Action, k: nat)
    decreases k
  {
    k == 0 || (t.Node? && 0 <= t.n.index < |t.n.children| && Reaches(t.n.children[t.n.index], k - 1))
  }

  function Along(t: Action, k: nat): Action
    requires Reaches(t, k)
    decreases k
  {
    if k == 0 then t else Along(t.n.children[t.n.index], k - 1)
  }

  lemma CurrentRuns(n: Container)
    requires WF(Node(n)) && n.status.Executing? && Waits(Node(n)) > 0
    ensures var c := n.children[n.index]; WF(c) && c.Status().Executing? && Waits(c) > 0
  {
    WaitsAtIndex(n);
    var c := n.children[n.index];
    assert c.Status().Executing? by { if c.Status().NotStarted? { RestingWaits(c); } }
  }

  /** What a waiting leaf was given is what each container above it, at any distance, has
      left of its own finite time limit; no subtraction has gone below zero. */
  lemma {:induction false} BudgetTelescopes(t: Action, k: nat)
    requires WF(t) && t.Status().Executing? && Waits(t) > 0
    requires t.Node? && t.n.timeout != INFINITE_TIMEOUT && Reaches(t, k) && Along(t, k).Leaf?
    ensures Elapsed(t) <= t.n.timeout
    ensures Along(t, k).Timeout() == t.n.timeout - Elapsed(t)
    decreases k
  {
    var c := t.n.children[t.n.index];
    CurrentRuns(t.n);
    InTimeWhileWaiting(t);
    AllAt(t.n.children, t.n.index);
    if k > 1 {
      assert c.Node?;
      BudgetTelescopes(c, k - 1);
    }
  }

  /** ... which goes for the containers in between as well. */
  lemma {:induction false} EveryAncestorsBudget(t: Action, j: nat, k: nat)
    requires WF(t) && t.Status().Executing? && Waits(t) > 0
    requires j < k && Reaches(t, k) && Along(t, k).Leaf?
    ensures Reaches(t, j) && Along(t, j).Node?
    ensures Along(t, j).Timeout() != INFINITE_TIMEOUT
        ==> Along(t, k).Timeout() == Along(t, j).Timeout() - Elapsed(Along(t, j))
    decreases j
  {
    if j == 0 {
      if t.Timeout() != INFINITE_TIMEOUT { BudgetTelescopes(t, k); }
    } else {
      CurrentRuns(t.n);
      EveryAncestorsBudget(t.n.children[t.n.index], j - 1, k - 1);
    }
  }

  // ------------------------------------------------------ append() and insert()

  /** The position of the first child that has not started. */
  function Slot(ts: seq<Action>): (k: nat)
    ensures k <= |ts|
    ensures k < |ts| ==> ts[k].Status().NotStarted?
    ensures forall i | 0 <= i < k :: !ts[i].Status().NotStarted?
  {
    if ts == [] || ts[0].Status().NotStarted? then 0 else 1 + Slot(ts[1..])
  }

  function Appended(n: Container, t: Action): Container {
    n.(children := n.children + [t])
  }

  /** insert() into an empty container appends, which is the same. */
  function Inserted(n: Container, t: Action): Container {
    var k := Slot(n.children);
    n.(children := n.children[..k] + [t] + n.children[k..])
  }

  lemma SingleSums(t: Action)
    requires Fresh(t)
    ensures AllElapsed([t]) == 0 && AllWaits([t]) == 0 && AllDone([t]) == []
  {
    AllFresh([t]);
  }

  lemma AddedSums(ts: seq<Action>, k: nat, t: Action)
    requires k <= |ts| && Fresh(t)
    ensures var us := ts[..k] + [t] + ts[k..];
            AllElapsed(us) == AllElapsed(ts) && AllWaits(us) == AllWaits(ts) && AllDone(us) == AllDone(ts)
  {
    hide AllElapsed, AllWaits, AllDone, Fresh;
    var a, b := ts[..k], ts[k..];
    SingleSums(t);
    AllConcat(a, b);
    AllConcat(a, [t]);
    AllConcat(a + [t], b);
    assert ts == a + b;
    assert AllDone(a) + [] == AllDone(a);
  }

  lemma FreshRests(t: Action)
    requires Fresh(t)
    ensures t.Status().NotStarted? && WF(t)
  {
    FreshFacts(t);
  }

  /** A new child may be added to a running container at its slot or anywhere behind it:
      the invariant is kept, nobody stops waiting and what has completed stays so. An
      inserted child is the next to run. */
  lemma AddKeepsRunning(n: Container, k: nat, t: Action)
    requires Running(n) && Fresh(t) && Slot(n.children) <= k <= |n.children|
    ensures var m := n.(children := n.children[..k] + [t] + n.children[k..]);
            && Running(m) && m.index == n.index
            && Waits(Node(m)) == Waits(Node(n)) && Done(Node(m)) == Done(Node(n))
            && Elapsed(Node(m)) == Elapsed(Node(n))
  {
    var m := n.(children := n.children[..k] + [t] + n.children[k..]);
    hide WF, Fresh, AllElapsed, AllWaits, AllDone, Slot, With;
    AddedSums(n.children, k, t);
    FreeFromSlot(n, k);
    IsWith(n.children, k, t);
    AddShape(n, k, t, m);
  }

  lemma FreeFromSlot(n: Container, k: nat)
    requires Running(n) && Slot(n.children) <= k <= |n.children|
    ensures n.index <= k && (k == n.index ==> k < |n.children| && n.children[k].Status().NotStarted?)
  {
    hide Slot;
    SlotOfRunning(n);
  }

  lemma IsWith(ts: seq<Action>, k: nat, t: Action)
    requires k <= |ts|
    ensures With(ts[..k] + [t] + ts[k..], ts, k, t)
  {
  }

  lemma SlotOfRunning(n: Container)
    requires Running(n)
    ensures n.index <= Slot(n.children) <= n.index + 1
  {
    var k := Slot(n.children);
    assert k < n.index ==> Succeeded(n.children[k]);
    if n.index + 1 < |n.children| { assert n.children[n.index + 1].Status().NotStarted?; }
  }

  /** A sequence with one element more, at position k. */
  predicate With(us: seq<Action>, ts: seq<Action>, k: nat, t: Action) {
    k <= |ts| && us == ts[..k] + [t] + ts[k..]
  }

  lemma WithAt(us: seq<Action>, ts: seq<Action>, k: nat, t: Action, i: nat)
    requires With(us, ts, k, t) && i < |us|
    ensures us[i] == if i < k then ts[i] else if i == k then t else ts[i - 1]
  {
  }

  lemma AddShape(n: Container, k: nat, t: Action, m: Container)
    requires Running(n) && Fresh(t) && n.index <= k && (k == n.index ==> n.children[k].Status().NotStarted?)
    requires With(m.children, n.children, k, t) && m == n.(children := m.children)
    requires Elapsed(Node(m)) == Elapsed(Node(n))
    ensures WF(Node(m))
  {
    hide Elapsed, With;
    FreshRests(t);
    WithLength(m.children, n.children, k, t);
    forall i | 0 <= i < |m.children|
      ensures WF(m.children[i]) && (i < m.index ==> Succeeded(m.children[i]))
          && (i > m.index ==> m.children[i].Status().NotStarted?)
    {
      WithAt(m.children, n.children, k, t, i);
      if i != k {
        var j := if i < k then i else i - 1;
        assert m.children[i] == n.children[j] && WF(n.children[j]);
        assert j > n.index ==> n.children[j].Status().NotStarted?;
      }
    }
    WithAt(m.children, n.children, k, t, m.index);
    assert Shape(m);
  }

  lemma WithLength(us: seq<Action>, ts: seq<Action>, k: nat, t: Action)
    requires With(us, ts, k, t)
    ensures |us| == |ts| + 1 && k <= |ts|
  {
  }

  lemma AppendKeepsRunning(n: Container, t: Action)
    requires Running(n) && Fresh(t)
    ensures Running(Appended(n, t)) && Appended(n, t).index == n.index
    ensures Waits(Node(Appended(n, t))) == Waits(Node(n)) && Done(Node(Appended(n, t))) == Done(Node(n))
  {
    AddKeepsRunning(n, |n.children|, t);
    assert n.children[..|n.children|] + [t] + n.children[|n.children|..] == n.children + [t];
  }

  lemma InsertKeepsRunning(n: Container, t: Action)
    requires Running(n) && Fresh(t)
    ensures Running(Inserted(n, t)) && Inserted(n, t).index == n.index
    ensures Waits(Node(Inserted(n, t))) == Waits(Node(n)) && Done(Node(Inserted(n, t))) == Done(Node(n))
    ensures n.index <= Slot(n.children) <= n.index + 1
  {
    SlotOfRunning(n);
    AddKeepsRunning(n, Slot(n.children), t);
  }
}

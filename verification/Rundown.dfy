/** Offering the active connections to domains that outlive the shutdown (CAmActionRundown):
    a leaf that starts over with the next domain whenever one refuses, and the container
    that calls its finalizer when all leaves are done. */
module Rundown {
  import opened ActionTree
  import opened ActionInvariant
  import opened ActionRollback
  import ActionRuns

  // ------------------------------------------------------ who is asked

  datatype Domain = Domain(id: nat, independentRundown: bool, early: bool)

  /** The domains that run down independently, unless they are early. */
  function Kept(ds: seq<Domain>): (r: seq<Domain>)
    ensures forall d :: d in r <==> d in ds && d.independentRundown && !d.early
  {
    if ds == [] then []
    else if !ds[0].independentRundown || ds[0].early then Kept(ds[1..])
    else [ds[0]] + Kept(ds[1..])
  }

  lemma KeptSplits(a: seq<Domain>, b: seq<Domain>)
    ensures Kept(a + b) == Kept(a) + Kept(b)
  {
    if a == [] {
      assert a + b == b;
    } else {
      assert (a + b)[1..] == a[1..] + b;
      KeptSplits(a[1..], b);
    }
  }

  method SelectDomains(ds: seq<Domain>) returns (list: seq<Domain>)
    ensures list == Kept(ds)
  {
    list := ds;
    var i := 0;
    while i < |list|
      invariant 0 <= i <= |list| && Kept(list) == Kept(ds)
      invariant Kept(list[..i]) == list[..i]
      decreases |list| - i
    {
      var before, after := list[..i], list[i + 1..];
      assert list == before + ([list[i]] + after) && ([list[i]] + after)[1..] == after;
      KeptSplits(before, [list[i]] + after);
      KeptSplits(before, after);
      if !list[i].independentRundown || list[i].early {
        list := before + after;
        assert list[..i] == before;
      } else {
        assert list[..i + 1] == before + [list[i]];
        KeptSplits(before, [list[i]]);
        i := i + 1;
      }
    }
    assert list[..|list|] == list;
  }

  // ------------------------------------------------------ one transfer

  /** `at` is the domain iterator; `offered` lists the domains asked so far. */
  datatype Transfer = Transfer(status: Status, error: int, at: nat, offered: seq<nat>)

  /** _execute() from the domain iterator on: sends[k] says whether a request to domain k
      goes out at all. */
  function Offer(sends: seq<bool>, t: Transfer): Transfer
    requires t.at <= |sends|
    decreases |sends| - t.at
  {
    if t.at == |sends| then t.(status := Completed, error := 0)
    else
      var t1 := t.(offered := t.offered + [t.at]);
      if sends[t.at] then t1.(status := Executing, error := -1) else Offer(sends, t1.(at := t.at + 1))
  }

  function Begin(sends: seq<bool>): Transfer {
    Offer(sends, Transfer(NotStarted, 0, 0, []))
  }

  /** update() with an acknowledgement; nothing reaches a transfer that does not wait. */
  function Answered(sends: seq<bool>, t: Transfer, result: nat): Transfer
    requires t.status.Executing? ==> t.at < |sends|
  {
    if !t.status.Executing? then t
    else if result != 0 then Offer(sends, t.(status := NotStarted, at := t.at + 1))
    else t.(status := Completed, error := 0)
  }

  function UpTo(n: nat): seq<nat> {
    seq(n, i => i)
  }

  /** The domains have been asked in the order of the list, none left out and none twice,
      and the last one asked is the one that the transfer waits for or that accepted. */
  predicate InTurn(sends: seq<bool>, t: Transfer) {
    && t.at <= |sends|
    && (t.status.Executing? || t.status.Completed?)
    && (t.status.Executing? ==> t.at < |sends| && sends[t.at] && t.error < 0)
    && (t.status.Completed? ==> t.error == 0)
    && t.offered == UpTo(if t.at < |sends| then t.at + 1 else |sends|)
  }

  lemma {:induction false} OfferInTurn(sends: seq<bool>, t: Transfer)
    requires t.at <= |sends| && t.offered == UpTo(t.at)
    ensures InTurn(sends, Offer(sends, t)) && Offer(sends, t).at >= t.at
    ensures Offer(sends, t).status.Completed? ==> Offer(sends, t).at == |sends|
    decreases |sends| - t.at
  {
    if t.at < |sends| {
      assert t.offered + [t.at] == UpTo(t.at + 1);
      if !sends[t.at] { OfferInTurn(sends, t.(offered := t.offered + [t.at], at := t.at + 1)); }
    }
  }

  function Answers(sends: seq<bool>, t: Transfer, results: seq<nat>): Transfer
    requires InTurn(sends, t)
    decreases results
  {
    if results == [] then t
    else
      AnswerInTurn(sends, t, results[0]);
      Answers(sends, Answered(sends, t, results[0]), results[1..])
  }

  lemma AnswerInTurn(sends: seq<bool>, t: Transfer, result: nat)
    requires InTurn(sends, t)
    ensures InTurn(sends, Answered(sends, t, result))
    ensures t.status.Executing? && result != 0 ==> Answered(sends, t, result).at > t.at
    ensures Answered(sends, t, result).status.Completed? ==>
              t.status.Completed? || Answered(sends, t, result).at == if result == 0 then t.at else |sends|
  {
    if t.status.Executing? && result != 0 { OfferInTurn(sends, t.(status := NotStarted, at := t.at + 1)); }
  }

  /** The first answer to a pending offer that is not a refusal. */
  predicate Accepted(sends: seq<bool>, t: Transfer, results: seq<nat>)
    requires InTurn(sends, t)
    decreases results
  {
    results != [] && t.status.Executing? && (
      results[0] == 0 ||
      (AnswerInTurn(sends, t, results[0]); Accepted(sends, Answered(sends, t, results[0]), results[1..])))
  }

  /** Whatever the domains answer: each is asked at most once and in order, one answer for
      each domain that is left is enough, and the transfer ends with success. It stops
      short of the end of the list exactly when a domain has accepted. */
  lemma {:induction false} TransferEnds(sends: seq<bool>, t: Transfer, results: seq<nat>)
    requires InTurn(sends, t)
    ensures InTurn(sends, Answers(sends, t, results))
    ensures |results| >= |sends| - t.at ==> Answers(sends, t, results).status.Completed?
    ensures var r := Answers(sends, t, results);
            t.status.Executing? && r.status.Completed? ==> (r.at < |sends| <==> Accepted(sends, t, results))
    decreases results
  {
    if results != [] {
      var t1 := Answered(sends, t, results[0]);
      AnswerInTurn(sends, t, results[0]);
      TransferEnds(sends, t1, results[1..]);
      if t1.status.Completed? { CompletedStays(sends, t1, results[1..]); }
    }
  }

  lemma {:induction false} CompletedStays(sends: seq<bool>, t: Transfer, results: seq<nat>)
    requires InTurn(sends, t) && t.status.Completed?
    ensures Answers(sends, t, results) == t
    decreases results
  {
    if results != [] { CompletedStays(sends, t, results[1..]); }
  }

  class ActionTransfer {
    const sends: seq<bool>
    const controlled: bool
    var t: Transfer

    /** Without a control interface there is nobody to ask. */
    constructor (sends: seq<bool>, controlled: bool)
      ensures this.sends == (if controlled then sends else []) && this.controlled == controlled
      ensures t == Transfer(NotStarted, 0, 0, [])
    {
      this.sends := if controlled then sends else [];
      this.controlled := controlled;
      t := Transfer(NotStarted, 0, 0, []);
    }

    /** execute() with the loop of _execute() */
    method Execute()
      requires t.at <= |sends|
      modifies this
      ensures t == if old(t.status).NotStarted? then Offer(sends, old(t)) else old(t)
    {
      if t.status.NotStarted? {
        while t.at < |sends|
          invariant t.at <= |sends| && Offer(sends, t) == Offer(sends, old(t))
          decreases |sends| - t.at
        {
          t := t.(offered := t.offered + [t.at]);
          if sends[t.at] {
            t := t.(error := -1, status := Executing);
            return;
          }
          t := t.(at := t.at + 1);
        }
        t := t.(error := 0, status := Completed);
      }
    }

    /** update(): a refusal makes the action start over with the next domain. */
    method Update(result: nat)
      requires InTurn(sends, t)
      modifies this
      ensures InTurn(sends, t) && t == Answered(sends, old(t), result)
    {
      AnswerInTurn(sends, t, result);
      if t.status.Executing? {
        if result != 0 {
          t := t.(at := t.at + 1, status := NotStarted);
          Execute();
        } else {
          t := t.(error := 0, status := Completed);
        }
      }
    }
  }

  // ------------------------------------------------------ the finalizer

  /** How often a container runs its own _update() for a final result: whenever it has
      something to tell its observer. */
  function Finals(n: Container, step: ActionRuns.Step): nat {
    match step
    case Execute => if ExecContainer(n).note.Told? then 1 else 0
    case Rollback => if UndoContainer(n).note.Told? then 1 else 0
    case Acknowledge(result, ms) => if Deliver(Node(n), result, ms).note.Told? then 1 else 0
  }

  function AllFinals(s: ActionRuns.Run, steps: seq<ActionRuns.Step>): nat
    decreases steps
  {
    if steps == [] then 0 else Finals(s.root, steps[0]) + AllFinals(ActionRuns.Take(s, steps[0]), steps[1..])
  }

  predicate Forward(steps: seq<ActionRuns.Step>) {
    forall i | 0 <= i < |steps| :: !steps[i].Rollback?
  }

  predicate InProgress(n: Container) {
    n.status.NotStarted? || n.status.Executing?
  }

  lemma StepFinal(s: ActionRuns.Run, step: ActionRuns.Step)
    requires ActionRuns.Sound(s) && !ActionRuns.Backward(s.root) && !step.Rollback?
    ensures var s1 := ActionRuns.Take(s, step);
            && ActionRuns.Sound(s1) && !ActionRuns.Backward(s1.root)
            && (InProgress(s1.root) ==> InProgress(s.root))
            && Finals(s.root, step) == if InProgress(s.root) && !InProgress(s1.root) then 1 else 0
  {
    var t := Node(s.root);
    match step
    case Execute =>
      ActionRuns.ExecuteSound(s);
      if InProgress(s.root) { ExecRan(t); }
    case Acknowledge(result, ms) =>
      ActionRuns.AcknowledgeSound(s, result, ms);
      AtMostOneWaits(t);
      if Waits(t) == 1 && s.root.status.Executing? { DeliverRan(t, result, ms); }
          else { DeliverNobodyHere(t, result, ms); }
  }

  lemma DeliverNobodyHere(t: Action, result: nat, ms: nat)
    requires WF(t) && t.Node? && !t.Status().Undoing? && !(Waits(t) == 1 && t.Status().Executing?) && Waits(t) <= 1
    ensures Deliver(t, result, ms).state == t && Deliver(t, result, ms).note.Silent?
  {
    if t.Status().Executing? { DeliverNobody(t, result, ms); }
  }

  /** Until it comes to rest a container has not finalized, and then it has done so exactly
      once, however often it is executed again or acknowledged late. */
  lemma {:induction false} FinalizesOnce(s: ActionRuns.Run, steps: seq<ActionRuns.Step>)
    requires ActionRuns.Sound(s) && !ActionRuns.Backward(s.root) && Forward(steps)
    ensures AllFinals(s, steps) == if InProgress(s.root) && !InProgress(ActionRuns.TakeAll(s, steps).root) then 1 else 0
    ensures InProgress(ActionRuns.TakeAll(s, steps).root) ==> InProgress(s.root)
    decreases steps
  {
    if steps != [] {
      assert !steps[0].Rollback?;
      StepFinal(s, steps[0]);
      FinalizesOnce(ActionRuns.Take(s, steps[0]), steps[1..]);
    }
  }
}

/** Requests to the routing side and their acknowledgements: the store of handles
    (CAmHandleStore) and the leaf action that sets the volume of one element
    (CAmActionSetElementVolume on top of CAmActionCommand). */
module ElementVolume {
  import opened ActionTree
  import opened VolumeBalance
  import opened VolumeEffects
  import ConnectionTable

  const WAITING := -1

  // ------------------------------------------------------ handles

  type uint16 = x: int | 0 <= x < 0x1_0000

  datatype Handle = Handle(kind: uint16, number: uint16)

  /** The key of a handle, in 16 bits. */
  function Pack(h: Handle): uint16 {
    (h.kind * 0x400 + h.number) % 0x1_0000
  }

  /** How the store reads its keys back. */
  function Unpack(key: uint16): Handle {
    Handle(key / 0x400, key % 0x400)
  }

  /** A key stands for its handle exactly when the handle fits in 6 and 10 bits. */
  lemma PackRoundTrip(h: Handle)
    ensures Unpack(Pack(h)) == h <==> h.kind < 64 && h.number < 1024
  {
    if h.kind < 64 && h.number < 1024 {
      assert h.kind * 0x400 + h.number < 0x1_0000;
    }
  }

  lemma PackInjective(g: Handle, h: Handle)
    requires g.kind < 64 && g.number < 1024 && h.kind < 64 && h.number < 1024
    ensures Pack(g) == Pack(h) ==> g == h
  {
    PackRoundTrip(g);
    PackRoundTrip(h);
  }

  // ------------------------------------------------------ what is sent

  /** _setRoutingSideVolume(): muted, or the composed volume within the element's range. */
  function Sent(v: VolumeInfo, r: Range): int {
    if v.mute.Muted? then ConnectionTable.AM_MUTE else Min(r.max, Max(v.volume + v.offset, r.min))
  }

  lemma SentIsInRange(v: VolumeInfo, r: Range)
    requires r.min <= r.max
    ensures v.mute.Muted? ==> Sent(v, r) == ConnectionTable.AM_MUTE
    ensures !v.mute.Muted? ==> r.min <= Sent(v, r) <= r.max
    ensures !v.mute.Muted? && r.min <= v.volume + v.offset <= r.max ==> Sent(v, r) == v.volume + v.offset
    ensures !v.mute.Muted? && v.volume + v.offset > r.max ==> Sent(v, r) == r.max
    ensures !v.mute.Muted? && v.volume + v.offset < r.min ==> Sent(v, r) == r.min
  {
  }

  // ------------------------------------------------------ objects

  class Element {
    var info: VolumeInfo
    const supported: bool
    const range: Range

    constructor (info: VolumeInfo, supported: bool, range: Range)
      ensures this.info == info && this.supported == supported && this.range == range
    {
      this.info, this.supported, this.range := info, supported, range;
    }
  }

  class HandleStore {
    var handles: map<uint16, SetElementVolume?>

    constructor ()
      ensures handles == map[]
    {
      handles := map[];
    }

    method SaveHandle(h: Handle, a: SetElementVolume)
      modifies this
      ensures handles == old(handles)[Pack(h) := a]
    {
      handles := handles[Pack(h) := a];
    }

    method ClearHandle(h: Handle)
      modifies this
      ensures handles == old(handles) - {Pack(h)}
    {
      handles := handles - {Pack(h)};
    }

    /** An acknowledgement wakes the action that waits for it, and no other; if nobody
        waits for it, because it comes late or twice, nothing happens at all. */
    method NotifyAsyncResult(h: Handle, error: nat, ghost actions: set<SetElementVolume>)
      requires Consistent(this, actions)
      modifies this, actions, ElementsOf(actions)
      ensures Consistent(this, actions)
      ensures Pack(h) !in old(handles) ==>
                handles == old(handles) && AllSame(actions) && forall a | a in actions :: ElementSame(a)
      ensures Pack(h) in old(handles) ==>
                var a := old(handles)[Pack(h)];
                && a in actions && a.Woken(error) && handles == old(handles) - {Pack(h)} && AllSame(actions - {a})
                && forall b | b in actions && b.element != a.element :: ElementSame(b)
    {
      var key := Pack(h);
      if key in handles {
        var a := handles[key];
        if a != null {
          a.Update(error, actions);
        }
        handles := handles - {key};
      }
    }
  }

  ghost function ElementsOf(actions: set<SetElementVolume>): set<Element> {
    set a | a in actions && a.element != null :: a.element
  }

  twostate predicate AllSame(actions: set<SetElementVolume>)
    reads actions
  {
    forall a | a in actions :: a.Same()
  }

  twostate predicate ElementSame(a: SetElementVolume)
    reads a.element
  {
    a.element != null ==> a.element.info == old(a.element.info)
  }

  /** An action waits exactly while its handle leads to it. */
  ghost predicate Consistent(store: HandleStore, actions: set<SetElementVolume>)
    reads store, actions
  {
    && (forall a | a in actions :: a.store == store)
    && (forall key | key in store.handles ::
          var a := store.handles[key];
          a != null && a in actions && a.Waiting() && Pack(a.handle) == key)
    && (forall a | a in actions && a.Waiting() ::
          Pack(a.handle) in store.handles && store.handles[Pack(a.handle)] == a)
  }

  /** The states of all elements, and what all actions have memorized. */
  ghost function View(actions: set<SetElementVolume>): Routing<SetElementVolume, Element>
    reads actions`recent, ElementsOf(actions)`info
  {
    Routing(map e | e in ElementsOf(actions) :: e.info, map a | a in actions :: a.recent)
  }

  class SetElementVolume {
    const store: HandleStore
    const element: Element?
    const requested: VolumeInfo
    var recent: VolumeInfo
    var handle: Handle
    var status: Status
    var error: int

    constructor (store: HandleStore, element: Element?, requested: VolumeInfo)
      ensures this.store == store && this.element == element && this.requested == requested
      ensures status == NotStarted && error == 0 && recent == NO_DIFF && handle == Handle(0, 0)
    {
      this.store, this.element, this.requested := store, element, requested;
      recent, handle, status, error := NO_DIFF, Handle(0, 0), NotStarted, 0;
    }

    predicate Waiting()
      reads this
    {
      status == Executing || status == Undoing
    }

    predicate Controls()
    {
      element != null && element.supported
    }

    /** What _execute() returns if it finds the element in this state. */
    function Returned(info: VolumeInfo, answer: nat): int {
      if !Controls() || info == requested then 0 else if answer == 0 then WAITING else answer
    }

    /** What _undo() returns. */
    function ReturnedUndo(answer: nat): int {
      if answer == 0 then WAITING else answer
    }

    /** The action as a leaf of module ActionTree that will return these values. */
    ghost function AsCommand(execResult: int, undoResult: int): Command
      reads this
    {
      Command(0, status, error, INFINITE_TIMEOUT, 0, true, execResult, 0, undoResult)
    }

    function Wish(atOnce: bool, accepted: bool): Request<Element>
      requires element != null
    {
      Request(element, requested, atOnce, accepted)
    }

    /** What module VolumeTransaction assumes of an acknowledgement: the end of a run
        forward commits, the end of an undo restores, and a failure changes nothing. */
    twostate predicate Takes(actions: set<SetElementVolume>, result: nat)
      reads this, actions, ElementsOf(actions)
    {
      && AsCommand(0, 0) == UpdateCommand(old(AsCommand(0, 0)), result, 0)
      && (Controls() ==>
            && (old(status) == Executing && result == 0 && old(recent == element.info) ==>
                  View(actions) == CommitOne(old(View(actions)), this, Wish(false, false)))
            && (old(status) == Executing && result != 0 ==> View(actions) == old(View(actions)))
            && (old(status) == Undoing ==>
                  View(actions) == RestoreOne(old(View(actions)), this, Wish(false, true))))
    }

    twostate predicate Same()
      reads this
    {
      recent == old(recent) && handle == old(handle) && status == old(status) && error == old(error)
    }

    /** What an acknowledgement, or the timer with E_ABORTED, makes of a waiting action and
        of its element: only a success sets the requested state, and undoing always
        ends with the memorized one. */
    twostate predicate Woken(result: nat)
      reads this, element
    {
      && error == result && recent == old(recent) && handle == old(handle)
      && status == (if old(status) == Executing then Completed else UndoComplete)
      && (element != null ==>
            element.info == if !element.supported then old(element.info)
                            else if old(status) != Executing then recent
                            else if result == 0 then requested
                            else old(element.info))
    }

    /** _setRoutingSideVolume(): `answer` is what the routing side says at once, or
        E_NOT_POSSIBLE where there is no interface to it, and h the handle it assigns. */
    method Send(v: VolumeInfo, answer: nat, h: Handle) returns (result: int, sent: int)
      requires element != null
      modifies this`handle, store
      ensures sent == Sent(v, element.range)
      ensures answer == 0 ==> result == WAITING && handle == h && store.handles == old(store.handles)[Pack(h) := this]
      ensures answer != 0 ==> result == answer && handle == old(handle) && store.handles == old(store.handles)
    {
      sent := v.volume + v.offset;
      if v.mute == Muted {
        sent := ConnectionTable.AM_MUTE;
      } else {
        sent := Min(element.range.max, Max(sent, element.range.min));
      }
      if answer == 0 {
        handle := h;
        store.SaveHandle(handle, this);
        return WAITING, sent;
      }
      return answer, sent;
    }

    /** _execute() */
    method Run(answer: nat, h: Handle, ghost actions: set<SetElementVolume>) returns (result: int)
      requires this in actions
      modifies this`recent, this`handle, store
      ensures Controls() ==>
                && result == Returned(element.info, answer) && recent == element.info
                && View(actions) == CommitOne(old(View(actions)), this, Wish(true, false))
      ensures !Controls() ==> result == 0
      ensures result == WAITING ==> handle == h && store.handles == old(store.handles)[Pack(h) := this]
      ensures result != WAITING ==> handle == old(handle) && store.handles == old(store.handles)
    {
      result := 0;
      if element != null && element.supported {
        recent := element.info;
        if recent != requested {
          var sent;
          result, sent := Send(requested, answer, h);
        }
      }
    }

    /** execute() */
    method Execute(answer: nat, h: Handle, ghost actions: set<SetElementVolume>)
      requires this in actions && Consistent(store, actions) && Pack(h) !in store.handles
      modifies this, store
      ensures Consistent(store, actions)
      ensures old(status) != NotStarted ==> Same() && store.handles == old(store.handles)
      ensures old(status) == NotStarted ==>
                if !Controls() then status == Completed && error == 0 && store.handles == old(store.handles)
                else
                  && recent == element.info
                  && if element.info == requested
                      then status == Completed && error == 0 && store.handles == old(store.handles)
                     else if answer == 0 then
                       status == Executing && handle == h && store.handles == old(store.handles)[Pack(h) := this]
                     else status == Completed && error == answer && store.handles == old(store.handles)
      ensures Controls() ==>
                var x := Returned(element.info, answer);
                && AsCommand(x, 0) == ExecCommand(old(AsCommand(x, 0))).state
                && (old(status) == NotStarted ==>
                      && View(actions) == CommitOne(old(View(actions)), this, Wish(true, false))
                      && (x == 0 ==> element.info == requested) && (x < 0 ==> recent == element.info))
    {
      hide View, CommitOne;
      if status == NotStarted {
        var result := Run(answer, h, actions);
        error := result;
        status := if error >= 0 then Completed else Executing;
      }
    }

    /** undo(), which is always required for this action */
    method Undo(answer: nat, h: Handle, ghost actions: set<SetElementVolume>)
      requires this in actions && Consistent(store, actions) && Pack(h) !in store.handles && element != null
      modifies this, store
      ensures Consistent(store, actions) && recent == old(recent)
      ensures old(status) != Completed ==> Same() && store.handles == old(store.handles)
      ensures old(status) == Completed && answer == 0 ==>
                status == Undoing && handle == h && store.handles == old(store.handles)[Pack(h) := this]
      ensures old(status) == Completed && answer != 0 ==>
                status == UndoComplete && error == answer && store.handles == old(store.handles)
      ensures var u := ReturnedUndo(answer);
              && AsCommand(0, u) == UndoCommand(old(AsCommand(0, u))).state
              && View(actions) == old(View(actions))
              && (u >= 0 ==> View(actions) == RestoreOne(old(View(actions)), this, Wish(false, u < 0)))
    {
      if status == Completed {
        var result, sent := Send(recent, answer, h);
        error := result;
        status := if error >= 0 then UndoComplete else Undoing;
      }
    }

    /** _update(), in the state that the action ends in */
    method Finish(result: nat, ghost actions: set<SetElementVolume>)
      requires this in actions && (status == Completed || status == UndoComplete)
      modifies store, element
      ensures store.handles == old(store.handles) - {Pack(handle)}
      ensures element != null ==>
                element.info == if !element.supported then old(element.info)
                                else if status != Completed then recent
                                else if result == 0 then requested
                                else old(element.info)
      ensures Controls() ==>
                if status == UndoComplete then View(actions) == RestoreOne(old(View(actions)), this, Wish(false, true))
                else if result != 0 then View(actions) == old(View(actions))
                else
                  recent == old(element.info)
                  ==> View(actions) == CommitOne(old(View(actions)), this, Wish(false, false))
    {
      store.ClearHandle(handle);
      if element == null || !element.supported {
        return;
      }
      if result == 0 && status == Completed {
        element.info := requested;
      } else if status == UndoComplete {
        element.info := recent;
      }
    }

    /** update() of a waiting action; an expired timer calls it with E_ABORTED. */
    method Update(result: nat, ghost actions: set<SetElementVolume>)
      requires this in actions && Consistent(store, actions) && Waiting()
      modifies this, store, element
      ensures Consistent(store, actions) && Woken(result) && Takes(actions, result)
      ensures store.handles == old(store.handles) - {Pack(handle)}
    {
      hide View, CommitOne, RestoreOne;
      error := result;
      status := if status == Executing then Completed else UndoComplete;
      Finish(result, actions);
    }

    /** timeout(): whoever acknowledges afterwards finds no entry for the handle. */
    method Timeout(ghost actions: set<SetElementVolume>)
      requires this in actions && Consistent(store, actions) && Waiting()
      modifies this, store, element
      ensures Consistent(store, actions) && Woken(E_ABORTED) && Takes(actions, E_ABORTED)
      ensures Pack(handle) !in store.handles
    {
      Update(E_ABORTED, actions);
    }
  }
}

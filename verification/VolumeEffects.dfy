/** What a leaf that sets the volume of one element does to the cached states, when it
    completes and when it is undone. Leaves and elements may be objects or just names. */
module VolumeEffects {
  import opened VolumeBalance

  /** What a leaf is to do; whether it answers execute() at once with success, and whether
      its undo request is accepted. */
  datatype Request<E> = Request(element: E, target: VolumeInfo, atOnce: bool, accepted: bool)

  /** The cached states of the elements, and what each leaf has memorized. */
  datatype Routing<L, E> = Routing(cells: map<E, VolumeInfo>, recent: map<L, VolumeInfo>)

  /** A leaf completes with success: it has memorized the state it found, and has changed
      it unless it answered at once. */
  function CommitOne<L(==), E(==)>(r: Routing<L, E>, id: L, q: Request<E>): Routing<L, E> {
    if q.element !in r.cells then r
    else Routing(if q.atOnce then r.cells else r.cells[q.element := q.target], r.recent[id := r.cells[q.element]])
  }

  /** A leaf is undone. */
  function RestoreOne<L(==), E(==)>(r: Routing<L, E>, id: L, q: Request<E>): Routing<L, E> {
    if q.accepted && q.element in r.cells && id in r.recent then r.(cells := r.cells[q.element := r.recent[id]])
    else r
  }
}

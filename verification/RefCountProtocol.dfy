/**
  `ref_counted` and `intrusive_ptr` as interleaved steps: any number of objects, smart pointers and releases in
  progress. Every smart pointer is used by one thread at a time, so reading a pointer to copy and adding the reference
  is one step; releasing is not: uniqueness is checked in one step and the count decremented in another.
 */
module RefCountProtocol {
  import opened Lists
  import opened Counting

  type ObjectId = int
  type HolderId = int

  const SIZE_RANGE: int := 0x1_0000_0000_0000_0000

  /** `size_t` arithmetic wraps around. */
  function Size(v: int): nat { v % SIZE_RANGE }

  /** What may own a reference: a smart pointer, a raw pointer given out by `detach`, a `deref` in progress. */
  datatype Holder =
    | Pointer(to: Option<ObjectId>)
    | Raw(target: ObjectId)
    | Checking(target: ObjectId)       // before unique()
    | Decrementing(target: ObjectId)   // before fetch_sub
    | Deleting(target: ObjectId)       // before delete

  datatype State = State(
    counts: map<ObjectId, nat>,        // the objects that exist, and their counts
    unowned: set<ObjectId>,              // made by new, not yet given to a smart pointer
    holders: map<HolderId, Holder>,
    deleted: seq<ObjectId>)

  datatype Action =
    | New(target: ObjectId)
    | Construct(p: HolderId, target: ObjectId)          // intrusive_ptr(raw_ptr) of a new object
    | Default(p: HolderId)
    | Copy(p: HolderId, from: HolderId)
    | Move(p: HolderId, from: HolderId)
    | Swap(p: HolderId, q: HolderId)
    | Detach(p: HolderId, raw: HolderId)
    | Attach(p: HolderId, raw: HolderId)                // intrusive_ptr(raw_ptr, false)
    | Reset(p: HolderId, release: HolderId)             // reset()
    | ResetTo(p: HolderId, from: HolderId, release: HolderId)      // reset(raw), operator=(const intrusive_ptr&)
    | ResetFresh(p: HolderId, target: ObjectId, release: HolderId) // reset(new T)
    | ResetRaw(p: HolderId, raw: HolderId, release: HolderId)      // reset(raw, false)
    | AssignMove(p: HolderId, from: HolderId, release: HolderId)
    | Destroy(p: HolderId, release: HolderId)
    | Advance(release: HolderId)

  predicate IsPointer(s: State, p: HolderId) { p in s.holders && s.holders[p].Pointer? }

  predicate IsRaw(s: State, p: HolderId) { p in s.holders && s.holders[p].Raw? }

  predicate Unused(s: State, p: HolderId) { p !in s.holders && |s.holders| < SIZE_RANGE - 2 }

  predicate IsUnowned(s: State, target: ObjectId) { target in s.unowned && target in s.counts }

  /** The object whose count the step reads or writes exists. */
  predicate Alive(s: State, o: Option<ObjectId>) { o.Some? ==> o.value in s.counts }

  predicate Enabled(s: State, a: Action) {
    match a
    case New(o) => o !in s.counts && o !in s.deleted
    case Construct(p, o) => Unused(s, p) && IsUnowned(s, o)
    case Default(p) => Unused(s, p)
    case Copy(p, from) => Unused(s, p) && IsPointer(s, from) && Alive(s, s.holders[from].to)
    case Move(p, from) => Unused(s, p) && IsPointer(s, from)
    case Swap(p, q) => IsPointer(s, p) && IsPointer(s, q)
    case Detach(p, raw) => IsPointer(s, p) && s.holders[p].to.Some? && Unused(s, raw)
    case Attach(p, raw) => Unused(s, p) && IsRaw(s, raw)
    case Reset(p, r) => IsPointer(s, p) && Unused(s, r)
    case ResetTo(p, from, r) => IsPointer(s, p) && IsPointer(s, from) && Unused(s, r) && Alive(s, s.holders[from].to)
    case ResetFresh(p, o, r) => IsPointer(s, p) && IsUnowned(s, o) && Unused(s, r)
    case ResetRaw(p, raw, r) => IsPointer(s, p) && IsRaw(s, raw) && Unused(s, r)
    case AssignMove(p, from, r) => IsPointer(s, p) && IsPointer(s, from) && Unused(s, r)
    case Destroy(p, r) => IsPointer(s, p) && Unused(s, r)
    case Advance(r) => r in s.holders && !s.holders[r].Pointer? && !s.holders[r].Raw? && s.holders[r].target in s.counts
  }

  function Put(s: State, p: HolderId, h: Holder): State { s.(holders := s.holders[p := h]) }

  function Drop(s: State, p: HolderId): State { s.(holders := s.holders - {p}) }

  /** `ref()`. */
  function AddRef(s: State, o: Option<ObjectId>): State
    requires Alive(s, o)
  {
    if o.None? then s else s.(counts := s.counts[o.value := Size(s.counts[o.value] + 1)])
  }

  /** `if (old) intrusive_ptr_release(old)`: a release in progress owns the reference from now on. */
  function Release(s: State, o: Option<ObjectId>, r: HolderId): State {
    if o.None? then s else Put(s, r, Checking(o.value))
  }

  /** One atomic access of `deref`. */
  function Deref(s: State, r: HolderId): State
    requires Enabled(s, Advance(r))
  {
    var o := s.holders[r].target;
    match s.holders[r]
    case Checking(_) => Put(s, r, if s.counts[o] == 1 then Deleting(o) else Decrementing(o))
    case Decrementing(_) =>
      var count: int := s.counts[o];
      var t := s.(counts := s.counts[o := Size(count - 1)]);
      if s.counts[o] == 1 then Put(t, r, Deleting(o)) else Drop(t, r)
    case Deleting(_) => Drop(s, r).(counts := s.counts - {o}, deleted := s.deleted + [o])
    case _ => s
  }

  function Apply(s: State, a: Action): State
    requires Enabled(s, a)
  {
    match a
    case New(o) => s.(counts := s.counts[o := 0], unowned := s.unowned + {o})
    case Construct(p, o) => AddRef(Put(s.(unowned := s.unowned - {o}), p, Pointer(Some(o))), Some(o))
    case Default(p) => Put(s, p, Pointer(None))
    case Copy(p, from) => AddRef(Put(s, p, s.holders[from]), s.holders[from].to)
    case Move(p, from) => Put(Put(s, p, s.holders[from]), from, Pointer(None))
    case Swap(p, q) => Put(Put(s, p, s.holders[q]), q, s.holders[p])
    case Detach(p, raw) => Put(Put(s, raw, Raw(s.holders[p].to.value)), p, Pointer(None))
    case Attach(p, raw) => Put(Drop(s, raw), p, Pointer(Some(s.holders[raw].target)))
    case Reset(p, r) => Release(Put(s, p, Pointer(None)), s.holders[p].to, r)
    case ResetTo(p, from, r) => Release(AddRef(Put(s, p, s.holders[from]), s.holders[from].to), s.holders[p].to, r)
    case ResetFresh(p, o, r) =>
      Release(AddRef(Put(s.(unowned := s.unowned - {o}), p, Pointer(Some(o))), Some(o)), s.holders[p].to, r)
    case ResetRaw(p, raw, r) => Release(Put(Drop(s, raw), p, Pointer(Some(s.holders[raw].target))), s.holders[p].to, r)
    case AssignMove(p, from, r) =>
      if p == from then s
      else Release(Put(Put(s, p, s.holders[from]), from, Pointer(None)), s.holders[p].to, r)
    case Destroy(p, r) => Release(Drop(s, p), s.holders[p].to, r)
    case Advance(r) => Deref(s, r)
  }

  function Initial(): State { State(map[], {}, map[], []) }

  ghost predicate Leads(s: State, actions: seq<Action>, t: State)
    decreases |actions|
  {
    if actions == [] then s == t
    else Enabled(s, actions[0]) && Leads(Apply(s, actions[0]), actions[1..], t)
  }

  ghost predicate Reaches(actions: seq<Action>, s: State) { Leads(Initial(), actions, s) }

  /** The object a holder owns a reference to. */
  function Owned(h: Holder): Option<ObjectId> {
    match h
    case Pointer(to) => to
    case Raw(o) => Some(o)
    case Checking(o) => Some(o)
    case Decrementing(o) => Some(o)
    case Deleting(_) => None
  }

  function Owns(o: ObjectId): Holder -> bool { (h: Holder) => Owned(h) == Some(o) }

  function Deletes(o: ObjectId): Holder -> bool { (h: Holder) => h == Deleting(o) }

  function Owners(s: State, o: ObjectId): nat { Total(s.holders, Owns(o)) }

  function Deleters(s: State, o: ObjectId): nat { Total(s.holders, Deletes(o)) }
}

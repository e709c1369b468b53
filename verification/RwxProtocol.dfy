/**
  `RWXSpinlock` and `RWXLocker` as interleaved atomic steps: any number of spinlocks and lockers, where each locker is
  used by one thread at a time. A bare `try_r_lock`, `try_w_lock` or `try_x_lock` is an attempt on behalf of a locker
  that stays unlocked when the attempt fails.
 */
module RwxProtocol {
  import opened Counting
  import opened Lists

  type LockId = int
  type LockerId = int

  const MIN_LONG: int := -0x8000_0000_0000_0000
  const MAX_LOCKERS: int := 0x4000_0000_0000_0000

  /** The value of a `long` after an atomic addition, which wraps around. */
  function Long(v: int): int { (v - MIN_LONG) % 0x1_0000_0000_0000_0000 + MIN_LONG }

  datatype Mode = No | Read | Write | Exclusive

  /** The program counter of the thread using the locker; `v` is its last look at the word. */
  datatype Pc = Idle | Locking(v: int) | Trying(v: int) | TryUpgrading(v: int) | Upgrading(v: int)

  datatype Locker = Locker(lock: Option<LockId>, mode: Mode, pc: Pc)

  datatype State = State(flags: map<LockId, int>, lockers: map<LockerId, Locker>)

  datatype Action =
    | NewLock(lock: LockId)
    | Default(locker: LockerId)
    | Construct(locker: LockerId, lock: LockId, mode: Mode)
    | TryLock(locker: LockerId, lock: LockId, mode: Mode)
    | MoveConstruct(locker: LockerId, from: LockerId)
    | Assign(locker: LockerId, from: LockerId)
    | Unlock(locker: LockerId)
    | TryUpgrade(locker: LockerId)
    | UpgradeToX(locker: LockerId)
    | Destroy(locker: LockerId)
    | Advance(locker: LockerId, spurious: bool)

  predicate IsIdle(s: State, l: LockerId) { l in s.lockers && s.lockers[l].pc.Idle? }

  /** The spinlock a locker refers to exists whenever a mode is recorded. */
  predicate Bound(s: State, l: Locker) {
    if l.lock.Some? then l.lock.value in s.flags else l.mode.No? && l.pc.Idle?
  }

  predicate Enabled(s: State, a: Action) {
    match a
    case NewLock(k) => k !in s.flags
    case Default(l) => l !in s.lockers && |s.lockers| < MAX_LOCKERS - 1
    case Construct(l, k, _) => l !in s.lockers && |s.lockers| < MAX_LOCKERS - 1 && k in s.flags
    case TryLock(l, k, m) => l !in s.lockers && |s.lockers| < MAX_LOCKERS - 1 && k in s.flags && !m.No?
    case MoveConstruct(l, from) => l !in s.lockers && |s.lockers| < MAX_LOCKERS - 1 && IsIdle(s, from)
    case Assign(l, from) => IsIdle(s, l) && IsIdle(s, from) && Bound(s, s.lockers[l])
    case Unlock(l) => IsIdle(s, l) && Bound(s, s.lockers[l])
    case TryUpgrade(l) => IsIdle(s, l) && Bound(s, s.lockers[l])
    case UpgradeToX(l) =>
      IsIdle(s, l) && Bound(s, s.lockers[l]) && (s.lockers[l].mode.Write? || s.lockers[l].mode.Exclusive?)
    case Destroy(l) => IsIdle(s, l) && Bound(s, s.lockers[l])
    case Advance(l, _) => l in s.lockers && !s.lockers[l].pc.Idle? && Bound(s, s.lockers[l])
  }

  function Put(s: State, l: LockerId, x: Locker): State { s.(lockers := s.lockers[l := x]) }

  function SetFlag(s: State, k: LockId, v: int): State { s.(flags := s.flags[k := v]) }

  const EMPTY: Locker := Locker(None, No, Idle)

  /** `RWXLocker::unlock`: one atomic access, chosen by the recorded mode, which is then cleared. */
  function Release(s: State, l: LockerId): State
    requires l in s.lockers && Bound(s, s.lockers[l])
  {
    var x := s.lockers[l];
    var t := Put(s, l, x.(mode := No));
    match x.mode
    case No => t
    case Read => SetFlag(t, x.lock.value, Long(s.flags[x.lock.value] - 2))
    case Write => SetFlag(t, x.lock.value, Long(s.flags[x.lock.value] - 1))
    case Exclusive => SetFlag(t, x.lock.value, 0)
  }

  /** The fields after the `unlock` of a move assignment, field by field: `from` may be the locker itself. */
  function Transfer(s: State, l: LockerId, from: LockerId): State
    requires l in s.lockers && from in s.lockers
  {
    var one := Put(s, l, s.lockers[l].(lock := s.lockers[from].lock));
    var two := Put(one, from, one.lockers[from].(lock := None));
    var three := Put(two, l, two.lockers[l].(mode := two.lockers[from].mode));
    Put(three, from, three.lockers[from].(mode := No))
  }

  /** Whether the word lets the mode in, and the word after that. */
  predicate Admits(v: int, m: Mode) {
    match m
    case No => false
    case Read => v >= 0 && v % 2 == 0
    case Write => v >= 0 && v % 2 == 0
    case Exclusive => v == 0
  }

  function Entered(v: int, m: Mode): int {
    match m
    case No => v
    case Read => Long(v + 2)
    case Write => Long(v + 1)
    case Exclusive => MIN_LONG
  }

  /** One atomic access of the call in progress: a load, or a weak CAS that may fail without reason. */
  function Step(s: State, l: LockerId, spurious: bool): State
    requires l in s.lockers && Bound(s, s.lockers[l]) && !s.lockers[l].pc.Idle?
  {
    var x := s.lockers[l];
    var k := x.lock.value;
    var flag := s.flags[k];
    match x.pc
    case Idle => s
    case Locking(v) =>
      if Admits(v, x.mode) && !spurious && flag == v
      then SetFlag(Put(s, l, x.(pc := Idle)), k, Entered(v, x.mode))
      else Put(s, l, x.(pc := Locking(flag)))
    case Trying(v) =>
      if Admits(v, x.mode) && !spurious && flag == v
      then SetFlag(Put(s, l, x.(pc := Idle)), k, Entered(v, x.mode))
      else Put(s, l, x.(pc := Idle, mode := No))
    case TryUpgrading(v) =>
      if v >= 0 && v % 2 == 0 && !spurious && flag == v
      then SetFlag(Put(s, l, x.(pc := Idle, mode := Write)), k, Long(v - 1))
      else Put(s, l, x.(pc := Idle))
    case Upgrading(v) =>
      if v == 1 && !spurious && flag == v
      then SetFlag(Put(s, l, x.(pc := Idle, mode := Exclusive)), k, MIN_LONG)
      else Put(s, l, x.(pc := Upgrading(flag)))
  }

  function Apply(s: State, a: Action): State
    requires Enabled(s, a)
  {
    match a
    case NewLock(k) => SetFlag(s, k, 0)
    case Default(l) => Put(s, l, EMPTY)
    case Construct(l, k, m) => Put(s, l, Locker(Some(k), m, if m.No? then Idle else Locking(s.flags[k])))
    case TryLock(l, k, m) => Put(s, l, Locker(Some(k), m, Trying(s.flags[k])))
    case MoveConstruct(l, from) => Put(Put(s, l, s.lockers[from]), from, EMPTY)
    case Assign(l, from) => Transfer(Release(s, l), l, from)
    case Unlock(l) => Release(s, l)
    case TryUpgrade(l) =>
      var x := s.lockers[l];
      if x.mode.Read? then Put(s, l, x.(pc := TryUpgrading(s.flags[x.lock.value]))) else s
    case UpgradeToX(l) =>
      var x := s.lockers[l];
      if x.mode.Write? then Put(s, l, x.(pc := Upgrading(s.flags[x.lock.value]))) else s
    case Destroy(l) => var t := Release(s, l); t.(lockers := t.lockers - {l})
    case Advance(l, spurious) => Step(s, l, spurious)
  }

  function Initial(): State { State(map[], map[]) }

  ghost predicate Leads(s: State, actions: seq<Action>, t: State)
    decreases |actions|
  {
    if actions == [] then s == t
    else Enabled(s, actions[0]) && Leads(Apply(s, actions[0]), actions[1..], t)
  }

  ghost predicate Reaches(actions: seq<Action>, s: State) { Leads(Initial(), actions, s) }

  // ---------------------------------------------------------------- who holds what

  /** The mode a locker holds: what it records, except while it is still acquiring that. */
  function Held(x: Locker): Mode { if x.pc.Locking? || x.pc.Trying? then No else x.mode }

  /** Whether a locker holds a spinlock in a mode. */
  function Holds(k: LockId, m: Mode): Locker -> bool { (x: Locker) => x.lock == Some(k) && Held(x) == m }

  function Readers(s: State, k: LockId): nat { Total(s.lockers, Holds(k, Read)) }

  function Writers(s: State, k: LockId): nat { Total(s.lockers, Holds(k, Write)) }

  function Exclusives(s: State, k: LockId): nat { Total(s.lockers, Holds(k, Exclusive)) }
}

/** What the spinlock and its lockers promise, over every run. */
module RwxTheorems {
  import opened Counting
  import opened Lists
  import opened RwxProtocol

  /** The word says who is in: one exclusive locker alone, or the readers and at most one writer. */
  ghost predicate FlagOk(s: State, k: LockId)
    requires k in s.flags
  {
    if Exclusives(s, k) > 0 then
      Exclusives(s, k) == 1 && Readers(s, k) == Writers(s, k) == 0 && s.flags[k] == MIN_LONG
    else
      Writers(s, k) <= 1 && s.flags[k] == 2 * Readers(s, k) + Writers(s, k)
  }

  ghost predicate LockerOk(s: State, l: LockerId)
    requires l in s.lockers
  {
    var x := s.lockers[l];
    && Bound(s, x)
    && match x.pc
       case Idle => true
       case Locking(_) => !x.mode.No?
       case Trying(_) => !x.mode.No?
       case TryUpgrading(_) => x.mode.Read?
       case Upgrading(_) => x.mode.Write?
  }

  ghost predicate Inv(s: State) {
    && |s.lockers| < MAX_LOCKERS
    && (forall l | l in s.lockers :: LockerOk(s, l))
    && (forall k | k in s.flags :: FlagOk(s, k))
  }

  // ---------------------------------------------------------------- one locker changes

  function After(s: State, l: LockerId, x: Locker, k: LockId, m: Mode): int {
    Total(s.lockers, Holds(k, m)) - One(s.lockers, l, Holds(k, m)) + if Holds(k, m)(x) then 1 else 0
  }

  /** What a word has to be for given counts. */
  predicate Describes(flag: int, readers: int, writers: int, exclusives: int) {
    if exclusives > 0 then exclusives == 1 && readers == writers == 0 && flag == MIN_LONG
    else exclusives == 0 && 0 <= writers <= 1 && readers >= 0 && flag == 2 * readers + writers
  }

  lemma OneChanges(s: State, l: LockerId, x: Locker, flags: map<LockId, int>)
    requires Inv(s) && flags.Keys == s.flags.Keys && |Put(s, l, x).lockers| < MAX_LOCKERS
    requires LockerOk(Put(s, l, x).(flags := flags), l)
    requires forall k | k in flags :: Describes(flags[k], After(s, l, x, k, Read), After(s, l, x, k, Write), After(s, l, x, k, Exclusive))
    ensures Inv(Put(s, l, x).(flags := flags))
  {
    var t := Put(s, l, x).(flags := flags);
    forall k | k in t.flags ensures FlagOk(t, k) {
      PutTotal(s.lockers, l, x, Holds(k, Read));
      PutTotal(s.lockers, l, x, Holds(k, Write));
      PutTotal(s.lockers, l, x, Holds(k, Exclusive));
    }
    forall other | other in t.lockers ensures LockerOk(t, other) {
      if other != l {
        assert LockerOk(s, other);
      }
    }
  }

  /** A step that changes nobody's mode and no word. */
  lemma NothingHeld(s: State, l: LockerId, x: Locker)
    requires Inv(s) && |Put(s, l, x).lockers| < MAX_LOCKERS && LockerOk(Put(s, l, x), l)
    requires forall k: LockId, m: Mode | !m.No? :: (if Holds(k, m)(x) then 1 else 0) == One(s.lockers, l, Holds(k, m))
    ensures Inv(Put(s, l, x))
  {
    forall k | k in s.flags
      ensures Describes(s.flags[k], After(s, l, x, k, Read), After(s, l, x, k, Write), After(s, l, x, k, Exclusive))
    {
      assert FlagOk(s, k);
    }
    OneChanges(s, l, x, s.flags);
    assert Put(s, l, x).(flags := s.flags) == Put(s, l, x);
  }

  lemma SameSize(s: State, l: LockerId, x: Locker)
    ensures |Put(s, l, x).lockers| == |s.lockers| + if l in s.lockers then 0 else 1
  {
    PutSize(s.lockers, l, x);
  }

  /** The locker changes its mode on its own spinlock, and the word with it. */
  lemma ModeChanges(s: State, l: LockerId, x: Locker, k: LockId, flag: int)
    requires Inv(s) && l in s.lockers && s.lockers[l].lock == Some(k) == x.lock && k in s.flags
    requires LockerOk(Put(s, l, x), l)
    requires Describes(flag, After(s, l, x, k, Read), After(s, l, x, k, Write), After(s, l, x, k, Exclusive))
    ensures Inv(SetFlag(Put(s, l, x), k, flag))
  {
    var flags := s.flags[k := flag];
    forall j | j in flags
      ensures Describes(flags[j], After(s, l, x, j, Read), After(s, l, x, j, Write), After(s, l, x, j, Exclusive))
    {
      assert FlagOk(s, j);
    }
    assert Put(s, l, x).lockers.Keys == s.lockers.Keys;
    SameSize(s, l, x);
    OneChanges(s, l, x, flags);
  }

  lemma LongExact(v: int)
    requires MIN_LONG <= v < -MIN_LONG
    ensures Long(v) == v
  {
  }

  // ---------------------------------------------------------------- the steps

  lemma EntersKeeps(s: State, l: LockerId)
    requires Inv(s) && l in s.lockers && (s.lockers[l].pc.Locking? || s.lockers[l].pc.Trying?)
    requires LockerOk(s, l) && Admits(s.flags[s.lockers[l].lock.value], s.lockers[l].mode)
    ensures var x := s.lockers[l];
            Inv(SetFlag(Put(s, l, x.(pc := Idle)), x.lock.value, Entered(s.flags[x.lock.value], x.mode)))
  {
    var x := s.lockers[l];
    var k := x.lock.value;
    assert FlagOk(s, k);
    TotalBounds(s.lockers, l, Holds(k, Read));
    if !x.mode.Exclusive? {
      LongExact(s.flags[k] + 2);
      LongExact(s.flags[k] + 1);
    }
    ModeChanges(s, l, x.(pc := Idle), k, Entered(s.flags[k], x.mode));
  }

  lemma UpgradesKeep(s: State, l: LockerId)
    requires Inv(s) && l in s.lockers && LockerOk(s, l)
    ensures var x := s.lockers[l];
            x.pc.TryUpgrading? && s.flags[x.lock.value] >= 0 && s.flags[x.lock.value] % 2 == 0 ==>
              Inv(SetFlag(Put(s, l, x.(pc := Idle, mode := Write)), x.lock.value, Long(s.flags[x.lock.value] - 1)))
    ensures var x := s.lockers[l];
            x.pc.Upgrading? && s.flags[x.lock.value] == 1 ==>
              Inv(SetFlag(Put(s, l, x.(pc := Idle, mode := Exclusive)), x.lock.value, MIN_LONG))
  {
    var x := s.lockers[l];
    if x.pc.TryUpgrading? || x.pc.Upgrading? {
      var k := x.lock.value;
      assert FlagOk(s, k);
      TotalBounds(s.lockers, l, Holds(k, x.mode));
      TotalBounded(s.lockers, Holds(k, Read));
      if x.pc.TryUpgrading? && s.flags[k] >= 0 && s.flags[k] % 2 == 0 {
        ModeChanges(s, l, x.(pc := Idle, mode := Write), k, Long(s.flags[k] - 1));
      }
      if x.pc.Upgrading? && s.flags[k] == 1 {
        ModeChanges(s, l, x.(pc := Idle, mode := Exclusive), k, MIN_LONG);
      }
    }
  }

  /** A step after which the locker holds what it held. */
  lemma StaysKeeps(s: State, l: LockerId, x: Locker)
    requires Inv(s) && l in s.lockers && LockerOk(Put(s, l, x), l)
    requires Held(x) == Held(s.lockers[l]) && x.lock == s.lockers[l].lock
    ensures Inv(Put(s, l, x))
  {
    SameSize(s, l, x);
    NothingHeld(s, l, x);
  }

  lemma EnterStepKeeps(s: State, l: LockerId, spurious: bool)
    requires Inv(s) && Enabled(s, Advance(l, spurious)) && LockerOk(s, l)
    requires s.lockers[l].pc.Locking? || s.lockers[l].pc.Trying?
    ensures Inv(Step(s, l, spurious))
  {
    var x := s.lockers[l];
    var flag := s.flags[x.lock.value];
    if Admits(x.pc.v, x.mode) && !spurious && flag == x.pc.v {
      EntersKeeps(s, l);
    } else if x.pc.Locking? {
      StaysKeeps(s, l, x.(pc := Locking(flag)));
    } else {
      StaysKeeps(s, l, x.(pc := Idle, mode := No));
    }
  }

  lemma UpgradeStepKeeps(s: State, l: LockerId, spurious: bool)
    requires Inv(s) && Enabled(s, Advance(l, spurious)) && LockerOk(s, l)
    requires s.lockers[l].pc.TryUpgrading? || s.lockers[l].pc.Upgrading?
    ensures Inv(Step(s, l, spurious))
  {
    var x := s.lockers[l];
    var flag := s.flags[x.lock.value];
    UpgradesKeep(s, l);
    StaysKeeps(s, l, x.(pc := Idle));
    if x.pc.Upgrading? {
      StaysKeeps(s, l, x.(pc := Upgrading(flag)));
    }
  }

  lemma AdvanceKeeps(s: State, l: LockerId, spurious: bool)
    requires Inv(s) && Enabled(s, Advance(l, spurious))
    ensures Inv(Step(s, l, spurious))
  {
    assert LockerOk(s, l);
    if s.lockers[l].pc.Locking? || s.lockers[l].pc.Trying? {
      EnterStepKeeps(s, l, spurious);
    } else {
      UpgradeStepKeeps(s, l, spurious);
    }
  }

  /** `unlock` gives back exactly what the locker holds. */
  lemma ReleaseKeeps(s: State, l: LockerId)
    requires Inv(s) && IsIdle(s, l)
    ensures LockerOk(s, l) && Inv(Release(s, l))
  {
    assert LockerOk(s, l);
    var x := s.lockers[l];
    SameSize(s, l, x.(mode := No));
    if x.mode.No? {
      NothingHeld(s, l, x.(mode := No));
    } else {
      var k := x.lock.value;
      assert FlagOk(s, k);
      TotalBounds(s.lockers, l, Holds(k, x.mode));
      TotalBounded(s.lockers, Holds(k, Read));
      ModeChanges(s, l, x.(mode := No), k, Release(s, l).flags[k]);
    }
  }

  lemma MovedCounts(s: State, l: LockerId, from: LockerId, k: LockId, m: Mode)
    requires from in s.lockers && l != from && !m.No?
    requires l in s.lockers ==> s.lockers[l].pc.Idle? && s.lockers[l].mode.No?
    ensures Total(Put(Put(s, l, s.lockers[from]), from, EMPTY).lockers, Holds(k, m)) == Total(s.lockers, Holds(k, m))
  {
    PutTotal(s.lockers, l, s.lockers[from], Holds(k, m));
    PutTotal(Put(s, l, s.lockers[from]).lockers, from, EMPTY, Holds(k, m));
  }

  /** Moving the fields from one locker to another moves the mode with them. */
  lemma MovesKeep(s: State, l: LockerId, from: LockerId)
    requires Inv(s) && IsIdle(s, from) && l != from && (l in s.lockers || |s.lockers| < MAX_LOCKERS - 1)
    requires l in s.lockers ==> s.lockers[l].pc.Idle? && s.lockers[l].mode.No?
    ensures Inv(Put(Put(s, l, s.lockers[from]), from, EMPTY))
  {
    var x := s.lockers[from];
    assert LockerOk(s, from);
    var one := Put(s, l, x);
    var two := Put(one, from, EMPTY);
    SameSize(s, l, x);
    SameSize(one, from, EMPTY);
    forall k | k in two.flags ensures FlagOk(two, k) {
      assert FlagOk(s, k);
      MovedCounts(s, l, from, k, Read);
      MovedCounts(s, l, from, k, Write);
      MovedCounts(s, l, from, k, Exclusive);
    }
    forall other | other in two.lockers ensures LockerOk(two, other) {
      if other != l && other != from {
        assert LockerOk(s, other);
      }
    }
  }

  /** Field by field, a move assignment to an unlocked locker moves the whole locker; to itself, it forgets the spinlock. */
  lemma TransferMoves(s: State, l: LockerId, from: LockerId)
    requires IsIdle(s, l) && IsIdle(s, from) && s.lockers[l].mode.No?
    ensures Transfer(s, l, from) == if l == from then Put(s, l, EMPTY) else Put(Put(s, l, s.lockers[from]), from, EMPTY)
  {
    assert Transfer(s, l, from).lockers ==
           if l == from then s.lockers[l := EMPTY] else s.lockers[l := s.lockers[from]][from := EMPTY];
  }

  lemma AssignKeeps(s: State, l: LockerId, from: LockerId)
    requires Inv(s) && IsIdle(s, l) && IsIdle(s, from)
    ensures LockerOk(s, l) && Inv(Transfer(Release(s, l), l, from))
  {
    ReleaseKeeps(s, l);
    var r := Release(s, l);
    TransferMoves(r, l, from);
    if l == from {
      SameSize(r, l, EMPTY);
      NothingHeld(r, l, EMPTY);
    } else {
      MovesKeep(r, l, from);
    }
  }

  lemma RemovedFlag(s: State, l: LockerId, k: LockId)
    requires k in s.flags && FlagOk(s, k) && l in s.lockers && Held(s.lockers[l]).No?
    ensures FlagOk(s.(lockers := s.lockers - {l}), k)
  {
    RemoveTotal(s.lockers, l, Holds(k, Read));
    RemoveTotal(s.lockers, l, Holds(k, Write));
    RemoveTotal(s.lockers, l, Holds(k, Exclusive));
  }

  lemma RemoveKeeps(r: State, l: LockerId)
    requires Inv(r) && l in r.lockers && Held(r.lockers[l]).No?
    ensures Inv(r.(lockers := r.lockers - {l}))
  {
    var t := r.(lockers := r.lockers - {l});
    OneSize(r.lockers.Keys, l);
    assert t.lockers.Keys == r.lockers.Keys - {l};
    forall k | k in t.flags ensures FlagOk(t, k) {
      RemovedFlag(r, l, k);
    }
    forall other | other in t.lockers ensures LockerOk(t, other) {
      assert LockerOk(r, other);
    }
  }

  lemma DestroyKeeps(s: State, l: LockerId)
    requires Inv(s) && IsIdle(s, l)
    ensures LockerOk(s, l) && var r := Release(s, l); Inv(r.(lockers := r.lockers - {l}))
  {
    ReleaseKeeps(s, l);
    RemoveKeeps(Release(s, l), l);
  }

  lemma NoHolders(s: State, k: LockId)
    requires forall l | l in s.lockers && s.lockers[l].lock == Some(k) :: Held(s.lockers[l]).No?
    ensures Readers(s, k) == Writers(s, k) == Exclusives(s, k) == 0
  {
    NoneMatch(s.lockers, Holds(k, Read));
    NoneMatch(s.lockers, Holds(k, Write));
    NoneMatch(s.lockers, Holds(k, Exclusive));
  }

  lemma NewLockKeeps(s: State, k: LockId)
    requires Inv(s) && k !in s.flags
    ensures Inv(SetFlag(s, k, 0))
  {
    var t := SetFlag(s, k, 0);
    forall l | l in s.lockers ensures s.lockers[l].lock != Some(k) {
      assert LockerOk(s, l);
    }
    NoHolders(s, k);
    forall j | j in t.flags ensures FlagOk(t, j) {
      if j != k {
        assert FlagOk(s, j);
      }
    }
    forall l | l in t.lockers ensures LockerOk(t, l) {
      assert LockerOk(s, l);
    }
  }

  lemma UpgradeStarts(s: State, l: LockerId)
    requires Inv(s) && IsIdle(s, l)
    ensures Bound(s, s.lockers[l])
    ensures Inv(Apply(s, TryUpgrade(l)))
    ensures Enabled(s, UpgradeToX(l)) ==> Inv(Apply(s, UpgradeToX(l)))
  {
    assert LockerOk(s, l);
    var x := s.lockers[l];
    if x.lock.Some? {
      var flag := s.flags[x.lock.value];
      SameSize(s, l, x.(pc := TryUpgrading(flag)));
      SameSize(s, l, x.(pc := Upgrading(flag)));
      if x.mode.Read? {
        NothingHeld(s, l, x.(pc := TryUpgrading(flag)));
      }
      if x.mode.Write? {
        NothingHeld(s, l, x.(pc := Upgrading(flag)));
      }
    }
  }

  lemma EveryStepKeeps(s: State, a: Action)
    requires Inv(s) && Enabled(s, a)
    ensures Inv(Apply(s, a))
  {
    match a
    case NewLock(k) => NewLockKeeps(s, k);
    case Default(l) =>
      SameSize(s, l, EMPTY);
      NothingHeld(s, l, EMPTY);
    case Construct(l, k, m) =>
      var x := Locker(Some(k), m, if m.No? then Idle else Locking(s.flags[k]));
      SameSize(s, l, x);
      NothingHeld(s, l, x);
    case TryLock(l, k, m) =>
      SameSize(s, l, Locker(Some(k), m, Trying(s.flags[k])));
      NothingHeld(s, l, Locker(Some(k), m, Trying(s.flags[k])));
    case MoveConstruct(l, from) => MovesKeep(s, l, from);
    case Assign(l, from) => AssignKeeps(s, l, from);
    case Unlock(l) => ReleaseKeeps(s, l);
    case TryUpgrade(l) => UpgradeStarts(s, l);
    case UpgradeToX(l) => UpgradeStarts(s, l);
    case Destroy(l) => DestroyKeeps(s, l);
    case Advance(l, spurious) => AdvanceKeeps(s, l, spurious);
  }

  lemma {:induction false} EveryRunKeeps(s: State, actions: seq<Action>, t: State)
    requires Inv(s) && Leads(s, actions, t)
    ensures Inv(t)
    decreases |actions|
  {
    if actions == [] {
    } else {
      EveryStepKeeps(s, actions[0]);
      EveryRunKeeps(Apply(s, actions[0]), actions[1..], t);
    }
  }

  // ---------------------------------------------------------------- the theorems

  /**
    In every reachable state the modes recorded by the lockers of a spinlock are exactly the modes its word holds:
    `LONG_MIN` for one exclusive locker alone, and otherwise twice the readers plus the one writer, if any.
   */
  lemma WordCountsHolders(actions: seq<Action>, s: State, k: LockId)
    requires Reaches(actions, s) && k in s.flags
    ensures FlagOk(s, k)
    ensures MIN_LONG <= s.flags[k] < -MIN_LONG
  {
    EveryRunKeeps(Initial(), actions, s);
    TotalBounded(s.lockers, Holds(k, Read));
  }

  /** Every holder is counted. */
  lemma HeldCounts(s: State, k: LockId, a: LockerId, b: LockerId)
    requires a in s.lockers && s.lockers[a].lock == Some(k) && !Held(s.lockers[a]).No?
    requires b in s.lockers && s.lockers[b].lock == Some(k) && Held(s.lockers[b]) == Held(s.lockers[a])
    ensures Total(s.lockers, Holds(k, Held(s.lockers[a]))) >= if a == b then 1 else 2
  {
    var p := Holds(k, Held(s.lockers[a]));
    SubsetSize({a, b}, Matching(s.lockers, p));
  }

  /** Two lockers hold one spinlock at the same time only as readers, or as one writer among readers. */
  lemma Exclusion(actions: seq<Action>, s: State, k: LockId, a: LockerId, b: LockerId)
    requires Reaches(actions, s) && a in s.lockers && b in s.lockers && a != b
    requires s.lockers[a].lock == s.lockers[b].lock == Some(k) && !Held(s.lockers[a]).No? && !Held(s.lockers[b]).No?
    ensures Held(s.lockers[a]).Read? || Held(s.lockers[b]).Read?
    ensures !Held(s.lockers[a]).Exclusive? && !Held(s.lockers[b]).Exclusive?
  {
    EveryRunKeeps(Initial(), actions, s);
    assert LockerOk(s, a) && FlagOk(s, k);
    HeldCounts(s, k, a, a);
    HeldCounts(s, k, b, b);
    if Held(s.lockers[b]) == Held(s.lockers[a]) {
      HeldCounts(s, k, a, b);
    }
  }

  /** When nobody holds a spinlock its word is zero again: every acquisition was released, and once. */
  lemma AllReleased(actions: seq<Action>, s: State, k: LockId)
    requires Reaches(actions, s) && k in s.flags
    ensures s.flags[k] == 0 <==> forall l | l in s.lockers && s.lockers[l].lock == Some(k) :: Held(s.lockers[l]).No?
  {
    EveryRunKeeps(Initial(), actions, s);
    assert FlagOk(s, k);
    if s.flags[k] == 0 {
      forall l | l in s.lockers && s.lockers[l].lock == Some(k) ensures Held(s.lockers[l]).No? {
        TotalBounds(s.lockers, l, Holds(k, Held(s.lockers[l])));
      }
    }
    if forall l | l in s.lockers && s.lockers[l].lock == Some(k) :: Held(s.lockers[l]).No? {
      NoHolders(s, k);
    }
  }

  lemma WriterMakesOdd(s: State, l: LockerId)
    requires Inv(s) && l in s.lockers && s.lockers[l].lock.Some? && Held(s.lockers[l]).Write?
    requires s.lockers[l].lock.value in s.flags
    ensures var v := s.flags[s.lockers[l].lock.value]; v > 0 && v % 2 == 1
  {
    var k := s.lockers[l].lock.value;
    assert FlagOk(s, k);
    TotalBounds(s.lockers, l, Holds(k, Write));
  }

  /** The assertion at the start of `upgrade_w_to_x_lock`. */
  lemma UpgradeAssertion(actions: seq<Action>, s: State, l: LockerId)
    requires Reaches(actions, s) && Enabled(s, UpgradeToX(l)) && s.lockers[l].mode.Write?
    ensures var v := s.flags[s.lockers[l].lock.value]; v > 0 && v % 2 == 1
  {
    EveryRunKeeps(Initial(), actions, s);
    WriterMakesOdd(s, l);
  }

  // ---------------------------------------------------------------- draining

  /** Someone writes or is exclusive. */
  ghost predicate Guarded(s: State, k: LockId) { Writers(s, k) + Exclusives(s, k) > 0 }

  /** What the word must have been when a step lets another locker into a mode. */
  predicate LetsIn(flag: int, m: Mode) {
    match m
    case No => true
    case Read => flag >= 0 && flag % 2 == 0
    case Write => flag >= 0 && flag % 2 == 0
    case Exclusive => flag == 0 || flag == 1
  }

  lemma OneEnters(s: State, l: LockerId, x: Locker, flags: map<LockId, int>, k: LockId, m: Mode)
    requires k in s.flags && (!Holds(k, m)(x) || One(s.lockers, l, Holds(k, m)) == 1 || LetsIn(s.flags[k], m))
    ensures var t := Put(s, l, x).(flags := flags);
            Total(t.lockers, Holds(k, m)) > Total(s.lockers, Holds(k, m)) ==> LetsIn(s.flags[k], m)
  {
    PutTotal(s.lockers, l, x, Holds(k, m));
  }

  lemma ReleaseLetsNobodyIn(s: State, l: LockerId, k: LockId, m: Mode)
    requires Inv(s) && IsIdle(s, l) && k in s.flags && !m.No?
    ensures LockerOk(s, l) && Total(Release(s, l).lockers, Holds(k, m)) <= Total(s.lockers, Holds(k, m))
  {
    assert LockerOk(s, l);
    PutTotal(s.lockers, l, s.lockers[l].(mode := No), Holds(k, m));
  }

  /** The start of a call leaves the words and the modes held as they are. */
  lemma CallLetsNobodyIn(s: State, a: Action, k: LockId, m: Mode)
    requires Inv(s) && Enabled(s, a) && k in s.flags && !m.No?
    requires a.Default? || a.Construct? || a.TryLock? || a.TryUpgrade? || a.UpgradeToX?
    ensures Total(Apply(s, a).lockers, Holds(k, m)) <= Total(s.lockers, Holds(k, m))
  {
    var x := Apply(s, a).lockers[a.locker];
    PutTotal(s.lockers, a.locker, x, Holds(k, m));
  }

  lemma AssignLetsNobodyIn(s: State, l: LockerId, from: LockerId, k: LockId, m: Mode)
    requires Inv(s) && IsIdle(s, l) && IsIdle(s, from) && k in s.flags && !m.No?
    ensures LockerOk(s, l) && Total(Transfer(Release(s, l), l, from).lockers, Holds(k, m)) <= Total(s.lockers, Holds(k, m))
  {
    ReleaseLetsNobodyIn(s, l, k, m);
    var r := Release(s, l);
    TransferMoves(r, l, from);
    if l == from {
      PutTotal(r.lockers, l, EMPTY, Holds(k, m));
    } else {
      MovedCounts(r, l, from, k, m);
    }
  }

  lemma AdvanceLetsIn(s: State, l: LockerId, spurious: bool, k: LockId, m: Mode)
    requires Inv(s) && Enabled(s, Advance(l, spurious)) && k in s.flags && !m.No?
    ensures Total(Step(s, l, spurious).lockers, Holds(k, m)) > Total(s.lockers, Holds(k, m)) ==> LetsIn(s.flags[k], m)
  {
    assert LockerOk(s, l);
    var t := Step(s, l, spurious);
    OneEnters(s, l, t.lockers[l], t.flags, k, m);
    assert t == Put(s, l, t.lockers[l]).(flags := t.flags);
  }

  lemma EntersOnlyWhenLetIn(s: State, a: Action, k: LockId, m: Mode)
    requires Inv(s) && Enabled(s, a) && k in s.flags && !m.No?
    ensures Total(Apply(s, a).lockers, Holds(k, m)) > Total(s.lockers, Holds(k, m)) ==> LetsIn(s.flags[k], m)
  {
    match a
    case NewLock(j) =>
    case MoveConstruct(l, from) => MovedCounts(s, l, from, k, m);
    case Assign(l, from) => AssignLetsNobodyIn(s, l, from, k, m);
    case Unlock(l) => ReleaseLetsNobodyIn(s, l, k, m);
    case Destroy(l) =>
      ReleaseLetsNobodyIn(s, l, k, m);
      RemoveTotal(Release(s, l).lockers, l, Holds(k, m));
    case Advance(l, spurious) => AdvanceLetsIn(s, l, spurious, k, m);
    case _ => CallLetsNobodyIn(s, a, k, m);
  }

  ghost predicate GuardedRun(s: State, actions: seq<Action>, t: State, k: LockId)
    decreases |actions|
  {
    && k in s.flags && Guarded(s, k)
    && if actions == [] then s == t
       else Enabled(s, actions[0]) && GuardedRun(Apply(s, actions[0]), actions[1..], t, k)
  }

  lemma StepGuarded(s: State, a: Action, k: LockId)
    requires Inv(s) && Enabled(s, a) && k in s.flags && Guarded(s, k)
    ensures Readers(Apply(s, a), k) <= Readers(s, k) && Writers(Apply(s, a), k) <= Writers(s, k)
    ensures Exclusives(Apply(s, a), k) > Exclusives(s, k) ==> Readers(s, k) == 0 && Writers(s, k) == 1
  {
    assert FlagOk(s, k);
    EntersOnlyWhenLetIn(s, a, k, Read);
    EntersOnlyWhenLetIn(s, a, k, Write);
    EntersOnlyWhenLetIn(s, a, k, Exclusive);
  }

  /**
    From gaining write or exclusive mode until leaving it: nobody else enters in any mode, the number of readers never
    rises, and the step to exclusive happens only once they have drained.
   */
  lemma {:induction false} NobodyEnters(s: State, actions: seq<Action>, t: State, k: LockId)
    requires Inv(s) && GuardedRun(s, actions, t, k)
    ensures Readers(t, k) <= Readers(s, k)
    ensures Writers(t, k) + Exclusives(t, k) == 1
    ensures Exclusives(t, k) == 1 ==> Readers(t, k) == 0
    ensures Exclusives(s, k) == 1 ==> Exclusives(t, k) == 1
    decreases |actions|
  {
    assert FlagOk(s, k);
    if actions == [] {
    } else {
      EveryStepKeeps(s, actions[0]);
      StepGuarded(s, actions[0], k);
      NobodyEnters(Apply(s, actions[0]), actions[1..], t, k);
    }
  }

  /** A writer that upgrades gets in once the readers are gone: two of its own steps are enough. */
  lemma UpgradeCompletes(actions: seq<Action>, s: State, l: LockerId)
    requires Reaches(actions, s) && l in s.lockers && s.lockers[l].pc.Upgrading?
    ensures s.lockers[l].lock.Some? && Enabled(s, Advance(l, false))
    ensures Readers(s, s.lockers[l].lock.value) == 0 ==>
              var t := Step(s, l, false);
              || (Held(t.lockers[l]).Exclusive? && t.lockers[l].pc.Idle?)
              || (Enabled(t, Advance(l, false)) && Held(Step(t, l, false).lockers[l]).Exclusive?)
  {
    EveryRunKeeps(Initial(), actions, s);
    assert LockerOk(s, l);
    var k := s.lockers[l].lock.value;
    assert FlagOk(s, k);
    TotalBounds(s.lockers, l, Holds(k, Write));
  }
}

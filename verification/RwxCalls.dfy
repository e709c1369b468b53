/** What each operation of a locker does for its caller: who is let in, what a call returns holding, what it releases. */
module RwxCalls {
  import opened Counting
  import opened Lists
  import opened RwxProtocol
  import opened RwxTheorems

  // ---------------------------------------------------------------- who is let in

  /** Nobody holds the spinlock in a mode that excludes `m`. */
  ghost predicate Compatible(s: State, k: LockId, m: Mode) {
    && (forall l | l in s.lockers && s.lockers[l].lock == Some(k) :: !Held(s.lockers[l]).Write? && !Held(s.lockers[l]).Exclusive?)
    && (m.Exclusive? ==> forall l | l in s.lockers && s.lockers[l].lock == Some(k) :: Held(s.lockers[l]).No?)
  }

  /** The last look of the call at the word. */
  function LastLook(pc: Pc): int {
    match pc
    case Idle => 0
    case Locking(v) => v
    case Trying(v) => v
    case TryUpgrading(v) => v
    case Upgrading(v) => v
  }

  lemma NobodyWrites(s: State, k: LockId)
    ensures Writers(s, k) == Exclusives(s, k) == 0 <==>
            forall l | l in s.lockers && s.lockers[l].lock == Some(k) :: !Held(s.lockers[l]).Write? && !Held(s.lockers[l]).Exclusive?
  {
    NoneMatch(s.lockers, Holds(k, Write));
    NoneMatch(s.lockers, Holds(k, Exclusive));
  }

  lemma NobodyReads(s: State, k: LockId)
    ensures Readers(s, k) == 0 <==> forall l | l in s.lockers && s.lockers[l].lock == Some(k) :: !Held(s.lockers[l]).Read?
  {
    NoneMatch(s.lockers, Holds(k, Read));
  }

  /** What the word says about the holders. */
  lemma WordSays(s: State, k: LockId)
    requires Inv(s) && k in s.flags
    ensures s.flags[k] >= 0 && s.flags[k] % 2 == 0 <==> Compatible(s, k, Read)
    ensures Compatible(s, k, Write) <==> Compatible(s, k, Read)
    ensures s.flags[k] == 0 <==> Compatible(s, k, Exclusive)
  {
    assert FlagOk(s, k);
    NobodyWrites(s, k);
    NobodyReads(s, k);
  }

  /** The outcome of one access of a call that acquires: let in, or not. */
  predicate LetIn(x: Locker, y: Locker, flag: int, admitted: bool) {
    && y.lock == x.lock
    && if admitted then y.pc.Idle? && Held(y) == x.mode && !x.mode.No?
       else Held(y).No? && if x.pc.Trying? then y.pc.Idle? else y.pc == Locking(flag) && y.mode == x.mode
  }

  lemma StepAcquires(s: State, l: LockerId, spurious: bool)
    requires l in s.lockers && s.lockers[l].lock.Some? && s.lockers[l].lock.value in s.flags && !s.lockers[l].mode.No?
    requires s.lockers[l].pc.Locking? || s.lockers[l].pc.Trying?
    ensures Enabled(s, Advance(l, spurious))
    ensures var x := s.lockers[l];
            var flag := s.flags[x.lock.value];
            var t := Apply(s, Advance(l, spurious));
            && t.lockers == s.lockers[l := t.lockers[l]]
            && LetIn(x, t.lockers[l], flag, !spurious && LastLook(x.pc) == flag && Admits(flag, x.mode))
  {
  }

  /**
    A locker that is acquiring is let in exactly when its compare-exchange does not fail without reason, the word is
    what it last saw, and nobody holds the spinlock in a mode that excludes its own. Otherwise a lock call looks again
    and a try call gives up.
   */
  lemma AdmittedExactly(actions: seq<Action>, s: State, l: LockerId, spurious: bool)
    requires Reaches(actions, s) && l in s.lockers && (s.lockers[l].pc.Locking? || s.lockers[l].pc.Trying?)
    ensures Enabled(s, Advance(l, spurious)) && s.lockers[l].lock.Some?
    ensures var x := s.lockers[l];
            var k := x.lock.value;
            var t := Apply(s, Advance(l, spurious));
            && k in s.flags && t.lockers == s.lockers[l := t.lockers[l]]
            && LetIn(x, t.lockers[l], s.flags[k], !spurious && LastLook(x.pc) == s.flags[k] && Compatible(s, k, x.mode))
  {
    EveryRunKeeps(Initial(), actions, s);
    assert LockerOk(s, l);
    WordSays(s, s.lockers[l].lock.value);
    StepAcquires(s, l, spurious);
  }

  /** A reader that tries to become the writer does so under the same conditions, and otherwise goes on reading. */
  lemma UpgradedExactly(actions: seq<Action>, s: State, l: LockerId, spurious: bool)
    requires Reaches(actions, s) && l in s.lockers && s.lockers[l].pc.TryUpgrading?
    ensures Enabled(s, Advance(l, spurious)) && s.lockers[l].lock.Some?
    ensures var x := s.lockers[l];
            var k := x.lock.value;
            var t := Apply(s, Advance(l, spurious));
            && t.lockers == s.lockers[l := t.lockers[l]] && t.lockers[l].lock == x.lock && t.lockers[l].pc.Idle?
            && t.lockers[l].mode == if !spurious && LastLook(x.pc) == s.flags[k] && Compatible(s, k, Write) then Write else Read
  {
    EveryRunKeeps(Initial(), actions, s);
    assert LockerOk(s, l);
    WordSays(s, s.lockers[l].lock.value);
  }

  /** A locker that acquires alone is let in by two steps of its own, unless someone excludes it. */
  lemma LockCompletes(actions: seq<Action>, s: State, l: LockerId)
    requires Reaches(actions, s) && l in s.lockers && s.lockers[l].pc.Locking?
    requires s.lockers[l].lock.Some? && Compatible(s, s.lockers[l].lock.value, s.lockers[l].mode)
    ensures Enabled(s, Advance(l, false))
    ensures var t := Apply(s, Advance(l, false));
            || Held(t.lockers[l]) == s.lockers[l].mode
            || (Enabled(t, Advance(l, false)) && Held(Apply(t, Advance(l, false)).lockers[l]) == s.lockers[l].mode)
  {
    EveryRunKeeps(Initial(), actions, s);
    assert LockerOk(s, l);
    WordSays(s, s.lockers[l].lock.value);
  }

  // ---------------------------------------------------------------- what a call returns holding

  /** The lockers that an action other than `Advance` uses. */
  predicate Uses(a: Action, l: LockerId) {
    match a
    case NewLock(_) => false
    case Default(x) => x == l
    case Construct(x, _, _) => x == l
    case TryLock(x, _, _) => x == l
    case MoveConstruct(x, from) => x == l || from == l
    case Assign(x, from) => x == l || from == l
    case Unlock(x) => x == l
    case TryUpgrade(x) => x == l
    case UpgradeToX(x) => x == l
    case Destroy(x) => x == l
    case Advance(_, _) => false
  }

  /** The thread of the locker only goes on with the call it is in. */
  ghost predicate GoesOn(l: LockerId, actions: seq<Action>) { forall a | a in actions :: !Uses(a, l) }

  lemma OthersLeave(s: State, a: Action, l: LockerId)
    requires Enabled(s, a) && l in s.lockers && !Uses(a, l) && !(a.Advance? && a.locker == l)
    ensures l in Apply(s, a).lockers && Apply(s, a).lockers[l] == s.lockers[l]
  {
  }

  /** What may become of a locker between the start of the call and its end. */
  predicate OnItsWay(start: Locker, x: Locker) {
    && x.lock == start.lock
    && match start.pc
       case Idle => x == start
       case Locking(_) => x.mode == start.mode && (x.pc.Idle? || x.pc.Locking?)
       case Trying(_) => if x.pc.Idle? then x.mode in {No, start.mode} else x.mode == start.mode && x.pc.Trying?
       case TryUpgrading(_) => if x.pc.Idle? then x.mode in {start.mode, Write} else x.mode == start.mode && x.pc.TryUpgrading?
       case Upgrading(_) => if x.pc.Idle? then x.mode.Exclusive? else x.mode == start.mode && x.pc.Upgrading?
  }

  lemma StaysOnItsWay(s: State, a: Action, l: LockerId, start: Locker)
    requires Enabled(s, a) && l in s.lockers && !Uses(a, l) && OnItsWay(start, s.lockers[l])
    ensures l in Apply(s, a).lockers && OnItsWay(start, Apply(s, a).lockers[l])
  {
    if a.Advance? && a.locker == l {
    } else {
      OthersLeave(s, a, l);
    }
  }

  lemma {:induction false} RunsOnItsWay(s: State, actions: seq<Action>, u: State, l: LockerId, start: Locker)
    requires Leads(s, actions, u) && l in s.lockers && GoesOn(l, actions) && OnItsWay(start, s.lockers[l])
    ensures l in u.lockers && OnItsWay(start, u.lockers[l])
    decreases |actions|
  {
    if actions == [] {
    } else {
      assert actions[0] in actions && forall a | a in actions[1..] :: a in actions;
      StaysOnItsWay(s, actions[0], l, start);
      RunsOnItsWay(Apply(s, actions[0]), actions[1..], u, l, start);
    }
  }

  /** Constructing a locker with a mode returns only once it holds that mode. */
  lemma LockReturns(s: State, l: LockerId, k: LockId, m: Mode, actions: seq<Action>, u: State)
    requires Enabled(s, Construct(l, k, m)) && Leads(Apply(s, Construct(l, k, m)), actions, u) && GoesOn(l, actions)
    ensures l in u.lockers && u.lockers[l].lock == Some(k)
    ensures u.lockers[l].pc.Idle? ==> Held(u.lockers[l]) == m
    ensures !u.lockers[l].pc.Idle? ==> u.lockers[l].pc.Locking? && u.lockers[l].mode == m && !m.No?
  {
    var t := Apply(s, Construct(l, k, m));
    RunsOnItsWay(t, actions, u, l, t.lockers[l]);
  }

  /** A try returns holding the mode or nothing. */
  lemma TryReturns(s: State, l: LockerId, k: LockId, m: Mode, actions: seq<Action>, u: State)
    requires Enabled(s, TryLock(l, k, m)) && Leads(Apply(s, TryLock(l, k, m)), actions, u) && GoesOn(l, actions)
    ensures l in u.lockers && u.lockers[l].lock == Some(k)
    ensures if u.lockers[l].pc.Idle? then Held(u.lockers[l]) in {No, m} else u.lockers[l].pc.Trying? && u.lockers[l].mode == m
  {
    var t := Apply(s, TryLock(l, k, m));
    RunsOnItsWay(t, actions, u, l, t.lockers[l]);
  }

  /** `upgrade_to_x` returns only once the writer is exclusive, and at once when it was. */
  lemma UpgradeReturns(s: State, l: LockerId, actions: seq<Action>, u: State)
    requires Enabled(s, UpgradeToX(l)) && Leads(Apply(s, UpgradeToX(l)), actions, u) && GoesOn(l, actions)
    ensures l in u.lockers && u.lockers[l].lock == s.lockers[l].lock
    ensures u.lockers[l].pc.Idle? ==> Held(u.lockers[l]).Exclusive?
    ensures !u.lockers[l].pc.Idle? ==> u.lockers[l].pc.Upgrading? && s.lockers[l].mode.Write? && Held(u.lockers[l]).Write?
  {
    var t := Apply(s, UpgradeToX(l));
    RunsOnItsWay(t, actions, u, l, t.lockers[l]);
  }

  /** `try_upgrade_to_w` returns a reader as reader or writer, and leaves any other locker as it was. */
  lemma TryUpgradeReturns(s: State, l: LockerId, actions: seq<Action>, u: State)
    requires Enabled(s, TryUpgrade(l)) && Leads(Apply(s, TryUpgrade(l)), actions, u) && GoesOn(l, actions)
    ensures l in u.lockers && u.lockers[l].lock == s.lockers[l].lock
    ensures s.lockers[l].mode.Read? ==>
              if u.lockers[l].pc.Idle? then Held(u.lockers[l]) in {Read, Write} else u.lockers[l].pc.TryUpgrading? && Held(u.lockers[l]).Read?
    ensures !s.lockers[l].mode.Read? ==> u.lockers[l] == s.lockers[l]
  {
    var t := Apply(s, TryUpgrade(l));
    RunsOnItsWay(t, actions, u, l, t.lockers[l]);
  }

  /** The first look of every call is at the word as it is then. */
  lemma CallLooks(s: State, a: Action)
    requires Enabled(s, a) && (a.Construct? || a.TryLock? || a.TryUpgrade? || a.UpgradeToX?)
    ensures var x := Apply(s, a).lockers[a.locker];
            && Apply(s, a).flags == s.flags
            && (!x.pc.Idle? ==> x.lock.Some? && x.lock.value in s.flags && LastLook(x.pc) == s.flags[x.lock.value])
    ensures a.Construct? ==> (Apply(s, a).lockers[a.locker].pc.Idle? <==> a.mode.No?)
    ensures a.TryLock? ==> Apply(s, a).lockers[a.locker].pc.Trying?
    ensures a.TryUpgrade? ==> (Apply(s, a).lockers[a.locker].pc.TryUpgrading? <==> s.lockers[a.locker].mode.Read?)
  {
  }

  // ---------------------------------------------------------------- making, releasing and moving

  lemma NewLockAdded(s: State, k: LockId)
    requires Enabled(s, NewLock(k))
    ensures var t := Apply(s, NewLock(k));
            && t.lockers == s.lockers && t.flags.Keys == s.flags.Keys + {k} && t.flags[k] == 0
            && forall j | j in s.flags :: t.flags[j] == s.flags[j]
  {
  }

  lemma FreeForAll(s: State, k: LockId, m: Mode)
    requires Inv(s) && k in s.flags && s.flags[k] == 0
    ensures Compatible(s, k, m)
  {
    WordSays(s, k);
  }

  /** A new spinlock is there, and free: nobody is excluded. */
  lemma NewLockIsFree(actions: seq<Action>, s: State, k: LockId, m: Mode)
    requires Reaches(actions, s) && Enabled(s, NewLock(k))
    ensures var t := Apply(s, NewLock(k));
            && t.lockers == s.lockers && t.flags.Keys == s.flags.Keys + {k} && Compatible(t, k, m)
            && forall j | j in s.flags :: t.flags[j] == s.flags[j]
  {
    EveryRunKeeps(Initial(), actions, s);
    EveryStepKeeps(s, NewLock(k));
    NewLockAdded(s, k);
    FreeForAll(Apply(s, NewLock(k)), k, m);
  }

  /** After `unlock` the locker holds nothing; every other locker holds what it held. */
  lemma UnlockReleases(s: State, l: LockerId)
    requires Enabled(s, Unlock(l))
    ensures var t := Apply(s, Unlock(l));
            && t.lockers.Keys == s.lockers.Keys && Held(t.lockers[l]).No? && t.lockers[l].pc.Idle?
            && t.lockers[l].lock == s.lockers[l].lock
            && forall o | o in s.lockers && o != l :: t.lockers[o] == s.lockers[o]
  {
  }

  /** The destructor takes the locker away, and with it what it held. */
  lemma DestroyReleases(s: State, l: LockerId)
    requires Enabled(s, Destroy(l))
    ensures Apply(s, Destroy(l)).lockers == s.lockers - {l}
  {
    assert Apply(s, Destroy(l)).lockers == s.lockers - {l};
  }

  /** Moving hands over spinlock and mode and leaves the source empty; nobody else and no word changes. */
  lemma MoveHandsOver(s: State, l: LockerId, from: LockerId)
    requires Enabled(s, MoveConstruct(l, from))
    ensures var t := Apply(s, MoveConstruct(l, from));
            && t.flags == s.flags && t.lockers.Keys == s.lockers.Keys + {l}
            && t.lockers[l] == s.lockers[from] && t.lockers[from] == EMPTY
            && forall o | o in s.lockers && o != from :: t.lockers[o] == s.lockers[o]
  {
  }

  /** Move assignment first gives back what the locker held; assigned to itself a locker ends up empty. */
  lemma AssignHandsOver(s: State, l: LockerId, from: LockerId)
    requires Enabled(s, Assign(l, from))
    ensures var t := Apply(s, Assign(l, from));
            && t.flags == Apply(s, Unlock(l)).flags && t.lockers.Keys == s.lockers.Keys
            && t.lockers[from] == EMPTY && (l != from ==> t.lockers[l] == s.lockers[from])
            && forall o | o in s.lockers && o != l && o != from :: t.lockers[o] == s.lockers[o]
  {
    TransferMoves(Release(s, l), l, from);
  }
}

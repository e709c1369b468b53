/**
  What `push` answers. It reads the new node after other threads could see it, so the node may have been stolen,
  relinked by a reversal, or freed. The invariant says what the read finds; the theorems say when it is safe and right.
 */
module StackAnswers {
  import opened Lists
  import opened LinkedMemory
  import opened StackProtocol
  import opened StackInvariant
  import opened StackSteps
  import opened StackTheorems

  // ---------------------------------------------------------------- the invariant

  /** A node made by a push: not delivered, and its link says what its fate says. */
  ghost predicate NodeOk(s: State, x: Address) {
    && Known(s.history, x) && x in s.memory
    && var f := FateOf(s.history, x);
    && f.node == x && !f.delivered && f.steals <= |s.batches|
    && (s.memory[x].next == 0 <==> if f.turned then f.newest else f.wasEmpty)
  }

  ghost predicate FateOk(s: State, n: nat)
    requires n < |s.history.fates|
  {
    var f := s.history.fates[n];
    && (!f.delivered ==> f.node in s.history.number && s.history.number[f.node] == n)
    && (f.turned || f.delivered ==> f.steals < |s.batches|)
  }

  ghost predicate ListedOk(s: State, x: Address) {
    Known(s.history, x) && !FateOf(s.history, x).turned && !FateOf(s.history, x).newest
  }

  /** A stolen node that the reversal has not reached: the first one is the newest, unless it was turned already. */
  ghost predicate UnturnedOk(s: State, k: nat, newest: bool, x: Address) {
    && Known(s.history, x) && FateOf(s.history, x).steals <= k
    && !FateOf(s.history, x).turned && FateOf(s.history, x).newest == newest
  }

  ghost predicate StolenOk(s: State, k: nat, x: Address) {
    Known(s.history, x) && FateOf(s.history, x).steals <= k
  }

  ghost predicate RecordOk(s: State, t: ThreadId)
    requires t in s.threads
  {
    match s.threads[t]
    case PushLoad(a) => a !in s.history.number
    case PushCas(a) => a !in s.history.number
    case Answering(a, n) => n < |s.history.fates| && s.history.fates[n].node == a
    case Turning(_, _, k, rest, done) =>
      && (forall x | x in rest :: UnturnedOk(s, k, done == [] && x == rest[0], x))
      && (forall x | x in done :: StolenOk(s, k, x))
    case Delivering(_, k, rest) => forall x | x in rest :: StolenOk(s, k, x)
    case _ => true
  }

  ghost predicate HistoryOk(s: State) {
    && (forall x | x in s.history.number :: NodeOk(s, x))
    && (forall n: nat | n < |s.history.fates| :: FateOk(s, n))
    && (forall x | x in s.list :: ListedOk(s, x))
    && (forall t | t in s.threads :: RecordOk(s, t))
  }

  // ---------------------------------------------------------------- steps that change no fate

  /** Only the thread moves; pushed nodes and their fates are as they were. */
  ghost predicate SameFates(s: State, u: State, t: ThreadId) {
    && t in u.threads && u.threads == s.threads[t := u.threads[t]]
    && u.history.number == s.history.number && u.history.fates == s.history.fates
    && u.list == s.list && u.batches == s.batches
    && (forall x | x in s.history.number :: x in s.memory && x in u.memory && u.memory[x] == s.memory[x])
  }

  lemma SameRecord(s: State, u: State, o: ThreadId)
    requires o in s.threads && o in u.threads && u.threads[o] == s.threads[o] && RecordOk(s, o)
    requires u.history.number == s.history.number && u.history.fates == s.history.fates
    ensures RecordOk(u, o)
  {
    match s.threads[o]
    case Turning(_, _, k, rest, done) =>
      forall x | x in rest ensures UnturnedOk(u, k, done == [] && x == rest[0], x) {
        assert UnturnedOk(s, k, done == [] && x == rest[0], x);
      }
      forall x | x in done ensures StolenOk(u, k, x) {
        assert StolenOk(s, k, x);
      }
    case Delivering(_, k, rest) =>
      forall x | x in rest ensures StolenOk(u, k, x) {
        assert StolenOk(s, k, x);
      }
    case _ =>
  }

  lemma SameFatesKeep(s: State, u: State, t: ThreadId)
    requires HistoryOk(s) && SameFates(s, u, t) && RecordOk(u, t)
    ensures HistoryOk(u)
  {
    forall x | x in u.history.number ensures NodeOk(u, x) {
      assert NodeOk(s, x);
    }
    forall n: nat | n < |u.history.fates| ensures FateOk(u, n) {
      assert FateOk(s, n);
    }
    forall x | x in u.list ensures ListedOk(u, x) {
      assert ListedOk(s, x);
    }
    forall o | o in u.threads ensures RecordOk(u, o) {
      if o != t {
        assert RecordOk(s, o);
        SameRecord(s, u, o);
      }
    }
  }

  // ---------------------------------------------------------------- steps that change the fate of one node

  /** Every node but `y` has the record and the link it had. */
  ghost predicate OthersRecorded(s: State, u: State, y: Address) {
    var h, g := s.history, u.history;
    && |g.fates| >= |h.fates| && |u.batches| >= |s.batches|
    && (forall n: nat | n < |h.fates| :: g.fates[n].node == h.fates[n].node)
    && (forall n: nat | n < |h.fates| && !(y in h.number && h.number[y] == n) :: g.fates[n] == h.fates[n])
    && (forall x | x != y :: x in h.number <==> x in g.number)
    && (forall x | x in h.number && x != y :: g.number[x] == h.number[x])
    && (forall x | x in h.number && x != y :: x in s.memory && x in u.memory && u.memory[x] == s.memory[x])
  }

  lemma NodeKept(s: State, u: State, y: Address, x: Address)
    requires OthersRecorded(s, u, y) && x != y && x in s.history.number && NodeOk(s, x)
    requires y in s.history.number ==> NodeOk(s, y)
    ensures NodeOk(u, x) && FateOf(u.history, x) == FateOf(s.history, x)
  {
  }

  lemma FateKept(s: State, u: State, y: Address, n: nat)
    requires OthersRecorded(s, u, y) && n < |s.history.fates| && FateOk(s, n)
    requires !(y in s.history.number && s.history.number[y] == n)
    ensures FateOk(u, n)
  {
  }

  lemma KnownKept(s: State, u: State, y: Address, x: Address)
    requires HistoryOk(s) && OthersRecorded(s, u, y) && x != y && Known(s.history, x)
    ensures Known(u.history, x) && FateOf(u.history, x) == FateOf(s.history, x)
  {
    assert NodeOk(s, x);
    if y in s.history.number {
      assert NodeOk(s, y);
    }
    NodeKept(s, u, y, x);
  }

  lemma OtherRecordKept(s: State, u: State, y: Address, o: ThreadId)
    requires HistoryOk(s) && OthersRecorded(s, u, y)
    requires o in s.threads && o in u.threads && u.threads[o] == s.threads[o] && y !in Holds(s.threads[o])
    ensures RecordOk(u, o)
  {
    assert RecordOk(s, o);
    match s.threads[o]
    case PushLoad(a) => assert a in Holds(s.threads[o]);
    case PushCas(a) => assert a in Holds(s.threads[o]);
    case Turning(_, _, k, rest, done) =>
      forall x | x in rest ensures UnturnedOk(u, k, done == [] && x == rest[0], x) {
        assert UnturnedOk(s, k, done == [] && x == rest[0], x);
        assert x in rest + done;
        KnownKept(s, u, y, x);
      }
      forall x | x in done ensures StolenOk(u, k, x) {
        assert StolenOk(s, k, x);
        assert x in rest + done;
        KnownKept(s, u, y, x);
      }
    case Delivering(_, k, rest) =>
      forall x | x in rest ensures StolenOk(u, k, x) {
        assert StolenOk(s, k, x);
        KnownKept(s, u, y, x);
      }
    case _ =>
  }

  /** What is left to show when one node was touched by one thread. */
  lemma OneFateChanges(s: State, u: State, t: ThreadId, y: Address)
    requires HistoryOk(s) && OthersRecorded(s, u, y)
    requires t in u.threads && u.threads == s.threads[t := u.threads[t]] && RecordOk(u, t)
    requires forall o | o in s.threads && o != t :: y !in Holds(s.threads[o])
    requires y in u.history.number ==> NodeOk(u, y)
    requires forall n: nat | n < |u.history.fates| ::
               n >= |s.history.fates| || (y in s.history.number && s.history.number[y] == n) ==> FateOk(u, n)
    requires forall x | x in u.list :: if x == y then ListedOk(u, y) else x in s.list
    ensures HistoryOk(u)
  {
    forall x | x in u.history.number ensures NodeOk(u, x) {
      if x != y {
        assert NodeOk(s, x);
        KnownKept(s, u, y, x);
        if y in s.history.number {
          assert NodeOk(s, y);
        }
        NodeKept(s, u, y, x);
      }
    }
    forall n: nat | n < |u.history.fates| ensures FateOk(u, n) {
      if !(n >= |s.history.fates| || (y in s.history.number && s.history.number[y] == n)) {
        assert FateOk(s, n);
        FateKept(s, u, y, n);
      }
    }
    forall x | x in u.list ensures ListedOk(u, x) {
      if x != y {
        assert ListedOk(s, x);
        KnownKept(s, u, y, x);
      }
    }
    forall o | o in u.threads ensures RecordOk(u, o) {
      if o != t {
        OtherRecordKept(s, u, y, o);
      }
    }
  }

  /** A node held by one thread, or listed, is held by no other. */
  lemma HeldOnce(s: State, t: ThreadId, y: Address)
    requires MemorySafe(s) && y in s.owner && (s.owner[y] == Shared || s.owner[y] == Private(t))
    ensures forall o | o in s.threads && o != t :: y !in Holds(s.threads[o])
  {
    forall o | o in s.threads && o != t ensures y !in Holds(s.threads[o]) {
      assert ThreadSafe(s, o);
    }
  }

  // ---------------------------------------------------------------- the steps

  lemma QuietSteps(s: State, t: ThreadId, th: Thread, u: State)
    requires Inv(s) && HistoryOk(s) && SameFates(s, u, t) && u.threads[t] == th
    requires match th
             case Idle => true
             case StealCas(_, _) => true
             case PushLoad(a) => a !in s.history.number
             case PushCas(a) => a !in s.history.number
             case _ => false
    ensures HistoryOk(u)
  {
    SameFatesKeep(s, u, t);
  }

  lemma NewRecord(s: State, u: State, t: ThreadId, node: Address)
    requires node !in s.history.number && node in s.memory && s.head == s.memory[node].next
    requires forall x | x in s.history.number :: x in s.memory && s.history.number[x] < |s.history.fates|
    requires u.memory == s.memory && u.history == Recorded(s.history, node, s.head == 0, |s.batches|) && u.batches == s.batches
    requires u.threads == s.threads[t := Answering(node, |s.history.fates|)]
    ensures OthersRecorded(s, u, node) && NodeOk(u, node) && FateOk(u, |s.history.fates|) && RecordOk(u, t) && ListedOk(u, node)
  {
  }

  lemma NumbersInMemory(s: State)
    requires HistoryOk(s)
    ensures forall x | x in s.history.number :: x in s.memory && s.history.number[x] < |s.history.fates|
  {
    forall x | x in s.history.number ensures x in s.memory && s.history.number[x] < |s.history.fates| {
      assert NodeOk(s, x);
    }
  }

  lemma PushRecorded(s: State, t: ThreadId, node: Address, u: State)
    requires MemorySafe(s) && HistoryOk(s) && t in s.threads && s.threads[t] == PushCas(node)
    requires node in s.memory && s.head == s.memory[node].next && u == TryPush(s, t, node, false)
    ensures HistoryOk(u)
  {
    assert ThreadSafe(s, t) && RecordOk(s, t);
    assert node in Holds(s.threads[t]);
    HeldOnce(s, t, node);
    NumbersInMemory(s);
    NewRecord(s, u, t, node);
    OneFateChanges(s, u, t, node);
  }

  lemma NewestMarked(s: State, u: State, y: Address)
    requires NodeOk(s, y) && ListedOk(s, y) && FateOk(s, s.history.number[y])
    requires forall x | x in s.history.number :: x in s.memory
    requires u.memory == s.memory && u.history == MarkNewest(s.history, y) && |u.batches| == |s.batches| + 1
    ensures OthersRecorded(s, u, y) && NodeOk(u, y) && FateOk(u, s.history.number[y])
    ensures u.history.number == s.history.number && FateOf(u.history, y) == FateOf(s.history, y).(newest := true)
  {
  }

  lemma StealRecorded(s: State, t: ThreadId, ordered: bool, u: State)
    requires MemorySafe(s) && HistoryOk(s) && t in s.threads && s.threads[t] == StealCas(s.head, ordered) && s.head != 0
    requires u == TrySteal(s, t, s.head, ordered, false)
    ensures HistoryOk(u)
  {
    var y := s.head;
    assert y in s.list;
    assert ListedOk(s, y) && NodeOk(s, y);
    HeldOnce(s, t, y);
    NumbersInMemory(s);
    assert FateOk(s, s.history.number[y]);
    NewestMarked(s, u, y);
    forall x | x in s.list ensures StolenOk(u, |s.batches|, x) && UnturnedOk(u, |s.batches|, x == y, x) {
      assert ListedOk(s, x) && NodeOk(s, x);
      if x != y {
        KnownKept(s, u, y, x);
      }
    }
    OneFateChanges(s, u, t, y);
  }

  lemma TurnMarked(s: State, u: State, cur: Address, prev: Address)
    requires NodeOk(s, cur) && FateOk(s, s.history.number[cur]) && !FateOf(s.history, cur).turned
    requires FateOf(s.history, cur).steals < |s.batches| && (prev == 0 <==> FateOf(s.history, cur).newest)
    requires forall x | x in s.history.number :: x in s.memory
    requires u.memory == SetNext(s.memory, cur, prev) && u.history == MarkTurned(s.history, cur) && u.batches == s.batches
    ensures OthersRecorded(s, u, cur) && NodeOk(u, cur) && FateOk(u, s.history.number[cur])
    ensures u.history.number == s.history.number && FateOf(u.history, cur) == FateOf(s.history, cur).(turned := true)
  {
  }

  lemma NotListed(s: State, t: ThreadId, x: Address)
    requires MemorySafe(s) && x in s.owner && s.owner[x] == Private(t)
    ensures x !in s.list
  {
  }

  lemma TurnedRecord(s: State, t: ThreadId, u: State)
    requires HistoryOk(s) && t in s.threads && s.threads[t].Turning? && s.threads[t].rest != []
    requires Distinct(Holds(s.threads[t])) && s.threads[t].cur == s.threads[t].rest[0]
    requires OthersRecorded(s, u, s.threads[t].cur) && Known(u.history, s.threads[t].cur)
    requires FateOf(u.history, s.threads[t].cur).steals <= s.threads[t].batch
    requires t in u.threads && u.threads[t].Turning? && u.threads[t].batch == s.threads[t].batch
    requires u.threads[t].rest == s.threads[t].rest[1..] && u.threads[t].done == [s.threads[t].cur] + s.threads[t].done
    ensures RecordOk(u, t)
  {
    var Turning(cur, prev, k, rest, done) := s.threads[t];
    assert RecordOk(s, t);
    assert rest + done == [cur] + rest[1..] + done;
    DistinctTurn(cur, rest[1..], done);
    forall x | x in rest[1..] ensures UnturnedOk(u, k, false, x) {
      assert x in rest && UnturnedOk(s, k, false, x);
      KnownKept(s, u, cur, x);
    }
    forall x | x in [cur] + done ensures StolenOk(u, k, x) {
      if x != cur {
        assert StolenOk(s, k, x);
        KnownKept(s, u, cur, x);
      }
    }
  }

  lemma TurnRecorded(s: State, t: ThreadId, u: State)
    requires MemorySafe(s) && HistoryOk(s) && Turned(s, t, u) && s.threads[t].batch < |s.batches|
    requires u.history == MarkTurned(s.history, s.threads[t].cur)
    ensures HistoryOk(u)
  {
    var Turning(cur, prev, k, rest, done) := s.threads[t];
    assert ThreadSafe(s, t) && RecordOk(s, t);
    assert cur == rest[0] && cur in Holds(s.threads[t]);
    assert UnturnedOk(s, k, done == [], cur) && NodeOk(s, cur);
    assert prev == 0 <==> done == [];
    HeldOnce(s, t, cur);
    NumbersInMemory(s);
    assert FateOk(s, s.history.number[cur]);
    TurnMarked(s, u, cur, prev);
    TurnedRecord(s, t, u);
    NotListed(s, t, cur);
    OneFateChanges(s, u, t, cur);
  }

  /** All nodes turned: the thread goes on to deliver them. */
  lemma TurnedAllRecorded(s: State, t: ThreadId, u: State)
    requires HistoryOk(s) && SameFates(s, u, t) && t in s.threads && s.threads[t].Turning?
    requires u.threads[t].Delivering? && u.threads[t].batch == s.threads[t].batch && u.threads[t].rest == s.threads[t].done
    ensures HistoryOk(u)
  {
    assert RecordOk(s, t);
    forall x | x in u.threads[t].rest ensures StolenOk(u, u.threads[t].batch, x) {
      assert StolenOk(s, s.threads[t].batch, x);
    }
    SameFatesKeep(s, u, t);
  }

  lemma DeliverMarked(s: State, u: State, cur: Address)
    requires NodeOk(s, cur) && FateOk(s, s.history.number[cur]) && FateOf(s.history, cur).steals < |s.batches|
    requires forall x | x in s.history.number :: x in s.memory
    requires u.memory == s.memory - {cur} && u.history == MarkDelivered(s.history, cur) && |u.batches| == |s.batches|
    ensures OthersRecorded(s, u, cur) && cur !in u.history.number && FateOk(u, s.history.number[cur])
    ensures |u.history.fates| == |s.history.fates|
  {
  }

  lemma DeliverRecorded(s: State, t: ThreadId, u: State)
    requires MemorySafe(s) && HistoryOk(s) && DeliveredNext(s, t, u)
    requires u.history == MarkDelivered(s.history, s.threads[t].cur)
    ensures HistoryOk(u)
  {
    var Delivering(cur, k, rest) := s.threads[t];
    assert ThreadSafe(s, t) && RecordOk(s, t);
    assert cur == rest[0] && cur in Holds(s.threads[t]);
    assert StolenOk(s, k, cur) && NodeOk(s, cur);
    HeldOnce(s, t, cur);
    NumbersInMemory(s);
    assert FateOk(s, s.history.number[cur]);
    DeliverMarked(s, u, cur);
    FirstAndRest(cur, rest);
    forall x | x in rest[1..] ensures StolenOk(u, k, x) {
      assert StolenOk(s, k, x);
      KnownKept(s, u, cur, x);
    }
    NotListed(s, t, cur);
    OneFateChanges(s, u, t, cur);
  }

  // ---------------------------------------------------------------- every step, every run

  lemma LoadStepRecords(s: State, t: ThreadId, node: Address)
    requires Inv(s) && HistoryOk(s) && t in s.threads && (s.threads[t] == PushLoad(node) || s.threads[t] == PushCas(node))
    ensures node in s.memory
    ensures HistoryOk(Become(s, t, PushCas(node)).(memory := SetNext(s.memory, node, s.head)))
  {
    assert ThreadSafe(s, t) && RecordOk(s, t);
    NumbersInMemory(s);
    QuietSteps(s, t, PushCas(node), Become(s, t, PushCas(node)).(memory := SetNext(s.memory, node, s.head)));
  }

  lemma PushStepRecords(s: State, t: ThreadId, node: Address, spurious: bool)
    requires Inv(s) && HistoryOk(s) && t in s.threads && s.threads[t] == PushCas(node)
    ensures node in s.memory && HistoryOk(TryPush(s, t, node, spurious))
  {
    LoadStepRecords(s, t, node);
    if !spurious && s.head == s.memory[node].next {
      PushRecorded(s, t, node, TryPush(s, t, node, spurious));
    }
  }

  lemma StealStepRecords(s: State, t: ThreadId, expected: Address, ordered: bool, spurious: bool)
    requires Inv(s) && HistoryOk(s) && t in s.threads && s.threads[t] == StealCas(expected, ordered)
    ensures HistoryOk(TrySteal(s, t, expected, ordered, spurious))
  {
    var u := TrySteal(s, t, expected, ordered, spurious);
    NumbersInMemory(s);
    if !spurious && s.head == expected != 0 {
      StealRecorded(s, t, ordered, u);
    } else {
      QuietSteps(s, t, u.threads[t], u);
    }
  }

  lemma TurnStepRecords(s: State, t: ThreadId)
    requires Inv(s) && HistoryOk(s) && t in s.threads && s.threads[t].Turning? && Enabled(s, Advance(t, false))
    ensures HistoryOk(Step(s, t, false))
  {
    assert ThreadSafe(s, t) && BatchSafe(s, t);
    NumbersInMemory(s);
    if s.threads[t].rest == [] {
      TurnedAllRecorded(s, t, Step(s, t, false));
    } else {
      TurnRecorded(s, t, Step(s, t, false));
    }
  }

  lemma DeliverStepRecords(s: State, t: ThreadId)
    requires Inv(s) && HistoryOk(s) && t in s.threads && s.threads[t].Delivering? && Enabled(s, Advance(t, false))
    ensures HistoryOk(Step(s, t, false))
  {
    assert ThreadSafe(s, t) && BatchSafe(s, t);
    NumbersInMemory(s);
    if s.threads[t].rest == [] {
      QuietSteps(s, t, Idle, Step(s, t, false));
    } else {
      DeliverRecorded(s, t, Step(s, t, false));
    }
  }

  lemma AdvanceRecords(s: State, t: ThreadId, spurious: bool)
    requires Inv(s) && HistoryOk(s) && Enabled(s, Advance(t, spurious))
    ensures HistoryOk(Step(s, t, spurious))
  {
    match s.threads[t]
    case PushLoad(node) => LoadStepRecords(s, t, node);
    case PushCas(node) => PushStepRecords(s, t, node, spurious);
    case Answering(node, n) =>
      NumbersInMemory(s);
      QuietSteps(s, t, Idle, GiveAnswer(s, t, node, n));
    case StealCas(expected, ordered) => StealStepRecords(s, t, expected, ordered, spurious);
    case Turning(_, _, _, _, _) => TurnStepRecords(s, t);
    case Delivering(_, _, _) => DeliverStepRecords(s, t);
  }

  lemma EveryStepRecords(s: State, a: Action)
    requires Inv(s) && HistoryOk(s) && Enabled(s, a)
    ensures HistoryOk(Apply(s, a))
  {
    NumbersInMemory(s);
    match a
    case Push(t, _, node) => QuietSteps(s, t, PushLoad(node), Apply(s, a));
    case Steal(t, ordered) => QuietSteps(s, t, StealCas(s.head, ordered), Apply(s, a));
    case Advance(t, spurious) => AdvanceRecords(s, t, spurious);
  }

  lemma {:induction false} EveryRunRecords(s: State, actions: seq<Action>, u: State)
    requires Inv(s) && HistoryOk(s) && Leads(s, actions, u)
    ensures Inv(u) && HistoryOk(u)
    decreases |actions|
  {
    if actions == [] {
    } else {
      EveryStepKeeps(s, actions[0]);
      EveryStepRecords(s, actions[0]);
      EveryRunRecords(Apply(s, actions[0]), actions[1..], u);
    }
  }

  /** What is known of a push when its CAS succeeds stays known. */
  ghost predicate Remembered(h: History, g: History) {
    && |h.fates| <= |g.fates|
    && forall n: nat | n < |h.fates| ::
         g.fates[n].wasEmpty == h.fates[n].wasEmpty && g.fates[n].steals == h.fates[n].steals
  }

  lemma MarksRemember(h: History, node: Address, wasEmpty: bool, steals: nat)
    ensures Remembered(h, Recorded(h, node, wasEmpty, steals)) && Remembered(h, MarkNewest(h, node))
    ensures Remembered(h, MarkTurned(h, node)) && Remembered(h, MarkDelivered(h, node))
  {
  }

  lemma StepRemembers(s: State, a: Action)
    requires Enabled(s, a)
    ensures Remembered(s.history, Apply(s, a).history)
  {
    if a.Advance? {
      match ThreadAt(s, a.thread)
      case PushCas(node) => MarksRemember(s.history, node, s.head == 0, |s.batches|);
      case StealCas(expected, _) => MarksRemember(s.history, expected, false, 0);
      case Turning(cur, _, _, _, _) => MarksRemember(s.history, cur, false, 0);
      case Delivering(cur, _, _) => MarksRemember(s.history, cur, false, 0);
      case _ =>
    }
  }

  lemma {:induction false} RunRemembers(s: State, actions: seq<Action>, u: State)
    requires Leads(s, actions, u)
    ensures Remembered(s.history, u.history)
    decreases |actions|
  {
    if actions == [] {
    } else {
      StepRemembers(s, actions[0]);
      RunRemembers(Apply(s, actions[0]), actions[1..], u);
    }
  }

  // ---------------------------------------------------------------- the theorems

  /** Before its answer, a push reads a node that still exists exactly when no sweep delivered it. */
  lemma AnswerFound(s: State, t: ThreadId, node: Address, n: nat)
    requires HistoryOk(s) && t in s.threads && s.threads[t] == Answering(node, n)
    ensures n < |s.history.fates|
    ensures var f := s.history.fates[n];
            && (AnswerAt(s, node, n).Some? <==> !f.delivered)
            && (!f.delivered ==> AnswerAt(s, node, n) == Some(if f.turned then f.newest else f.wasEmpty))
            && (f.turned || f.delivered ==> f.steals < |s.batches|)
  {
    assert RecordOk(s, t) && FateOk(s, n);
    if node in s.history.number {
      assert NodeOk(s, node);
    }
  }

  /** The same some steps after the push was recorded. */
  lemma AnswerLater(s: State, after: seq<Action>, u: State, t: ThreadId, node: Address, n: nat)
    requires Inv(s) && HistoryOk(s) && n < |s.history.fates| && Leads(s, after, u)
    requires t in u.threads && u.threads[t] == Answering(node, n)
    ensures n < |u.history.fates|
    ensures var f := u.history.fates[n];
            && (AnswerAt(u, node, n).Some? <==> !f.delivered)
            && (!f.delivered ==> AnswerAt(u, node, n) == Some(if f.turned then f.newest else s.history.fates[n].wasEmpty))
            && (f.turned || f.delivered ==> s.history.fates[n].steals < |u.batches|)
  {
    EveryRunRecords(s, after, u);
    RunRemembers(s, after, u);
    AnswerFound(u, t, node, n);
  }

  lemma AfterPush(before: seq<Action>, s: State, t: ThreadId, node: Address)
    requires Reaches(before, s) && t in s.threads && s.threads[t] == PushCas(node)
    requires node in s.memory && s.head == s.memory[node].next
    ensures var v := TryPush(s, t, node, false);
            && Inv(v) && HistoryOk(v) && |v.history.fates| == |s.history.fates| + 1
            && v.history.fates[|s.history.fates|] == Fate(node, s.head == 0, |s.batches|, false, false, false)
  {
    assert HistoryOk(Initial());
    EveryRunRecords(Initial(), before, s);
    PushStepKeeps(s, t, node, false);
    PushStepRecords(s, t, node, false);
  }

  /**
    The answer of `push`, between its CAS in `s` and its read in `u`. The read is safe exactly when no sweep has
    delivered the node. It is right exactly when, besides, no reversal has relinked the node, or the node was the
    newest of its batch just when it was pushed onto an empty stack. No steal in between is enough for both.
   */
  lemma AnswerExact(before: seq<Action>, s: State, t: ThreadId, node: Address, after: seq<Action>, u: State)
    requires Reaches(before, s) && t in s.threads && s.threads[t] == PushCas(node)
    requires node in s.memory && s.head == s.memory[node].next
    requires Leads(TryPush(s, t, node, false), after, u)
    requires t in u.threads && u.threads[t] == Answering(node, |s.history.fates|)
    ensures var n := |s.history.fates|;
            && n < |u.history.fates|
            && var f := u.history.fates[n];
            && (AnswerAt(u, node, n).Some? <==> !f.delivered)
            && (AnswerAt(u, node, n) == Some(s.head == 0) <==> !f.delivered && (f.turned ==> (f.newest <==> s.head == 0)))
            && (|u.batches| == |s.batches| ==> AnswerAt(u, node, n) == Some(s.head == 0))
  {
    var v := TryPush(s, t, node, false);
    AfterPush(before, s, t, node);
    AnswerLater(v, after, u, t, node, |s.history.fates|);
  }

  // ---------------------------------------------------------------- runs in which the answer fails

  /** A push up to its read, and a steal up to its first turn or delivery. */
  function PushActions(t: ThreadId, data: Item, node: Address): seq<Action> {
    [Push(t, data, node), Advance(t, false), Advance(t, false)]
  }

  function StealActions(t: ThreadId, ordered: bool): seq<Action> { [Steal(t, ordered), Advance(t, false)] }

  /** The state after a push that runs alone up to its read. */
  function Pushed(s: State, t: ThreadId, data: Item, node: Address): State
    requires Enabled(s, Push(t, data, node))
  {
    s.(memory := s.memory[node := Node(data, s.head)],
       head := node,
       threads := s.threads[t := Answering(node, |s.history.fates|)],
       pushed := s.pushed + [data],
       list := [node] + s.list,
       owner := s.owner[node := Shared],
       history := Recorded(s.history, node, s.head == 0, |s.batches|))
  }

  lemma PushRuns(s: State, t: ThreadId, data: Item, node: Address)
    requires Enabled(s, Push(t, data, node))
    ensures Leads(s, PushActions(t, data, node), Pushed(s, t, data, node))
  {
    var a := Advance(t, false);
    var s1 := Apply(s, Push(t, data, node));
    var s2 := Apply(s1, a);
    assert s1.threads[t] == PushLoad(node) && s2.threads[t] == PushCas(node);
    assert s2.memory == s.memory[node := Node(data, s.head)];
    var s3 := Apply(s2, a);
    assert s3.threads == s.threads[t := Answering(node, |s.history.fates|)];
    assert s3.owner == s.owner[node := Shared];
    assert s3 == Pushed(s, t, data, node);
    LeadsFirst(s2, a, [], s3);
    LeadsFirst(s1, a, [a], s3);
    LeadsFirst(s, Push(t, data, node), [a, a], s3);
  }

  /** A steal that runs alone up to its first turn or delivery. */
  function Stolen(s: State, t: ThreadId, ordered: bool): State {
    TrySteal(s, t, s.head, ordered, false)
  }

  lemma StealTwice(s: State, t: ThreadId, ordered: bool, s1: State)
    requires s1 == Become(s, t, StealCas(s.head, ordered)) && s.head != 0
    ensures TrySteal(s1, t, s.head, ordered, false) == Stolen(s, t, ordered)
  {
    var th := Stolen(s, t, ordered).threads[t];
    assert s1.threads[t := th] == s.threads[t := th];
  }

  lemma StealRuns(s: State, t: ThreadId, ordered: bool)
    requires ThreadAt(s, t).Idle? && s.head != 0
    ensures Leads(s, StealActions(t, ordered), Stolen(s, t, ordered))
  {
    var a := Advance(t, false);
    var s1 := Become(s, t, StealCas(s.head, ordered));
    var s2 := TrySteal(s1, t, s.head, ordered, false);
    StealTwice(s, t, ordered, s1);
    LeadsFirst(s1, a, [], s2);
    LeadsFirst(s, Steal(t, ordered), [a], s2);
  }

  /** A sweep by another thread frees the head. */
  lemma FreedByOther(s: State, y: Address) returns (u: State)
    requires s.head == y != 0 && y in s.memory && s.list != [] && s.list[0] == y && ThreadAt(s, 2).Idle?
    ensures Leads(s, StealActions(2, false) + [Advance(2, false)], u)
    ensures y !in u.memory && u.pushed == s.pushed
    ensures forall o | o in s.threads && o != 2 :: o in u.threads && u.threads[o] == s.threads[o]
  {
    StealRuns(s, 2, false);
    var v := Stolen(s, 2, false);
    assert v.threads[2] == Delivering(y, |s.batches|, s.list);
    u := Apply(v, Advance(2, false));
    LeadsFirst(v, Advance(2, false), [], u);
    LeadsCompose(s, StealActions(2, false), v, [Advance(2, false)], u);
  }

  /** A node that is pushed, stolen and delivered while its own push still has to read it. */
  lemma FreedBeforeAnswer() returns (s: State)
    ensures Reaches(PushActions(1, 5, 7) + (StealActions(2, false) + [Advance(2, false)]), s)
    ensures s.pushed == [5] && 1 in s.threads && s.threads[1] == Answering(7, 0) && 7 !in s.memory
    ensures AnswerAt(s, 7, 0) == None
  {
    PushRuns(Initial(), 1, 5, 7);
    var s1 := Pushed(Initial(), 1, 5, 7);
    s := FreedByOther(s1, 7);
    LeadsCompose(Initial(), PushActions(1, 5, 7), s1, StealActions(2, false) + [Advance(2, false)], s);
  }

  /** The first turn of a reversal, on the newest node. */
  lemma FirstTurn(s: State, t: ThreadId, cur: Address)
    requires t in s.threads && s.threads[t].Turning? && s.threads[t].cur == cur && s.threads[t].prev == 0
    requires s.threads[t].rest != [] && cur != 0 && cur in s.memory
    ensures Enabled(s, Advance(t, false))
    ensures var u := Apply(s, Advance(t, false));
            && Leads(s, [Advance(t, false)], u)
            && (forall o | o in s.threads && o != t :: o in u.threads && u.threads[o] == s.threads[o])
            && u.history.number == s.history.number && cur in u.memory && u.memory[cur].next == 0
  {
    LeadsFirst(s, Advance(t, false), [], Apply(s, Advance(t, false)));
  }

  /** An ordered sweep by another thread relinks the head. */
  lemma RelinkedByOther(s: State, y: Address) returns (u: State)
    requires s.head == y != 0 && y in s.memory && s.list != [] && s.list[0] == y && ThreadAt(s, 3).Idle?
    ensures Leads(s, StealActions(3, true) + [Advance(3, false)], u)
    ensures y in u.memory && u.memory[y].next == 0 && u.history.number == s.history.number
    ensures forall o | o in s.threads && o != 3 :: o in u.threads && u.threads[o] == s.threads[o]
  {
    StealRuns(s, 3, true);
    var v := Stolen(s, 3, true);
    FirstTurn(v, 3, y);
    u := Apply(v, Advance(3, false));
    LeadsCompose(s, StealActions(3, true), v, [Advance(3, false)], u);
  }

  /** A push onto any stack, whose node a reversal relinks first, answers that the stack was empty. */
  lemma RelinkedBeforeAnswer(s: State, data: Item, node: Address) returns (u: State)
    requires Enabled(s, Push(2, data, node)) && ThreadAt(s, 3).Idle?
    ensures Leads(s, PushActions(2, data, node) + (StealActions(3, true) + [Advance(3, false)]), u)
    ensures 2 in u.threads && u.threads[2] == Answering(node, |s.history.fates|)
    ensures AnswerAt(u, node, |s.history.fates|) == Some(true)
  {
    PushRuns(s, 2, data, node);
    var v := Pushed(s, 2, data, node);
    u := RelinkedByOther(v, node);
    LeadsCompose(s, PushActions(2, data, node), v, StealActions(3, true) + [Advance(3, false)], u);
  }

  /** A push that answers that the stack was empty, although it holds an item. */
  lemma WrongAnswer() returns (s: State, u: State)
    ensures Reaches(PushActions(1, 5, 7), s) && s.head == 7
    ensures Leads(s, PushActions(2, 6, 8) + (StealActions(3, true) + [Advance(3, false)]), u)
    ensures 2 in u.threads && u.threads[2] == Answering(8, 1) && AnswerAt(u, 8, 1) == Some(true)
  {
    PushRuns(Initial(), 1, 5, 7);
    s := Pushed(Initial(), 1, 5, 7);
    u := RelinkedBeforeAnswer(s, 6, 8);
  }
}

/** Every step on the stack keeps the invariant. */
module StackSteps {
  import opened Lists
  import opened LinkedMemory
  import opened StackProtocol
  import opened StackInvariant

  // ---------------------------------------------------------------- one thread moves, the others stay

  /** A step of `t` leaves the nodes of the other threads alone. */
  ghost predicate OthersKept(s: State, u: State, t: ThreadId) {
    && t in u.threads && u.threads == s.threads[t := u.threads[t]]
    && u.owner.Keys == u.memory.Keys
    && (forall x | x in s.owner && s.owner[x].Private? && s.owner[x].thread != t ::
          x in u.owner && u.owner[x] == s.owner[x] && x in s.memory && u.memory[x] == s.memory[x])
    && (forall x | x in u.owner && u.owner[x].Private? && u.owner[x].thread != t :: x in s.owner && s.owner[x] == u.owner[x])
  }

  lemma ThreadKept(s: State, u: State, t: ThreadId, other: ThreadId)
    requires OthersKept(s, u, t) && other != t && other in s.threads && ThreadSafe(s, other)
    ensures ThreadSafe(u, other)
    ensures AgreeOn(s.memory, u.memory, Holds(s.threads[other]))
  {
    var th := s.threads[other];
    match th {
      case Turning(cur, prev, _, rest, done) =>
        assert forall x | x in rest || x in done :: x in rest + done;
        ListKept(s.memory, u.memory, cur, rest);
        ListKept(s.memory, u.memory, prev, done);
      case Delivering(cur, _, rest) =>
        ListKept(s.memory, u.memory, cur, rest);
      case _ =>
    }
  }

  /** What the moving thread has to show. */
  ghost predicate Moved(s: State, u: State, t: ThreadId) {
    && OthersKept(s, u, t)
    && ThreadSafe(u, t)
    && IsList(u.memory, u.head, u.list) && Distinct(u.list)
    && (forall x | x in u.list :: x in u.owner && u.owner[x].Shared?)
    && (forall x | x in u.owner && (u.owner[x].Shared? || u.owner[x].thread == t) :: Accounted(u, x))
  }

  lemma MemoryStep(s: State, u: State, t: ThreadId)
    requires MemorySafe(s) && Moved(s, u, t)
    ensures MemorySafe(u)
  {
    forall other | other in u.threads ensures ThreadSafe(u, other) {
      if other != t {
        ThreadKept(s, u, t, other);
      }
    }
    forall x | x in u.owner ensures Accounted(u, x) {
      if u.owner[x].Private? && u.owner[x].thread != t {
        assert Accounted(s, x);
      }
    }
  }

  lemma {:induction false} PendingMembers(th: Thread)
    ensures forall x | x in Pending(th) :: x in Holds(th)
  {
    if th.Turning? {
      ReverseMembers(th.rest);
    }
  }

  /** What the moving thread has to show about the batches. */
  ghost predicate Counted(s: State, u: State, t: ThreadId) {
    && OthersKept(s, u, t)
    && |u.stolen| == |u.batches| >= |s.batches| == |s.stolen|
    && (forall k: nat | k < |s.batches| ::
          && u.stolen[k] == s.stolen[k] && u.batches[k].ordered == s.batches[k].ordered
          && (BatchOf(ThreadAt(s, t)) != Some(k) ==> u.batches[k] == s.batches[k]))
    && BatchSafe(u, t)
    && (forall k: nat | k < |u.batches| && BatchOf(u.threads[t]) == Some(k) :: k == |s.batches| || BatchOf(ThreadAt(s, t)) == Some(k))
    && (forall k: nat | k < |u.batches| && BatchOf(u.threads[t]) != Some(k) ::
          k < |s.batches| && (BatchOf(ThreadAt(s, t)) == Some(k) ==> Complete(u, k)))
  }

  lemma BatchKept(s: State, u: State, t: ThreadId, other: ThreadId)
    requires MemorySafe(s) && ItemsSafe(s) && Counted(s, u, t) && other != t && other in s.threads
    ensures BatchSafe(u, other)
    ensures BatchOf(s.threads[other]).Some? ==> BatchOf(s.threads[other]) != BatchOf(u.threads[t])
  {
    var th := s.threads[other];
    assert ThreadSafe(s, other) && BatchSafe(s, other);
    ThreadKept(s, u, t, other);
    PendingMembers(th);
    DataKept(s.memory, u.memory, Pending(th));
    if BatchOf(th).Some? && t in s.threads {
      assert BatchOf(s.threads[t]) != BatchOf(th);
    }
  }

  lemma StillComplete(s: State, u: State, t: ThreadId, k: nat)
    requires ItemsSafe(s) && Counted(s, u, t) && k < |u.batches| && !InProgress(u, k)
    ensures Complete(u, k)
  {
    assert BatchOf(u.threads[t]) != Some(k);
    if BatchOf(ThreadAt(s, t)) != Some(k) {
      forall other | other in s.threads ensures BatchOf(s.threads[other]) != Some(k) {
        assert other != t ==> u.threads[other] == s.threads[other];
      }
      assert Complete(s, k);
    }
  }

  lemma ItemsStep(s: State, u: State, t: ThreadId)
    requires MemorySafe(s) && ItemsSafe(s) && Counted(s, u, t)
    ensures ItemsSafe(u)
  {
    forall other | other in u.threads ensures BatchSafe(u, other) {
      if other != t {
        BatchKept(s, u, t, other);
      }
    }
    forall a, b | a in u.threads && b in u.threads && a != b
      ensures BatchOf(u.threads[a]) == None || BatchOf(u.threads[a]) != BatchOf(u.threads[b])
    {
      if a != t {
        BatchKept(s, u, t, a);
      }
      if b != t {
        BatchKept(s, u, t, b);
      }
    }
    forall k: nat | k < |u.batches| && !InProgress(u, k) ensures Complete(u, k) {
      StillComplete(s, u, t, k);
    }
  }

  /** A step that delivers at most into the thread's own batch. */
  lemma SameBatches(s: State, u: State, t: ThreadId)
    requires OthersKept(s, u, t) && |s.stolen| == |s.batches| == |u.batches| && u.stolen == s.stolen
    requires BatchOf(u.threads[t]) == BatchOf(ThreadAt(s, t)) && BatchSafe(u, t)
    requires forall k: nat | k < |s.batches| ::
               && u.batches[k].ordered == s.batches[k].ordered
               && (BatchOf(ThreadAt(s, t)) != Some(k) ==> u.batches[k] == s.batches[k])
    ensures Counted(s, u, t)
  {
  }

  lemma NewBatch(s: State, u: State, t: ThreadId, batch: Batch, items: seq<Item>)
    requires OthersKept(s, u, t) && |s.stolen| == |s.batches|
    requires u.batches == s.batches + [batch] && u.stolen == s.stolen + [items]
    requires BatchOf(ThreadAt(s, t)) == None && BatchOf(u.threads[t]) == Some(|s.batches|) && BatchSafe(u, t)
    ensures Counted(s, u, t)
  {
  }

  // ---------------------------------------------------------------- steps that only touch the thread's own node

  lemma ListUntouched(s: State, u: State)
    requires MemorySafe(s) && u.head == s.head && u.list == s.list && u.owner.Keys == u.memory.Keys
    requires AgreeOn(s.memory, u.memory, s.list)
    ensures IsList(u.memory, u.head, u.list) && Data(u.memory, u.list) == Data(s.memory, s.list)
  {
    ListKept(s.memory, u.memory, s.head, s.list);
    DataKept(s.memory, u.memory, s.list);
  }

  /** A thread whose nodes stay its own, while the shared list is left alone. */
  ghost predicate Reworked(s: State, u: State, t: ThreadId) {
    && OthersKept(s, u, t)
    && u.head == s.head && u.list == s.list && u.stolen == s.stolen && u.pushed == s.pushed
    && (forall x | x in u.owner :: x in s.owner && s.owner[x] == u.owner[x])
    && (forall x | x in s.owner && s.owner[x] != Private(t) :: x in u.owner && x in s.memory && u.memory[x] == s.memory[x])
  }

  lemma ReworkMoves(s: State, u: State, t: ThreadId)
    requires Inv(s) && t in s.threads && Reworked(s, u, t) && ThreadSafe(u, t)
    requires forall x | x in u.owner && x in Holds(s.threads[t]) :: x in Holds(u.threads[t])
    ensures MemorySafe(u) && Data(u.memory, u.list) == Data(s.memory, s.list)
  {
    ListUntouched(s, u);
    forall x | x in u.list ensures x in u.owner && u.owner[x].Shared? {
      assert s.owner[x].Shared?;
    }
    forall x | x in u.owner && (u.owner[x].Shared? || u.owner[x].thread == t) ensures Accounted(u, x) {
      assert Accounted(s, x);
    }
    MemoryStep(s, u, t);
  }

  /** A step that reworks the thread's own nodes, and delivers at most into its own batch. */
  lemma ReworkKeeps(s: State, u: State, t: ThreadId)
    requires Inv(s) && t in s.threads && Reworked(s, u, t) && ThreadSafe(u, t)
    requires forall x | x in u.owner && x in Holds(s.threads[t]) :: x in Holds(u.threads[t])
    requires |u.batches| == |s.batches| && |s.stolen| == |s.batches| && BatchSafe(u, t)
    requires Counted(s, u, t)
    ensures Inv(u)
  {
    ReworkMoves(s, u, t);
    ItemsStep(s, u, t);
  }

  lemma OwnsNothing(s: State, t: ThreadId)
    requires MemorySafe(s) && Holds(ThreadAt(s, t)) == []
    ensures forall x | x in s.owner :: s.owner[x] != Private(t)
  {
    forall x | x in s.owner ensures s.owner[x] != Private(t) {
      assert Accounted(s, x);
    }
  }

  lemma NewNodeOthers(s: State, u: State, t: ThreadId, node: Address, n: Node)
    requires s.owner.Keys == s.memory.Keys && node !in s.memory
    requires u.memory == s.memory[node := n] && u.owner == s.owner[node := Private(t)]
    requires u.threads == s.threads[t := PushLoad(node)]
    ensures OthersKept(s, u, t)
  {
  }

  lemma NewNode(s: State, u: State, t: ThreadId, node: Address, n: Node)
    requires MemorySafe(s) && node != 0 && node !in s.memory && (forall x | x in s.owner :: s.owner[x] != Private(t))
    requires u.memory == s.memory[node := n] && u.owner == s.owner[node := Private(t)]
    requires u.threads == s.threads[t := PushLoad(node)] && u.list == s.list && IsList(u.memory, u.head, u.list)
    ensures Moved(s, u, t)
  {
    NewNodeOthers(s, u, t, node, n);
    forall x | x in u.owner && (u.owner[x].Shared? || u.owner[x].thread == t) ensures Accounted(u, x) {
      if x != node {
        assert Accounted(s, x);
      }
    }
  }

  lemma StartPush(s: State, t: ThreadId, data: Item, node: Address)
    requires Inv(s) && Enabled(s, Push(t, data, node))
    ensures Inv(Apply(s, Push(t, data, node)))
  {
    var u := Apply(s, Push(t, data, node));
    ListUntouched(s, u);
    OwnsNothing(s, t);
    NewNode(s, u, t, node, Node(data, 0));
    MemoryStep(s, u, t);
    SameBatches(s, u, t);
    ItemsStep(s, u, t);
  }

  /** A step between two states of a thread that hold no node. */
  lemma EmptyHanded(s: State, u: State, t: ThreadId)
    requires Inv(s) && Holds(ThreadAt(s, t)) == [] && BatchOf(ThreadAt(s, t)) == None
    requires t in u.threads && u == s.(threads := s.threads[t := u.threads[t]], history := u.history)
    requires Holds(u.threads[t]) == [] && ListsOf(u.memory, u.threads[t]) && BatchOf(u.threads[t]) == None
    ensures Inv(u)
  {
    OwnsNothing(s, t);
    forall x | x in u.owner && u.owner[x].Shared? ensures Accounted(u, x) {
      assert Accounted(s, x);
    }
    MemoryStep(s, u, t);
    ItemsStep(s, u, t);
  }

  lemma StartSteal(s: State, t: ThreadId, ordered: bool)
    requires Inv(s) && Enabled(s, Steal(t, ordered))
    ensures Inv(Apply(s, Steal(t, ordered)))
  {
    var u := Apply(s, Steal(t, ordered));
    EmptyHanded(s, u, t);
  }

  lemma LinkReworks(s: State, u: State, t: ThreadId, node: Address)
    requires s.owner.Keys == s.memory.Keys && node in s.owner && s.owner[node] == Private(t) && node != 0
    requires u.memory == SetNext(s.memory, node, s.head) && u.owner == s.owner && u.threads == s.threads[t := PushCas(node)]
    requires u.head == s.head && u.list == s.list && u.stolen == s.stolen && u.pushed == s.pushed
    ensures Reworked(s, u, t) && ThreadSafe(u, t)
  {
  }

  /** Linking the new node to the head that was seen. */
  lemma LinkNode(s: State, t: ThreadId, node: Address)
    requires Inv(s) && t in s.threads && (s.threads[t] == PushLoad(node) || s.threads[t] == PushCas(node))
    ensures node in s.memory
    ensures Inv(Become(s, t, PushCas(node)).(memory := SetNext(s.memory, node, s.head)))
  {
    assert ThreadSafe(s, t) && node in Holds(s.threads[t]);
    var u := Become(s, t, PushCas(node)).(memory := SetNext(s.memory, node, s.head));
    LinkReworks(s, u, t, node);
    SameBatches(s, u, t);
    ReworkKeeps(s, u, t);
  }

  lemma NodeShared(s: State, u: State, node: Address)
    requires Distinct(s.list) && (forall x | x in s.list :: x in s.owner && s.owner[x].Shared?)
    requires node in s.owner && s.owner[node].Private? && u.list == [node] + s.list && u.owner == s.owner[node := Shared]
    ensures Distinct(u.list) && forall x | x in u.list :: x in u.owner && u.owner[x].Shared?
  {
  }

  lemma PushOthers(s: State, u: State, t: ThreadId, node: Address)
    requires s.owner.Keys == s.memory.Keys == u.memory.Keys && node in s.owner && s.owner[node] == Private(t)
    requires u.memory == s.memory && u.owner == s.owner[node := Shared] && t in u.threads && u.threads == s.threads[t := u.threads[t]]
    ensures OthersKept(s, u, t)
  {
  }

  lemma NodeListed(s: State, u: State, t: ThreadId, node: Address)
    requires MemorySafe(s) && t in s.threads && s.threads[t] == PushCas(node) && node in s.owner
    requires u.owner == s.owner[node := Shared] && u.list == [node] + s.list
    ensures forall x | x in u.owner && (u.owner[x].Shared? || u.owner[x].thread == t) :: Accounted(u, x)
  {
    forall x | x in u.owner && (u.owner[x].Shared? || u.owner[x].thread == t) ensures Accounted(u, x) {
      assert Accounted(s, x);
      assert x == node || x in s.list;
    }
  }

  lemma PushMoves(s: State, u: State, t: ThreadId, node: Address)
    requires MemorySafe(s) && t in s.threads && s.threads[t] == PushCas(node) && t in u.threads && u.threads[t].Answering?
    requires node in s.owner && s.owner[node] == Private(t) && node != 0 && s.head == s.memory[node].next
    requires u.memory == s.memory && u.head == node && u.list == [node] + s.list && u.owner == s.owner[node := Shared]
    requires u.threads == s.threads[t := u.threads[t]]
    ensures Moved(s, u, t)
  {
    ListCons(s.memory, node, s.list);
    NodeListed(s, u, t, node);
    PushOthers(s, u, t, node);
    NodeShared(s, u, node);
  }

  lemma PushCounts(s: State, t: ThreadId, node: Address)
    requires Inv(s) && t in s.threads && s.threads[t] == PushCas(node)
    requires node in s.memory && s.head == s.memory[node].next
    requires OthersKept(s, TryPush(s, t, node, false), t)
    ensures Counted(s, TryPush(s, t, node, false), t) && NothingLost(TryPush(s, t, node, false))
  {
    var u := TryPush(s, t, node, false);
    assert u.list[1..] == s.list;
    assert Data(u.memory, u.list) == [s.memory[node].data] + Data(s.memory, s.list);
    assert Data(u.memory, u.list)[1..] == Data(s.memory, s.list);
    ConcatAssociates(Flatten(s.stolen), Reverse(Data(s.memory, s.list)), [s.memory[node].data]);
  }

  /** A successful push: the node leaves the thread and becomes the head. */
  lemma PushSucceeds(s: State, t: ThreadId, node: Address)
    requires Inv(s) && t in s.threads && s.threads[t] == PushCas(node)
    requires node in s.memory && s.head == s.memory[node].next
    ensures Inv(TryPush(s, t, node, false))
  {
    var u := TryPush(s, t, node, false);
    assert ThreadSafe(s, t) && node in Holds(s.threads[t]);
    PushMoves(s, u, t, node);
    MemoryStep(s, u, t);
    PushCounts(s, t, node);
    ItemsStep(s, u, t);
  }

  // ---------------------------------------------------------------- stealing and delivering

  /** What the list was is now what the thread holds. */
  lemma StealHolds(s: State, u: State, t: ThreadId)
    requires MemorySafe(s) && u.memory == s.memory && (forall x | x in s.owner :: s.owner[x] != Private(t))
    requires u.owner == map x | x in s.owner :: if s.owner[x].Shared? then Private(t) else s.owner[x]
    requires t in u.threads && Holds(u.threads[t]) == s.list && (u.threads[t].Turning? || u.threads[t].Delivering?)
    requires ListsOf(u.memory, u.threads[t])
    ensures ThreadSafe(u, t)
    ensures forall x | x in u.owner && (u.owner[x].Shared? || u.owner[x].thread == t) :: Accounted(u, x)
  {
    forall x | x in u.owner && (u.owner[x].Shared? || u.owner[x].thread == t) ensures Accounted(u, x) {
      assert Accounted(s, x);
    }
  }

  lemma StealOthers(s: State, u: State, t: ThreadId)
    requires s.owner.Keys == s.memory.Keys && u.memory == s.memory && (forall x | x in s.owner :: s.owner[x] != Private(t))
    requires u.owner == map x | x in s.owner :: if s.owner[x].Shared? then Private(t) else s.owner[x]
    requires t in u.threads && u.threads == s.threads[t := u.threads[t]]
    ensures OthersKept(s, u, t)
  {
  }

  lemma StealMoves(s: State, u: State, t: ThreadId)
    requires MemorySafe(s) && u.memory == s.memory && (forall x | x in s.owner :: s.owner[x] != Private(t))
    requires u.owner == map x | x in s.owner :: if s.owner[x].Shared? then Private(t) else s.owner[x]
    requires t in u.threads && u.threads == s.threads[t := u.threads[t]] && u.list == [] && u.head == 0
    requires Holds(u.threads[t]) == s.list && ListsOf(u.memory, u.threads[t]) && (u.threads[t].Turning? || u.threads[t].Delivering?)
    ensures Moved(s, u, t)
  {
    StealOthers(s, u, t);
    StealHolds(s, u, t);
  }

  lemma StealPending(s: State, t: ThreadId, expected: Address, ordered: bool)
    ensures var u := TrySteal(s, t, expected, ordered, false);
            s.head == expected != 0 ==>
              Reverse(Data(s.memory, s.list)) == Oriented(ordered, [] + Data(s.memory, Pending(u.threads[t])))
  {
    DataReverse(s.memory, s.list);
    assert Reverse(s.list) + [] == Reverse(s.list);
    assert [] + Data(s.memory, s.list) == Data(s.memory, s.list);
    assert [] + Reverse(Data(s.memory, s.list)) == Reverse(Data(s.memory, s.list));
  }

  lemma StealBatch(s: State, t: ThreadId, expected: Address, ordered: bool)
    requires ItemsSafe(s) && s.head == expected != 0
    ensures var u := TrySteal(s, t, expected, ordered, false);
            t in u.threads && |u.stolen| == |u.batches| && BatchSafe(u, t)
  {
    StealPending(s, t, expected, ordered);
  }

  lemma StealCounts(s: State, t: ThreadId, expected: Address, ordered: bool)
    requires MemorySafe(s) && ItemsSafe(s) && t in s.threads && s.threads[t] == StealCas(expected, ordered)
    requires s.head == expected != 0
    requires OthersKept(s, TrySteal(s, t, expected, ordered, false), t)
    ensures Counted(s, TrySteal(s, t, expected, ordered, false), t)
  {
    StealBatch(s, t, expected, ordered);
    NewBatch(s, TrySteal(s, t, expected, ordered, false), t, Batch(ordered, []), Reverse(Data(s.memory, s.list)));
  }

  lemma StealTotals(s: State, t: ThreadId, expected: Address, ordered: bool)
    requires NothingLost(s) && s.head == expected != 0
    ensures NothingLost(TrySteal(s, t, expected, ordered, false))
  {
    var items := Reverse(Data(s.memory, s.list));
    FlattenAppend(s.stolen, items);
    var all := Flatten(s.stolen) + items;
    assert all + [] == all;
  }

  lemma StealSucceeds(s: State, t: ThreadId, expected: Address, ordered: bool)
    requires Inv(s) && t in s.threads && s.threads[t] == StealCas(expected, ordered)
    requires s.head == expected != 0
    ensures Inv(TrySteal(s, t, expected, ordered, false))
  {
    var u := TrySteal(s, t, expected, ordered, false);
    OwnsNothing(s, t);
    assert s.list + [] == s.list;
    StealMoves(s, u, t);
    MemoryStep(s, u, t);
    StealCounts(s, t, expected, ordered);
    StealTotals(s, t, expected, ordered);
    ItemsStep(s, u, t);
  }

  lemma AllTurnedThread(s: State, t: ThreadId, u: State)
    requires t in s.threads && s.threads[t].Turning? && s.threads[t].rest == []
    requires |s.stolen| == |s.batches| && ThreadSafe(s, t) && BatchSafe(s, t) && s.owner.Keys == s.memory.Keys
    requires u == Become(s, t, Delivering(s.threads[t].prev, s.threads[t].batch, s.threads[t].done))
    ensures Reworked(s, u, t) && ThreadSafe(u, t) && BatchSafe(u, t) && Holds(u.threads[t]) == Holds(s.threads[t])
  {
    var done := s.threads[t].done;
    assert [] + done == done && Reverse<Address>([]) + done == done;
  }

  lemma TurnedAll(s: State, t: ThreadId, u: State)
    requires Inv(s) && t in s.threads && s.threads[t].Turning? && s.threads[t].rest == []
    requires u == Become(s, t, Delivering(s.threads[t].prev, s.threads[t].batch, s.threads[t].done))
    ensures Inv(u)
  {
    assert ThreadSafe(s, t) && BatchSafe(s, t);
    AllTurnedThread(s, t, u);
    SameBatches(s, u, t);
    ReworkKeeps(s, u, t);
  }

  ghost predicate Turned(s: State, t: ThreadId, u: State) {
    && t in s.threads && s.threads[t].Turning? && s.threads[t].rest != []
    && var th := s.threads[t];
    && th.cur in s.memory
    && u.memory == SetNext(s.memory, th.cur, th.prev)
    && u.threads == s.threads[t := Turning(s.memory[th.cur].next, th.cur, th.batch, th.rest[1..], [th.cur] + th.done)]
    && u.head == s.head && u.list == s.list && u.owner == s.owner
    && u.batches == s.batches && u.stolen == s.stolen && u.pushed == s.pushed
  }

  lemma DistinctParts(rest: seq<Address>, done: seq<Address>)
    requires Distinct(rest + done)
    ensures Distinct(rest) && Distinct(done)
    ensures forall y :: y in rest + done <==> y in rest || y in done
    ensures forall y | y in rest :: y !in done
  {
    var all := rest + done;
    assert forall i :: 0 <= i < |rest| ==> all[i] == rest[i];
    assert forall i :: 0 <= i < |done| ==> all[|rest| + i] == done[i];
  }

  lemma DistinctTurn(x: Address, rest: seq<Address>, done: seq<Address>)
    requires Distinct([x] + rest + done)
    ensures x !in rest && x !in done && Distinct(rest + ([x] + done))
  {
    var all := [x] + rest + done;
    assert all == [x] + (rest + done) && all[0] == x;
    assert all[1..] == rest + done;
    FirstAndRest(x, all);
    DistinctParts(rest, done);
    DistinctConcat([x], done);
    DistinctConcat(rest, [x] + done);
  }

  /** The thread after one turn, and the memory it leaves. */
  lemma TurnThread(m: map<Address, Node>, th: Thread)
    requires th.Turning? && th.rest != [] && ListsOf(m, th) && Distinct(Holds(th))
    ensures th.cur in m
    ensures var next := Turning(m[th.cur].next, th.cur, th.batch, th.rest[1..], [th.cur] + th.done);
            && ListsOf(SetNext(m, th.cur, th.prev), next)
            && Distinct(Holds(next))
            && Pending(next) == Pending(th)
            && forall x :: x in Holds(next) <==> x in Holds(th)
  {
    var Turning(cur, prev, k, rest, done) := th;
    var n := SetNext(m, cur, prev);
    ListMembers(m, cur, rest);
    ListMembers(m, prev, done);
    assert rest == [cur] + rest[1..];
    DistinctTurn(cur, rest[1..], done);
    ListKept(m, n, m[cur].next, rest[1..]);
    ListKept(m, n, prev, done);
    assert ([cur] + done)[1..] == done;
    ConcatAssociates(Reverse(rest[1..]), [cur], done);
  }

  lemma TurnMoves(s: State, t: ThreadId, u: State)
    requires MemorySafe(s) && Turned(s, t, u)
    ensures ThreadSafe(u, t) && Reworked(s, u, t)
    ensures forall x :: x in Holds(u.threads[t]) <==> x in Holds(s.threads[t])
  {
    var th := s.threads[t];
    assert ThreadSafe(s, t);
    TurnThread(s.memory, th);
    assert th.cur in Holds(th);
  }

  lemma TurnBatch(s: State, t: ThreadId, u: State)
    requires MemorySafe(s) && ItemsSafe(s) && Turned(s, t, u)
    ensures BatchSafe(u, t)
  {
    var th := s.threads[t];
    assert ThreadSafe(s, t) && BatchSafe(s, t);
    TurnThread(s.memory, th);
    PendingMembers(th);
    DataKept(s.memory, u.memory, Pending(th));
  }

  /** One turn of the reversal. */
  lemma TurnedOne(s: State, t: ThreadId, u: State)
    requires Inv(s) && Turned(s, t, u)
    ensures Inv(u)
  {
    TurnMoves(s, t, u);
    TurnBatch(s, t, u);
    SameBatches(s, u, t);
    ReworkKeeps(s, u, t);
  }

  lemma TurnKeeps(s: State, t: ThreadId)
    requires Inv(s) && t in s.threads && s.threads[t].Turning?
    requires Enabled(s, Advance(t, false))
    ensures Inv(Step(s, t, false))
  {
    assert ThreadSafe(s, t);
    if s.threads[t].rest == [] {
      TurnedAll(s, t, Step(s, t, false));
    } else {
      TurnedOne(s, t, Step(s, t, false));
    }
  }

  /** One delivery, field by field. */
  ghost predicate DeliveredNext(s: State, t: ThreadId, u: State) {
    && t in s.threads && s.threads[t].Delivering? && s.threads[t].rest != []
    && |s.stolen| == |s.batches| && s.owner.Keys == s.memory.Keys
    && var th := s.threads[t];
    && th.batch < |s.batches| && th.cur in s.memory
    && u.memory == s.memory - {th.cur} && u.owner == s.owner - {th.cur}
    && u.threads == s.threads[t := Delivering(s.memory[th.cur].next, th.batch, th.rest[1..])]
    && u.head == s.head && u.list == s.list && u.stolen == s.stolen && u.pushed == s.pushed
    && var b := s.batches[th.batch];
    && u.batches == s.batches[th.batch := b.(delivered := b.delivered + [s.memory[th.cur].data])]
  }

  /** The thread after one delivery, and the memory without the freed node. */
  lemma DeliverThread(m: map<Address, Node>, th: Thread)
    requires th.Delivering? && th.rest != [] && ListsOf(m, th) && Distinct(Holds(th))
    ensures th.cur == th.rest[0] && th.cur in m
    ensures var next := Delivering(m[th.cur].next, th.batch, th.rest[1..]);
            && ListsOf(m - {th.cur}, next)
            && Distinct(Holds(next))
            && Data(m, th.rest) == [m[th.cur].data] + Data(m - {th.cur}, th.rest[1..])
            && forall x :: x in Holds(th) <==> x == th.cur || x in Holds(next)
  {
    assert th.rest == [th.cur] + th.rest[1..];
    ListMembers(m, m[th.cur].next, th.rest[1..]);
    ListKept(m, m - {th.cur}, m[th.cur].next, th.rest[1..]);
    DataKept(m, m - {th.cur}, th.rest[1..]);
  }

  lemma DeliverMoves(s: State, t: ThreadId, u: State)
    requires DeliveredNext(s, t, u) && ThreadSafe(s, t)
    ensures t in u.threads && ThreadSafe(u, t) && Reworked(s, u, t)
    ensures forall x | x in u.owner && x in Holds(s.threads[t]) :: x in Holds(u.threads[t])
  {
    var th := s.threads[t];
    DeliverThread(s.memory, th);
    assert th.cur in Holds(th);
  }

  lemma DeliverBatch(s: State, t: ThreadId, u: State)
    requires DeliveredNext(s, t, u) && ThreadSafe(s, t) && BatchSafe(s, t)
    ensures |u.stolen| == |u.batches| && BatchSafe(u, t)
  {
    var th := s.threads[t];
    DeliverThread(s.memory, th);
    ConcatAssociates(s.batches[th.batch].delivered, [s.memory[th.cur].data], Data(u.memory, th.rest[1..]));
  }

  lemma DeliveredOne(s: State, t: ThreadId, u: State)
    requires Inv(s) && DeliveredNext(s, t, u)
    ensures Inv(u)
  {
    assert ThreadSafe(s, t) && BatchSafe(s, t);
    DeliverMoves(s, t, u);
    DeliverBatch(s, t, u);
    SameBatches(s, u, t);
    ReworkKeeps(s, u, t);
  }

  /** The last batch of a thread that has delivered everything is complete. */
  lemma AllDelivered(s: State, t: ThreadId, u: State)
    requires t in s.threads && s.threads[t].Delivering? && s.threads[t].rest == [] && u == Become(s, t, Idle)
    requires |s.stolen| == |s.batches| && ThreadSafe(s, t) && BatchSafe(s, t) && s.owner.Keys == s.memory.Keys
    ensures Reworked(s, u, t) && ThreadSafe(u, t) && BatchSafe(u, t) && Counted(s, u, t)
  {
    var done := s.batches[s.threads[t].batch].delivered;
    assert done + [] == done;
  }

  lemma DeliveredAll(s: State, t: ThreadId, u: State)
    requires Inv(s) && t in s.threads && s.threads[t].Delivering? && s.threads[t].rest == []
    requires u == Become(s, t, Idle)
    ensures Inv(u)
  {
    assert ThreadSafe(s, t) && BatchSafe(s, t);
    AllDelivered(s, t, u);
    ReworkKeeps(s, u, t);
  }

  lemma DeliverKeeps(s: State, t: ThreadId)
    requires Inv(s) && t in s.threads && s.threads[t].Delivering?
    requires Enabled(s, Advance(t, false))
    ensures Inv(Step(s, t, false))
  {
    var u := Step(s, t, false);
    assert ThreadSafe(s, t) && BatchSafe(s, t);
    if s.threads[t].rest == [] {
      DeliveredAll(s, t, u);
    } else {
      DeliveredOne(s, t, u);
    }
  }

  // ---------------------------------------------------------------- every step, every run

  lemma PushStepKeeps(s: State, t: ThreadId, node: Address, spurious: bool)
    requires Inv(s) && t in s.threads && s.threads[t] == PushCas(node)
    ensures node in s.memory && Inv(TryPush(s, t, node, spurious))
  {
    LinkNode(s, t, node);
    if !spurious && s.head == s.memory[node].next {
      PushSucceeds(s, t, node);
    }
  }

  lemma StealStepKeeps(s: State, t: ThreadId, expected: Address, ordered: bool, spurious: bool)
    requires Inv(s) && t in s.threads && s.threads[t] == StealCas(expected, ordered)
    ensures Inv(TrySteal(s, t, expected, ordered, spurious))
  {
    if !spurious && s.head == expected != 0 {
      StealSucceeds(s, t, expected, ordered);
    } else {
      EmptyHanded(s, TrySteal(s, t, expected, ordered, spurious), t);
    }
  }

  lemma AdvanceKeeps(s: State, t: ThreadId, spurious: bool)
    requires Inv(s) && Enabled(s, Advance(t, spurious))
    ensures Inv(Step(s, t, spurious))
  {
    match s.threads[t]
    case PushLoad(node) => LinkNode(s, t, node);
    case PushCas(node) => PushStepKeeps(s, t, node, spurious);
    case Answering(node, n) => EmptyHanded(s, GiveAnswer(s, t, node, n), t);
    case StealCas(expected, ordered) => StealStepKeeps(s, t, expected, ordered, spurious);
    case Turning(_, _, _, _, _) => TurnKeeps(s, t);
    case Delivering(_, _, _) => DeliverKeeps(s, t);
  }

  lemma EveryStepKeeps(s: State, a: Action)
    requires Inv(s) && Enabled(s, a)
    ensures Inv(Apply(s, a))
  {
    match a
    case Push(t, data, node) => StartPush(s, t, data, node);
    case Steal(t, ordered) => StartSteal(s, t, ordered);
    case Advance(t, spurious) => AdvanceKeeps(s, t, spurious);
  }

  lemma {:induction false} EveryRunKeeps(s: State, actions: seq<Action>, u: State)
    requires Inv(s) && Leads(s, actions, u)
    ensures Inv(u)
    decreases |actions|
  {
    if actions == [] {
    } else {
      EveryStepKeeps(s, actions[0]);
      EveryRunKeeps(Apply(s, actions[0]), actions[1..], u);
    }
  }
}

/** What every step on the stack keeps. */
module StackInvariant {
  import opened Lists
  import opened LinkedMemory
  import opened StackProtocol

  /** The nodes in the hands of a thread. */
  function Holds(th: Thread): seq<Address> {
    match th
    case PushLoad(a) => [a]
    case PushCas(a) => [a]
    case Turning(_, _, _, rest, done) => rest + done
    case Delivering(_, _, rest) => rest
    case _ => []
  }

  function BatchOf(th: Thread): Option<nat> {
    match th
    case Turning(_, _, k, _, _) => Some(k)
    case Delivering(_, k, _) => Some(k)
    case _ => None
  }

  /** The nodes that the thread still has to deliver, in the order of delivery. */
  function Pending(th: Thread): seq<Address> {
    match th
    case Turning(_, _, _, rest, done) => Reverse(rest) + done
    case Delivering(_, _, rest) => rest
    case _ => []
  }

  predicate ListsOf(m: map<Address, Node>, th: Thread) {
    match th
    case PushLoad(a) => a in m && a != 0
    case PushCas(a) => a in m && a != 0
    case Turning(cur, prev, _, rest, done) => IsList(m, cur, rest) && IsList(m, prev, done)
    case Delivering(cur, _, rest) => IsList(m, cur, rest)
    case _ => true
  }

  /** Oldest first, whichever way the batch is delivered. */
  function Oriented(ordered: bool, items: seq<Item>): seq<Item> { if ordered then items else Reverse(items) }

  ghost predicate ThreadSafe(s: State, t: ThreadId)
    requires t in s.threads
  {
    var th := s.threads[t];
    && ListsOf(s.memory, th)
    && Distinct(Holds(th))
    && (forall x | x in Holds(th) :: x in s.owner && s.owner[x] == Private(t))
  }

  ghost predicate BatchSafe(s: State, t: ThreadId)
    requires t in s.threads && |s.stolen| == |s.batches|
  {
    var th := s.threads[t];
    BatchOf(th).Some? ==>
      var k := BatchOf(th).value;
      && k < |s.batches|
      && (th.Turning? ==> s.batches[k].ordered)
      && s.stolen[k] == Oriented(s.batches[k].ordered, s.batches[k].delivered + Data(s.memory, Pending(th)))
  }

  ghost predicate InProgress(s: State, k: nat) {
    exists t | t in s.threads :: BatchOf(s.threads[t]) == Some(k)
  }

  ghost predicate Complete(s: State, k: nat)
    requires k < |s.batches| == |s.stolen|
  {
    s.stolen[k] == Oriented(s.batches[k].ordered, s.batches[k].delivered)
  }

  /** Every node belongs to the list or to one thread, and is held there. */
  ghost predicate Accounted(s: State, x: Address)
    requires x in s.owner
  {
    match s.owner[x]
    case Shared => x in s.list
    case Private(t) => t in s.threads && x in Holds(s.threads[t])
  }

  ghost predicate MemorySafe(s: State) {
    && s.owner.Keys == s.memory.Keys
    && IsList(s.memory, s.head, s.list) && Distinct(s.list)
    && (forall x | x in s.list :: x in s.owner && s.owner[x].Shared?)
    && (forall t | t in s.threads :: ThreadSafe(s, t))
    && (forall x | x in s.owner :: Accounted(s, x))
  }

  ghost predicate ItemsSafe(s: State) {
    && |s.stolen| == |s.batches|
    && (forall t | t in s.threads :: BatchSafe(s, t))
    && (forall t, u | t in s.threads && u in s.threads && t != u ::
          BatchOf(s.threads[t]) == None || BatchOf(s.threads[t]) != BatchOf(s.threads[u]))
    && (forall k: nat | k < |s.batches| && !InProgress(s, k) :: Complete(s, k))
  }

  /** What was stolen, and then what is on the list, oldest first, is everything pushed so far. */
  ghost predicate NothingLost(s: State) {
    Flatten(s.stolen) + Reverse(Data(s.memory, s.list)) == s.pushed
  }

  ghost predicate Inv(s: State) { MemorySafe(s) && ItemsSafe(s) && NothingLost(s) }
}

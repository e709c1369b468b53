/**
  `Stack`, the lock-free stack, as interleaved atomic steps on nodes in memory: any number of threads push, and steal
  the whole list to deliver it. Addresses are numbers, 0 is null, and a freed address may be allocated again at once,
  so the head seen by a CAS may be a new node at an old address.
 */
module StackProtocol {
  import opened Lists
  import opened LinkedMemory

  type ThreadId = int

  /**
    The program counter and locals of a thread. `rest` and `done` are the nodes reachable from `cur` and `prev`:
    auxiliary, like `Owner` and `stolen` below, and read by no step of the code.
   */
  datatype Thread =
    | Idle
    | PushLoad(node: Address)
    | PushCas(node: Address)
    | Answering(node: Address, push: nat)   // the read of next after the push, whose number is `push`
    | StealCas(expected: Address, ordered: bool)
    | Turning(cur: Address, prev: Address, batch: nat, rest: seq<Address>, done: seq<Address>)
    | Delivering(cur: Address, batch: nat, rest: seq<Address>)

  /** What one `sweep` or `sweep_ordered` has handed to its callback. */
  datatype Batch = Batch(ordered: bool, delivered: seq<Item>)

  datatype Owner = Shared | Private(thread: ThreadId)

  /**
    What became of a push: where its node was, whether the stack was empty and how many steals there had been; whether
    its node was the newest when it was stolen, was relinked by the reversal, and was delivered and freed.
   */
  datatype Fate = Fate(node: Address, wasEmpty: bool, steals: nat, newest: bool, turned: bool, delivered: bool)

  /** What a push answered; None for a read of a freed node. */
  datatype Answer = Answer(push: nat, empty: Option<bool>)

  /** Auxiliary: the push that made each node, the fate of every push, and the answers given. */
  datatype History = History(number: map<Address, nat>, fates: seq<Fate>, answers: seq<Answer>)

  datatype State = State(
    memory: map<Address, Node>,
    head: Address,
    threads: map<ThreadId, Thread>,
    batches: seq<Batch>,           // in the order of the successful stealing CAS
    pushed: seq<Item>,             // in the order of the successful pushing CAS
    list: seq<Address>,            // auxiliary: the nodes reachable from the head
    owner: map<Address, Owner>,    // auxiliary: who may touch a node
    stolen: seq<seq<Item>>,        // auxiliary: what each steal took, oldest first
    history: History)

  datatype Action =
    | Push(thread: ThreadId, data: Item, node: Address)
    | Steal(thread: ThreadId, ordered: bool)
    | Advance(thread: ThreadId, spurious: bool)

  function ThreadAt(s: State, t: ThreadId): Thread { if t in s.threads then s.threads[t] else Idle }

  /** The addresses that the next step of the thread reads or writes. */
  function Touches(th: Thread): set<Address> {
    match th
    case PushLoad(a) => {a}
    case PushCas(a) => {a}
    case Answering(a, _) => {a}
    case Turning(cur, _, _, _, _) => if cur == 0 then {} else {cur}
    case Delivering(cur, _, _) => if cur == 0 then {} else {cur}
    case _ => {}
  }

  predicate Enabled(s: State, a: Action) {
    match a
    case Push(t, _, node) => ThreadAt(s, t).Idle? && node != 0 && node !in s.memory
    case Steal(t, _) => ThreadAt(s, t).Idle?
    case Advance(t, _) =>
      && !ThreadAt(s, t).Idle?
      && (ThreadAt(s, t).Answering? || forall x | x in Touches(ThreadAt(s, t)) :: x in s.memory)
  }

  // ---------------------------------------------------------------- history

  function Recorded(h: History, node: Address, wasEmpty: bool, steals: nat): History {
    h.(number := h.number[node := |h.fates|], fates := h.fates + [Fate(node, wasEmpty, steals, false, false, false)])
  }

  predicate Known(h: History, node: Address) { node in h.number && h.number[node] < |h.fates| }

  function FateOf(h: History, node: Address): Fate
    requires Known(h, node)
  {
    h.fates[h.number[node]]
  }

  function SetFate(h: History, node: Address, f: Fate): History {
    if Known(h, node) then h.(fates := h.fates[h.number[node] := f]) else h
  }

  function MarkNewest(h: History, node: Address): History {
    if Known(h, node) then SetFate(h, node, FateOf(h, node).(newest := true)) else h
  }

  function MarkTurned(h: History, node: Address): History {
    if Known(h, node) then SetFate(h, node, FateOf(h, node).(turned := true)) else h
  }

  function MarkDelivered(h: History, node: Address): History {
    var g := if Known(h, node) then SetFate(h, node, FateOf(h, node).(delivered := true)) else h;
    g.(number := g.number - {node})
  }

  /** What `return new_node->next == nullptr` gives, or None when the node of that push is gone. */
  function AnswerAt(s: State, node: Address, push: nat): Option<bool> {
    if node in s.memory && node in s.history.number && s.history.number[node] == push
    then Some(s.memory[node].next == 0) else None
  }

  // ---------------------------------------------------------------- steps

  function Become(s: State, t: ThreadId, th: Thread): State { s.(threads := s.threads[t := th]) }

  /** The weak CAS of `push`, which writes the head it saw into the new node when it fails. */
  function TryPush(s: State, t: ThreadId, node: Address, spurious: bool): State
    requires node in s.memory
  {
    if !spurious && s.head == s.memory[node].next then
      Become(s, t, Answering(node, |s.history.fates|)).(
        head := node,
        pushed := s.pushed + [s.memory[node].data],
        list := [node] + s.list,
        owner := s.owner[node := Shared],
        history := Recorded(s.history, node, s.head == 0, |s.batches|))
    else
      Become(s, t, PushCas(node)).(memory := SetNext(s.memory, node, s.head))
  }

  /** The answer of `push`, read from the node that other threads may have taken by now. */
  function GiveAnswer(s: State, t: ThreadId, node: Address, n: nat): State {
    Become(s, t, Idle).(history := s.history.(answers := s.history.answers + [Answer(n, AnswerAt(s, node, n))]))
  }

  /** The weak CAS of `steel_head`, which puts null at the head and keeps the list it took. */
  function TrySteal(s: State, t: ThreadId, expected: Address, ordered: bool, spurious: bool): State {
    if spurious || s.head != expected then Become(s, t, StealCas(s.head, ordered))
    else if expected == 0 then Become(s, t, Idle)
    else
      var k := |s.batches|;
      Become(s, t, if ordered then Turning(expected, 0, k, s.list, []) else Delivering(expected, k, s.list)).(
        head := 0,
        list := [],
        owner := map x | x in s.owner :: if s.owner[x].Shared? then Private(t) else s.owner[x],
        batches := s.batches + [Batch(ordered, [])],
        stolen := s.stolen + [Reverse(Data(s.memory, s.list))],
        history := MarkNewest(s.history, expected))
  }

  /** Hand the item to the callback and free its node. */
  function Deliver(s: State, t: ThreadId, cur: Address, k: nat, rest: seq<Address>): State
    requires cur in s.memory && k < |s.batches| && rest != []
  {
    var batch := s.batches[k];
    Become(s, t, Delivering(s.memory[cur].next, k, rest[1..])).(
      memory := s.memory - {cur},
      owner := s.owner - {cur},
      batches := s.batches[k := batch.(delivered := batch.delivered + [s.memory[cur].data])],
      history := MarkDelivered(s.history, cur))
  }

  /** One atomic access, or one turn of a private loop. */
  function Step(s: State, t: ThreadId, spurious: bool): State
    requires Enabled(s, Advance(t, spurious))
  {
    match ThreadAt(s, t)
    case PushLoad(node) => Become(s, t, PushCas(node)).(memory := SetNext(s.memory, node, s.head))
    case PushCas(node) => TryPush(s, t, node, spurious)
    case Answering(node, n) => GiveAnswer(s, t, node, n)
    case StealCas(expected, ordered) => TrySteal(s, t, expected, ordered, spurious)
    case Turning(cur, prev, k, rest, done) =>
      if cur == 0 || rest == [] then Become(s, t, Delivering(prev, k, done))
      else Become(s, t, Turning(s.memory[cur].next, cur, k, rest[1..], [cur] + done)).(
             memory := SetNext(s.memory, cur, prev), history := MarkTurned(s.history, cur))
    case Delivering(cur, k, rest) =>
      if cur == 0 || rest == [] || k >= |s.batches| then Become(s, t, Idle) else Deliver(s, t, cur, k, rest)
  }

  function Apply(s: State, a: Action): State
    requires Enabled(s, a)
  {
    match a
    case Push(t, data, node) =>
      Become(s, t, PushLoad(node)).(memory := s.memory[node := Node(data, 0)], owner := s.owner[node := Private(t)])
    case Steal(t, ordered) => Become(s, t, StealCas(s.head, ordered))
    case Advance(t, spurious) => Step(s, t, spurious)
  }

  function Initial(): State { State(map[], 0, map[], [], [], [], map[], [], History(map[], [], [])) }

  ghost predicate Leads(s: State, actions: seq<Action>, t: State)
    decreases |actions|
  {
    if actions == [] then s == t
    else Enabled(s, actions[0]) && Leads(Apply(s, actions[0]), actions[1..], t)
  }
}

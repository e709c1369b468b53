/**
  `CoroEvent` as interleaved atomic steps: awaits, `set`, `reset`, on one word that is set, empty, or the head of a
  list of wait operations. A wait operation lives in the frame of its coroutine, so it is gone as soon as the
  coroutine goes on, and the next await may be at the same address.
 */
module EventProtocol {
  import opened Lists
  import opened LinkedMemory

  type CallId = int
  type AwaitId = Item

  /** The three states of the word. */
  datatype Word = Set | Waiters(head: Address)

  datatype Call =
    | Ready(op: Address)                                  // await_ready
    | Suspend(op: Address)                                // the load of await_suspend
    | Enqueue(op: Address)                                // its CAS, which expects the op's next as the head
    | Exchange
    | Resuming(current: Address, turn: nat, rest: seq<Address>)

  /** `Queued(n)`: on the list since before the set exchange number n. */
  datatype Status = Starting | Passed | Queued(turn: nat)

  /** `op` is where its wait operation lives, until the coroutine goes on: auxiliary. */
  datatype Await = Await(status: Status, resumedBy: seq<nat>, op: Option<Address>)

  datatype Owner = Listed | Private(call: CallId)

  datatype State = State(
    word: Word,
    ops: map<Address, Node>,       // live wait operations; the item is the await they belong to
    calls: map<CallId, Call>,
    awaits: map<AwaitId, Await>,
    turns: nat,                    // how many exchanges of `set` there were
    list: seq<Address>,            // auxiliary: the operations reachable from the word
    owner: map<Address, Owner>)    // auxiliary: who may touch an operation

  datatype Action =
    | CoAwait(call: CallId, await: AwaitId, op: Address)
    | SetEvent(call: CallId)
    | Reset
    | Advance(call: CallId, spurious: bool)

  /** The operation that the next step of the call reads or writes. */
  function Touches(c: Call): Option<Address> {
    match c
    case Ready(op) => Some(op)
    case Suspend(op) => Some(op)
    case Enqueue(op) => Some(op)
    case Exchange => None
    case Resuming(current, _, _) => if current == 0 then None else Some(current)
  }

  predicate Enabled(s: State, a: Action) {
    match a
    case CoAwait(c, w, op) => c !in s.calls && w !in s.awaits && op != 0 && op !in s.ops
    case SetEvent(c) => c !in s.calls
    case Reset => true
    case Advance(c, _) =>
      && c in s.calls
      && (Touches(s.calls[c]).Some? ==>
            Touches(s.calls[c]).value in s.ops && s.ops[Touches(s.calls[c]).value].data in s.awaits)
  }

  function Become(s: State, c: CallId, call: Call): State { s.(calls := s.calls[c := call]) }

  function Finish(s: State, c: CallId): State { s.(calls := s.calls - {c}) }

  /** The coroutine goes on without having suspended. */
  function Pass(s: State, c: CallId, op: Address): State
    requires op in s.ops && s.ops[op].data in s.awaits
  {
    var w := s.ops[op].data;
    Finish(s, c).(awaits := s.awaits[w := s.awaits[w].(status := Passed, op := None)], ops := s.ops - {op}, owner := s.owner - {op})
  }

  /** The body of the loop of `await_suspend` on a word just read. */
  function Look(s: State, c: CallId, op: Address): State
    requires op in s.ops && s.ops[op].data in s.awaits
  {
    if s.word.Set? then Pass(s, c, op) else Become(s, c, Enqueue(op)).(ops := SetNext(s.ops, op, s.word.head))
  }

  function Enlist(s: State, c: CallId, op: Address): State
    requires op in s.ops && s.ops[op].data in s.awaits
  {
    var w := s.ops[op].data;
    Finish(s, c).(word := Waiters(op), list := [op] + s.list, owner := s.owner[op := Listed],
                  awaits := s.awaits[w := s.awaits[w].(status := Queued(s.turns))])
  }

  /** The exchange of `set`. */
  function TakeAll(s: State, c: CallId): State {
    var t := s.(turns := s.turns + 1);
    if s.word.Set? then Finish(t, c)
    else
      Become(t, c, Resuming(s.word.head, s.turns, s.list)).(
        word := Set,
        list := [],
        owner := map x | x in s.owner :: if s.owner[x].Listed? then Private(c) else s.owner[x])
  }

  /** One turn of the loop of `set`: read the next operation, then resume the coroutine of this one. */
  function Resume(s: State, c: CallId, current: Address, k: nat, rest: seq<Address>): State
    requires current in s.ops && s.ops[current].data in s.awaits && rest != []
  {
    var w := s.ops[current].data;
    Become(s, c, Resuming(s.ops[current].next, k, rest[1..])).(
      awaits := s.awaits[w := s.awaits[w].(resumedBy := s.awaits[w].resumedBy + [k], op := None)],
      ops := s.ops - {current},
      owner := s.owner - {current})
  }

  function Step(s: State, c: CallId, spurious: bool): State
    requires Enabled(s, Advance(c, spurious))
  {
    match s.calls[c]
    case Ready(op) => if s.word.Set? then Pass(s, c, op) else Become(s, c, Suspend(op))
    case Suspend(op) => Look(s, c, op)
    case Enqueue(op) =>
      if !spurious && s.word == Waiters(s.ops[op].next) then Enlist(s, c, op) else Look(s, c, op)
    case Exchange => TakeAll(s, c)
    case Resuming(current, k, rest) => if current == 0 || rest == [] then Finish(s, c) else Resume(s, c, current, k, rest)
  }

  function Apply(s: State, a: Action): State
    requires Enabled(s, a)
  {
    match a
    case CoAwait(c, w, op) =>
      s.(ops := s.ops[op := Node(w, 0)], owner := s.owner[op := Private(c)],
         awaits := s.awaits[w := Await(Starting, [], Some(op))], calls := s.calls[c := Ready(op)])
    case SetEvent(c) => Become(s, c, Exchange)
    case Reset => s.(word := if s.word.Set? then Waiters(0) else s.word)
    case Advance(c, spurious) => Step(s, c, spurious)
  }

  function Initial(initiallySet: bool): State {
    State(if initiallySet then Set else Waiters(0), map[], map[], map[], 0, [], map[])
  }

  ghost predicate Leads(s: State, actions: seq<Action>, t: State)
    decreases |actions|
  {
    if actions == [] then s == t
    else Enabled(s, actions[0]) && Leads(Apply(s, actions[0]), actions[1..], t)
  }
}

/** What every step on the event keeps. */
module EventInvariant {
  import opened Lists
  import opened LinkedMemory
  import opened EventProtocol

  function Holds(c: Call): seq<Address> {
    match c
    case Ready(op) => [op]
    case Suspend(op) => [op]
    case Enqueue(op) => [op]
    case Exchange => []
    case Resuming(_, _, rest) => rest
  }

  ghost predicate CallSafe(s: State, c: CallId)
    requires c in s.calls
  {
    var call := s.calls[c];
    && (forall x | x in Holds(call) :: x in s.owner && s.owner[x] == Private(c))
    && Distinct(Holds(call))
    && (call.Resuming? ==> IsList(s.ops, call.current, call.rest) && call.turn < s.turns)
  }

  ghost predicate Accounted(s: State, x: Address)
    requires x in s.owner
  {
    match s.owner[x]
    case Listed => x in s.list
    case Private(c) => c in s.calls && x in Holds(s.calls[c])
  }

  /** The await of a live operation: being enqueued, on the list, or taken by one `set`. */
  ghost predicate Waiting(s: State, x: Address)
    requires x in s.ops && x in s.owner
  {
    && x != 0
    && s.ops[x].data in s.awaits
    && var w := s.awaits[s.ops[x].data];
    && w.resumedBy == [] && w.op == Some(x)
    && match s.owner[x]
       case Listed => w.status == Queued(s.turns)
       case Private(c) =>
         c in s.calls && if s.calls[c].Resuming? then w.status == Queued(s.calls[c].turn) else w.status == Starting
  }

  /** An await that is over: it passed, or the first `set` after it was listed resumed it, once. */
  ghost predicate Over(s: State, w: AwaitId)
    requires w in s.awaits
  {
    match s.awaits[w].status
    case Starting => false
    case Passed => s.awaits[w].resumedBy == []
    case Queued(turn) => turn < s.turns && s.awaits[w].resumedBy == [turn]
  }

  ghost predicate AwaitSafe(s: State, w: AwaitId)
    requires w in s.awaits
  {
    match s.awaits[w].op
    case Some(x) => x in s.ops && s.ops[x].data == w
    case None => Over(s, w)
  }

  ghost predicate ListsSafe(s: State) {
    && s.owner.Keys == s.ops.Keys
    && (if s.word.Set? then s.list == [] else IsList(s.ops, s.word.head, s.list))
    && Distinct(s.list)
    && (forall x | x in s.list :: x in s.owner && s.owner[x].Listed?)
    && (forall c | c in s.calls :: CallSafe(s, c))
    && (forall x | x in s.owner :: Accounted(s, x))
  }

  ghost predicate AwaitsSafe(s: State) {
    && s.owner.Keys == s.ops.Keys
    && (forall x | x in s.ops :: Waiting(s, x))
    && (forall w | w in s.awaits :: AwaitSafe(s, w))
  }

  ghost predicate Inv(s: State) { ListsSafe(s) && AwaitsSafe(s) }
}

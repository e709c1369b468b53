/** What every step of the barrier keeps. Each group of facts has one lemma per kind of step. */
module BarrierInvariant {
  import opened Lists
  import opened SequenceTraits
  import opened BarrierProtocol

  // ---------------------------------------------------------------- where the waiters are

  ghost predicate HeldSafely(s: State, c: CallId)
    requires c in s.calls
  {
    && Distinct(Held(s.calls[c]))
    && forall w | w in Held(s.calls[c]) ::
      && w in s.waiters && s.waiters[w].Listed()
      && w !in s.shared
      && (forall d | d in s.calls && d != c :: w !in Held(s.calls[d]))
  }

  ghost predicate Somewhere(s: State, w: WaiterId) {
    w in s.shared || exists c | c in s.calls :: w in Held(s.calls[c])
  }

  /** Every listed waiter is in exactly one place, once. */
  ghost predicate Conserved(s: State) {
    && Distinct(s.shared)
    && (forall w | w in s.shared :: w in s.waiters && s.waiters[w].Listed())
    && (forall c | c in s.calls :: HeldSafely(s, c))
    && (forall w | w in s.waiters && s.waiters[w].Listed() :: Somewhere(s, w))
  }

  // ---------------------------------------------------------------- who continues a coroutine

  ghost predicate Handshake(w: Waiter) {
    && w.flag == (w.handed || w.asked)
    && w.continued == (if w.ready || (w.handed && w.asked) then 1 else 0)
    && (w.ready ==> !w.handed && !w.asked)
  }

  ghost predicate Owns(s: State, c: CallId, w: WaiterId) {
    c in s.calls && Owner(s.calls[c]) == Some(w)
  }

  ghost predicate OwnedSafely(s: State, c: CallId)
    requires c in s.calls
  {
    var owner := Owner(s.calls[c]);
    owner.Some? ==>
      && owner.value in s.waiters
      && !s.waiters[owner.value].ready
      && !s.waiters[owner.value].asked
      && forall d | d in s.calls && d != c :: Owner(s.calls[d]) != owner
  }

  ghost predicate Handshakes(s: State) {
    && (forall w | w in s.waiters :: Handshake(s.waiters[w]))
    && (forall w | w in s.waiters && !s.waiters[w].ready && !s.waiters[w].asked :: exists c :: Owns(s, c, w))
    && (forall c | c in s.calls :: OwnedSafely(s, c))
  }

  // ---------------------------------------------------------------- numbers

  ghost predicate Monotone(s: State) {
    s.published != [] && forall i, j | 0 <= i < j < |s.published| :: s.published[i] <= s.published[j]
  }

  ghost predicate SingleProducer(s: State) {
    forall c, d | c in s.calls && d in s.calls && Producing(s.calls[c]) && Producing(s.calls[d]) :: c == d
  }

  /** The number a finished wait returns was published and does not precede its target. */
  ghost predicate Answered(s: State, w: Waiter) {
    w.lastKnown in s.published && w.target <= w.lastKnown
  }

  ghost predicate Reached(s: State, list: seq<WaiterId>, n: int) {
    forall w | w in list :: w in s.waiters && s.waiters[w].target <= n
  }

  ghost predicate NotReached(s: State, list: seq<WaiterId>, n: int) {
    forall w | w in list :: w in s.waiters && s.waiters[w].target > n
  }

  /** `earliest` is the word of a position that is the least target of the list about to be put back. */
  ghost predicate Enqueueing(s: State, p: Progress, requeue: seq<WaiterId>, resume: seq<WaiterId>)
  {
    && p.earliest == Wrap(p.floor)
    && Reached(s, resume, Last(s))
    && requeue != []
    && (forall w | w in requeue :: w in s.waiters && p.floor <= s.waiters[w].target)
    && (exists w | w in requeue :: w in s.waiters && s.waiters[w].target == p.floor)
  }

  /** Every pass beyond the second is paid for by a number published since the call began. */
  ghost predicate Bounded(s: State, p: Progress) {
    && p.start <= p.seen <= |s.published|
    && 1 <= p.passes <= 2 + (p.seen - p.start)
    && (p.passes == 1 ==> p.seen == p.start)
    && (p.passes >= 2 ==> 1 <= p.seen && p.floor > s.published[p.seen - 1])
  }

  /** Between two passes, or before the first, the passes so far are paid for but one. */
  ghost predicate Between(s: State, p: Progress) {
    && p.start <= p.seen <= |s.published|
    && p.passes <= 1 + (p.seen - p.start)
    && (p.passes >= 1 ==> 1 <= p.seen && p.floor > s.published[p.seen - 1])
  }

  ghost predicate CallNumbers(s: State, c: Call)
  {
    match c
    case PublishLoad(n) => n == Last(s)
    case PublishExchange(n) => n == Last(s)
    case PublishCas(n, requeue, _, resume) => n == Last(s) && NotReached(s, requeue, n) && Reached(s, resume, n)
    case AddLoad(_, p, requeue, resume) => Between(s, p) && Enqueueing(s, p, requeue, resume)
    case AddCas(_, p, requeue, _, resume) => Bounded(s, p) && Enqueueing(s, p, requeue, resume)
    case AddCheck(_, p, resume) => p.earliest == Wrap(p.floor) && Bounded(s, p) && Reached(s, resume, Last(s))
    case AddExchange(_, p, n, resume) =>
      && n in s.published && n <= Last(s) && Reached(s, resume, n)
      && p.start <= p.seen <= |s.published| && 1 <= p.seen && 1 <= p.passes <= 1 + (p.seen - p.start)
      && n == s.published[p.seen - 1]
    case Resuming(_, n, resume, written) =>
      && n in s.published && Reached(s, resume, n)
      && (written ==> resume != [] && resume[0] in s.waiters && s.waiters[resume[0]].lastKnown == n)
    case Asking(_) => true
  }

  ghost predicate Numbers(s: State)
  {
    && (forall c | c in s.calls :: CallNumbers(s, s.calls[c]))
    && (forall w | w in s.waiters && (s.waiters[w].ready || s.waiters[w].handed) :: Answered(s, s.waiters[w]))
  }

  // ---------------------------------------------------------------- wakeups

  /** A call that will look at the shared list again before it is done with waiters of target `t`. */
  ghost predicate Guards(c: Call, t: int) {
    || c.PublishLoad?
    || c.PublishExchange?
    || c.AddExchange?
    || (c.AddCheck? && c.p.floor <= t)
  }

  /** No waiter whose number was published is on the shared list without a call bound to take the list. */
  ghost predicate Guarded(s: State)
  {
    forall w | w in s.shared :: w in s.waiters ==>
      Last(s) < s.waiters[w].target || exists c | c in s.calls :: Guards(s.calls[c], s.waiters[w].target)
  }

  ghost predicate Inv(s: State) {
    && Monotone(s)
    && SingleProducer(s)
    && Conserved(s)
    && Handshakes(s)
    && Numbers(s)
    && Guarded(s)
    && InWindow(s)
  }
}

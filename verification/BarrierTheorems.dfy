/** What the sequence barrier promises, over every run. */
module BarrierTheorems {
  import opened Lists
  import opened SequenceTraits
  import opened BarrierProtocol
  import opened BarrierInvariant
  import opened BarrierSteps

  /** No call to `publish` or `await_suspend` is in progress. */
  ghost predicate Quiet(s: State) {
    s.calls == map[]
  }

  /**
    No lost wakeup: once the calls are over, the waiters on the list are exactly those that were never continued,
    all of them wait for a number strictly after the last published one, and every other one was continued once.
   */
  lemma NoLostWakeup(first: int, actions: seq<Action>, s: State)
    requires Reaches(first, actions, s) && Quiet(s)
    ensures forall w | w in s.waiters ::
      && (w in s.shared <==> s.waiters[w].continued == 0)
      && (w in s.shared ==> Last(s) < s.waiters[w].target)
      && (w !in s.shared ==> s.waiters[w].continued == 1)
    ensures forall w | w in s.waiters && s.waiters[w].target <= Last(s) :: s.waiters[w].continued == 1
  {
    EveryReachableState(first, actions, s);
    forall w | w in s.waiters
      ensures w in s.shared <==> s.waiters[w].continued == 0
      ensures w !in s.shared ==> s.waiters[w].continued == 1
    {
      assert Handshake(s.waiters[w]);
      assert forall c :: !Owns(s, c, w);
      if s.waiters[w].Listed() {
        assert Somewhere(s, w);
      }
    }
  }

  /** While calls are in progress, a waiter whose number is out is listed only under a call bound to take the list. */
  lemma OverdueIsGuarded(first: int, actions: seq<Action>, s: State, w: WaiterId)
    requires Reaches(first, actions, s) && w in s.shared
    ensures w in s.waiters
    ensures Last(s) < s.waiters[w].target || exists c | c in s.calls :: Guards(s.calls[c], s.waiters[w].target)
  {
    EveryReachableState(first, actions, s);
  }

  /** A coroutine is continued at most once, and then exactly when both parties of its handshake have exchanged. */
  lemma ContinuedOnce(first: int, actions: seq<Action>, s: State, w: WaiterId)
    requires Reaches(first, actions, s) && w in s.waiters
    ensures s.waiters[w].continued <= 1
    ensures s.waiters[w].continued == 1 <==> s.waiters[w].ready || (s.waiters[w].handed && s.waiters[w].asked)
  {
    EveryReachableState(first, actions, s);
    assert Handshake(s.waiters[w]);
  }

  /** A registered waiter is in exactly one place until some `resume` has exchanged its flag, and in none after. */
  lemma OnePlace(first: int, actions: seq<Action>, s: State, w: WaiterId)
    requires Reaches(first, actions, s) && w in s.waiters
    ensures s.waiters[w].Listed() <==> w in s.shared || exists c | c in s.calls :: w in Held(s.calls[c])
    ensures forall c | c in s.calls && w in Held(s.calls[c]) ::
      w !in s.shared && forall d | d in s.calls && w in Held(s.calls[d]) :: d == c
    ensures Distinct(s.shared) && forall c | c in s.calls :: Distinct(Held(s.calls[c]))
  {
    EveryReachableState(first, actions, s);
    if s.waiters[w].Listed() {
      assert Somewhere(s, w);
    }
    forall c | c in s.calls && w in Held(s.calls[c])
      ensures s.waiters[w].Listed() && w !in s.shared
      ensures forall d | d in s.calls && w in Held(s.calls[d]) :: d == c
    {
      assert HeldSafely(s, c);
    }
    forall c | c in s.calls ensures Distinct(Held(s.calls[c])) {
      assert HeldSafely(s, c);
    }
  }

  /** The wait operations that the next step of the call reads or writes. */
  function Touches(s: State, c: Call): seq<WaiterId> {
    match c
    case PublishLoad(_) => []
    case PublishExchange(_) => s.shared
    case PublishCas(_, requeue, _, _) => requeue
    case AddLoad(_, _, requeue, _) => requeue
    case AddCas(_, _, requeue, _, _) => requeue
    case AddCheck(_, _, _) => []
    case AddExchange(_, _, _, resume) => s.shared + resume
    case Resuming(_, _, resume, _) => if resume == [] then [] else [resume[0]]
    case Asking(w) => [w]
  }

  /** No step touches a wait operation whose coroutine was already continued, and with it gone. */
  lemma NeverDangling(first: int, actions: seq<Action>, s: State, c: CallId, w: WaiterId)
    requires Reaches(first, actions, s) && c in s.calls && w in Touches(s, s.calls[c])
    ensures w in s.waiters && s.waiters[w].continued == 0
  {
    EveryReachableState(first, actions, s);
    assert OwnedSafely(s, c) && HeldSafely(s, c);
    if s.calls[c] == Asking(w) {
      assert Owner(s.calls[c]) == Some(w);
    } else {
      assert w in s.shared || w in Held(s.calls[c]);
    }
    assert Handshake(s.waiters[w]);
  }

  /** The number an await returns was published and does not precede the awaited one, on every path. */
  lemma AnswerIsSound(first: int, actions: seq<Action>, s: State, w: WaiterId)
    requires Reaches(first, actions, s) && w in s.waiters && s.waiters[w].continued > 0
    ensures s.waiters[w].lastKnown in s.published
    ensures s.waiters[w].target <= s.waiters[w].lastKnown <= Last(s)
  {
    EveryReachableState(first, actions, s);
    assert Handshake(s.waiters[w]) && Answered(s, s.waiters[w]);
  }

  /** `add_awaiter` has begun at most two passes, plus one for every number published since its first access. */
  lemma PassesArePaidFor(first: int, actions: seq<Action>, s: State, c: CallId)
    requires Reaches(first, actions, s) && c in s.calls
    requires s.calls[c].AddLoad? || s.calls[c].AddCas? || s.calls[c].AddCheck? || s.calls[c].AddExchange?
    ensures s.calls[c].p.start <= |s.published|
    ensures s.calls[c].p.passes <= 2 + (|s.published| - s.calls[c].p.start)
  {
    EveryReachableState(first, actions, s);
    assert CallNumbers(s, s.calls[c]);
  }

  // ---------------------------------------------------------------- calls run to completion

  /** How far a call that runs alone is from its end. */
  ghost function Phase(s: State, c: Call): nat
  {
    match c
    case PublishLoad(_) => 9
    case PublishExchange(_) => 8
    case PublishCas(_, _, expected, _) => if expected == Head(s.shared) then 5 else 6
    case AddLoad(_, p, _, _) => if p.floor <= Last(s) then 12 else 7
    case AddCas(_, p, _, expected, _) =>
      (if p.floor <= Last(s) then 5 else 0) + if expected == Head(s.shared) then 5 else 6
    case AddCheck(_, p, _) => if p.floor <= Last(s) then 9 else 4
    case AddExchange(_, _, n, _) => if n < Last(s) then 13 else 8
    case Resuming(_, _, _, _) => 3
    case Asking(_) => 2
  }

  ghost function Left(c: Call): nat {
    if c.Resuming? then 2 * |c.resume| + (if c.written then 0 else 1) else 0
  }

  /** `b` is nearer to its end in `t` than `a` is in `s`. */
  ghost predicate Nearer(s: State, a: Call, t: State, b: Call)
  {
    Phase(t, b) < Phase(s, a) || (Phase(t, b) == Phase(s, a) && Left(b) < Left(a))
  }

  lemma AddExchangeAlone(s: State, c: CallId, w: WaiterId, p: Progress, n: int, resume: seq<WaiterId>)
    requires InWindow(s) && Conserved(s)
    requires c in s.calls && s.calls[c] == AddExchange(w, p, n, resume)
    ensures var t := AddSplit(s, c, w, p, n, resume); Nearer(s, s.calls[c], t, t.calls[c])
  {
    var requeue := Filter(s.shared, AddPending(s, n));
    if requeue != [] {
      assert CallNumber(s.calls[c]) == Some(n);
      RequeueEarliest(s, requeue, n, n + MinDifference(s, requeue, n));
    }
  }

  lemma ResumingAlone(s: State, c: CallId, client: Option<WaiterId>, n: int, resume: seq<WaiterId>, written: bool)
    requires c in s.calls && s.calls[c] == Resuming(client, n, resume, written)
    requires resume != [] ==> resume[0] in s.waiters
    ensures var t := Resume(s, c, client, n, resume, written); c in t.calls ==> Nearer(s, s.calls[c], t, t.calls[c])
  {
  }

  lemma PublishAlone(s: State, c: CallId)
    requires c in s.calls && Producing(s.calls[c])
    ensures var t := ApplyAdvance(s, c, false); c in t.calls ==> Nearer(s, s.calls[c], t, t.calls[c])
  {
  }

  lemma AddAlone(s: State, c: CallId)
    requires InWindow(s) && c in s.calls && CallNumbers(s, s.calls[c])
    requires s.calls[c].AddLoad? || s.calls[c].AddCas? || s.calls[c].AddCheck?
    ensures var t := ApplyAdvance(s, c, false); c in t.calls ==> Nearer(s, s.calls[c], t, t.calls[c])
  {
    if s.calls[c].AddCheck? {
      CheckIsOrder(s, c);
    }
  }

  /** A step of a call that nobody disturbs brings it nearer to its end. */
  lemma AloneAdvances(s: State, c: CallId)
    requires Monotone(s) && Numbers(s) && InWindow(s) && Conserved(s) && Handshakes(s) && c in s.calls
    ensures var t := ApplyAdvance(s, c, false); c in t.calls ==> Nearer(s, s.calls[c], t, t.calls[c])
  {
    assert CallNumbers(s, s.calls[c]);
    match s.calls[c]
    case AddExchange(w, p, n, resume) => AddExchangeAlone(s, c, w, p, n, resume);
    case Resuming(client, n, resume, written) =>
      assert HeldSafely(s, c);
      if resume != [] {
        var w := resume[0];
        assert w in Held(s.calls[c]);
      }
      ResumingAlone(s, c, client, n, resume, written);
    case Asking(w) => assert OwnedSafely(s, c);
    case _ =>
      if Producing(s.calls[c]) {
        PublishAlone(s, c);
      } else {
        AddAlone(s, c);
      }
  }

  lemma {:induction false} LeadsCompose(s: State, more: seq<Action>, t: State, rest: seq<Action>, u: State)
    requires Leads(s, more, t) && Leads(t, rest, u)
    ensures Leads(s, more + rest, u)
    decreases |more|
  {
    if more == [] {
      assert more + rest == rest;
    } else {
      LeadsCompose(Apply(s, more[0]), more[1..], t, rest, u);
      assert (more + rest)[1..] == more[1..] + rest;
    }
  }

  /** A step of call `c` alone changes no other call, no number and no registration. */
  lemma StepAlone(s: State, c: CallId)
    requires c in s.calls
    ensures var t := ApplyAdvance(s, c, false);
            && t.published == s.published
            && t.waiters.Keys == s.waiters.Keys
            && (t.calls.Keys == s.calls.Keys || t.calls.Keys == s.calls.Keys - {c})
  {
    AdvanceUpdatesOneCall(s, c, false);
    AdvanceListsLess(s, c, false);
  }

  lemma {:induction false} CallFinishes(s: State, c: CallId) returns (more: seq<Action>, t: State)
    requires Inv(s) && c in s.calls
    ensures Leads(s, more, t) && Inv(t) && t.calls.Keys == s.calls.Keys - {c}
    ensures t.published == s.published && t.waiters.Keys == s.waiters.Keys
    decreases Phase(s, s.calls[c]), Left(s.calls[c])
  {
    var step := Advance(c, false);
    t := Apply(s, step);
    KeepInv(s, step);
    StepAlone(s, c);
    more := [];
    if c in t.calls {
      AloneAdvances(s, c);
      more, t := CallFinishes(t, c);
    }
    more := [step] + more;
  }

  lemma {:induction false} AllCallsFinish(s: State) returns (more: seq<Action>, t: State)
    requires Inv(s)
    ensures Leads(s, more, t) && Quiet(t)
    ensures t.published == s.published && t.waiters.Keys == s.waiters.Keys
    decreases |s.calls.Keys|
  {
    if s.calls.Keys != {} {
      var c := Pick(s.calls.Keys);
      var rest;
      more, t := CallFinishes(s, c);
      var middle := t;
      rest, t := AllCallsFinish(middle);
      LeadsCompose(s, more, middle, rest, t);
      more := more + rest;
    } else {
      more, t := [], s;
    }
  }

  /**
    From every reachable state the calls in progress can run to completion, one after the other, without any new
    `publish` or await; then every waiter whose number is out has been continued.
   */
  lemma CallsFinish(first: int, actions: seq<Action>, s: State) returns (more: seq<Action>, t: State)
    requires Reaches(first, actions, s)
    ensures Reaches(first, actions + more, t) && Leads(s, more, t) && Quiet(t)
    ensures t.published == s.published && t.waiters.Keys == s.waiters.Keys
    ensures forall w | w in t.waiters && t.waiters[w].target <= Last(t) :: t.waiters[w].continued == 1
  {
    EveryReachableState(first, actions, s);
    more, t := AllCallsFinish(s);
    LeadsCompose(Initial(first), actions, s, more, t);
    NoLostWakeup(first, actions + more, t);
  }
}

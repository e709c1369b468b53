/** What `publish` and an await ask of the barrier, and that it is done, whatever other calls do meanwhile. */
module BarrierCalls {
  import opened Lists
  import opened SequenceTraits
  import opened BarrierProtocol
  import opened BarrierInvariant
  import opened BarrierSteps
  import opened BarrierTheorems

  // ---------------------------------------------------------------- what was asked for

  function PublishedByOne(a: Action): seq<int> { if a.Publish? then [a.number] else [] }

  /** The numbers of the `publish` calls, in order. */
  function PublishedBy(actions: seq<Action>): seq<int> {
    if actions == [] then [] else PublishedByOne(actions[0]) + PublishedBy(actions[1..])
  }

  function AwaitedByOne(a: Action): map<WaiterId, int> { if a.Await? then map[a.waiter := a.target] else map[] }

  /** The awaits made, and what they wait for. */
  function AwaitedBy(actions: seq<Action>): map<WaiterId, int> {
    if actions == [] then map[] else AwaitedByOne(actions[0]) + AwaitedBy(actions[1..])
  }

  function Targets(s: State): map<WaiterId, int> { map w | w in s.waiters :: s.waiters[w].target }

  lemma OneAsked(s: State, a: Action)
    requires Enabled(s, a)
    ensures Apply(s, a).published == s.published + PublishedByOne(a)
    ensures Targets(Apply(s, a)) == Targets(s) + AwaitedByOne(a)
  {
    if a.Advance? {
      AdvanceListsLess(s, a.call, a.spurious);
    }
    assert s.published + [] == s.published;
  }

  lemma UpdatesAssociate(a: map<WaiterId, int>, b: map<WaiterId, int>, c: map<WaiterId, int>)
    ensures (a + b) + c == a + (b + c)
  {
  }

  lemma {:induction false} AskedFrom(s: State, actions: seq<Action>, t: State)
    requires Leads(s, actions, t)
    ensures t.published == s.published + PublishedBy(actions)
    ensures Targets(t) == Targets(s) + AwaitedBy(actions)
    decreases |actions|
  {
    if actions == [] {
      assert s.published + [] == s.published && Targets(s) + map[] == Targets(s);
    } else {
      OneAsked(s, actions[0]);
      AskedFrom(Apply(s, actions[0]), actions[1..], t);
      ConcatAssociates(s.published, PublishedByOne(actions[0]), PublishedBy(actions[1..]));
      UpdatesAssociate(Targets(s), AwaitedByOne(actions[0]), AwaitedBy(actions[1..]));
    }
  }

  /** The numbers stored are those published, in order, and the operations are the awaits made, with their targets. */
  lemma AskedFor(first: int, actions: seq<Action>, s: State)
    requires Reaches(first, actions, s)
    ensures s.published == [first] + PublishedBy(actions)
    ensures s.waiters.Keys == AwaitedBy(actions).Keys
    ensures forall w | w in s.waiters :: s.waiters[w].target == AwaitedBy(actions)[w]
  {
    AskedFrom(Initial(first), actions, s);
    assert Targets(Initial(first)) + AwaitedBy(actions) == AwaitedBy(actions);
    assert Targets(s).Keys == s.waiters.Keys;
    forall w | w in s.waiters ensures s.waiters[w].target == AwaitedBy(actions)[w] {
      assert Targets(s)[w] == s.waiters[w].target;
    }
  }

  // ---------------------------------------------------------------- an await

  /** An await goes on at once exactly when its number is out already; otherwise its call begins to list it. */
  lemma ReadyExactly(first: int, actions: seq<Action>, s: State, w: WaiterId, c: CallId, target: int)
    requires Reaches(first, actions, s) && Enabled(s, Await(w, c, target))
    ensures var t := Apply(s, Await(w, c, target));
            && w in t.waiters && t.waiters[w].lastKnown == Last(s)
            && (t.waiters[w].ready <==> target <= Last(s)) && t.waiters[w].continued == (if target <= Last(s) then 1 else 0)
            && (target > Last(s) ==> c in t.calls && Owner(t.calls[c]) == Some(w) && Held(t.calls[c]) == [w])
            && (target <= Last(s) ==> t.calls == s.calls)
  {
    PrecedesIsOrder(Last(s), target);
  }

  /** Nobody starts another call under the same name. */
  ghost predicate GoesOn(c: CallId, actions: seq<Action>) {
    forall a | a in actions :: a.call == c ==> a.Advance?
  }

  /** The call of an await that had to wait. */
  ghost predicate AwaitRuns(s: State, c: CallId, w: WaiterId) {
    && w in s.waiters && !s.waiters[w].ready
    && if c in s.calls then Owner(s.calls[c]) == Some(w) && !s.waiters[w].asked else s.waiters[w].asked
  }

  lemma StepKeepsOwner(s: State, d: CallId, spurious: bool)
    requires d in s.calls && !s.calls[d].Resuming? && !s.calls[d].Asking?
    ensures var t := ApplyAdvance(s, d, spurious);
            && t.waiters == s.waiters
            && (d in t.calls ==> Owner(t.calls[d]) == Owner(s.calls[d])) && (d !in t.calls ==> Owner(s.calls[d]) == None)
  {
  }

  /** Only the call of an await does its exchange. */
  lemma OthersAsked(s: State, d: CallId, spurious: bool, c: CallId, w: WaiterId)
    requires Inv(s) && d in s.calls && AwaitRuns(s, c, w)
    ensures AwaitRuns(ApplyAdvance(s, d, spurious), c, w)
  {
    assert OwnedSafely(s, d) && (c in s.calls ==> OwnedSafely(s, c));
    AdvanceMovesOneCall(s, d, spurious);
    match s.calls[d]
    case Resuming(client, n, resume, written) =>
      assert HeldSafely(s, d);
      assert resume != [] ==> resume[0] in Held(s.calls[d]);
    case Asking(v) =>
    case _ => StepKeepsOwner(s, d, spurious);
  }

  lemma AwaitGoesOn(s: State, a: Action, c: CallId, w: WaiterId)
    requires Inv(s) && Enabled(s, a) && (a.call == c ==> a.Advance?) && AwaitRuns(s, c, w)
    ensures AwaitRuns(Apply(s, a), c, w)
  {
    if a.Advance? {
      OthersAsked(s, a.call, a.spurious, c, w);
    }
  }

  lemma {:induction false} AwaitRunsOn(s: State, actions: seq<Action>, t: State, c: CallId, w: WaiterId)
    requires Inv(s) && Leads(s, actions, t) && GoesOn(c, actions) && AwaitRuns(s, c, w)
    ensures Inv(t) && AwaitRuns(t, c, w)
    decreases |actions|
  {
    if actions == [] {
    } else {
      assert actions[0] in actions && forall a | a in actions[1..] :: a in actions;
      KeepInv(s, actions[0]);
      AwaitGoesOn(s, actions[0], c, w);
      AwaitRunsOn(Apply(s, actions[0]), actions[1..], t, c, w);
    }
  }

  /**
    An await that has to wait, from its start in `s`, whatever other calls do: its coroutine has been continued when
    `await_suspend` is over if and only if somebody has handed it over, and never before `await_suspend` is over.
   */
  lemma AwaitReturns(first: int, before: seq<Action>, s: State, w: WaiterId, c: CallId, target: int,
                     actions: seq<Action>, t: State)
    requires Reaches(first, before, s) && Enabled(s, Await(w, c, target)) && target > Last(s)
    requires Leads(Apply(s, Await(w, c, target)), actions, t) && GoesOn(c, actions)
    ensures w in t.waiters
    ensures c in t.calls ==> t.waiters[w].continued == 0
    ensures c !in t.calls ==> (t.waiters[w].continued == 1 <==> t.waiters[w].handed)
                              && (t.waiters[w].continued == 0 ==> w in t.shared || exists d | d in t.calls :: w in Held(t.calls[d]))
  {
    EveryReachableState(first, before, s);
    ReadyExactly(first, before, s, w, c, target);
    KeepInv(s, Await(w, c, target));
    AwaitRunsOn(Apply(s, Await(w, c, target)), actions, t, c, w);
    assert Handshake(t.waiters[w]);
    if t.waiters[w].Listed() {
      assert Somewhere(t, w);
    }
  }
}

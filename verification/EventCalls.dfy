/** What one `co_await` and one call to `set` do, whatever other calls do meanwhile. */
module EventCalls {
  import opened Lists
  import opened LinkedMemory
  import opened EventProtocol
  import opened EventInvariant
  import opened EventSteps
  import opened EventTheorems

  /** The call that an action begins or goes on with. */
  function CallOf(a: Action): Option<CallId> {
    match a
    case CoAwait(c, _, _) => Some(c)
    case SetEvent(c) => Some(c)
    case Reset => None
    case Advance(c, _) => Some(c)
  }

  /** Nobody starts another call under the same name. */
  ghost predicate GoesOn(c: CallId, actions: seq<Action>) {
    forall a | a in actions :: CallOf(a) == Some(c) ==> a.Advance?
  }

  // ---------------------------------------------------------------- an await

  /** The await is still on its way, in its own call. */
  ghost predicate OnItsWay(s: State, c: CallId, w: AwaitId, op: Address) {
    && c in s.calls && s.calls[c] in {Ready(op), Suspend(op), Enqueue(op)}
    && op in s.ops && s.ops[op].data == w && w in s.awaits && s.awaits[w].status.Starting?
  }

  /** The await is through with its call: it passed, or it was listed between two exchanges. */
  ghost predicate Decided(s: State, c: CallId, w: AwaitId, first: nat) {
    && c !in s.calls && w in s.awaits
    && match s.awaits[w].status
       case Starting => false
       case Passed => true
       case Queued(turn) => first <= turn <= s.turns
  }

  lemma OwnStep(s: State, c: CallId, spurious: bool, w: AwaitId, op: Address)
    requires Enabled(s, Advance(c, spurious)) && OnItsWay(s, c, w, op)
    ensures var t := Step(s, c, spurious); OnItsWay(t, c, w, op) || Decided(t, c, w, s.turns)
    ensures s.turns <= Step(s, c, spurious).turns
  {
  }

  /**
    A step of an await makes it pass exactly when it finds the event set, and lists it exactly when its
    compare-exchange finds the head that its operation points to; otherwise the await is still on its way.
   */
  lemma DecidesExactly(s: State, c: CallId, spurious: bool, w: AwaitId, op: Address)
    requires Enabled(s, Advance(c, spurious)) && OnItsWay(s, c, w, op)
    ensures var t := Step(s, c, spurious);
            && w in t.awaits
            && (t.awaits[w].status.Passed? <==> s.word.Set?)
            && (t.awaits[w].status.Queued? <==> s.calls[c].Enqueue? && !spurious && s.word == Waiters(s.ops[op].next))
            && (t.awaits[w].status.Starting? <==> c in t.calls)
            && t.word == if t.awaits[w].status.Queued? then Waiters(op) else s.word
  {
  }

  lemma StepMovesOne(s: State, c: CallId, spurious: bool)
    requires Enabled(s, Advance(c, spurious))
    ensures var t := Step(s, c, spurious); t.calls == s.calls - {c} || (c in t.calls && t.calls == s.calls[c := t.calls[c]])
  {
  }

  lemma OthersLeaveCall(s: State, a: Action, c: CallId)
    requires Enabled(s, a) && CallOf(a) != Some(c)
    ensures c in Apply(s, a).calls <==> c in s.calls
    ensures c in s.calls ==> Apply(s, a).calls[c] == s.calls[c]
  {
    if a.Advance? {
      StepMovesOne(s, a.call, a.spurious);
    }
  }

  lemma UntouchedStays(s: State, a: Action, w: AwaitId, op: Address)
    requires Enabled(s, a) && op in s.ops && s.ops[op].data == w && w in s.awaits
    requires a.Advance? && Touches(s.calls[a.call]).Some? ==>
               Touches(s.calls[a.call]).value != op && s.ops[Touches(s.calls[a.call]).value].data != w
    ensures op in Apply(s, a).ops && Apply(s, a).ops[op] == s.ops[op]
    ensures w in Apply(s, a).awaits && Apply(s, a).awaits[w] == s.awaits[w]
  {
  }

  /** Another call touches another operation, of another await. */
  lemma TouchesAnother(s: State, c: CallId, d: CallId, w: AwaitId, op: Address)
    requires Inv(s) && OnItsWay(s, c, w, op) && d in s.calls && d != c && Touches(s.calls[d]).Some?
    ensures Touches(s.calls[d]).value != op
    ensures Touches(s.calls[d]).value in s.ops && s.ops[Touches(s.calls[d]).value].data != w
  {
    var x := Touches(s.calls[d]).value;
    assert CallSafe(s, c) && CallSafe(s, d);
    assert op in Holds(s.calls[c]) && x in Holds(s.calls[d]);
    assert Waiting(s, op) && Waiting(s, x);
  }

  /** The operation of another call stays where it is, and so does its await. */
  lemma OthersLeaveAwait(s: State, a: Action, c: CallId, w: AwaitId, op: Address)
    requires Inv(s) && Enabled(s, a) && CallOf(a) != Some(c) && OnItsWay(s, c, w, op)
    ensures op in Apply(s, a).ops && Apply(s, a).ops[op].data == w
    ensures w in Apply(s, a).awaits && Apply(s, a).awaits[w].status.Starting?
  {
    if a.Advance? && Touches(s.calls[a.call]).Some? {
      TouchesAnother(s, c, a.call, w, op);
    }
    UntouchedStays(s, a, w, op);
  }

  lemma AwaitGoesOn(s: State, a: Action, c: CallId, w: AwaitId, op: Address)
    requires Inv(s) && Enabled(s, a) && (CallOf(a) == Some(c) ==> a.Advance?) && OnItsWay(s, c, w, op)
    ensures OnItsWay(Apply(s, a), c, w, op) || Decided(Apply(s, a), c, w, s.turns)
    ensures s.turns <= Apply(s, a).turns
  {
    TurnsGrow(s, a);
    if CallOf(a) == Some(c) {
      OwnStep(s, c, a.spurious, w, op);
    } else {
      OthersLeaveCall(s, a, c);
      OthersLeaveAwait(s, a, c, w, op);
    }
  }

  lemma DecidedStays(s: State, a: Action, c: CallId, w: AwaitId, first: nat)
    requires Inv(s) && Enabled(s, a) && (CallOf(a) == Some(c) ==> a.Advance?) && Decided(s, c, w, first)
    ensures Decided(Apply(s, a), c, w, first)
  {
    StepKeepsListed(s, a, w);
    OthersLeaveCall(s, a, c);
  }

  lemma {:induction false} AwaitRuns(s: State, actions: seq<Action>, u: State, c: CallId, w: AwaitId, op: Address, first: nat)
    requires Inv(s) && Leads(s, actions, u) && GoesOn(c, actions) && first <= s.turns
    requires OnItsWay(s, c, w, op) || Decided(s, c, w, first)
    ensures OnItsWay(u, c, w, op) || Decided(u, c, w, first)
    decreases |actions|
  {
    if actions == [] {
    } else {
      assert actions[0] in actions && forall a | a in actions[1..] :: a in actions;
      EveryStepKeeps(s, actions[0]);
      if Decided(s, c, w, first) {
        TurnsGrow(s, actions[0]);
        DecidedStays(s, actions[0], c, w, first);
      } else {
        AwaitGoesOn(s, actions[0], c, w, op);
      }
      AwaitRuns(Apply(s, actions[0]), actions[1..], u, c, w, op, first);
    }
  }

  /**
    An await, from its start in `s`, whatever other calls do: it is on its way as long as its call lasts, and after
    that it has passed, or it was listed for the first exchange of a `set` after that.
   */
  lemma AwaitReturns(initiallySet: bool, before: seq<Action>, s: State, c: CallId, w: AwaitId, op: Address,
                     actions: seq<Action>, u: State)
    requires Reaches(initiallySet, before, s) && Enabled(s, CoAwait(c, w, op))
    requires Leads(Apply(s, CoAwait(c, w, op)), actions, u) && GoesOn(c, actions)
    ensures w in u.awaits
    ensures c in u.calls ==> u.awaits[w].status.Starting?
    ensures c !in u.calls ==> match u.awaits[w].status
                              case Starting => false
                              case Passed => true
                              case Queued(turn) => s.turns <= turn <= u.turns
  {
    EveryReachableState(initiallySet, before, s);
    EveryStepKeeps(s, CoAwait(c, w, op));
    AwaitRuns(Apply(s, CoAwait(c, w, op)), actions, u, c, w, op, s.turns);
  }

  // ---------------------------------------------------------------- a set

  /** No call but `c` resumes what exchange `k` took. */
  ghost predicate OnlyResumer(s: State, c: CallId, k: nat) {
    k < s.turns && forall d | d in s.calls && s.calls[d].Resuming? && s.calls[d].turn == k :: d == c
  }

  lemma ResumerStays(s: State, a: Action, c: CallId, k: nat)
    requires Enabled(s, a) && OnlyResumer(s, c, k)
    ensures OnlyResumer(Apply(s, a), c, k)
  {
    TurnsGrow(s, a);
  }

  /** What the call may be doing after its exchange. */
  ghost predicate Resumes(s: State, c: CallId, k: nat) {
    c in s.calls ==> s.calls[c].Resuming? && s.calls[c].turn == k
  }

  lemma ResumesOn(s: State, a: Action, c: CallId, k: nat)
    requires Enabled(s, a) && Resumes(s, c, k) && (CallOf(a) == Some(c) ==> a.Advance?)
    ensures Resumes(Apply(s, a), c, k)
  {
  }

  lemma {:induction false} SetRuns(s: State, actions: seq<Action>, u: State, c: CallId, k: nat)
    requires Inv(s) && Leads(s, actions, u) && GoesOn(c, actions) && OnlyResumer(s, c, k) && Resumes(s, c, k)
    ensures Inv(u) && OnlyResumer(u, c, k) && Resumes(u, c, k)
    decreases |actions|
  {
    if actions == [] {
    } else {
      assert actions[0] in actions && forall a | a in actions[1..] :: a in actions;
      EveryStepKeeps(s, actions[0]);
      ResumerStays(s, actions[0], c, k);
      ResumesOn(s, actions[0], c, k);
      SetRuns(Apply(s, actions[0]), actions[1..], u, c, k);
    }
  }

  /** What was taken and is not resumed yet is in the hands of the call that took it. */
  lemma StillResuming(s: State, w: AwaitId)
    requires Inv(s) && w in s.awaits
    ensures var status := s.awaits[w].status;
            status.Queued? && status.turn < s.turns && s.awaits[w].resumedBy == [] ==>
              exists d | d in s.calls :: s.calls[d].Resuming? && s.calls[d].turn == status.turn
  {
    assert AwaitSafe(s, w);
    if s.awaits[w].op.Some? {
      assert Waiting(s, s.awaits[w].op.value);
    }
  }

  /** When nobody resumes what exchange `k` took any more, all of it was resumed. */
  lemma AllResumed(s: State, c: CallId, k: nat, w: AwaitId)
    requires Inv(s) && OnlyResumer(s, c, k) && c !in s.calls && w in s.awaits && s.awaits[w].status == Queued(k)
    ensures s.awaits[w].resumedBy == [k]
  {
    AwaitFate(s, w);
    StillResuming(s, w);
  }

  lemma ExchangeTakes(s: State, c: CallId, spurious: bool)
    requires Inv(s) && Enabled(s, Advance(c, spurious)) && s.calls[c].Exchange?
    ensures var t := Step(s, c, spurious); t.turns == s.turns + 1 && OnlyResumer(t, c, s.turns) && Resumes(t, c, s.turns)
  {
    forall d | d in s.calls && s.calls[d].Resuming? ensures s.calls[d].turn < s.turns {
      assert CallSafe(s, d);
    }
  }

  lemma OthersGrow(s: State, a: Action, c: CallId)
    requires Enabled(s, a) && c in s.calls && s.calls[c].Exchange? && CallOf(a) != Some(c)
    ensures var t := Apply(s, a); c in t.calls && t.calls[c].Exchange? && s.turns <= t.turns
  {
    OthersLeaveCall(s, a, c);
    TurnsGrow(s, a);
  }

  lemma {:induction false} SetFinishes(s: State, actions: seq<Action>, u: State, c: CallId) returns (k: nat)
    requires Inv(s) && Leads(s, actions, u) && GoesOn(c, actions)
    requires c in s.calls && s.calls[c].Exchange? && c !in u.calls
    ensures s.turns <= k && Inv(u) && OnlyResumer(u, c, k)
    decreases |actions|
  {
    assert actions[0] in actions && forall a | a in actions[1..] :: a in actions;
    EveryStepKeeps(s, actions[0]);
    if CallOf(actions[0]) == Some(c) {
      k := s.turns;
      ExchangeTakes(s, c, actions[0].spurious);
      SetRuns(Apply(s, actions[0]), actions[1..], u, c, k);
    } else {
      OthersGrow(s, actions[0], c);
      k := SetFinishes(Apply(s, actions[0]), actions[1..], u, c);
    }
  }

  /**
    A call to `set`, from its start in `s` to its end in `u`, whatever other calls do: there was an exchange meanwhile
    such that everybody listed for it has been resumed, by it alone.
   */
  lemma SetReturns(initiallySet: bool, before: seq<Action>, s: State, c: CallId, actions: seq<Action>, u: State)
      returns (k: nat)
    requires Reaches(initiallySet, before, s) && Enabled(s, SetEvent(c))
    requires Leads(Apply(s, SetEvent(c)), actions, u) && GoesOn(c, actions) && c !in u.calls
    ensures s.turns <= k < u.turns
    ensures forall w | w in u.awaits && u.awaits[w].status == Queued(k) :: u.awaits[w].resumedBy == [k]
  {
    EveryReachableState(initiallySet, before, s);
    EveryStepKeeps(s, SetEvent(c));
    k := SetFinishes(Apply(s, SetEvent(c)), actions, u, c);
    forall w | w in u.awaits && u.awaits[w].status == Queued(k) ensures u.awaits[w].resumedBy == [k] {
      AllResumed(u, c, k, w);
    }
  }
}

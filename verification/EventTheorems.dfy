/** What the event promises, over every run. */
module EventTheorems {
  import opened Lists
  import opened LinkedMemory
  import opened EventProtocol
  import opened EventInvariant
  import opened EventSteps

  ghost predicate Reaches(initiallySet: bool, actions: seq<Action>, s: State) { Leads(Initial(initiallySet), actions, s) }

  lemma EveryReachableState(initiallySet: bool, actions: seq<Action>, s: State)
    requires Reaches(initiallySet, actions, s)
    ensures Inv(s)
  {
    EveryRunKeeps(Initial(initiallySet), actions, s);
  }

  /** What the invariant says of one await. */
  lemma AwaitFate(s: State, w: AwaitId)
    requires Inv(s) && w in s.awaits
    ensures match s.awaits[w].status
            case Starting => s.awaits[w].resumedBy == [] && s.calls != map[]
            case Passed => s.awaits[w].resumedBy == []
            case Queued(turn) =>
              && turn <= s.turns
              && (s.awaits[w].resumedBy == [] || (s.awaits[w].resumedBy == [turn] && turn < s.turns))
              && (turn == s.turns ==> !s.word.Set?)
              && (turn < s.turns && s.calls == map[] ==> s.awaits[w].resumedBy == [turn])
  {
    assert AwaitSafe(s, w);
    if s.awaits[w].op.Some? {
      var x := s.awaits[w].op.value;
      assert Waiting(s, x) && Accounted(s, x);
      if s.owner[x].Private? {
        assert CallSafe(s, s.owner[x].call);
      }
    }
  }

  /**
    Every awaiter either does not suspend or is resumed exactly once, by the first `set` after it was listed: once
    the calls are over, only awaits listed since the last `set` are still waiting, and then the event is not set.
   */
  lemma ResumedByFirstSet(initiallySet: bool, actions: seq<Action>, s: State, w: AwaitId)
    requires Reaches(initiallySet, actions, s) && s.calls == map[] && w in s.awaits
    ensures match s.awaits[w].status
            case Starting => false
            case Passed => s.awaits[w].resumedBy == []
            case Queued(turn) =>
              if turn < s.turns then s.awaits[w].resumedBy == [turn]
              else turn == s.turns && s.awaits[w].resumedBy == [] && !s.word.Set?
  {
    EveryReachableState(initiallySet, actions, s);
    AwaitFate(s, w);
  }

  /** At any moment no awaiter was resumed twice, nor by any `set` but the first after it was listed. */
  lemma NeverTwice(initiallySet: bool, actions: seq<Action>, s: State, w: AwaitId)
    requires Reaches(initiallySet, actions, s) && w in s.awaits
    ensures s.awaits[w].resumedBy == []
            || (s.awaits[w].status.Queued? && s.awaits[w].resumedBy == [s.awaits[w].status.turn]
                && s.awaits[w].status.turn < s.turns)
  {
    EveryReachableState(initiallySet, actions, s);
    AwaitFate(s, w);
  }

  /** While the event is set nobody is listed, and the list is always well formed. */
  lemma NobodyListedWhileSet(initiallySet: bool, actions: seq<Action>, s: State)
    requires Reaches(initiallySet, actions, s)
    ensures s.word.Set? ==> forall x | x in s.ops :: x in s.owner && s.owner[x].Private?
    ensures !s.word.Set? ==> exists nodes: seq<Address> :: IsList(s.ops, s.word.head, nodes) && Distinct(nodes)
                                             && forall x | x in s.ops :: x in nodes <==> x in s.owner && s.owner[x].Listed?
  {
    EveryReachableState(initiallySet, actions, s);
    ListedAreListed(s);
    if !s.word.Set? {
      assert IsList(s.ops, s.word.head, s.list);
    }
  }

  lemma TouchedStatus(s: State, c: CallId)
    requires Inv(s) && c in s.calls && Touches(s.calls[c]).Some?
    ensures var x := Touches(s.calls[c]).value;
            && x in s.ops && s.ops[x].data in s.awaits
            && (s.calls[c].Resuming? || s.awaits[s.ops[x].data].status.Starting?)
  {
    assert CallSafe(s, c);
    assert Touches(s.calls[c]).value in Holds(s.calls[c]);
    assert Waiting(s, Touches(s.calls[c]).value);
  }

  lemma CallEnabled(s: State, c: CallId, spurious: bool)
    requires Inv(s) && c in s.calls
    ensures Enabled(s, Advance(c, spurious)) && (s.calls[c].Resuming? ==> (s.calls[c].current == 0 <==> s.calls[c].rest == []))
  {
    assert CallSafe(s, c);
    if Touches(s.calls[c]).Some? {
      TouchedStatus(s, c);
    }
  }

  /** Every step of a call can be taken: it touches only operations whose coroutine has not gone on. */
  lemma NeverDangling(initiallySet: bool, actions: seq<Action>, s: State, c: CallId, spurious: bool)
    requires Reaches(initiallySet, actions, s) && c in s.calls
    ensures Enabled(s, Advance(c, spurious))
    ensures s.calls[c].Resuming? ==> (s.calls[c].current == 0 <==> s.calls[c].rest == [])
  {
    EveryReachableState(initiallySet, actions, s);
    CallEnabled(s, c, spurious);
  }

  lemma StepPasses(s: State, a: Action, w: AwaitId)
    requires Enabled(s, a) && w in Apply(s, a).awaits && Apply(s, a).awaits[w].status.Passed?
    requires w in s.awaits ==> !s.awaits[w].status.Passed?
    ensures s.word.Set? && a.Advance? && !s.calls[a.call].Resuming?
    ensures Touches(s.calls[a.call]).Some? && s.ops[Touches(s.calls[a.call]).value].data == w
  {
  }

  /** An await goes on without suspending only in a step that finds the event set. */
  lemma PassesOnlyWhenSet(initiallySet: bool, actions: seq<Action>, s: State, a: Action, w: AwaitId)
    requires Reaches(initiallySet, actions, s) && Enabled(s, a)
    requires w in Apply(s, a).awaits && Apply(s, a).awaits[w].status.Passed?
    requires w in s.awaits ==> !s.awaits[w].status.Passed?
    ensures s.word.Set? && w in s.awaits && s.awaits[w].status.Starting?
  {
    EveryReachableState(initiallySet, actions, s);
    StepPasses(s, a, w);
    var op := Touches(s.calls[a.call]).value;
    assert CallSafe(s, a.call);
    assert op in Holds(s.calls[a.call]);
    assert Waiting(s, op);
  }

  // ---------------------------------------------------------------- awaits made while a set is resuming

  /** An await that is not listed yet. */
  ghost predicate NotListed(s: State, w: AwaitId) { w !in s.awaits || s.awaits[w].status.Starting? }

  lemma StepListsNow(s: State, a: Action, w: AwaitId)
    requires Enabled(s, a) && NotListed(s, w)
    ensures s.turns <= Apply(s, a).turns
    ensures NotListed(Apply(s, a), w) || Apply(s, a).awaits[w].status == Passed || Apply(s, a).awaits[w].status == Queued(s.turns)
  {
  }

  lemma StatusKept(s: State, a: Action, w: AwaitId)
    requires Enabled(s, a) && w in s.awaits
    requires a.Advance? && Touches(s.calls[a.call]).Some? && s.ops[Touches(s.calls[a.call]).value].data == w ==>
               s.calls[a.call].Resuming?
    ensures s.turns <= Apply(s, a).turns
    ensures w in Apply(s, a).awaits && Apply(s, a).awaits[w].status == s.awaits[w].status
  {
  }

  lemma StepKeepsListed(s: State, a: Action, w: AwaitId)
    requires Inv(s) && Enabled(s, a) && !NotListed(s, w)
    ensures s.turns <= Apply(s, a).turns
    ensures w in Apply(s, a).awaits && Apply(s, a).awaits[w].status == s.awaits[w].status
  {
    if a.Advance? && Touches(s.calls[a.call]).Some? {
      TouchedStatus(s, a.call);
    }
    StatusKept(s, a, w);
  }

  lemma {:induction false} ListedLater(s: State, actions: seq<Action>, t: State, w: AwaitId, turn: nat)
    requires Inv(s) && Leads(s, actions, t) && turn <= s.turns && w in t.awaits && t.awaits[w].status.Queued?
    requires NotListed(s, w) || s.awaits[w].status == Passed || (s.awaits[w].status.Queued? && s.awaits[w].status.turn >= turn)
    ensures t.awaits[w].status.turn >= turn
    decreases |actions|
  {
    if actions == [] {
    } else {
      var u := Apply(s, actions[0]);
      EveryStepKeeps(s, actions[0]);
      if NotListed(s, w) {
        StepListsNow(s, actions[0], w);
      } else {
        StepKeepsListed(s, actions[0], w);
      }
      ListedLater(u, actions[1..], t, w, turn);
    }
  }

  /**
    A coroutine resumed inside `set` that resets the event and awaits again, or any other await not listed yet, joins
    a fresh list: the `set` call that is still resuming never resumes it.
   */
  lemma FreshList(initiallySet: bool, before: seq<Action>, s: State, c: CallId, after: seq<Action>, t: State, w: AwaitId)
    requires Reaches(initiallySet, before, s) && c in s.calls && s.calls[c].Resuming?
    requires NotListed(s, w) && Leads(s, after, t) && w in t.awaits
    ensures s.calls[c].turn !in t.awaits[w].resumedBy
  {
    EveryReachableState(initiallySet, before, s);
    assert CallSafe(s, c);
    EveryRunKeeps(s, after, t);
    AwaitFate(t, w);
    if t.awaits[w].status.Queued? {
      ListedLater(s, after, t, w, s.turns);
    }
  }

  // ---------------------------------------------------------------- calls run to completion

  /** How far a call that runs alone is from its end. */
  function Distance(s: State, c: Call): nat {
    match c
    case Ready(_) => 4
    case Suspend(_) => 3
    case Enqueue(op) => if op in s.ops && s.word == Waiters(s.ops[op].next) then 1 else 2
    case Exchange => 2 + |s.list|
    case Resuming(_, _, rest) => 1 + |rest|
  }

  lemma LookNearer(s: State, c: CallId)
    requires Enabled(s, Advance(c, false)) && (s.calls[c].Suspend? || s.calls[c].Enqueue?)
    ensures var t := Step(s, c, false);
            t.calls == s.calls - {c}
            || (c in t.calls && t.calls == s.calls[c := t.calls[c]] && Distance(t, t.calls[c]) < Distance(s, s.calls[c]))
  {
  }

  lemma StepNearer(s: State, c: CallId)
    requires Enabled(s, Advance(c, false)) && (s.calls[c].Resuming? ==> (s.calls[c].current == 0 <==> s.calls[c].rest == []))
    ensures var t := Step(s, c, false);
            t.calls == s.calls - {c}
            || (c in t.calls && t.calls == s.calls[c := t.calls[c]] && Distance(t, t.calls[c]) < Distance(s, s.calls[c]))
  {
    if s.calls[c].Suspend? || s.calls[c].Enqueue? {
      LookNearer(s, c);
    }
  }

  lemma StepAlone(s: State, c: CallId)
    requires Inv(s) && c in s.calls
    ensures Enabled(s, Advance(c, false)) && Inv(Step(s, c, false))
    ensures var t := Step(s, c, false);
            t.calls.Keys == s.calls.Keys - {c}
            || (c in t.calls && t.calls.Keys == s.calls.Keys && Distance(t, t.calls[c]) < Distance(s, s.calls[c]))
  {
    CallEnabled(s, c, false);
    StepNearer(s, c);
    EveryStepKeeps(s, Advance(c, false));
  }

  lemma LeadsFirst(s: State, a: Action, actions: seq<Action>, t: State)
    requires Enabled(s, a) && Leads(Apply(s, a), actions, t)
    ensures Leads(s, [a] + actions, t)
  {
    assert ([a] + actions)[1..] == actions;
  }

  lemma {:induction false} CallFinishes(s: State, c: CallId) returns (actions: seq<Action>, t: State)
    requires Inv(s) && c in s.calls
    ensures Leads(s, actions, t) && Inv(t) && t.calls.Keys == s.calls.Keys - {c}
    decreases Distance(s, s.calls[c])
  {
    StepAlone(s, c);
    var u := Step(s, c, false);
    if c in u.calls {
      actions, t := CallFinishes(u, c);
    } else {
      actions, t := [], u;
    }
    LeadsFirst(s, Advance(c, false), actions, t);
    actions := [Advance(c, false)] + actions;
  }

  lemma {:induction false} LeadsCompose(s: State, actions: seq<Action>, t: State, more: seq<Action>, u: State)
    requires Leads(s, actions, t) && Leads(t, more, u)
    ensures Leads(s, actions + more, u)
    decreases |actions|
  {
    if actions == [] {
      assert actions + more == more;
    } else {
      LeadsCompose(Apply(s, actions[0]), actions[1..], t, more, u);
      assert (actions + more)[1..] == actions[1..] + more;
    }
  }

  lemma {:induction false} AllFinish(s: State) returns (actions: seq<Action>, t: State)
    requires Inv(s)
    ensures Leads(s, actions, t) && Inv(t) && t.calls == map[]
    decreases |s.calls.Keys|
  {
    if s.calls == map[] {
      actions, t := [], s;
    } else {
      var c := Pick(s.calls.Keys);
      var first, u := CallFinishes(s, c);
      var rest;
      rest, t := AllFinish(u);
      LeadsCompose(s, first, u, rest, t);
      actions := first + rest;
    }
  }

  /**
    From every reachable state the calls in progress can run to their end; then every await that was listed before
    the last exchange of a `set` has been resumed.
   */
  lemma CallsFinish(initiallySet: bool, actions: seq<Action>, s: State) returns (more: seq<Action>, t: State)
    requires Reaches(initiallySet, actions, s)
    ensures Reaches(initiallySet, actions + more, t) && t.calls == map[]
    ensures forall w | w in t.awaits && t.awaits[w].status.Queued? && t.awaits[w].status.turn < t.turns ::
      t.awaits[w].resumedBy == [t.awaits[w].status.turn]
  {
    EveryReachableState(initiallySet, actions, s);
    more, t := AllFinish(s);
    LeadsCompose(Initial(initiallySet), actions, s, more, t);
    forall w | w in t.awaits && t.awaits[w].status.Queued? && t.awaits[w].status.turn < t.turns
      ensures t.awaits[w].resumedBy == [t.awaits[w].status.turn]
    {
      ResumedByFirstSet(initiallySet, actions + more, t, w);
    }
  }

  // ---------------------------------------------------------------- between a reset and a set

  lemma PassedBefore(s: State, a: Action, w: AwaitId)
    requires Inv(s) && Enabled(s, a) && w in Apply(s, a).awaits && Apply(s, a).awaits[w].status.Passed? && !s.word.Set?
    ensures w in s.awaits && s.awaits[w].status.Passed?
  {
    if w in s.awaits && s.awaits[w].status.Passed? {
    } else {
      StepPasses(s, a, w);
    }
  }

  lemma QueuedBefore(s: State, a: Action, w: AwaitId)
    requires Enabled(s, a) && w in Apply(s, a).awaits && Apply(s, a).awaits[w].status.Queued? && s.word.Set?
    ensures w in s.awaits && s.awaits[w].status.Queued?
  {
  }

  lemma TurnsGrow(s: State, a: Action)
    requires Enabled(s, a)
    ensures s.turns <= Apply(s, a).turns
    ensures !s.word.Set? && Apply(s, a).turns == s.turns ==> !Apply(s, a).word.Set?
    ensures s.word.Set? && !a.Reset? ==> Apply(s, a).word.Set?
  {
  }

  lemma {:induction false} StaysClosed(s: State, actions: seq<Action>, t: State)
    requires Inv(s) && Leads(s, actions, t)
    ensures s.turns <= t.turns
    ensures !s.word.Set? && t.turns == s.turns ==> !t.word.Set?
    ensures !s.word.Set? && t.turns == s.turns ==>
              forall w | w in t.awaits && t.awaits[w].status.Passed? :: w in s.awaits && s.awaits[w].status.Passed?
    decreases |actions|
  {
    if actions == [] {
    } else {
      var u := Apply(s, actions[0]);
      EveryStepKeeps(s, actions[0]);
      TurnsGrow(s, actions[0]);
      StaysClosed(u, actions[1..], t);
      if !s.word.Set? && t.turns == s.turns {
        forall w | w in t.awaits && t.awaits[w].status.Passed? ensures w in s.awaits && s.awaits[w].status.Passed? {
          PassedBefore(s, actions[0], w);
        }
      }
    }
  }

  lemma {:induction false} StaysOpen(s: State, actions: seq<Action>, t: State)
    requires Leads(s, actions, t) && s.word.Set? && Reset !in actions
    ensures t.word.Set?
    ensures forall w | w in t.awaits && t.awaits[w].status.Queued? :: w in s.awaits && s.awaits[w].status.Queued?
    decreases |actions|
  {
    if actions == [] {
    } else {
      TurnsGrow(s, actions[0]);
      StaysOpen(Apply(s, actions[0]), actions[1..], t);
      forall w | w in t.awaits && t.awaits[w].status.Queued? ensures w in s.awaits && s.awaits[w].status.Queued? {
        QueuedBefore(s, actions[0], w);
      }
    }
  }

  /**
    From `reset` until the next exchange of a `set` the event stays not set and nobody passes: an await that was not
    listed at the reset is still on its way or waits for that `set`, and it waits once the calls are over.
   */
  lemma ResetHolds(initiallySet: bool, before: seq<Action>, s: State, after: seq<Action>, t: State, w: AwaitId)
    requires Reaches(initiallySet, before, s) && Leads(Apply(s, Reset), after, t) && t.turns == s.turns
    requires NotListed(s, w) && w in t.awaits
    ensures !t.word.Set? && t.awaits[w].resumedBy == []
    ensures t.awaits[w].status == if t.awaits[w].status.Starting? then Starting else Queued(s.turns)
    ensures t.calls == map[] ==> t.awaits[w].status == Queued(s.turns)
  {
    var r := Apply(s, Reset);
    EveryReachableState(initiallySet, before, s);
    EveryStepKeeps(s, Reset);
    EveryRunKeeps(r, after, t);
    StaysClosed(r, after, t);
    AwaitFate(t, w);
    if t.awaits[w].status.Queued? {
      ListedLater(r, after, t, w, s.turns);
    }
  }

  lemma {:induction false} StatusStays(s: State, actions: seq<Action>, t: State, w: AwaitId)
    requires Inv(s) && Leads(s, actions, t) && !NotListed(s, w)
    ensures w in t.awaits && t.awaits[w].status == s.awaits[w].status
    decreases |actions|
  {
    if actions == [] {
    } else {
      EveryStepKeeps(s, actions[0]);
      StepKeepsListed(s, actions[0], w);
      StatusStays(Apply(s, actions[0]), actions[1..], t, w);
    }
  }

  /** An await made after a `reset` and listed by the next `set` is resumed by it, and by no other. */
  lemma ResetThenSet(initiallySet: bool, before: seq<Action>, s: State, between: seq<Action>, m: State,
                     after: seq<Action>, t: State, w: AwaitId)
    requires Reaches(initiallySet, before, s) && Leads(Apply(s, Reset), between, m) && m.turns == s.turns
    requires NotListed(s, w) && w in m.awaits && !m.awaits[w].status.Starting?
    requires Leads(m, after, t) && t.turns > s.turns && t.calls == map[]
    ensures w in t.awaits && t.awaits[w].resumedBy == [s.turns]
  {
    ResetHolds(initiallySet, before, s, between, m, w);
    EveryReachableState(initiallySet, before, s);
    EveryStepKeeps(s, Reset);
    EveryRunKeeps(Apply(s, Reset), between, m);
    StatusStays(m, after, t, w);
    EveryRunKeeps(m, after, t);
    AwaitFate(t, w);
  }

  /**
    From the exchange of a `set` until the next `reset` the event stays set and nobody is listed: an await that was
    not listed at the exchange is still on its way or has passed, and it has passed once the calls are over.
   */
  lemma SetHolds(initiallySet: bool, before: seq<Action>, s: State, c: CallId, spurious: bool,
                 after: seq<Action>, t: State, w: AwaitId)
    requires Reaches(initiallySet, before, s) && Enabled(s, Advance(c, spurious)) && s.calls[c].Exchange?
    requires Leads(Step(s, c, spurious), after, t) && Reset !in after
    requires NotListed(s, w) && w in t.awaits
    ensures t.word.Set? && !t.awaits[w].status.Queued? && t.awaits[w].resumedBy == []
    ensures t.calls == map[] ==> t.awaits[w].status.Passed?
  {
    var u := Step(s, c, spurious);
    EveryReachableState(initiallySet, before, s);
    EveryStepKeeps(s, Advance(c, spurious));
    EveryRunKeeps(u, after, t);
    StaysOpen(u, after, t);
    assert w in u.awaits ==> u.awaits[w].status == s.awaits[w].status;
    AwaitFate(t, w);
  }

  // ---------------------------------------------------------------- how the event was made

  /** On an event made set, until the first `reset`, nobody is ever listed, and once the calls are over all have passed. */
  lemma MadeSet(actions: seq<Action>, s: State, w: AwaitId)
    requires Reaches(true, actions, s) && Reset !in actions && w in s.awaits
    ensures s.word.Set? && !s.awaits[w].status.Queued? && s.awaits[w].resumedBy == []
    ensures s.calls == map[] ==> s.awaits[w].status.Passed?
  {
    EveryReachableState(true, actions, s);
    StaysOpen(Initial(true), actions, s);
    AwaitFate(s, w);
  }

  /** On an event made not set, until the first exchange of a `set`, nobody passes, and once the calls are over all wait. */
  lemma MadeNotSet(actions: seq<Action>, s: State, w: AwaitId)
    requires Reaches(false, actions, s) && s.turns == 0 && w in s.awaits
    ensures !s.word.Set? && !s.awaits[w].status.Passed? && s.awaits[w].resumedBy == []
    ensures s.calls == map[] ==> s.awaits[w].status == Queued(0)
  {
    EveryReachableState(false, actions, s);
    EveryRunKeeps(Initial(false), [], Initial(false));
    StaysClosed(Initial(false), actions, s);
    AwaitFate(s, w);
  }
}

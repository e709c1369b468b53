/**
  `SingleThreadExecutor`: the loop of its thread, interleaved with pushes from any thread, its own callbacks included.
  A push and a steal of a whole stack are single steps here. `StackTheorems` proves the order of the real stack's
  batches, which is the order used here; that its finer steps simulate these is not part of the model.
 */
module Executor {
  import opened Lists

  type Callback = int

  /** Where the thread is; `draining` after the cancel flag was seen, `batch` the dispatched actions in hand. */
  datatype Phase =
    | Checking
    | Polling(draining: bool)
    | Running(draining: bool, batch: seq<Callback>)
    | Sweeping(draining: bool, batch: seq<Callback>)
    | Deferring(draining: bool, batch: seq<Callback>, left: seq<Callback>)
    | Done

  datatype State = State(
    phase: Phase,
    cancelled: bool,
    dispatchStack: seq<Callback>,    // newest first
    deferredStack: seq<Callback>,    // newest first
    dispatched: seq<Callback>,       // every action dispatched, in order
    deferred: seq<Callback>,         // every callback deferred, in order
    executed: seq<Callback>,         // the actions run, in order
    sweeps: seq<seq<Callback>>,      // the deferred callbacks run after each action, in order
    taken: seq<seq<Callback>>,       // auxiliary: what each sweep took, newest first
    horizon: nat)                    // how many actions were dispatched before the last empty poll

  datatype Event = Dispatch(action: Callback) | Defer(callback: Callback) | Stop | Loop

  function Initial(): State { State(Checking, false, [], [], [], [], [], [], [], 0) }

  /** One step of `thread_loop`. */
  function Step(s: State): State {
    match s.phase
    case Checking => s.(phase := Polling(s.cancelled))
    case Polling(draining) =>
      if s.dispatchStack == [] then s.(phase := if draining then Done else Checking, horizon := |s.dispatched|)
      else s.(phase := Running(draining, Reverse(s.dispatchStack)), dispatchStack := [])
    case Running(draining, batch) =>
      if batch == [] then s.(phase := if draining then Polling(true) else Checking)
      else s.(phase := Sweeping(draining, batch[1..]), executed := s.executed + [batch[0]])
    case Sweeping(draining, batch) =>
      s.(phase := Deferring(draining, batch, s.deferredStack), deferredStack := [],
         sweeps := s.sweeps + [[]], taken := s.taken + [s.deferredStack])
    case Deferring(draining, batch, left) =>
      if left == [] || s.sweeps == [] then s.(phase := Running(draining, batch))
      else
        var k := |s.sweeps| - 1;
        s.(phase := Deferring(draining, batch, left[1..]), sweeps := s.sweeps[k := s.sweeps[k] + [left[0]]])
    case Done => s
  }

  function Apply(s: State, e: Event): State {
    match e
    case Dispatch(a) => s.(dispatchStack := [a] + s.dispatchStack, dispatched := s.dispatched + [a])
    case Defer(c) => s.(deferredStack := [c] + s.deferredStack, deferred := s.deferred + [c])
    case Stop => s.(cancelled := true)
    case Loop => Step(s)
  }

  function Run(s: State, events: seq<Event>): State
    decreases |events|
  {
    if events == [] then s else Run(Apply(s, events[0]), events[1..])
  }

  // ---------------------------------------------------------------- what every step keeps

  function Batch(p: Phase): seq<Callback> {
    match p
    case Running(_, batch) => batch
    case Sweeping(_, batch) => batch
    case Deferring(_, batch, _) => batch
    case _ => []
  }

  function Left(p: Phase): seq<Callback> { if p.Deferring? then p.left else [] }

  /** Every sweep, oldest callback first. */
  function Oldest(sweeps: seq<seq<Callback>>): seq<Callback> {
    if sweeps == [] then [] else Reverse(sweeps[0]) + Oldest(sweeps[1..])
  }

  ghost predicate ActionsOk(s: State) {
    && s.executed + (Batch(s.phase) + Reverse(s.dispatchStack)) == s.dispatched
    && s.horizon <= |s.executed|
    && (s.phase.Done? ==> s.horizon == |s.executed|)
  }

  ghost predicate SweepsOk(s: State) {
    && |s.sweeps| == |s.taken|
    && |s.executed| == |s.taken| + (if s.phase.Sweeping? then 1 else 0)
    && (s.phase.Deferring? ==> s.taken != [])
    && (forall k :: 0 <= k < |s.taken| ==>
          s.taken[k] == s.sweeps[k] + if k == |s.taken| - 1 then Left(s.phase) else [])
  }

  ghost predicate DeferredOk(s: State) { Oldest(s.taken) + Reverse(s.deferredStack) == s.deferred }

  ghost predicate Inv(s: State) { ActionsOk(s) && SweepsOk(s) && DeferredOk(s) }

  lemma {:induction false} OldestSnoc(sweeps: seq<seq<Callback>>, last: seq<Callback>)
    ensures Oldest(sweeps + [last]) == Oldest(sweeps) + Reverse(last)
  {
    if sweeps == [] {
      assert sweeps + [last] == [last] && [last][1..] == [];
      assert Reverse(last) + [] == Reverse(last);
    } else {
      OldestSnoc(sweeps[1..], last);
      assert (sweeps + [last])[1..] == sweeps[1..] + [last];
      ConcatAssociates(Reverse(sweeps[0]), Oldest(sweeps[1..]), Reverse(last));
    }
  }

  lemma ReverseCons(x: Callback, s: seq<Callback>)
    ensures Reverse([x] + s) == Reverse(s) + [x]
  {
    assert ([x] + s)[1..] == s;
  }

  lemma DispatchKeeps(s: State, a: Callback)
    requires ActionsOk(s)
    ensures ActionsOk(Apply(s, Dispatch(a)))
  {
    ReverseCons(a, s.dispatchStack);
    ConcatAssociates(Batch(s.phase), Reverse(s.dispatchStack), [a]);
    ConcatAssociates(s.executed, Batch(s.phase) + Reverse(s.dispatchStack), [a]);
  }

  lemma FirstMoves(done: seq<Callback>, batch: seq<Callback>, waiting: seq<Callback>)
    requires batch != []
    ensures done + [batch[0]] + (batch[1..] + waiting) == done + (batch + waiting)
  {
    assert batch == [batch[0]] + batch[1..];
    ConcatAssociates([batch[0]], batch[1..], waiting);
    ConcatAssociates(done, [batch[0]], batch[1..] + waiting);
  }

  lemma ExecuteKeeps(s: State)
    requires ActionsOk(s) && s.phase.Running? && s.phase.batch != []
    ensures ActionsOk(Step(s))
  {
    FirstMoves(s.executed, s.phase.batch, Reverse(s.dispatchStack));
  }

  lemma NothingInHand(done: seq<Callback>, waiting: seq<Callback>)
    ensures [] + waiting == waiting == waiting + [] && done + [] == done
  {
  }

  lemma PollKeeps(s: State)
    requires ActionsOk(s) && s.phase.Polling?
    ensures ActionsOk(Step(s))
  {
    NothingInHand(s.executed, Reverse(s.dispatchStack));
  }

  lemma StepKeepsActions(s: State)
    requires ActionsOk(s)
    ensures ActionsOk(Step(s))
  {
    if s.phase.Running? && s.phase.batch != [] {
      ExecuteKeeps(s);
    } else if s.phase.Polling? {
      PollKeeps(s);
    }
  }

  lemma ActionsKept(s: State, e: Event)
    requires ActionsOk(s)
    ensures ActionsOk(Apply(s, e))
  {
    match e
    case Dispatch(a) => DispatchKeeps(s, a);
    case Loop => StepKeepsActions(s);
    case _ =>
  }

  lemma NextDeferred(done: seq<Callback>, left: seq<Callback>)
    requires left != []
    ensures done + [left[0]] + left[1..] == done + left
  {
    assert left == [left[0]] + left[1..];
    ConcatAssociates(done, [left[0]], left[1..]);
  }

  lemma SweepsKept(s: State, e: Event)
    requires SweepsOk(s)
    ensures SweepsOk(Apply(s, e))
  {
    if e.Loop? && s.phase.Deferring? && s.phase.left != [] {
      NextDeferred(s.sweeps[|s.sweeps| - 1], s.phase.left);
    }
  }

  ghost predicate SameDeferred(s: State, t: State) {
    t.taken == s.taken && t.deferredStack == s.deferredStack && t.deferred == s.deferred
  }

  lemma SweepTakesAll(s: State)
    requires DeferredOk(s) && s.phase.Sweeping?
    ensures DeferredOk(Step(s))
  {
    OldestSnoc(s.taken, s.deferredStack);
    assert s.deferred + [] == s.deferred;
  }

  lemma StepKeepsDeferred(s: State)
    requires DeferredOk(s)
    ensures DeferredOk(Step(s))
  {
    if s.phase.Sweeping? {
      SweepTakesAll(s);
    } else {
      assert SameDeferred(s, Step(s));
    }
  }

  lemma DeferKeeps(s: State, c: Callback)
    requires DeferredOk(s)
    ensures DeferredOk(Apply(s, Defer(c)))
  {
    ReverseCons(c, s.deferredStack);
    ConcatAssociates(Oldest(s.taken), Reverse(s.deferredStack), [c]);
  }

  lemma DeferredKept(s: State, e: Event)
    requires DeferredOk(s)
    ensures DeferredOk(Apply(s, e))
  {
    match e
    case Defer(c) => DeferKeeps(s, c);
    case Loop => StepKeepsDeferred(s);
    case _ => assert SameDeferred(s, Apply(s, e));
  }

  lemma EventKeeps(s: State, e: Event)
    requires Inv(s)
    ensures Inv(Apply(s, e))
  {
    ActionsKept(s, e);
    SweepsKept(s, e);
    DeferredKept(s, e);
  }

  lemma {:induction false} EveryRunKeeps(s: State, events: seq<Event>)
    requires Inv(s)
    ensures Inv(Run(s, events))
    decreases |events|
  {
    if events == [] {
    } else {
      EventKeeps(s, events[0]);
      EveryRunKeeps(Apply(s, events[0]), events[1..]);
    }
  }

  // ---------------------------------------------------------------- the theorems

  /** Dispatched actions run at most once each and in dispatch order. */
  lemma RunsInOrder(events: seq<Event>)
    ensures var s := Run(Initial(), events); s.executed <= s.dispatched
  {
    EveryRunKeeps(Initial(), events);
  }

  /** When the loop has returned, everything dispatched before its last empty poll ran, and nothing else did. */
  lemma DrainsBeforeReturn(events: seq<Event>)
    ensures var s := Run(Initial(), events);
            s.horizon <= |s.dispatched| && (s.phase.Done? ==> s.executed == s.dispatched[..s.horizon])
  {
    EveryRunKeeps(Initial(), events);
  }

  /** There is one sweep right after every action. */
  lemma SweepAfterEveryAction(events: seq<Event>)
    ensures var s := Run(Initial(), events);
            |s.executed| == |s.sweeps| + if s.phase.Sweeping? then 1 else 0
  {
    EveryRunKeeps(Initial(), events);
  }

  lemma {:induction false} TakenStays(s: State, events: seq<Event>)
    ensures s.taken <= Run(s, events).taken
    decreases |events|
  {
    if events == [] {
    } else {
      TakenStays(Apply(s, events[0]), events[1..]);
    }
  }

  lemma RunsKeep(before: seq<Event>, e: Event, after: seq<Event>)
    ensures Inv(Run(Initial(), before)) && Inv(Apply(Run(Initial(), before), e))
    ensures Inv(Run(Apply(Run(Initial(), before), e), after))
  {
    EveryRunKeeps(Initial(), before);
    EventKeeps(Run(Initial(), before), e);
    EveryRunKeeps(Apply(Run(Initial(), before), e), after);
  }

  /** A sweep runs what was on the deferred stack when it began, newest first, and all of that once it is over. */
  lemma SweepNewestFirst(before: seq<Event>, after: seq<Event>)
    requires Run(Initial(), before).phase.Sweeping?
    ensures var s := Run(Initial(), before);
            var t := Run(Step(s), after);
            var k := |s.sweeps|;
            && k < |t.sweeps| && t.sweeps[k] <= s.deferredStack
            && (k + 1 < |t.sweeps| || Left(t.phase) == [] ==> t.sweeps[k] == s.deferredStack)
  {
    var s := Run(Initial(), before);
    var t := Run(Step(s), after);
    RunsKeep(before, Loop, after);
    TakenStays(Step(s), after);
    assert Step(s).taken[|s.sweeps|] == s.deferredStack;
    assert t.taken[|s.sweeps|] == s.deferredStack;
    assert t.sweeps[|s.sweeps|] + [] == t.sweeps[|s.sweeps|];
  }

  lemma SweptAll(s: State)
    requires Inv(s) && Left(s.phase) == []
    ensures s.sweeps == s.taken && Oldest(s.sweeps) + Reverse(s.deferredStack) == s.deferred
  {
    forall k | 0 <= k < |s.taken| ensures s.sweeps[k] == s.taken[k] {
      assert s.sweeps[k] + [] == s.sweeps[k];
    }
  }

  /** When the last sweep that began is over, exactly the callbacks deferred before it began have run, once each. */
  lemma DeferredInSweeps(before: seq<Event>, after: seq<Event>)
    requires Run(Initial(), before).phase.Sweeping?
    ensures var s := Run(Initial(), before);
            var t := Run(Step(s), after);
            |t.sweeps| == |s.sweeps| + 1 && Left(t.phase) == [] ==>
              Oldest(t.sweeps) == s.deferred && s.deferred + Reverse(t.deferredStack) == t.deferred
  {
    var s := Run(Initial(), before);
    var t := Run(Step(s), after);
    RunsKeep(before, Loop, after);
    TakenStays(Step(s), after);
    if |t.sweeps| == |s.sweeps| + 1 && Left(t.phase) == [] {
      assert t.taken == Step(s).taken;
      SweptAll(t);
      assert s.deferred + [] == s.deferred;
    }
  }

  // ---------------------------------------------------------------- when a deferred callback runs

  /** What has happened to the deferred stack of `s` by `t`. */
  ghost predicate Since(s: State, t: State) {
    && |s.taken| <= |t.taken| && |s.deferred| <= |t.deferred| && |s.executed| <= |t.executed|
    && s.deferred <= t.deferred
    && if |t.taken| == |s.taken| then |t.deferredStack| == |s.deferredStack| + (|t.deferred| - |s.deferred|)
       else |t.deferredStack| <= |t.deferred| - |s.deferred|
  }

  lemma SinceStep(s: State, t: State, e: Event)
    requires Since(s, t)
    ensures Since(s, Apply(t, e))
  {
  }

  lemma {:induction false} SinceRun(s: State, t: State, events: seq<Event>)
    requires Since(s, t)
    ensures Since(s, Run(t, events))
    decreases |events|
  {
    if events == [] {
    } else {
      SinceStep(s, t, events[0]);
      SinceRun(s, Apply(t, events[0]), events[1..]);
    }
  }

  lemma LengthOfReverse(s: seq<Callback>, t: seq<Callback>, all: seq<Callback>)
    requires s + Reverse(t) == all
    ensures |s| == |all| - |t|
  {
  }

  /**
    A deferred callback has run when the loop has returned if and only if the action just executed deferred it, before
    the sweep after that action, or one more action was run.
   */
  lemma DeferredRunsExactly(before: seq<Event>, c: Callback, after: seq<Event>)
    requires Run(Apply(Run(Initial(), before), Defer(c)), after).phase.Done?
    ensures var s := Apply(Run(Initial(), before), Defer(c));
            var t := Run(s, after);
            var n := |s.deferred| - 1;
            && Oldest(t.sweeps) <= t.deferred && n < |t.deferred| && t.deferred[n] == c
            && (n < |Oldest(t.sweeps)| <==> s.phase.Sweeping? || t.horizon > |s.executed|)
  {
    var s := Apply(Run(Initial(), before), Defer(c));
    var t := Run(s, after);
    RunsKeep(before, Defer(c), after);
    SinceRun(s, s, after);
    SweptAll(t);
    LengthOfReverse(Oldest(t.sweeps), t.deferredStack, t.deferred);
    assert t.deferred[|s.deferred| - 1] == s.deferred[|s.deferred| - 1];
  }

  lemma {:induction false} NothingDispatched(s: State, events: seq<Event>)
    requires forall e | e in events :: !e.Dispatch?
    requires s.phase.Done? ==> s.horizon == |s.dispatched|
    ensures var t := Run(s, events); t.dispatched == s.dispatched && (t.phase.Done? ==> t.horizon == |t.dispatched|)
    decreases |events|
  {
    if events == [] {
    } else {
      assert forall e | e in events[1..] :: e in events;
      assert events[0] in events;
      NothingDispatched(Apply(s, events[0]), events[1..]);
    }
  }

  /** When nothing more is dispatched, the answer is known at once: an action is running, or still to be run. */
  lemma DeferredRunsWithoutDispatch(before: seq<Event>, c: Callback, after: seq<Event>)
    requires !Run(Initial(), before).phase.Done? && forall e | e in after :: !e.Dispatch?
    requires Run(Apply(Run(Initial(), before), Defer(c)), after).phase.Done?
    ensures var s := Apply(Run(Initial(), before), Defer(c));
            var t := Run(s, after);
            |s.deferred| <= |Oldest(t.sweeps)| <==> s.phase.Sweeping? || |s.executed| < |s.dispatched|
  {
    var s := Apply(Run(Initial(), before), Defer(c));
    RunsKeep(before, Defer(c), after);
    DeferredRunsExactly(before, c, after);
    NothingDispatched(s, after);
  }

  /** A callback deferred when no further action is dispatched is never run, though the loop returns. */
  lemma DeferredMayNeverRun(c: Callback)
    ensures var s := Run(Initial(), [Defer(c), Stop, Loop, Loop]);
            s.phase.Done? && s.deferredStack == [c] && s.sweeps == []
  {
    var s1 := Apply(Initial(), Defer(c));
    var s2 := Apply(s1, Stop);
    var s3 := Apply(s2, Loop);
    var s4 := Apply(s3, Loop);
    assert Run(s4, []) == s4;
    assert Run(s3, [Loop]) == Run(s4, [Loop][1..]);
    assert Run(s2, [Loop, Loop]) == Run(s3, [Loop, Loop][1..]);
    assert Run(s1, [Stop, Loop, Loop]) == Run(s2, [Stop, Loop, Loop][1..]);
    assert [Defer(c), Stop, Loop, Loop][1..] == [Stop, Loop, Loop];
  }

  // ---------------------------------------------------------------- what was asked for

  function Dispatched(e: Event): seq<Callback> { if e.Dispatch? then [e.action] else [] }

  function Deferred(e: Event): seq<Callback> { if e.Defer? then [e.callback] else [] }

  /** The actions dispatched and the callbacks deferred by the events, in order. */
  function DispatchedBy(events: seq<Event>): seq<Callback> {
    if events == [] then [] else Dispatched(events[0]) + DispatchedBy(events[1..])
  }

  function DeferredBy(events: seq<Event>): seq<Callback> {
    if events == [] then [] else Deferred(events[0]) + DeferredBy(events[1..])
  }

  lemma AskedByOne(s: State, e: Event)
    ensures var t := Apply(s, e);
            && t.dispatched == s.dispatched + Dispatched(e) && t.deferred == s.deferred + Deferred(e)
            && (t.cancelled <==> s.cancelled || e == Stop)
  {
    assert s.dispatched + [] == s.dispatched && s.deferred + [] == s.deferred;
  }

  lemma {:induction false} AskedFrom(s: State, events: seq<Event>)
    ensures var t := Run(s, events);
            && t.dispatched == s.dispatched + DispatchedBy(events) && t.deferred == s.deferred + DeferredBy(events)
            && (t.cancelled <==> s.cancelled || Stop in events)
    decreases |events|
  {
    if events == [] {
      assert s.dispatched + [] == s.dispatched && s.deferred + [] == s.deferred;
    } else {
      AskedByOne(s, events[0]);
      AskedFrom(Apply(s, events[0]), events[1..]);
      assert Stop in events <==> events[0] == Stop || Stop in events[1..];
      ConcatAssociates(s.dispatched, Dispatched(events[0]), DispatchedBy(events[1..]));
      ConcatAssociates(s.deferred, Deferred(events[0]), DeferredBy(events[1..]));
    }
  }

  /** What counts as dispatched, deferred and cancelled is what was asked for, in that order. */
  lemma AskedFor(events: seq<Event>)
    ensures var s := Run(Initial(), events);
            && s.dispatched == DispatchedBy(events) && s.deferred == DeferredBy(events)
            && (s.cancelled <==> Stop in events)
  {
    AskedFrom(Initial(), events);
    assert [] + DispatchedBy(events) == DispatchedBy(events) && [] + DeferredBy(events) == DeferredBy(events);
  }

  // ---------------------------------------------------------------- going on

  /** The loop has seen the cancel flag. */
  predicate Draining(p: Phase) {
    match p
    case Checking => false
    case Polling(draining) => draining
    case Running(draining, _) => draining
    case Sweeping(draining, _) => draining
    case Deferring(draining, _, _) => draining
    case Done => true
  }

  lemma {:induction false} DrainsOnlyCancelled(s: State, events: seq<Event>)
    requires Draining(s.phase) ==> s.cancelled
    ensures Draining(Run(s, events).phase) ==> Run(s, events).cancelled
    decreases |events|
  {
    if events == [] {
    } else {
      DrainsOnlyCancelled(Apply(s, events[0]), events[1..]);
    }
  }

  /** The loop returns only once it was cancelled. */
  lemma ReturnsOnlyCancelled(events: seq<Event>)
    requires Run(Initial(), events).phase.Done?
    ensures Stop in events
  {
    DrainsOnlyCancelled(Initial(), events);
    AskedFor(events);
  }

  function Steps(s: State, n: nat): State
    decreases n
  {
    if n == 0 then s else Steps(Step(s), n - 1)
  }

  /** How near the loop is to running the next action, when there is one. */
  function Nearness(p: Phase): nat {
    match p
    case Done => 0
    case Running(_, batch) => if batch == [] then 5 else 2
    case Polling(_) => 3
    case Checking => 4
    case Deferring(_, _, _) => 6
    case Sweeping(_, _) => 7
  }

  /** Nothing is waiting: everything dispatched has run. */
  lemma NothingWaits(s: State)
    requires ActionsOk(s) && s.dispatchStack == [] && Batch(s.phase) == []
    ensures s.executed == s.dispatched
  {
    assert s.executed + ([] + []) == s.executed;
  }

  function Waiting(s: State): nat { |s.dispatchStack| + |Batch(s.phase)| }

  function Owing(s: State): nat { |s.deferredStack| + |Left(s.phase)| }

  lemma StepNearer(s: State)
    requires !s.phase.Done? && Waiting(s) > 0
    ensures var t := Step(s);
            && !t.phase.Done? && t.dispatched == s.dispatched
            && (Waiting(t) < Waiting(s)
                || (Waiting(t) == Waiting(s)
                    && (Owing(t) < Owing(s) || (Owing(t) == Owing(s) && Nearness(t.phase) < Nearness(s.phase)))))
  {
  }

  lemma {:induction false} CatchesUp(s: State) returns (n: nat)
    requires ActionsOk(s) && !s.phase.Done?
    ensures Steps(s, n).executed == Steps(s, n).dispatched == s.dispatched
    decreases Waiting(s), Owing(s), Nearness(s.phase)
  {
    if Waiting(s) == 0 {
      n := 0;
      NothingWaits(s);
    } else {
      StepKeepsActions(s);
      StepNearer(s);
      n := CatchesUp(Step(s));
      n := n + 1;
    }
  }

  /** As long as the loop has not returned, it gets to run everything dispatched so far, and nothing else. */
  lemma EverythingRuns(events: seq<Event>) returns (n: nat)
    requires !Run(Initial(), events).phase.Done?
    ensures Steps(Run(Initial(), events), n).executed == DispatchedBy(events)
  {
    EveryRunKeeps(Initial(), events);
    AskedFor(events);
    n := CatchesUp(Run(Initial(), events));
  }

  // ---------------------------------------------------------------- returning

  function Rank(p: Phase): nat {
    match p
    case Done => 0
    case Running(_, batch) => if batch == [] then 4 else 1
    case Polling(draining) => if draining then 2 else 7
    case Checking => 3
    case Deferring(_, _, _) => 5
    case Sweeping(_, _) => 6
  }

  /** Once cancelled, and when nothing more is pushed, the loop returns. */
  lemma {:induction false} Returns(s: State)
    requires s.cancelled && SweepsOk(s)
    ensures exists n: nat :: Steps(s, n).phase.Done?
    decreases |s.dispatchStack| + |Batch(s.phase)|, |s.deferredStack| + |Left(s.phase)|, Rank(s.phase)
  {
    if s.phase.Done? {
      assert Steps(s, 0) == s;
    } else {
      SweepsKept(s, Loop);
      Returns(Step(s));
      var n: nat :| Steps(Step(s), n).phase.Done?;
      assert Steps(s, n + 1) == Steps(Step(s), n);
    }
  }

  /** After a stop, whenever it came, the loop returns once nothing more is pushed. */
  lemma ReturnsOnceStopped(events: seq<Event>)
    requires Stop in events
    ensures exists n: nat :: Steps(Run(Initial(), events), n).phase.Done?
  {
    EveryRunKeeps(Initial(), events);
    AskedFor(events);
    Returns(Run(Initial(), events));
  }
}

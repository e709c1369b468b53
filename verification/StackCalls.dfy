/** What one call to `push`, `sweep` or `sweep_ordered` does, whatever the other threads do meanwhile. */
module StackCalls {
  import opened Lists
  import opened LinkedMemory
  import opened StackProtocol
  import opened StackInvariant
  import opened StackSteps
  import opened StackTheorems
  import opened StackAnswers

  /** The thread goes on with the call it is in. */
  ghost predicate GoesOn(t: ThreadId, actions: seq<Action>) {
    forall a | a in actions :: a.thread == t ==> a.Advance?
  }

  // ---------------------------------------------------------------- what the others leave alone

  /** Only one thread moves. */
  ghost predicate OneMoves(s: State, u: State, t: ThreadId) {
    forall o | o != t :: ThreadAt(u, o) == ThreadAt(s, o)
  }

  lemma PushMovesOne(s: State, t: ThreadId, node: Address, spurious: bool)
    requires node in s.memory
    ensures OneMoves(s, TryPush(s, t, node, spurious), t)
  {
  }

  lemma StealMovesOne(s: State, t: ThreadId, expected: Address, ordered: bool, spurious: bool)
    ensures OneMoves(s, TrySteal(s, t, expected, ordered, spurious), t)
  {
  }

  lemma StepMovesOne(s: State, a: Action)
    requires Enabled(s, a)
    ensures OneMoves(s, Apply(s, a), a.thread)
  {
    if a.Advance? {
      match ThreadAt(s, a.thread)
      case PushCas(node) => PushMovesOne(s, a.thread, node, a.spurious);
      case StealCas(expected, ordered) => StealMovesOne(s, a.thread, expected, ordered, a.spurious);
      case _ =>
    }
  }

  lemma OthersStep(s: State, a: Action, t: ThreadId)
    requires Enabled(s, a) && a.thread != t
    ensures ThreadAt(Apply(s, a), t) == ThreadAt(s, t)
  {
    StepMovesOne(s, a);
  }

  /** The actions before one of them, that one, and those after it. */
  datatype Cut = Cut(prefix: seq<Action>, a: Action, suffix: seq<Action>)

  predicate Cuts(actions: seq<Action>, c: Cut) { actions == c.prefix + [c.a] + c.suffix }

  /** The run goes through `v`, from where the action of the cut leads on. */
  ghost predicate Through(s: State, c: Cut, v: State, u: State) {
    Leads(s, c.prefix, v) && Enabled(v, c.a) && Leads(Apply(v, c.a), c.suffix, u)
  }

  lemma CutFirst(s: State, actions: seq<Action>, u: State)
    requires actions != [] && Leads(s, actions, u)
    ensures var c := Cut([], actions[0], actions[1..]); Cuts(actions, c) && Through(s, c, s, u)
  {
    assert [] + [actions[0]] + actions[1..] == actions;
  }

  lemma CutLater(s: State, actions: seq<Action>, c: Cut, v: State, u: State)
    requires actions != [] && Enabled(s, actions[0]) && Cuts(actions[1..], c) && Through(Apply(s, actions[0]), c, v, u)
    ensures var d := c.(prefix := [actions[0]] + c.prefix); Cuts(actions, d) && Through(s, d, v, u)
  {
    LeadsFirst(s, actions[0], c.prefix, v);
    assert actions == [actions[0]] + actions[1..];
    assert [actions[0]] + (c.prefix + [c.a] + c.suffix) == [actions[0]] + c.prefix + [c.a] + c.suffix;
  }

  lemma GoesOnInside(t: ThreadId, actions: seq<Action>, c: Cut)
    requires GoesOn(t, actions) && Cuts(actions, c)
    ensures GoesOn(t, c.prefix) && GoesOn(t, c.suffix) && (c.a.thread == t ==> c.a.Advance?)
  {
    assert c.a in actions;
    assert forall a | a in c.prefix || a in c.suffix :: a in actions;
  }

  /** An idle thread that starts nothing stays idle. */
  lemma {:induction false} StaysIdle(s: State, actions: seq<Action>, u: State, t: ThreadId)
    requires Leads(s, actions, u) && GoesOn(t, actions) && ThreadAt(s, t).Idle?
    ensures ThreadAt(u, t).Idle? && forall a | a in actions :: a.thread != t
    decreases |actions|
  {
    if actions == [] {
    } else {
      OthersStep(s, actions[0], t);
      StaysIdle(Apply(s, actions[0]), actions[1..], u, t);
    }
  }

  /** The marks of the batches and what they took. */
  ghost predicate BatchesStay(s: State, u: State) {
    && |s.batches| <= |u.batches| && s.stolen <= u.stolen
    && forall k | 0 <= k < |s.batches| :: u.batches[k].ordered == s.batches[k].ordered
  }

  lemma StealKeepsBatches(s: State, t: ThreadId, expected: Address, ordered: bool, spurious: bool)
    ensures BatchesStay(s, TrySteal(s, t, expected, ordered, spurious))
  {
  }

  lemma DeliveryKeepsBatches(s: State, t: ThreadId, cur: Address, k: nat, rest: seq<Address>)
    requires cur in s.memory && k < |s.batches| && rest != []
    ensures BatchesStay(s, Deliver(s, t, cur, k, rest))
  {
  }

  lemma StepKeepsBatches(s: State, a: Action)
    requires Enabled(s, a)
    ensures BatchesStay(s, Apply(s, a))
  {
    if a.Advance? {
      match ThreadAt(s, a.thread)
      case StealCas(expected, ordered) => StealKeepsBatches(s, a.thread, expected, ordered, a.spurious);
      case Delivering(cur, k, rest) =>
        if cur != 0 && rest != [] && k < |s.batches| {
          DeliveryKeepsBatches(s, a.thread, cur, k, rest);
        }
      case _ =>
    }
  }

  lemma StealBatchAfter(s: State, t: ThreadId, expected: Address, ordered: bool, spurious: bool)
    ensures BatchOf(ThreadAt(TrySteal(s, t, expected, ordered, spurious), t)) in {None, Some(|s.batches|)}
  {
  }

  /** A step gives its thread no batch but a new one. */
  lemma BatchAfter(s: State, a: Action)
    requires Enabled(s, a)
    ensures BatchOf(ThreadAt(Apply(s, a), a.thread)) in {None, BatchOf(ThreadAt(s, a.thread)), Some(|s.batches|)}
  {
    if a.Advance? {
      match ThreadAt(s, a.thread)
      case StealCas(expected, ordered) => StealBatchAfter(s, a.thread, expected, ordered, a.spurious);
      case PushCas(node) => assert BatchOf(ThreadAt(TryPush(s, a.thread, node, a.spurious), a.thread)) == None;
      case _ =>
    }
  }

  /** No thread but `t` delivers batch `k`. */
  ghost predicate OnlyThief(s: State, t: ThreadId, k: nat) {
    k < |s.batches| && forall o | o != t :: BatchOf(ThreadAt(s, o)) != Some(k)
  }

  lemma StepKeepsThief(s: State, a: Action, t: ThreadId, k: nat)
    requires Enabled(s, a) && OnlyThief(s, t, k)
    ensures OnlyThief(Apply(s, a), t, k)
  {
    var u := Apply(s, a);
    StepKeepsBatches(s, a);
    BatchAfter(s, a);
    StepMovesOne(s, a);
    forall o | o != t ensures BatchOf(ThreadAt(u, o)) != Some(k) {
      assert BatchOf(ThreadAt(s, o)) != Some(k);
    }
  }

  /** The thread delivers batch `k`, or is through with its call. */
  ghost predicate Delivers(s: State, t: ThreadId, k: nat) {
    BatchOf(ThreadAt(s, t)) == Some(k) || ThreadAt(s, t).Idle?
  }

  lemma DeliveryGoesOn(s: State, a: Action, k: nat)
    requires Enabled(s, a) && a.Advance? && BatchOf(ThreadAt(s, a.thread)) == Some(k)
    ensures Delivers(Apply(s, a), a.thread, k)
  {
  }

  lemma DeliversOn(s: State, a: Action, t: ThreadId, k: nat)
    requires Enabled(s, a) && Delivers(s, t, k) && (a.thread == t ==> a.Advance?)
    ensures Delivers(Apply(s, a), t, k)
  {
    if a.thread != t {
      OthersStep(s, a, t);
    } else {
      DeliveryGoesOn(s, a, k);
    }
  }

  lemma ThiefIsDone(s: State, t: ThreadId, k: nat)
    requires ItemsSafe(s) && OnlyThief(s, t, k) && ThreadAt(s, t).Idle?
    ensures |s.batches| == |s.stolen| && Complete(s, k)
  {
    forall o | o in s.threads ensures BatchOf(s.threads[o]) != Some(k) {
      assert BatchOf(ThreadAt(s, o)) != Some(k);
    }
    assert !InProgress(s, k);
  }

  /** Once the thief is idle again its batch is all that it stole. */
  lemma {:induction false} BatchCompletes(s: State, actions: seq<Action>, u: State, t: ThreadId, k: nat)
    requires Inv(s) && Leads(s, actions, u) && GoesOn(t, actions) && OnlyThief(s, t, k) && Delivers(s, t, k)
    requires ThreadAt(u, t).Idle?
    ensures k < |s.batches| == |s.stolen| && k < |u.batches|
    ensures s.stolen[k] == Oriented(s.batches[k].ordered, u.batches[k].delivered)
    decreases |actions|
  {
    if actions == [] {
      ThiefIsDone(s, t, k);
    } else {
      var a := actions[0];
      assert a in actions;
      DeliversOn(s, a, t, k);
      StepKeepsThief(s, a, t, k);
      StepKeepsBatches(s, a);
      EveryStepKeeps(s, a);
      BatchCompletes(Apply(s, a), actions[1..], u, t, k);
    }
  }

  // ---------------------------------------------------------------- sweeps

  /** The items of a list of nodes in the order in which a sweep owes them. */
  function Owed(ordered: bool, items: seq<Item>): seq<Item> { if ordered then Reverse(items) else items }

  lemma {:induction false} ReverseTwice(s: seq<Item>)
    ensures Reverse(Reverse(s)) == s
  {
    if s == [] {
    } else {
      ReverseTwice(s[1..]);
      ReverseConcat(Reverse(s[1..]), [s[0]]);
      assert Reverse([s[0]]) == [s[0]];
    }
  }

  /** A thread about to steal finds what it expects. */
  ghost predicate Steals(s: State, t: ThreadId, ordered: bool, a: Action) {
    && t in s.threads && s.threads[t] == StealCas(s.head, ordered)
    && a == Advance(t, false)
  }

  lemma StealBegins(s: State, t: ThreadId, ordered: bool)
    requires ItemsSafe(s) && t in s.threads && s.threads[t] == StealCas(s.head, ordered) && s.head != 0
    ensures var w := TrySteal(s, t, s.head, ordered, false);
            && OnlyThief(w, t, |s.batches|) && Delivers(w, t, |s.batches|) && |w.stolen| == |s.batches| + 1
            && w.stolen[|s.batches|] == Reverse(Data(s.memory, s.list)) && w.batches[|s.batches|].ordered == ordered
  {
    forall o | o != t ensures BatchOf(ThreadAt(s, o)) != Some(|s.batches|) {
      assert o in s.threads ==> BatchSafe(s, o);
    }
  }

  /** The run from the steal of the thread to the end of its call. */
  lemma StealEnds(s: State, t: ThreadId, ordered: bool, actions: seq<Action>, u: State, nodes: seq<Address>)
    requires Inv(s) && t in s.threads && s.threads[t] == StealCas(s.head, ordered) && s.head != 0
    requires Leads(TrySteal(s, t, s.head, ordered, false), actions, u) && GoesOn(t, actions) && ThreadAt(u, t).Idle?
    requires IsList(s.memory, s.head, nodes)
    ensures |s.batches| < |u.batches| && u.batches[|s.batches|].delivered == Owed(ordered, Data(s.memory, nodes))
  {
    StealBegins(s, t, ordered);
    EveryStepKeeps(s, Advance(t, false));
    BatchCompletes(TrySteal(s, t, s.head, ordered, false), actions, u, t, |s.batches|);
    OneList(s.memory, s.head, nodes, s.list);
    ReverseTwice(Data(s.memory, nodes));
    ReverseTwice(u.batches[|s.batches|].delivered);
  }

  lemma StealGoesOn(s: State, a: Action, t: ThreadId, ordered: bool)
    requires Enabled(s, a) && t in s.threads && s.threads[t].StealCas? && s.threads[t].ordered == ordered
    requires (a.thread == t ==> a.Advance?) && !Steals(s, t, ordered, a)
    ensures var w := Apply(s, a); t in w.threads && w.threads[t].StealCas? && w.threads[t].ordered == ordered
  {
    if a.thread != t {
      OthersStep(s, a, t);
    }
  }

  lemma {:induction false} StealHappens(s: State, t: ThreadId, ordered: bool, actions: seq<Action>, u: State)
      returns (c: Cut, v: State)
    requires Inv(s) && t in s.threads && s.threads[t].StealCas? && s.threads[t].ordered == ordered
    requires Leads(s, actions, u) && GoesOn(t, actions) && ThreadAt(u, t).Idle?
    ensures Cuts(actions, c) && Through(s, c, v, u) && Inv(v) && Steals(v, t, ordered, c.a)
    decreases |actions|
  {
    CutFirst(s, actions, u);
    GoesOnInside(t, actions, Cut([], actions[0], actions[1..]));
    if Steals(s, t, ordered, actions[0]) {
      c, v := Cut([], actions[0], actions[1..]), s;
    } else {
      EveryStepKeeps(s, actions[0]);
      StealGoesOn(s, actions[0], t, ordered);
      c, v := StealHappens(Apply(s, actions[0]), t, ordered, actions[1..], u);
      CutLater(s, actions, c, v, u);
      c := c.(prefix := [actions[0]] + c.prefix);
    }
  }

  /**
    A call to `sweep` or `sweep_ordered`, from its start in `s` to its end in `u`, whatever other threads do: at one
    moment `v` its compare-exchange finds the head. If that is null nothing is delivered. Otherwise one batch is made,
    and it is the items of the list that hung from the head: oldest first for `sweep_ordered`, newest first for `sweep`.
   */
  lemma SweepReturns(before: seq<Action>, s: State, t: ThreadId, ordered: bool, actions: seq<Action>, u: State)
      returns (c: Cut, v: State, nodes: seq<Address>)
    requires Reaches(before, s) && Enabled(s, Steal(t, ordered)) && Leads(Apply(s, Steal(t, ordered)), actions, u)
    requires GoesOn(t, actions) && ThreadAt(u, t).Idle?
    ensures Cuts(actions, c) && Through(Apply(s, Steal(t, ordered)), c, v, u) && Steals(v, t, ordered, c.a)
    ensures IsList(v.memory, v.head, nodes)
    ensures v.head == 0 ==> Apply(v, c.a) == v.(threads := v.threads[t := Idle]) && forall a | a in c.suffix :: a.thread != t
    ensures v.head != 0 ==> |v.batches| < |u.batches|
                            && u.batches[|v.batches|].delivered == Owed(ordered, Data(v.memory, nodes))
  {
    EveryReachableState(before, s);
    EveryStepKeeps(s, Steal(t, ordered));
    c, v := StealHappens(Apply(s, Steal(t, ordered)), t, ordered, actions, u);
    GoesOnInside(t, actions, c);
    nodes := v.list;
    if v.head == 0 {
      StaysIdle(Apply(v, c.a), c.suffix, u, t);
    } else {
      StealEnds(v, t, ordered, c.suffix, u, nodes);
    }
  }

  // ---------------------------------------------------------------- push

  /** The thread is about to push `data`, which waits in its node. */
  ghost predicate WillPush(s: State, t: ThreadId, data: Item, node: Address) {
    && t in s.threads && (s.threads[t] == PushLoad(node) || s.threads[t] == PushCas(node))
    && node in s.memory && s.memory[node].data == data
  }

  ghost predicate Pushes(s: State, t: ThreadId, data: Item, node: Address, a: Action) {
    && t in s.threads && s.threads[t] == PushCas(node) && a == Advance(t, false)
    && node in s.memory && s.memory[node] == Node(data, s.head)
  }

  lemma UntouchedNode(s: State, a: Action, node: Address)
    requires Enabled(s, a) && node in s.memory && (a.Advance? ==> node !in Touches(ThreadAt(s, a.thread)))
    ensures node in Apply(s, a).memory && Apply(s, a).memory[node] == s.memory[node]
  {
    if a.Advance? {
      match ThreadAt(s, a.thread)
      case StealCas(expected, ordered) =>
        assert TrySteal(s, a.thread, expected, ordered, a.spurious).memory == s.memory;
      case _ =>
    }
  }

  /** Another thread touches its own nodes only, or that of a push already made. */
  lemma TouchesOwn(s: State, t: ThreadId, o: ThreadId, node: Address)
    requires MemorySafe(s) && t in s.threads && o != t && node in Holds(s.threads[t]) && !ThreadAt(s, o).Idle?
    ensures node in s.memory
    ensures !ThreadAt(s, o).Answering? ==> node !in Touches(ThreadAt(s, o))
  {
    assert ThreadSafe(s, t) && ThreadSafe(s, o);
    assert s.owner[node] == Private(t);
    var th := s.threads[o];
    assert (th.Turning? || th.Delivering?) && th.cur != 0 ==> th.cur in Holds(th);
  }

  lemma AnsweringTouchesNothing(s: State, a: Action)
    requires Enabled(s, a) && a.Advance? && ThreadAt(s, a.thread).Answering?
    ensures Apply(s, a).memory == s.memory
  {
  }

  /** Other threads leave the node of a push alone. */
  lemma OthersLeaveNode(s: State, a: Action, t: ThreadId, node: Address)
    requires MemorySafe(s) && Enabled(s, a) && a.thread != t && t in s.threads && node in Holds(s.threads[t])
    ensures node in s.memory && node in Apply(s, a).memory && Apply(s, a).memory[node] == s.memory[node]
  {
    assert ThreadSafe(s, t);
    if a.Advance? && ThreadAt(s, a.thread).Answering? {
      AnsweringTouchesNothing(s, a);
    } else {
      if a.Advance? {
        TouchesOwn(s, t, a.thread, node);
      }
      UntouchedNode(s, a, node);
    }
  }

  lemma PushGoesOn(s: State, a: Action, t: ThreadId, data: Item, node: Address)
    requires Inv(s) && Enabled(s, a) && WillPush(s, t, data, node) && (a.thread == t ==> a.Advance?)
    requires !Pushes(s, t, data, node, a)
    ensures WillPush(Apply(s, a), t, data, node)
    ensures a.thread == t ==> Apply(s, a).pushed == s.pushed
  {
    if a.thread != t {
      OthersStep(s, a, t);
      OthersLeaveNode(s, a, t, node);
    }
  }

  lemma {:induction false} PushHappens(s: State, t: ThreadId, data: Item, node: Address, actions: seq<Action>, u: State)
      returns (c: Cut, v: State)
    requires Inv(s) && WillPush(s, t, data, node)
    requires Leads(s, actions, u) && GoesOn(t, actions) && ThreadAt(u, t).Idle?
    ensures Cuts(actions, c) && Through(s, c, v, u) && Pushes(v, t, data, node, c.a)
    decreases |actions|
  {
    CutFirst(s, actions, u);
    GoesOnInside(t, actions, Cut([], actions[0], actions[1..]));
    if Pushes(s, t, data, node, actions[0]) {
      c, v := Cut([], actions[0], actions[1..]), s;
    } else {
      EveryStepKeeps(s, actions[0]);
      PushGoesOn(s, actions[0], t, data, node);
      c, v := PushHappens(Apply(s, actions[0]), t, data, node, actions[1..], u);
      CutLater(s, actions, c, v, u);
      c := c.(prefix := [actions[0]] + c.prefix);
    }
  }

  lemma AnswersKept(s: State, a: Action)
    requires Enabled(s, a)
    ensures s.history.answers <= Apply(s, a).history.answers
  {
    if a.Advance? {
      match ThreadAt(s, a.thread)
      case PushCas(node) => assert TryPush(s, a.thread, node, a.spurious).history.answers == s.history.answers;
      case _ =>
    }
  }

  /** The answers only become more, and so do the batches. */
  lemma {:induction false} AnswersStay(s: State, actions: seq<Action>, u: State)
    requires Leads(s, actions, u)
    ensures s.history.answers <= u.history.answers && |s.batches| <= |u.batches|
    decreases |actions|
  {
    if actions == [] {
    } else {
      AnswersKept(s, actions[0]);
      StepKeepsBatches(s, actions[0]);
      AnswersStay(Apply(s, actions[0]), actions[1..], u);
    }
  }

  /** The read of the answer comes some steps after the push. */
  lemma {:induction false} AnswerHappens(s: State, t: ThreadId, node: Address, n: nat, actions: seq<Action>, u: State)
      returns (c: Cut, v: State)
    requires ThreadAt(s, t) == Answering(node, n)
    requires Leads(s, actions, u) && GoesOn(t, actions) && ThreadAt(u, t).Idle?
    ensures Cuts(actions, c) && Through(s, c, v, u) && ThreadAt(v, t) == Answering(node, n)
    ensures c.a.Advance? && c.a.thread == t
    decreases |actions|
  {
    CutFirst(s, actions, u);
    GoesOnInside(t, actions, Cut([], actions[0], actions[1..]));
    if actions[0].thread == t {
      c, v := Cut([], actions[0], actions[1..]), s;
    } else {
      OthersStep(s, actions[0], t);
      c, v := AnswerHappens(Apply(s, actions[0]), t, node, n, actions[1..], u);
      CutLater(s, actions, c, v, u);
      c := c.(prefix := [actions[0]] + c.prefix);
    }
  }

  /** The answer that is recorded after a push is the one that the read gives. */
  lemma AnswerRecorded(s: State, t: ThreadId, node: Address, n: nat, actions: seq<Action>, u: State)
      returns (c: Cut, v: State)
    requires ThreadAt(s, t) == Answering(node, n)
    requires Leads(s, actions, u) && GoesOn(t, actions) && ThreadAt(u, t).Idle?
    ensures Cuts(actions, c) && Leads(s, c.prefix, v) && ThreadAt(v, t) == Answering(node, n)
    ensures |v.history.answers| < |u.history.answers| && |s.batches| <= |v.batches| <= |u.batches|
    ensures u.history.answers[|v.history.answers|] == Answer(n, AnswerAt(v, node, n))
  {
    c, v := AnswerHappens(s, t, node, n, actions, u);
    var w := Apply(v, c.a);
    assert w.history.answers == v.history.answers + [Answer(n, AnswerAt(v, node, n))] && w.batches == v.batches;
    AnswersStay(s, c.prefix, v);
    AnswersStay(w, c.suffix, u);
  }

  /**
    A call to `push`, from its start in `s` to its end in `u`, whatever other threads do: at one moment `v` its item
    becomes the newest one, in front of what hung from the head. If no steal succeeds after that, the answer it gives
    is whether the stack was empty at that moment.
   */
  lemma PushReturns(before: seq<Action>, s: State, t: ThreadId, data: Item, node: Address, actions: seq<Action>, u: State)
      returns (c: Cut, v: State, k: nat)
    requires Reaches(before, s) && Enabled(s, Push(t, data, node)) && Leads(Apply(s, Push(t, data, node)), actions, u)
    requires GoesOn(t, actions) && ThreadAt(u, t).Idle?
    ensures Cuts(actions, c) && Through(Apply(s, Push(t, data, node)), c, v, u) && Pushes(v, t, data, node, c.a)
    ensures var w := Apply(v, c.a);
            w.head == node && w.pushed == v.pushed + [data] && w.memory == v.memory && w.batches == v.batches
    ensures k < |u.history.answers| && u.history.answers[k].push == |v.history.fates|
    ensures |u.batches| == |v.batches| ==> u.history.answers[k].empty == Some(v.head == 0)
  {
    var first := Push(t, data, node);
    EveryReachableState(before, s);
    EveryStepKeeps(s, first);
    c, v := PushHappens(Apply(s, first), t, data, node, actions, u);
    GoesOnInside(t, actions, c);
    LeadsFirst(s, first, c.prefix, v);
    LeadsCompose(Initial(), before, s, [first] + c.prefix, v);
    var d, x := AnswerRecorded(TryPush(v, t, node, false), t, node, |v.history.fates|, c.suffix, u);
    AnswerExact(before + ([first] + c.prefix), v, t, node, d.prefix, x);
    k := |x.history.answers|;
  }
}

/** What the stack promises, over every run of any number of threads. */
module StackTheorems {
  import opened Lists
  import opened LinkedMemory
  import opened StackProtocol
  import opened StackInvariant
  import opened StackSteps

  ghost predicate Reaches(actions: seq<Action>, s: State) { Leads(Initial(), actions, s) }

  lemma EveryReachableState(actions: seq<Action>, s: State)
    requires Reaches(actions, s)
    ensures Inv(s)
  {
    EveryRunKeeps(Initial(), actions, s);
  }

  ghost predicate Quiet(s: State) { forall t | t in s.threads :: s.threads[t].Idle? }

  /** What each steal delivered, oldest first. */
  function Delivered(batches: seq<Batch>): (r: seq<seq<Item>>)
    ensures |r| == |batches|
    ensures forall k :: 0 <= k < |batches| ==> r[k] == Oriented(batches[k].ordered, batches[k].delivered)
  {
    if batches == [] then []
    else [Oriented(batches[0].ordered, batches[0].delivered)] + Delivered(batches[1..])
  }

  /**
    Push order: between calls, the batches in the order of the steals, followed by what is on the stack, oldest
    first, are the items in the order of the successful pushes. Nothing is lost, duplicated or reordered, although
    addresses are reused.
   */
  lemma PushOrder(actions: seq<Action>, s: State, nodes: seq<Address>)
    requires Reaches(actions, s) && Quiet(s) && IsList(s.memory, s.head, nodes)
    ensures Flatten(Delivered(s.batches)) + Reverse(Data(s.memory, nodes)) == s.pushed
  {
    EveryReachableState(actions, s);
    OneList(s.memory, s.head, nodes, s.list);
    forall k: nat | k < |s.batches| ensures Delivered(s.batches)[k] == s.stolen[k] {
      assert !InProgress(s, k);
      assert Complete(s, k);
    }
    assert Delivered(s.batches) == s.stolen;
  }

  /** While calls are in progress, every ordered batch is the beginning of what its steal took. */
  lemma BatchesInOrder(actions: seq<Action>, s: State, k: nat)
    requires Reaches(actions, s) && k < |s.batches| && s.batches[k].ordered
    ensures |s.stolen| == |s.batches| && s.batches[k].delivered <= s.stolen[k]
    ensures Flatten(s.stolen) + Reverse(Data(s.memory, s.list)) == s.pushed
  {
    EveryReachableState(actions, s);
    if InProgress(s, k) {
      var t :| t in s.threads && BatchOf(s.threads[t]) == Some(k);
      assert BatchSafe(s, t);
    } else {
      assert Complete(s, k);
    }
  }

  /** What the guards of the code see is what the auxiliary fields say. */
  ghost predicate GuardsAgree(s: State, th: Thread) {
    match th
    case Turning(cur, _, _, rest, _) => cur == 0 <==> rest == []
    case Delivering(cur, k, rest) => (cur == 0 <==> rest == []) && k < |s.batches|
    case _ => true
  }

  lemma ThreadEnabled(s: State, t: ThreadId, spurious: bool)
    requires Inv(s) && t in s.threads && !s.threads[t].Idle?
    ensures Enabled(s, Advance(t, spurious)) && GuardsAgree(s, s.threads[t])
  {
    assert ThreadSafe(s, t) && BatchSafe(s, t);
  }

  /**
    No access of any thread but the last read of `push` ever touches a freed node, and each step can be taken; the
    guards of the code alone decide which. That read is the subject of `StackAnswers.AnswerExact`.
   */
  lemma NeverDangling(actions: seq<Action>, s: State, t: ThreadId, spurious: bool)
    requires Reaches(actions, s) && t in s.threads && !s.threads[t].Idle?
    ensures !s.threads[t].Answering? ==> forall x | x in Touches(s.threads[t]) :: x in s.memory
    ensures Enabled(s, Advance(t, spurious)) && GuardsAgree(s, s.threads[t])
  {
    EveryReachableState(actions, s);
    ThreadEnabled(s, t, spurious);
  }

  /** Between calls, exactly the nodes on the list are allocated: every delivered node was freed, once. */
  lemma NoLeak(actions: seq<Action>, s: State, nodes: seq<Address>, x: Address)
    requires Reaches(actions, s) && Quiet(s) && IsList(s.memory, s.head, nodes)
    ensures x in s.memory <==> x in nodes
    ensures Distinct(nodes)
  {
    EveryReachableState(actions, s);
    OneList(s.memory, s.head, nodes, s.list);
    if x in s.memory {
      assert x in s.owner.Keys;
      assert Accounted(s, x);
    }
  }

  // ---------------------------------------------------------------- calls run to completion

  /** How far a thread that runs alone is from the end of its call. */
  function Distance(s: State, th: Thread): nat {
    match th
    case Idle => 0
    case PushLoad(_) => 4
    case PushCas(node) => if node in s.memory && s.memory[node].next == s.head then 2 else 3
    case Answering(_, _) => 1
    case StealCas(expected, _) => 3 + 2 * |s.list| + if expected == s.head then 0 else 1
    case Turning(_, _, _, rest, done) => 2 + 2 * |rest| + |done|
    case Delivering(_, _, rest) => 1 + |rest|
  }

  ghost predicate Nearer(s: State, t: ThreadId, u: State) {
    && t in s.threads && t in u.threads && u.threads == s.threads[t := u.threads[t]]
    && Distance(u, u.threads[t]) < Distance(s, s.threads[t])
  }

  lemma TurnNearer(s: State, t: ThreadId)
    requires t in s.threads && s.threads[t].Turning? && Enabled(s, Advance(t, false)) && GuardsAgree(s, s.threads[t])
    ensures Nearer(s, t, Step(s, t, false))
  {
  }

  lemma DeliverNearer(s: State, t: ThreadId)
    requires t in s.threads && s.threads[t].Delivering? && Enabled(s, Advance(t, false)) && GuardsAgree(s, s.threads[t])
    ensures Nearer(s, t, Step(s, t, false))
  {
  }

  lemma StepNearer(s: State, t: ThreadId)
    requires t in s.threads && Enabled(s, Advance(t, false)) && GuardsAgree(s, s.threads[t])
    ensures Nearer(s, t, Step(s, t, false))
  {
    match s.threads[t]
    case PushCas(node) => assert Nearer(s, t, TryPush(s, t, node, false));
    case StealCas(expected, ordered) => assert Nearer(s, t, TrySteal(s, t, expected, ordered, false));
    case Turning(_, _, _, rest, _) => TurnNearer(s, t);
    case Delivering(_, _, rest) => DeliverNearer(s, t);
    case _ =>
  }

  lemma LeadsFirst(s: State, a: Action, actions: seq<Action>, u: State)
    requires Enabled(s, a) && Leads(Apply(s, a), actions, u)
    ensures Leads(s, [a] + actions, u)
  {
    assert ([a] + actions)[1..] == actions;
  }

  lemma {:induction false} ThreadFinishes(s: State, t: ThreadId) returns (actions: seq<Action>, u: State)
    requires Inv(s) && t in s.threads
    ensures Leads(s, actions, u) && Inv(u)
    ensures u.threads == s.threads[t := Idle]
    decreases Distance(s, s.threads[t])
  {
    if s.threads[t].Idle? {
      actions, u := [], s;
    } else {
      ThreadEnabled(s, t, false);
      StepNearer(s, t);
      EveryStepKeeps(s, Advance(t, false));
      actions, u := ThreadFinishes(Step(s, t, false), t);
      LeadsFirst(s, Advance(t, false), actions, u);
      actions := [Advance(t, false)] + actions;
    }
  }

  lemma {:induction false} LeadsCompose(s: State, actions: seq<Action>, t: State, more: seq<Action>, u: State)
    requires Leads(s, actions, t) && Leads(t, more, u)
    ensures Leads(s, actions + more, u)
    decreases |actions|
  {
    if actions == [] {
      assert actions + more == more;
    } else {
      LeadsCompose(Apply(s, actions[0]), actions[1..], t, more, u);
      assert (actions + more)[1..] == actions[1..] + more;
    }
  }

  lemma {:induction false} AllFinish(s: State, busy: set<ThreadId>) returns (actions: seq<Action>, u: State)
    requires Inv(s) && forall t | t in s.threads && !s.threads[t].Idle? :: t in busy
    ensures Leads(s, actions, u) && Inv(u) && Quiet(u)
    decreases |busy|
  {
    if busy == {} {
      actions, u := [], s;
    } else {
      var t := Pick(busy);
      if t in s.threads {
        var first, v := ThreadFinishes(s, t);
        var rest;
        rest, u := AllFinish(v, busy - {t});
        LeadsCompose(s, first, v, rest, u);
        actions := first + rest;
      } else {
        actions, u := AllFinish(s, busy - {t});
      }
    }
  }

  /** From every reachable state the calls in progress can run to their end, one after the other. */
  lemma CallsFinish(actions: seq<Action>, s: State) returns (more: seq<Action>, t: State)
    requires Reaches(actions, s)
    ensures Reaches(actions + more, t) && Quiet(t)
  {
    EveryReachableState(actions, s);
    more, t := AllFinish(s, s.threads.Keys);
    LeadsCompose(Initial(), actions, s, more, t);
  }
}

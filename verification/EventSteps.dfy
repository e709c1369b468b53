/** Every step on the event keeps the invariant. */
module EventSteps {
  import opened Lists
  import opened LinkedMemory
  import opened EventProtocol
  import opened EventInvariant

  // ---------------------------------------------------------------- one call moves, the others stay

  ghost predicate OthersKept(s: State, u: State, c: CallId) {
    && (forall d | d != c :: d in s.calls <==> d in u.calls)
    && (forall d | d in s.calls && d != c :: u.calls[d] == s.calls[d])
    && u.owner.Keys == u.ops.Keys && s.turns <= u.turns
    && (forall x | x in s.owner && s.owner[x].Private? && s.owner[x].call != c ::
          x in u.owner && u.owner[x] == s.owner[x] && x in s.ops && u.ops[x] == s.ops[x])
    && (forall x | x in u.owner && u.owner[x].Private? && u.owner[x].call != c :: x in s.owner && s.owner[x] == u.owner[x])
  }

  lemma CallKept(s: State, u: State, c: CallId, d: CallId)
    requires OthersKept(s, u, c) && d != c && d in s.calls && CallSafe(s, d)
    ensures CallSafe(u, d)
  {
    var call := s.calls[d];
    if call.Resuming? {
      ListKept(s.ops, u.ops, call.current, call.rest);
    }
  }

  /** What the moving call has to show about the operations. */
  ghost predicate Moved(s: State, u: State, c: CallId) {
    && OthersKept(s, u, c)
    && (c in u.calls ==> CallSafe(u, c))
    && (if u.word.Set? then u.list == [] else IsList(u.ops, u.word.head, u.list))
    && Distinct(u.list)
    && (forall x | x in u.list :: x in u.owner && u.owner[x].Listed?)
    && (forall x | x in u.owner && (u.owner[x].Listed? || u.owner[x].call == c) :: Accounted(u, x))
  }

  lemma ListsStep(s: State, u: State, c: CallId)
    requires ListsSafe(s) && Moved(s, u, c)
    ensures ListsSafe(u)
  {
    forall d | d in u.calls ensures CallSafe(u, d) {
      if d != c {
        CallKept(s, u, c, d);
      }
    }
    forall x | x in u.owner ensures Accounted(u, x) {
      if u.owner[x].Private? && u.owner[x].call != c {
        assert Accounted(s, x);
      }
    }
  }

  /** What the moving call has to show about the awaits; it changes at most the await `w`, its own. */
  ghost predicate Told(s: State, u: State, c: CallId, w: AwaitId) {
    && OthersKept(s, u, c)
    && (forall v | v in s.awaits && v != w :: v in u.awaits && u.awaits[v] == s.awaits[v])
    && (forall v | v in u.awaits && v != w :: v in s.awaits)
    && (w in s.awaits && s.awaits[w].op.Some? ==>
          s.awaits[w].op.value in s.owner && s.owner[s.awaits[w].op.value] == Private(c))
    && (forall x | x in u.ops && (u.owner[x].Listed? || u.owner[x].call == c) :: Waiting(u, x))
    && (forall x | x in s.ops && s.ops[x].data != w :: x in u.ops && u.ops[x].data == s.ops[x].data)
    && (w in u.awaits ==> AwaitSafe(u, w))
  }

  lemma AwaitsStep(s: State, u: State, c: CallId, w: AwaitId)
    requires AwaitsSafe(s) && Told(s, u, c, w)
    ensures AwaitsSafe(u)
  {
    forall x | x in u.ops ensures Waiting(u, x) {
      if u.owner[x].Private? && u.owner[x].call != c {
        assert Waiting(s, x);
      }
    }
    forall v | v in u.awaits ensures AwaitSafe(u, v) {
      if v != w {
        assert AwaitSafe(s, v);
      }
    }
  }

  /** A step that changes no await. */
  lemma SameAwaits(s: State, u: State, c: CallId)
    requires AwaitsSafe(s) && OthersKept(s, u, c) && u.awaits == s.awaits
    requires forall x | x in s.ops :: x in u.ops && u.ops[x].data == s.ops[x].data
    requires forall x | x in u.ops && (u.owner[x].Listed? || u.owner[x].call == c) :: Waiting(u, x)
    ensures AwaitsSafe(u)
  {
    forall x | x in u.ops ensures Waiting(u, x) {
      if u.owner[x].Private? && u.owner[x].call != c {
        assert Waiting(s, x);
      }
    }
    forall v | v in u.awaits ensures AwaitSafe(u, v) {
      assert AwaitSafe(s, v);
    }
  }

  lemma OwnsNothing(s: State, c: CallId)
    requires ListsSafe(s) && (c !in s.calls || Holds(s.calls[c]) == [])
    ensures forall x | x in s.owner :: s.owner[x] != Private(c)
  {
    forall x | x in s.owner ensures s.owner[x] != Private(c) {
      assert Accounted(s, x);
    }
  }

  lemma OwnsOne(s: State, c: CallId, op: Address)
    requires ListsSafe(s) && c in s.calls && Holds(s.calls[c]) == [op]
    ensures op in s.owner && s.owner[op] == Private(c) && op in s.ops && op !in s.list
    ensures forall x | x in s.owner :: s.owner[x] == Private(c) ==> x == op
  {
    assert CallSafe(s, c);
    assert op in Holds(s.calls[c]);
    forall x | x in s.owner && s.owner[x] == Private(c) ensures x == op {
      assert Accounted(s, x);
    }
  }

  lemma ListUntouched(s: State, u: State)
    requires ListsSafe(s) && u.word == s.word && u.list == s.list
    requires AgreeOn(s.ops, u.ops, s.list)
    ensures if u.word.Set? then u.list == [] else IsList(u.ops, u.word.head, u.list)
  {
    if !s.word.Set? {
      ListKept(s.ops, u.ops, s.word.head, s.list);
    }
  }

  /** A call whose operations change only in its own hands, while the list is left alone. */
  ghost predicate Reworked(s: State, u: State, c: CallId) {
    && OthersKept(s, u, c)
    && u.word == s.word && u.list == s.list
    && (forall x | x in s.owner && s.owner[x].Listed? :: x in s.ops && x in u.ops && u.ops[x] == s.ops[x])
    && (forall x | x in s.owner && s.owner[x].Listed? :: x in u.owner && u.owner[x].Listed?)
    && (forall x | x in u.owner && u.owner[x].Listed? :: x in s.owner && s.owner[x].Listed?)
    && (forall x | x in u.owner && u.owner[x] == Private(c) :: c in u.calls && x in Holds(u.calls[c]))
    && (c in u.calls ==> CallSafe(u, c))
  }

  lemma ReworkMoves(s: State, u: State, c: CallId)
    requires ListsSafe(s) && Reworked(s, u, c)
    ensures ListsSafe(u)
  {
    ListUntouched(s, u);
    forall x | x in u.owner && (u.owner[x].Listed? || u.owner[x].call == c) ensures Accounted(u, x) {
      if u.owner[x].Listed? {
        assert Accounted(s, x);
      }
    }
    ListsStep(s, u, c);
  }

  // ---------------------------------------------------------------- the steps of an await

  lemma NewReworks(s: State, u: State, c: CallId, w: AwaitId, op: Address)
    requires s.owner.Keys == s.ops.Keys && c !in s.calls && op !in s.ops
    requires forall x | x in s.owner :: s.owner[x] != Private(c)
    requires u.ops == s.ops[op := Node(w, 0)] && u.owner == s.owner[op := Private(c)] && u.turns == s.turns
    requires u.calls == s.calls[c := Ready(op)] && u.word == s.word && u.list == s.list
    ensures Reworked(s, u, c)
  {
  }

  lemma NewAwait(s: State, u: State, c: CallId, w: AwaitId, op: Address)
    requires AwaitsSafe(s) && w !in s.awaits && c !in s.calls && op !in s.ops && op != 0 && OthersKept(s, u, c)
    requires forall x | x in s.owner :: s.owner[x] != Private(c)
    requires u.ops == s.ops[op := Node(w, 0)] && u.owner == s.owner[op := Private(c)] && u.turns == s.turns
    requires u.awaits == s.awaits[w := Await(Starting, [], Some(op))] && c in u.calls && u.calls[c] == Ready(op)
    ensures Told(s, u, c, w)
  {
    forall x | x in u.ops && (u.owner[x].Listed? || u.owner[x].call == c) ensures Waiting(u, x) {
      if x != op {
        assert Waiting(s, x);
      }
    }
  }

  lemma AwaitStarts(s: State, c: CallId, w: AwaitId, op: Address)
    requires Inv(s) && Enabled(s, CoAwait(c, w, op))
    ensures Inv(Apply(s, CoAwait(c, w, op)))
  {
    var u := Apply(s, CoAwait(c, w, op));
    OwnsNothing(s, c);
    NewReworks(s, u, c, w, op);
    ReworkMoves(s, u, c);
    NewAwait(s, u, c, w, op);
    AwaitsStep(s, u, c, w);
  }

  lemma RelinkReworks(s: State, u: State, c: CallId, op: Address)
    requires s.owner.Keys == s.ops.Keys == u.ops.Keys && u.owner == s.owner
    requires c in s.calls && c in u.calls && Holds(u.calls[c]) == [op] && !u.calls[c].Resuming?
    requires forall d | d != c :: d in s.calls <==> d in u.calls
    requires forall d | d in s.calls && d != c :: u.calls[d] == s.calls[d]
    requires u.word == s.word && u.list == s.list && u.turns == s.turns
    requires forall x | x in u.ops && x != op :: u.ops[x] == s.ops[x]
    requires op in s.owner && s.owner[op] == Private(c)
    requires forall x | x in s.owner :: s.owner[x] == Private(c) ==> x == op
    ensures Reworked(s, u, c)
  {
  }

  /** A step that changes at most the next pointer of the call's own operation. */
  lemma Relinked(s: State, c: CallId, op: Address, call: Call, ops: map<Address, Node>)
    requires Inv(s) && c in s.calls && Holds(s.calls[c]) == [op] && !s.calls[c].Resuming?
    requires Holds(call) == [op] && !call.Resuming?
    requires ops.Keys == s.ops.Keys && forall x | x in ops :: ops[x] == s.ops[x] || (x == op && ops[x].data == s.ops[x].data)
    ensures Inv(Become(s, c, call).(ops := ops))
  {
    var u := Become(s, c, call).(ops := ops);
    OwnsOne(s, c, op);
    RelinkReworks(s, u, c, op);
    ReworkMoves(s, u, c);
    forall x | x in u.ops && (u.owner[x].Listed? || u.owner[x].call == c) ensures Waiting(u, x) {
      assert Waiting(s, x);
    }
    SameAwaits(s, u, c);
  }

  lemma PassReworks(s: State, u: State, c: CallId, op: Address)
    requires s.owner.Keys == s.ops.Keys && op in s.owner && s.owner[op] == Private(c)
    requires forall x | x in s.owner :: s.owner[x] == Private(c) ==> x == op
    requires u.ops == s.ops - {op} && u.owner == s.owner - {op} && u.calls == s.calls - {c}
    requires u.word == s.word && u.list == s.list && u.turns == s.turns
    ensures Reworked(s, u, c)
  {
  }

  /** An operation is gone, and its await is over. */
  lemma OneGone(s: State, u: State, c: CallId, op: Address, w: AwaitId)
    requires AwaitsSafe(s) && op in s.ops && w == s.ops[op].data && u.ops == s.ops - {op} && u.owner == s.owner - {op}
    requires u.turns == s.turns && w in u.awaits && u.awaits == s.awaits[w := u.awaits[w]] && OthersKept(s, u, c)
    requires s.owner[op] == Private(c)
    requires forall x | x in u.ops && s.owner[x] == Private(c) ::
               c in s.calls && c in u.calls && s.calls[c].Resuming? && u.calls[c].Resuming? && s.calls[c].turn == u.calls[c].turn
    requires u.awaits[w].op == None && Over(u, w)
    ensures Told(s, u, c, w)
  {
    assert Waiting(s, op);
    forall x | x in u.ops && (u.owner[x].Listed? || u.owner[x].call == c) ensures Waiting(u, x) {
      assert Waiting(s, x);
    }
  }

  lemma PassKeeps(s: State, c: CallId, op: Address)
    requires Inv(s) && c in s.calls && Holds(s.calls[c]) == [op] && !s.calls[c].Resuming?
    ensures op in s.ops && s.ops[op].data in s.awaits && Inv(Pass(s, c, op))
  {
    OwnsOne(s, c, op);
    assert Waiting(s, op);
    var u := Pass(s, c, op);
    PassReworks(s, u, c, op);
    ReworkMoves(s, u, c);
    OneGone(s, u, c, op, s.ops[op].data);
    AwaitsStep(s, u, c, s.ops[op].data);
  }

  lemma EnlistOthers(s: State, u: State, c: CallId, op: Address)
    requires s.owner.Keys == s.ops.Keys && op in s.owner && s.owner[op] == Private(c)
    requires u.ops == s.ops && u.owner == s.owner[op := Listed] && u.calls == s.calls - {c} && u.turns == s.turns
    ensures OthersKept(s, u, c)
  {
  }

  lemma ListedAreListed(s: State)
    requires ListsSafe(s)
    ensures forall x | x in s.owner && s.owner[x].Listed? :: x in s.list
  {
    forall x | x in s.owner && s.owner[x].Listed? ensures x in s.list {
      assert Accounted(s, x);
    }
  }

  lemma EnlistMoves(s: State, u: State, c: CallId, op: Address)
    requires ListsSafe(s) && c in s.calls && op in s.ops && op != 0 && op !in s.list && s.owner[op] == Private(c)
    requires forall x | x in s.owner :: s.owner[x] == Private(c) ==> x == op
    requires s.word == Waiters(s.ops[op].next) && u.word == Waiters(op) && u.list == [op] + s.list
    requires u.ops == s.ops && u.owner == s.owner[op := Listed] && u.calls == s.calls - {c} && u.turns == s.turns
    ensures Moved(s, u, c)
  {
    EnlistOthers(s, u, c, op);
    ListCons(s.ops, op, s.list);
    ListedAreListed(s);
  }

  lemma EnlistTold(s: State, u: State, c: CallId, op: Address)
    requires AwaitsSafe(s) && OthersKept(s, u, c) && c in s.calls && op in s.ops && s.owner[op] == Private(c)
    requires forall x | x in s.owner :: s.owner[x] == Private(c) ==> x == op
    requires !s.calls[c].Resuming? && u.ops == s.ops && u.owner == s.owner[op := Listed] && u.turns == s.turns
    requires s.ops[op].data in s.awaits
    requires u.awaits == s.awaits[s.ops[op].data := s.awaits[s.ops[op].data].(status := Queued(s.turns))]
    ensures Told(s, u, c, s.ops[op].data)
  {
    assert Waiting(s, op);
    forall x | x in u.ops && (u.owner[x].Listed? || u.owner[x].call == c) ensures Waiting(u, x) {
      assert Waiting(s, x);
    }
  }

  lemma EnlistKeeps(s: State, c: CallId, op: Address)
    requires Inv(s) && c in s.calls && s.calls[c] == Enqueue(op)
    requires op in s.ops && s.ops[op].data in s.awaits && s.word == Waiters(s.ops[op].next)
    ensures Inv(Enlist(s, c, op))
  {
    OwnsOne(s, c, op);
    EnlistMoves(s, Enlist(s, c, op), c, op);
    ListsStep(s, Enlist(s, c, op), c);
    EnlistTold(s, Enlist(s, c, op), c, op);
    AwaitsStep(s, Enlist(s, c, op), c, s.ops[op].data);
  }

  lemma LookKeeps(s: State, c: CallId, op: Address)
    requires Inv(s) && c in s.calls && (s.calls[c] == Suspend(op) || s.calls[c] == Enqueue(op))
    ensures op in s.ops && s.ops[op].data in s.awaits && Inv(Look(s, c, op))
  {
    PassKeeps(s, c, op);
    if !s.word.Set? {
      Relinked(s, c, op, Enqueue(op), SetNext(s.ops, op, s.word.head));
    }
  }

  // ---------------------------------------------------------------- the steps of set and reset

  lemma EmptyReworks(s: State, u: State, c: CallId)
    requires s.owner.Keys == s.ops.Keys && forall x | x in s.owner :: s.owner[x] != Private(c)
    requires u.ops == s.ops && u.owner == s.owner && u.word == s.word && u.list == s.list && s.turns <= u.turns
    requires u.calls == s.calls - {c} || u.calls == s.calls[c := Exchange]
    ensures Reworked(s, u, c)
  {
  }

  lemma EmptyAwaits(s: State, u: State, c: CallId)
    requires AwaitsSafe(s) && OthersKept(s, u, c) && u.ops == s.ops && u.owner == s.owner && u.awaits == s.awaits
    requires forall x | x in s.owner :: s.owner[x] != Private(c)
    requires s.turns == u.turns || forall x | x in s.owner :: !s.owner[x].Listed?
    ensures AwaitsSafe(u)
  {
    forall x | x in u.ops && (u.owner[x].Listed? || u.owner[x].call == c) ensures Waiting(u, x) {
      assert Waiting(s, x);
    }
    SameAwaits(s, u, c);
  }

  /** A step of a call that holds nothing, before and after. */
  lemma EmptyHanded(s: State, u: State, c: CallId)
    requires Inv(s) && (c !in s.calls || Holds(s.calls[c]) == [])
    requires u.ops == s.ops && u.owner == s.owner && u.word == s.word && u.list == s.list && u.awaits == s.awaits
    requires u.calls == s.calls - {c} || u.calls == s.calls[c := Exchange]
    requires s.turns == u.turns || (s.turns < u.turns && s.list == [])
    ensures Inv(u)
  {
    OwnsNothing(s, c);
    EmptyReworks(s, u, c);
    ReworkMoves(s, u, c);
    ListedAreListed(s);
    EmptyAwaits(s, u, c);
  }

  lemma TakeAllMoves(s: State, u: State, c: CallId)
    requires ListsSafe(s) && c in s.calls && s.calls[c] == Exchange && !s.word.Set? && u == TakeAll(s, c)
    ensures Moved(s, u, c)
  {
    OwnsNothing(s, c);
    forall x | x in u.owner && (u.owner[x].Listed? || u.owner[x].call == c) ensures Accounted(u, x) {
      assert Accounted(s, x);
    }
  }

  lemma TakeAllTold(s: State, u: State, c: CallId)
    requires AwaitsSafe(s) && OthersKept(s, u, c) && c in s.calls && s.calls[c] == Exchange && !s.word.Set? && u == TakeAll(s, c)
    requires forall x | x in s.owner :: s.owner[x] != Private(c)
    ensures AwaitsSafe(u)
  {
    forall x | x in u.ops && (u.owner[x].Listed? || u.owner[x].call == c) ensures Waiting(u, x) {
      assert Waiting(s, x);
    }
    SameAwaits(s, u, c);
  }

  lemma TakeAllKeeps(s: State, c: CallId)
    requires Inv(s) && c in s.calls && s.calls[c] == Exchange
    ensures Inv(TakeAll(s, c))
  {
    var u := TakeAll(s, c);
    if s.word.Set? {
      EmptyHanded(s, u, c);
    } else {
      OwnsNothing(s, c);
      TakeAllMoves(s, u, c);
      ListsStep(s, u, c);
      TakeAllTold(s, u, c);
    }
  }

  lemma OneRemoved(s: State, u: State, c: CallId, current: Address)
    requires OthersKept(s, u, c) && c in u.calls && CallSafe(u, c) && s.owner.Keys == s.ops.Keys
    requires current in s.owner && s.owner[current] == Private(c)
    requires u.ops == s.ops - {current} && u.owner == s.owner - {current} && u.word == s.word && u.list == s.list
    requires forall x | x in s.owner && s.owner[x] == Private(c) :: x == current || x in Holds(u.calls[c])
    ensures Reworked(s, u, c)
  {
  }

  lemma ResumeOthers(s: State, u: State, c: CallId, current: Address)
    requires s.owner.Keys == s.ops.Keys && current in s.owner && s.owner[current] == Private(c) && c in s.calls && c in u.calls
    requires u.ops == s.ops - {current} && u.owner == s.owner - {current} && u.turns == s.turns
    requires u.calls == s.calls[c := u.calls[c]]
    ensures OthersKept(s, u, c)
  {
  }

  lemma OwnsRest(s: State, c: CallId, current: Address, rest: seq<Address>)
    requires ListsSafe(s) && c in s.calls && s.calls[c].Resuming? && s.calls[c].rest == rest && rest != []
    requires current == rest[0]
    ensures current in s.owner && s.owner[current] == Private(c) && current !in rest[1..]
    ensures forall x | x in s.owner && s.owner[x] == Private(c) :: x == current || x in rest[1..]
    ensures forall x | x in rest[1..] :: x in s.owner && s.owner[x] == Private(c)
    ensures Distinct(rest[1..])
  {
    assert CallSafe(s, c);
    FirstAndRest(current, rest);
    forall x | x in s.owner && s.owner[x] == Private(c) ensures x in rest {
      assert Accounted(s, x);
    }
  }

  lemma ResumeReworks(s: State, u: State, c: CallId, current: Address, k: nat, rest: seq<Address>)
    requires ListsSafe(s) && c in s.calls && s.calls[c] == Resuming(current, k, rest) && rest != [] && current in s.ops
    requires u.ops == s.ops - {current} && u.owner == s.owner - {current} && u.turns == s.turns
    requires u.word == s.word && u.list == s.list
    requires u.calls == s.calls[c := Resuming(s.ops[current].next, k, rest[1..])]
    ensures Reworked(s, u, c)
  {
    assert CallSafe(s, c);
    OwnsRest(s, c, current, rest);
    ListTail(s.ops, current, rest);
    ResumeOthers(s, u, c, current);
    assert CallSafe(u, c);
    OneRemoved(s, u, c, current);
  }

  lemma ResumeKeeps(s: State, c: CallId, current: Address, k: nat, rest: seq<Address>)
    requires Inv(s) && c in s.calls && s.calls[c] == Resuming(current, k, rest) && rest != []
    ensures current in s.ops && s.ops[current].data in s.awaits && Inv(Resume(s, c, current, k, rest))
  {
    assert CallSafe(s, c);
    assert current in rest;
    assert Waiting(s, current);
    var u := Resume(s, c, current, k, rest);
    ResumeReworks(s, u, c, current, k, rest);
    ReworkMoves(s, u, c);
    OneGone(s, u, c, current, s.ops[current].data);
    AwaitsStep(s, u, c, s.ops[current].data);
  }

  lemma ResetAwaits(s: State, u: State)
    requires AwaitsSafe(s) && u == s.(word := u.word)
    ensures AwaitsSafe(u)
  {
    forall x | x in u.ops ensures Waiting(u, x) {
      assert Waiting(s, x);
    }
    forall w | w in u.awaits ensures AwaitSafe(u, w) {
      assert AwaitSafe(s, w);
    }
  }

  lemma ResetKeeps(s: State)
    requires Inv(s)
    ensures Inv(Apply(s, Reset))
  {
    var u := Apply(s, Reset);
    forall c | c in u.calls ensures CallSafe(u, c) {
      assert CallSafe(s, c);
    }
    forall x | x in u.owner ensures Accounted(u, x) {
      assert Accounted(s, x);
    }
    ResetAwaits(s, u);
  }

  // ---------------------------------------------------------------- every step, every run

  lemma ReadyKeeps(s: State, c: CallId, op: Address, spurious: bool)
    requires Inv(s) && Enabled(s, Advance(c, spurious)) && s.calls[c] == Ready(op)
    ensures Inv(Step(s, c, spurious))
  {
    if s.word.Set? {
      PassKeeps(s, c, op);
    } else {
      Relinked(s, c, op, Suspend(op), s.ops);
    }
  }

  lemma EnqueueKeeps(s: State, c: CallId, op: Address, spurious: bool)
    requires Inv(s) && Enabled(s, Advance(c, spurious)) && s.calls[c] == Enqueue(op)
    ensures Inv(Step(s, c, spurious))
  {
    if !spurious && s.word == Waiters(s.ops[op].next) {
      EnlistKeeps(s, c, op);
    } else {
      LookKeeps(s, c, op);
    }
  }

  lemma ResumingKeeps(s: State, c: CallId, current: Address, k: nat, rest: seq<Address>, spurious: bool)
    requires Inv(s) && Enabled(s, Advance(c, spurious)) && s.calls[c] == Resuming(current, k, rest)
    ensures Inv(Step(s, c, spurious))
  {
    assert CallSafe(s, c);
    if rest == [] {
      EmptyHanded(s, Finish(s, c), c);
    } else {
      ResumeKeeps(s, c, current, k, rest);
    }
  }

  lemma AdvanceKeeps(s: State, c: CallId, spurious: bool)
    requires Inv(s) && Enabled(s, Advance(c, spurious))
    ensures Inv(Step(s, c, spurious))
  {
    match s.calls[c]
    case Ready(op) => ReadyKeeps(s, c, op, spurious);
    case Suspend(op) => LookKeeps(s, c, op);
    case Enqueue(op) => EnqueueKeeps(s, c, op, spurious);
    case Exchange => TakeAllKeeps(s, c);
    case Resuming(current, k, rest) => ResumingKeeps(s, c, current, k, rest, spurious);
  }

  lemma EveryStepKeeps(s: State, a: Action)
    requires Inv(s) && Enabled(s, a)
    ensures Inv(Apply(s, a))
  {
    match a
    case CoAwait(c, w, op) => AwaitStarts(s, c, w, op);
    case SetEvent(c) => EmptyHanded(s, Apply(s, a), c);
    case Reset => ResetKeeps(s);
    case Advance(c, spurious) => AdvanceKeeps(s, c, spurious);
  }

  lemma {:induction false} EveryRunKeeps(s: State, actions: seq<Action>, t: State)
    requires Inv(s) && Leads(s, actions, t)
    ensures Inv(t)
    decreases |actions|
  {
    if actions == [] {
    } else {
      EveryStepKeeps(s, actions[0]);
      EveryRunKeeps(Apply(s, actions[0]), actions[1..], t);
    }
  }
}

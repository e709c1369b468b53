/** Every step keeps the invariant of the barrier. */
module BarrierSteps {
  import opened Lists
  import opened SequenceTraits
  import opened BarrierProtocol
  import opened BarrierInvariant

  /** Only call `c` moved. */
  ghost predicate OthersStand(s: State, t: State, c: CallId) {
    forall d | d != c :: (d in s.calls <==> d in t.calls) && (d in s.calls ==> s.calls[d] == t.calls[d])
  }

  lemma NothingPublished(s: State, c: CallId, spurious: bool)
    requires c in s.calls
    ensures ApplyAdvance(s, c, spurious).published == s.published
  {
  }

  lemma KeepMonotone(s: State, a: Action)
    requires Inv(s) && Enabled(s, a)
    ensures Monotone(Apply(s, a))
  {
    if a.Advance? {
      NothingPublished(s, a.call, a.spurious);
    }
  }

  lemma ResumingUpdatesOneCall(s: State, c: CallId, spurious: bool)
    requires c in s.calls && (s.calls[c].Resuming? || s.calls[c].Asking?)
    ensures var t := ApplyAdvance(s, c, spurious);
            t.calls == s.calls - {c} || (c in t.calls && t.calls == s.calls[c := t.calls[c]])
  {
    assert s.calls == s.calls[c := s.calls[c]];
  }

  lemma AdvanceUpdatesOneCall(s: State, c: CallId, spurious: bool)
    requires c in s.calls
    ensures var t := ApplyAdvance(s, c, spurious);
            t.calls == s.calls - {c} || (c in t.calls && t.calls == s.calls[c := t.calls[c]])
  {
    if s.calls[c].Resuming? || s.calls[c].Asking? {
      ResumingUpdatesOneCall(s, c, spurious);
    }
  }

  lemma AdvanceMovesOneCall(s: State, c: CallId, spurious: bool)
    requires c in s.calls
    ensures OthersStand(s, ApplyAdvance(s, c, spurious), c)
  {
    AdvanceUpdatesOneCall(s, c, spurious);
  }

  /** No step but the start of `publish` turns a call into a producing one. */
  lemma AdvanceProduces(s: State, c: CallId, spurious: bool)
    requires c in s.calls
    ensures c in ApplyAdvance(s, c, spurious).calls && Producing(ApplyAdvance(s, c, spurious).calls[c]) ==> Producing(s.calls[c])
  {
  }

  lemma KeepSingleProducer(s: State, a: Action)
    requires Inv(s) && Enabled(s, a)
    ensures SingleProducer(Apply(s, a))
  {
    if a.Advance? {
      AdvanceMovesOneCall(s, a.call, a.spurious);
      AdvanceProduces(s, a.call, a.spurious);
    }
  }

  // ---------------------------------------------------------------- conservation

  ghost predicate IsListed(s: State, w: WaiterId) {
    w in s.waiters && s.waiters[w].Listed()
  }

  /** On the shared list or with call `c`. */
  ghost predicate Local(s: State, c: CallId, w: WaiterId) {
    w in s.shared || (c in s.calls && w in Held(s.calls[c]))
  }

  /** Moving waiters between the shared list and one call, adding new ones and dropping handed ones, conserves. */
  lemma MoveConserves(s: State, t: State, c: CallId)
    requires Conserved(s) && OthersStand(s, t, c)
    requires Distinct(t.shared) && (c in t.calls ==> Distinct(Held(t.calls[c])))
    requires forall w | w in t.shared :: c in t.calls ==> w !in Held(t.calls[c])
    requires forall w | Local(t, c, w) :: IsListed(t, w) && (Local(s, c, w) || !IsListed(s, w))
    requires forall w | IsListed(t, w) && (Local(s, c, w) || !IsListed(s, w)) :: Local(t, c, w)
    requires forall w | IsListed(s, w) && !IsListed(t, w) :: Local(s, c, w)
    ensures Conserved(t)
  {
    forall d | d in t.calls && d != c ensures HeldSafely(t, d) {
      assert HeldSafely(s, d);
      forall w | w in Held(t.calls[d])
        ensures IsListed(t, w) && w !in t.shared
        ensures forall e | e in t.calls && e != d :: w !in Held(t.calls[e])
      {
        assert !Local(s, c, w) && IsListed(s, w);
        assert !Local(t, c, w);
      }
    }
    if c in t.calls {
      forall w | w in Held(t.calls[c])
        ensures forall e | e in t.calls && e != c :: w !in Held(t.calls[e])
      {
        assert Local(t, c, w);
        forall e | e in t.calls && e != c ensures w !in Held(t.calls[e]) {
          assert HeldSafely(s, e);
          assert forall v | v in Held(s.calls[e]) :: IsListed(s, v) && !Local(s, c, v);
        }
      }
      assert forall w | w in Held(t.calls[c]) :: Local(t, c, w);
      assert HeldSafely(t, c);
    }
    forall w | IsListed(t, w) ensures Somewhere(t, w) {
      if Local(s, c, w) || !IsListed(s, w) {
        assert Local(t, c, w);
      } else {
        assert Somewhere(s, w);
        var d :| d in s.calls && w in Held(s.calls[d]);
        assert d in t.calls && t.calls[d] == s.calls[d];
      }
    }
    forall w | w in t.shared ensures IsListed(t, w) {
      assert Local(t, c, w);
    }
  }

  /** The two halves of a split partition the shared list. */
  lemma SplitPartitions(s: State, pending: WaiterId -> bool, reached: WaiterId -> bool)
    requires Distinct(s.shared)
    requires forall w :: pending(w) == !reached(w)
    ensures Distinct(Filter(s.shared, pending) + Filter(s.shared, reached))
    ensures forall w :: w in s.shared <==> w in Filter(s.shared, pending) || w in Filter(s.shared, reached)
    ensures forall w | w in Filter(s.shared, pending) :: w !in Filter(s.shared, reached)
  {
    FilterDistinct(s.shared, pending);
    FilterDistinct(s.shared, reached);
    DistinctConcat(Filter(s.shared, pending), Filter(s.shared, reached));
  }

  lemma PublishSplitConserves(s: State, c: CallId, n: int)
    requires Conserved(s) && c in s.calls && s.calls[c] == PublishExchange(n)
    ensures Conserved(PublishSplit(s, c, n))
  {
    SplitPartitions(s, PublishPending(s, n), PublishReached(s, n));
    var t := PublishSplit(s, c, n);
    var pending, reached := Filter(s.shared, PublishPending(s, n)), Filter(s.shared, PublishReached(s, n));
    assert pending == [] ==> pending + reached == reached;
    assert Held(t.calls[c]) == pending + reached;
    MoveConserves(s, t, c);
  }

  lemma AddSplitConserves(s: State, c: CallId, w: WaiterId, p: Progress, n: int, resume: seq<WaiterId>)
    requires Conserved(s) && c in s.calls && s.calls[c] == AddExchange(w, p, n, resume)
    ensures Conserved(AddSplit(s, c, w, p, n, resume))
  {
    SplitPartitions(s, AddPending(s, n), AddReached(s, n));
    assert HeldSafely(s, c);
    var pending, reached := Filter(s.shared, AddPending(s, n)), Filter(s.shared, AddReached(s, n));
    FilterDistinct(s.shared, AddPending(s, n));
    FilterDistinct(s.shared, AddReached(s, n));
    DistinctConcat(resume, reached);
    DistinctConcat(pending, resume + reached);
    MoveConserves(s, AddSplit(s, c, w, p, n, resume), c);
  }

  lemma DistinctParts<T>(s: seq<T>, t: seq<T>)
    requires Distinct(s + t)
    ensures Distinct(s) && Distinct(t)
    ensures forall x | x in s :: x !in t
  {
    forall i, j | 0 <= i < j < |s| ensures s[i] != s[j] {
      assert (s + t)[i] == s[i] && (s + t)[j] == s[j];
    }
    forall i, j | 0 <= i < j < |t| ensures t[i] != t[j] {
      assert (s + t)[|s| + i] == t[i] && (s + t)[|s| + j] == t[j];
    }
    forall i, j | 0 <= i < |s| && 0 <= j < |t| ensures s[i] != t[j] {
      assert (s + t)[i] == s[i] && (s + t)[|s| + j] == t[j];
    }
  }

  /** A successful CAS of a private list in front of the shared one. */
  lemma PushConserves(s: State, t: State, c: CallId, requeue: seq<WaiterId>, resume: seq<WaiterId>)
    requires Conserved(s) && c in s.calls && Held(s.calls[c]) == requeue + resume
    requires t.shared == requeue + s.shared && t.waiters == s.waiters
    requires c in t.calls && Held(t.calls[c]) == resume && OthersStand(s, t, c)
    ensures Conserved(t)
  {
    assert HeldSafely(s, c);
    DistinctParts(requeue, resume);
    forall w | w in requeue ensures w !in s.shared {
      assert w in requeue + resume;
    }
    DistinctConcat(requeue, s.shared);
    MoveConserves(s, t, c);
  }

  lemma StayConserves(s: State, t: State, c: CallId)
    requires Conserved(s) && OthersStand(s, t, c)
    requires t.shared == s.shared
    requires forall w :: IsListed(s, w) <==> IsListed(t, w)
    requires c in t.calls && c in s.calls ==> Held(t.calls[c]) == Held(s.calls[c])
    requires c !in t.calls && c in s.calls ==> Held(s.calls[c]) == []
    requires c !in s.calls && c in t.calls ==> Held(t.calls[c]) == []
    ensures Conserved(t)
  {
    if c in s.calls {
      assert HeldSafely(s, c);
    }
    MoveConserves(s, t, c);
  }

  lemma HandOverConserves(s: State, c: CallId, client: Option<WaiterId>, n: int, resume: seq<WaiterId>)
    requires Conserved(s) && c in s.calls && s.calls[c] == Resuming(client, n, resume, true)
    requires resume != [] && resume[0] in s.waiters
    ensures Conserved(HandOver(s, c, client, n, resume))
  {
    assert HeldSafely(s, c);
    assert resume == [resume[0]] + resume[1..];
    DistinctParts([resume[0]], resume[1..]);
    assert resume[0] in Held(s.calls[c]);
    MoveConserves(s, HandOver(s, c, client, n, resume), c);
  }

  lemma PushStepsConserve(s: State, c: CallId, spurious: bool)
    requires Conserved(s) && c in s.calls
    requires s.calls[c].PublishCas? || s.calls[c].AddCas?
    ensures Conserved(ApplyAdvance(s, c, spurious))
  {
    var t := ApplyAdvance(s, c, spurious);
    var requeue, resume := s.calls[c].requeue, s.calls[c].resume;
    if !spurious && Head(s.shared) == s.calls[c].expected {
      PushConserves(s, t, c, requeue, resume);
    } else {
      StayConserves(s, t, c);
    }
  }

  lemma ResumeConserves(s: State, c: CallId, spurious: bool)
    requires Conserved(s) && c in s.calls && s.calls[c].Resuming?
    ensures Conserved(ApplyAdvance(s, c, spurious))
  {
    var Resuming(client, n, resume, written) := s.calls[c];
    if written && resume != [] && resume[0] in s.waiters {
      HandOverConserves(s, c, client, n, resume);
    } else {
      StayConserves(s, ApplyAdvance(s, c, spurious), c);
    }
  }

  lemma OtherStepsConserve(s: State, c: CallId, spurious: bool)
    requires Conserved(s) && c in s.calls
    requires match s.calls[c]
             case PublishLoad(_) => true
             case PublishExchange(_) => s.shared == []
             case AddLoad(_, _, _, _) => true
             case AddCheck(_, _, _) => true
             case Asking(_) => true
             case _ => false
    ensures Conserved(ApplyAdvance(s, c, spurious))
  {
    StayConserves(s, ApplyAdvance(s, c, spurious), c);
  }

  lemma AwaitConserves(s: State, w: WaiterId, c: CallId, target: int)
    requires Conserved(s) && w !in s.waiters && c !in s.calls
    ensures Conserved(ApplyAwait(s, w, c, target))
  {
    MoveConserves(s, ApplyAwait(s, w, c, target), c);
  }

  lemma KeepConserved(s: State, a: Action)
    requires Inv(s) && Enabled(s, a)
    ensures Conserved(Apply(s, a))
  {
    match a
    case Publish(c, _) => StayConserves(s, Apply(s, a), c);
    case Await(w, c, target) => AwaitConserves(s, w, c, target);
    case Advance(c, spurious) =>
      var call := s.calls[c];
      if call.PublishExchange? && s.shared != [] {
        PublishSplitConserves(s, c, call.number);
      } else if call.PublishCas? || call.AddCas? {
        PushStepsConserve(s, c, spurious);
      } else if call.AddExchange? {
        AddSplitConserves(s, c, call.owner, call.p, call.number, call.resume);
      } else if call.Resuming? {
        ResumeConserves(s, c, spurious);
      } else {
        OtherStepsConserve(s, c, spurious);
      }
  }

  // ---------------------------------------------------------------- the handshake

  /** Call `c` keeps its owner, gains one that nobody owned, or stops owning one that has asked. */
  lemma OwnersKept(s: State, t: State, c: CallId)
    requires Handshakes(s) && OthersStand(s, t, c)
    requires forall w | w in t.waiters :: Handshake(t.waiters[w])
    requires c in t.calls ==> OwnedSafely(t, c)
    requires forall w | w in s.waiters ::
               w in t.waiters && t.waiters[w].ready == s.waiters[w].ready
               && (t.waiters[w].asked == s.waiters[w].asked || Owns(s, c, w))
    requires forall w | w in s.waiters && Owns(s, c, w) :: Owns(t, c, w) || t.waiters[w].asked
    requires forall w | w in t.waiters && w !in s.waiters :: t.waiters[w].ready || Owns(t, c, w)
    ensures Handshakes(t)
  {
    forall w | w in t.waiters && !t.waiters[w].ready && !t.waiters[w].asked ensures exists d :: Owns(t, d, w) {
      if w in s.waiters {
        if s.waiters[w].asked {
          assert Owns(s, c, w);
        } else {
          var d :| Owns(s, d, w);
          assert d == c || Owns(t, d, w);
        }
      } else {
        assert Owns(t, c, w);
      }
    }
    assert c in s.calls ==> OwnedSafely(s, c);
    forall d | d in t.calls && d != c ensures OwnedSafely(t, d) {
      assert OwnedSafely(s, d);
      var owner := Owner(t.calls[d]);
      assert owner.Some? ==> !Owns(s, c, owner.value) && !Owns(t, c, owner.value);
    }
  }

  lemma OwnerStays(s: State, t: State, c: CallId)
    requires Handshakes(s) && OthersStand(s, t, c) && t.waiters == s.waiters && c in s.calls
    requires if c in t.calls then Owner(t.calls[c]) == Owner(s.calls[c]) else Owner(s.calls[c]) == None
    ensures Handshakes(t)
  {
    assert OwnedSafely(s, c);
    OwnersKept(s, t, c);
  }

  /** A step on one waiter, which keeps the owner of the call. */
  lemma WaiterHandshakes(s: State, t: State, c: CallId, w: WaiterId)
    requires Handshakes(s) && c in s.calls && w in s.waiters && OthersStand(s, t, c)
    requires c in t.calls && Owner(t.calls[c]) == Owner(s.calls[c])
    requires w in t.waiters && t.waiters == s.waiters[w := t.waiters[w]] && Handshake(t.waiters[w])
    requires t.waiters[w].ready == s.waiters[w].ready && t.waiters[w].asked == s.waiters[w].asked
    ensures Handshakes(t)
  {
    assert OwnedSafely(s, c);
    OwnersKept(s, t, c);
  }

  lemma ResumeHandshakes(s: State, c: CallId, spurious: bool)
    requires Handshakes(s) && Conserved(s) && c in s.calls && s.calls[c].Resuming?
    ensures Handshakes(ApplyAdvance(s, c, spurious))
  {
    var Resuming(client, n, resume, written) := s.calls[c];
    assert OwnedSafely(s, c) && HeldSafely(s, c);
    if resume == [] {
      OwnerStays(s, ApplyAdvance(s, c, spurious), c);
    } else {
      assert resume[0] in Held(s.calls[c]);
      WaiterHandshakes(s, ApplyAdvance(s, c, spurious), c, resume[0]);
    }
  }

  lemma AskHandshakes(s: State, c: CallId, w: WaiterId)
    requires Handshakes(s) && c in s.calls && s.calls[c] == Asking(w)
    ensures w in s.waiters && Handshakes(Ask(s, c, w))
  {
    assert OwnedSafely(s, c);
    OwnersKept(s, Ask(s, c, w), c);
  }

  lemma AwaitHandshakes(s: State, w: WaiterId, c: CallId, target: int)
    requires Handshakes(s) && w !in s.waiters && c !in s.calls
    ensures Handshakes(ApplyAwait(s, w, c, target))
  {
    var t := ApplyAwait(s, w, c, target);
    if c in t.calls {
      forall d | d in t.calls && d != c ensures Owner(t.calls[d]) != Some(w) {
        assert OwnedSafely(s, d);
      }
      assert OwnedSafely(t, c);
    }
    OwnersKept(s, t, c);
  }

  lemma OtherStepsHandshake(s: State, c: CallId, spurious: bool)
    requires Handshakes(s) && c in s.calls && !s.calls[c].Resuming? && !s.calls[c].Asking?
    ensures Handshakes(ApplyAdvance(s, c, spurious))
  {
    AdvanceMovesOneCall(s, c, spurious);
    OwnerStays(s, ApplyAdvance(s, c, spurious), c);
  }

  lemma KeepHandshakes(s: State, a: Action)
    requires Inv(s) && Enabled(s, a)
    ensures Handshakes(Apply(s, a))
  {
    match a
    case Publish(c, _) => OwnersKept(s, Apply(s, a), c);
    case Await(w, c, target) => AwaitHandshakes(s, w, c, target);
    case Advance(c, spurious) =>
      if s.calls[c].Resuming? {
        ResumeHandshakes(s, c, spurious);
      } else if s.calls[c].Asking? {
        AskHandshakes(s, c, s.calls[c].owner);
      } else {
        OtherStepsHandshake(s, c, spurious);
      }
  }

  // ---------------------------------------------------------------- the window

  lemma WindowShrinks(s: State, t: State)
    requires InWindow(s)
    requires forall n | LiveNumber(t, n) :: LiveNumber(s, n)
    requires forall x | LiveTarget(t, x) :: LiveTarget(s, x)
    ensures InWindow(t)
  {
  }

  /** A private step compares nothing that was not compared before. */
  lemma CallKeepsWindow(s: State, t: State, c: CallId)
    requires InWindow(s) && OthersStand(s, t, c) && c in s.calls && t.published == s.published
    requires forall w | w in t.waiters && t.waiters[w].Listed() :: IsListed(s, w) && s.waiters[w].target == t.waiters[w].target
    requires c in t.calls && CallNumber(t.calls[c]).Some? ==> LiveNumber(s, CallNumber(t.calls[c]).value)
    requires c in t.calls && CallFloor(t.calls[c]).Some? ==> LiveTarget(s, CallFloor(t.calls[c]).value)
    ensures InWindow(t)
  {
    forall n | LiveNumber(t, n) ensures LiveNumber(s, n) {
      if n != Last(t) {
        var d :| d in t.calls && CallNumber(t.calls[d]) == Some(n);
        assert d != c ==> s.calls[d] == t.calls[d];
      }
    }
    forall x | LiveTarget(t, x) ensures LiveTarget(s, x) {
      if w :| w in t.waiters && t.waiters[w].Listed() && t.waiters[w].target == x {
        assert IsListed(s, w);
      } else {
        var d :| d in t.calls && CallFloor(t.calls[d]) == Some(x);
        assert d != c ==> s.calls[d] == t.calls[d];
      }
    }
    WindowShrinks(s, t);
  }

  /** Inside the window `min_diff` leads to the least target of the list. */
  lemma {:induction false} MinDifferenceIsLeast(s: State, list: seq<WaiterId>, n: int)
    requires list != []
    requires forall w | w in list :: w in s.waiters && 0 < s.waiters[w].target - n < HALF
    ensures forall w | w in list :: n + MinDifference(s, list, n) <= s.waiters[w].target
    ensures exists w | w in list :: n + MinDifference(s, list, n) == s.waiters[w].target
  {
    var w := list[0];
    DifferenceExact(s.waiters[w].target, n);
    if list[1..] == [] {
      assert list == [w];
    } else {
      MinDifferenceIsLeast(s, list[1..], n);
      var v :| v in list[1..] && n + MinDifference(s, list[1..], n) == s.waiters[v].target;
      assert v in list;
    }
  }

  /** The words order the targets of the shared list and `n` as their positions. */
  lemma SplitIsOrder(s: State, w: WaiterId, n: int)
    requires InWindow(s) && LiveNumber(s, n) && IsListed(s, w)
    ensures PublishPending(s, n)(w) <==> n < s.waiters[w].target
    ensures PublishReached(s, n)(w) <==> s.waiters[w].target <= n
    ensures AddPending(s, n)(w) <==> n < s.waiters[w].target
    ensures AddReached(s, n)(w) <==> s.waiters[w].target <= n
    ensures -HALF < s.waiters[w].target - n < HALF
  {
    assert LiveTarget(s, s.waiters[w].target);
    PrecedesIsOrder(n, s.waiters[w].target);
    DifferenceExact(s.waiters[w].target, n);
  }

  /** What `add_awaiter` puts back after taking the list for `n` has `floor` as its earliest target. */
  lemma RequeueEarliest(s: State, requeue: seq<WaiterId>, n: int, floor: int)
    requires InWindow(s) && LiveNumber(s, n) && requeue != []
    requires forall w | w in requeue :: IsListed(s, w) && AddPending(s, n)(w)
    requires floor == n + MinDifference(s, requeue, n)
    ensures n < floor && LiveTarget(s, floor)
    ensures forall w | w in requeue :: w in s.waiters && floor <= s.waiters[w].target
    ensures exists w | w in requeue :: w in s.waiters && s.waiters[w].target == floor
    ensures Wrap(Wrap(n) + MinDifference(s, requeue, n)) == Wrap(floor)
  {
    forall w | w in requeue ensures 0 < s.waiters[w].target - n < HALF {
      SplitIsOrder(s, w, n);
    }
    MinDifferenceIsLeast(s, requeue, n);
    var w :| w in requeue && n + MinDifference(s, requeue, n) == s.waiters[w].target;
    assert IsListed(s, w);
    WrapAdd(n, MinDifference(s, requeue, n));
  }

  lemma SplitWindow(s: State, c: CallId, next: Call)
    requires InWindow(s) && c in s.calls
    requires CallNumber(next).None? && (CallFloor(next).Some? ==> LiveTarget(s, CallFloor(next).value))
    ensures InWindow(Become(s.(shared := []), c, next))
  {
    CallKeepsWindow(s, Become(s.(shared := []), c, next), c);
  }

  lemma AddSplitWindow(s: State, c: CallId, w: WaiterId, p: Progress, n: int, resume: seq<WaiterId>)
    requires InWindow(s) && Conserved(s)
    requires c in s.calls && s.calls[c] == AddExchange(w, p, n, resume)
    ensures InWindow(AddSplit(s, c, w, p, n, resume))
  {
    assert CallNumber(s.calls[c]) == Some(n);
    assert LiveNumber(s, n);
    var requeue := Filter(s.shared, AddPending(s, n));
    if requeue != [] {
      RequeueEarliest(s, requeue, n, n + MinDifference(s, requeue, n));
    }
    SplitWindow(s, c, AfterAddSplit(s, w, p, n, resume));
  }

  lemma AdvanceKeepsNumbers(s: State, c: CallId, spurious: bool)
    requires c in s.calls && !s.calls[c].AddExchange?
    ensures var t := ApplyAdvance(s, c, spurious);
            c in t.calls ==>
              && (CallFloor(t.calls[c]) == CallFloor(s.calls[c]) || CallFloor(t.calls[c]).None?)
              && (CallNumber(t.calls[c]) == CallNumber(s.calls[c]) || CallNumber(t.calls[c]) in {None, Some(Last(s))})
  {
  }

  lemma MostStepsKeepWaiters(s: State, c: CallId, spurious: bool)
    requires c in s.calls
    ensures !s.calls[c].Resuming? && !s.calls[c].Asking? ==> ApplyAdvance(s, c, spurious).waiters == s.waiters
  {
  }

  /** The same waiters with the same targets, and none newly listed. */
  ghost predicate ListsLess(s: State, t: State) {
    && s.waiters.Keys == t.waiters.Keys
    && (forall w | w in t.waiters :: s.waiters[w].target == t.waiters[w].target)
    && (forall w | w in t.waiters && t.waiters[w].Listed() :: IsListed(s, w))
  }

  lemma ResumingListsLess(s: State, c: CallId, spurious: bool)
    requires c in s.calls && (s.calls[c].Resuming? || s.calls[c].Asking?)
    ensures ListsLess(s, ApplyAdvance(s, c, spurious))
  {
  }

  lemma AdvanceListsLess(s: State, c: CallId, spurious: bool)
    requires c in s.calls
    ensures ApplyAdvance(s, c, spurious).published == s.published && ListsLess(s, ApplyAdvance(s, c, spurious))
  {
    NothingPublished(s, c, spurious);
    MostStepsKeepWaiters(s, c, spurious);
    if s.calls[c].Resuming? || s.calls[c].Asking? {
      ResumingListsLess(s, c, spurious);
    }
  }

  lemma OtherStepsWindow(s: State, c: CallId, spurious: bool)
    requires Inv(s) && c in s.calls && !s.calls[c].AddExchange?
    ensures InWindow(ApplyAdvance(s, c, spurious))
  {
    var call := s.calls[c];
    assert CallNumber(call).Some? ==> LiveNumber(s, CallNumber(call).value);
    assert CallFloor(call).Some? ==> LiveTarget(s, CallFloor(call).value);
    AdvanceMovesOneCall(s, c, spurious);
    AdvanceKeepsNumbers(s, c, spurious);
    AdvanceListsLess(s, c, spurious);
    CallKeepsWindow(s, ApplyAdvance(s, c, spurious), c);
  }

  lemma KeepInWindow(s: State, a: Action)
    requires Inv(s) && Enabled(s, a)
    ensures InWindow(Apply(s, a))
  {
    if a.Advance? {
      if s.calls[a.call].AddExchange? {
        var AddExchange(w, p, n, resume) := s.calls[a.call];
        AddSplitWindow(s, a.call, w, p, n, resume);
      } else {
        OtherStepsWindow(s, a.call, a.spurious);
      }
    }
  }

  // ---------------------------------------------------------------- numbers

  /** `t` knows every waiter of `s` with its target, and has published at least the same numbers. */
  ghost predicate Extends(s: State, t: State) {
    && Monotone(s) && Monotone(t)
    && s.published <= t.published
    && forall w | w in s.waiters :: w in t.waiters && t.waiters[w].target == s.waiters[w].target
  }

  lemma LastGrows(s: State, t: State)
    requires Extends(s, t)
    ensures Last(s) <= Last(t)
    ensures forall n | n in s.published :: n in t.published
  {
    assert t.published[|s.published| - 1] == Last(s);
  }

  lemma EnqueueingCarries(s: State, t: State, p: Progress, requeue: seq<WaiterId>, resume: seq<WaiterId>)
    requires Extends(s, t) && Enqueueing(s, p, requeue, resume)
    ensures Enqueueing(t, p, requeue, resume)
  {
    LastGrows(s, t);
    var w :| w in requeue && w in s.waiters && s.waiters[w].target == p.floor;
    assert w in t.waiters;
  }

  /** The facts about a call survive the steps of the others. */
  lemma NumbersCarry(s: State, t: State, call: Call)
    requires Extends(s, t) && CallNumbers(s, call)
    requires Producing(call) ==> s.published == t.published
    requires forall w | w in Held(call) && w in s.waiters :: s.waiters[w].lastKnown == t.waiters[w].lastKnown
    ensures CallNumbers(t, call)
  {
    LastGrows(s, t);
    match call
    case PublishCas(_, requeue, _, resume) =>
    case AddLoad(_, p, requeue, resume) => EnqueueingCarries(s, t, p, requeue, resume);
    case AddCas(_, p, requeue, _, resume) => EnqueueingCarries(s, t, p, requeue, resume);
    case Resuming(_, n, resume, written) =>
      if written {
        var w := resume[0];
        assert w in Held(call) && w in s.waiters;
        assert w in t.waiters;
        assert s.waiters[w].lastKnown == t.waiters[w].lastKnown;
      }
    case _ =>
  }

  /** A step of call `c` keeps all facts about numbers when it keeps those about `c` and answers soundly. */
  lemma StepNumbers(s: State, t: State, c: CallId)
    requires Extends(s, t) && Numbers(s) && Conserved(s) && OthersStand(s, t, c)
    requires forall d | d in s.calls && d != c && Producing(s.calls[d]) :: s.published == t.published
    requires forall w | w in s.waiters && s.waiters[w].lastKnown != t.waiters[w].lastKnown ::
               c in s.calls && w in Held(s.calls[c])
    requires c in t.calls ==> CallNumbers(t, t.calls[c])
    requires forall w | w in t.waiters && (t.waiters[w].ready || t.waiters[w].handed) ::
               || Answered(t, t.waiters[w])
               || (w in s.waiters && (s.waiters[w].ready || s.waiters[w].handed))
    ensures Numbers(t)
  {
    LastGrows(s, t);
    forall d | d in t.calls && d != c ensures CallNumbers(t, t.calls[d]) {
      assert HeldSafely(s, d);
      NumbersCarry(s, t, s.calls[d]);
    }
    forall w | w in t.waiters && (t.waiters[w].ready || t.waiters[w].handed) ensures Answered(t, t.waiters[w]) {
      if w in s.waiters && (s.waiters[w].ready || s.waiters[w].handed) {
        if c in s.calls {
          assert HeldSafely(s, c);
          assert w !in Held(s.calls[c]);
        }
        assert Answered(s, s.waiters[w]);
      }
    }
  }

  lemma PublishSplitNumbers(s: State, c: CallId, n: int)
    requires Inv(s) && c in s.calls && s.calls[c] == PublishExchange(n)
    ensures Numbers(PublishSplit(s, c, n))
  {
    var t := PublishSplit(s, c, n);
    var requeue, resume := Filter(s.shared, PublishPending(s, n)), Filter(s.shared, PublishReached(s, n));
    assert CallNumbers(s, s.calls[c]) && LiveNumber(s, n);
    forall w | w in requeue ensures w in s.waiters && s.waiters[w].target > n {
      SplitIsOrder(s, w, n);
    }
    forall w | w in resume ensures w in s.waiters && s.waiters[w].target <= n {
      SplitIsOrder(s, w, n);
    }
    StepNumbers(s, t, c);
  }

  lemma AddSplitReached(s: State, n: int)
    requires InWindow(s) && Conserved(s) && LiveNumber(s, n)
    ensures Reached(s, Filter(s.shared, AddReached(s, n)), n)
  {
    forall v | v in Filter(s.shared, AddReached(s, n)) ensures v in s.waiters && s.waiters[v].target <= n {
      SplitIsOrder(s, v, n);
    }
  }

  lemma AddSplitEnqueues(s: State, p: Progress, n: int, requeue: seq<WaiterId>, reached: seq<WaiterId>, next: Progress)
    requires InWindow(s) && LiveNumber(s, n) && requeue != []
    requires forall w | w in requeue :: IsListed(s, w) && AddPending(s, n)(w)
    requires CallNumbers(s, AddExchange(0, p, n, [])) && Reached(s, reached, Last(s))
    requires next.floor == n + MinDifference(s, requeue, n)
    requires next == p.(earliest := Wrap(Wrap(n) + MinDifference(s, requeue, n)), floor := next.floor)
    ensures Between(s, next) && Enqueueing(s, next, requeue, reached)
  {
    RequeueEarliest(s, requeue, n, next.floor);
  }

  lemma AddSplitCall(s: State, w: WaiterId, p: Progress, n: int, resume: seq<WaiterId>)
    requires InWindow(s) && Conserved(s) && LiveNumber(s, n) && CallNumbers(s, AddExchange(w, p, n, resume))
    ensures CallNumbers(s, AfterAddSplit(s, w, p, n, resume))
  {
    AddSplitReached(s, n);
    var requeue, reached := Filter(s.shared, AddPending(s, n)), resume + Filter(s.shared, AddReached(s, n));
    assert Reached(s, reached, n);
    if requeue != [] {
      var next := AfterAddSplit(s, w, p, n, resume).p;
      AddSplitEnqueues(s, p, n, requeue, reached, next);
    }
  }

  lemma AddSplitNumbers(s: State, c: CallId, w: WaiterId, p: Progress, n: int, resume: seq<WaiterId>)
    requires Inv(s) && c in s.calls && s.calls[c] == AddExchange(w, p, n, resume)
    ensures Numbers(AddSplit(s, c, w, p, n, resume))
  {
    assert CallNumbers(s, s.calls[c]) && CallNumber(s.calls[c]) == Some(n);
    AddSplitCall(s, w, p, n, resume);
    var t := AddSplit(s, c, w, p, n, resume);
    NumbersCarry(s, t, t.calls[c]);
    StepNumbers(s, t, c);
  }

  lemma PassBegins(s: State, p: Progress)
    requires Between(s, p)
    ensures Bounded(s, BeginPass(s, p))
  {
  }

  /** A step on one call that leaves numbers and waiters alone. */
  lemma PushCall(s: State, t: State, c: CallId)
    requires Inv(s) && c in s.calls && t.published == s.published && t.waiters == s.waiters && OthersStand(s, t, c)
    requires c in t.calls && CallNumbers(s, t.calls[c])
    ensures Numbers(t)
  {
    NumbersCarry(s, t, t.calls[c]);
    StepNumbers(s, t, c);
  }

  lemma LoadNumbers(s: State, c: CallId, w: WaiterId, p: Progress, requeue: seq<WaiterId>, resume: seq<WaiterId>)
    requires Inv(s) && c in s.calls && s.calls[c] == AddLoad(w, p, requeue, resume)
    ensures Numbers(Become(s, c, AddCas(w, BeginPass(s, p), requeue, Head(s.shared), resume)))
  {
    assert CallNumbers(s, s.calls[c]);
    PassBegins(s, p);
    PushCall(s, Become(s, c, AddCas(w, BeginPass(s, p), requeue, Head(s.shared), resume)), c);
  }

  lemma AddPushCall(s: State, w: WaiterId, p: Progress, requeue: seq<WaiterId>, expected: Option<WaiterId>,
                    observed: Option<WaiterId>, resume: seq<WaiterId>)
    requires CallNumbers(s, AddCas(w, p, requeue, expected, resume))
    ensures CallNumbers(s, AddCas(w, p, requeue, observed, resume)) && CallNumbers(s, AddCheck(w, p, resume))
  {
  }

  lemma AddPushNumbers(s: State, c: CallId, w: WaiterId, p: Progress, requeue: seq<WaiterId>, expected: Option<WaiterId>,
                       resume: seq<WaiterId>, spurious: bool)
    requires Inv(s) && c in s.calls && s.calls[c] == AddCas(w, p, requeue, expected, resume)
    ensures Numbers(AddPush(s, c, w, p, requeue, expected, resume, spurious))
  {
    assert CallNumbers(s, s.calls[c]);
    var t := AddPush(s, c, w, p, requeue, expected, resume, spurious);
    AddPushCall(s, w, p, requeue, expected, Head(s.shared), resume);
    PushCall(s, t, c);
  }

  lemma PublishPushNumbers(s: State, c: CallId, n: int, requeue: seq<WaiterId>, expected: Option<WaiterId>,
                           resume: seq<WaiterId>, spurious: bool)
    requires Inv(s) && c in s.calls && s.calls[c] == PublishCas(n, requeue, expected, resume)
    ensures Numbers(PublishPush(s, c, n, requeue, expected, resume, spurious))
  {
    assert CallNumbers(s, s.calls[c]);
    var t := PublishPush(s, c, n, requeue, expected, resume, spurious);
    assert CallNumbers(s, t.calls[c]);
    PushCall(s, t, c);
  }

  lemma PushNumbers(s: State, c: CallId, spurious: bool)
    requires Inv(s) && c in s.calls && (s.calls[c].PublishCas? || s.calls[c].AddCas? || s.calls[c].AddLoad?)
    ensures Numbers(ApplyAdvance(s, c, spurious))
  {
    match s.calls[c]
    case AddLoad(w, p, requeue, resume) => LoadNumbers(s, c, w, p, requeue, resume);
    case AddCas(w, p, requeue, expected, resume) => AddPushNumbers(s, c, w, p, requeue, expected, resume, spurious);
    case PublishCas(n, requeue, expected, resume) => PublishPushNumbers(s, c, n, requeue, expected, resume, spurious);
  }

  /** The recheck of `add_awaiter` compares positions. */
  lemma CheckIsOrder(s: State, c: CallId)
    requires InWindow(s) && c in s.calls && s.calls[c].AddCheck? && CallNumbers(s, s.calls[c])
    ensures Precedes(Wrap(Last(s)), s.calls[c].p.earliest) <==> Last(s) < s.calls[c].p.floor
  {
    var floor := s.calls[c].p.floor;
    assert CallFloor(s.calls[c]) == Some(floor);
    assert LiveTarget(s, floor) && LiveNumber(s, Last(s));
    PrecedesIsOrder(Last(s), floor);
  }

  lemma CheckCall(s: State, c: CallId, w: WaiterId, p: Progress, resume: seq<WaiterId>)
    requires Monotone(s) && InWindow(s) && c in s.calls && s.calls[c] == AddCheck(w, p, resume) && CallNumbers(s, s.calls[c])
    ensures CallNumbers(s, Check(s, c, w, p, resume).calls[c])
  {
    CheckIsOrder(s, c);
  }

  lemma CheckNumbers(s: State, c: CallId, w: WaiterId, p: Progress, resume: seq<WaiterId>)
    requires Inv(s) && c in s.calls && s.calls[c] == AddCheck(w, p, resume)
    ensures Numbers(Check(s, c, w, p, resume))
  {
    assert CallNumbers(s, s.calls[c]);
    CheckCall(s, c, w, p, resume);
    var t := Check(s, c, w, p, resume);
    NumbersCarry(s, t, t.calls[c]);
    StepNumbers(s, t, c);
  }

  lemma ResumeNumbers(s: State, c: CallId, client: Option<WaiterId>, n: int, resume: seq<WaiterId>, written: bool)
    requires Inv(s) && c in s.calls && s.calls[c] == Resuming(client, n, resume, written)
    ensures Numbers(Resume(s, c, client, n, resume, written))
  {
    assert CallNumbers(s, s.calls[c]);
    StepNumbers(s, Resume(s, c, client, n, resume, written), c);
  }

  lemma OtherStepsNumbers(s: State, c: CallId, spurious: bool)
    requires Inv(s) && c in s.calls && (s.calls[c].PublishLoad? || s.calls[c].Asking?)
    ensures Numbers(ApplyAdvance(s, c, spurious))
  {
    assert CallNumbers(s, s.calls[c]);
    StepNumbers(s, ApplyAdvance(s, c, spurious), c);
  }

  lemma EnvironmentNumbers(s: State, a: Action)
    requires Inv(s) && Enabled(s, a) && !a.Advance?
    ensures Numbers(Apply(s, a))
  {
    if a.Await? {
      PrecedesIsOrder(Last(s), a.target);
      assert a.waiter in [a.waiter];
    }
    StepNumbers(s, Apply(s, a), a.call);
  }

  lemma KeepNumbers(s: State, a: Action)
    requires Inv(s) && Enabled(s, a)
    ensures Numbers(Apply(s, a))
  {
    if !a.Advance? {
      EnvironmentNumbers(s, a);
      return;
    }
    var c := a.call;
    match s.calls[c]
    case PublishExchange(n) =>
      if s.shared != [] {
        PublishSplitNumbers(s, c, n);
      } else {
        StepNumbers(s, Finish(s, c), c);
      }
    case AddExchange(w, p, n, resume) => AddSplitNumbers(s, c, w, p, n, resume);
    case AddCheck(w, p, resume) => CheckNumbers(s, c, w, p, resume);
    case Resuming(client, n, resume, written) => ResumeNumbers(s, c, client, n, resume, written);
    case PublishLoad(_) => OtherStepsNumbers(s, c, a.spurious);
    case Asking(_) => OtherStepsNumbers(s, c, a.spurious);
    case _ => PushNumbers(s, c, a.spurious);
  }

  // ---------------------------------------------------------------- wakeups

  /** A step of call `c` leaves every overdue waiter guarded if `c` itself neither lists nor abandons one. */
  lemma StepGuarded(s: State, t: State, c: CallId)
    requires t.published == s.published
    requires Guarded(s) && Conserved(s) && OthersStand(s, t, c)
    requires forall w | w in s.waiters :: w in t.waiters && t.waiters[w].target == s.waiters[w].target
    requires forall w | w in t.shared && w !in s.shared && w in t.waiters ::
               || Last(t) < t.waiters[w].target
               || (c in t.calls && Guards(t.calls[c], t.waiters[w].target))
    requires forall w | w in t.shared && w in s.shared && c in s.calls && Guards(s.calls[c], s.waiters[w].target) ::
               || Last(t) < t.waiters[w].target
               || (c in t.calls && Guards(t.calls[c], t.waiters[w].target))
    ensures Guarded(t)
  {
    forall w | w in t.shared && w in t.waiters && Last(t) >= t.waiters[w].target
      ensures exists d | d in t.calls :: Guards(t.calls[d], t.waiters[w].target)
    {
      if w in s.shared {
        var d :| d in s.calls && Guards(s.calls[d], s.waiters[w].target);
        assert d != c ==> d in t.calls && Guards(t.calls[d], t.waiters[w].target);
      }
    }
  }

  lemma LeavingGuarded(s: State, c: CallId, next: Call)
    requires Guarded(s) && Conserved(s) && c in s.calls && s.calls[c].AddCheck? && Last(s) < s.calls[c].p.floor
    ensures Guarded(Become(s, c, next))
  {
    StepGuarded(s, Become(s, c, next), c);
  }

  lemma LookingAgainGuarded(s: State, c: CallId, next: Call)
    requires Guarded(s) && Conserved(s) && c in s.calls && next.AddExchange?
    ensures Guarded(Become(s, c, next))
  {
    StepGuarded(s, Become(s, c, next), c);
  }

  lemma CheckGuarded(s: State, c: CallId, w: WaiterId, p: Progress, resume: seq<WaiterId>)
    requires Inv(s) && c in s.calls && s.calls[c] == AddCheck(w, p, resume)
    ensures Guarded(Check(s, c, w, p, resume))
  {
    assert CallNumbers(s, s.calls[c]);
    CheckIsOrder(s, c);
    if Last(s) < p.floor {
      LeavingGuarded(s, c, Resuming(Some(w), Last(s), resume, false));
    } else {
      LookingAgainGuarded(s, c, AddExchange(w, p.(seen := |s.published|), Last(s), resume));
    }
  }

  lemma PushGuarded(s: State, c: CallId, spurious: bool)
    requires Inv(s) && c in s.calls && (s.calls[c].PublishCas? || s.calls[c].AddCas?)
    ensures Guarded(ApplyAdvance(s, c, spurious))
  {
    assert CallNumbers(s, s.calls[c]);
    StepGuarded(s, ApplyAdvance(s, c, spurious), c);
  }

  lemma OtherStepsLeaveList(s: State, c: CallId, spurious: bool)
    requires c in s.calls
    requires !s.calls[c].PublishCas? && !s.calls[c].AddCas? && !s.calls[c].AddCheck?
    ensures var t := ApplyAdvance(s, c, spurious);
            && t.shared in {s.shared, []}
            && (t.shared != [] && (s.calls[c].PublishLoad? || s.calls[c].PublishExchange? || s.calls[c].AddExchange?) ==>
                  c in t.calls && t.calls[c].PublishExchange?)
  {
  }

  lemma OtherStepsGuarded(s: State, c: CallId, spurious: bool)
    requires Inv(s) && c in s.calls && !s.calls[c].PublishCas? && !s.calls[c].AddCas? && !s.calls[c].AddCheck?
    ensures Guarded(ApplyAdvance(s, c, spurious))
  {
    AdvanceMovesOneCall(s, c, spurious);
    AdvanceListsLess(s, c, spurious);
    OtherStepsLeaveList(s, c, spurious);
    StepGuarded(s, ApplyAdvance(s, c, spurious), c);
  }

  lemma KeepGuarded(s: State, a: Action)
    requires Inv(s) && Enabled(s, a)
    ensures Guarded(Apply(s, a))
  {
    match a
    case Publish(c, n) =>
      assert Apply(s, a).calls[c] == PublishLoad(n);
      assert forall x :: Guards(Apply(s, a).calls[c], x);
    case Await(w, c, target) => StepGuarded(s, Apply(s, a), c);
    case Advance(c, spurious) =>
      if s.calls[c].AddCheck? {
        CheckGuarded(s, c, s.calls[c].owner, s.calls[c].p, s.calls[c].resume);
      } else if s.calls[c].PublishCas? || s.calls[c].AddCas? {
        PushGuarded(s, c, spurious);
      } else {
        OtherStepsGuarded(s, c, spurious);
      }
  }

  // ---------------------------------------------------------------- every run

  lemma KeepInv(s: State, a: Action)
    requires Inv(s) && Enabled(s, a)
    ensures Inv(Apply(s, a))
  {
    KeepMonotone(s, a);
    KeepSingleProducer(s, a);
    KeepConserved(s, a);
    KeepHandshakes(s, a);
    KeepNumbers(s, a);
    KeepGuarded(s, a);
    KeepInWindow(s, a);
  }

  lemma {:induction false} RunKeepsInv(s: State, actions: seq<Action>, t: State)
    requires Inv(s) && Leads(s, actions, t)
    ensures Inv(t)
    decreases |actions|
  {
    if actions == [] {
    } else {
      KeepInv(s, actions[0]);
      RunKeepsInv(Apply(s, actions[0]), actions[1..], t);
    }
  }

  lemma InitialInv(first: int)
    ensures Inv(Initial(first))
  {
  }

  lemma EveryReachableState(first: int, actions: seq<Action>, s: State)
    requires Reaches(first, actions, s)
    ensures Inv(s)
  {
    InitialInv(first);
    RunKeepsInv(Initial(first), actions, s);
  }
}

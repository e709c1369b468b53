/** What each pointer operation leaves the pointers pointing to, and that every release comes to its end. */
module RefCountCalls {
  import opened Lists
  import opened Counting
  import opened RefCountProtocol
  import opened RefCountTheorems

  /** The pointer `p` points to `o`, or is null. */
  ghost predicate PointsTo(s: State, p: HolderId, o: Option<ObjectId>) { p in s.holders && s.holders[p] == Pointer(o) }

  /** Only the named holders change. */
  ghost predicate OnlyThese(s: State, t: State, names: set<HolderId>) {
    forall h | h !in names :: (h in s.holders <==> h in t.holders) && (h in s.holders ==> s.holders[h] == t.holders[h])
  }

  /** Giving up a reference to `o` is in the hands of `r`; there is nothing to give up for null. */
  ghost predicate Releases(s: State, t: State, o: Option<ObjectId>, r: HolderId) {
    match o
    case None => r in s.holders <==> r in t.holders
    case Some(x) => r in t.holders && t.holders[r] == Checking(x)
  }

  // ---------------------------------------------------------------- making pointers

  /** A new object exists, and nobody owns it. */
  lemma NewIsUnowned(s: State, o: ObjectId)
    requires Enabled(s, New(o))
    ensures var t := Apply(s, New(o));
            && t.counts.Keys == s.counts.Keys + {o} && t.counts[o] == 0 && t.unowned == s.unowned + {o}
            && t.holders == s.holders && forall x | x in s.counts :: t.counts[x] == s.counts[x]
  {
  }

  lemma ConstructPoints(s: State, p: HolderId, o: ObjectId)
    requires Enabled(s, Construct(p, o))
    ensures var t := Apply(s, Construct(p, o)); PointsTo(t, p, Some(o)) && o !in t.unowned && OnlyThese(s, t, {p})
  {
  }

  lemma DefaultPoints(s: State, p: HolderId)
    requires Enabled(s, Default(p))
    ensures var t := Apply(s, Default(p)); PointsTo(t, p, None) && t.counts == s.counts && OnlyThese(s, t, {p})
  {
  }

  /** A copy points where the original does, which stays as it is. */
  lemma CopyPoints(s: State, p: HolderId, from: HolderId)
    requires Enabled(s, Copy(p, from))
    ensures var t := Apply(s, Copy(p, from));
            PointsTo(t, p, s.holders[from].to) && PointsTo(t, from, s.holders[from].to) && OnlyThese(s, t, {p})
  {
  }

  /** Moving takes the reference over, and the source is null. */
  lemma MovePoints(s: State, p: HolderId, from: HolderId)
    requires Enabled(s, Move(p, from))
    ensures var t := Apply(s, Move(p, from));
            PointsTo(t, p, s.holders[from].to) && PointsTo(t, from, None) && t.counts == s.counts && OnlyThese(s, t, {p, from})
  {
  }

  /** Swapping exchanges, and swapping back undoes it. */
  lemma SwapPoints(s: State, p: HolderId, q: HolderId)
    requires Enabled(s, Swap(p, q))
    ensures var t := Apply(s, Swap(p, q));
            && PointsTo(t, p, s.holders[q].to) && PointsTo(t, q, s.holders[p].to)
            && t.counts == s.counts && OnlyThese(s, t, {p, q})
            && Enabled(t, Swap(p, q)) && Apply(t, Swap(p, q)) == s
  {
    var t := Apply(s, Swap(p, q));
    assert Apply(t, Swap(p, q)).holders == s.holders;
  }

  /** A raw pointer given out by `detach` and taken back is the same reference, in another pointer. */
  lemma DetachThenAttach(s: State, p: HolderId, raw: HolderId, q: HolderId)
    requires Enabled(s, Detach(p, raw)) && q !in s.holders && q != raw && |s.holders| < SIZE_RANGE - 3
    ensures var t := Apply(s, Detach(p, raw));
            && PointsTo(t, p, None) && raw in t.holders && t.holders[raw] == Raw(s.holders[p].to.value)
            && t.counts == s.counts && OnlyThese(s, t, {p, raw})
            && Enabled(t, Attach(q, raw))
            && var u := Apply(t, Attach(q, raw));
            && PointsTo(u, p, None) && PointsTo(u, q, s.holders[p].to) && raw !in u.holders
            && u.counts == s.counts && OnlyThese(s, u, {p, q, raw})
  {
    var t := Apply(s, Detach(p, raw));
    PutSize(s.holders, raw, Raw(s.holders[p].to.value));
    PutSize(Put(s, raw, Raw(s.holders[p].to.value)).holders, p, Pointer(None));
  }

  // ---------------------------------------------------------------- giving references up

  lemma ResetPoints(s: State, p: HolderId, r: HolderId)
    requires Enabled(s, Reset(p, r))
    ensures var t := Apply(s, Reset(p, r));
            PointsTo(t, p, None) && Releases(s, t, s.holders[p].to, r) && OnlyThese(s, t, {p, r})
  {
  }

  /** Assignment: both point where the source did, also when they are the same pointer; the old reference is given up. */
  lemma ResetToPoints(s: State, p: HolderId, from: HolderId, r: HolderId)
    requires Enabled(s, ResetTo(p, from, r))
    ensures var t := Apply(s, ResetTo(p, from, r));
            && PointsTo(t, p, s.holders[from].to) && PointsTo(t, from, s.holders[from].to)
            && Releases(s, t, s.holders[p].to, r) && OnlyThese(s, t, {p, r})
  {
  }

  lemma ResetFreshPoints(s: State, p: HolderId, o: ObjectId, r: HolderId)
    requires Enabled(s, ResetFresh(p, o, r))
    ensures var t := Apply(s, ResetFresh(p, o, r));
            PointsTo(t, p, Some(o)) && o !in t.unowned && Releases(s, t, s.holders[p].to, r) && OnlyThese(s, t, {p, r})
  {
  }

  lemma ResetRawPoints(s: State, p: HolderId, raw: HolderId, r: HolderId)
    requires Enabled(s, ResetRaw(p, raw, r))
    ensures var t := Apply(s, ResetRaw(p, raw, r));
            && PointsTo(t, p, Some(s.holders[raw].target)) && raw !in t.holders
            && Releases(s, t, s.holders[p].to, r) && OnlyThese(s, t, {p, raw, r})
  {
  }

  /** Move assignment: the reference is taken over and the source is null, but nothing happens to a pointer moved to itself. */
  lemma AssignMovePoints(s: State, p: HolderId, from: HolderId, r: HolderId)
    requires Enabled(s, AssignMove(p, from, r))
    ensures var t := Apply(s, AssignMove(p, from, r));
            && PointsTo(t, p, s.holders[from].to) && OnlyThese(s, t, {p, from, r})
            && (p == from ==> t == s)
            && (p != from ==> PointsTo(t, from, None) && Releases(s, t, s.holders[p].to, r))
  {
  }

  lemma DestroyPoints(s: State, p: HolderId, r: HolderId)
    requires Enabled(s, Destroy(p, r))
    ensures var t := Apply(s, Destroy(p, r)); p !in t.holders && Releases(s, t, s.holders[p].to, r) && OnlyThese(s, t, {p, r})
  {
  }

  // ---------------------------------------------------------------- releases

  /** The steps of one release. */
  function Goes(r: HolderId, n: nat): seq<Action> { seq(n, i => Advance(r)) }

  lemma OneGoes(s: State, r: HolderId, n: nat, t: State)
    requires Enabled(s, Advance(r)) && Leads(Apply(s, Advance(r)), Goes(r, n), t)
    ensures Leads(s, Goes(r, n + 1), t)
  {
    assert Goes(r, n + 1)[1..] == Goes(r, n);
  }

  /** What a finished release has done to its object, which had `count` references. */
  ghost predicate Released(s: State, t: State, r: HolderId, o: ObjectId, last: bool)
    requires o in s.counts
  {
    && t.holders == s.holders - {r} && t.unowned == s.unowned
    && if last then t.counts == s.counts - {o} && t.deleted == s.deleted + [o]
       else o in t.counts && t.counts[o] + 1 == s.counts[o] && t.counts - {o} == s.counts - {o} && t.deleted == s.deleted
  }

  lemma Counted(s: State, r: HolderId)
    requires Inv(s) && r in s.holders && (s.holders[r].Checking? || s.holders[r].Decrementing?)
    ensures s.holders[r].target in s.counts && 1 <= s.counts[s.holders[r].target] < SIZE_RANGE
  {
    var o := s.holders[r].target;
    HolderAlive(s, r);
    assert ObjectSafe(s, o);
    TotalBounded(s.holders, Owns(o));
  }

  lemma DeletingEnds(s: State, r: HolderId) returns (t: State)
    requires r in s.holders && s.holders[r].Deleting? && s.holders[r].target in s.counts
    ensures Leads(s, Goes(r, 1), t) && Released(s, t, r, s.holders[r].target, true)
  {
    t := Apply(s, Advance(r));
    OneGoes(s, r, 0, t);
  }

  lemma DecrementingEnds(s: State, r: HolderId) returns (n: nat, t: State)
    requires r in s.holders && s.holders[r].Decrementing? && s.holders[r].target in s.counts
    requires 1 <= s.counts[s.holders[r].target] < SIZE_RANGE
    ensures n <= 2 && Leads(s, Goes(r, n), t)
    ensures Released(s, t, r, s.holders[r].target, s.counts[s.holders[r].target] == 1)
  {
    var u := Apply(s, Advance(r));
    if s.counts[s.holders[r].target] == 1 {
      n := 2;
      t := DeletingEnds(u, r);
      OneGoes(s, r, 1, t);
      assert t.holders == s.holders - {r} && t.counts == s.counts - {s.holders[r].target};
    } else {
      n, t := 1, u;
      OneGoes(s, r, 0, t);
    }
  }

  lemma CheckingEnds(s: State, r: HolderId)
    requires r in s.holders && s.holders[r].Checking? && s.holders[r].target in s.counts
    requires 1 <= s.counts[s.holders[r].target] < SIZE_RANGE
    ensures Enabled(s, Advance(r)) && Enabled(Apply(s, Advance(r)), Advance(r))
    ensures var t := Apply(Apply(s, Advance(r)), Advance(r));
            Leads(s, Goes(r, 2), t) && Released(s, t, r, s.holders[r].target, s.counts[s.holders[r].target] == 1)
  {
    var u := Apply(s, Advance(r));
    var t := Apply(u, Advance(r));
    OneGoes(u, r, 0, t);
    OneGoes(s, r, 1, t);
    assert t.holders == s.holders - {r};
  }

  /**
    A release that nobody disturbs is over after at most two steps: it deletes the object, when its reference was the
    only one or nobody owns it any more, and otherwise takes one reference away.
   */
  lemma ReleaseCompletes(actions: seq<Action>, s: State, r: HolderId) returns (n: nat, t: State)
    requires Reaches(actions, s) && r in s.holders && !s.holders[r].Pointer? && !s.holders[r].Raw?
    ensures n <= 2 && Leads(s, Goes(r, n), t) && s.holders[r].target in s.counts
    ensures Released(s, t, r, s.holders[r].target, s.holders[r].Deleting? || s.counts[s.holders[r].target] == 1)
  {
    EveryReachableState(actions, s);
    HolderAlive(s, r);
    var o := s.holders[r].target;
    if s.holders[r].Deleting? {
      n := 1;
      t := DeletingEnds(s, r);
    } else {
      Counted(s, r);
      if s.holders[r].Decrementing? {
        n, t := DecrementingEnds(s, r);
      } else {
        CheckingEnds(s, r);
        n, t := 2, Apply(Apply(s, Advance(r)), Advance(r));
      }
    }
  }
}

/** What reference counting promises, over every run. */
module RefCountTheorems {
  import opened Lists
  import opened Counting
  import opened RefCountProtocol

  /** An existing object: new and unowned, owned and counted exactly, or being deleted by one release alone. */
  predicate ObjectOk(count: nat, unowned: bool, owners: nat, deleters: nat) {
    if deleters > 0 then deleters == 1 && owners == 0 && !unowned
    else count == owners && (owners == 0 <==> unowned)
  }

  ghost predicate ObjectSafe(s: State, o: ObjectId)
    requires o in s.counts
  {
    ObjectOk(s.counts[o], o in s.unowned, Owners(s, o), Deleters(s, o))
  }

  ghost predicate Absent(s: State, o: ObjectId) { Owners(s, o) == Deleters(s, o) == 0 }

  ghost predicate Inv(s: State) {
    && |s.holders| < SIZE_RANGE
    && (forall o {:trigger ObjectSafe(s, o)} | o in s.counts :: ObjectSafe(s, o))
    && (forall o | o in s.unowned :: o in s.counts)
    && (forall o | o in s.deleted :: o !in s.counts)
    && Distinct(s.deleted)
    && (forall o: ObjectId {:trigger Absent(s, o)} | o !in s.counts :: Absent(s, o))
  }

  /** How the owners of every object change when one entry is put. */
  lemma PutChanges(s: State, p: HolderId, h: Holder, o: ObjectId)
    ensures Owners(Put(s, p, h), o) == Owners(s, o) - One(s.holders, p, Owns(o)) + if Owned(h) == Some(o) then 1 else 0
    ensures Deleters(Put(s, p, h), o) == Deleters(s, o) - One(s.holders, p, Deletes(o)) + if h == Deleting(o) then 1 else 0
    ensures |Put(s, p, h).holders| == |s.holders| + if p in s.holders then 0 else 1
  {
    PutTotal(s.holders, p, h, Owns(o));
    PutTotal(s.holders, p, h, Deletes(o));
    PutSize(s.holders, p, h);
  }

  lemma DropChanges(s: State, p: HolderId, o: ObjectId)
    ensures Owners(Drop(s, p), o) == Owners(s, o) - One(s.holders, p, Owns(o))
    ensures Deleters(Drop(s, p), o) == Deleters(s, o) - One(s.holders, p, Deletes(o))
    ensures |Drop(s, p).holders| <= |s.holders|
  {
    RemoveTotal(s.holders, p, Owns(o));
    RemoveTotal(s.holders, p, Deletes(o));
    SubsetSize(Drop(s, p).holders.Keys, s.holders.Keys);
  }

  /** A holder owns or deletes only an object that exists. */
  lemma HolderAlive(s: State, p: HolderId)
    requires Inv(s) && p in s.holders
    ensures Owned(s.holders[p]).Some? ==> Owned(s.holders[p]).value in s.counts && Owners(s, Owned(s.holders[p]).value) >= 1
    ensures s.holders[p].Deleting? ==> s.holders[p].target in s.counts && Deleters(s, s.holders[p].target) >= 1
  {
    if Owned(s.holders[p]).Some? {
      TotalBounds(s.holders, p, Owns(Owned(s.holders[p]).value));
      assert !Absent(s, Owned(s.holders[p]).value);
    } else if s.holders[p].Deleting? {
      TotalBounds(s.holders, p, Deletes(s.holders[p].target));
      assert !Absent(s, s.holders[p].target);
    }
  }

  /** The change of owners and deleters of every object, as a whole step makes it. */
  ghost predicate Kept(s: State, t: State, o: ObjectId) {
    Owners(t, o) == Owners(s, o) && Deleters(t, o) == Deleters(s, o)
  }

  /** A step that moves references around without making or losing any. */
  lemma Moved(s: State, t: State)
    requires Inv(s) && t.counts == s.counts && t.unowned == s.unowned && t.deleted == s.deleted && |t.holders| < SIZE_RANGE
    requires forall o: ObjectId :: Kept(s, t, o)
    ensures Inv(t)
  {
    forall o | o in t.counts ensures ObjectSafe(t, o) {
      assert ObjectSafe(s, o) && Kept(s, t, o);
    }
    forall o: ObjectId | o !in t.counts ensures Absent(t, o) {
      assert Absent(s, o) && Kept(s, t, o);
    }
  }

  /** A step that gives the object one owner more, counted. */
  lemma Gained(s: State, t: State, o: ObjectId)
    requires Inv(s) && o in s.counts && Deleters(s, o) == 0
    requires t.counts == s.counts[o := Size(s.counts[o] + 1)] && t.unowned == s.unowned - {o} && t.deleted == s.deleted
    requires |t.holders| < SIZE_RANGE
    requires Owners(t, o) == Owners(s, o) + 1 && Deleters(t, o) == 0
    requires forall other: ObjectId | other != o :: Kept(s, t, other)
    ensures Inv(t)
  {
    assert ObjectSafe(s, o);
    TotalBounded(t.holders, Owns(o));
    forall x | x in t.counts ensures ObjectSafe(t, x) {
      if x != o {
        assert ObjectSafe(s, x) && Kept(s, t, x);
      }
    }
    forall x: ObjectId | x !in t.counts ensures Absent(t, x) {
      assert Absent(s, x) && Kept(s, t, x);
    }
  }

  // ---------------------------------------------------------------- pointers change hands

  lemma MoveKeeps(s: State, p: HolderId, from: HolderId)
    requires Inv(s) && IsPointer(s, from) && (Unused(s, p) || (IsPointer(s, p) && s.holders[p].to == None && p != from))
    ensures Inv(Put(Put(s, p, s.holders[from]), from, Pointer(None)))
  {
    var one := Put(s, p, s.holders[from]);
    var two := Put(one, from, Pointer(None));
    forall o: ObjectId ensures Kept(s, two, o) && |two.holders| < SIZE_RANGE {
      PutChanges(s, p, s.holders[from], o);
      PutChanges(one, from, Pointer(None), o);
    }
    assert Kept(s, two, 0);
    Moved(s, two);
  }

  lemma SwapKeeps(s: State, p: HolderId, q: HolderId)
    requires Inv(s) && IsPointer(s, p) && IsPointer(s, q)
    ensures Inv(Put(Put(s, p, s.holders[q]), q, s.holders[p]))
  {
    var one := Put(s, p, s.holders[q]);
    var two := Put(one, q, s.holders[p]);
    forall o: ObjectId ensures Kept(s, two, o) && |two.holders| < SIZE_RANGE {
      PutChanges(s, p, s.holders[q], o);
      PutChanges(one, q, s.holders[p], o);
    }
    assert Kept(s, two, 0);
    Moved(s, two);
  }

  lemma DetachKeeps(s: State, p: HolderId, raw: HolderId)
    requires Inv(s) && IsPointer(s, p) && s.holders[p].to.Some? && Unused(s, raw)
    ensures Inv(Put(Put(s, raw, Raw(s.holders[p].to.value)), p, Pointer(None)))
  {
    var one := Put(s, raw, Raw(s.holders[p].to.value));
    var two := Put(one, p, Pointer(None));
    forall o: ObjectId ensures Kept(s, two, o) && |two.holders| < SIZE_RANGE {
      PutChanges(s, raw, Raw(s.holders[p].to.value), o);
      PutChanges(one, p, Pointer(None), o);
    }
    assert Kept(s, two, 0);
    Moved(s, two);
  }

  /** One holder goes and another comes with the same reference. */
  lemma Exchanged(s: State, gone: HolderId, p: HolderId, h: Holder, o: ObjectId)
    requires gone in s.holders && p !in s.holders && Owned(h) == Owned(s.holders[gone])
    requires !h.Deleting? && !s.holders[gone].Deleting?
    ensures Kept(s, Put(Drop(s, gone), p, h), o) && |Put(Drop(s, gone), p, h).holders| <= |s.holders| + 1
  {
    DropChanges(s, gone, o);
    PutChanges(Drop(s, gone), p, h, o);
  }

  lemma AttachKeeps(s: State, p: HolderId, raw: HolderId)
    requires Inv(s) && Unused(s, p) && IsRaw(s, raw)
    ensures Inv(Put(Drop(s, raw), p, Pointer(Some(s.holders[raw].target))))
  {
    var two := Put(Drop(s, raw), p, Pointer(Some(s.holders[raw].target)));
    forall o: ObjectId ensures Kept(s, two, o) {
      Exchanged(s, raw, p, Pointer(Some(s.holders[raw].target)), o);
    }
    Exchanged(s, raw, p, Pointer(Some(s.holders[raw].target)), 0);
    Moved(s, two);
  }

  lemma DefaultKeeps(s: State, p: HolderId)
    requires Inv(s) && Unused(s, p)
    ensures Inv(Put(s, p, Pointer(None)))
  {
    forall o: ObjectId ensures Kept(s, Put(s, p, Pointer(None)), o) {
      PutChanges(s, p, Pointer(None), o);
    }
    PutChanges(s, p, Pointer(None), 0);
    Moved(s, Put(s, p, Pointer(None)));
  }

  /** Emptying a pointer, or destroying it, hands its reference to a release. */
  lemma ResetKeeps(s: State, p: HolderId, r: HolderId)
    requires Inv(s) && IsPointer(s, p) && Unused(s, r)
    ensures Inv(Release(Put(s, p, Pointer(None)), s.holders[p].to, r))
  {
    var one := Put(s, p, Pointer(None));
    var two := Release(one, s.holders[p].to, r);
    forall o: ObjectId ensures Kept(s, two, o) && |two.holders| < SIZE_RANGE {
      PutChanges(s, p, Pointer(None), o);
      if s.holders[p].to.Some? {
        PutChanges(one, r, Checking(s.holders[p].to.value), o);
      }
    }
    assert Kept(s, two, 0);
    Moved(s, two);
  }

  lemma Destroyed(s: State, p: HolderId, r: HolderId, o: ObjectId)
    requires IsPointer(s, p) && r !in s.holders
    ensures var two := Release(Drop(s, p), s.holders[p].to, r); Kept(s, two, o) && |two.holders| <= |s.holders| + 1
  {
    if s.holders[p].to.Some? {
      Exchanged(s, p, r, Checking(s.holders[p].to.value), o);
    } else {
      DropChanges(s, p, o);
    }
  }

  lemma DestroyKeeps(s: State, p: HolderId, r: HolderId)
    requires Inv(s) && IsPointer(s, p) && Unused(s, r)
    ensures Inv(Release(Drop(s, p), s.holders[p].to, r))
  {
    var two := Release(Drop(s, p), s.holders[p].to, r);
    forall o: ObjectId ensures Kept(s, two, o) {
      Destroyed(s, p, r, o);
    }
    Destroyed(s, p, r, 0);
    Moved(s, two);
  }

  /** Giving the object to a pointer that is empty or not there yet, with one reference more. */
  lemma GiveKeeps(s: State, p: HolderId, o: ObjectId)
    requires Inv(s) && o in s.counts && Deleters(s, o) == 0
    requires Unused(s, p) || (IsPointer(s, p) && s.holders[p].to == None)
    ensures Inv(AddRef(Put(s.(unowned := s.unowned - {o}), p, Pointer(Some(o))), Some(o)))
  {
    var t := AddRef(Put(s.(unowned := s.unowned - {o}), p, Pointer(Some(o))), Some(o));
    forall x: ObjectId | x != o ensures Kept(s, t, x) {
      PutChanges(s, p, Pointer(Some(o)), x);
    }
    PutChanges(s, p, Pointer(Some(o)), o);
    Gained(s, t, o);
  }

  lemma ReleaseDeletesNothing(s: State, p: HolderId, r: HolderId, o: ObjectId)
    requires IsPointer(s, p) && r !in s.holders
    ensures Deleters(Release(Put(s, p, Pointer(None)), s.holders[p].to, r), o) == Deleters(s, o)
  {
    PutChanges(s, p, Pointer(None), o);
    if s.holders[p].to.Some? {
      PutChanges(Put(s, p, Pointer(None)), r, Checking(s.holders[p].to.value), o);
    }
  }

  /** Referencing the new object and releasing the old one touch different entries. */
  lemma AssignInTwo(s: State, p: HolderId, o: ObjectId, r: HolderId)
    requires IsPointer(s, p) && r !in s.holders && o in s.counts
    ensures var u := s.(unowned := s.unowned - {o});
            var one := Release(Put(s, p, Pointer(None)), s.holders[p].to, r);
            Release(AddRef(Put(u, p, Pointer(Some(o))), Some(o)), s.holders[p].to, r) ==
            AddRef(Put(one.(unowned := one.unowned - {o}), p, Pointer(Some(o))), Some(o))
  {
    var before := s.holders[p].to;
    if before.Some? {
      assert s.holders[p := Pointer(Some(o))][r := Checking(before.value)] ==
             s.holders[p := Pointer(None)][r := Checking(before.value)][p := Pointer(Some(o))];
    } else {
      assert s.holders[p := Pointer(Some(o))] == s.holders[p := Pointer(None)][p := Pointer(Some(o))];
    }
  }

  /** Assigning: the new object is referenced before the old one is released, so both may be the same. */
  lemma AssignKeeps(s: State, p: HolderId, to: Option<ObjectId>, r: HolderId)
    requires Inv(s) && IsPointer(s, p) && Unused(s, r)
    requires to.Some? ==> to.value in s.counts && Deleters(s, to.value) == 0
    ensures Alive(s, to)
    ensures var u := if to.Some? then s.(unowned := s.unowned - {to.value}) else s;
            Inv(Release(AddRef(Put(u, p, Pointer(to)), to), s.holders[p].to, r))
  {
    ResetKeeps(s, p, r);
    var one := Release(Put(s, p, Pointer(None)), s.holders[p].to, r);
    if to.Some? {
      ReleaseDeletesNothing(s, p, r, to.value);
      GiveKeeps(one, p, to.value);
      AssignInTwo(s, p, to.value, r);
    }
  }

  /** A copied pointer's object exists and is not being deleted. */
  lemma OwnedNotDeleted(s: State, p: HolderId)
    requires Inv(s) && p in s.holders && Owned(s.holders[p]).Some?
    ensures var o := Owned(s.holders[p]).value; o in s.counts && o !in s.unowned && Deleters(s, o) == 0
  {
    HolderAlive(s, p);
    assert ObjectSafe(s, Owned(s.holders[p]).value);
  }

  lemma CopyKeeps(s: State, p: HolderId, from: HolderId)
    requires Inv(s) && Unused(s, p) && IsPointer(s, from)
    ensures Alive(s, s.holders[from].to) && Inv(AddRef(Put(s, p, s.holders[from]), s.holders[from].to))
  {
    if s.holders[from].to.Some? {
      var o := s.holders[from].to.value;
      OwnedNotDeleted(s, from);
      GiveKeeps(s, p, o);
      assert s.(unowned := s.unowned - {o}) == s;
    } else {
      DefaultKeeps(s, p);
    }
  }

  lemma ResetToKeeps(s: State, p: HolderId, from: HolderId, r: HolderId)
    requires Inv(s) && IsPointer(s, p) && IsPointer(s, from) && Unused(s, r)
    ensures Alive(s, s.holders[from].to)
    ensures Inv(Release(AddRef(Put(s, p, s.holders[from]), s.holders[from].to), s.holders[p].to, r))
  {
    var to := s.holders[from].to;
    if to.Some? {
      OwnedNotDeleted(s, from);
      assert s.(unowned := s.unowned - {to.value}) == s;
    }
    AssignKeeps(s, p, to, r);
  }

  lemma ResetFreshKeeps(s: State, p: HolderId, o: ObjectId, r: HolderId)
    requires Inv(s) && IsPointer(s, p) && IsUnowned(s, o) && Unused(s, r)
    ensures Inv(Release(AddRef(Put(s.(unowned := s.unowned - {o}), p, Pointer(Some(o))), Some(o)), s.holders[p].to, r))
  {
    assert ObjectSafe(s, o);
    AssignKeeps(s, p, Some(o), r);
  }

  lemma ResetRawCounts(s: State, p: HolderId, raw: HolderId, r: HolderId, o: ObjectId)
    requires IsPointer(s, p) && IsRaw(s, raw) && r !in s.holders
    ensures var t := Release(Put(Drop(s, raw), p, Pointer(Some(s.holders[raw].target))), s.holders[p].to, r);
            Kept(s, t, o) && |t.holders| <= |s.holders| + 1
  {
    var next := Pointer(Some(s.holders[raw].target));
    DropChanges(s, raw, o);
    PutChanges(Drop(s, raw), p, next, o);
    if s.holders[p].to.Some? {
      PutChanges(Put(Drop(s, raw), p, next), r, Checking(s.holders[p].to.value), o);
    }
  }

  lemma ResetRawKeeps(s: State, p: HolderId, raw: HolderId, r: HolderId)
    requires Inv(s) && IsPointer(s, p) && IsRaw(s, raw) && Unused(s, r)
    ensures Inv(Release(Put(Drop(s, raw), p, Pointer(Some(s.holders[raw].target))), s.holders[p].to, r))
  {
    var t := Release(Put(Drop(s, raw), p, Pointer(Some(s.holders[raw].target))), s.holders[p].to, r);
    forall o: ObjectId ensures Kept(s, t, o) {
      ResetRawCounts(s, p, raw, r, o);
    }
    ResetRawCounts(s, p, raw, r, 0);
    Moved(s, t);
  }

  lemma AssignMoveKeeps(s: State, p: HolderId, from: HolderId, r: HolderId)
    requires Inv(s) && IsPointer(s, p) && IsPointer(s, from) && p != from && Unused(s, r)
    ensures Inv(Release(Put(Put(s, p, s.holders[from]), from, Pointer(None)), s.holders[p].to, r))
  {
    var one := Put(s, p, s.holders[from]);
    var two := Put(one, from, Pointer(None));
    var three := Release(two, s.holders[p].to, r);
    forall o: ObjectId ensures Kept(s, three, o) && |three.holders| < SIZE_RANGE {
      PutChanges(s, p, s.holders[from], o);
      PutChanges(one, from, Pointer(None), o);
      if s.holders[p].to.Some? {
        PutChanges(two, r, Checking(s.holders[p].to.value), o);
      }
    }
    assert Kept(s, three, 0);
    Moved(s, three);
  }

  // ---------------------------------------------------------------- releasing

  /** A step that changes the owners of one object only. */
  lemma OneObject(s: State, t: State, o: ObjectId)
    requires Inv(s) && t.unowned == s.unowned && t.deleted == s.deleted && |t.holders| < SIZE_RANGE
    requires o in s.counts && o in t.counts && t.counts == s.counts[o := t.counts[o]]
    requires forall x: ObjectId | x != o :: Kept(s, t, x)
    requires ObjectSafe(t, o)
    ensures Inv(t)
  {
    forall x | x in t.counts ensures ObjectSafe(t, x) {
      if x != o {
        assert ObjectSafe(s, x) && Kept(s, t, x);
      }
    }
    forall x: ObjectId | x !in t.counts ensures Absent(t, x) {
      assert Absent(s, x) && Kept(s, t, x);
    }
  }

  /** `unique()`: a count of one read by an owner means that it is the only one. */
  lemma CheckKeeps(s: State, r: HolderId)
    requires Inv(s) && r in s.holders && s.holders[r].Checking?
    ensures var o := s.holders[r].target;
            o in s.counts && Inv(Put(s, r, if s.counts[o] == 1 then Deleting(o) else Decrementing(o)))
  {
    var o := s.holders[r].target;
    OwnedNotDeleted(s, r);
    HolderAlive(s, r);
    assert ObjectSafe(s, o);
    var t := Put(s, r, if s.counts[o] == 1 then Deleting(o) else Decrementing(o));
    forall x: ObjectId | x != o ensures Kept(s, t, x) {
      PutChanges(s, r, t.holders[r], x);
    }
    PutChanges(s, r, t.holders[r], o);
    OneObject(s, t, o);
  }

  lemma DecrementCounts(s: State, r: HolderId, x: ObjectId)
    requires r in s.holders && s.holders[r].Decrementing? && s.holders[r].target in s.counts
    ensures var o := s.holders[r].target;
            && Owners(Deref(s, r), x) == Owners(s, x) - (if x == o then 1 else 0)
            && Deleters(Deref(s, r), x) == Deleters(s, x) + (if x == o && s.counts[o] == 1 then 1 else 0)
            && |Deref(s, r).holders| <= |s.holders|
  {
    var o := s.holders[r].target;
    PutTotal(s.holders, r, Deleting(o), Owns(x));
    PutTotal(s.holders, r, Deleting(o), Deletes(x));
    PutSize(s.holders, r, Deleting(o));
    RemoveTotal(s.holders, r, Owns(x));
    RemoveTotal(s.holders, r, Deletes(x));
    SubsetSize((s.holders - {r}).Keys, s.holders.Keys);
  }

  lemma DecrementSafe(s: State, r: HolderId)
    requires r in s.holders && s.holders[r].Decrementing? && |s.holders| < SIZE_RANGE
    requires var o := s.holders[r].target;
             o in s.counts && ObjectSafe(s, o) && o !in s.unowned && Deleters(s, o) == 0 && Owners(s, o) >= 1
    ensures ObjectSafe(Deref(s, r), s.holders[r].target) && |Deref(s, r).holders| < SIZE_RANGE
  {
    DecrementCounts(s, r, s.holders[r].target);
    TotalBounded(s.holders, Owns(s.holders[r].target));
  }

  lemma DecrementKeeps(s: State, r: HolderId)
    requires Inv(s) && r in s.holders && s.holders[r].Decrementing?
    ensures s.holders[r].target in s.counts && Inv(Deref(s, r))
  {
    var o := s.holders[r].target;
    OwnedNotDeleted(s, r);
    HolderAlive(s, r);
    forall x: ObjectId | x != o ensures Kept(s, Deref(s, r), x) {
      DecrementCounts(s, r, x);
    }
    DecrementSafe(s, r);
    OneObject(s, Deref(s, r), o);
  }

  lemma DeleteCounts(s: State, r: HolderId, x: ObjectId)
    requires r in s.holders && s.holders[r].Deleting? && s.holders[r].target in s.counts
    ensures Owners(Deref(s, r), x) == Owners(s, x)
    ensures Deleters(Deref(s, r), x) == Deleters(s, x) - if x == s.holders[r].target then 1 else 0
    ensures |Deref(s, r).holders| <= |s.holders|
  {
    DropChanges(s, r, x);
  }

  lemma ObjectGone(s: State, t: State, o: ObjectId)
    requires Inv(s) && o in s.counts && o !in s.unowned && Owners(s, o) == 0 && Deleters(s, o) == 1
    requires t.counts == s.counts - {o} && t.unowned == s.unowned && t.deleted == s.deleted + [o]
    requires |t.holders| <= |s.holders|
    requires forall x: ObjectId :: Owners(t, x) == Owners(s, x)
    requires forall x: ObjectId :: Deleters(t, x) == Deleters(s, x) - if x == o then 1 else 0
    ensures Inv(t)
  {
    forall x | x in t.counts ensures ObjectSafe(t, x) {
      assert ObjectSafe(s, x) && Owners(t, x) == Owners(s, x) && Deleters(t, x) == Deleters(s, x);
    }
    forall x: ObjectId | x !in t.counts ensures Absent(t, x) {
      if x != o {
        assert Absent(s, x);
      }
      assert Owners(t, x) == Owners(s, x) && Deleters(t, x) == Deleters(s, x) - if x == o then 1 else 0;
    }
    DistinctConcat(s.deleted, [o]);
  }

  lemma DeleteKeeps(s: State, r: HolderId)
    requires Inv(s) && r in s.holders && s.holders[r].Deleting?
    ensures s.holders[r].target in s.counts && Inv(Deref(s, r))
    ensures Owners(s, s.holders[r].target) == 0 && s.holders[r].target !in s.deleted
  {
    var o := s.holders[r].target;
    HolderAlive(s, r);
    assert ObjectSafe(s, o);
    forall x: ObjectId ensures Owners(Deref(s, r), x) == Owners(s, x) {
      DeleteCounts(s, r, x);
    }
    forall x: ObjectId ensures Deleters(Deref(s, r), x) == Deleters(s, x) - if x == o then 1 else 0 {
      DeleteCounts(s, r, x);
    }
    DeleteCounts(s, r, o);
    ObjectGone(s, Deref(s, r), o);
  }

  lemma NewKeeps(s: State, o: ObjectId)
    requires Inv(s) && Enabled(s, New(o))
    ensures Inv(Apply(s, New(o)))
  {
    var t := Apply(s, New(o));
    forall x: ObjectId ensures Kept(s, t, x) {
    }
    assert Absent(s, o);
    forall x | x in t.counts ensures ObjectSafe(t, x) {
      assert Kept(s, t, x) && (x != o ==> ObjectSafe(s, x));
    }
    forall x: ObjectId | x !in t.counts ensures Absent(t, x) {
      assert Absent(s, x) && Kept(s, t, x);
    }
  }

  // ---------------------------------------------------------------- every step, every run

  lemma EveryStepKeeps(s: State, a: Action)
    requires Inv(s) && Enabled(s, a)
    ensures Inv(Apply(s, a))
  {
    match a
    case New(o) => NewKeeps(s, o);
    case Construct(p, o) =>
      assert ObjectSafe(s, o);
      GiveKeeps(s, p, o);
    case Default(p) => DefaultKeeps(s, p);
    case Copy(p, from) => CopyKeeps(s, p, from);
    case Move(p, from) => MoveKeeps(s, p, from);
    case Swap(p, q) => SwapKeeps(s, p, q);
    case Detach(p, raw) => DetachKeeps(s, p, raw);
    case Attach(p, raw) => AttachKeeps(s, p, raw);
    case Reset(p, r) => ResetKeeps(s, p, r);
    case ResetTo(p, from, r) => ResetToKeeps(s, p, from, r);
    case ResetFresh(p, o, r) => ResetFreshKeeps(s, p, o, r);
    case ResetRaw(p, raw, r) => ResetRawKeeps(s, p, raw, r);
    case AssignMove(p, from, r) =>
      if p != from {
        AssignMoveKeeps(s, p, from, r);
      }
    case Destroy(p, r) => DestroyKeeps(s, p, r);
    case Advance(r) =>
      match s.holders[r] {
        case Checking(_) => CheckKeeps(s, r);
        case Decrementing(_) => DecrementKeeps(s, r);
        case Deleting(_) => DeleteKeeps(s, r);
      }
  }

  lemma {:induction false} EveryRunKeeps(s: State, actions: seq<Action>, t: State)
    requires Inv(s) && Leads(s, actions, t)
    ensures Inv(t)
    decreases |actions|
  {
    if actions == [] {
    } else {
      EveryStepKeeps(s, actions[0]);
      EveryRunKeeps(Apply(s, actions[0]), actions[1..], t);
    }
  }

  lemma EveryReachableState(actions: seq<Action>, s: State)
    requires Reaches(actions, s)
    ensures Inv(s)
  {
    assert Inv(Initial());
    EveryRunKeeps(Initial(), actions, s);
  }

  // ---------------------------------------------------------------- the theorems

  /** Nothing that is deleted is ever touched, or deleted again: the object of every holder exists. */
  lemma NeverTouchedAfterDelete(actions: seq<Action>, s: State, p: HolderId)
    requires Reaches(actions, s) && p in s.holders
    ensures s.holders[p].Pointer? ==> Alive(s, s.holders[p].to)
    ensures !s.holders[p].Pointer? ==> s.holders[p].target in s.counts && s.holders[p].target !in s.deleted
    ensures !s.holders[p].Pointer? && !s.holders[p].Raw? ==> Enabled(s, Advance(p))
    ensures Distinct(s.deleted)
  {
    EveryReachableState(actions, s);
    HolderAlive(s, p);
  }

  /** A step deletes an object only when nothing owns it, and no two releases delete it. */
  lemma DeletedAfterLastOwner(actions: seq<Action>, s: State, r: HolderId, p: HolderId)
    requires Reaches(actions, s) && r in s.holders && s.holders[r].Deleting? && p in s.holders && p != r
    ensures Owned(s.holders[p]) != Some(s.holders[r].target) && s.holders[p] != s.holders[r]
  {
    EveryReachableState(actions, s);
    DeleteKeeps(s, r);
    var o := s.holders[r].target;
    assert ObjectSafe(s, o);
    HolderAlive(s, p);
    if s.holders[p] == s.holders[r] {
      TotalBounds(s.holders - {p}, r, Deletes(o));
      RemoveTotal(s.holders, p, Deletes(o));
    }
  }

  /** Once every pointer is gone and every release is over, only objects that nobody ever owned are left. */
  lemma NothingLeaks(actions: seq<Action>, s: State, o: ObjectId)
    requires Reaches(actions, s) && s.holders == map[] && o in s.counts
    ensures o in s.unowned
  {
    EveryReachableState(actions, s);
    NoneMatch(s.holders, Owns(o));
    NoneMatch(s.holders, Deletes(o));
    assert ObjectSafe(s, o);
  }

  /** The count of an object that is not being deleted is the number of references to it. */
  lemma CountIsOwners(actions: seq<Action>, s: State, o: ObjectId)
    requires Reaches(actions, s) && o in s.counts && forall p | p in s.holders :: s.holders[p] != Deleting(o)
    ensures s.counts[o] == Owners(s, o)
  {
    EveryReachableState(actions, s);
    NoneMatch(s.holders, Deletes(o));
    assert ObjectSafe(s, o);
  }
}

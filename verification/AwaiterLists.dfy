/**
  The intrusive lists of `SequenceBarrier` on the heap: the split loops of `publish` and `add_awaiter`, which relink
  a taken list in place through two tail pointers, and the compare-exchange that puts a private list back.
 */
module AwaiterLists {
  import opened Lists
  import opened SequenceTraits

  class Awaiter {
    const target: Sequence
    var lastKnown: Sequence
    var next: Awaiter?
    var flag: bool             // _ready_to_resume
    ghost var continued: nat   // how often the coroutine was continued

    constructor (target: Sequence, lastKnown: Sequence)
      ensures this.target == target && this.lastKnown == lastKnown && next == null && !flag && continued == 0
    {
      this.target := target;
      this.lastKnown := lastKnown;
      next := null;
      flag := false;
      continued := 0;
    }

    /** `resume`: the second of the two exchanges of the flag continues the coroutine. */
    method Resume()
      modifies this`flag, this`continued
      ensures flag && continued == old(continued) + if old(flag) then 1 else 0
    {
      if flag {
        continued := continued + 1;
      }
      flag := true;
    }
  }

  ghost predicate Linked(s: seq<Awaiter>)
    reads s
  {
    forall i :: 0 <= i < |s| - 1 ==> s[i].next == s[i + 1]
  }

  function Only(x: Awaiter?): set<Awaiter> { if x == null then {} else {x} }

  /** The list that starts at `head`, is `s`, and goes on at `end`. */
  ghost predicate ListFrom(head: Awaiter?, s: seq<Awaiter>, end: Awaiter?)
    reads s
  {
    if s == [] then head == end
    else head == s[0] && Linked(s) && s[|s| - 1].next == end
  }

  function Pending(number: Sequence): Awaiter -> bool { (a: Awaiter) => PublishKeeps(number, a.target) }

  function Ahead(number: Sequence): Awaiter -> bool { (a: Awaiter) => AddKeeps(number, a.target) }

  function Not(p: Awaiter -> bool): Awaiter -> bool { (a: Awaiter) => !p(a) }

  /** A list under construction: `tail` is its last element, or null while the tail pointer is at `head` itself. */
  ghost predicate Building(head: Awaiter?, tail: Awaiter?, s: seq<Awaiter>)
    reads s
  {
    if s == [] then tail == null
    else head == s[0] && tail == s[|s| - 1] && Linked(s)
  }

  lemma FilterNext(list: seq<Awaiter>, i: nat, p: Awaiter -> bool)
    requires i < |list|
    ensures Filter(list[..i + 1], p) == Filter(list[..i], p) + if p(list[i]) then [list[i]] else []
  {
    assert list[..i + 1] == list[..i] + [list[i]];
    FilterSnoc(list[..i], list[i], p);
  }

  /** `*tail = x; tail = &x->_next`. */
  method Append(head: Awaiter?, tail: Awaiter?, x: Awaiter, ghost s: seq<Awaiter>) returns (newHead: Awaiter, newTail: Awaiter)
    requires Building(head, tail, s) && x !in s && Distinct(s)
    modifies Only(tail)`next
    ensures newTail == x && Building(newHead, newTail, s + [x])
    ensures tail != null ==> tail.next == x
  {
    newTail := x;
    if tail == null {
      newHead := x;
    } else {
      newHead := head;
      tail.next := x;
      assert forall i :: 0 <= i < |s| - 1 ==> s[i] != tail && s[i].next == s[i + 1];
    }
  }

  /** `*tail = nullptr`. */
  method Terminate(head: Awaiter?, tail: Awaiter?, ghost s: seq<Awaiter>) returns (newHead: Awaiter?)
    requires Building(head, tail, s) && Distinct(s)
    modifies Only(tail)`next
    ensures ListFrom(newHead, s, null)
    ensures tail != null ==> newHead == head
  {
    if tail == null {
      newHead := null;
    } else {
      newHead := head;
      tail.next := null;
      assert forall i :: 0 <= i < |s| - 1 ==> s[i] != tail && s[i].next == s[i + 1];
    }
  }

  /** The unread rest of a taken list. */
  ghost predicate Rest(rest: seq<Awaiter>, current: Awaiter?)
    reads rest
  {
    ListFrom(current, rest, null)
  }

  ghost predicate Apart(a: seq<Awaiter>, b: seq<Awaiter>, rest: seq<Awaiter>) {
    && Distinct(a) && Distinct(b) && Distinct(rest)
    && (forall x | x in a :: x !in b && x !in rest)
    && (forall x | x in b :: x !in rest)
  }

  /** One turn of a split loop: move the current element to the list built at `head` and read the next one. */
  method Take(head: Awaiter?, tail: Awaiter?, otherHead: Awaiter?, otherTail: Awaiter?, current: Awaiter,
              ghost a: seq<Awaiter>, ghost b: seq<Awaiter>, ghost rest: seq<Awaiter>)
      returns (newHead: Awaiter, newTail: Awaiter, next: Awaiter?)
    requires Apart(a, b, rest) && rest != [] && Rest(rest, current)
    requires Building(head, tail, a) && Building(otherHead, otherTail, b)
    modifies Only(tail)`next
    ensures Building(newHead, newTail, a + [current]) && Building(otherHead, otherTail, b)
    ensures Rest(rest[1..], next)
  {
    newHead, newTail := Append(head, tail, current, a);
    assert tail != null ==> tail in a;
    assert forall i :: 0 <= i < |b| ==> b[i] != tail;
    assert forall i :: 0 <= i < |rest| ==> rest[i] != tail;
    next := current.next;
    assert forall i :: 0 <= i < |rest| - 1 ==> rest[1..][i] == rest[i + 1];
  }

  /**
    A split by `p` of the first `i` elements of `list` has built `a`, and `b` behind the elements collected before.
   */
  ghost predicate Stage(list: seq<Awaiter>, i: nat, p: Awaiter -> bool, before: seq<Awaiter>,
                        a: seq<Awaiter>, b: seq<Awaiter>) {
    && i <= |list|
    && Apart(before, [], list)
    && a == Filter(list[..i], p)
    && b == before + Filter(list[..i], Not(p))
  }

  lemma StageApart(list: seq<Awaiter>, i: nat, p: Awaiter -> bool, before: seq<Awaiter>, a: seq<Awaiter>, b: seq<Awaiter>)
    requires Stage(list, i, p, before, a, b)
    ensures Apart(a, b, list[i..])
    ensures forall x | x in a :: x in list
    ensures forall x | x in b :: x in before || x in list
  {
    FilterDistinct(list[..i], p);
    FilterDistinct(list[..i], Not(p));
    forall x | x in list[..i] ensures x !in list[i..] && x in list {
      var k :| 0 <= k < i && list[k] == x;
    }
    assert forall x | x in list[i..] :: x in list;
    DistinctConcat(before, Filter(list[..i], Not(p)));
  }

  lemma StageNext(list: seq<Awaiter>, i: nat, p: Awaiter -> bool, before: seq<Awaiter>, a: seq<Awaiter>, b: seq<Awaiter>)
    requires Stage(list, i, p, before, a, b) && i < |list|
    ensures Stage(list, i + 1, p, before,
                  if p(list[i]) then a + [list[i]] else a, if p(list[i]) then b else b + [list[i]])
    ensures list[i..][0] == list[i] && list[i..][1..] == list[i + 1..]
  {
    FilterNext(list, i, p);
    FilterNext(list, i, Not(p));
  }

  lemma StageDone(list: seq<Awaiter>, p: Awaiter -> bool, before: seq<Awaiter>, a: seq<Awaiter>, b: seq<Awaiter>)
    requires Stage(list, |list|, p, before, a, b)
    ensures a == Filter(list, p) && b == before + Filter(list, Not(p))
  {
    assert list[..|list|] == list;
  }

  /** The two halves of a split. */
  lemma SplitApart(list: seq<Awaiter>, p: Awaiter -> bool, before: seq<Awaiter>, a: seq<Awaiter>, b: seq<Awaiter>)
    requires Apart(before, [], list) && a == Filter(list, p) && b == before + Filter(list, Not(p))
    ensures Apart(a, b, [])
    ensures forall x | x in a :: x in list
    ensures forall x | x in b :: x in before || x in list
  {
    assert list[..|list|] == list;
    StageApart(list, |list|, p, before, a, b);
  }

  lemma TailInside(head: Awaiter?, tail: Awaiter?, s: seq<Awaiter>)
    requires Building(head, tail, s)
    ensures tail != null ==> tail in s
  {
  }

  /** One turn of a split loop: `picks` says whether the current element goes to the first list. */
  method Turn(picks: bool, current: Awaiter, aHead: Awaiter?, aTail: Awaiter?, bHead: Awaiter?, bTail: Awaiter?,
              ghost list: seq<Awaiter>, ghost i: nat, ghost p: Awaiter -> bool, ghost before: seq<Awaiter>,
              ghost a: seq<Awaiter>, ghost b: seq<Awaiter>)
      returns (next: Awaiter?, newAHead: Awaiter?, newATail: Awaiter?, newBHead: Awaiter?, newBTail: Awaiter?,
               ghost newA: seq<Awaiter>, ghost newB: seq<Awaiter>, ghost j: nat)
    requires Stage(list, i, p, before, a, b) && i < |list| && Rest(list[i..], current) && picks == p(list[i])
    requires Building(aHead, aTail, a) && Building(bHead, bTail, b)
    modifies Only(aTail)`next, Only(bTail)`next
    ensures j == i + 1 && Stage(list, j, p, before, newA, newB) && Rest(list[j..], next)
    ensures newA == (if picks then a + [current] else a)
    ensures Building(newAHead, newATail, newA) && Building(newBHead, newBTail, newB)
  {
    StageApart(list, i, p, before, a, b);
    StageNext(list, i, p, before, a, b);
    newAHead, newATail, newA, newBHead, newBTail, newB, j := aHead, aTail, a, bHead, bTail, b, i + 1;
    if picks {
      newAHead, newATail, next := Take(aHead, aTail, bHead, bTail, current, a, b, list[i..]);
      newA := a + [current];
    } else {
      newBHead, newBTail, next := Take(bHead, bTail, aHead, aTail, current, b, a, list[i..]);
      newB := b + [current];
    }
  }

  /** Null-terminate the first of two lists. */
  method TerminateFirst(aHead: Awaiter?, aTail: Awaiter?, ghost a: seq<Awaiter>,
                        bHead: Awaiter?, bTail: Awaiter?, ghost b: seq<Awaiter>)
      returns (newA: Awaiter?)
    requires Building(aHead, aTail, a) && Building(bHead, bTail, b) && Apart(a, b, [])
    modifies Only(aTail)`next
    ensures ListFrom(newA, a, null) && Building(bHead, bTail, b)
  {
    TailInside(aHead, aTail, a);
    assert forall i :: 0 <= i < |b| ==> b[i] != aTail;
    newA := Terminate(aHead, aTail, a);
  }

  /** Null-terminate both lists. */
  method TerminateBoth(aHead: Awaiter?, aTail: Awaiter?, ghost a: seq<Awaiter>,
                       bHead: Awaiter?, bTail: Awaiter?, ghost b: seq<Awaiter>)
      returns (newA: Awaiter?, newB: Awaiter?)
    requires Building(aHead, aTail, a) && Building(bHead, bTail, b) && Apart(a, b, [])
    modifies Only(aTail)`next, Only(bTail)`next
    ensures ListFrom(newA, a, null) && ListFrom(newB, b, null)
  {
    TailInside(bHead, bTail, b);
    assert forall i :: 0 <= i < |a| ==> a[i] != bTail;
    newA := TerminateFirst(aHead, aTail, a, bHead, bTail, b);
    newB := Terminate(bHead, bTail, b);
  }

  // ---------------------------------------------------------------- publish

  /** The loop of `publish` over the list it took; the two lists are not yet terminated. */
  method PublishLoop(first: Awaiter, number: Sequence, ghost list: seq<Awaiter>)
      returns (requeue: Awaiter?, requeueTail: Awaiter?, ghost a: seq<Awaiter>,
               resume: Awaiter?, resumeTail: Awaiter?, ghost b: seq<Awaiter>)
    requires list != [] && Distinct(list) && ListFrom(first, list, null)
    modifies list`next
    ensures Building(requeue, requeueTail, a) && Building(resume, resumeTail, b)
    ensures Stage(list, |list|, Pending(number), [], a, b)
  {
    var awaiters: Awaiter? := first;
    requeue, requeueTail, a := null, null, [];
    resume, resumeTail, b := null, null, [];
    ghost var p, i := Pending(number), 0;
    while awaiters != null
      invariant Stage(list, i, p, [], a, b) && Rest(list[i..], awaiters)
      invariant Building(requeue, requeueTail, a) && Building(resume, resumeTail, b)
      decreases |list| - i
    {
      StageApart(list, i, p, [], a, b);
      TailInside(requeue, requeueTail, a);
      TailInside(resume, resumeTail, b);
      awaiters, requeue, requeueTail, resume, resumeTail, a, b, i :=
        Turn(PublishKeeps(number, awaiters.target), awaiters, requeue, requeueTail, resume, resumeTail, list, i, p, [], a, b);
    }
  }

  /** After the last turn both tails are elements of the lists that were taken, and the lists are apart. */
  lemma StageEnds(list: seq<Awaiter>, p: Awaiter -> bool, before: seq<Awaiter>,
                  aHead: Awaiter?, aTail: Awaiter?, a: seq<Awaiter>, bHead: Awaiter?, bTail: Awaiter?, b: seq<Awaiter>)
    requires Stage(list, |list|, p, before, a, b) && Building(aHead, aTail, a) && Building(bHead, bTail, b)
    ensures Apart(a, b, [])
    ensures aTail != null ==> aTail in list
    ensures bTail != null ==> bTail in list || bTail in before
    ensures a != [] ==> aTail == a[|a| - 1]
  {
    StageApart(list, |list|, p, before, a, b);
  }

  /** `publish` splits the list it took into the waiters to put back and the waiters to resume, each in order. */
  method PublishSplit(first: Awaiter, number: Sequence, ghost list: seq<Awaiter>)
      returns (requeue: Awaiter?, requeueTail: Awaiter?, resume: Awaiter?, ghost a: seq<Awaiter>, ghost b: seq<Awaiter>)
    requires list != [] && Distinct(list) && ListFrom(first, list, null)
    modifies list`next
    ensures a == Filter(list, Pending(number)) && b == Filter(list, Not(Pending(number)))
    ensures ListFrom(requeue, a, null) && ListFrom(resume, b, null)
    ensures a != [] ==> requeueTail == a[|a| - 1]
  {
    var resumeTail: Awaiter?;
    requeue, requeueTail, a, resume, resumeTail, b := PublishLoop(first, number, list);
    StageEnds(list, Pending(number), [], requeue, requeueTail, a, resume, resumeTail, b);
    requeue, resume := TerminateBoth(requeue, requeueTail, a, resume, resumeTail, b);
    StageDone(list, Pending(number), [], a, b);
  }

  /** The resume loop: each next pointer is read before the operation may be gone. */
  method ResumeAll(head: Awaiter?, number: Sequence, ghost list: seq<Awaiter>)
    requires Distinct(list) && ListFrom(head, list, null)
    modifies list`lastKnown, list`flag, list`continued
    ensures forall x | x in list :: x.lastKnown == number && x.flag
    ensures forall x | x in list :: x.continued == old(x.continued) + if old(x.flag) then 1 else 0
  {
    var current := head;
    ghost var i := 0;
    while current != null
      invariant 0 <= i <= |list| && ListFrom(current, list[i..], null)
      invariant forall k | 0 <= k < i :: list[k].lastKnown == number && list[k].flag
      invariant forall k | 0 <= k < i :: list[k].continued == old(list[k].continued) + if old(list[k].flag) then 1 else 0
      invariant forall k | i <= k < |list| :: list[k].continued == old(list[k].continued) && list[k].flag == old(list[k].flag)
      decreases |list| - i
    {
      assert current == list[i] && forall k :: 0 <= k < |list| - i - 1 ==> list[i..][1..][k] == list[i + 1..][k];
      var next := current.next;
      current.lastKnown := number;
      current.Resume();
      current := next;
      i := i + 1;
    }
  }

  // ---------------------------------------------------------------- add_awaiter

  /** `d` is the least distance of `a` ahead of `number`, or the largest signed word when `a` is empty. */
  ghost predicate Least(d: int, a: seq<Awaiter>, number: Sequence) {
    && d <= HALF - 1
    && (forall x | x in a :: d <= Difference(x.target, number))
    && (if a == [] then d == HALF - 1 else exists x | x in a :: d == Difference(x.target, number))
  }

  lemma LeastNext(d: int, a: seq<Awaiter>, x: Awaiter, number: Sequence)
    requires Least(d, a, number)
    ensures Least(if Difference(x.target, number) < d then Difference(x.target, number) else d, a + [x], number)
  {
    var e := Difference(x.target, number);
    if e < d || a == [] {
      assert x in a + [x];
    } else {
      var y :| y in a && d == Difference(y.target, number);
      assert y in a + [x];
    }
  }

  /** The loop of `add_awaiter` over a list it took; `before` is what earlier passes collected for resumption. */
  method AddLoop(first: Awaiter?, number: Sequence, resumeHead: Awaiter?, resumeLast: Awaiter?,
                 ghost list: seq<Awaiter>, ghost before: seq<Awaiter>)
      returns (requeue: Awaiter?, requeueTail: Awaiter?, ghost a: seq<Awaiter>,
               resume: Awaiter?, resumeTail: Awaiter?, ghost b: seq<Awaiter>, minDiff: int)
    requires Apart(before, [], list) && ListFrom(first, list, null) && Building(resumeHead, resumeLast, before)
    modifies list`next, before`next
    ensures Building(requeue, requeueTail, a) && Building(resume, resumeTail, b)
    ensures Stage(list, |list|, Ahead(number), before, a, b)
    ensures Least(minDiff, a, number)
  {
    var awaiters: Awaiter? := first;
    requeue, requeueTail, a := null, null, [];
    resume, resumeTail, b := resumeHead, resumeLast, before;
    minDiff := HALF - 1;
    ghost var p, i := Ahead(number), 0;
    while awaiters != null
      invariant Stage(list, i, p, before, a, b) && Rest(list[i..], awaiters)
      invariant Building(requeue, requeueTail, a) && Building(resume, resumeTail, b)
      invariant Least(minDiff, a, number)
      decreases |list| - i
    {
      StageApart(list, i, p, before, a, b);
      TailInside(requeue, requeueTail, a);
      TailInside(resume, resumeTail, b);
      var diff := Difference(awaiters.target, number);
      LeastNext(minDiff, a, awaiters, number);
      if diff > 0 {
        minDiff := if diff < minDiff then diff else minDiff;
      }
      awaiters, requeue, requeueTail, resume, resumeTail, a, b, i :=
        Turn(diff > 0, awaiters, requeue, requeueTail, resume, resumeTail, list, i, p, before, a, b);
    }
  }

  /** Adding the signed distance to a word gives back the other word. */
  lemma WordAhead(target: Sequence, number: Sequence)
    ensures Wrap(number + Difference(target, number)) == target
  {
    var u := (target - number) % RANGE;
    if u == Difference(target, number) {
      assert number + u == target || number + u == target + RANGE;
    } else {
      assert number + u - RANGE == target || number + u - RANGE == target - RANGE;
    }
  }

  lemma LeastTarget(d: int, a: seq<Awaiter>, number: Sequence)
    requires Least(d, a, number)
    ensures forall x | x in a :: Difference(Wrap(number + d), number) <= Difference(x.target, number)
    ensures a != [] ==> exists x | x in a :: x.target == Wrap(number + d)
  {
    if a != [] {
      var x :| x in a && d == Difference(x.target, number);
      WordAhead(x.target, number);
    }
  }

  /**
    One pass of `add_awaiter` over a list it took: the waiters still ahead of `number` are relinked for another
    enqueue, the others join those already collected, and `earliest` is the word of the nearest target put back.
   */
  method AddSplit(first: Awaiter?, number: Sequence, resumeHead: Awaiter?, resumeLast: Awaiter?,
                  ghost list: seq<Awaiter>, ghost before: seq<Awaiter>)
      returns (requeue: Awaiter?, requeueTail: Awaiter?, ghost a: seq<Awaiter>,
               resume: Awaiter?, resumeTail: Awaiter?, ghost b: seq<Awaiter>, earliest: Sequence)
    requires Apart(before, [], list) && ListFrom(first, list, null) && Building(resumeHead, resumeLast, before)
    modifies list`next, before`next
    ensures a == Filter(list, Ahead(number)) && b == before + Filter(list, Not(Ahead(number)))
    ensures ListFrom(requeue, a, null) && Building(resume, resumeTail, b)
    ensures a != [] ==> requeueTail == a[|a| - 1]
    ensures forall x | x in a :: Difference(earliest, number) <= Difference(x.target, number)
    ensures a != [] ==> exists x | x in a :: x.target == earliest
  {
    var minDiff;
    requeue, requeueTail, a, resume, resumeTail, b, minDiff := AddLoop(first, number, resumeHead, resumeLast, list, before);
    StageEnds(list, Ahead(number), before, requeue, requeueTail, a, resume, resumeTail, b);
    requeue := TerminateFirst(requeue, requeueTail, a, resume, resumeTail, b);
    StageDone(list, Ahead(number), before, a, b);
    earliest := Wrap(number + minDiff);
    LeastTarget(minDiff, a, number);
  }

  ghost predicate Split(number: Sequence, all: seq<Awaiter>, before: seq<Awaiter>, kept: seq<Awaiter>, resumed: seq<Awaiter>) {
    kept == Filter(all, Ahead(number)) && resumed == before + Filter(all, Not(Ahead(number)))
  }

  /** What `add_awaiter` leaves of `all`, the new operation before the list. */
  ghost predicate Added(number: Sequence, awaiter: Awaiter, all: seq<Awaiter>, list: seq<Awaiter>, resumed: seq<Awaiter>) {
    if Precedes(number, awaiter.target) then list == all && resumed == [] else Split(number, all, [], list, resumed)
  }

  lemma AddedInside(number: Sequence, awaiter: Awaiter, all: seq<Awaiter>, list: seq<Awaiter>, resumed: seq<Awaiter>)
    requires Added(number, awaiter, all, list, resumed)
    ensures forall x | x in list || x in resumed :: x in all
  {
  }

  /** After a pass that took `all`, the nearest target put back is still ahead of the number. */
  ghost predicate SecondPass(all: seq<Awaiter>, awaiter: Awaiter, number: Sequence, target: Sequence,
                             kept: seq<Awaiter>, resumed: seq<Awaiter>) {
    && !Precedes(number, awaiter.target)
    && Split(number, all, [], kept, resumed)
    && (kept != [] ==> Precedes(number, target))
  }

  // ---------------------------------------------------------------- the shared head

  lemma Joined(batch: seq<Awaiter>, list: seq<Awaiter>)
    requires batch != [] && Linked(batch)
    requires if list == [] then batch[|batch| - 1].next == null else ListFrom(batch[|batch| - 1].next, list, null)
    ensures ListFrom(batch[0], batch + list, null)
  {
    var all := batch + list;
    forall i | 0 <= i < |all| - 1 ensures all[i].next == all[i + 1] {
      if i >= |batch| {
        assert all[i] == list[i - |batch|];
      }
    }
  }

  /** The word `_awaiters` and the list that hangs from it. */
  class SharedList {
    var awaiters: Awaiter?
    ghost var list: seq<Awaiter>

    ghost predicate Valid()
      reads this, list
    {
      Distinct(list) && ListFrom(awaiters, list, null)
    }

    constructor ()
      ensures Valid() && list == []
    {
      awaiters := null;
      list := [];
    }

    /** `_awaiters.exchange(nullptr)`: the whole list becomes private. */
    method Exchange() returns (head: Awaiter?, ghost taken: seq<Awaiter>)
      requires Valid()
      modifies this
      ensures Valid() && list == [] && taken == old(list)
      ensures Distinct(taken) && ListFrom(head, taken, null)
    {
      head, taken := awaiters, list;
      awaiters := null;
      list := [];
    }

    /** `*tail = expected`, on the last element of a private list. */
    method Link(first: Awaiter, last: Awaiter, expected: Awaiter?, ghost batch: seq<Awaiter>)
      requires Valid() && Distinct(batch) && batch != [] && Building(first, last, batch)
      requires forall x | x in batch :: x !in list
      modifies last`next
      ensures Valid() && list == old(list) && awaiters == old(awaiters)
      ensures ListFrom(first, batch, expected)
    {
      TailInside(first, last, batch);
      forall i | 0 <= i < |list| ensures list[i] != last {
        assert list[i] in list;
      }
      last.next := expected;
      assert forall i :: 0 <= i < |batch| - 1 ==> batch[i] != last && batch[i].next == batch[i + 1];
    }

    /**
      The weak compare-exchange, whatever happened to the shared list since the private list was linked to
      `expected`: it succeeds only on that very head, and then the private list stands before the whole shared list.
     */
    method CompareExchange(expected: Awaiter?, first: Awaiter, spurious: bool, ghost batch: seq<Awaiter>)
        returns (ok: bool, observed: Awaiter?)
      requires Valid() && Distinct(batch) && batch != [] && ListFrom(first, batch, expected)
      requires forall x | x in batch :: x !in list
      modifies this
      ensures Valid() && observed == old(awaiters)
      ensures ok <==> !spurious && old(awaiters) == expected
      ensures list == if ok then batch + old(list) else old(list)
    {
      observed := awaiters;
      ok := !spurious && awaiters == expected;
      if ok {
        awaiters := first;
        DistinctConcat(batch, list);
        Joined(batch, list);
        list := batch + list;
      }
    }

    /**
      The loop that puts a private list back, from the head that is expected first; the compare-exchange may fail
      spuriously `failures` times.
     */
    method PutBack(first: Awaiter, last: Awaiter, expected: Awaiter?, failures: nat, ghost batch: seq<Awaiter>)
      requires Valid() && Distinct(batch) && batch != [] && Building(first, last, batch)
      requires forall x | x in batch :: x !in list
      modifies this, last`next
      ensures Valid() && list == batch + old(list)
    {
      var head, left := expected, failures;
      Link(first, last, head, batch);
      var ok, observed := CompareExchange(head, first, left > 0, batch);
      while !ok
        invariant Valid()
        invariant list == if ok then batch + old(list) else old(list)
        invariant !ok ==> observed == awaiters && Building(first, last, batch)
        decreases !ok, left, if head == awaiters then 0 else 1
      {
        left := if left > 0 then left - 1 else 0;
        head := observed;
        Link(first, last, head, batch);
        ok, observed := CompareExchange(head, first, left > 0, batch);
      }
    }

    /** Put a private list back while another one is being built or is finished. */
    method PutBackBeside(first: Awaiter, last: Awaiter, expected: Awaiter?, failures: nat, ghost batch: seq<Awaiter>,
                         otherHead: Awaiter?, ghost otherTail: Awaiter?, ghost other: seq<Awaiter>, ghost end: Awaiter?)
      requires Valid() && Apart(batch, other, list) && batch != [] && Building(first, last, batch)
      requires Building(otherHead, otherTail, other) && (other != [] ==> otherTail.next == end)
      modifies this, last`next
      ensures Valid() && list == batch + old(list)
      ensures Building(otherHead, otherTail, other) && (other != [] ==> otherTail.next == end)
    {
      TailInside(first, last, batch);
      assert forall i :: 0 <= i < |other| ==> other[i] != last;
      PutBack(first, last, expected, failures, batch);
    }

    /** The rest of `publish` once it has taken the list. */
    method PublishTaken(head: Awaiter, number: Sequence, failures: nat, ghost taken: seq<Awaiter>)
        returns (resume: Awaiter?, ghost resumed: seq<Awaiter>)
      requires Valid() && list == [] && taken != [] && Distinct(taken) && ListFrom(head, taken, null)
      modifies this, taken`next
      ensures Valid() && list == Filter(taken, Pending(number))
      ensures resumed == Filter(taken, Not(Pending(number))) && ListFrom(resume, resumed, null)
    {
      var requeue, requeueTail;
      ghost var kept;
      requeue, requeueTail, resume, kept, resumed := PublishSplit(head, number, taken);
      if requeue != null {
        SplitApart(taken, Pending(number), [], kept, resumed);
        PutBackBeside(requeue, requeueTail, null, failures, kept,
                      resume, if resumed == [] then null else resumed[|resumed| - 1], resumed, null);
      }
    }

    /** Resume a private list; nothing happens to the shared one. */
    method ResumeBeside(head: Awaiter?, number: Sequence, ghost s: seq<Awaiter>)
      requires Valid() && Apart(s, [], list) && ListFrom(head, s, null)
      modifies s`lastKnown, s`flag, s`continued
      ensures Valid()
      ensures forall x | x in s ::
        x.lastKnown == number && x.flag && x.continued == old(x.continued) + if old(x.flag) then 1 else 0
      ensures forall x | x in list :: unchanged(x`lastKnown, x`flag, x`continued)
    {
      ResumeAll(head, number, s);
    }

    /** `publish` up to its resume loop. */
    method PublishLists(number: Sequence, failures: nat) returns (resume: Awaiter?, ghost resumed: seq<Awaiter>)
      requires Valid()
      modifies this, list`next
      ensures Valid() && list == Filter(old(list), Pending(number))
      ensures resumed == Filter(old(list), Not(Pending(number))) && ListFrom(resume, resumed, null)
      ensures Apart(resumed, [], list)
      ensures forall x | x in resumed || x in list :: x in old(list)
    {
      resume, resumed := null, [];
      if awaiters == null {
        return;
      }
      var head, taken := Exchange();
      resume, resumed := PublishTaken(head, number, failures, taken);
      SplitApart(taken, Pending(number), [], list, resumed);
    }

    /**
      `publish` alone on the barrier: what the number has not reached stays on the list, in order and untouched; the
      others are told the number and resumed, once, which continues the coroutines that had already asked.
     */
    method Publish(number: Sequence, failures: nat) returns (ghost resumed: seq<Awaiter>)
      requires Valid()
      modifies this, list
      ensures Valid() && list == Filter(old(list), Pending(number))
      ensures resumed == Filter(old(list), Not(Pending(number)))
      ensures forall x | x in resumed ::
        x.lastKnown == number && x.flag && x.continued == old(x.continued) + if old(x.flag) then 1 else 0
      ensures forall x | x in list :: unchanged(x`lastKnown, x`flag, x`continued)
    {
      var resume;
      resume, resumed := PublishLists(number, failures);
      ResumeBeside(resume, number, resumed);
    }

    /** The part of a pass of `add_awaiter` that takes the list again: the nearest target put back is still ahead. */
    method Retake(number: Sequence, resumeHead: Awaiter?, resumeLast: Awaiter?, ghost before: seq<Awaiter>)
        returns (requeue: Awaiter?, requeueTail: Awaiter?, ghost a: seq<Awaiter>,
                 resume: Awaiter?, resumeTail: Awaiter?, ghost b: seq<Awaiter>, earliest: Sequence)
      requires Valid() && Apart(before, [], list) && Building(resumeHead, resumeLast, before)
      modifies this, list`next, before`next
      ensures Valid() && list == [] && Apart(a, b, [])
      ensures a == Filter(old(list), Ahead(number)) && b == before + Filter(old(list), Not(Ahead(number)))
      ensures forall x | x in a :: x in old(list)
      ensures forall x | x in b :: x in before || x in old(list)
      ensures (requeue == null <==> a == []) && (a != [] ==> Building(requeue, requeueTail, a))
      ensures Building(resume, resumeTail, b)
      ensures a != [] ==> Precedes(number, earliest)
    {
      var head, taken := Exchange();
      requeue, requeueTail, a, resume, resumeTail, b, earliest := AddSplit(head, number, resumeHead, resumeLast, taken, before);
      SplitApart(taken, Ahead(number), before, a, b);
      if a != [] {
        ghost var x :| x in a && x.target == earliest;
        assert Ahead(number)(x);
        KeptIsAhead(number, earliest);
      }
    }

    /**
      One pass of `add_awaiter`: put the private list on the shared one, and take and split it all if the number has
      reached the earliest target just put back.
     */
    method Pass(number: Sequence, failures: nat, first: Awaiter, last: Awaiter, ghost batch: seq<Awaiter>,
                resumeHead: Awaiter?, resumeLast: Awaiter?, ghost before: seq<Awaiter>, target: Sequence)
        returns (reached: bool, requeue: Awaiter?, requeueTail: Awaiter?, ghost a: seq<Awaiter>,
                 resume: Awaiter?, resumeTail: Awaiter?, ghost b: seq<Awaiter>, earliest: Sequence)
      requires Valid() && Apart(batch, before, list) && batch != [] && Building(first, last, batch)
      requires Building(resumeHead, resumeLast, before)
      modifies this, list`next, batch`next, before`next
      ensures Valid() && Building(resume, resumeTail, b) && reached == !Precedes(number, target)
      ensures !reached ==> list == batch + old(list) && b == before && Apart(b, [], list)
      ensures reached ==> Split(number, batch + old(list), before, a, b) && list == [] && Apart(a, b, [])
      ensures reached ==> (requeue == null <==> a == []) && (a != [] ==> Building(requeue, requeueTail, a))
      ensures reached && a != [] ==> Precedes(number, earliest)
      ensures forall x | x in b :: x in before || x in batch + old(list)
      ensures reached ==> forall x | x in a :: x in batch + old(list)
    {
      PutBackBeside(first, last, awaiters, failures, batch, resumeHead, resumeLast, before,
                    if resumeLast == null then null else resumeLast.next);
      reached := !Precedes(number, target);
      if reached {
        requeue, requeueTail, a, resume, resumeTail, b, earliest := Retake(number, resumeHead, resumeLast, before);
      } else {
        requeue, requeueTail, a, resume, resumeTail, b, earliest := null, null, [], resumeHead, resumeLast, before, target;
      }
    }

    /** Null-terminate a private list. */
    method TerminateBeside(head: Awaiter?, tail: Awaiter?, ghost s: seq<Awaiter>) returns (newHead: Awaiter?)
      requires Valid() && Apart(s, [], list) && Building(head, tail, s)
      modifies Only(tail)`next
      ensures Valid() && ListFrom(newHead, s, null)
    {
      TailInside(head, tail, s);
      assert forall i :: 0 <= i < |list| ==> list[i] != tail;
      newHead := Terminate(head, tail, s);
    }

    /** The passes of `add_awaiter`, before the list to resume is terminated. */
    method PassLoop(awaiter: Awaiter, number: Sequence, failures: nat)
        returns (resume: Awaiter?, resumeTail: Awaiter?, ghost resumed: seq<Awaiter>)
      requires Valid() && awaiter !in list
      modifies this, list`next, awaiter`next
      ensures Valid() && Building(resume, resumeTail, resumed) && Apart(resumed, [], list)
      ensures Added(number, awaiter, [awaiter] + old(list), list, resumed)
      ensures forall x | x in resumed :: x == awaiter || x in old(list)
    {
      ghost var all := [awaiter] + list;
      var target := awaiter.target;
      var requeue, requeueTail: Awaiter? := awaiter, awaiter;
      ghost var kept := [awaiter];
      resume, resumeTail, resumed := null, null, [];
      ghost var second := false;
      while requeue != null
        invariant Valid() && Building(resume, resumeTail, resumed) && Apart(kept, resumed, list)
        invariant requeue == null <==> kept == []
        invariant kept != [] ==> Building(requeue, requeueTail, kept)
        invariant !second ==> kept == [awaiter] && resumed == [] && list == old(list) && target == awaiter.target
        invariant second ==> SecondPass(all, awaiter, number, target, kept, resumed) && list == []
        decreases !second
      {
        var reached;
        reached, requeue, requeueTail, kept, resume, resumeTail, resumed, target :=
          Pass(number, failures, requeue, requeueTail, kept, resume, resumeTail, resumed, target);
        if !reached {
          break;
        }
        second := true;
      }
    }

    /** The passes of `add_awaiter`, and the null at the end of the list to resume. */
    method Passes(awaiter: Awaiter, number: Sequence, failures: nat)
        returns (resume: Awaiter?, ghost resumed: seq<Awaiter>)
      requires Valid() && awaiter !in list
      modifies this, list`next, awaiter`next
      ensures Valid() && Added(number, awaiter, [awaiter] + old(list), list, resumed)
      ensures ListFrom(resume, resumed, null) && Apart(resumed, [], list)
      ensures forall x | x in resumed || x in list :: x in [awaiter] + old(list)
    {
      ghost var all := [awaiter] + list;
      var tail;
      resume, tail, resumed := PassLoop(awaiter, number, failures);
      AddedInside(number, awaiter, all, list, resumed);
      TailInside(resume, tail, resumed);
      resume := TerminateBeside(resume, tail, resumed);
    }

    /** `add_awaiter` up to its resume loop, which touches no handshake. */
    method AddLists(awaiter: Awaiter, number: Sequence, failures: nat)
        returns (resume: Awaiter?, ghost resumed: seq<Awaiter>)
      requires Valid() && awaiter !in list
      modifies this, list`next, awaiter`next
      ensures Valid() && Added(number, awaiter, [awaiter] + old(list), list, resumed)
      ensures ListFrom(resume, resumed, null) && Apart(resumed, [], list)
      ensures forall x | x in resumed || x in list :: x in [awaiter] + old(list)
      ensures forall x | x in resumed || x in list :: unchanged(x`lastKnown, x`flag, x`continued)
    {
      resume, resumed := Passes(awaiter, number, failures);
    }

    /**
      `add_awaiter` alone on the barrier whose last number is `number`: the operation joins the list, and if its number
      is already out the list is taken and split, and what the number has reached is resumed, once.
     */
    method AddAwaiter(awaiter: Awaiter, number: Sequence, failures: nat) returns (ghost resumed: seq<Awaiter>)
      requires Valid() && awaiter !in list
      modifies this, list, awaiter
      ensures Valid() && Added(number, awaiter, [awaiter] + old(list), list, resumed)
      ensures forall x | x in resumed ::
        x.lastKnown == number && x.flag && x.continued == old(x.continued) + if old(x.flag) then 1 else 0
      ensures forall x | x in list :: unchanged(x`lastKnown, x`flag, x`continued)
    {
      var resume;
      resume, resumed := AddLists(awaiter, number, failures);
      ResumeBeside(resume, number, resumed);
    }
  }
}

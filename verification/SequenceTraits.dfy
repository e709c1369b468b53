/**
  The modular order on sequence numbers. A sequence number is a `std::size_t`; the model gives each
  number an unbounded position and `Wrap` is the word that the barrier stores for it.
 */
module SequenceTraits {

  const RANGE: int := 0x1_0000_0000_0000_0000
  const HALF: int := 0x8000_0000_0000_0000

  type Sequence = n: int | 0 <= n < RANGE

  function Wrap(position: int): Sequence { position % RANGE }

  /** The unsigned difference of two words, reread as a signed word. */
  function Difference(a: Sequence, b: Sequence): (d: int)
    ensures -HALF <= d < HALF
  {
    var u := (a - b) % RANGE;
    if u < HALF then u else u - RANGE
  }

  predicate Precedes(a: Sequence, b: Sequence) {
    Difference(a, b) < 0
  }

  /** The split test of `publish`: the number precedes the target, so its waiter is put back. */
  predicate PublishKeeps(number: Sequence, target: Sequence) { Precedes(number, target) }

  /** The split test of `add_awaiter`: the signed distance to the target is positive. */
  predicate AddKeeps(number: Sequence, target: Sequence) { Difference(target, number) > 0 }

  lemma ModUnique(n: int, q: int, r: int)
    requires n == q * RANGE + r && 0 <= r < RANGE
    ensures n % RANGE == r
  {
  }

  lemma ModShift(u: int, k: int)
    ensures (u + k * RANGE) % RANGE == u % RANGE
  {
    var q, r := u / RANGE, u % RANGE;
    assert u + k * RANGE == (q + k) * RANGE + r;
    ModUnique(u + k * RANGE, q + k, r);
  }

  lemma WrapDifference(a: int, b: int)
    ensures (Wrap(a) - Wrap(b)) % RANGE == (a - b) % RANGE
  {
    var qa, qb := a / RANGE, b / RANGE;
    var u := Wrap(a) - Wrap(b);
    assert a - b == u + (qa - qb) * RANGE;
    ModShift(u, qa - qb);
  }

  /** The signed difference of the words is the difference of the positions exactly inside half the range. */
  lemma DifferenceExact(a: int, b: int)
    ensures Difference(Wrap(a), Wrap(b)) == a - b <==> -HALF <= a - b < HALF
  {
    WrapDifference(a, b);
    if 0 <= a - b < HALF {
      ModUnique(a - b, 0, a - b);
    } else if -HALF <= a - b < 0 {
      ModUnique(a - b, -1, a - b + RANGE);
    }
  }

  /** `precedes` decides the order of two positions less than half the range apart. */
  lemma PrecedesIsOrder(a: int, b: int)
    requires -HALF < a - b < HALF
    ensures Precedes(Wrap(a), Wrap(b)) <==> a < b
    ensures Precedes(Wrap(b), Wrap(a)) <==> b < a
  {
    DifferenceExact(a, b);
    DifferenceExact(b, a);
  }

  /** What `add_awaiter` puts back has a target that the number precedes. */
  lemma KeptIsAhead(number: Sequence, target: Sequence)
    requires AddKeeps(number, target)
    ensures Precedes(number, target)
  {
    var u := Difference(target, number);
    ModUnique(number - target, -((target - number) / RANGE) - 1, RANGE - u);
  }

  /** Within one full range, `precedes` is right about two positions iff they are in half the range. */
  lemma PrecedesExact(a: int, b: int)
    requires -RANGE < a - b < RANGE
    ensures (Precedes(Wrap(a), Wrap(b)) <==> a < b) <==> -HALF <= a - b < HALF
  {
    WrapDifference(a, b);
    if 0 <= a - b {
      ModUnique(a - b, 0, a - b);
    } else {
      ModUnique(a - b, -1, a - b + RANGE);
    }
  }

  /** At a distance of exactly half the range each of the two numbers precedes the other. */
  lemma PrecedesNotAntisymmetric()
    ensures Precedes(Wrap(0), Wrap(HALF)) && Precedes(Wrap(HALF), Wrap(0))
  {
  }

  lemma WrapAdd(position: int, delta: int)
    ensures Wrap(Wrap(position) + delta) == Wrap(position + delta)
  {
    assert position + delta == Wrap(position) + delta + (position / RANGE) * RANGE;
    ModShift(Wrap(position) + delta, position / RANGE);
  }
}

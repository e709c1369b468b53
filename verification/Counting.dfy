/** Counting the entries of a map that satisfy a predicate, while entries are put and removed. */
module Counting {

  function Matching<V>(m: map<int, V>, p: V -> bool): set<int> { set k | k in m && p(m[k]) }

  /** How many of the entries there are. */
  function Total<V>(m: map<int, V>, p: V -> bool): nat { |Matching(m, p)| }

  function One<V>(m: map<int, V>, k: int, p: V -> bool): nat { if k in m && p(m[k]) then 1 else 0 }

  lemma SubsetSize<T>(a: set<T>, b: set<T>)
    requires a <= b
    ensures |a| <= |b|
  {
    assert b == a + (b - a);
  }

  lemma OneSize<T>(a: set<T>, x: T)
    ensures |a + {x}| == |a| + if x in a then 0 else 1
    ensures |a - {x}| == |a| - if x in a then 1 else 0
  {
    if x in a {
      assert a + {x} == a;
    }
  }

  lemma PutMatching<V>(m: map<int, V>, k: int, v: V, p: V -> bool)
    ensures Matching(m[k := v], p) == Matching(m, p) - {k} + if p(v) then {k} else {}
  {
    var b := Matching(m, p) - {k} + if p(v) then {k} else {};
    forall x ensures x in Matching(m[k := v], p) <==> x in b {
      assert x != k ==> (x in m[k := v] <==> x in m);
    }
  }

  lemma PutTotal<V>(m: map<int, V>, k: int, v: V, p: V -> bool)
    ensures Total(m[k := v], p) == Total(m, p) - One(m, k, p) + if p(v) then 1 else 0
  {
    var a := Matching(m, p);
    OneSize(a, k);
    OneSize(a - {k}, k);
    PutMatching(m, k, v, p);
  }

  lemma RemoveTotal<V>(m: map<int, V>, k: int, p: V -> bool)
    ensures Total(m - {k}, p) == Total(m, p) - One(m, k, p)
  {
    var a := Matching(m, p);
    OneSize(a, k);
    assert Matching(m - {k}, p) == a - {k};
  }

  /** An entry that matches is counted, and one that does not is not. */
  lemma TotalBounds<V>(m: map<int, V>, k: int, p: V -> bool)
    requires k in m
    ensures p(m[k]) ==> 1 <= Total(m, p)
    ensures Total(m, p) + (if p(m[k]) then 0 else 1) <= |m|
  {
    var a := Matching(m, p);
    OneSize(a, k);
    SubsetSize(a + {k}, m.Keys);
  }

  lemma TotalBounded<V>(m: map<int, V>, p: V -> bool)
    ensures Total(m, p) <= |m|
  {
    SubsetSize(Matching(m, p), m.Keys);
  }

  lemma NoneMatch<V>(m: map<int, V>, p: V -> bool)
    ensures Total(m, p) == 0 <==> forall k | k in m :: !p(m[k])
  {
    if k :| k in m && p(m[k]) {
      TotalBounds(m, k, p);
    } else {
      forall x ensures x !in Matching(m, p) {
        assert !(x in m && p(m[x]));
      }
      var none: set<int> := {};
      SubsetSize(Matching(m, p), none);
    }
  }

  lemma PutSize<V>(m: map<int, V>, k: int, v: V)
    ensures |m[k := v]| == |m| + if k in m then 0 else 1
  {
    assert m[k := v].Keys == m.Keys + {k};
    OneSize(m.Keys, k);
  }
}

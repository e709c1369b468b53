/** The compile-time list functions: recursive template specialisations as recursive functions on sequences. */
module TypeLists {
  import opened Lists

  // ---------------------------------------------------------------- slices

  function Tail<T>(s: seq<T>): seq<T> { if s == [] then [] else s[1..] }

  /** `tl_slice_impl`: drop from the left, then take, padding when the list is exhausted. */
  function SliceImpl<T>(left: nat, remaining: nat, pad: T, list: seq<T>, taken: seq<T>): seq<T>
    decreases left, remaining
  {
    if left > 0 then SliceImpl(left - 1, remaining, pad, Tail(list), taken)
    else if remaining == 0 then taken
    else if list == [] then SliceImpl(0, remaining - 1, pad, list, taken + [pad])
    else SliceImpl(0, remaining - 1, pad, Tail(list), taken + [list[0]])
  }

  /** `tl_slice` with the pad type of the caller. */
  function Slice<T>(list: seq<T>, first: nat, last: nat, pad: T): seq<T> {
    var from := if first > last then last else first;
    if from == 0 && last == |list| then list else SliceImpl(from, last - from, pad, list, [])
  }

  function PopBack<T>(list: seq<T>, pad: T): seq<T> {
    if list == [] then [] else Slice(list, 0, |list| - 1, pad)
  }

  /** The list, padded for ever, from one place on. */
  function Padded<T>(list: seq<T>, first: nat, count: nat, pad: T): seq<T> {
    seq(count, i requires i >= 0 => if first + i < |list| then list[first + i] else pad)
  }

  lemma {:induction false} SliceImplExact<T>(left: nat, remaining: nat, pad: T, list: seq<T>, taken: seq<T>)
    ensures SliceImpl(left, remaining, pad, list, taken) == taken + Padded(list, left, remaining, pad)
    decreases left, remaining
  {
    if left > 0 {
      SliceImplExact(left - 1, remaining, pad, Tail(list), taken);
      assert Padded(Tail(list), left - 1, remaining, pad) == Padded(list, left, remaining, pad);
    } else if remaining > 0 {
      var x := if list == [] then pad else list[0];
      SliceImplExact(0, remaining - 1, pad, Tail(list), taken + [x]);
      assert Padded(list, 0, remaining, pad) == [x] + Padded(Tail(list), 0, remaining - 1, pad);
    }
  }

  /** A slice has the elements from `first` up to `last`, with the pad type in the places past the end. */
  lemma SliceExact<T>(list: seq<T>, first: nat, last: nat, pad: T)
    ensures var r := Slice(list, first, last, pad);
            && |r| == (if first > last then 0 else last - first)
            && forall i :: 0 <= i < |r| ==> r[i] == if first + i < |list| then list[first + i] else pad
  {
    var from := if first > last then last else first;
    SliceImplExact(from, last - from, pad, list, []);
  }

  lemma PopBackExact<T>(list: seq<T>, pad: T)
    ensures list != [] ==> PopBack(list, pad) == list[..|list| - 1]
  {
    if list != [] {
      SliceExact(list, 0, |list| - 1, pad);
    }
  }

  // ---------------------------------------------------------------- distinct

  function Differs<T(==)>(t: T): T -> bool { x => x != t }

  /** `tl_filter_type`, which keeps what differs from the type. */
  function FilterType<T(==)>(list: seq<T>, t: T): seq<T> { Filter(list, Differs(t)) }

  function Equals<T(==)>(t: T): T -> bool { x => x == t }

  /** What `tl_filter_type` is documented to keep. */
  function KeepType<T(==)>(list: seq<T>, t: T): seq<T> { Filter(list, Equals(t)) }

  /** The code does what its documentation says on the empty list only. */
  lemma FilterTypeKeepsOnlyNothing<T>(list: seq<T>, t: T)
    ensures FilterType(list, t) == KeepType(list, t) <==> list == []
  {
    if list == [] {
    } else {
      assert list[0] in list;
      assert list[0] == t <==> list[0] in KeepType(list, t);
      assert list[0] != t <==> list[0] in FilterType(list, t);
    }
  }

  /** `tl_distinct`. */
  function TlDistinct<T(==)>(list: seq<T>): seq<T>
    decreases |list|
  {
    if list == [] then [] else [list[0]] + TlDistinct(FilterType(list[1..], list[0]))
  }

  /** The elements in the order in which they first occur. */
  function FirstOccurrences<T(==)>(list: seq<T>): seq<T> {
    if list == [] then []
    else
      var before, last := list[..|list| - 1], list[|list| - 1];
      FirstOccurrences(before) + if last in before then [] else [last]
  }

  lemma {:induction false} FirstMembers<T>(list: seq<T>)
    ensures forall x :: x in FirstOccurrences(list) <==> x in list
    ensures Distinct(FirstOccurrences(list))
  {
    if list == [] {
    } else {
      var before, last := list[..|list| - 1], list[|list| - 1];
      FirstMembers(before);
      assert list == before + [last];
    }
  }

  lemma FirstOccurrencesSnoc<T>(before: seq<T>, last: T)
    ensures FirstOccurrences(before + [last]) == FirstOccurrences(before) + if last in before then [] else [last]
  {
    assert (before + [last])[..|before|] == before;
  }

  lemma LastKept<T>(x: T, before: seq<T>, last: T, kept: seq<T>)
    requires kept == Filter(before, Differs(x))
    ensures Filter(before + [last], Differs(x)) == if last == x then kept else kept + [last]
    ensures last in [x] + before <==> last == x || last in kept
  {
    FilterSnoc(before, last, Differs(x));
    assert kept + [] == kept;
  }

  /** The head comes first, and then what the rest has besides it. */
  lemma {:induction false} FirstOccurrencesCons<T>(x: T, rest: seq<T>)
    ensures FirstOccurrences([x] + rest) == [x] + FirstOccurrences(Filter(rest, Differs(x)))
    decreases |rest|
  {
    if rest == [] {
      assert [x] + rest == [] + [x];
      FirstOccurrencesSnoc([], x);
    } else {
      var before, last := rest[..|rest| - 1], rest[|rest| - 1];
      assert rest == before + [last];
      assert [x] + rest == ([x] + before) + [last];
      FirstOccurrencesCons(x, before);
      FirstOccurrencesSnoc([x] + before, last);
      var kept := Filter(before, Differs(x));
      LastKept(x, before, last, kept);
      FirstOccurrencesSnoc(kept, last);
      ConcatAssociates([x], FirstOccurrences(kept), if last in [x] + before then [] else [last]);
    }
  }

  /** `tl_distinct` lists every element once, in the order of first occurrence. */
  lemma {:induction false} DistinctExact<T>(list: seq<T>)
    ensures TlDistinct(list) == FirstOccurrences(list)
    decreases |list|
  {
    if list == [] {
    } else {
      FirstOccurrencesCons(list[0], list[1..]);
      assert list == [list[0]] + list[1..];
      DistinctExact(FilterType(list[1..], list[0]));
    }
  }

  // ---------------------------------------------------------------- intersection

  /** `tl_count_type`. */
  function Count<T(==)>(list: seq<T>, t: T): nat {
    if list == [] then 0 else (if list[0] == t then 1 else 0) + Count(list[1..], t)
  }

  /** `tl_intersect_impl` on the concatenated lists. */
  function IntersectImpl<T(==)>(list: seq<T>): seq<T>
    decreases |list|
  {
    if list == [] then []
    else if Count(list, list[0]) == 1 then IntersectImpl(list[1..])
    else [list[0]] + IntersectImpl(FilterType(list[1..], list[0]))
  }

  function Intersect<T(==)>(lists: seq<seq<T>>): seq<T> { IntersectImpl(Flatten(lists)) }

  lemma {:induction false} CountFilter<T>(list: seq<T>, t: T, x: T)
    ensures Count(FilterType(list, t), x) == if x == t then 0 else Count(list, x)
  {
    if list == [] {
    } else {
      CountFilter(list[1..], t, x);
    }
  }

  lemma {:induction false} CountPositive<T>(list: seq<T>, x: T)
    ensures Count(list, x) > 0 <==> x in list
  {
    if list == [] {
    } else {
      CountPositive(list[1..], x);
    }
  }

  function Repeated<T(==)>(list: seq<T>): T -> bool { x => Count(list, x) >= 2 }

  lemma {:induction false} AllDiffer<T>(list: seq<T>, x: T)
    requires x !in list
    ensures FilterType(list, x) == list
  {
    if list == [] {
    } else {
      AllDiffer(list[1..], x);
    }
  }

  /** Leaving out the head changes no other count. */
  lemma {:induction false} SameFilter<T>(s: seq<T>, list: seq<T>, others: seq<T>, x: T)
    requires list != [] && list[0] == x && others == FilterType(list[1..], x)
    requires x !in s
    ensures Filter(s, Repeated(list)) == Filter(s, Repeated(others))
    decreases |s|
  {
    if s == [] {
    } else {
      assert s == [s[0]] + s[1..];
      CountFilter(list[1..], x, s[0]);
      SameFilter(s[1..], list, others, x);
    }
  }

  /** The intersection has the elements that occur at least twice, in the order of first occurrence. */
  lemma {:induction false} IntersectExact<T>(list: seq<T>)
    ensures IntersectImpl(list) == Filter(FirstOccurrences(list), Repeated(list))
    decreases |list|
  {
    if list == [] {
    } else {
      var x, rest := list[0], list[1..];
      var others := FilterType(rest, x);
      assert list == [x] + rest;
      FirstOccurrencesCons(x, rest);
      CountPositive(rest, x);
      if Count(list, x) == 1 {
        AllDiffer(rest, x);
        IntersectExact(rest);
      } else {
        IntersectExact(others);
      }
      FirstMembers(others);
      assert x !in others;
      SameFilter(FirstOccurrences(others), list, others, x);
      assert ([x] + FirstOccurrences(others))[1..] == FirstOccurrences(others);
    }
  }

  lemma IntersectMembers<T>(lists: seq<seq<T>>, x: T)
    ensures x in Intersect(lists) <==> Count(Flatten(lists), x) >= 2
    ensures Distinct(Intersect(lists))
  {
    var list := Flatten(lists);
    IntersectExact(list);
    FirstMembers(list);
    FilterDistinct(FirstOccurrences(list), Repeated(list));
    CountPositive(list, x);
  }

  lemma FlattenTwo<T>(a: seq<T>, b: seq<T>)
    ensures Flatten([a, b]) == a + b
  {
    assert [a, b][1..] == [b] && [b][1..] == [];
    assert Flatten([b]) == b + Flatten<T>([]) == b;
  }

  function In<T(==)>(list: seq<T>): T -> bool { x => x in list }

  lemma {:induction false} CountConcat<T>(a: seq<T>, b: seq<T>, x: T)
    ensures Count(a + b, x) == Count(a, x) + Count(b, x)
  {
    if a == [] {
      assert a + b == b;
    } else {
      CountConcat(a[1..], b, x);
      assert (a + b)[1..] == a[1..] + b;
    }
  }

  lemma {:induction false} CountOfDistinct<T>(a: seq<T>, x: T)
    requires Distinct(a)
    ensures Count(a, x) == if x in a then 1 else 0
  {
    if a == [] {
    } else {
      CountOfDistinct(a[1..], x);
      assert a[0] !in a[1..];
      assert a == [a[0]] + a[1..];
    }
  }

  lemma CountDistinct<T>(a: seq<T>, b: seq<T>, x: T)
    requires Distinct(a) && Distinct(b) && x in a
    ensures Count(a + b, x) == if x in b then 2 else 1
  {
    CountConcat(a, b, x);
    CountOfDistinct(a, x);
    CountOfDistinct(b, x);
  }

  lemma {:induction false} FilterBoth<T>(a: seq<T>, b: seq<T>, x: T)
    ensures FilterType(a + b, x) == FilterType(a, x) + FilterType(b, x)
  {
    if a == [] {
      assert a + b == b;
    } else {
      FilterBoth(a[1..], b, x);
      assert (a + b)[1..] == a[1..] + b;
    }
  }

  lemma {:induction false} NoneRepeated<T>(b: seq<T>)
    requires Distinct(b)
    ensures IntersectImpl(b) == []
    decreases |b|
  {
    if b == [] {
    } else {
      CountOfDistinct(b, b[0]);
      NoneRepeated(b[1..]);
    }
  }

  lemma {:induction false} SameIn<T>(rest: seq<T>, b: seq<T>, x: T)
    requires x !in rest
    ensures Filter(rest, In(FilterType(b, x))) == Filter(rest, In(b))
  {
    if rest == [] {
    } else {
      SameIn(rest[1..], b, x);
    }
  }

  lemma {:induction false} CommonElements<T>(a: seq<T>, b: seq<T>)
    requires Distinct(a) && Distinct(b)
    ensures IntersectImpl(a + b) == Filter(a, In(b))
    decreases |a|
  {
    if a == [] {
      assert a + b == b;
      NoneRepeated(b);
    } else {
      var x, rest := a[0], a[1..];
      assert (a + b)[0] == x && (a + b)[1..] == rest + b;
      assert x !in rest;
      CountDistinct(a, b, x);
      if x in b {
        FilterBoth(rest, b, x);
        FilterDistinct(b, Differs(x));
        AllDiffer(rest, x);
        CommonElements(rest, FilterType(b, x));
        SameIn(rest, b, x);
      } else {
        CommonElements(rest, b);
      }
    }
  }

  /** Of two lists without duplicates, the intersection has the common elements in the order of the first. */
  lemma IntersectOfTwo<T>(a: seq<T>, b: seq<T>)
    requires Distinct(a) && Distinct(b)
    ensures Intersect([a, b]) == Filter(a, In(b))
  {
    FlattenTwo(a, b);
    CommonElements(a, b);
  }

  // ---------------------------------------------------------------- grouping

  /** What a predicate of two types may be given: types, lists of them, and the structs `tl_head` and `tl_back`. */
  datatype Type = Named(id: int) | TypeList(list: seq<Type>) | TlHead(list: seq<Type>) | TlBack(list: seq<Type>)

  const UNIT: Type := Named(-1)

  /** `tl_group_by_impl`: the predicate is applied to the structs that would select the types. */
  function GroupByImpl(input: seq<Type>, output: seq<seq<Type>>, pred: (Type, Type) -> bool): seq<seq<Type>>
    decreases |input|
  {
    if input == [] then output
    else if output == [] then GroupByImpl(input[1..], [[input[0]]], pred)
    else
      var last := output[|output| - 1];
      var suffix := if pred(TlHead(input), TlBack(last)) then [last + [input[0]]] else [last, [input[0]]];
      GroupByImpl(input[1..], PopBack(output, [UNIT]) + suffix, pred)
  }

  function GroupBy(input: seq<Type>, pred: (Type, Type) -> bool): seq<seq<Type>> { GroupByImpl(input, [], pred) }

  ghost predicate NoneEmpty(groups: seq<seq<Type>>) { forall g | g in groups :: g != [] }

  /** One step appends one type to the groups made so far. */
  lemma GroupStep(output: seq<seq<Type>>, x: Type, joins: bool)
    requires output != [] && NoneEmpty(output)
    ensures var last := output[|output| - 1];
            var next := PopBack(output, [UNIT]) + if joins then [last + [x]] else [last, [x]];
            NoneEmpty(next) && next != [] && Flatten(next) == Flatten(output) + [x]
  {
    var before, last := output[..|output| - 1], output[|output| - 1];
    PopBackExact(output, [UNIT]);
    assert output == before + [last];
    FlattenAppend(before, last);
    if joins {
      FlattenAppend(before, last + [x]);
      forall g | g in before + [last + [x]] ensures g != [] {
        assert g in before ==> g in output;
      }
      ConcatAssociates(Flatten(before), last, [x]);
    } else {
      FlattenAppend(before + [last], [x]);
      assert before + [last, [x]] == before + [last] + [[x]];
    }
  }

  lemma {:induction false} GroupByImplKeeps(input: seq<Type>, output: seq<seq<Type>>, pred: (Type, Type) -> bool)
    requires NoneEmpty(output)
    ensures NoneEmpty(GroupByImpl(input, output, pred))
    ensures Flatten(GroupByImpl(input, output, pred)) == Flatten(output) + input
    decreases |input|
  {
    if input == [] {
      assert Flatten(output) + input == Flatten(output);
    } else {
      var x := input[0];
      assert input == [x] + input[1..];
      if output == [] {
        GroupByImplKeeps(input[1..], [[x]], pred);
        assert [[x]][1..] == [] && Flatten([[x]]) == [x];
      } else {
        var last := output[|output| - 1];
        var joins := pred(TlHead(input), TlBack(last));
        GroupStep(output, x, joins);
        var next := PopBack(output, [UNIT]) + if joins then [last + [x]] else [last, [x]];
        GroupByImplKeeps(input[1..], next, pred);
        ConcatAssociates(Flatten(output), [x], input[1..]);
      }
    }
  }

  /** For every predicate the groups are not empty and concatenate back to the list. */
  lemma GroupsCover(input: seq<Type>, pred: (Type, Type) -> bool)
    ensures NoneEmpty(GroupBy(input, pred)) && Flatten(GroupBy(input, pred)) == input
  {
    GroupByImplKeeps(input, [], pred);
    assert [] + input == input;
  }

  // ---------------------------------------------------------------- where groups begin

  /** Whether the next type joins the group so far, given the rest of the input. */
  type Decision = (seq<Type>, seq<Type>) -> bool

  /** What the code decides, from the structs, and what the predicate says of the types they select. */
  function OnStructs(pred: (Type, Type) -> bool): Decision {
    (rest: seq<Type>, group: seq<Type>) => pred(TlHead(rest), TlBack(group))
  }

  function OnTypes(pred: (Type, Type) -> bool): Decision {
    (rest: seq<Type>, group: seq<Type>) => rest != [] && group != [] && pred(rest[0], group[|group| - 1])
  }

  /** The grouping that a decision makes: go on with a group that is not finished. */
  function Continue(group: seq<Type>, rest: seq<Type>, joins: Decision): (groups: seq<seq<Type>>)
    ensures groups != [] && |groups[0]| >= |group|
    decreases |rest|
  {
    if rest == [] then [group]
    else if joins(rest, group) then Continue(group + [rest[0]], rest[1..], joins)
    else [group] + Continue([rest[0]], rest[1..], joins)
  }

  function Grouping(input: seq<Type>, joins: Decision): seq<seq<Type>> {
    if input == [] then [] else Continue([input[0]], input[1..], joins)
  }

  /** What `tl_group_by` is meant to give: the predicate sees the next type and the last one of the group. */
  function Intended(input: seq<Type>, pred: (Type, Type) -> bool): seq<seq<Type>> { Grouping(input, OnTypes(pred)) }

  lemma {:induction false} GroupByImplContinues(input: seq<Type>, before: seq<seq<Type>>, group: seq<Type>,
                                                pred: (Type, Type) -> bool)
    ensures GroupByImpl(input, before + [group], pred) == before + Continue(group, input, OnStructs(pred))
    decreases |input|
  {
    var output := before + [group];
    PopBackExact(output, [UNIT]);
    assert output[..|output| - 1] == before;
    if input == [] {
    } else if pred(TlHead(input), TlBack(group)) {
      GroupByImplContinues(input[1..], before, group + [input[0]], pred);
    } else {
      assert before + [group, [input[0]]] == output + [[input[0]]];
      GroupByImplContinues(input[1..], output, [input[0]], pred);
      ConcatAssociates(before, [group], Continue([input[0]], input[1..], OnStructs(pred)));
    }
  }

  lemma GroupByDecides(input: seq<Type>, pred: (Type, Type) -> bool)
    ensures GroupBy(input, pred) == Grouping(input, OnStructs(pred))
  {
    if input == [] {
    } else {
      assert [] + [[input[0]]] == [[input[0]]];
      GroupByImplContinues(input[1..], [], [input[0]], pred);
      assert [] + Grouping(input, OnStructs(pred)) == Grouping(input, OnStructs(pred));
    }
  }

  /**
    The groups are what is left of the input, cut so that every type but the first of a group joins it, and the first
    of the next group does not.
   */
  ghost predicate CutBy(input: seq<Type>, groups: seq<seq<Type>>, joins: Decision)
    decreases |input|
  {
    if input == [] then groups == []
    else
      && groups != [] && groups[0] != [] && groups[0] <= input
      && (forall j :: 0 < j < |groups[0]| ==> joins(input[j..], groups[0][..j]))
      && var rest := input[|groups[0]|..];
      && (rest != [] ==> !joins(rest, groups[0]))
      && CutBy(rest, groups[1..], joins)
  }

  /** The first group made from `group` goes as far as the types join. */
  lemma {:induction false} FirstGroup(group: seq<Type>, rest: seq<Type>, joins: Decision)
    requires group != []
    ensures var groups := Continue(group, rest, joins);
            var n := |groups[0]|;
            && groups[0] <= group + rest && n <= |group| + |rest|
            && (forall j :: |group| <= j < n ==> joins((group + rest)[j..], groups[0][..j]))
            && (n < |group| + |rest| ==> !joins((group + rest)[n..], groups[0]))
            && groups[1..] == Grouping((group + rest)[n..], joins)
    decreases |rest|
  {
    var all := group + rest;
    var groups := Continue(group, rest, joins);
    if rest == [] {
      assert all == group;
    } else if joins(rest, group) {
      var longer := group + [rest[0]];
      assert longer + rest[1..] == all;
      FirstGroup(longer, rest[1..], joins);
      assert all[|group|..] == rest && groups[0][..|group|] == group;
      forall j | |group| <= j < |groups[0]| ensures joins(all[j..], groups[0][..j]) {
      }
    } else {
      assert all[|group|..] == rest;
    }
  }

  lemma {:induction false} GroupingCuts(input: seq<Type>, joins: Decision)
    ensures CutBy(input, Grouping(input, joins), joins)
    decreases |input|
  {
    if input == [] {
    } else {
      assert [input[0]] + input[1..] == input;
      FirstGroup([input[0]], input[1..], joins);
      var n := |Grouping(input, joins)[0]|;
      GroupingCuts(input[n..], joins);
    }
  }

  /** There is one such cut. */
  lemma {:induction false} OneCut(input: seq<Type>, a: seq<seq<Type>>, b: seq<seq<Type>>, joins: Decision)
    requires CutBy(input, a, joins) && CutBy(input, b, joins)
    ensures a == b
    decreases |input|
  {
    if input == [] {
    } else {
      var m, n := |a[0]|, |b[0]|;
      assert m <= n ==> b[0][..m] == a[0];
      assert n <= m ==> a[0][..n] == b[0];
      assert m == n && a[0] == b[0];
      OneCut(input[m..], a[1..], b[1..], joins);
      assert a == [a[0]] + a[1..] && b == [b[0]] + b[1..];
    }
  }

  /**
    For every predicate, `tl_group_by` is the one way to cut the list such that a new group begins exactly where the
    predicate is false of the struct for the rest of the list and the struct for the group so far.
   */
  lemma GroupsBeginExactly(input: seq<Type>, groups: seq<seq<Type>>, pred: (Type, Type) -> bool)
    ensures groups == GroupBy(input, pred) <==> CutBy(input, groups, OnStructs(pred))
  {
    GroupByDecides(input, pred);
    GroupingCuts(input, OnStructs(pred));
    if CutBy(input, groups, OnStructs(pred)) {
      OneCut(input, groups, GroupBy(input, pred), OnStructs(pred));
    }
  }

  // ---------------------------------------------------------------- the intended grouping

  /** Two decisions are the same at every type of the input, along the groups they make. */
  ghost predicate AgreeAlong(group: seq<Type>, rest: seq<Type>, a: Decision, b: Decision)
    decreases |rest|
  {
    rest == []
    || (a(rest, group) == b(rest, group)
        && AgreeAlong(if a(rest, group) then group + [rest[0]] else [rest[0]], rest[1..], a, b))
  }

  lemma {:induction false} SameGroupsWhenAgree(group: seq<Type>, rest: seq<Type>, a: Decision, b: Decision)
    ensures Continue(group, rest, a) == Continue(group, rest, b) <==> AgreeAlong(group, rest, a, b)
    decreases |rest|
  {
    if rest == [] {
    } else if a(rest, group) && b(rest, group) {
      SameGroupsWhenAgree(group + [rest[0]], rest[1..], a, b);
    } else if !a(rest, group) && !b(rest, group) {
      SameGroupsWhenAgree([rest[0]], rest[1..], a, b);
      assert ([group] + Continue([rest[0]], rest[1..], a))[1..] == Continue([rest[0]], rest[1..], a);
      assert ([group] + Continue([rest[0]], rest[1..], b))[1..] == Continue([rest[0]], rest[1..], b);
    } else {
      var joined := Continue(group + [rest[0]], rest[1..], if a(rest, group) then a else b);
      assert |joined[0]| > |group|;
    }
  }

  /** The code groups as intended exactly when the predicate says of the structs what it says of the types. */
  lemma GroupsAsIntended(input: seq<Type>, pred: (Type, Type) -> bool)
    ensures GroupBy(input, pred) == Intended(input, pred) <==>
            input == [] || AgreeAlong([input[0]], input[1..], OnStructs(pred), OnTypes(pred))
  {
    GroupByDecides(input, pred);
    if input == [] {
    } else {
      SameGroupsWhenAgree([input[0]], input[1..], OnStructs(pred), OnTypes(pred));
    }
  }

  function Same(a: Type, b: Type): bool { a == b }

  ghost predicate NeighboursDiffer(input: seq<Type>) {
    forall i :: 0 < i < |input| ==> input[i - 1] != input[i]
  }

  lemma NeighboursOf(x: Type, rest: seq<Type>)
    requires rest != []
    ensures NeighboursDiffer([x] + rest) <==> x != rest[0] && NeighboursDiffer(rest)
  {
    var all := [x] + rest;
    assert all[0] == x && all[1] == rest[0];
    if NeighboursDiffer(all) {
      forall i | 0 < i < |rest| ensures rest[i - 1] != rest[i] {
        assert all[i + 1 - 1] != all[i + 1];
      }
    } else {
      var i :| 0 < i < |all| && all[i - 1] == all[i];
      assert i > 1 ==> rest[i - 2] == rest[i - 1];
    }
  }

  lemma SameDecides(x: Type, rest: seq<Type>)
    requires rest != []
    ensures !OnStructs(Same)(rest, [x])
    ensures OnTypes(Same)(rest, [x]) <==> rest[0] == x
  {
    var same: (Type, Type) -> bool := Same;
    assert !same(TlHead(rest), TlBack([x]));
  }

  lemma {:induction false} AgreeOnSame(x: Type, rest: seq<Type>)
    ensures AgreeAlong([x], rest, OnStructs(Same), OnTypes(Same)) <==> NeighboursDiffer([x] + rest)
    decreases |rest|
  {
    if rest == [] {
    } else {
      NeighboursOf(x, rest);
      SameDecides(x, rest);
      AgreeOnSame(rest[0], rest[1..]);
      assert [rest[0]] + rest[1..] == rest;
    }
  }

  /** Grouping equal neighbours works exactly when there are none. */
  lemma SameGroupsAsIntended(input: seq<Type>)
    ensures GroupBy(input, Same) == Intended(input, Same) <==> NeighboursDiffer(input)
  {
    GroupsAsIntended(input, Same);
    if input == [] {
    } else {
      AgreeOnSame(input[0], input[1..]);
      assert [input[0]] + input[1..] == input;
    }
  }

  function Singletons(input: seq<Type>): seq<seq<Type>> {
    if input == [] then [] else [[input[0]]] + Singletons(input[1..])
  }

  lemma {:induction false} NeverJoins(x: Type, rest: seq<Type>)
    ensures Continue([x], rest, OnStructs(Same)) == Singletons([x] + rest)
    decreases |rest|
  {
    assert ([x] + rest)[1..] == rest;
    if rest == [] {
    } else {
      SameDecides(x, rest);
      NeverJoins(rest[0], rest[1..]);
      assert [rest[0]] + rest[1..] == rest;
    }
  }

  /** The structs are never the same, so comparing them puts every type in a group of its own. */
  lemma SameGroupsNothing(input: seq<Type>)
    ensures GroupBy(input, Same) == Singletons(input)
  {
    GroupByDecides(input, Same);
    if input == [] {
    } else {
      NeverJoins(input[0], input[1..]);
      assert [input[0]] + input[1..] == input;
    }
  }
}

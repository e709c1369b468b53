/** `CycleDep1` and `CycleDep2`, which contain each other: the codec of messages nested to any depth. */
module Cycles {
  import opened Lists
  import opened Wire

  datatype CycleDep1 = CycleDep1(dep: Option<CycleDep2>)
  datatype CycleDep2 = CycleDep2(dep: Option<CycleDep1>)

  function Fields1(m: CycleDep1): seq<Field> {
    match m.dep case None => [] case Some(d) => [Delimited(1, Encode(Fields2(d)))]
  }

  function Fields2(m: CycleDep2): seq<Field> {
    match m.dep case None => [] case Some(d) => [Delimited(1, Encode(Fields1(d)))]
  }

  function Serialize1(m: CycleDep1): bytes { Encode(Fields1(m)) }

  function Serialize2(m: CycleDep2): bytes { Encode(Fields2(m)) }

  /** `_internal_mutable_dep`: the submessage that is there, or a new one. */
  function Mutable2(m: CycleDep1): CycleDep2 { if m.dep.Some? then m.dep.value else CycleDep2(None) }

  function Mutable1(m: CycleDep2): CycleDep1 { if m.dep.Some? then m.dep.value else CycleDep1(None) }

  function Parse1(m: CycleDep1, b: bytes): Option<CycleDep1>
    decreases |b|, 1
  {
    match Decode(b) case None => None case Some(fs) => Fold1(m, fs)
  }

  function Fold1(m: CycleDep1, fs: seq<Field>): Option<CycleDep1>
    decreases TotalWeight(fs), 0
  {
    if fs == [] then Some(m)
    else if fs[0].Delimited? && fs[0].number == 1 then
      match Parse2(Mutable2(m), fs[0].payload)
      case None => None
      case Some(d) => Fold1(CycleDep1(Some(d)), fs[1..])
    else None
  }

  function Parse2(m: CycleDep2, b: bytes): Option<CycleDep2>
    decreases |b|, 1
  {
    match Decode(b) case None => None case Some(fs) => Fold2(m, fs)
  }

  function Fold2(m: CycleDep2, fs: seq<Field>): Option<CycleDep2>
    decreases TotalWeight(fs), 0
  {
    if fs == [] then Some(m)
    else if fs[0].Delimited? && fs[0].number == 1 then
      match Parse1(Mutable1(m), fs[0].payload)
      case None => None
      case Some(d) => Fold2(CycleDep2(Some(d)), fs[1..])
    else None
  }

  function Merge1(m: CycleDep1, from: CycleDep1): CycleDep1
    decreases from
  {
    match from.dep case None => m case Some(d) => CycleDep1(Some(Merge2(Mutable2(m), d)))
  }

  function Merge2(m: CycleDep2, from: CycleDep2): CycleDep2
    decreases from
  {
    match from.dep case None => m case Some(d) => CycleDep2(Some(Merge1(Mutable1(m), d)))
  }

  // ---------------------------------------------------------------- parse is merge

  lemma PayloadShorter(number: nat, payload: bytes)
    ensures |payload| < |Encode([Delimited(number, payload)])|
  {
    assert [Delimited(number, payload)][1..] == [];
  }

  /** Parsing the serialized form of a message of any depth into any other merges it. */
  lemma {:induction false} ParseIsMerge1(m: CycleDep1, from: CycleDep1)
    requires |Serialize1(from)| < MAX_LENGTH
    ensures Parse1(m, Serialize1(from)) == Some(Merge1(m, from))
    decreases from
  {
    if from.dep.Some? {
      var d := from.dep.value;
      PayloadShorter(1, Serialize2(d));
      DecodeEncode(Fields1(from));
      ParseIsMerge2(Mutable2(m), d);
      assert Fields1(from)[1..] == [];
      assert Fold1(m, Fields1(from)) == Fold1(CycleDep1(Some(Merge2(Mutable2(m), d))), []);
    }
  }

  lemma {:induction false} ParseIsMerge2(m: CycleDep2, from: CycleDep2)
    requires |Serialize2(from)| < MAX_LENGTH
    ensures Parse2(m, Serialize2(from)) == Some(Merge2(m, from))
    decreases from
  {
    if from.dep.Some? {
      var d := from.dep.value;
      PayloadShorter(1, Serialize1(d));
      DecodeEncode(Fields2(from));
      ParseIsMerge1(Mutable1(m), d);
      assert Fields2(from)[1..] == [];
      assert Fold2(m, Fields2(from)) == Fold2(CycleDep2(Some(Merge1(Mutable1(m), d))), []);
    }
  }

  lemma {:induction false} Fold1Concat(m: CycleDep1, fs: seq<Field>, gs: seq<Field>)
    requires Fold1(m, fs).Some?
    ensures Fold1(m, fs + gs) == Fold1(Fold1(m, fs).value, gs)
    decreases |fs|
  {
    if fs == [] {
      assert fs + gs == gs;
    } else {
      assert (fs + gs)[0] == fs[0] && (fs + gs)[1..] == fs[1..] + gs;
      Fold1Concat(CycleDep1(Parse2(Mutable2(m), fs[0].payload)), fs[1..], gs);
    }
  }

  function Depth1(m: CycleDep1): nat { match m.dep case None => 0 case Some(d) => 1 + Depth2(d) }

  function Depth2(m: CycleDep2): nat { match m.dep case None => 0 case Some(d) => 1 + Depth1(d) }

  /** A chain is its depth. */
  lemma {:induction false} SameDepth1(a: CycleDep1, b: CycleDep1)
    ensures Depth1(a) == Depth1(b) <==> a == b
    decreases a
  {
    if a.dep.Some? && b.dep.Some? {
      SameDepth2(a.dep.value, b.dep.value);
    }
  }

  lemma {:induction false} SameDepth2(a: CycleDep2, b: CycleDep2)
    ensures Depth2(a) == Depth2(b) <==> a == b
    decreases a
  {
    if a.dep.Some? && b.dep.Some? {
      SameDepth1(a.dep.value, b.dep.value);
    }
  }

  /** Of two chains, merging either into the other gives the longer one. */
  lemma {:induction false} MergeIsLonger1(a: CycleDep1, b: CycleDep1)
    ensures Merge1(a, b) == if Depth1(a) < Depth1(b) then b else a
    decreases b
  {
    SameDepth1(a, CycleDep1(None));
    if b.dep.Some? {
      MergeIsLonger2(Mutable2(a), b.dep.value);
      SameDepth2(Mutable2(a), b.dep.value);
    }
  }

  lemma {:induction false} MergeIsLonger2(a: CycleDep2, b: CycleDep2)
    ensures Merge2(a, b) == if Depth2(a) < Depth2(b) then b else a
    decreases b
  {
    SameDepth2(a, CycleDep2(None));
    if b.dep.Some? {
      MergeIsLonger1(Mutable1(a), b.dep.value);
      SameDepth1(Mutable1(a), b.dep.value);
    }
  }

  /** The bytes of `a` followed by those of `b` parse to the merge of `b` into `a`. */
  lemma CycleConcatenationMerges(a: CycleDep1, b: CycleDep1)
    requires |Serialize1(a)| < MAX_LENGTH && |Serialize1(b)| < MAX_LENGTH
    ensures Parse1(CycleDep1(None), Serialize1(a) + Serialize1(b)) == Some(Merge1(a, b))
  {
    var empty := CycleDep1(None);
    ParseIsMerge1(empty, a);
    ParseIsMerge1(a, b);
    MergeIsLonger1(empty, a);
    DecodeConcat(Serialize1(a), Serialize1(b));
    Fold1Concat(empty, Decode(Serialize1(a)).value, Decode(Serialize1(b)).value);
  }

  // ---------------------------------------------------------------- what merging means

  /** Parse undoes serialize, and distinct chains have distinct bytes. */
  lemma CycleRoundTrip(m: CycleDep1)
    requires |Serialize1(m)| < MAX_LENGTH
    ensures Parse1(CycleDep1(None), Serialize1(m)) == Some(m)
  {
    ParseIsMerge1(CycleDep1(None), m);
    MergeIsLonger1(CycleDep1(None), m);
    SameDepth1(CycleDep1(None), m);
  }

  // ---------------------------------------------------------------- sizes and bytes at every nesting level

  /** The bytes of a chain of the given depth, whichever of the two messages it starts with. */
  function Nested(depth: nat): bytes {
    if depth == 0 then [] else EncodeVarint(10) + EncodeVarint(|Nested(depth - 1)|) + Nested(depth - 1)
  }

  lemma NestedGrows(depth: nat)
    ensures |Nested(depth + 1)| == 1 + VarintSize(|Nested(depth)|) + |Nested(depth)|
  {
  }

  lemma {:induction false} SerializeIsNested1(m: CycleDep1)
    ensures Serialize1(m) == Nested(Depth1(m))
    decreases m
  {
    if m.dep.None? {
    } else {
      SerializeIsNested2(m.dep.value);
      OneField(Delimited(1, Serialize2(m.dep.value)));
    }
  }

  lemma {:induction false} SerializeIsNested2(m: CycleDep2)
    ensures Serialize2(m) == Nested(Depth2(m))
    decreases m
  {
    if m.dep.None? {
    } else {
      SerializeIsNested1(m.dep.value);
      OneField(Delimited(1, Serialize1(m.dep.value)));
    }
  }

  ghost predicate Holds(chain: seq<CycleObject>, j: nat)
    requires j < |chain|
    reads chain
  {
    chain[j].dep == if j + 1 < |chain| then chain[j + 1] else null
  }

  /** The objects of one message, each holding the next. */
  ghost predicate Chained(chain: seq<CycleObject>)
    reads chain
  {
    && Distinct(chain)
    && forall j: nat :: j < |chain| ==> Holds(chain, j)
  }

  ghost predicate Measured(chain: seq<CycleObject>, i: nat)
    reads chain
  {
    forall j :: i <= j < |chain| ==> chain[j].cachedSize == |Nested(|chain| - 1 - j)|
  }

  /** A message object of either type, with its submessage and its cached size. */
  class CycleObject {
    var dep: CycleObject?
    var cachedSize: nat

    constructor (dep: CycleObject?)
      ensures this.dep == dep
    {
      this.dep := dep;
      cachedSize := 0;
    }

    method SetCachedSize(size: nat, ghost chain: seq<CycleObject>, ghost i: nat)
      requires Distinct(chain) && i < |chain| && chain[i] == this
      requires Measured(chain, i + 1) && size == |Nested(|chain| - 1 - i)|
      modifies this`cachedSize
      ensures Measured(chain, i)
    {
      cachedSize := size;
    }

    /** `ByteSizeLong`: measures and caches every level, the innermost first. */
    method ByteSizeLong(ghost chain: seq<CycleObject>, ghost i: nat) returns (size: nat)
      requires Chained(chain) && i < |chain| && chain[i] == this
      modifies chain`cachedSize
      ensures size == |Nested(|chain| - 1 - i)|
      ensures Measured(chain, i)
      ensures forall j :: 0 <= j < i ==> chain[j].cachedSize == old(chain[j].cachedSize)
      decreases |chain| - i
    {
      assert Holds(chain, i);
      size := 0;
      if dep != null {
        var n := dep.ByteSizeLong(chain, i + 1);
        NestedGrows(|chain| - 2 - i);
        size := size + 1 + VarintSize(n) + n;
      }
      SetCachedSize(size, chain, i);
    }

    /** `_InternalSerialize`: the length prefix of every level is the cached size of the level below. */
    method InternalSerialize(target: bytes, ghost chain: seq<CycleObject>, ghost i: nat) returns (out: bytes)
      requires Chained(chain) && i < |chain| && chain[i] == this && Measured(chain, i)
      ensures out == target + Nested(|chain| - 1 - i)
      decreases |chain| - i
    {
      assert Holds(chain, i);
      out := target;
      if dep != null {
        ghost var inner := Nested(|chain| - 2 - i);
        out := out + EncodeVarint(10) + EncodeVarint(dep.cachedSize);
        out := dep.InternalSerialize(out, chain, i + 1);
        ConcatAssociates(target + EncodeVarint(10), EncodeVarint(|inner|), inner);
        ConcatAssociates(target, EncodeVarint(10), EncodeVarint(|inner|) + inner);
        ConcatAssociates(EncodeVarint(10), EncodeVarint(|inner|), inner);
      }
    }
  }
}

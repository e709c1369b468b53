/**
  The wire format of Protocol Buffers as the generated code uses it (Protocol Buffers documentation, Encoding,
  sections "Base 128 Varints", "Message Structure" and "Length-Delimited Records"): bytes, records, and the two
  facts every message builds on, that decoding undoes encoding and that records may be decoded piecewise.
 */
module Wire {
  import opened Lists

  type byte = n: int | 0 <= n < 256
  type bytes = seq<byte>

  const WORD: int := 0x1_0000_0000_0000_0000
  const MAX_LENGTH: int := 0x8000_0000

  type word = n: int | 0 <= n < WORD
  type int64 = n: int | -0x8000_0000_0000_0000 <= n < 0x8000_0000_0000_0000
  type int32 = n: int | -0x8000_0000 <= n < 0x8000_0000

  /** A cast between signed and unsigned 64-bit words. */
  function ToWord(n: int64): word { if n >= 0 then n else n + WORD }

  function FromWord(w: word): int64 { if w < 0x8000_0000_0000_0000 then w else w - WORD }

  /** The cast of a 64-bit word to an enumeration keeps its low 32 bits. */
  function ToEnum(w: word): int32 {
    var low := w % 0x1_0000_0000;
    if low < 0x8000_0000 then low else low - 0x1_0000_0000
  }

  lemma WordRoundTrip(n: int64)
    ensures FromWord(ToWord(n)) == n
  {
  }

  /** An enumeration is written sign-extended and read truncated. */
  lemma EnumRoundTrip(n: int32)
    ensures ToEnum(ToWord(n)) == n
  {
    if n < 0 {
      assert ToWord(n) == 0xFFFF_FFFF * 0x1_0000_0000 + (n + 0x1_0000_0000);
    }
  }

  /** Reading keeps the low bits. */
  lemma LowBits(w: word)
    ensures FromWord(w) % WORD == w && ToEnum(w) % 0x1_0000_0000 == w % 0x1_0000_0000
  {
  }

  // ---------------------------------------------------------------- varints

  function EncodeVarint(n: nat): (b: bytes)
    ensures |b| >= 1
  {
    if n < 128 then [n] else [n % 128 + 128] + EncodeVarint(n / 128)
  }

  /** The value and the bytes after it, or None when the input ends early or goes on past `limit` bytes. */
  function DecodeVarint(b: bytes, limit: nat): (r: Option<(nat, bytes)>)
    ensures r.Some? ==> |r.value.1| < |b|
  {
    if b == [] || limit == 0 then None
    else if b[0] < 128 then Some((b[0], b[1..]))
    else
      match DecodeVarint(b[1..], limit - 1)
      case None => None
      case Some((high, rest)) => Some((b[0] - 128 + 128 * high, rest))
  }

  function Power128(k: nat): nat { if k == 0 then 1 else 128 * Power128(k - 1) }

  lemma {:induction false} VarintRoundTrip(n: nat, rest: bytes, limit: nat)
    requires limit >= 1 && n < Power128(limit)
    ensures DecodeVarint(EncodeVarint(n) + rest, limit) == Some((n, rest))
  {
    if n < 128 {
      assert (EncodeVarint(n) + rest)[1..] == rest;
    } else {
      VarintRoundTrip(n / 128, rest, limit - 1);
      assert (EncodeVarint(n) + rest)[1..] == EncodeVarint(n / 128) + rest;
    }
  }

  lemma {:induction false} VarintExtends(b: bytes, more: bytes, limit: nat)
    requires DecodeVarint(b, limit).Some?
    ensures DecodeVarint(b + more, limit) ==
            Some((DecodeVarint(b, limit).value.0, DecodeVarint(b, limit).value.1 + more))
  {
    assert (b + more)[1..] == b[1..] + more;
    if b[0] < 128 {
    } else {
      VarintExtends(b[1..], more, limit - 1);
    }
  }

  /** Bytes of which all but the last have the high bit, and what they say, the low group first. */
  predicate IsVarint(g: bytes) {
    g != [] && g[|g| - 1] < 128 && forall i | 0 <= i < |g| - 1 :: g[i] >= 128
  }

  function VarintValue(g: bytes): nat { if g == [] then 0 else g[0] % 128 + 128 * VarintValue(g[1..]) }

  lemma {:induction false} VarintIsRead(g: bytes, rest: bytes, limit: nat)
    requires IsVarint(g) && |g| <= limit
    ensures DecodeVarint(g + rest, limit) == Some((VarintValue(g), rest))
    decreases |g|
  {
    assert (g + rest)[1..] == g[1..] + rest;
    if g[0] < 128 {
      assert g == [g[0]] && [] + rest == rest;
    } else {
      VarintIsRead(g[1..], rest, limit - 1);
    }
  }

  lemma {:induction false} ReadIsVarint(b: bytes, limit: nat) returns (g: bytes)
    requires DecodeVarint(b, limit).Some?
    ensures IsVarint(g) && |g| <= limit && b == g + DecodeVarint(b, limit).value.1
    decreases |b|
  {
    if b[0] < 128 {
      g := [b[0]];
    } else {
      var later := ReadIsVarint(b[1..], limit - 1);
      g := [b[0]] + later;
      assert b == [b[0]] + b[1..];
    }
  }

  /** Reading a varint succeeds exactly when the input starts with one of at most `limit` bytes, and gives its value. */
  lemma DecodeVarintExact(b: bytes, limit: nat, n: nat, rest: bytes)
    ensures DecodeVarint(b, limit) == Some((n, rest)) <==>
            exists g: bytes :: IsVarint(g) && |g| <= limit && VarintValue(g) == n && b == g + rest
  {
    if DecodeVarint(b, limit) == Some((n, rest)) {
      var g := ReadIsVarint(b, limit);
      VarintIsRead(g, rest, limit);
    }
    forall g: bytes | IsVarint(g) && |g| <= limit && VarintValue(g) == n && b == g + rest
      ensures DecodeVarint(b, limit) == Some((n, rest))
    {
      VarintIsRead(g, rest, limit);
    }
  }

  /** How many bytes a varint takes. */
  function VarintSize(n: nat): (k: nat)
    ensures k == |EncodeVarint(n)|
  {
    1 + if n < 128 then 0 else VarintSize(n / 128)
  }

  // ---------------------------------------------------------------- records

  /** A record: field number and payload. The wire type is 0 for a varint and 2 for a length-delimited payload. */
  datatype Field = Varint(number: nat, value: word) | Delimited(number: nat, payload: bytes)

  function Tag(f: Field): nat { f.number * 8 + if f.Varint? then 0 else 2 }

  function EncodeField(f: Field): (b: bytes)
    ensures b != []
  {
    match f
    case Varint(_, value) => EncodeVarint(Tag(f)) + EncodeVarint(value)
    case Delimited(_, payload) => EncodeVarint(Tag(f)) + EncodeVarint(|payload|) + payload
  }

  function Weight(f: Field): (n: nat)
    ensures n >= 1
  {
    1 + if f.Delimited? then |f.payload| else 0
  }

  function DecodePayload(number: nat, b: bytes): (r: Option<(Field, bytes)>)
    ensures r.Some? ==> |r.value.1| + Weight(r.value.0) <= |b| + 1
  {
    match DecodeVarint(b, 5)
    case None => None
    case Some((size, rest)) =>
      if size >= MAX_LENGTH || size > |rest| then None
      else Some((Delimited(number, rest[..size]), rest[size..]))
  }

  /** The record after its tag, or None: ended early, too long, or a wire type that is not modelled. */
  function DecodeBody(tag: nat, b: bytes): (r: Option<(Field, bytes)>)
    ensures r.Some? ==> |r.value.1| + Weight(r.value.0) <= |b| + 1
  {
    if tag % 8 == 0 && tag != 0 then
      match DecodeVarint(b, 10)
      case None => None
      case Some((value, rest)) => Some((Varint(tag / 8, value % WORD), rest))
    else if tag % 8 == 2 then DecodePayload(tag / 8, b)
    else None
  }

  function DecodeField(b: bytes): (r: Option<(Field, bytes)>)
    ensures r.Some? ==> |r.value.1| + Weight(r.value.0) <= |b|
  {
    match DecodeVarint(b, 5)
    case None => None
    case Some((tag, rest)) => DecodeBody(tag % 0x1_0000_0000, rest)
  }

  function TotalWeight(fs: seq<Field>): nat {
    if fs == [] then 0 else Weight(fs[0]) + TotalWeight(fs[1..])
  }

  function Encode(fs: seq<Field>): bytes {
    if fs == [] then [] else EncodeField(fs[0]) + Encode(fs[1..])
  }

  function Append(fs: seq<Field>, more: Option<seq<Field>>): Option<seq<Field>> {
    match more case None => None case Some(gs) => Some(fs + gs)
  }

  function Decode(b: bytes): (r: Option<seq<Field>>)
    ensures r.Some? ==> TotalWeight(r.value) <= |b|
    decreases |b|
  {
    if b == [] then Some([])
    else
      match DecodeField(b)
      case None => None
      case Some((f, rest)) => Append([f], Decode(rest))
  }

  /** Field numbers below 16 and payloads below 2^31 bytes: all that the messages here write. */
  predicate Writable(f: Field) {
    1 <= f.number < 16 && (f.Delimited? ==> |f.payload| < MAX_LENGTH)
  }

  lemma PowerFive()
    ensures Power128(5) == 34359738368
  {
    assert Power128(3) == 2097152;
    assert Power128(5) == 128 * (128 * Power128(3));
  }

  lemma TagRoundTrip(f: Field, body: bytes)
    requires Writable(f)
    ensures DecodeField(EncodeVarint(Tag(f)) + body) == DecodeBody(Tag(f), body)
  {
    PowerFive();
    VarintRoundTrip(Tag(f), body, 5);
  }

  lemma PowerTen()
    ensures Power128(10) == 34359738368 * 34359738368
  {
    PowerFive();
    assert Power128(7) == 128 * (128 * Power128(5));
    assert Power128(9) == 128 * (128 * Power128(7));
  }

  lemma VarintFieldRoundTrip(number: nat, value: word, rest: bytes)
    requires number >= 1
    ensures DecodeBody(number * 8, EncodeVarint(value) + rest) == Some((Varint(number, value), rest))
  {
    PowerTen();
    VarintRoundTrip(value, rest, 10);
  }

  lemma DelimitedFieldRoundTrip(number: nat, payload: bytes, rest: bytes)
    requires |payload| < MAX_LENGTH
    ensures DecodePayload(number, EncodeVarint(|payload|) + (payload + rest)) == Some((Delimited(number, payload), rest))
  {
    PowerFive();
    VarintRoundTrip(|payload|, payload + rest, 5);
    var tail := payload + rest;
    assert DecodeVarint(EncodeVarint(|payload|) + tail, 5) == Some((|payload|, tail));
    assert tail[..|payload|] == payload;
    assert tail[|payload|..] == rest;
  }

  lemma FieldRoundTrip(f: Field, rest: bytes)
    requires Writable(f)
    ensures DecodeField(EncodeField(f) + rest) == Some((f, rest))
  {
    match f
    case Varint(number, value) =>
      ConcatAssociates(EncodeVarint(Tag(f)), EncodeVarint(value), rest);
      TagRoundTrip(f, EncodeVarint(value) + rest);
      VarintFieldRoundTrip(number, value, rest);
    case Delimited(number, payload) =>
      ConcatAssociates(EncodeVarint(Tag(f)) + EncodeVarint(|payload|), payload, rest);
      ConcatAssociates(EncodeVarint(Tag(f)), EncodeVarint(|payload|), payload + rest);
      TagRoundTrip(f, EncodeVarint(|payload|) + (payload + rest));
      DelimitedFieldRoundTrip(number, payload, rest);
  }

  lemma FieldExtends(b: bytes, more: bytes)
    requires DecodeField(b).Some?
    ensures DecodeField(b + more) == Some((DecodeField(b).value.0, DecodeField(b).value.1 + more))
  {
    VarintExtends(b, more, 5);
    var Some((tag, rest)) := DecodeVarint(b, 5);
    var wire := tag % 0x1_0000_0000 % 8;
    if wire == 0 {
      VarintExtends(rest, more, 10);
    } else {
      VarintExtends(rest, more, 5);
      var Some((size, tail)) := DecodeVarint(rest, 5);
      assert (tail + more)[..size] == tail[..size] && (tail + more)[size..] == tail[size..] + more;
    }
  }

  /** A record that is cut short is not read. */
  lemma TruncatedFails(f: Field, k: nat)
    requires Writable(f) && k < |EncodeField(f)|
    ensures DecodeField(EncodeField(f)[..k]) == None
  {
    var b := EncodeField(f);
    assert b[..k] + b[k..] == b == b + [];
    FieldRoundTrip(f, []);
    if DecodeField(b[..k]).Some? {
      FieldExtends(b[..k], b[k..]);
      assert false;
    }
  }

  lemma AppendNothing(more: Option<seq<Field>>)
    ensures Append([], more) == more
  {
    assert more.Some? ==> [] + more.value == more.value;
  }

  lemma AppendAssociates(f: Field, fs: seq<Field>, more: Option<seq<Field>>)
    ensures Append([f], Append(fs, more)) == Append([f] + fs, more)
  {
    if more.Some? {
      ConcatAssociates([f], fs, more.value);
    }
  }

  /** Decoding is piecewise: bytes that decode on their own decode to the same records before any other bytes. */
  lemma {:induction false} DecodeConcat(b: bytes, more: bytes)
    requires Decode(b).Some?
    ensures Decode(b + more) == Append(Decode(b).value, Decode(more))
    decreases |b|
  {
    if b == [] {
      assert b + more == more;
      AppendNothing(Decode(more));
    } else {
      var Some((f, rest)) := DecodeField(b);
      FieldExtends(b, more);
      DecodeConcat(rest, more);
      AppendAssociates(f, Decode(rest).value, Decode(more));
    }
  }

  lemma {:induction false} DecodeEncode(fs: seq<Field>)
    requires forall f | f in fs :: Writable(f)
    ensures Decode(Encode(fs)) == Some(fs)
  {
    if fs == [] {
    } else {
      FieldRoundTrip(fs[0], Encode(fs[1..]));
      DecodeEncode(fs[1..]);
      assert fs == [fs[0]] + fs[1..];
    }
  }

  lemma EncodeCons(f: Field, fs: seq<Field>)
    ensures Encode([f] + fs) == EncodeField(f) + Encode(fs)
  {
    assert ([f] + fs)[1..] == fs;
  }

  lemma OneField(f: Field)
    ensures Encode([f]) == EncodeField(f)
  {
    assert [f][1..] == [];
    assert EncodeField(f) + [] == EncodeField(f);
  }

  lemma {:induction false} EncodeConcat(fs: seq<Field>, gs: seq<Field>)
    ensures Encode(fs + gs) == Encode(fs) + Encode(gs)
  {
    if fs == [] {
      assert fs + gs == gs;
      assert Encode(fs) + Encode(gs) == Encode(gs);
    } else {
      var f, rest := fs[0], fs[1..];
      assert fs == [f] + rest && fs + gs == [f] + (rest + gs);
      EncodeCons(f, rest);
      EncodeCons(f, rest + gs);
      EncodeConcat(rest, gs);
      ConcatAssociates(EncodeField(f), Encode(rest), Encode(gs));
    }
  }
}

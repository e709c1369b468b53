/** What single records do to a book that already has fields, values that the serializer never writes included. */
module MessageRecords {
  import opened Lists
  import opened Wire
  import opened Messages
  import opened MessageTheorems

  /** The field of the message that records of this number set, or 0 for repeated fields and submessages. */
  function Slot(number: nat): nat {
    match number
    case 1 => 1
    case 2 => 2
    case 5 => 5
    case 6 => 5
    case 7 => 7
    case 8 => 8
    case 9 => 9
    case 10 => 9
    case _ => 0
  }

  lemma OneRecord(m: Book, f: Field)
    requires Writable(f)
    ensures ParseBook(m, Encode([f])) == ApplyBook(m, f)
  {
    ParseEncode(m, [f], ApplyBook);
    FoldOne(m, f, ApplyBook);
  }

  lemma TwoRecords(m: Book, f: Field, g: Field)
    requires Writable(f) && Writable(g)
    ensures ParseBook(m, Encode([f, g])) ==
            match ApplyBook(m, f) case None => None case Some(next) => ApplyBook(next, g)
  {
    ParseEncode(m, [f, g], ApplyBook);
    assert [f, g] == [f] + [g];
    FoldFirstField(m, f, [g], ApplyBook);
    if ApplyBook(m, f).Some? {
      FoldOne(ApplyBook(m, f).value, g, ApplyBook);
    }
  }

  lemma NumberOverwrites(m: Book, n: nat, w: word, k: nat, v: word)
    requires Slot(n) == Slot(k) != 0 && ApplyBook(m, Varint(n, w)).Some?
    ensures ApplyBook(ApplyBook(m, Varint(n, w)).value, Varint(k, v)) == ApplyBook(m, Varint(k, v))
  {
  }

  lemma SlotOverwritten(m: Book, f: Field, g: Field)
    requires Slot(f.number) == Slot(g.number) != 0 && ApplyBook(m, f).Some?
    ensures ApplyBook(ApplyBook(m, f).value, g) == ApplyBook(m, g)
  {
    if f.Varint? && g.Varint? {
      NumberOverwrites(m, f.number, f.value, g.number, g.value);
    }
  }

  /** Of two records for one field, or for two members of one oneof, the last one wins, be it a default value. */
  lemma LastOneWins(m: Book, f: Field, g: Field)
    requires Writable(f) && Writable(g) && Slot(f.number) == Slot(g.number) != 0
    requires ParseBook(m, Encode([f])).Some?
    ensures ParseBook(m, Encode([f, g])) == ParseBook(m, Encode([g]))
  {
    OneRecord(m, f);
    OneRecord(m, g);
    TwoRecords(m, f, g);
    SlotOverwritten(m, f, g);
  }

  lemma BothFit(number: nat, p: bytes, q: bytes)
    requires 1 <= number < 16 && |p + q| < MAX_LENGTH
    ensures Writable(Delimited(number, p)) && Writable(Delimited(number, q)) && Writable(Delimited(number, p + q))
  {
  }

  /** Two records for one submessage are one record with the bytes of both. */
  lemma SubmessagesJoin(m: Book, number: nat, p: bytes, q: bytes)
    requires number == 3 || number == 11
    requires |p + q| < MAX_LENGTH && ParseBook(m, Encode([Delimited(number, p)])).Some?
    ensures ParseBook(m, Encode([Delimited(number, p), Delimited(number, q)])) ==
            ParseBook(m, Encode([Delimited(number, p + q)]))
  {
    BothFit(number, p, q);
    OneRecord(m, Delimited(number, p));
    OneRecord(m, Delimited(number, p + q));
    TwoRecords(m, Delimited(number, p), Delimited(number, q));
    ParseConcat(if number == 3 then NameOf(m.author) else FieldOf(m.second), p, q, ApplyText);
  }

  /** A record for a number sets the field to it, zero included, and nothing else. */
  lemma NumbersSet(m: Book, n: int64, e: int32)
    ensures ParseBook(m, Encode([Varint(1, ToWord(n))])) == Some(m.(isbn := n))
    ensures ParseBook(m, Encode([Varint(6, ToWord(n))])) == Some(m.(first := FirstInt(n)))
    ensures ParseBook(m, Encode([Varint(10, ToWord(n))])) == Some(m.(second := SecondInt(n)))
    ensures ParseBook(m, Encode([Varint(7, ToWord(e))])) == Some(m.(availability := e))
    ensures ParseBook(m, Encode([Varint(8, ToWord(e))])) == Some(m.(recommended := e))
  {
    WordRoundTrip(n);
    EnumRoundTrip(e);
    OneRecord(m, Varint(1, ToWord(n)));
    OneRecord(m, Varint(6, ToWord(n)));
    OneRecord(m, Varint(10, ToWord(n)));
    OneRecord(m, Varint(7, ToWord(e)));
    OneRecord(m, Varint(8, ToWord(e)));
  }

  lemma StringApplies(m: Book, s: bytes)
    ensures ApplyBook(m, Delimited(2, s)) == if ValidUtf8(s) then Some(m.(title := s)) else None
    ensures ApplyBook(m, Delimited(5, s)) == if ValidUtf8(s) then Some(m.(first := FirstString(s))) else None
    ensures ApplyBook(m, Delimited(9, s)) == if ValidUtf8(s) then Some(m.(second := SecondString(s))) else None
  {
  }

  /** A record for a string sets the field to it, the empty string included, if it is UTF-8, and fails otherwise. */
  lemma StringsSet(m: Book, s: bytes)
    requires |s| < MAX_LENGTH
    ensures ParseBook(m, Encode([Delimited(2, s)])) == if ValidUtf8(s) then Some(m.(title := s)) else None
    ensures ParseBook(m, Encode([Delimited(5, s)])) == if ValidUtf8(s) then Some(m.(first := FirstString(s))) else None
    ensures ParseBook(m, Encode([Delimited(9, s)])) == if ValidUtf8(s) then Some(m.(second := SecondString(s))) else None
  {
    StringApplies(m, s);
    OneRecord(m, Delimited(2, s));
    OneRecord(m, Delimited(5, s));
    OneRecord(m, Delimited(9, s));
  }
}

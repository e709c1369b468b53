/**
  `Book` as the generated class: an object with mutable fields, parsed, merged, measured and written in place.
  A submessage is owned by its book alone, so it is a value in a field of the book, together with its cached size.
 */
module MessageObjects {
  import opened Lists
  import opened Wire
  import opened Messages
  import opened MessageTheorems

  /** One turn of a parse loop. */
  lemma ParseStep<M>(m: M, b: bytes, apply: (M, Field) -> Option<M>)
    requires b != []
    ensures Parse(m, b, apply) ==
            match DecodeField(b)
            case None => None
            case Some((f, rest)) => match apply(m, f) case None => None case Some(next) => Parse(next, rest, apply)
  {
    if DecodeField(b).Some? && Decode(DecodeField(b).value.1).Some? {
      var Some((f, rest)) := DecodeField(b);
      FoldFirstField(m, f, Decode(rest).value, apply);
    }
  }

  /** `InternalWriteMessage` and `WriteString`: tag, length prefix, contents. */
  function Record(number: nat, size: nat, contents: bytes): bytes {
    EncodeVarint(number * 8 + 2) + EncodeVarint(size) + contents
  }

  /** `WriteInt64ToArray` and `WriteEnumToArray`. */
  function NumberRecord(number: nat, w: word): bytes {
    EncodeVarint(number * 8) + EncodeVarint(w)
  }

  /** `_InternalSerialize` of the messages with one string. */
  function WriteText(text: bytes): (r: bytes)
    ensures r == Encode(TextFields(text))
  {
    OneField(Delimited(1, text));
    if |text| > 0 then Record(1, |text|, text) else []
  }

  /** Only tag 10 announces the string with number 1. */
  lemma OtherTag(tag: nat, rest: bytes)
    requires tag != 10
    ensures DecodeBody(tag, rest).Some? ==> ReadString(DecodeBody(tag, rest).value.0, 1).None?
  {
  }

  // ---------------------------------------------------------------- Book_Page

  lemma {:induction false} LinesSnoc(lines: seq<bytes>, line: bytes)
    ensures LineFields(lines + [line]) == LineFields(lines) + [Delimited(1, line)]
  {
    if lines == [] {
      assert lines + [line] == [line];
    } else {
      LinesSnoc(lines[1..], line);
      assert (lines + [line])[1..] == lines[1..] + [line];
    }
  }

  /** The next line written, in `_InternalSerialize` and in `ByteSizeLong`. */
  lemma NextLine(lines: seq<bytes>, i: nat)
    requires i < |lines|
    ensures Encode(LineFields(lines[..i + 1])) ==
            Encode(LineFields(lines[..i])) + Record(1, |lines[i]|, lines[i])
  {
    assert lines[..i + 1] == lines[..i] + [lines[i]];
    LinesSnoc(lines[..i], lines[i]);
    EncodeConcat(LineFields(lines[..i]), [Delimited(1, lines[i])]);
    OneField(Delimited(1, lines[i]));
  }

  // the methods of the submessages

  lemma OneByteVarint(b: bytes)
    requires b != [] && b[0] < 128
    ensures DecodeVarint(b, 5) == Some((b[0], b[1..]))
  {
  }

  /** `Author::_InternalParse`, `InsideOneOfMessage::_InternalParse`. */
  method ParseTextMessage(before: bytes, b: bytes) returns (ok: bool, text: bytes)
    ensures ok <==> Parse(before, b, ApplyText).Some?
    ensures ok ==> Parse(before, b, ApplyText) == Some(text)
  {
    var ptr := b;
    text := before;
    while ptr != []
      invariant Parse(text, ptr, ApplyText) == Parse(before, b, ApplyText)
      decreases |ptr|
    {
      ParseStep(text, ptr, ApplyText);
      var read := DecodeVarint(ptr, 5);
      if read.None? {
        return false, text;
      }
      var tag, rest := read.value.0 % 0x1_0000_0000, read.value.1;
      if tag != 10 {
        OtherTag(tag, rest);
        return false, text;
      }
      var payload := DecodePayload(1, rest);
      if payload.None? || !ValidUtf8(payload.value.0.payload) {
        return false, text;
      }
      text := payload.value.0.payload;
      ptr := payload.value.1;
    }
    ok := true;
  }

  /** What parsing gives when the tag of a line was just read. */
  function PendingLine(lines: seq<bytes>, ptr: bytes): Option<Page> {
    match DecodePayload(1, ptr)
    case None => None
    case Some((f, rest)) => if ValidUtf8(f.payload) then Parse(Page(lines + [f.payload]), rest, ApplyPage) else None
  }

  /** The byte 10 is the tag of one more line. */
  lemma TagByte(m: Page, ptr: bytes)
    requires ptr != [] && ptr[0] == 10
    ensures Parse(m, ptr, ApplyPage) == PendingLine(m.lines, ptr[1..])
  {
    ParseStep(m, ptr, ApplyPage);
    assert DecodeVarint(ptr, 5) == Some((10, ptr[1..]));
  }

  /** `Book_Page::_InternalParse`: the inner loop takes a run of lines without going back to the tag switch. */
  method ParsePageMessage(before: seq<bytes>, b: bytes) returns (ok: bool, lines: seq<bytes>)
    ensures ok <==> Parse(Page(before), b, ApplyPage).Some?
    ensures ok ==> Parse(Page(before), b, ApplyPage) == Some(Page(lines))
  {
    var ptr := b;
    lines := before;
    while ptr != []
      invariant Parse(Page(lines), ptr, ApplyPage) == Parse(Page(before), b, ApplyPage)
      decreases |ptr|
    {
      ParseStep(Page(lines), ptr, ApplyPage);
      var read := DecodeVarint(ptr, 5);
      if read.None? {
        return false, lines;
      }
      var tag := read.value.0 % 0x1_0000_0000;
      if tag != 10 {
        OtherTag(tag, read.value.1);
        return false, lines;
      }
      ptr := read.value.1;
      var more := true;
      while more
        invariant more ==> PendingLine(lines, ptr) == Parse(Page(before), b, ApplyPage)
        invariant !more ==> Parse(Page(lines), ptr, ApplyPage) == Parse(Page(before), b, ApplyPage)
        invariant |ptr| <= |read.value.1|
        decreases more, |ptr|
      {
        var payload := DecodePayload(1, ptr);
        if payload.None? || !ValidUtf8(payload.value.0.payload) {
          return false, lines;
        }
        lines := lines + [payload.value.0.payload];
        ptr := payload.value.1;
        more := ptr != [] && ptr[0] == 10;
        if more {
          TagByte(Page(lines), ptr);
          ptr := ptr[1..];
        }
      }
    }
    ok := true;
  }

  function PageSize(p: Page): nat { |Encode(LineFields(p.lines))| }

  /** `Book_Page::ByteSizeLong`. */
  method PageByteSize(lines: seq<bytes>) returns (size: nat)
    ensures size == PageSize(Page(lines))
  {
    size := 1 * |lines|;
    for i := 0 to |lines|
      invariant size == |Encode(LineFields(lines[..i]))| + (|lines| - i)
    {
      NextLine(lines, i);
      size := size + VarintSize(|lines[i]|) + |lines[i]|;
    }
    assert lines[..|lines|] == lines;
  }

  /** `Book_Page::_InternalSerialize`. */
  method WritePage(lines: seq<bytes>, target: bytes) returns (out: bytes)
    ensures out == target + Encode(LineFields(lines))
  {
    out := target;
    for i := 0 to |lines|
      invariant out == target + Encode(LineFields(lines[..i]))
    {
      NextLine(lines, i);
      ConcatAssociates(target, Encode(LineFields(lines[..i])), Record(1, |lines[i]|, lines[i]));
      out := out + Record(1, |lines[i]|, lines[i]);
    }
    assert lines[..|lines|] == lines;
  }

  /** `Author::ByteSizeLong`, `InsideOneOfMessage::ByteSizeLong`. */
  function TextByteSize(text: bytes): (size: nat)
    ensures size == |Encode(TextFields(text))|
  {
    OneField(Delimited(1, text));
    if |text| > 0 then 1 + VarintSize(|text|) + |text| else 0
  }

  // ---------------------------------------------------------------- Book

  /** A submessage and its cached size. */
  datatype Sub<M> = Sub(message: M, size: nat)

  /** The tagged union of the second oneof. */
  datatype SecondUnion =
    | NotSet
    | Str(text: bytes)
    | Int(value: int64)
    | Msg(sub: Sub<InsideOneOfMessage>)

  function Unwrapped<M>(subs: seq<Sub<M>>): (r: seq<M>)
    ensures |r| == |subs|
    ensures forall i :: 0 <= i < |subs| ==> r[i] == subs[i].message
  {
    if subs == [] then [] else [subs[0].message] + Unwrapped(subs[1..])
  }

  lemma UnwrappedConcat<M>(subs: seq<Sub<M>>, more: seq<Sub<M>>)
    ensures Unwrapped(subs + more) == Unwrapped(subs) + Unwrapped(more)
  {
  }

  lemma UnwrappedSnoc<M>(subs: seq<Sub<M>>, sub: Sub<M>)
    ensures Unwrapped(subs + [sub]) == Unwrapped(subs) + [sub.message]
  {
  }

  function AuthorOf(a: Option<Sub<Author>>): Option<Author> {
    match a case None => None case Some(sub) => Some(sub.message)
  }

  function SecondOf(u: SecondUnion): SecondOneof {
    match u
    case NotSet => SecondNotSet
    case Str(s) => SecondString(s)
    case Int(n) => SecondInt(n)
    case Msg(sub) => SecondMessage(sub.message)
  }

  ghost predicate MeasuredPages(pages: seq<Sub<Page>>) {
    forall i :: 0 <= i < |pages| ==> pages[i].size == PageSize(pages[i].message)
  }

  // ---------------------------------------------------------------- bytes and sizes, group by group

  lemma OneNumber(number: nat, w: word)
    requires 1 <= number < 16
    ensures |Encode([Varint(number, w)])| == 1 + VarintSize(w)
  {
    OneField(Varint(number, w));
  }

  lemma OnePayload(number: nat, p: bytes)
    requires 1 <= number < 15
    ensures |Encode([Delimited(number, p)])| == 1 + VarintSize(|p|) + |p|
  {
    OneField(Delimited(number, p));
  }

  predicate MeasuredAuthor(author: Option<Sub<Author>>) {
    author.Some? ==> author.value.size == |Encode(TextFields(author.value.message.name))|
  }

  predicate MeasuredSecond(second: SecondUnion) {
    second.Msg? ==> second.sub.size == |Encode(TextFields(second.sub.message.field))|
  }

  function NumbersSize(b: Book): (size: nat)
    ensures size == |Encode(IsbnFields(b))| + |Encode(AvailabilityFields(b))| + |Encode(RecommendedFields(b))|
  {
    OneNumber(1, ToWord(b.isbn));
    OneNumber(7, ToWord(b.availability));
    OneNumber(8, ToWord(b.recommended));
    (if b.isbn != 0 then 1 + VarintSize(ToWord(b.isbn)) else 0)
    + (if b.availability != 0 then 1 + VarintSize(ToWord(b.availability)) else 0)
    + (if b.recommended != 0 then 1 + VarintSize(ToWord(b.recommended)) else 0)
  }

  function FirstSize(first: FirstOneof): (size: nat)
    ensures size == |Encode(FirstFields(EMPTY_BOOK.(first := first)))|
  {
    match first
    case FirstString(s) => OnePayload(5, s); 1 + VarintSize(|s|) + |s|
    case FirstInt(n) => OneNumber(6, ToWord(n)); 1 + VarintSize(ToWord(n))
    case FirstNotSet => 0
  }

  function SecondSize(second: SecondOneof): (size: nat)
    ensures size == |Encode(SecondFields(EMPTY_BOOK.(second := second)))|
  {
    match second
    case SecondString(s) => OnePayload(9, s); 1 + VarintSize(|s|) + |s|
    case SecondInt(n) => OneNumber(10, ToWord(n)); 1 + VarintSize(ToWord(n))
    case SecondMessage(m) =>
      OnePayload(11, Encode(TextFields(m.field)));
      var n := TextByteSize(m.field);
      1 + VarintSize(n) + n
    case SecondNotSet => 0
  }

  function TitleSize(title: bytes): (size: nat)
    ensures size == |Encode(TitleFields(EMPTY_BOOK.(title := title)))|
  {
    OnePayload(2, title);
    if |title| > 0 then 1 + VarintSize(|title|) + |title| else 0
  }

  function AuthorSize(author: Option<Author>): (size: nat)
    ensures size == |Encode(AuthorFields(EMPTY_BOOK.(author := author)))|
  {
    match author
    case None => 0
    case Some(a) =>
      OnePayload(3, Encode(TextFields(a.name)));
      var n := TextByteSize(a.name);
      1 + VarintSize(n) + n
  }

  lemma EightAssociate(t: bytes, a: bytes, b: bytes, c: bytes, d: bytes, e: bytes, f: bytes, g: bytes, h: bytes)
    ensures t + a + b + c + d + e + f + g + h == t + (a + (b + (c + (d + (e + (f + (g + h)))))))
  {
    ConcatAssociates(t + a + b + c + d + e + f, g, h);
    ConcatAssociates(t + a + b + c + d + e, f, g + h);
    ConcatAssociates(t + a + b + c + d, e, f + (g + h));
    ConcatAssociates(t + a + b + c, d, e + (f + (g + h)));
    ConcatAssociates(t + a + b, c, d + (e + (f + (g + h))));
    ConcatAssociates(t + a, b, c + (d + (e + (f + (g + h)))));
    ConcatAssociates(t, a, b + (c + (d + (e + (f + (g + h))))));
  }

  /** The bytes of a book, group by group. */
  lemma BytesByGroups(b: Book)
    ensures SerializeBook(b) ==
            Encode(IsbnFields(b)) + (Encode(TitleFields(b)) + (Encode(AuthorFields(b)) + (Encode(PagesFields(b.pages))
            + (Encode(FirstFields(b)) + (Encode(AvailabilityFields(b)) + (Encode(RecommendedFields(b))
            + Encode(SecondFields(b))))))))
  {
    var f7 := RecommendedFields(b) + SecondFields(b);
    var f6 := AvailabilityFields(b) + f7;
    var f5 := FirstFields(b) + f6;
    var f4 := PagesFields(b.pages) + f5;
    var f3 := AuthorFields(b) + f4;
    var f2 := TitleFields(b) + f3;
    EncodeConcat(IsbnFields(b), f2);
    EncodeConcat(TitleFields(b), f3);
    EncodeConcat(AuthorFields(b), f4);
    EncodeConcat(PagesFields(b.pages), f5);
    EncodeConcat(FirstFields(b), f6);
    EncodeConcat(AvailabilityFields(b), f7);
    EncodeConcat(RecommendedFields(b), SecondFields(b));
  }

  lemma SizesOfGroups(b: Book)
    ensures |Encode(TitleFields(b))| == TitleSize(b.title) && |Encode(AuthorFields(b))| == AuthorSize(b.author)
    ensures |Encode(FirstFields(b))| == FirstSize(b.first) && |Encode(SecondFields(b))| == SecondSize(b.second)
  {
    assert TitleFields(b) == TitleFields(EMPTY_BOOK.(title := b.title));
    assert AuthorFields(b) == AuthorFields(EMPTY_BOOK.(author := b.author));
    assert FirstFields(b) == FirstFields(EMPTY_BOOK.(first := b.first));
    assert SecondFields(b) == SecondFields(EMPTY_BOOK.(second := b.second));
  }

  lemma SizeByGroups(b: Book)
    ensures |SerializeBook(b)| ==
            |Encode(PagesFields(b.pages))| + TitleSize(b.title) + AuthorSize(b.author) + NumbersSize(b)
            + FirstSize(b.first) + SecondSize(b.second)
  {
    BytesByGroups(b);
    SizesOfGroups(b);
  }

  lemma WrittenByGroups(b: Book, target: bytes)
    ensures target + Encode(IsbnFields(b)) + Encode(TitleFields(b)) + Encode(AuthorFields(b))
            + Encode(PagesFields(b.pages)) + Encode(FirstFields(b)) + Encode(AvailabilityFields(b))
            + Encode(RecommendedFields(b)) + Encode(SecondFields(b)) ==
            target + SerializeBook(b)
  {
    BytesByGroups(b);
    EightAssociate(target, Encode(IsbnFields(b)), Encode(TitleFields(b)), Encode(AuthorFields(b)),
                   Encode(PagesFields(b.pages)), Encode(FirstFields(b)), Encode(AvailabilityFields(b)),
                   Encode(RecommendedFields(b)), Encode(SecondFields(b)));
  }

  // ---------------------------------------------------------------- the pages of a book, with their sizes

  lemma {:induction false} PagesSnoc(pages: seq<Page>, p: Page, f: Field)
    requires f == Delimited(4, Encode(PageFields(p)))
    ensures PagesFields(pages + [p]) == PagesFields(pages) + [f]
  {
    if pages == [] {
      assert pages + [p] == [p];
    } else {
      PagesSnoc(pages[1..], p, f);
      assert (pages + [p])[1..] == pages[1..] + [p];
      ConcatAssociates([PagesFields(pages)[0]], PagesFields(pages[1..]), [f]);
    }
  }

  lemma NextPage(pages: seq<Page>, i: nat)
    requires i < |pages|
    ensures var contents := Encode(PageFields(pages[i]));
            Encode(PagesFields(pages[..i + 1])) == Encode(PagesFields(pages[..i])) + Record(4, |contents|, contents)
  {
    assert pages[..i + 1] == pages[..i] + [pages[i]];
    PagesSnoc(pages[..i], pages[i], Delimited(4, Encode(PageFields(pages[i]))));
    var f := Delimited(4, Encode(PageFields(pages[i])));
    EncodeConcat(PagesFields(pages[..i]), [f]);
    OneField(f);
  }

  /** The bytes of the first pages. */
  function PagesSize(pages: seq<Page>, count: nat): nat
    requires count <= |pages|
  {
    |Encode(PagesFields(pages[..count]))|
  }

  lemma NextPageSize(pages: seq<Page>, i: nat)
    requires i < |pages|
    ensures var n := PageSize(pages[i]);
            PagesSize(pages, i + 1) == PagesSize(pages, i) + 1 + VarintSize(n) + n
  {
    NextPage(pages, i);
    assert |EncodeVarint(34)| == 1;
  }

  ghost predicate AllMeasured(measured: seq<Sub<Page>>, pages: seq<Sub<Page>>) {
    && |measured| == |pages|
    && forall j :: 0 <= j < |pages| ==> measured[j] == Sub(pages[j].message, PageSize(pages[j].message))
  }

  lemma NextMeasured(measured: seq<Sub<Page>>, pages: seq<Sub<Page>>, i: nat)
    requires i < |pages| && AllMeasured(measured, pages[..i])
    ensures AllMeasured(measured + [Sub(pages[i].message, PageSize(pages[i].message))], pages[..i + 1])
  {
  }

  lemma AllOfMeasured(measured: seq<Sub<Page>>, pages: seq<Sub<Page>>)
    requires AllMeasured(measured, pages[..|pages|])
    ensures Unwrapped(measured) == Unwrapped(pages) && MeasuredPages(measured)
    ensures PagesSize(Unwrapped(pages), |pages|) == |Encode(PagesFields(Unwrapped(pages)))|
  {
    assert pages[..|pages|] == pages;
    assert Unwrapped(pages)[..|pages|] == Unwrapped(pages);
  }

  method MeasurePages(pages: seq<Sub<Page>>) returns (size: nat, measured: seq<Sub<Page>>)
    ensures Unwrapped(measured) == Unwrapped(pages) && MeasuredPages(measured)
    ensures size == |Encode(PagesFields(Unwrapped(pages)))|
  {
    size, measured := 1 * |pages|, [];
    for i := 0 to |pages|
      invariant AllMeasured(measured, pages[..i])
      invariant size == PagesSize(Unwrapped(pages), i) + (|pages| - i)
    {
      var n := PageByteSize(pages[i].message.lines);
      NextPageSize(Unwrapped(pages), i);
      NextMeasured(measured, pages, i);
      size := size + VarintSize(n) + n;
      measured := measured + [Sub(pages[i].message, n)];
    }
    AllOfMeasured(measured, pages);
  }

  method WriteOnePage(page: Sub<Page>) returns (record: bytes)
    requires page.size == PageSize(page.message)
    ensures record == Record(4, PageSize(page.message), Encode(LineFields(page.message.lines)))
  {
    var contents := WritePage(page.message.lines, []);
    record := Record(4, page.size, contents);
  }

  method WritePages(pages: seq<Sub<Page>>, target: bytes) returns (out: bytes)
    requires MeasuredPages(pages)
    ensures out == target + Encode(PagesFields(Unwrapped(pages)))
  {
    out := target;
    ghost var values := Unwrapped(pages);
    for i := 0 to |pages|
      invariant out == target + Encode(PagesFields(values[..i]))
    {
      NextPage(values, i);
      ghost var before := Encode(PagesFields(values[..i]));
      var record := WriteOnePage(pages[i]);
      out := out + record;
      ConcatAssociates(target, before, record);
    }
    assert values[..|pages|] == values;
  }

  // ---------------------------------------------------------------- one turn of Book's parse loop

  /** The message and the unread bytes after one more record whose tag was read. */
  function AfterTag(m: Book, tag: nat, rest: bytes): (r: Option<(Book, bytes)>)
    ensures r.Some? ==> |r.value.1| <= |rest|
  {
    match DecodeBody(tag, rest)
    case None => None
    case Some((f, next)) => match ApplyBook(m, f) case None => None case Some(n) => Some((n, next))
  }

  /** A tag is a 32-bit word. */
  function ReadTag(ptr: bytes): (r: Option<(nat, bytes)>)
    ensures r.Some? ==> |r.value.1| < |ptr|
  {
    match DecodeVarint(ptr, 5)
    case None => None
    case Some((tag, rest)) => Some((tag % 0x1_0000_0000, rest))
  }

  /** The message and the unread bytes after one more record. */
  function AfterRecord(m: Book, ptr: bytes): (r: Option<(Book, bytes)>)
    ensures r.Some? ==> |r.value.1| < |ptr|
  {
    match ReadTag(ptr)
    case None => None
    case Some((tag, rest)) => AfterTag(m, tag, rest)
  }

  function ParseOn(after: Option<(Book, bytes)>): Option<Book> {
    match after case None => None case Some((m, rest)) => ParseBook(m, rest)
  }

  lemma ParseTurn(m: Book, ptr: bytes)
    requires ptr != []
    ensures ParseBook(m, ptr) == ParseOn(AfterRecord(m, ptr))
  {
    ParseStep(m, ptr, ApplyBook);
  }

  lemma OneByteTag(ptr: bytes)
    requires ptr != [] && ptr[0] < 128
    ensures ReadTag(ptr) == Some((ptr[0], ptr[1..]))
  {
    OneByteVarint(ptr);
  }

  /** The byte 34 is the tag of one more page. */
  lemma PageTurn(m: Book, ptr: bytes)
    requires ptr != [] && ptr[0] == 34
    ensures AfterRecord(m, ptr) == AfterTag(m, 34, ptr[1..])
  {
    OneByteTag(ptr);
  }

  /** Every other tag is an unknown field. */
  lemma OtherBookTag(m: Book, tag: nat, rest: bytes)
    requires tag !in {8, 48, 56, 64, 80} && tag !in {18, 26, 34, 42, 74, 90}
    ensures AfterTag(m, tag, rest) == None
  {
    if tag % 8 == 0 {
      assert tag / 8 !in {1, 6, 7, 8, 10};
    } else if tag % 8 == 2 {
      assert tag / 8 !in {2, 3, 4, 5, 9, 11};
    }
  }

  // ---------------------------------------------------------------- the message object

  class BookMessage {
    var isbn: int64
    var title: bytes
    var author: Option<Sub<Author>>
    var pages: seq<Sub<Page>>
    var first: FirstOneof
    var availability: int32
    var recommended: int32
    var second: SecondUnion
    var cachedSize: nat

    function Value(): Book
      reads this
    {
      Book(isbn, title, AuthorOf(author), Unwrapped(pages), first, availability, recommended, SecondOf(second))
    }

    constructor ()
      ensures Value() == EMPTY_BOOK
    {
      isbn, title, author, pages := 0, [], None, [];
      first, availability, recommended, second, cachedSize := FirstNotSet, 0, 0, NotSet, 0;
    }

    method Clear()
      modifies this
      ensures Value() == EMPTY_BOOK
    {
      pages, title, author := [], [], None;
      isbn, availability, recommended := 0, 0, 0;
      first, second := FirstNotSet, NotSet;
    }

    // -------------------------------------------------------------- parsing

    /** Field 3: parse into the author that is there, or into a new one. */
    method ParseAuthor(p: bytes) returns (ok: bool)
      modifies this
      ensures ok <==> ApplyBookAuthor(old(Value()), p).Some?
      ensures ok ==> ApplyBookAuthor(old(Value()), p) == Some(Value())
    {
      if author.None? {
        author := Some(Sub(Author([]), 0));
      }
      var text;
      ok, text := ParseTextMessage(author.value.message.name, p);
      author := Some(author.value.(message := Author(text)));
    }

    /** Field 4: a new page at the end. */
    method ParsePageField(p: bytes) returns (ok: bool)
      modifies this
      ensures ok <==> ApplyBook(old(Value()), Delimited(4, p)).Some?
      ensures ok ==> ApplyBook(old(Value()), Delimited(4, p)) == Some(Value())
    {
      var lines;
      ok, lines := ParsePageMessage([], p);
      UnwrappedSnoc(pages, Sub(Page(lines), 0));
      pages := pages + [Sub(Page(lines), 0)];
    }

    /** Field 11: another member of the oneof is cleared first. */
    method ParseMessage(p: bytes) returns (ok: bool)
      modifies this
      ensures ok <==> ApplyBookMessage(old(Value()), p).Some?
      ensures ok ==> ApplyBookMessage(old(Value()), p) == Some(Value())
    {
      if !second.Msg? {
        second := Msg(Sub(InsideOneOfMessage([]), 0));
      }
      var text;
      ok, text := ParseTextMessage(second.sub.message.field, p);
      second := Msg(second.sub.(message := InsideOneOfMessage(text)));
    }

    /** The varint cases of the switch. */
    method ParseNumber(number: nat, w: word)
      requires number in {1, 6, 7, 8, 10}
      modifies this
      ensures ApplyBook(old(Value()), Varint(number, w)) == Some(Value())
    {
      if number == 1 {
        isbn := FromWord(w);
      } else if number == 6 {
        first := FirstInt(FromWord(w));
      } else if number == 7 {
        availability := ToEnum(w);
      } else if number == 8 {
        recommended := ToEnum(w);
      } else {
        second := Int(FromWord(w));
      }
    }

    /** The length-delimited cases of the switch. */
    method ParsePayload(number: nat, p: bytes) returns (ok: bool)
      requires number in {2, 3, 4, 5, 9, 11}
      modifies this
      ensures ok <==> ApplyBook(old(Value()), Delimited(number, p)).Some?
      ensures ok ==> ApplyBook(old(Value()), Delimited(number, p)) == Some(Value())
    {
      if number == 3 {
        ok := ParseAuthor(p);
      } else if number == 4 {
        ok := ParsePageField(p);
      } else if number == 11 {
        ok := ParseMessage(p);
      } else {
        ok := ValidUtf8(p);
        if ok {
          if number == 2 {
            title := p;
          } else if number == 5 {
            first := FirstString(p);
          } else {
            second := Str(p);
          }
        }
      }
    }

    /** One turn of the parse loop after the tag was read. */
    method ParseField(tag: nat, rest: bytes) returns (ok: bool, next: bytes)
      modifies this
      ensures AfterTag(old(Value()), tag, rest) == if ok then Some((Value(), next)) else None
      ensures |next| <= |rest|
    {
      next := [];
      if tag in {8, 48, 56, 64, 80} {
        var read := DecodeVarint(rest, 10);
        ok := read.Some?;
        if ok {
          next := read.value.1;
          ParseNumber(tag / 8, read.value.0 % WORD);
        }
      } else if tag in {18, 26, 34, 42, 74, 90} {
        var payload := DecodePayload(tag / 8, rest);
        ok := payload.Some?;
        if ok {
          next := payload.value.1;
          ok := ParsePayload(tag / 8, payload.value.0.payload);
        }
      } else {
        OtherBookTag(Value(), tag, rest);
        ok := false;
      }
    }

    /** A run of pages does not go back to the tag switch. */
    method ParsePageRun(b: bytes) returns (ok: bool, ptr: bytes)
      modifies this
      ensures |ptr| <= |b|
      ensures ParseBook(old(Value()), b) == if ok then ParseBook(Value(), ptr) else None
    {
      ok, ptr := true, b;
      while ok && ptr != [] && ptr[0] == 34
        invariant |ptr| <= |b|
        invariant ParseBook(old(Value()), b) == if ok then ParseBook(Value(), ptr) else None
        decreases ok, |ptr|
      {
        ParseTurn(Value(), ptr);
        PageTurn(Value(), ptr);
        ok, ptr := ParseField(34, ptr[1..]);
      }
    }

    method InternalParse(b: bytes) returns (ok: bool)
      modifies this
      ensures ok <==> ParseBook(old(Value()), b).Some?
      ensures ok ==> ParseBook(old(Value()), b) == Some(Value())
    {
      var ptr := b;
      while ptr != []
        invariant ParseBook(old(Value()), b) == ParseBook(Value(), ptr)
        decreases |ptr|
      {
        ParseTurn(Value(), ptr);
        var read := DecodeVarint(ptr, 5);
        if read.None? {
          return false;
        }
        var tag := read.value.0 % 0x1_0000_0000;
        ok, ptr := ParseField(tag, read.value.1);
        if ok && tag == 34 {
          ok, ptr := ParsePageRun(ptr);
        }
        if !ok {
          return;
        }
      }
      ok := true;
    }

    // -------------------------------------------------------------- size and bytes

    /** Every submessage has its own size cached. */
    ghost predicate Measured()
      reads this
    {
      MeasuredAuthor(author) && MeasuredPages(pages) && MeasuredSecond(second)
    }

    /** The pages, each measured once. */
    method PagesByteSize() returns (size: nat)
      modifies this`pages
      ensures Value() == old(Value()) && MeasuredPages(pages)
      ensures size == |Encode(PagesFields(Value().pages))|
    {
      size, pages := MeasurePages(pages);
    }

    method MeasureAuthor() returns (size: nat)
      modifies this`author
      ensures Value() == old(Value()) && MeasuredAuthor(author)
      ensures size == AuthorSize(Value().author)
    {
      size := 0;
      if author.Some? {
        var n := TextByteSize(author.value.message.name);
        author := Some(author.value.(size := n));
        size := 1 + VarintSize(n) + n;
      }
    }

    method MeasureSecond() returns (size: nat)
      modifies this`second
      ensures Value() == old(Value()) && MeasuredSecond(second)
      ensures size == SecondSize(Value().second)
    {
      match second {
        case Str(s) => size := 1 + VarintSize(|s|) + |s|;
        case Int(n) => size := 1 + VarintSize(ToWord(n));
        case Msg(sub) =>
          var n := TextByteSize(sub.message.field);
          second := Msg(sub.(size := n));
          size := 1 + VarintSize(n) + n;
        case NotSet => size := 0;
      }
    }

    /** The fields in the order in which the size is summed up, which is not the order in which they are written. */
    method ByteSizeLong() returns (size: nat)
      modifies this`cachedSize, this`author, this`pages, this`second
      ensures Value() == old(Value()) && Measured()
      ensures size == cachedSize == |SerializeBook(Value())|
    {
      SizeByGroups(Value());
      size := PagesByteSize();
      size := size + TitleSize(title);
      var n := MeasureAuthor();
      size := size + n + NumbersSize(Value()) + FirstSize(first);
      n := MeasureSecond();
      size := size + n;
      cachedSize := size;
    }

    // -------------------------------------------------------------- writing

    method WriteAuthor(target: bytes) returns (out: bytes)
      requires MeasuredAuthor(author)
      ensures out == target + Encode(AuthorFields(Value()))
    {
      out := target;
      if author.Some? {
        var name := author.value.message.name;
        OneField(Delimited(3, Encode(TextFields(name))));
        out := out + Record(3, author.value.size, WriteText(name));
      }
    }

    method WriteFirst(target: bytes) returns (out: bytes)
      ensures out == target + Encode(FirstFields(Value()))
    {
      match first {
        case FirstString(s) =>
          OneField(Delimited(5, s));
          out := target + Record(5, |s|, s);
        case FirstInt(n) =>
          OneField(Varint(6, ToWord(n)));
          out := target + NumberRecord(6, ToWord(n));
        case FirstNotSet => out := target;
      }
    }

    method WriteSecond(target: bytes) returns (out: bytes)
      requires MeasuredSecond(second)
      ensures out == target + Encode(SecondFields(Value()))
    {
      match second {
        case Str(s) =>
          OneField(Delimited(9, s));
          out := target + Record(9, |s|, s);
        case Int(n) =>
          OneField(Varint(10, ToWord(n)));
          out := target + NumberRecord(10, ToWord(n));
        case Msg(sub) =>
          OneField(Delimited(11, Encode(TextFields(sub.message.field))));
          out := target + Record(11, sub.size, WriteText(sub.message.field));
        case NotSet => out := target;
      }
    }

    method WriteHead(target: bytes) returns (out: bytes)
      ensures out == target + Encode(IsbnFields(Value())) + Encode(TitleFields(Value()))
    {
      out := target;
      if isbn != 0 {
        OneField(Varint(1, ToWord(isbn)));
        out := out + NumberRecord(1, ToWord(isbn));
      }
      if |title| > 0 {
        OneField(Delimited(2, title));
        out := out + Record(2, |title|, title);
      }
    }

    method WriteChoices(target: bytes) returns (out: bytes)
      ensures out == target + Encode(AvailabilityFields(Value())) + Encode(RecommendedFields(Value()))
    {
      out := target;
      if availability != 0 {
        OneField(Varint(7, ToWord(availability)));
        out := out + NumberRecord(7, ToWord(availability));
      }
      if recommended != 0 {
        OneField(Varint(8, ToWord(recommended)));
        out := out + NumberRecord(8, ToWord(recommended));
      }
    }

    /** Every length prefix is a size cached before; the fields go out in the order of their numbers. */
    method InternalSerialize(target: bytes) returns (out: bytes)
      requires Measured()
      ensures out == target + SerializeBook(Value())
    {
      WrittenByGroups(Value(), target);
      out := WriteHead(target);
      out := WriteAuthor(out);
      out := WritePages(pages, out);
      out := WriteFirst(out);
      out := WriteChoices(out);
      out := WriteSecond(out);
    }

    /** Size first, then write: the sum of the sizes is the number of bytes written. */
    method SerializeToBytes() returns (out: bytes)
      modifies this`cachedSize, this`author, this`pages, this`second
      ensures Value() == old(Value())
      ensures out == SerializeBook(Value()) && |out| == cachedSize
    {
      var size := ByteSizeLong();
      out := InternalSerialize([]);
    }

    // -------------------------------------------------------------- merging

    method MergeScalars(from: BookMessage)
      requires from != this
      modifies this`isbn, this`title, this`availability, this`recommended, this`first
      ensures isbn == if from.isbn != 0 then from.isbn else old(isbn)
      ensures title == if from.title != [] then from.title else old(title)
      ensures availability == if from.availability != 0 then from.availability else old(availability)
      ensures recommended == if from.recommended != 0 then from.recommended else old(recommended)
      ensures first == if from.first.FirstNotSet? then old(first) else from.first
    {
      if |from.title| > 0 {
        title := from.title;
      }
      if from.isbn != 0 {
        isbn := from.isbn;
      }
      if from.availability != 0 {
        availability := from.availability;
      }
      if from.recommended != 0 {
        recommended := from.recommended;
      }
      if !from.first.FirstNotSet? {
        first := from.first;
      }
    }

    method MergeAuthor(name: bytes)
      modifies this`author
      ensures AuthorOf(author) == MergeAuthors(AuthorOf(old(author)), Some(Author(name)))
    {
      if author.None? {
        author := Some(Sub(Author([]), 0));
      }
      if |name| > 0 {
        author := Some(author.value.(message := Author(name)));
      }
    }

    method MergeUnion(from: SecondUnion)
      modifies this`second
      ensures SecondOf(second) == Messages.MergeSecond(SecondOf(old(second)), SecondOf(from))
    {
      if from.Msg? {
        if !second.Msg? {
          second := Msg(Sub(InsideOneOfMessage([]), 0));
        }
        if |from.sub.message.field| > 0 {
          second := Msg(second.sub.(message := from.sub.message));
        }
      } else if !from.NotSet? {
        second := from;
      }
    }

    method MergeFrom(from: BookMessage)
      requires from != this
      modifies this
      ensures Value() == Merge(old(Value()), from.Value())
    {
      UnwrappedConcat(pages, from.pages);
      pages := pages + from.pages;
      if from.author.Some? {
        MergeAuthor(from.author.value.message.name);
      }
      MergeScalars(from);
      MergeUnion(from.second);
    }

    method CopyFrom(from: BookMessage)
      modifies this
      ensures Value() == old(from.Value())
    {
      if from == this {
        return;
      }
      Clear();
      MergeFrom(from);
      MergeIntoEmpty(from.Value());
    }
  }
}

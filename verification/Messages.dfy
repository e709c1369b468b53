/**
  The messages of the sample schema: what `_InternalSerialize` writes, what `_InternalParse` reads into a message,
  and `MergeFrom`, as functions on values. Inputs with unknown fields or other wire types are outside the model.
 */
module Messages {
  import opened Lists
  import opened Wire

  // ---------------------------------------------------------------- parsing any message

  /** The parse loop: apply the records one after the other to the message being built. */
  function Fold<M>(m: M, fs: seq<Field>, apply: (M, Field) -> Option<M>): Option<M>
    decreases |fs|
  {
    if fs == [] then Some(m)
    else
      match apply(m, fs[0])
      case None => None
      case Some(next) => Fold(next, fs[1..], apply)
  }

  function Parse<M>(m: M, b: bytes, apply: (M, Field) -> Option<M>): Option<M> {
    match Decode(b)
    case None => None
    case Some(fs) => Fold(m, fs, apply)
  }

  lemma {:induction false} FoldConcat<M>(m: M, fs: seq<Field>, gs: seq<Field>, apply: (M, Field) -> Option<M>)
    ensures Fold(m, fs + gs, apply) ==
            match Fold(m, fs, apply) case None => None case Some(next) => Fold(next, gs, apply)
    decreases |fs|
  {
    if fs == [] {
      assert fs + gs == gs;
    } else {
      assert (fs + gs)[0] == fs[0] && (fs + gs)[1..] == fs[1..] + gs;
      if apply(m, fs[0]).Some? {
        FoldConcat(apply(m, fs[0]).value, fs[1..], gs, apply);
      }
    }
  }

  /** Parsing a message in two pieces is parsing the second piece into what the first one gave. */
  lemma ParseConcat<M>(m: M, b: bytes, more: bytes, apply: (M, Field) -> Option<M>)
    requires Parse(m, b, apply).Some?
    ensures Parse(m, b + more, apply) == Parse(Parse(m, b, apply).value, more, apply)
  {
    DecodeConcat(b, more);
    if Decode(more).Some? {
      FoldConcat(m, Decode(b).value, Decode(more).value, apply);
    }
  }

  lemma ParseEncode<M>(m: M, fs: seq<Field>, apply: (M, Field) -> Option<M>)
    requires forall f | f in fs :: Writable(f)
    ensures Parse(m, Encode(fs), apply) == Fold(m, fs, apply)
  {
    DecodeEncode(fs);
  }

  // ---------------------------------------------------------------- UTF-8

  predicate Continuation(b: bytes, i: nat) { i < |b| && 0x80 <= b[i] < 0xC0 }

  /** The length of the well-formed UTF-8 sequence at the start of `b`, or 0 (Unicode Standard, table 3-7). */
  function Utf8Unit(b: bytes): (n: nat)
    ensures n <= |b|
  {
    if b == [] then 0
    else if b[0] < 0x80 then 1
    else if 0xC2 <= b[0] < 0xE0 && Continuation(b, 1) then 2
    else if 0xE0 <= b[0] < 0xF0 && Continuation(b, 1) && Continuation(b, 2)
            && (b[0] == 0xE0 ==> b[1] >= 0xA0) && (b[0] == 0xED ==> b[1] < 0xA0) then 3
    else if 0xF0 <= b[0] < 0xF5 && Continuation(b, 1) && Continuation(b, 2) && Continuation(b, 3)
            && (b[0] == 0xF0 ==> b[1] >= 0x90) && (b[0] == 0xF4 ==> b[1] < 0x90) then 4
    else 0
  }

  predicate ValidUtf8(b: bytes)
    decreases |b|
  {
    b == [] || (Utf8Unit(b) > 0 && ValidUtf8(b[Utf8Unit(b)..]))
  }

  // ---------------------------------------------------------------- Author, InsideOneOfMessage, Page

  datatype Author = Author(name: bytes)
  datatype InsideOneOfMessage = InsideOneOfMessage(field: bytes)
  datatype Page = Page(lines: seq<bytes>)

  /** The records of a message whose only field is a string with number 1. */
  function TextFields(text: bytes): seq<Field> {
    if text == [] then [] else [Delimited(1, text)]
  }

  function ReadString(f: Field, number: nat): Option<bytes> {
    if f.Delimited? && f.number == number && ValidUtf8(f.payload) then Some(f.payload) else None
  }

  /** The switch of `Author::_InternalParse` and `InsideOneOfMessage::_InternalParse`: one string, number 1. */
  function ApplyText(text: bytes, f: Field): Option<bytes> {
    ReadString(f, 1)
  }

  function ApplyPage(m: Page, f: Field): Option<Page> {
    match ReadString(f, 1) case None => None case Some(s) => Some(Page(m.lines + [s]))
  }

  /** `MergeFrom` of the two one-string messages. */
  function MergeText(text: bytes, from: bytes): bytes {
    if from == [] then text else from
  }

  function MergePage(m: Page, from: Page): Page {
    Page(m.lines + from.lines)
  }

  function LineFields(lines: seq<bytes>): (fs: seq<Field>)
    ensures |fs| == |lines|
  {
    if lines == [] then [] else [Delimited(1, lines[0])] + LineFields(lines[1..])
  }

  function PageFields(m: Page): seq<Field> { LineFields(m.lines) }

  // ---------------------------------------------------------------- Book

  datatype FirstOneof = FirstNotSet | FirstString(text: bytes) | FirstInt(value: int64)
  datatype SecondOneof =
    | SecondNotSet
    | SecondString(text: bytes)
    | SecondInt(value: int64)
    | SecondMessage(message: InsideOneOfMessage)

  datatype Book = Book(
    isbn: int64,
    title: bytes,
    author: Option<Author>,
    pages: seq<Page>,
    first: FirstOneof,
    availability: int32,
    recommended: int32,
    second: SecondOneof)

  const EMPTY_BOOK: Book := Book(0, [], None, [], FirstNotSet, 0, 0, SecondNotSet)

  function IsbnFields(b: Book): seq<Field> { if b.isbn != 0 then [Varint(1, ToWord(b.isbn))] else [] }

  function TitleFields(b: Book): seq<Field> { if b.title != [] then [Delimited(2, b.title)] else [] }

  function AuthorFields(b: Book): seq<Field> {
    if b.author.Some? then [Delimited(3, Encode(TextFields(b.author.value.name)))] else []
  }

  function PagesFields(pages: seq<Page>): (fs: seq<Field>)
    ensures |fs| == |pages|
  {
    if pages == [] then [] else [Delimited(4, Encode(PageFields(pages[0])))] + PagesFields(pages[1..])
  }

  function FirstFields(b: Book): seq<Field> {
    match b.first
    case FirstString(s) => [Delimited(5, s)]
    case FirstInt(n) => [Varint(6, ToWord(n))]
    case FirstNotSet => []
  }

  function AvailabilityFields(b: Book): seq<Field> {
    if b.availability != 0 then [Varint(7, ToWord(b.availability))] else []
  }

  function RecommendedFields(b: Book): seq<Field> {
    if b.recommended != 0 then [Varint(8, ToWord(b.recommended))] else []
  }

  function SecondFields(b: Book): seq<Field> {
    match b.second
    case SecondString(s) => [Delimited(9, s)]
    case SecondInt(n) => [Varint(10, ToWord(n))]
    case SecondMessage(m) => [Delimited(11, Encode(TextFields(m.field)))]
    case SecondNotSet => []
  }

  /** The records in the order of their numbers. */
  function BookFields(b: Book): seq<Field> {
    IsbnFields(b) + (TitleFields(b) + (AuthorFields(b) + (PagesFields(b.pages) + (FirstFields(b)
    + (AvailabilityFields(b) + (RecommendedFields(b) + SecondFields(b)))))))
  }

  function SerializeBook(b: Book): bytes { Encode(BookFields(b)) }

  function NameOf(a: Option<Author>): bytes { if a.Some? then a.value.name else [] }

  /** `_internal_mutable_author`: parse into the author that is there, or into a new one. */
  function ApplyBookAuthor(m: Book, p: bytes): Option<Book> {
    match Parse(NameOf(m.author), p, ApplyText) case None => None case Some(s) => Some(m.(author := Some(Author(s))))
  }

  function FieldOf(s: SecondOneof): bytes { if s.SecondMessage? then s.message.field else [] }

  /** `_internal_mutable_second_oneof_message`: another member of the oneof is cleared first. */
  function ApplyBookMessage(m: Book, p: bytes): Option<Book> {
    match Parse(FieldOf(m.second), p, ApplyText)
    case None => None
    case Some(s) => Some(m.(second := SecondMessage(InsideOneOfMessage(s))))
  }

  function ApplyBook(m: Book, f: Field): Option<Book> {
    match f
    case Varint(n, w) =>
      if n == 1 then Some(m.(isbn := FromWord(w)))
      else if n == 6 then Some(m.(first := FirstInt(FromWord(w))))
      else if n == 7 then Some(m.(availability := ToEnum(w)))
      else if n == 8 then Some(m.(recommended := ToEnum(w)))
      else if n == 10 then Some(m.(second := SecondInt(FromWord(w))))
      else None
    case Delimited(n, p) =>
      if n == 2 then
        if ValidUtf8(p) then Some(m.(title := p)) else None
      else if n == 3 then ApplyBookAuthor(m, p)
      else if n == 4 then
        match Parse(Page([]), p, ApplyPage) case None => None case Some(page) => Some(m.(pages := m.pages + [page]))
      else if n == 5 then
        if ValidUtf8(p) then Some(m.(first := FirstString(p))) else None
      else if n == 9 then
        if ValidUtf8(p) then Some(m.(second := SecondString(p))) else None
      else if n == 11 then ApplyBookMessage(m, p)
      else None
  }

  function ParseBook(m: Book, b: bytes): Option<Book> { Parse(m, b, ApplyBook) }

  function MergeAuthors(m: Option<Author>, from: Option<Author>): Option<Author> {
    if from.None? then m else Some(Author(MergeText(NameOf(m), from.value.name)))
  }

  function MergeSecond(m: SecondOneof, from: SecondOneof): SecondOneof {
    match from
    case SecondNotSet => m
    case SecondMessage(i) => SecondMessage(InsideOneOfMessage(MergeText(FieldOf(m), i.field)))
    case _ => from
  }

  /** `MergeFrom`. */
  function Merge(m: Book, from: Book): Book {
    Book(
      if from.isbn != 0 then from.isbn else m.isbn,
      if from.title != [] then from.title else m.title,
      MergeAuthors(m.author, from.author),
      m.pages + from.pages,
      if from.first.FirstNotSet? then m.first else from.first,
      if from.availability != 0 then from.availability else m.availability,
      if from.recommended != 0 then from.recommended else m.recommended,
      MergeSecond(m.second, from.second))
  }

  predicate PageUtf8(p: Page) { forall line | line in p.lines :: ValidUtf8(line) }

  predicate PagesUtf8(pages: seq<Page>) { forall p | p in pages :: PageUtf8(p) }

  /** Every string of the message is UTF-8: what the parser checks and the serializer only reports. */
  predicate BookUtf8(b: Book) {
    && ValidUtf8(b.title)
    && (b.author.Some? ==> ValidUtf8(b.author.value.name))
    && PagesUtf8(b.pages)
    && (b.first.FirstString? ==> ValidUtf8(b.first.text))
    && (b.second.SecondString? ==> ValidUtf8(b.second.text))
    && (b.second.SecondMessage? ==> ValidUtf8(b.second.message.field))
  }
}

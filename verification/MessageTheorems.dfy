/** What the codec of the sample messages promises. */
module MessageTheorems {
  import opened Lists
  import opened Wire
  import opened Messages

  // ---------------------------------------------------------------- records fit

  lemma {:induction false} PayloadsFit(fs: seq<Field>, f: Field)
    requires f in fs
    ensures f.Delimited? ==> |f.payload| < |Encode(fs)|
  {
    if f == fs[0] {
      assert f.Delimited? ==> |EncodeField(f)| > |f.payload|;
    } else {
      PayloadsFit(fs[1..], f);
    }
  }

  lemma LineFieldNumbers(lines: seq<bytes>)
    ensures forall f | f in LineFields(lines) :: f.number == 1 && f.Delimited? && f.payload in lines
  {
  }

  ghost predicate Numbered(fs: seq<Field>) {
    forall f | f in fs :: 1 <= f.number < 16
  }

  lemma PagesNumbered(pages: seq<Page>)
    ensures Numbered(PagesFields(pages))
  {
  }

  lemma BothNumbered(fs: seq<Field>, gs: seq<Field>)
    requires Numbered(fs) && Numbered(gs)
    ensures Numbered(fs + gs)
  {
  }

  lemma BookNumbered(b: Book)
    ensures Numbered(BookFields(b))
  {
    PagesNumbered(b.pages);
    BothNumbered(RecommendedFields(b), SecondFields(b));
    var tail := RecommendedFields(b) + SecondFields(b);
    BothNumbered(AvailabilityFields(b), tail);
    tail := AvailabilityFields(b) + tail;
    BothNumbered(FirstFields(b), tail);
    tail := FirstFields(b) + tail;
    BothNumbered(PagesFields(b.pages), tail);
    tail := PagesFields(b.pages) + tail;
    BothNumbered(AuthorFields(b), tail);
    tail := AuthorFields(b) + tail;
    BothNumbered(TitleFields(b), tail);
    BothNumbered(IsbnFields(b), TitleFields(b) + tail);
  }

  lemma BookWritable(b: Book)
    requires |SerializeBook(b)| < MAX_LENGTH
    ensures forall f | f in BookFields(b) :: Writable(f)
  {
    forall f | f in BookFields(b) ensures Writable(f) {
      PayloadsFit(BookFields(b), f);
      BookNumbered(b);
    }
  }

  // ---------------------------------------------------------------- nested messages

  lemma ParseText(text: bytes, from: bytes)
    requires |from| < MAX_LENGTH
    ensures Parse(text, Encode(TextFields(from)), ApplyText) ==
            if ValidUtf8(from) then Some(MergeText(text, from)) else None
  {
    ParseEncode(text, TextFields(from), ApplyText);
  }

  lemma {:induction false} FoldLines(m: Page, lines: seq<bytes>)
    ensures Fold(m, LineFields(lines), ApplyPage) ==
            if PageUtf8(Page(lines)) then Some(MergePage(m, Page(lines))) else None
    decreases |lines|
  {
    if lines == [] {
      assert m.lines + lines == m.lines;
    } else {
      var next := Page(m.lines + [lines[0]]);
      FoldLines(next, lines[1..]);
      assert LineFields(lines)[1..] == LineFields(lines[1..]);
      assert PageUtf8(Page(lines)) <==> ValidUtf8(lines[0]) && PageUtf8(Page(lines[1..])) by {
        assert lines == [lines[0]] + lines[1..];
      }
      assert next.lines + lines[1..] == m.lines + lines;
    }
  }

  lemma ParsePage(m: Page, from: Page)
    requires |Encode(PageFields(from))| < MAX_LENGTH
    ensures Parse(m, Encode(PageFields(from)), ApplyPage) ==
            if PageUtf8(from) then Some(MergePage(m, from)) else None
  {
    LineFieldNumbers(from.lines);
    forall f | f in PageFields(from) ensures Writable(f) {
      PayloadsFit(PageFields(from), f);
    }
    ParseEncode(m, PageFields(from), ApplyPage);
    FoldLines(m, from.lines);
  }

  // ---------------------------------------------------------------- the fields of a book, group by group

  lemma FoldOne<M>(m: M, f: Field, apply: (M, Field) -> Option<M>)
    ensures Fold(m, [f], apply) == apply(m, f)
  {
    assert [f][1..] == [];
  }

  lemma FoldIsbn(m: Book, b: Book)
    ensures Fold(m, IsbnFields(b), ApplyBook) == Some(m.(isbn := if b.isbn != 0 then b.isbn else m.isbn))
  {
    if b.isbn != 0 {
      FoldOne(m, IsbnFields(b)[0], ApplyBook);
      WordRoundTrip(b.isbn);
    }
  }

  lemma FoldTitle(m: Book, b: Book)
    ensures Fold(m, TitleFields(b), ApplyBook) ==
            if ValidUtf8(b.title) then Some(m.(title := if b.title != [] then b.title else m.title)) else None
  {
    if b.title != [] {
      FoldOne(m, TitleFields(b)[0], ApplyBook);
    }
  }

  lemma FoldAuthor(m: Book, b: Book)
    requires b.author.Some? ==> |b.author.value.name| < MAX_LENGTH
    ensures Fold(m, AuthorFields(b), ApplyBook) ==
            if b.author.Some? ==> ValidUtf8(b.author.value.name)
            then Some(m.(author := MergeAuthors(m.author, b.author))) else None
  {
    if b.author.Some? {
      FoldOne(m, AuthorFields(b)[0], ApplyBook);
      ParseText(NameOf(m.author), b.author.value.name);
    }
  }

  lemma ApplyPages(m: Book, p: Page)
    requires |Encode(PageFields(p))| < MAX_LENGTH
    ensures ApplyBook(m, Delimited(4, Encode(PageFields(p)))) ==
            if PageUtf8(p) then Some(m.(pages := m.pages + [p])) else None
  {
    ParsePage(Page([]), p);
    assert [] + p.lines == p.lines;
  }

  lemma FoldFirstField<M>(m: M, f: Field, fs: seq<Field>, apply: (M, Field) -> Option<M>)
    ensures Fold(m, [f] + fs, apply) == match apply(m, f) case None => None case Some(next) => Fold(next, fs, apply)
  {
    assert ([f] + fs)[1..] == fs;
  }

  lemma {:induction false} FoldPages(m: Book, pages: seq<Page>)
    requires forall p | p in pages :: |Encode(PageFields(p))| < MAX_LENGTH
    ensures Fold(m, PagesFields(pages), ApplyBook) ==
            if PagesUtf8(pages) then Some(m.(pages := m.pages + pages)) else None
    decreases |pages|
  {
    if pages == [] {
      assert m.pages + pages == m.pages;
    } else {
      var p, rest := pages[0], pages[1..];
      ApplyPages(m, p);
      FoldFirstField(m, Delimited(4, Encode(PageFields(p))), PagesFields(rest), ApplyBook);
      FoldPages(m.(pages := m.pages + [p]), rest);
      assert pages == [p] + rest;
      ConcatAssociates(m.pages, [p], rest);
    }
  }

  lemma FoldFirst(m: Book, b: Book)
    ensures Fold(m, FirstFields(b), ApplyBook) ==
            if b.first.FirstString? ==> ValidUtf8(b.first.text)
            then Some(m.(first := if b.first.FirstNotSet? then m.first else b.first)) else None
  {
    if !b.first.FirstNotSet? {
      FoldOne(m, FirstFields(b)[0], ApplyBook);
      if b.first.FirstInt? {
        WordRoundTrip(b.first.value);
      }
    }
  }

  lemma FoldAvailability(m: Book, b: Book)
    ensures Fold(m, AvailabilityFields(b), ApplyBook) ==
            Some(m.(availability := if b.availability != 0 then b.availability else m.availability))
  {
    if b.availability != 0 {
      FoldOne(m, AvailabilityFields(b)[0], ApplyBook);
      EnumRoundTrip(b.availability);
    }
  }

  lemma FoldRecommended(m: Book, b: Book)
    ensures Fold(m, RecommendedFields(b), ApplyBook) ==
            Some(m.(recommended := if b.recommended != 0 then b.recommended else m.recommended))
  {
    if b.recommended != 0 {
      FoldOne(m, RecommendedFields(b)[0], ApplyBook);
      EnumRoundTrip(b.recommended);
    }
  }

  predicate SecondUtf8(s: SecondOneof) {
    && (s.SecondString? ==> ValidUtf8(s.text))
    && (s.SecondMessage? ==> ValidUtf8(s.message.field))
  }

  lemma FoldSecond(m: Book, b: Book)
    requires b.second.SecondMessage? ==> |b.second.message.field| < MAX_LENGTH
    ensures Fold(m, SecondFields(b), ApplyBook) ==
            if SecondUtf8(b.second) then Some(m.(second := MergeSecond(m.second, b.second))) else None
  {
    if !b.second.SecondNotSet? {
      FoldOne(m, SecondFields(b)[0], ApplyBook);
      if b.second.SecondInt? {
        WordRoundTrip(b.second.value);
      } else if b.second.SecondMessage? {
        ParseText(FieldOf(m.second), b.second.message.field);
      }
    }
  }

  // ---------------------------------------------------------------- the whole book

  /** Sizes of the nested messages, as the length prefixes write them. */
  ghost predicate NestedFit(b: Book) {
    && (b.author.Some? ==> |b.author.value.name| < MAX_LENGTH)
    && (forall p | p in b.pages :: |Encode(PageFields(p))| < MAX_LENGTH)
    && (b.second.SecondMessage? ==> |b.second.message.field| < MAX_LENGTH)
  }

  lemma FoldTwo(m: Book, fs: seq<Field>, gs: seq<Field>, ok: bool, next: Book, result: Option<Book>)
    requires Fold(m, fs, ApplyBook) == if ok then Some(next) else None
    requires ok ==> Fold(next, gs, ApplyBook) == result
    ensures Fold(m, fs + gs, ApplyBook) == if ok then result else None
  {
    FoldConcat(m, fs, gs, ApplyBook);
  }

  /** The last four groups. */
  lemma FoldRear(m: Book, b: Book)
    requires NestedFit(b)
    ensures Fold(m, FirstFields(b) + (AvailabilityFields(b) + (RecommendedFields(b) + SecondFields(b))), ApplyBook) ==
            if (b.first.FirstString? ==> ValidUtf8(b.first.text)) && SecondUtf8(b.second)
            then Some(m.(first := if b.first.FirstNotSet? then m.first else b.first,
                         availability := if b.availability != 0 then b.availability else m.availability,
                         recommended := if b.recommended != 0 then b.recommended else m.recommended,
                         second := MergeSecond(m.second, b.second)))
            else None
  {
    var m1 := m.(first := if b.first.FirstNotSet? then m.first else b.first);
    var m2 := m1.(availability := if b.availability != 0 then b.availability else m.availability);
    var m3 := m2.(recommended := if b.recommended != 0 then b.recommended else m.recommended);
    var r3 := Fold(m3, SecondFields(b), ApplyBook);
    FoldFirst(m, b);
    FoldAvailability(m1, b);
    FoldRecommended(m2, b);
    FoldSecond(m3, b);
    FoldTwo(m2, RecommendedFields(b), SecondFields(b), true, m3, r3);
    FoldTwo(m1, AvailabilityFields(b), RecommendedFields(b) + SecondFields(b), true, m2, r3);
    FoldTwo(m, FirstFields(b), AvailabilityFields(b) + (RecommendedFields(b) + SecondFields(b)),
            b.first.FirstString? ==> ValidUtf8(b.first.text), m1, r3);
  }

  lemma FoldBook(m: Book, b: Book)
    requires NestedFit(b)
    ensures Fold(m, BookFields(b), ApplyBook) == if BookUtf8(b) then Some(Merge(m, b)) else None
  {
    var m1 := m.(isbn := if b.isbn != 0 then b.isbn else m.isbn);
    var m2 := m1.(title := if b.title != [] then b.title else m.title);
    var m3 := m2.(author := MergeAuthors(m.author, b.author));
    var m4 := m3.(pages := m.pages + b.pages);
    var rear := FirstFields(b) + (AvailabilityFields(b) + (RecommendedFields(b) + SecondFields(b)));
    var result := Fold(m4, rear, ApplyBook);
    FoldIsbn(m, b);
    FoldTitle(m1, b);
    FoldAuthor(m2, b);
    FoldPages(m3, b.pages);
    FoldRear(m4, b);
    var pages := PagesUtf8(b.pages);
    var author := b.author.Some? ==> ValidUtf8(b.author.value.name);
    FoldTwo(m3, PagesFields(b.pages), rear, pages, m4, result);
    result := if pages then result else None;
    FoldTwo(m2, AuthorFields(b), PagesFields(b.pages) + rear, author, m3, result);
    result := if author then result else None;
    FoldTwo(m1, TitleFields(b), AuthorFields(b) + (PagesFields(b.pages) + rear), ValidUtf8(b.title), m2, result);
    result := if ValidUtf8(b.title) then result else None;
    FoldTwo(m, IsbnFields(b), TitleFields(b) + (AuthorFields(b) + (PagesFields(b.pages) + rear)), true, m1, result);
  }

  ghost predicate AllWritable(fs: seq<Field>) {
    forall f | f in fs :: Writable(f)
  }

  lemma PartsWritable(fs: seq<Field>, gs: seq<Field>)
    requires AllWritable(fs + gs)
    ensures AllWritable(fs) && AllWritable(gs)
  {
    assert forall f | f in fs :: f in fs + gs;
    assert forall f | f in gs :: f in fs + gs;
  }

  lemma {:induction false} PagesFit(pages: seq<Page>)
    requires AllWritable(PagesFields(pages))
    ensures forall p | p in pages :: |Encode(PageFields(p))| < MAX_LENGTH
  {
    if pages == [] {
    } else {
      PartsWritable([Delimited(4, Encode(PageFields(pages[0])))], PagesFields(pages[1..]));
      PagesFit(pages[1..]);
      assert Writable(Delimited(4, Encode(PageFields(pages[0]))));
    }
  }

  lemma TextFits(text: bytes)
    ensures |text| <= |Encode(TextFields(text))|
  {
    if text != [] {
      PayloadsFit(TextFields(text), Delimited(1, text));
    }
  }

  lemma SizesNested(b: Book)
    requires |SerializeBook(b)| < MAX_LENGTH
    ensures NestedFit(b)
  {
    BookWritable(b);
    var rear := RecommendedFields(b) + SecondFields(b);
    var rest := FirstFields(b) + (AvailabilityFields(b) + rear);
    PartsWritable(IsbnFields(b), TitleFields(b) + (AuthorFields(b) + (PagesFields(b.pages) + rest)));
    PartsWritable(TitleFields(b), AuthorFields(b) + (PagesFields(b.pages) + rest));
    PartsWritable(AuthorFields(b), PagesFields(b.pages) + rest);
    PartsWritable(PagesFields(b.pages), rest);
    PartsWritable(FirstFields(b), AvailabilityFields(b) + rear);
    PartsWritable(AvailabilityFields(b), rear);
    PartsWritable(RecommendedFields(b), SecondFields(b));
    PagesFit(b.pages);
    if b.author.Some? {
      assert Writable(AuthorFields(b)[0]);
      TextFits(b.author.value.name);
    }
    if b.second.SecondMessage? {
      assert Writable(SecondFields(b)[0]);
      TextFits(b.second.message.field);
    }
  }

  /**
    Parsing the serialized form of `b` into any message merges `b` into it; it fails exactly when some string of
    `b` is not UTF-8.
   */
  lemma ParseIsMerge(m: Book, b: Book)
    requires |SerializeBook(b)| < MAX_LENGTH
    ensures ParseBook(m, SerializeBook(b)) == if BookUtf8(b) then Some(Merge(m, b)) else None
  {
    BookWritable(b);
    SizesNested(b);
    ParseEncode(m, BookFields(b), ApplyBook);
    FoldBook(m, b);
  }

  /** `CopyFrom`, that is `Clear` and then `MergeFrom`, copies. */
  lemma MergeIntoEmpty(b: Book)
    ensures Merge(EMPTY_BOOK, b) == b
  {
    assert [] + b.pages == b.pages;
  }

  /** Section "Last One Wins": the bytes of `a` followed by those of `b` parse to the merge of `b` into `a`. */
  lemma ConcatenationMerges(a: Book, b: Book)
    requires |SerializeBook(a)| < MAX_LENGTH && |SerializeBook(b)| < MAX_LENGTH
    requires BookUtf8(a) && BookUtf8(b)
    ensures ParseBook(EMPTY_BOOK, SerializeBook(a) + SerializeBook(b)) == Some(Merge(a, b))
  {
    ParseIsMerge(EMPTY_BOOK, a);
    MergeIntoEmpty(a);
    ParseConcat(EMPTY_BOOK, SerializeBook(a), SerializeBook(b), ApplyBook);
    ParseIsMerge(a, b);
  }

  lemma MergeFromEmpty(b: Book)
    ensures Merge(b, EMPTY_BOOK) == b
  {
    assert b.pages + [] == b.pages;
  }

  /** `b` replaces the submessage of the second oneof by another member, and `c` brings back an empty submessage. */
  predicate ForgetsReplacement(a: Book, b: Book, c: Book) {
    && a.second.SecondMessage? && a.second.message.field != []
    && (b.second.SecondString? || b.second.SecondInt?)
    && c.second.SecondMessage? && c.second.message.field == []
  }

  /** Merging is associative except when the merge of `b` and `c` forgets that `b` had replaced `a`'s submessage. */
  lemma MergeAssociatesExactly(a: Book, b: Book, c: Book)
    ensures Merge(Merge(a, b), c) == Merge(a, Merge(b, c)) <==> !ForgetsReplacement(a, b, c)
  {
    ConcatAssociates(a.pages, b.pages, c.pages);
    var left, right := Merge(Merge(a, b), c), Merge(a, Merge(b, c));
    assert left.second == right.second <==> !ForgetsReplacement(a, b, c);
    assert left == right.(second := left.second);
  }

  lemma MergeNotAssociative(x: byte)
    ensures var a := EMPTY_BOOK.(second := SecondMessage(InsideOneOfMessage([x])));
            var b := EMPTY_BOOK.(second := SecondInt(0));
            var c := EMPTY_BOOK.(second := SecondMessage(InsideOneOfMessage([])));
            Merge(Merge(a, b), c) != Merge(a, Merge(b, c))
  {
  }

  /** Parse undoes serialize. */
  lemma BookRoundTrip(b: Book)
    requires |SerializeBook(b)| < MAX_LENGTH && BookUtf8(b)
    ensures ParseBook(EMPTY_BOOK, SerializeBook(b)) == Some(b)
  {
    ParseIsMerge(EMPTY_BOOK, b);
    MergeIntoEmpty(b);
  }

  /** Two books with the same bytes are the same book. */
  lemma SerializeInjective(a: Book, b: Book)
    requires |SerializeBook(a)| < MAX_LENGTH && BookUtf8(a) && BookUtf8(b)
    requires SerializeBook(a) == SerializeBook(b)
    ensures a == b
  {
    BookRoundTrip(a);
    BookRoundTrip(b);
  }
}

/** The text form of a Book: `"isbn", "title", "author", price`, written by
    `operator<<` and read back by `operator>>`. The price token is opaque:
    the writer is given its text, and the reader is given the double
    extractor as a function. */
module BookText {
  import opened Quoted
  import opened BookOrder

  /** The double extractor `in >> d` past its sentry: given input that is
      non-empty and starts with a non-blank, a price and the input after
      it, or failure. */
  type PriceParser = string -> Scan<real>

  /** The separator written between fields. */
  const Separator: string := ", "

  /** `out << book` with `priceText` standing for the formatted price: the
      record opens with the quoted ISBN, ends with the price text, and adds
      six delimiters and three separators to the field contents. */
  function Write(b: BookValue, priceText: string): (r: string)
    ensures |r| >= |b.isbn| + |b.title| + |b.author| + |priceText| + 12
    ensures r[0] == Delim
    ensures r[|r| - |priceText|..] == priceText
  {
    Encode(b.isbn) + Separator + Encode(b.title) + Separator + Encode(b.author) + Separator + priceText
  }

  /** `in >> d` for the price: the sentry skips whitespace and fails at end
      of input; the number itself is read by `parsePrice`. */
  function ReadPrice(s: string, parsePrice: PriceParser): (r: Scan<real>)
    ensures (forall i :: 0 <= i < |s| ==> IsSpace(s[i])) ==> r.ScanFailed?
  {
    var t := SkipWs(s);
    if t == [] then ScanFailed else parsePrice(t)
  }

  /** `in >> quoted(field) >> a`: a string field and the separator after
      it, which is any one non-blank character, read and discarded. */
  function ReadField(s: string): (r: Scan<string>)
    ensures r.Scanned? ==> |r.rest| < |s|
  {
    var field := Decode(s);
    if field.ScanFailed? then ScanFailed else
    var sep := ReadChar(field.rest);
    if sep.ScanFailed? then ScanFailed else
    Scanned(field.value, sep.rest)
  }

  /** `in >> quoted(isbn) >> a >> quoted(title) >> a >> quoted(author) >> a
      >> price`: the first extraction that fails fails the whole record, so
      input holding only whitespace never yields a book. */
  function ReadBook(text: string, parsePrice: PriceParser): (r: Scan<BookValue>)
    ensures (forall i :: 0 <= i < |text| ==> IsSpace(text[i])) ==> r.ScanFailed?
  {
    var isbn := ReadField(text);
    if isbn.ScanFailed? then ScanFailed else
    var title := ReadField(isbn.rest);
    if title.ScanFailed? then ScanFailed else
    var author := ReadField(title.rest);
    if author.ScanFailed? then ScanFailed else
    var price := ReadPrice(author.rest, parsePrice);
    if price.ScanFailed? then ScanFailed else
    Scanned(BookValue(isbn.value, title.value, author.value, price.value), price.rest)
  }

  /** A quoted field, after optional blanks, and the written separator are
      read back as the field, leaving the blank of the separator. */
  lemma ReadFieldEncode(ws: string, field: string, after: string)
    requires forall i :: 0 <= i < |ws| ==> IsSpace(ws[i])
    ensures ReadField(ws + (Encode(field) + (Separator + after))) == Scanned(field, [' '] + after)
  {
    DecodeEncodeAfterSpaces(ws, field, Separator + after);
    ReadSeparator(after);
  }

  /** The separator's comma is read as the discarded char, leaving its blank. */
  lemma ReadSeparator(after: string)
    ensures ReadChar(Separator + after) == Scanned(',', [' '] + after)
  {
    var s := Separator + after;
    assert s[0] == ',' && !IsSpace(s[0]);
    assert SkipWs(s) == s;
    assert s[1..] == [' '] + after;
  }

  /** The written record, with what follows it, regrouped field by field. */
  lemma WriteThen(b: BookValue, priceText: string, rest: string)
    ensures Write(b, priceText) + rest
         == Encode(b.isbn) + (Separator + (Encode(b.title) + (Separator + (Encode(b.author) + (Separator + (priceText + rest))))))
  {
  }

  /** What `operator<<` writes, `operator>>` reads back: the same ISBN,
      title and author, the price the price parser makes of the price text,
      and exactly the text that followed. */
  lemma WriteReadBook(b: BookValue, priceText: string, rest: string, parsePrice: PriceParser, p: real)
    requires priceText != [] && !IsSpace(priceText[0])
    requires parsePrice(priceText + rest) == Scanned(p, rest)
    ensures ReadBook(Write(b, priceText) + rest, parsePrice) == Scanned(BookValue(b.isbn, b.title, b.author, p), rest)
  {
    var afterAuthor := priceText + rest;
    var afterTitle := Encode(b.author) + (Separator + afterAuthor);
    var afterIsbn := Encode(b.title) + (Separator + afterTitle);
    var text := Write(b, priceText) + rest;
    assert ReadField(text) == Scanned(b.isbn, [' '] + afterIsbn) by {
      WriteThen(b, priceText, rest);
      assert text == [] + (Encode(b.isbn) + (Separator + afterIsbn));
      ReadFieldEncode([], b.isbn, afterIsbn);
    }
    assert ReadField([' '] + afterIsbn) == Scanned(b.title, [' '] + afterTitle) by {
      ReadFieldEncode([' '], b.title, afterTitle);
    }
    assert ReadField([' '] + afterTitle) == Scanned(b.author, [' '] + afterAuthor) by {
      ReadFieldEncode([' '], b.author, afterAuthor);
    }
    assert ReadPrice([' '] + afterAuthor, parsePrice) == Scanned(p, rest) by {
      SkipWsSpaces([' '], afterAuthor);
    }
    ReadBookSteps(text, parsePrice, b.isbn, [' '] + afterIsbn, b.title, [' '] + afterTitle,
                  b.author, [' '] + afterAuthor, p, rest);
  }

  /** ReadBook succeeds when its four extractions succeed one after another. */
  lemma ReadBookSteps(text: string, parsePrice: PriceParser, isbn: string, r1: string, title: string, r2: string,
                      author: string, r3: string, p: real, rest: string)
    requires ReadField(text) == Scanned(isbn, r1)
    requires ReadField(r1) == Scanned(title, r2)
    requires ReadField(r2) == Scanned(author, r3)
    requires ReadPrice(r3, parsePrice) == Scanned(p, rest)
    ensures ReadBook(text, parsePrice) == Scanned(BookValue(isbn, title, author, p), rest)
  {
  }

  /** The round trip reproduces an equal book whenever the price read back
      lies within EPSILON of the price written. */
  lemma WriteReadBookEqual(b: BookValue, priceText: string, rest: string, parsePrice: PriceParser, p: real)
    requires priceText != [] && !IsSpace(priceText[0])
    requires parsePrice(priceText + rest) == Scanned(p, rest)
    requires FloatingPointIsEqual(p, b.price)
    ensures ReadBook(Write(b, priceText) + rest, parsePrice).Scanned?
    ensures Equal(ReadBook(Write(b, priceText) + rest, parsePrice).value, b)
  {
    WriteReadBook(b, priceText, rest, parsePrice, p);
  }

  /** A record cut off after its title (such as `"111", "T"`) fails to read,
      whatever the price parser. */
  lemma TruncatedRecordFails(isbn: string, title: string, parsePrice: PriceParser)
    ensures ReadBook(Encode(isbn) + Separator + Encode(title), parsePrice) == ScanFailed
  {
    var text := Encode(isbn) + Separator + Encode(title);
    assert text == [] + (Encode(isbn) + (Separator + Encode(title)));
    ReadFieldEncode([], isbn, Encode(title));
    assert [' '] + Encode(title) == [' '] + (Encode(title) + []);
    DecodeEncodeAfterSpaces([' '], title, []);
  }
}

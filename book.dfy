/** The Book class: four fields updated in place by the constructors, the
    assignments and the fluent setters, and the stream extraction that
    stages a whole record before it touches the destination. */
module Books {
  import opened Quoted
  import opened BookOrder
  import opened BookText

  class Book {
    var isbn: string
    var title: string
    var author: string
    var price: real

    /** The four attributes as one value, which the relational operators compare. */
    function Value(): (v: BookValue)
      reads this
    {
      BookValue(isbn, title, author, price)
    }

    /** The conversion constructor; note the parameter order. */
    constructor (title: string, author: string, isbn: string, price: real)
      ensures Value() == BookValue(isbn, title, author, price)
    {
      this.title := title;
      this.author := author;
      this.isbn := isbn;
      this.price := price;
    }

    /** The copy constructor. */
    constructor Copy(other: Book)
      ensures Value() == other.Value()
    {
      title := other.title;
      author := other.author;
      isbn := other.isbn;
      price := other.price;
    }

    /** The move constructor: takes over the other book's attributes and
      leaves it in an unspecified state. */
    constructor Move(other: Book)
      modifies other
      ensures Value() == old(other.Value())
    {
      title := other.title;
      author := other.author;
      isbn := other.isbn;
      price := other.price;
    }

    /** Copy assignment: every field takes the other book's value; when the
        other book is this one, nothing changes. */
    method Assign(rhs: Book) returns (self: Book)
      modifies this
      ensures self == this
      ensures Value() == old(rhs.Value())
      ensures rhs == this ==> Value() == old(Value())
    {
      if this != rhs {
        isbn := rhs.isbn;
        title := rhs.title;
        author := rhs.author;
        price := rhs.price;
      }
      return this;
    }

    /** Move assignment: as copy assignment, but the other book is left in
        an unspecified state. */
    method MoveAssign(rhs: Book) returns (self: Book)
      modifies this, rhs
      ensures self == this
      ensures Value() == old(rhs.Value())
    {
      if this != rhs {
        isbn := rhs.isbn;
        title := rhs.title;
        author := rhs.author;
        price := rhs.price;
      }
      return this;
    }

    // Accessors on a book that stays alive: read-only views of the fields.

    function Isbn(): (r: string)
      reads this
      ensures r == Value().isbn
    {
      isbn
    }

    function Title(): (r: string)
      reads this
      ensures r == Value().title
    {
      title
    }

    function Author(): (r: string)
      reads this
      ensures r == Value().author
    {
      author
    }

    function Price(): (r: real)
      reads this
      ensures r == Value().price
    {
      price
    }

    // Accessors on an expiring book: the string is moved out, and the field
    // is left unspecified.

    method TakeIsbn() returns (r: string)
      modifies this`isbn
      ensures r == old(isbn)
    {
      r := isbn;
    }

    method TakeTitle() returns (r: string)
      modifies this`title
      ensures r == old(title)
    {
      r := title;
    }

    method TakeAuthor() returns (r: string)
      modifies this`author
      ensures r == old(author)
    {
      r := author;
    }

    // Fluent setters: each overwrites one field, keeps the other three and
    // returns this same book.

    method SetIsbn(newIsbn: string) returns (self: Book)
      modifies this
      ensures self == this
      ensures Value() == old(Value()).(isbn := newIsbn)
    {
      isbn := newIsbn;
      return this;
    }

    method SetTitle(newTitle: string) returns (self: Book)
      modifies this
      ensures self == this
      ensures Value() == old(Value()).(title := newTitle)
    {
      title := newTitle;
      return this;
    }

    method SetAuthor(newAuthor: string) returns (self: Book)
      modifies this
      ensures self == this
      ensures Value() == old(Value()).(author := newAuthor)
    {
      author := newAuthor;
      return this;
    }

    method SetPrice(newPrice: real) returns (self: Book)
      modifies this
      ensures self == this
      ensures Value() == old(Value()).(price := newPrice)
    {
      price := newPrice;
      return this;
    }
  }

  /** `stream >> book`: the record is read field by field into a staging
      book; only when every extraction succeeds is the staged book moved
      into `book`. On failure `book` is untouched. `rest` is the input left
      after a successful read. */
  method Extract(text: string, book: Book, parsePrice: PriceParser) returns (ok: bool, rest: string)
    modifies book
    ensures ok <==> ReadBook(text, parsePrice).Scanned?
    ensures ok ==> book.Value() == ReadBook(text, parsePrice).value && rest == ReadBook(text, parsePrice).rest
    ensures !ok ==> book.Value() == old(book.Value())
  {
    var input := new Book("", "", "", 0.0);
    ok, rest := false, text;
    var isbn := ReadField(text);
    if isbn.ScanFailed? { return; }
    input.isbn := isbn.value;
    var title := ReadField(isbn.rest);
    if title.ScanFailed? { return; }
    input.title := title.value;
    var author := ReadField(title.rest);
    if author.ScanFailed? { return; }
    input.author := author.value;
    var price := ReadPrice(author.rest, parsePrice);
    if price.ScanFailed? { return; }
    input.price := price.value;
    var _ := book.MoveAssign(input);
    ok, rest := true, price.rest;
  }

  /** Chained setters give a book with exactly the values set, and a
      written and re-read book compares equal to the original. */
  method SettersAndRoundTrip(parsePrice: PriceParser)
    requires parsePrice("5.0") == Scanned(5.0, [])
  {
    var b := new Book("", "", "", 0.0);
    var c := b.SetIsbn("A");
    c := c.SetTitle("B");
    c := c.SetAuthor("C");
    c := c.SetPrice(5.0);
    assert c == b && b.Value() == BookValue("A", "B", "C", 5.0);

    var target := new Book("x", "y", "z", 1.0);
    var text := Write(b.Value(), "5.0");
    assert "5.0" + [] == "5.0" && text + [] == text;
    WriteReadBookEqual(b.Value(), "5.0", [], parsePrice, 5.0);
    var ok, rest := Extract(text, target, parsePrice);
    assert ok && Equal(target.Value(), b.Value());
  }
}

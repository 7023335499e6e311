# Book record: ordering, equality, state and text format

A Dafny model of `p-3/Book.cpp`. That file implements one value type, `Book`, with four attributes: ISBN, title, author and price. The model covers four things:

- **Lexicographic** (`lexicographic.dfy`): the three-way comparison of `std::string` that the book ordering is built on. It is proved against a reference definition of "sorts strictly before" (a proper prefix, or a smaller character at the first difference). It is also proved antisymmetric, and it returns equivalent exactly for equal strings.
- **BookOrder** (`book_order.dfy`): `floating_point_is_equal` with `EPSILON` = 1/10000, `operator<=>` as `Compare` and `operator==` as `Equal`. These work on `BookValue`, a snapshot of the four attributes. The lemmas prove four things:
  - the result is decided field by field (ISBN, then author, then title, then price);
  - `Compare` agrees with an independent lexicographic reference order;
  - `Compare` is antisymmetric and reflexive;
  - `Equal` holds exactly when `Compare` answers equivalent.
  A concrete lemma shows that equivalence is not transitive, so the result is not the weak order that the comment at lines 283-289 describes.
- **Quoted** (`quoted.dfy`): `std::quoted` with delimiter `"` and escape `\`, as the C++ standard defines it in [quoted.manip]. Writing encloses the string in delimiters and escapes every `"` and `\`. Reading first skips whitespace. A quoted string is read up to the first unescaped delimiter, and anything else is read as a whitespace-delimited word. The file also models whitespace skipping and the extraction of one `char`. Decoding the encoding of any string returns that string and consumes exactly the encoded characters.
- **BookText** and **Books** (`book_text.dfy`, `book.dfy`):
  - `operator<<` is `Write`, which produces `"isbn", "title", "author", price`.
  - `operator>>` is `ReadBook` (a pure reader) plus the method `Extract`. `Extract` fills a staging `Book` and move-assigns it into the destination only when every extraction succeeds.
  - `Book` is a class with the four fields. The constructors, the assignments and the fluent setters update those fields in place, and each of them states the new state of this book. The const accessors change nothing. The state of a moved-from book is left open (see "## Left out").

Price text is opaque. `Write` takes the formatted price as a parameter. The reader receives the double extractor as a function `parsePrice`. The model itself does the sentry's whitespace skip and end-of-input failure before calling it.

Three facts about the code that the model makes explicit:
- `>> a` skips whitespace before it takes a character, so a separator is any one non-whitespace character.
- Equivalence within EPSILON is not transitive, so `<=>` is not the weak order that its `std::weak_ordering` return type and the comment at lines 283-289 claim; see `BookOrder.EquivalenceNotTransitive`.
- A moved-from book is left in an unspecified state, as C++ leaves moved-from strings.

Strings are `seq<char>`, and characters are ordered by code point. For single-byte text this is the `unsigned char` order that `std::char_traits<char>` uses.

## Model

| member | source | states |
|---|---|---|
| `Lexicographic.Lex` | p-3/Book.cpp:302-304 | a string comparison answers equivalent exactly when the two strings are equal |
| `Lexicographic.LexAntisymmetric` | p-3/Book.cpp:302-304 | swapping the operands of a string comparison turns less into greater and back, and keeps equivalent |
| `Lexicographic.LexLessIff` | p-3/Book.cpp:302-304 | a string comparison answers less exactly when the left string is a proper prefix of the right, or has the smaller character at the first difference |
| `Lexicographic.StrictlyBeforeTail` | p-3/Book.cpp:302-304 | strings that start with the same character are ordered as their tails |
| `BookOrder.Abs` | p-3/Book.cpp:27 | the absolute value is non-negative and is either the number or its negation |
| `BookOrder.FloatingPointIsEqual` | p-3/Book.cpp:18-28 | two prices are equal exactly when their difference lies strictly between -EPSILON and EPSILON, in either order of the operands |
| `BookOrder.Compare` | p-3/Book.cpp:302-310 | `<=>` answers equivalent exactly when ISBN, author and title are equal and the prices are within EPSILON |
| `BookOrder.CompareFieldByField` | p-3/Book.cpp:297-310 | the first differing string field (ISBN, then author, then title) decides by its own comparison. When all three tie, the result is equivalent iff \|a.price - b.price\| < EPSILON, less iff a.price is at least EPSILON below b.price, and otherwise greater |
| `BookOrder.CompareLessIff` | p-3/Book.cpp:297-310 | `<=>` answers less exactly when the book comes first in the lexicographic order over (ISBN, author, title, then a price smaller by at least EPSILON) |
| `BookOrder.CompareAntisymmetric` | p-3/Book.cpp:302-310 | compare(a,b) is less iff compare(b,a) is greater; equivalence is symmetric; compare(a,a) is equivalent |
| `BookOrder.Equal` | p-3/Book.cpp:317-329 | `==` holds exactly when `<=>` answers equivalent |
| `BookOrder.EqualReflexiveSymmetric` | p-3/Book.cpp:324-327 | `==` is reflexive and symmetric |
| `BookOrder.EqualityBoundary` | p-3/Book.cpp:24-28 | with equal strings, prices 10.0 and 10.00009 are equal, and prices 10.0 and 10.0002 are not |
| `BookOrder.EquivalenceNotTransitive` | p-3/Book.cpp:283-289 | 10.0 is equivalent to 10.00009, and 10.00009 to 10.00018, yet 10.0 compares less than 10.00018 |
| `Quoted.SkipWs` | p-3/Book.cpp:348 | the stream sentry drops only leading whitespace and stops at the first non-blank character |
| `Quoted.EscapeAll` | p-3/Book.cpp:373 | escaping never shortens the string |
| `Quoted.Encode` | p-3/Book.cpp:373 | a quoted field starts and ends with the delimiter and is at least two characters longer than the string |
| `Quoted.EscapeAllLength` | p-3/Book.cpp:373 | escaping adds characters exactly when the string holds a delimiter or an escape |
| `Quoted.ReadBody` | p-3/Book.cpp:348 | reading the inside of a quoted string consumes at least one character, and the value read is shorter than the input |
| `Quoted.TakeWord` | p-3/Book.cpp:348 | an unquoted field is the longest prefix without whitespace, and what follows it is empty or starts with whitespace |
| `Quoted.Decode` | p-3/Book.cpp:348 | a successful `>> std::quoted` consumes at least one character |
| `Quoted.ReadChar` | p-3/Book.cpp:348 | `>> a` fails exactly when only whitespace is left. Otherwise it leaves a suffix of its input, skipping only whitespace and then consuming exactly one character: the non-blank character it yields |
| `Quoted.SkipWsSuffix` | p-3/Book.cpp:348 | whitespace skipping leaves a suffix of its input |
| `Quoted.ReadBodySuffix` | p-3/Book.cpp:348 | reading a quoted body leaves a suffix of its input, and the last character it consumes is the closing delimiter |
| `Quoted.DecodeSuffix` | p-3/Book.cpp:348 | `>> std::quoted` leaves a suffix of its input |
| `Quoted.ReadBodyEscapeAll` | p-3/Book.cpp:348 | reading back an escaped string and its closing delimiter yields the string and leaves exactly what followed |
| `Quoted.DecodeEncode` | p-3/Book.cpp:348 | decoding the quoted encoding of any string returns that string and consumes exactly the encoded characters |
| `Quoted.DecodeEncodeAfterSpaces` | p-3/Book.cpp:348 | the same holds when whitespace precedes the encoding |
| `BookText.Write` | p-3/Book.cpp:373 | the record opens with the delimiter of the quoted ISBN, ends with the price text, and is at least 12 characters (six delimiters and three two-character separators) longer than its three strings and the price text together |
| `BookText.ReadBook` | p-3/Book.cpp:346-357 | input holding only whitespace never yields a book |
| `BookText.ReadFieldEncode` | p-3/Book.cpp:348 | a quoted field written by `<<`, after any whitespace, and the separator after it are read back as that field, leaving the blank of the separator and what followed |
| `BookText.ReadSeparator` | p-3/Book.cpp:348 | `>> a` reads the comma of a written separator and leaves its blank |
| `BookText.ReadPrice` | p-3/Book.cpp:348 | the price extraction fails when only whitespace is left |
| `BookText.ReadField` | p-3/Book.cpp:348 | a field and its separator, read together, consume at least one character |
| `BookText.WriteReadBook` | p-3/Book.cpp:343-376 | reading what `<<` wrote returns the same ISBN, title and author and the price parsed from the price text, and leaves exactly the input that followed |
| `BookText.WriteReadBookEqual` | p-3/Book.cpp:343-376 | when the price read back is within EPSILON of the price written, the book read back is `==` to the original |
| `BookText.TruncatedRecordFails` | p-3/Book.cpp:346-357 | a record cut off after its title fails to read, whatever the price parser does |
| `Books.Book.constructor` | p-3/Book.cpp:41-48 | the constructor takes (title, author, isbn, price) and stores each one in its field |
| `Books.Book.Copy` | p-3/Book.cpp:53-61 | the copy constructor gives a book with the same four values |
| `Books.Book.Move` | p-3/Book.cpp:67-76 | the move constructor gives a book with the other's former values |
| `Books.Book.Assign` | p-3/Book.cpp:81-92 | copy assignment makes every field equal to the other book's field and returns this book; self-assignment changes nothing |
| `Books.Book.MoveAssign` | p-3/Book.cpp:98-110 | move assignment gives this book the other's former values and returns this book |
| `Books.Book.Isbn` | p-3/Book.cpp:130-136 | the const accessor returns the stored ISBN and changes nothing |
| `Books.Book.Title` | p-3/Book.cpp:141-147 | the const accessor returns the stored title and changes nothing |
| `Books.Book.Author` | p-3/Book.cpp:152-158 | the const accessor returns the stored author and changes nothing |
| `Books.Book.Price` | p-3/Book.cpp:162-168 | the const accessor returns the stored price and changes nothing |
| `Books.Book.TakeIsbn` | p-3/Book.cpp:173-179 | the rvalue accessor returns the ISBN held before the call and changes no other field |
| `Books.Book.TakeTitle` | p-3/Book.cpp:184-190 | the rvalue accessor returns the title held before the call and changes no other field |
| `Books.Book.TakeAuthor` | p-3/Book.cpp:195-201 | the rvalue accessor returns the author held before the call and changes no other field |
| `Books.Book.SetIsbn` | p-3/Book.cpp:214-222 | sets only the ISBN, leaves the other three fields unchanged and returns the same book |
| `Books.Book.SetTitle` | p-3/Book.cpp:227-234 | sets only the title, leaves the other three fields unchanged and returns the same book |
| `Books.Book.SetAuthor` | p-3/Book.cpp:239-246 | sets only the author, leaves the other three fields unchanged and returns the same book |
| `Books.Book.SetPrice` | p-3/Book.cpp:251-258 | sets only the price, leaves the other three fields unchanged and returns the same book |
| `Books.Extract` | p-3/Book.cpp:342-362 | `>>` succeeds exactly when the whole record reads. On success the destination takes the staged values. On failure the destination is left unchanged and failure is reported |

## Left out

- Price formatting and parsing: `<< book._price` (line 373) uses the stream's default precision, and `>> input._price` (line 348) parses a double. `Write` takes the price text as a parameter, and the reader takes a function `parsePrice`, so there is no claim of an exact price round trip.
- IEEE-754 `double`: the price is a `real` and EPSILON is exactly 1/10000, so NaN, infinities and rounding in `lhs - rhs` are not modelled.
- BookOrder.FloatingPointIsEqual: `abs` is the absolute value of a real. In the C++ template (line 27), which overload the unqualified `abs` resolves to depends on which standard library headers declare what in the global namespace. If only `::abs(int)` from `<cstdlib>` is visible there, `lhs - rhs` would plausibly be truncated to an integer, and the tolerance would in effect become \|lhs - rhs\| < 1 rather than < EPSILON. This is a possibility read from the code, not an observed behaviour, and the model uses the real absolute value.
- Books.Book.Move: the other book may change, but the model says nothing about its new state, because C++ leaves a moved-from object unspecified.
- Books.Book.MoveAssign: for the same reason, the model says nothing about the other book after the move.
- Books.Book.TakeIsbn: the ISBN field is left unspecified after the call, because it was moved out.
- Books.Book.TakeTitle: the title field is left unspecified after the call, because it was moved out.
- Books.Book.TakeAuthor: the author field is left unspecified after the call, because it was moved out.
- Books.Extract: the remaining input is given only on success. After a failure, how much input the stream consumed is not modelled.
- Stream plumbing is reduced to a success/failure result: eofbit, exceptions, locale (whitespace is the classic locale's), `skipws`, and width and fill on output are all left out.
- The empty destructor (lines 116-119) and the default argument values declared in `Book.hpp`. `Book.hpp` is not part of this model, so the staging book in `Extract` starts from empty strings and price 0.

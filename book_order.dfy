/** The value held by a Book and its relational operators: the three-way
    comparison (`operator<=>`) and equality (`operator==`), which compare the
    price only to within EPSILON. */
module BookOrder {
  import opened Lexicographic

  /** A snapshot of the four attributes of a Book. */
  datatype BookValue = BookValue(isbn: string, title: string, author: string, price: real)

  /** Tolerance for price equality. */
  const EPSILON: real := 1.0 / 10000.0

  function Abs(x: real): (r: real)
    ensures r >= 0.0 && (r == x || r == -x)
  {
    if x < 0.0 then -x else x
  }

  /** Two prices are "equal" when they lie strictly within EPSILON of each other. */
  function FloatingPointIsEqual(lhs: real, rhs: real): (r: bool)
    ensures r <==> -EPSILON < lhs - rhs < EPSILON
    ensures r <==> -EPSILON < rhs - lhs < EPSILON
  {
    Abs(lhs - rhs) < EPSILON
  }

  /** `a <=> b`: ISBN first, then author, then title; when all three tie,
      prices within EPSILON are equivalent, otherwise the smaller price is less. */
  function Compare(a: BookValue, b: BookValue): (r: Ordering)
    ensures r == Equivalent <==>
              a.isbn == b.isbn && a.author == b.author && a.title == b.title && FloatingPointIsEqual(a.price, b.price)
  {
    var byIsbn := Lex(a.isbn, b.isbn);
    if byIsbn != Equivalent then byIsbn
    else
      var byAuthor := Lex(a.author, b.author);
      if byAuthor != Equivalent then byAuthor
      else
        var byTitle := Lex(a.title, b.title);
        if byTitle != Equivalent then byTitle
        else if FloatingPointIsEqual(a.price, b.price) then Equivalent
        else if a.price < b.price then Less
        else Greater
  }

  /** `a == b`: the three strings are equal and the prices are within
      EPSILON; this holds exactly when `a <=> b` answers Equivalent. */
  function Equal(a: BookValue, b: BookValue): (r: bool)
    ensures r <==> Compare(a, b) == Equivalent
  {
    && FloatingPointIsEqual(a.price, b.price)
    && a.isbn == b.isbn
    && a.title == b.title
    && a.author == b.author
  }

  /** The comparison result is determined field by field: the first string
      field (ISBN, author, title) that differs decides by its own string
      order; when all three are equal the price decides. */
  lemma CompareFieldByField(a: BookValue, b: BookValue)
    ensures a.isbn != b.isbn ==> Compare(a, b) == Lex(a.isbn, b.isbn) != Equivalent
    ensures a.isbn == b.isbn && a.author != b.author ==>
              Compare(a, b) == Lex(a.author, b.author) != Equivalent
    ensures a.isbn == b.isbn && a.author == b.author && a.title != b.title ==>
              Compare(a, b) == Lex(a.title, b.title) != Equivalent
    ensures a.isbn == b.isbn && a.author == b.author && a.title == b.title ==>
              && (Compare(a, b) == Equivalent <==> Abs(a.price - b.price) < EPSILON)
              && (Compare(a, b) == Less <==> a.price <= b.price - EPSILON)
              && (Compare(a, b) == Greater <==> a.price >= b.price + EPSILON)
  {
  }

  /** Reference definition of "a orders before b": lexicographic over
      (ISBN, author, title) by the reference string order, then a price
      smaller by at least EPSILON. */
  ghost predicate OrdersBefore(a: BookValue, b: BookValue)
  {
    || StrictlyBefore(a.isbn, b.isbn)
    || (a.isbn == b.isbn && StrictlyBefore(a.author, b.author))
    || (a.isbn == b.isbn && a.author == b.author && StrictlyBefore(a.title, b.title))
    || (a.isbn == b.isbn && a.author == b.author && a.title == b.title && a.price <= b.price - EPSILON)
  }

  /** The comparison says Less exactly when the reference order says so. */
  lemma CompareLessIff(a: BookValue, b: BookValue)
    ensures Compare(a, b) == Less <==> OrdersBefore(a, b)
  {
    LexLessIff(a.isbn, b.isbn);
    LexLessIff(a.author, b.author);
    LexLessIff(a.title, b.title);
  }

  /** The comparison is antisymmetric, and every book is equivalent to itself. */
  lemma CompareAntisymmetric(a: BookValue, b: BookValue)
    ensures Compare(a, b) == Less <==> Compare(b, a) == Greater
    ensures Compare(a, b) == Equivalent <==> Compare(b, a) == Equivalent
    ensures Compare(a, a) == Equivalent
  {
    LexAntisymmetric(a.isbn, b.isbn);
    LexAntisymmetric(a.author, b.author);
    LexAntisymmetric(a.title, b.title);
  }

  /** Equality is reflexive and symmetric. */
  lemma EqualReflexiveSymmetric(a: BookValue, b: BookValue)
    ensures Equal(a, a)
    ensures Equal(a, b) <==> Equal(b, a)
  {
  }

  /** Equal strings and a price difference below EPSILON make books equal;
      a difference of EPSILON or more makes them unequal. */
  lemma EqualityBoundary(isbn: string, title: string, author: string)
    ensures Equal(BookValue(isbn, title, author, 10.0), BookValue(isbn, title, author, 10.00009))
    ensures !Equal(BookValue(isbn, title, author, 10.0), BookValue(isbn, title, author, 10.0002))
  {
  }

  /** Equivalence is not transitive, so the comparison is not a weak order
      in the sense of std::weak_ordering: 10.0 ~ 10.00009 ~ 10.00018, yet
      10.0 orders before 10.00018. */
  lemma EquivalenceNotTransitive(isbn: string, title: string, author: string)
    ensures var a, b, c := BookValue(isbn, title, author, 10.0),
                           BookValue(isbn, title, author, 10.00009),
                           BookValue(isbn, title, author, 10.00018);
            Compare(a, b) == Equivalent && Compare(b, c) == Equivalent && Compare(a, c) == Less
  {
  }
}

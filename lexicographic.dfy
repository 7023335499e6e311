/** The three-way comparison of std::string (`lhs <=> rhs`), on which the
    ordering of books is built: characters are compared one by one from the
    front, the first difference decides, and a proper prefix comes first. */
module Lexicographic {

  /** The three outcomes of a three-way comparison (std::weak_ordering). */
  datatype Ordering = Less | Equivalent | Greater

  /** The comparison `a <=> b` of two strings; it answers Equivalent
      exactly for equal strings. */
  function Lex(a: string, b: string): (r: Ordering)
    ensures r == Equivalent <==> a == b
  {
    if a == [] then (if b == [] then Equivalent else Less)
    else if b == [] then Greater
    else if a[0] < b[0] then Less
    else if b[0] < a[0] then Greater
    else
      assert a == [a[0]] + a[1..] && b == [b[0]] + b[1..];
      Lex(a[1..], b[1..])
  }

  /** Reference definition of "a sorts strictly before b": a is a proper
      prefix of b, or a and b agree up to a position where a's character
      is the smaller one. */
  ghost predicate StrictlyBefore(a: string, b: string)
  {
    || (|a| < |b| && a == b[..|a|])
    || exists k :: 0 <= k < |a| && k < |b| && a[..k] == b[..k] && a[k] < b[k]
  }

  /** Swapping the operands swaps Less and Greater. */
  lemma {:induction false} LexAntisymmetric(a: string, b: string)
    ensures Lex(a, b) == Less <==> Lex(b, a) == Greater
    ensures Lex(a, b) == Equivalent <==> Lex(b, a) == Equivalent
  {
    if a != [] && b != [] && a[0] == b[0] {
      LexAntisymmetric(a[1..], b[1..]);
    }
  }

  /** The comparison agrees with the reference ordering, both ways. */
  lemma {:induction false} LexLessIff(a: string, b: string)
    ensures Lex(a, b) == Less <==> StrictlyBefore(a, b)
  {
    if a == [] {
      assert b != [] ==> a == b[..|a|];
    } else if b == [] {
    } else if a[0] < b[0] {
      assert a[..0] == b[..0];
    } else if b[0] < a[0] {
      if StrictlyBefore(a, b) && !(|a| < |b| && a == b[..|a|]) {
        var k :| 0 <= k < |a| && k < |b| && a[..k] == b[..k] && a[k] < b[k];
      }
    } else {
      LexLessIff(a[1..], b[1..]);
      StrictlyBeforeTail(a, b);
    }
  }

  /** Strings with the same first character are ordered as their tails. */
  lemma StrictlyBeforeTail(a: string, b: string)
    requires a != [] && b != [] && a[0] == b[0]
    ensures StrictlyBefore(a, b) <==> StrictlyBefore(a[1..], b[1..])
  {
    var a', b' := a[1..], b[1..];
    if StrictlyBefore(a, b) {
      if |a| < |b| && a == b[..|a|] {
        assert a' == b'[..|a'|];
      } else {
        var k :| 0 <= k < |a| && k < |b| && a[..k] == b[..k] && a[k] < b[k];
        assert k != 0 ==> a'[..k - 1] == b'[..k - 1];
      }
    }
    if StrictlyBefore(a', b') {
      if |a'| < |b'| && a' == b'[..|a'|] {
        assert a == [a[0]] + a' && b[..|a|] == [b[0]] + b'[..|a'|];
      } else {
        var k :| 0 <= k < |a'| && k < |b'| && a'[..k] == b'[..k] && a'[k] < b'[k];
        assert a[..k + 1] == [a[0]] + a'[..k] && b[..k + 1] == [b[0]] + b'[..k];
        assert a[k + 1] < b[k + 1];
      }
    }
  }
}

/** The std::quoted manipulator (C++ standard, [quoted.manip]) with its
    default delimiter `"` and escape `\`, plus the two other extractions
    that a Book record needs: whitespace skipping and reading one char.
    Input is the not yet consumed rest of the stream, as a string. */
module Quoted {

  const Delim: char := '"'
  const Escape: char := '\\'

  /** The result of one extraction: the value read and the input left after
      it, or the stream's failbit. */
  datatype Scan<T> = Scanned(value: T, rest: string) | ScanFailed

  /** Whitespace in the classic locale: space, \t, \n, \v, \f and \r. */
  predicate IsSpace(c: char)
  {
    c == ' ' || '\t' <= c <= '\r'
  }

  /** Drops leading whitespace, as a stream sentry does. */
  function SkipWs(s: string): (r: string)
    ensures |r| <= |s| && (r != [] ==> r[0] == s[|s| - |r|])
    ensures r == [] || !IsSpace(r[0])
    ensures forall i :: 0 <= i < |s| - |r| ==> IsSpace(s[i])
  {
    if s != [] && IsSpace(s[0]) then SkipWs(s[1..]) else s
  }

  // ---------------------------------------------------------------- writing

  /** Puts an escape before every delimiter and every escape. */
  function EscapeAll(s: string): (r: string)
    ensures |r| >= |s|
  {
    if s == [] then []
    else if s[0] == Delim || s[0] == Escape then [Escape, s[0]] + EscapeAll(s[1..])
    else [s[0]] + EscapeAll(s[1..])
  }

  /** `out << std::quoted(s)`. */
  function Encode(s: string): (r: string)
    ensures |r| >= |s| + 2 && r[0] == Delim && r[|r| - 1] == Delim
  {
    [Delim] + EscapeAll(s) + [Delim]
  }

  /** Escaping adds characters exactly when the string holds a delimiter
      or an escape. */
  lemma {:induction false} EscapeAllLength(s: string)
    ensures |EscapeAll(s)| == |s| <==> forall i :: 0 <= i < |s| ==> s[i] != Delim && s[i] != Escape
  {
    if s != [] {
      EscapeAllLength(s[1..]);
      if |EscapeAll(s)| == |s| {
        forall i | 0 <= i < |s| ensures s[i] != Delim && s[i] != Escape {
          if i > 0 { assert s[i] == s[1..][i - 1]; }
        }
      }
    }
  }

  // ---------------------------------------------------------------- reading

  /** The inside of a quoted string, after its opening delimiter: characters
      up to the first unescaped delimiter, each escape replaced by the
      character after it. Reaching the end of input first fails. */
  function ReadBody(s: string): (r: Scan<string>)
    ensures r.Scanned? ==> |r.rest| < |s|
    ensures r.Scanned? ==> |r.value| < |s|
  {
    if s == [] then ScanFailed
    else if s[0] == Delim then Scanned([], s[1..])
    else if s[0] == Escape then
      if |s| == 1 then ScanFailed
      else match ReadBody(s[2..])
        case Scanned(v, rest) => Scanned([s[1]] + v, rest)
        case ScanFailed => ScanFailed
    else match ReadBody(s[1..])
      case Scanned(v, rest) => Scanned([s[0]] + v, rest)
      case ScanFailed => ScanFailed
  }

  /** The longest prefix without whitespace, and what follows it. */
  function TakeWord(s: string): (r: (string, string))
    ensures r.0 + r.1 == s
    ensures forall i :: 0 <= i < |r.0| ==> !IsSpace(r.0[i])
    ensures r.1 == [] || IsSpace(r.1[0])
  {
    if s == [] || IsSpace(s[0]) then ([], s)
    else
      var (w, rest) := TakeWord(s[1..]);
      ([s[0]] + w, rest)
  }

  /** `in >> std::quoted(s)`: skip whitespace; a leading delimiter starts a
      quoted string, anything else is read as a whitespace-delimited word;
      end of input fails. */
  function Decode(s: string): (r: Scan<string>)
    ensures r.Scanned? ==> |r.rest| < |s|
  {
    var t := SkipWs(s);
    if t == [] then ScanFailed
    else if t[0] == Delim then ReadBody(t[1..])
    else
      var (w, rest) := TakeWord(t);
      Scanned(w, rest)
  }

  /** `in >> c` for a char c: skip whitespace, then take one character. */
  function ReadChar(s: string): (r: Scan<char>)
    ensures r.Scanned? ==> !IsSpace(r.value)
    ensures r.Scanned? ==> |r.rest| < |s|
    ensures r.ScanFailed? <==> forall i :: 0 <= i < |s| ==> IsSpace(s[i])
    ensures r.Scanned? ==> && r.rest == s[|s| - |r.rest|..]
                           && r.value == s[|s| - |r.rest| - 1]
                           && forall i :: 0 <= i < |s| - |r.rest| - 1 ==> IsSpace(s[i])
  {
    SkipWsSuffix(s);
    var t := SkipWs(s);
    if t == [] then ScanFailed else Scanned(t[0], t[1..])
  }

  // ---------------------------------------------------------------- consumption

  /** Each extraction consumes a prefix of its input: what it leaves is a
      suffix of what it was given. */
  lemma {:induction false} SkipWsSuffix(s: string)
    ensures SkipWs(s) == s[|s| - |SkipWs(s)|..]
  {
    if s != [] && IsSpace(s[0]) {
      SkipWsSuffix(s[1..]);
      assert s[1..][|s| - 1 - |SkipWs(s)|..] == s[|s| - |SkipWs(s)|..];
    }
  }

  lemma {:induction false} ReadBodySuffix(s: string)
    ensures ReadBody(s).Scanned? ==> ReadBody(s).rest == s[|s| - |ReadBody(s).rest|..]
    ensures ReadBody(s).Scanned? ==> s[|s| - |ReadBody(s).rest| - 1] == Delim
  {
    if s != [] && s[0] != Delim {
      var k := if s[0] == Escape then 2 else 1;
      if k <= |s| {
        ReadBodySuffix(s[k..]);
        var r := ReadBody(s);
        if r.Scanned? {
          assert s[k..][|s| - k - |r.rest|..] == s[|s| - |r.rest|..];
        }
      }
    }
  }

  lemma DecodeSuffix(s: string)
    ensures Decode(s).Scanned? ==> Decode(s).rest == s[|s| - |Decode(s).rest|..]
  {
    var t := SkipWs(s);
    SkipWsSuffix(s);
    if t != [] {
      if t[0] == Delim {
        ReadBodySuffix(t[1..]);
        var r := ReadBody(t[1..]);
        if r.Scanned? {
          assert t[1..][|t| - 1 - |r.rest|..] == s[|s| - |r.rest|..];
        }
      } else {
        var (w, rest) := TakeWord(t);
        assert t[|w|..] == rest;
        assert t[|t| - |rest|..] == s[|s| - |rest|..];
      }
    }
  }

  // ---------------------------------------------------------------- round trip

  /** Reading the escaped text back stops at the closing delimiter and
      yields the original string. */
  lemma {:induction false} ReadBodyEscapeAll(s: string, rest: string)
    ensures ReadBody(EscapeAll(s) + [Delim] + rest) == Scanned(s, rest)
  {
    var t := EscapeAll(s) + [Delim] + rest;
    if s == [] {
      assert t == [Delim] + rest;
    } else {
      var tail := EscapeAll(s[1..]) + [Delim] + rest;
      ReadBodyEscapeAll(s[1..], rest);
      if s[0] == Delim || s[0] == Escape {
        assert t == [Escape, s[0]] + tail;
        assert t[0] == Escape && t[1] == s[0] && t[2..] == tail;
      } else {
        assert t == [s[0]] + tail;
        assert t[0] == s[0] && t[1..] == tail;
      }
      assert [s[0]] + s[1..] == s;
    }
  }

  /** Decoding the quoted encoding of any string returns that string and
      consumes exactly the encoded characters, whatever follows them. */
  lemma DecodeEncode(s: string, rest: string)
    ensures Decode(Encode(s) + rest) == Scanned(s, rest)
  {
    var t := Encode(s) + rest;
    assert t[0] == Delim;
    assert t[1..] == EscapeAll(s) + [Delim] + rest;
    ReadBodyEscapeAll(s, rest);
  }

  /** Whitespace before the encoding is skipped. */
  lemma DecodeEncodeAfterSpaces(ws: string, s: string, rest: string)
    requires forall i :: 0 <= i < |ws| ==> IsSpace(ws[i])
    ensures Decode(ws + (Encode(s) + rest)) == Scanned(s, rest)
  {
    SkipWsSpaces(ws, Encode(s) + rest);
    DecodeEncode(s, rest);
  }

  /** Skipping whitespace passes over a run of blanks to the next non-blank. */
  lemma {:induction false} SkipWsSpaces(ws: string, t: string)
    requires forall i :: 0 <= i < |ws| ==> IsSpace(ws[i])
    requires t == [] || !IsSpace(t[0])
    ensures SkipWs(ws + t) == t
  {
    if ws != [] {
      assert (ws + t)[1..] == ws[1..] + t;
      SkipWsSpaces(ws[1..], t);
    }
  }
}

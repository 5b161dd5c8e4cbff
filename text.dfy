/**
 String helpers with the meaning JavaScript gives them: `trim` (the ECMAScript
 white-space and line-terminator code points), `toLowerCase`/`toUpperCase`
 (restricted to ASCII letters), `startsWith` and `split` on one character.
 */
module Text {

  /** The code points `String.prototype.trim` removes: WhiteSpace and LineTerminator. */
  predicate IsSpace(c: char) {
    c == '\t' || c == '\n' || c == '\U{B}' || c == '\U{C}' || c == '\r' || c == ' ' ||
    c == '\U{A0}' || c == '\U{1680}' || ('\U{2000}' <= c <= '\U{200A}') ||
    c == '\U{2028}' || c == '\U{2029}' || c == '\U{202F}' || c == '\U{205F}' ||
    c == '\U{3000}' || c == '\U{FEFF}'
  }

  /** Drops leading white space. */
  function TrimStart(s: string): (r: string)
    ensures |r| <= |s| && r == s[|s| - |r|..]
    ensures r == [] || !IsSpace(r[0])
    ensures forall i :: 0 <= i < |s| - |r| ==> IsSpace(s[i])
  {
    if |s| > 0 && IsSpace(s[0]) then TrimStart(s[1..]) else s
  }

  /** Drops trailing white space. */
  function TrimEnd(s: string): (r: string)
    ensures |r| <= |s| && r == s[..|r|]
    ensures r == [] || !IsSpace(r[|r| - 1])
    ensures forall i :: |r| <= i < |s| ==> IsSpace(s[i])
  {
    if |s| > 0 && IsSpace(s[|s| - 1]) then TrimEnd(s[..|s| - 1]) else s
  }

  /** `s.trim()` */
  function Trim(s: string): (r: string)
    ensures r == [] || (!IsSpace(r[0]) && !IsSpace(r[|r| - 1]))
  {
    TrimEnd(TrimStart(s))
  }

  function LowerChar(c: char): char {
    if 'A' <= c <= 'Z' then (c as int + 32) as char else c
  }

  function UpperChar(c: char): char {
    if 'a' <= c <= 'z' then (c as int - 32) as char else c
  }

  /** `s.toLowerCase()` on ASCII letters. */
  function ToLower(s: string): (r: string)
    ensures |r| == |s|
  {
    seq(|s|, i requires 0 <= i < |s| => LowerChar(s[i]))
  }

  /** `s.toUpperCase()` on ASCII letters. */
  function ToUpper(s: string): (r: string)
    ensures |r| == |s|
  {
    seq(|s|, i requires 0 <= i < |s| => UpperChar(s[i]))
  }

  predicate StartsWith(s: string, prefix: string) {
    |prefix| <= |s| && s[..|prefix|] == prefix
  }

  predicate IsLower(s: string) {
    forall i :: 0 <= i < |s| ==> !('A' <= s[i] <= 'Z')
  }

  /** `s.split(sep)` for a one-character separator: never empty, "" gives [""]. */
  function Split(s: string, sep: char): (r: seq<string>)
    ensures |r| >= 1
    ensures forall k :: 0 <= k < |r| ==> sep !in r[k]
  {
    if |s| == 0 then [""]
    else if s[0] == sep then [""] + Split(s[1..], sep)
    else
      var rest := Split(s[1..], sep);
      [[s[0]] + rest[0]] + rest[1..]
  }

  /** `pieces.join(sep)` */
  function Join(pieces: seq<string>, sep: char): string
    requires |pieces| >= 1
  {
    if |pieces| == 1 then pieces[0] else pieces[0] + [sep] + Join(pieces[1..], sep)
  }

  /** Splitting loses nothing: joining the pieces again gives back the input. */
  lemma {:induction false} SplitJoin(s: string, sep: char)
    ensures Join(Split(s, sep), sep) == s
  {
    if |s| > 0 {
      SplitJoin(s[1..], sep);
      var rest := Split(s[1..], sep);
      assert s == [s[0]] + s[1..];
      if s[0] == sep {
        var pieces := [""] + rest;
        assert Split(s, sep) == pieces && pieces[1..] == rest;
      } else {
        assert Split(s, sep) == [[s[0]] + rest[0]] + rest[1..];
        JoinCons(s[0], rest, sep);
      }
    }
  }

  /** Prefixing the first piece prefixes the joined string. */
  lemma JoinCons(c: char, pieces: seq<string>, sep: char)
    requires |pieces| >= 1
    ensures Join([[c] + pieces[0]] + pieces[1..], sep) == [c] + Join(pieces, sep)
  {
    var p := [[c] + pieces[0]] + pieces[1..];
    assert p[0] == [c] + pieces[0] && p[1..] == pieces[1..];
  }

  /** Lower-casing neither makes nor unmakes white space. */
  lemma LowerKeepsSpace(c: char)
    ensures IsSpace(LowerChar(c)) == IsSpace(c)
  {
    if 'A' <= c <= 'Z' {
      assert !IsSpace(c) && 'a' <= LowerChar(c) <= 'z';
    }
  }

  /** Lower-casing the first character keeps it white space or not. */
  lemma LowerHead(s: string)
    requires |s| > 0
    ensures IsSpace(ToLower(s)[0]) == IsSpace(s[0])
    ensures ToLower(s)[1..] == ToLower(s[1..])
  {
    LowerKeepsSpace(s[0]);
  }

  /** Lower-casing the last character keeps it white space or not. */
  lemma LowerLast(s: string)
    requires |s| > 0
    ensures IsSpace(ToLower(s)[|s| - 1]) == IsSpace(s[|s| - 1])
    ensures ToLower(s)[..|s| - 1] == ToLower(s[..|s| - 1])
  {
    LowerKeepsSpace(s[|s| - 1]);
  }

  lemma {:induction false} TrimStartLower(s: string)
    ensures TrimStart(ToLower(s)) == ToLower(TrimStart(s))
  {
    if |s| > 0 {
      var l := ToLower(s);
      LowerHead(s);
      if IsSpace(s[0]) {
        assert TrimStart(l) == TrimStart(l[1..]) && TrimStart(s) == TrimStart(s[1..]);
        TrimStartLower(s[1..]);
      } else {
        assert TrimStart(l) == l && TrimStart(s) == s;
      }
    }
  }

  lemma {:induction false} TrimEndLower(s: string)
    ensures TrimEnd(ToLower(s)) == ToLower(TrimEnd(s))
  {
    if |s| > 0 {
      var n := |s| - 1;
      var l := ToLower(s);
      LowerLast(s);
      if IsSpace(s[n]) {
        var p := s[..n];
        assert TrimEnd(s) == TrimEnd(p);
        assert TrimEnd(l) == TrimEnd(l[..n]) == TrimEnd(ToLower(p));
        TrimEndLower(p);
      } else {
        assert TrimEnd(l) == l && TrimEnd(s) == s;
      }
    }
  }

  /** Lower-casing and trimming commute, so `e.toLowerCase().trim()` and
      `e.trim().toLowerCase()` normalise an email address to the same key. */
  lemma TrimLowerCommute(s: string)
    ensures Trim(ToLower(s)) == ToLower(Trim(s))
  {
    TrimStartLower(s);
    TrimEndLower(TrimStart(s));
  }

  /** Trimming only removes characters: a character absent from `s` is absent from `Trim(s)`. */
  lemma TrimKeepsOut(s: string, c: char)
    requires c !in s
    ensures c !in Trim(s)
  {
    var a := TrimStart(s);
    forall i | 0 <= i < |a| ensures a[i] != c {
      assert a[i] == s[|s| - |a| + i];
    }
    var b := TrimEnd(a);
    forall i | 0 <= i < |b| ensures b[i] != c {
      assert b[i] == a[i];
    }
  }

  lemma TrimIdempotent(s: string)
    ensures Trim(Trim(s)) == Trim(s)
  {
    var t := Trim(s);
    assert TrimStart(t) == t;
    assert TrimEnd(t) == t;
  }

  lemma LowerIdempotent(s: string)
    ensures ToLower(ToLower(s)) == ToLower(s)
    ensures IsLower(ToLower(s))
  {
  }

  /** Normalising an address that is already normalised changes nothing. */
  lemma {:induction false} NormalizedIsFixed(s: string)
    ensures ToLower(Trim(ToLower(Trim(s)))) == ToLower(Trim(s))
    ensures Trim(ToLower(Trim(s))) == ToLower(Trim(s))
  {
    TrimLowerCommute(Trim(s));
    TrimIdempotent(s);
    LowerIdempotent(Trim(s));
  }
}

/**
  String helpers used by the dashboard: whitespace stripping as done by
  Python's `str.strip()`, the "city" token of a location (the text before
  the first comma, as produced by `$split` followed by `$arrayElemAt 0`),
  ASCII lower-casing and the byte-wise ordering the store sorts strings by.
*/
module Text {

  /** The characters Python's `str.isspace()` accepts. */
  predicate IsSpace(c: char) {
    || c == ' ' || c == '\t' || c == '\n' || c == '\r'
    || c == '\U{000B}' || c == '\U{000C}'
    || ('\U{001C}' <= c <= '\U{001F}')
    || c == '\U{0085}' || c == '\U{00A0}' || c == '\U{1680}'
    || ('\U{2000}' <= c <= '\U{200A}')
    || c == '\U{2028}' || c == '\U{2029}' || c == '\U{202F}'
    || c == '\U{205F}' || c == '\U{3000}'
  }

  /** Number of whitespace characters at the start of `s`. */
  function LeadingSpaces(s: string): (n: nat)
    ensures n <= |s|
    ensures forall k :: 0 <= k < n ==> IsSpace(s[k])
    ensures n < |s| ==> !IsSpace(s[n])
  {
    if s == [] || !IsSpace(s[0]) then 0 else 1 + LeadingSpaces(s[1..])
  }

  /** Number of whitespace characters at the end of `s`. */
  function TrailingSpaces(s: string): (n: nat)
    ensures n <= |s|
    ensures forall k :: |s| - n <= k < |s| ==> IsSpace(s[k])
    ensures n < |s| ==> !IsSpace(s[|s| - n - 1])
  {
    if s == [] || !IsSpace(s[|s| - 1]) then 0 else 1 + TrailingSpaces(s[..|s| - 1])
  }

  /**
    `s.strip()`: the longest infix of `s` that neither starts nor ends with
    whitespace, obtained by removing only whitespace from both ends (the
    characters before index LeadingSpaces(s) are all whitespace).
  */
  function Strip(s: string): (r: string)
    ensures |r| <= |s|
    ensures r == [] || (!IsSpace(r[0]) && !IsSpace(r[|r| - 1]))
    ensures var i := LeadingSpaces(s);
              i + |r| <= |s| && r == s[i..i + |r|]
              && forall k :: i + |r| <= k < |s| ==> IsSpace(s[k])
  {
    var i := LeadingSpaces(s);
    StripEnds(s, i);
    s[i..][..|s| - i - TrailingSpaces(s[i..])]
  }

  /** The proof obligations of Strip, with the leading count `i` given. */
  lemma StripEnds(s: string, i: nat)
    requires i == LeadingSpaces(s)
    ensures var rest := s[i..]; var j := TrailingSpaces(rest); var r := rest[..|rest| - j];
      && (r == [] || (!IsSpace(r[0]) && !IsSpace(r[|r| - 1])))
      && i + |r| <= |s| && r == s[i..i + |r|]
      && forall k :: i + |r| <= k < |s| ==> IsSpace(s[k])
  {
    var rest := s[i..];
    var j := TrailingSpaces(rest);
    var r := rest[..|rest| - j];
    if r != [] {
      assert r[0] == s[i];
      assert r[|r| - 1] == rest[|rest| - j - 1];
    }
    forall k | i + |r| <= k < |s| ensures IsSpace(s[k]) {
      assert s[k] == rest[k - i];
    }
  }

  /** Stripping twice is the same as stripping once. */
  lemma StripIdempotent(s: string)
    ensures Strip(Strip(s)) == Strip(s)
  {
    var r := Strip(s);
    assert LeadingSpaces(r) == 0;
    assert TrailingSpaces(r[0..]) == 0;
    assert r[0..] == r;
    assert r[0..][..|r| - 0] == r;
  }

  /** A string made only of whitespace strips to the empty string. */
  lemma StripAllSpace(s: string)
    requires forall k :: 0 <= k < |s| ==> IsSpace(s[k])
    ensures Strip(s) == []
  {
  }

  /**
    The "city" token of a location: the text before the first comma, or the
    whole location when it holds no comma.
  */
  function CityToken(location: string): (r: string)
    ensures |r| <= |location| && r == location[..|r|]
    ensures ',' !in r
    ensures |r| < |location| ==> location[|r|] == ','
  {
    if location == [] || location[0] == ',' then []
    else [location[0]] + CityToken(location[1..])
  }

  /** The token of a location with a comma is the text before its first comma. */
  lemma CityTokenBeforeComma(w: string, rest: string)
    requires ',' !in w
    ensures CityToken(w + [','] + rest) == w
  {
    var loc := w + [','] + rest;
    assert loc[|w|] == ',' && loc[..|w|] == w;
  }

  /** ASCII lower-casing (enough for comparing against an ASCII word list). */
  function AsciiLower(s: string): (r: string)
    ensures |r| == |s|
    ensures forall k :: 0 <= k < |s| ==> r[k] == (if 'A' <= s[k] <= 'Z' then (s[k] as int + 32) as char else s[k])
  {
    if s == [] then []
    else [if 'A' <= s[0] <= 'Z' then (s[0] as int + 32) as char else s[0]] + AsciiLower(s[1..])
  }

  /**
    Strict lexicographic order on strings by code point, the order the
    store's `$sort` uses for day strings.
  */
  predicate LexLess(a: string, b: string)
    ensures LexLess(a, b) ==> a != b
    ensures |a| < |b| && a == b[..|a|] ==> LexLess(a, b)
  {
    if a == [] then b != []
    else if b == [] then false
    else if a[0] == b[0] then LexLess(a[1..], b[1..])
    else a[0] < b[0]
  }

  lemma {:induction false} LexIrreflexive(a: string)
    ensures !LexLess(a, a)
  {
    if a != [] {
      LexIrreflexive(a[1..]);
    }
  }

  lemma {:induction false} LexTransitive(a: string, b: string, c: string)
    requires LexLess(a, b) && LexLess(b, c)
    ensures LexLess(a, c)
  {
    if a != [] && b != [] && c != [] && a[0] == b[0] && b[0] == c[0] {
      LexTransitive(a[1..], b[1..], c[1..]);
    }
  }

  lemma {:induction false} LexTotal(a: string, b: string)
    requires a != b
    ensures LexLess(a, b) || LexLess(b, a)
  {
    if a != [] && b != [] && a[0] == b[0] {
      assert a == [a[0]] + a[1..] && b == [b[0]] + b[1..];
      LexTotal(a[1..], b[1..]);
    }
  }

  lemma {:induction false} LexAsymmetric(a: string, b: string)
    requires LexLess(a, b)
    ensures !LexLess(b, a)
  {
    if a != [] && b != [] && a[0] == b[0] {
      LexAsymmetric(a[1..], b[1..]);
    }
  }

  /** A common prefix does not change the order. */
  lemma {:induction false} LexCommonPrefix(p: string, x: string, y: string)
    requires LexLess(x, y)
    ensures LexLess(p + x, p + y)
  {
    if p != [] {
      assert (p + x)[1..] == p[1..] + x;
      assert (p + y)[1..] == p[1..] + y;
      LexCommonPrefix(p[1..], x, y);
      assert p + x != [] && p + y != [] && (p + x)[0] == (p + y)[0];
    } else {
      assert p + x == x && p + y == y;
    }
  }
}

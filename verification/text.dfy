/** The JavaScript string behaviour the server relies on: truthiness of an
    optional string, `toLowerCase`, `trim` (and their composition, the
    normalisation Mongoose applies to `lowercase: true, trim: true` fields),
    `startsWith` and `split` on a one-character separator. */
module Text {
  import opened Wrappers

  /** `!x` in JavaScript for a body field that is either absent or a string:
      `undefined` and the empty string are falsy, every other string is truthy. */
  predicate Falsy(x: Option<string>) {
    x.None? || x.value == ""
  }

  predicate StartsWith(s: string, prefix: string) {
    |prefix| <= |s| && s[..|prefix|] == prefix
  }

  // ---------------------------------------------------------------------
  // trim

  /** The characters `String.prototype.trim` removes: ECMAScript WhiteSpace
      (TAB, VT, FF, SPACE, NBSP, ZWNBSP and every Zs space) and
      LineTerminator (LF, CR, LS, PS). */
  predicate IsSpace(c: char) {
    || c == '\t' || c == '\n' || c == '\U{B}' || c == '\U{C}' || c == '\r'
    || c == ' ' || c == '\U{A0}' || c == '\U{1680}'
    || ('\U{2000}' <= c <= '\U{200A}')
    || c == '\U{2028}' || c == '\U{2029}' || c == '\U{202F}' || c == '\U{205F}'
    || c == '\U{3000}' || c == '\U{FEFF}'
  }

  /** Number of leading spaces of `s`. */
  function LeadingSpaces(s: string): (n: nat)
    ensures n <= |s|
    ensures forall i :: 0 <= i < n ==> IsSpace(s[i])
    ensures n == |s| || !IsSpace(s[n])
  {
    if |s| > 0 && IsSpace(s[0]) then 1 + LeadingSpaces(s[1..]) else 0
  }

  /** Index where the trailing run of spaces of `s` starts. */
  function TrailingStart(s: string): (m: nat)
    ensures m <= |s|
    ensures forall i :: m <= i < |s| ==> IsSpace(s[i])
    ensures m == 0 || !IsSpace(s[m - 1])
  {
    if |s| > 0 && IsSpace(s[|s| - 1]) then TrailingStart(s[..|s| - 1]) else |s|
  }

  /** A string with no space at either end: what `trim` returns. */
  predicate Trimmed(s: string) {
    |s| == 0 || (!IsSpace(s[0]) && !IsSpace(s[|s| - 1]))
  }

  /** `s.trim()`: the slice of `s` between its leading and trailing runs of spaces. */
  function Trim(s: string): (r: string)
    ensures Trimmed(r)
    ensures exists i, j :: 0 <= i <= j <= |s| && r == s[i..j]
                           && (forall k :: 0 <= k < i ==> IsSpace(s[k]))
                           && (forall k :: j <= k < |s| ==> IsSpace(s[k]))
  {
    var i := LeadingSpaces(s);
    if i == |s| then
      assert s[i..i] == "";
      ""
    else
      var j := TrailingStart(s);
      assert i < j;
      s[i..j]
  }

  lemma TrimKeepsTrimmed(s: string)
    requires Trimmed(s)
    ensures Trim(s) == s
  {
    if 0 < |s| {
      assert s[0..|s|] == s;
    }
  }

  // ---------------------------------------------------------------------
  // toLowerCase

  /** Lower-case mapping of one character: ASCII `A`-`Z` and the Latin-1
      capitals U+00C0-U+00DE (except the multiplication sign U+00D7) move
      up by 32; every other character is unchanged. */
  function LowerChar(c: char): (r: char)
    ensures IsSpace(c) <==> IsSpace(r)
    ensures r == c || ('a' <= r <= 'z') || ('\U{E0}' <= r <= '\U{FE}' && r != '\U{F7}')
  {
    if ('A' <= c <= 'Z') || ('\U{C0}' <= c <= '\U{DE}' && c != '\U{D7}') then
      (c as int + 32) as char
    else
      c
  }

  function Lower(s: string): (r: string)
    ensures |r| == |s|
    ensures forall i :: 0 <= i < |s| ==> r[i] == LowerChar(s[i])
  {
    seq(|s|, i requires 0 <= i < |s| => LowerChar(s[i]))
  }

  predicate IsLower(s: string) {
    forall i :: 0 <= i < |s| ==> LowerChar(s[i]) == s[i]
  }

  // ---------------------------------------------------------------------
  // Normalisation of `lowercase: true, trim: true` schema fields

  /** What Mongoose stores for a `lowercase: true, trim: true` string field,
      and what it compares when such a field appears in a query filter. */
  function Normalise(s: string): (r: string)
    ensures IsLower(r) && Trimmed(r)
    ensures |r| <= |s|
    ensures LowerSliceBetweenSpaces(r, s)
  {
    TrimOfLower(s);
    Trim(Lower(s))
  }

  /** `r` is the lower-cased text of a slice of `s` outside which `s` has
      only spaces. */
  predicate LowerSliceBetweenSpaces(r: string, s: string) {
    exists i, j :: 0 <= i <= j <= |s| && r == Lower(s)[i..j]
                   && (forall k :: 0 <= k < i ==> IsSpace(s[k]))
                   && (forall k :: j <= k < |s| ==> IsSpace(s[k]))
  }

  /** Trimming a lower-cased string cuts the spaces of the original and
      leaves a lower-case slice. */
  lemma {:induction false} TrimOfLower(s: string)
    ensures IsLower(Trim(Lower(s)))
    ensures LowerSliceBetweenSpaces(Trim(Lower(s)), s)
  {
    var l := Lower(s);
    var i, j :| 0 <= i <= j <= |l| && Trim(l) == l[i..j]
                && (forall k :: 0 <= k < i ==> IsSpace(l[k]))
                && (forall k :: j <= k < |l| ==> IsSpace(l[k]));
    LowerIsLower(s);
    SliceOfLower(l, i, j);
    SpacesOfLower(s, i, j);
  }

  /** Every character of a lower-cased string is its own lower case. */
  lemma LowerIsLower(s: string)
    ensures IsLower(Lower(s))
  {
  }

  lemma SliceOfLower(t: string, i: nat, j: nat)
    requires IsLower(t) && i <= j <= |t|
    ensures IsLower(t[i..j])
  {
    forall k | 0 <= k < j - i
      ensures LowerChar(t[i..j][k]) == t[i..j][k]
    {
      assert t[i..j][k] == t[i + k];
    }
  }

  /** Spaces of a lower-cased string sit where the original has spaces. */
  lemma SpacesOfLower(s: string, i: nat, j: nat)
    requires i <= j <= |s|
    requires forall k :: 0 <= k < i ==> IsSpace(Lower(s)[k])
    requires forall k :: j <= k < |s| ==> IsSpace(Lower(s)[k])
    ensures forall k :: 0 <= k < i ==> IsSpace(s[k])
    ensures forall k :: j <= k < |s| ==> IsSpace(s[k])
  {
    LowerKeepsSpaces(s);
  }

  /** `toLowerCase` maps spaces to spaces and nothing else to a space. */
  lemma LowerKeepsSpaces(s: string)
    ensures forall k :: 0 <= k < |s| ==> (IsSpace(Lower(s)[k]) <==> IsSpace(s[k]))
  {
  }

  /** A value Mongoose would store unchanged in a normalised field. */
  predicate IsNormal(s: string) {
    Normalise(s) == s
  }

  lemma LowerOfLower(s: string)
    requires IsLower(s)
    ensures Lower(s) == s
  {
  }

  /** Normalising twice is normalising once: the explicit
      `toLowerCase().trim()` of the student login and the schema setter
      applied to the query filter agree with a single normalisation. */
  lemma NormaliseIdempotent(s: string)
    ensures Normalise(Normalise(s)) == Normalise(s)
    ensures IsNormal(Normalise(s))
  {
    var n := Normalise(s);
    LowerOfLower(n);
    TrimKeepsTrimmed(n);
  }

  // ---------------------------------------------------------------------
  // split

  /** `s.split(d)` for a one-character separator `d`: the maximal runs
      between separators, always at least one (possibly empty) piece. */
  function Split(s: string, d: char): (parts: seq<string>)
    ensures |parts| >= 1
    decreases |s|
  {
    if |s| == 0 then [""]
    else
      var rest := Split(s[1..], d);
      if s[0] == d then [""] + rest
      else [[s[0]] + rest[0]] + rest[1..]
  }

  /** `parts.join(d)`, the inverse of `Split`. */
  function Join(parts: seq<string>, d: char): string {
    if |parts| == 0 then ""
    else if |parts| == 1 then parts[0]
    else parts[0] + [d] + Join(parts[1..], d)
  }

  /** The longest prefix of `s` that does not contain `d`. */
  function TakeUntil(s: string, d: char): (r: string)
    ensures StartsWith(s, r)
    ensures d !in r
    ensures |r| == |s| || s[|r|] == d
  {
    if |s| == 0 || s[0] == d then ""
    else [s[0]] + TakeUntil(s[1..], d)
  }

  /** Splitting then joining gives back the original string, and no piece
      contains the separator. */
  lemma {:induction false} SplitJoin(s: string, d: char)
    ensures Join(Split(s, d), d) == s
    ensures forall k :: 0 <= k < |Split(s, d)| ==> d !in Split(s, d)[k]
    decreases |s|
  {
    if |s| > 0 {
      var rest := Split(s[1..], d);
      SplitJoin(s[1..], d);
      if s[0] == d {
        assert Split(s, d) == [""] + rest;
        assert ([""] + rest)[1..] == rest;
        assert s == [d] + s[1..];
      } else {
        var parts := Split(s, d);
        assert parts == [[s[0]] + rest[0]] + rest[1..];
        if |rest| == 1 {
          assert s == [s[0]] + s[1..];
        } else {
          assert parts[1..] == rest[1..];
          assert Join(rest, d) == rest[0] + [d] + Join(rest[1..], d);
          assert s == [s[0]] + s[1..];
        }
        forall k | 0 <= k < |parts|
          ensures d !in parts[k]
        {
          if k > 0 {
            assert parts[k] == rest[k];
          }
        }
      }
    }
  }

  /** The first piece of a split is the prefix up to the first separator. */
  lemma {:induction false} SplitHead(s: string, d: char)
    ensures Split(s, d)[0] == TakeUntil(s, d)
    decreases |s|
  {
    if |s| > 0 && s[0] != d {
      SplitHead(s[1..], d);
    }
  }

  /** A separator-free prefix followed by the separator becomes its own piece. */
  lemma {:induction false} SplitAfterPiece(p: string, d: char, t: string)
    requires d !in p
    ensures Split(p + [d] + t, d) == [p] + Split(t, d)
    decreases |p|
  {
    var s := p + [d] + t;
    if |p| == 0 {
      assert s[1..] == t;
    } else {
      assert s[1..] == p[1..] + [d] + t;
      SplitAfterPiece(p[1..], d, t);
      assert [s[0]] + p[1..] == p;
    }
  }
}

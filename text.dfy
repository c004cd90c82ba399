/** String operations the fax path relies on, with the JavaScript semantics
    it uses: toLowerCase, indexOf, replace of the first match, split on a
    separator, path.basename and the decimal rendering of an integer. */
module Text {

  /** Lower-casing of one character, for the ASCII letters. */
  function LowerChar(c: char): char {
    if 'A' <= c <= 'Z' then (c as int + 32) as char else c
  }

  function Lower(s: string): string {
    seq(|s|, i requires 0 <= i < |s| => LowerChar(s[i]))
  }

  /** Lower-casing keeps the length and maps every character on its own. */
  lemma LowerSpec(s: string)
    ensures |Lower(s)| == |s|
    ensures forall i :: 0 <= i < |s| ==> Lower(s)[i] == LowerChar(s[i])
  {
  }

  lemma LowerSlice(s: string, i: int, j: int)
    requires 0 <= i <= j <= |s|
    ensures Lower(s[i..j]) == Lower(s)[i..j]
  {
  }

  /** Lower-casing leaves no upper-case ASCII letter behind. */
  lemma LowerLeavesNoUpperCase(s: string)
    ensures forall i :: 0 <= i < |Lower(s)| ==> !('A' <= Lower(s)[i] <= 'Z')
  {
    LowerSpec(s);
  }

  /** Lower-casing twice is lower-casing once. */
  lemma LowerIdempotent(s: string)
    ensures Lower(Lower(s)) == Lower(s)
  {
    LowerSpec(s);
    LowerSpec(Lower(s));
    LowerLeavesNoUpperCase(s);
  }

  /** Two characters that are equal or the two cases of one ASCII letter. */
  predicate SameUpToCase(a: char, b: char) {
    || a == b
    || ('A' <= a <= 'Z' && b as int == a as int + 32)
    || ('A' <= b <= 'Z' && a as int == b as int + 32)
  }

  /** Two strings lower-case alike exactly when they differ only in the case
      of ASCII letters. */
  lemma LowerIgnoresCase(s: string, t: string)
    ensures Lower(s) == Lower(t) <==>
      |s| == |t| && forall i :: 0 <= i < |s| ==> SameUpToCase(s[i], t[i])
  {
    LowerSpec(s);
    LowerSpec(t);
    if Lower(s) == Lower(t) {
      forall i | 0 <= i < |s| ensures SameUpToCase(s[i], t[i]) {
        assert LowerChar(s[i]) == LowerChar(t[i]);
      }
    }
    if |s| == |t| && forall i :: 0 <= i < |s| ==> SameUpToCase(s[i], t[i]) {
      forall i | 0 <= i < |s| ensures Lower(s)[i] == Lower(t)[i] {
        assert SameUpToCase(s[i], t[i]);
      }
    }
  }

  /** `pat` occurs in `s` starting at position `i`. */
  predicate MatchAt(s: string, pat: string, i: int) {
    0 <= i && i + |pat| <= |s| && s[i..i + |pat|] == pat
  }

  /** `i` is the position of the leftmost occurrence of `pat` in `s`. */
  predicate FirstMatch(s: string, pat: string, i: int) {
    MatchAt(s, pat, i) && forall j :: 0 <= j < i ==> !MatchAt(s, pat, j)
  }

  predicate NoMatch(s: string, pat: string) {
    forall j :: 0 <= j <= |s| ==> !MatchAt(s, pat, j)
  }

  /** Scan for `pat` from position `from` on. */
  function IndexFrom(s: string, pat: string, from: nat): (r: int)
    requires from <= |s|
    ensures r == -1 || (from <= r && r + |pat| <= |s|)
    decreases |s| - from
  {
    if from + |pat| > |s| then -1
    else if s[from..from + |pat|] == pat then from
    else IndexFrom(s, pat, from + 1)
  }

  /** The scan finds the leftmost occurrence at or after `from`, or -1 when
      there is none. */
  lemma {:induction false} IndexFromSpec(s: string, pat: string, from: nat)
    requires from <= |s|
    ensures var r := IndexFrom(s, pat, from);
      && (r == -1 || (from <= r && MatchAt(s, pat, r)))
      && (r == -1 ==> forall j :: from <= j ==> !MatchAt(s, pat, j))
      && (r != -1 ==> forall j :: from <= j < r ==> !MatchAt(s, pat, j))
    decreases |s| - from
  {
    if from + |pat| <= |s| && s[from..from + |pat|] != pat {
      IndexFromSpec(s, pat, from + 1);
    }
  }

  /** String.prototype.indexOf. */
  function IndexOf(s: string, pat: string): int {
    IndexFrom(s, pat, 0)
  }

  /** indexOf gives the leftmost occurrence, or -1 when there is none. */
  lemma IndexOfSpec(s: string, pat: string)
    ensures IndexOf(s, pat) == -1 <==> NoMatch(s, pat)
    ensures IndexOf(s, pat) != -1 ==> FirstMatch(s, pat, IndexOf(s, pat))
  {
    IndexFromSpec(s, pat, 0);
  }

  /** String.prototype.replace with a string pattern. */
  function ReplaceFirst(s: string, pat: string, rep: string): string {
    var i := IndexOf(s, pat);
    if i == -1 then s else s[..i] + rep + s[i + |pat|..]
  }

  /** Only the leftmost occurrence is replaced; without one the string is
      returned as it is. */
  lemma ReplaceFirstSpec(s: string, pat: string, rep: string)
    ensures NoMatch(s, pat) ==> ReplaceFirst(s, pat, rep) == s
    ensures forall i :: FirstMatch(s, pat, i) ==> ReplaceFirst(s, pat, rep) == s[..i] + rep + s[i + |pat|..]
  {
    IndexOfSpec(s, pat);
    FirstMatchUnique(s, pat);
  }

  /** String.prototype.replace with a case-insensitive regular expression
      without the global flag; the pattern is given in lower case, as the
      regular expression is written. */
  function ReplaceFirstIgnoreCase(s: string, pat: string, rep: string): string {
    var i := IndexOf(Lower(s), pat);
    if i == -1 then s else s[..i] + rep + s[i + |pat|..]
  }

  /** The leftmost case-insensitive occurrence is replaced; without one the
      string is returned as it is. */
  lemma ReplaceFirstIgnoreCaseSpec(s: string, pat: string, rep: string)
    ensures NoMatch(Lower(s), pat) ==> ReplaceFirstIgnoreCase(s, pat, rep) == s
    ensures forall i :: FirstMatch(Lower(s), pat, i) ==>
      ReplaceFirstIgnoreCase(s, pat, rep) == s[..i] + rep + s[i + |pat|..]
  {
    IndexOfSpec(Lower(s), pat);
    FirstMatchUnique(Lower(s), pat);
  }

  lemma FirstMatchUnique(s: string, pat: string)
    ensures forall i, j :: FirstMatch(s, pat, i) && FirstMatch(s, pat, j) ==> i == j
  {
  }

  /** String.prototype.split with a one-character separator. */
  function Split(s: string, sep: char): (r: seq<string>)
    ensures |r| >= 1
    decreases |s|
  {
    if s == [] then [[]]
    else
      var rest := Split(s[1..], sep);
      if s[0] == sep then [[]] + rest else [[s[0]] + rest[0]] + rest[1..]
  }

  /** The pieces joined with the separator between them (a template literal
      whose lines are the pieces). */
  function Join(pieces: seq<string>, sep: char): string
    decreases |pieces|
  {
    if |pieces| == 0 then []
    else if |pieces| == 1 then pieces[0]
    else pieces[0] + [sep] + Join(pieces[1..], sep)
  }

  lemma {:induction false} SplitWithoutSeparator(a: string, sep: char)
    requires sep !in a
    ensures Split(a, sep) == [a]
    decreases |a|
  {
    if a != [] {
      SplitWithoutSeparator(a[1..], sep);
      assert [a[0]] + a[1..] == a;
    }
  }

  lemma {:induction false} SplitAtSeparator(a: string, sep: char, b: string)
    requires sep !in a
    ensures Split(a + [sep] + b, sep) == [a] + Split(b, sep)
    decreases |a|
  {
    var s := a + [sep] + b;
    if a == [] {
      assert s[1..] == b;
    } else {
      assert s[1..] == a[1..] + [sep] + b;
      SplitAtSeparator(a[1..], sep, b);
      assert [a[0]] + a[1..] == a;
    }
  }

  /** Splitting the joined pieces gives the pieces back, when no piece holds
      the separator. */
  lemma {:induction false} SplitJoin(pieces: seq<string>, sep: char)
    requires |pieces| >= 1
    requires forall k :: 0 <= k < |pieces| ==> sep !in pieces[k]
    ensures Split(Join(pieces, sep), sep) == pieces
    decreases |pieces|
  {
    if |pieces| == 1 {
      SplitWithoutSeparator(pieces[0], sep);
    } else {
      SplitJoin(pieces[1..], sep);
      SplitAtSeparator(pieces[0], sep, Join(pieces[1..], sep));
      assert [pieces[0]] + pieces[1..] == pieces;
    }
  }

  /** The path with its trailing '/' characters removed. */
  function StripTrailingSlashes(p: string): (r: string)
    decreases |p|
  {
    if |p| > 0 && p[|p| - 1] == '/' then StripTrailingSlashes(p[..|p| - 1]) else p
  }

  /** What follows the last '/' of the path (all of it when it has none). */
  function LastSegment(p: string): (r: string)
    ensures '/' !in r
    decreases |p|
  {
    if |p| == 0 || p[|p| - 1] == '/' then []
    else LastSegment(p[..|p| - 1]) + [p[|p| - 1]]
  }

  /** path.basename (POSIX) of a path: its last segment, trailing '/' ignored. */
  function Basename(p: string): (r: string)
    ensures '/' !in r
  {
    LastSegment(StripTrailingSlashes(p))
  }

  lemma {:induction false} LastSegmentAppend(d: string, name: string)
    requires '/' !in name
    ensures LastSegment(d + name) == LastSegment(d) + name
    decreases |name|
  {
    if name != [] {
      var n' := name[..|name| - 1];
      assert (d + name)[..|d + name| - 1] == d + n';
      LastSegmentAppend(d, n');
      assert n' + [name[|name| - 1]] == name;
    } else {
      assert d + name == d;
    }
  }

  /** The basename of a directory joined with a file name without '/' is
      that file name, preceded by what the directory holds after its last '/'. */
  lemma BasenameOfJoin(d: string, name: string)
    requires '/' !in name && name != []
    ensures Basename(d + name) == LastSegment(d) + name
  {
    assert (d + name)[|d + name| - 1] == name[|name| - 1];
    LastSegmentAppend(d, name);
  }

  function Digit(d: nat): char
    requires d < 10
  {
    ('0' as int + d) as char
  }

  predicate IsDigits(s: string) {
    forall k :: 0 <= k < |s| ==> '0' <= s[k] <= '9'
  }

  /** The decimal rendering of a number, as `${n}` gives it. */
  function NatToString(n: nat): (s: string)
    ensures |s| >= 1 && IsDigits(s)
    ensures s[0] == '0' <==> n == 0
    ensures |s| == 1 || s[0] != '0'
    decreases n
  {
    if n < 10 then [Digit(n)] else NatToString(n / 10) + [Digit(n % 10)]
  }

  /** The number a string of decimal digits denotes. */
  function DecimalValue(s: string): nat
    requires IsDigits(s)
    decreases |s|
  {
    if s == [] then 0
    else 10 * DecimalValue(s[..|s| - 1]) + (s[|s| - 1] as int - '0' as int)
  }

  /** The decimal rendering loses nothing: reading it back gives the number. */
  lemma {:induction false} DecimalRoundTrip(n: nat)
    ensures DecimalValue(NatToString(n)) == n
    decreases n
  {
    if n >= 10 {
      DecimalRoundTrip(n / 10);
      var s := NatToString(n);
      assert s[..|s| - 1] == NatToString(n / 10);
    }
  }
}

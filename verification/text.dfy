/** The two string operations of Python's `str` that the sensor path relies on:
    `strip()` with no argument and `split(sep)` with a one-character separator. */
module Text {

  /** The characters Python's `str.isspace()` accepts, which `strip()` removes
      from both ends: TAB through CR, the four information separators,
      SPACE, NEL, NBSP and the Unicode space separators. */
  predicate IsSpace(c: char) {
    c in SpaceChars
  }

  const SpaceChars: set<char> := {
    ' ', '\t', '\n', '\U{0B}', '\U{0C}', '\r', '\U{1C}', '\U{1D}', '\U{1E}', '\U{1F}',
    '\U{85}', '\U{A0}', '\U{1680}',
    '\U{2000}', '\U{2001}', '\U{2002}', '\U{2003}', '\U{2004}', '\U{2005}',
    '\U{2006}', '\U{2007}', '\U{2008}', '\U{2009}', '\U{200A}',
    '\U{2028}', '\U{2029}', '\U{202F}', '\U{205F}', '\U{3000}'
  }

  predicate AllSpace(s: string) {
    forall i :: 0 <= i < |s| ==> IsSpace(s[i])
  }

  /** Neither end of `s` is whitespace (vacuously true of the empty string). */
  predicate IsTrimmed(s: string) {
    |s| == 0 || (!IsSpace(s[0]) && !IsSpace(s[|s| - 1]))
  }

  /** The first index at or after `i` whose character is not in `ws`, or `|s|`. */
  function SkipFrom(s: string, i: nat, ws: set<char>): (k: nat)
    requires i <= |s|
    ensures i <= k <= |s|
    ensures forall m :: i <= m < k ==> s[m] in ws
    ensures k < |s| ==> s[k] !in ws
    decreases |s| - i
  {
    if i < |s| && s[i] in ws then SkipFrom(s, i + 1, ws) else i
  }

  /** One past the last index before `j` whose character is not in `ws`, or 0. */
  function SkipBack(s: string, j: nat, ws: set<char>): (k: nat)
    requires j <= |s|
    ensures k <= j
    ensures forall m :: k <= m < j ==> s[m] in ws
    ensures k > 0 ==> s[k - 1] !in ws
    decreases j
  {
    if j > 0 && s[j - 1] in ws then SkipBack(s, j - 1, ws) else j
  }

  /** Python's `s.strip(chars)` with `chars` given as the set `ws`: the part of
      `s` between its leading and its trailing characters from `ws`; neither
      end of it is in `ws`, and it holds only characters of `s`. */
  function StripChars(s: string, ws: set<char>): (r: string)
    ensures |r| == 0 || (r[0] !in ws && r[|r| - 1] !in ws)
    ensures |r| <= |s|
    ensures forall k :: 0 <= k < |r| ==> r[k] in s
  {
    var i := SkipFrom(s, 0, ws);
    var j := SkipBack(s, |s|, ws);
    if j <= i then "" else s[i..j]
  }

  /** Python's `s.strip()`: `strip` over the whitespace of `str.isspace()`. */
  function Strip(s: string): (r: string)
    ensures IsTrimmed(r)
    ensures |r| <= |s|
    ensures forall k :: 0 <= k < |r| ==> r[k] in s
  {
    StripChars(s, SpaceChars)
  }

  /** The backward scan stops at the only place it can: just after the last
      character before `j` that is not in `ws`. */
  lemma {:induction false} SkipBackAt(s: string, j: nat, k: nat, ws: set<char>)
    requires k <= j <= |s|
    requires forall m :: k <= m < j ==> s[m] in ws
    requires k == 0 || s[k - 1] !in ws
    ensures SkipBack(s, j, ws) == k
    decreases j
  {
    if j > k {
      SkipBackAt(s, j - 1, k, ws);
    }
  }

  /** What `strip()` keeps is the middle of the string, and everything it
      drops, at either end, is whitespace; a string of whitespace strips to
      nothing. */
  lemma StripKeepsMiddle(s: string)
    ensures var i, j := SkipFrom(s, 0, SpaceChars), SkipBack(s, |s|, SpaceChars);
      && (j <= i ==> AllSpace(s) && Strip(s) == "")
      && (i < j ==> Strip(s) == s[i..j])
      && (forall m :: 0 <= m < |s| && (m < i || j <= m) ==> IsSpace(s[m]))
  {
  }

  /** A string neither of whose ends is in `ws` is left alone by `strip`. */
  lemma StripCharsKeeps(s: string, ws: set<char>)
    requires |s| == 0 || (s[0] !in ws && s[|s| - 1] !in ws)
    ensures StripChars(s, ws) == s
  {
    if |s| > 0 {
      SkipBackAt(s, |s|, |s|, ws);
      assert s[0..|s|] == s;
    }
  }

  /** A string whose ends are not whitespace is left alone by `strip()`. */
  lemma StripTrimmed(s: string)
    requires IsTrimmed(s)
    ensures Strip(s) == s
  {
    StripCharsKeeps(s, SpaceChars);
  }

  /** `strip()` is idempotent. */
  lemma StripIdempotent(s: string)
    ensures Strip(Strip(s)) == Strip(s)
  {
    StripTrimmed(Strip(s));
  }

  /** A string of whitespace only strips to nothing. */
  lemma StripAllSpace(s: string)
    requires AllSpace(s)
    ensures Strip(s) == ""
  {
  }

  /** Number of occurrences of `c` in `s`. */
  function Count(s: string, c: char): nat
    decreases |s|
  {
    if |s| == 0 then 0 else (if s[0] == c then 1 else 0) + Count(s[1..], c)
  }

  /** Python's `s.split(sep)` for a single-character separator: the pieces
      between consecutive separators, one more piece than there are separators,
      none of them containing the separator. */
  function Split(s: string, sep: char): (parts: seq<string>)
    ensures |parts| == Count(s, sep) + 1
    ensures forall k :: 0 <= k < |parts| ==> sep !in parts[k]
    decreases |s|
  {
    if |s| == 0 then [""]
    else if s[0] == sep then [""] + Split(s[1..], sep)
    else
      var rest := Split(s[1..], sep);
      [[s[0]] + rest[0]] + rest[1..]
  }

  /** Python's `sep.join(parts)`. */
  function Join(parts: seq<string>, sep: char): string
    decreases |parts|
  {
    if |parts| == 0 then ""
    else if |parts| == 1 then parts[0]
    else parts[0] + [sep] + Join(parts[1..], sep)
  }

  /** Splitting loses nothing: joining the pieces back gives the original string. */
  lemma {:induction false} JoinSplit(s: string, sep: char)
    ensures Join(Split(s, sep), sep) == s
    decreases |s|
  {
    if |s| == 0 {
    } else if s[0] == sep {
      JoinSplit(s[1..], sep);
      var rest := Split(s[1..], sep);
      assert Split(s, sep) == [""] + rest;
      assert ([""] + rest)[1..] == rest;
    } else {
      JoinSplit(s[1..], sep);
      var rest := Split(s[1..], sep);
      var parts := [[s[0]] + rest[0]] + rest[1..];
      assert Split(s, sep) == parts;
      if |rest| == 1 {
        assert Join(parts, sep) == [s[0]] + rest[0];
      } else {
        assert parts[1..] == rest[1..];
        assert Join(rest, sep) == rest[0] + [sep] + Join(rest[1..], sep);
        assert Join(parts, sep) == [s[0]] + rest[0] + [sep] + Join(rest[1..], sep);
      }
      assert s == [s[0]] + s[1..];
    }
  }

  /** A string without the separator splits into itself alone. */
  lemma {:induction false} SplitNoSeparator(s: string, sep: char)
    requires sep !in s
    ensures Split(s, sep) == [s]
    decreases |s|
  {
    if |s| > 0 {
      assert sep !in s[1..] by {
        forall k | 0 <= k < |s[1..]| ensures s[1..][k] != sep {
          assert s[1..][k] == s[k + 1];
        }
      }
      SplitNoSeparator(s[1..], sep);
      assert s == [s[0]] + s[1..];
    }
  }

  /** The first separator closes the first piece. */
  lemma {:induction false} SplitAtSeparator(a: string, sep: char, b: string)
    requires sep !in a
    ensures Split(a + [sep] + b, sep) == [a] + Split(b, sep)
    decreases |a|
  {
    var s := a + [sep] + b;
    if |a| == 0 {
      assert s[1..] == b;
    } else {
      assert sep !in a[1..] by {
        forall k | 0 <= k < |a[1..]| ensures a[1..][k] != sep {
          assert a[1..][k] == a[k + 1];
        }
      }
      SplitAtSeparator(a[1..], sep, b);
      assert s[1..] == a[1..] + [sep] + b;
      assert [a[0]] + a[1..] == a;
    }
  }

  /** Joining pieces free of the separator and splitting again gives the pieces back. */
  lemma {:induction false} SplitJoin(parts: seq<string>, sep: char)
    requires |parts| >= 1
    requires forall k :: 0 <= k < |parts| ==> sep !in parts[k]
    ensures Split(Join(parts, sep), sep) == parts
    decreases |parts|
  {
    if |parts| == 1 {
      SplitNoSeparator(parts[0], sep);
    } else {
      SplitJoin(parts[1..], sep);
      SplitAtSeparator(parts[0], sep, Join(parts[1..], sep));
      assert [parts[0]] + parts[1..] == parts;
    }
  }
}

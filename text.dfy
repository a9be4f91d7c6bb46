/** The Python string operations the application relies on, stated over
    `seq<char>`: `isspace`, `strip`, `split`, `join`, `in`, `startswith`,
    `lower` and the decimal rendering of a counter. */
module Text {

  /** Python's `str.isspace` for one character: the Unicode whitespace set. */
  predicate IsSpace(c: char) {
    || c == ' '
    || ('\t' <= c <= '\r')
    || ('\U{1C}' <= c <= '\U{1F}')
    || c == '\U{85}' || c == '\U{A0}' || c == '\U{1680}'
    || ('\U{2000}' <= c <= '\U{200A}')
    || c == '\U{2028}' || c == '\U{2029}' || c == '\U{202F}' || c == '\U{205F}' || c == '\U{3000}'
  }

  /** Every character of `s` is whitespace; Python's `not s.strip()`. */
  predicate AllSpace(s: string) {
    forall i :: 0 <= i < |s| ==> IsSpace(s[i])
  }

  /** `s` is not empty and has no whitespace at either end. */
  predicate Trimmed(s: string) {
    |s| > 0 && !IsSpace(s[0]) && !IsSpace(s[|s| - 1])
  }

  /** The decimal digits matched by a regular expression `\d` (ASCII only). */
  predicate IsDigit(c: char) {
    '0' <= c <= '9'
  }

  // ---------------------------------------------------------------------------
  // strip

  /** Python's `s.lstrip()`: the suffix left after dropping leading whitespace. */
  function StripLeft(s: string): (r: string)
    ensures |r| <= |s|
    ensures r == [] || !IsSpace(r[0])
  {
    if s != [] && IsSpace(s[0]) then StripLeft(s[1..]) else s
  }

  /** What `lstrip` keeps is a suffix, and what it drops is whitespace. */
  lemma {:induction false} StripLeftDropsSpace(s: string)
    ensures StripLeft(s) == s[|s| - |StripLeft(s)|..]
    ensures AllSpace(s[..|s| - |StripLeft(s)|])
  {
    if s != [] && IsSpace(s[0]) {
      var t := s[1..];
      StripLeftDropsSpace(t);
      var r := StripLeft(t);
      var k := |s| - |r|;
      assert StripLeft(s) == r;
      assert t[k - 1..] == s[k..];
      forall i | 0 <= i < k
        ensures IsSpace(s[..k][i])
      {
        if i > 0 {
          assert s[..k][i] == t[..k - 1][i - 1];
        }
      }
    }
  }

  /** Python's `s.rstrip()`: the prefix left after dropping trailing whitespace. */
  function StripRight(s: string): (r: string)
    ensures |r| <= |s|
    ensures r == [] || !IsSpace(r[|r| - 1])
    ensures r == [] || r[0] == s[0]
  {
    if s != [] && IsSpace(s[|s| - 1]) then StripRight(s[..|s| - 1]) else s
  }

  /** What `rstrip` keeps is a prefix, and what it drops is whitespace. */
  lemma {:induction false} StripRightDropsSpace(s: string)
    ensures StripRight(s) == s[..|StripRight(s)|]
    ensures AllSpace(s[|StripRight(s)|..])
  {
    if s != [] && IsSpace(s[|s| - 1]) {
      StripRightDropsSpace(s[..|s| - 1]);
      assert s[..|s| - 1][..|StripRight(s[..|s| - 1])|] == s[..|StripRight(s[..|s| - 1])|];
      var r := StripRight(s[..|s| - 1]);
      assert s[|r|..] == s[..|s| - 1][|r|..] + [s[|s| - 1]];
    }
  }

  /** Python's `s.strip()`. */
  function Strip(s: string): (r: string)
    ensures |r| <= |s|
    ensures r == [] || Trimmed(r)
  {
    StripRight(StripLeft(s))
  }

  /** `Strip(s)` is the window of `s` between a whitespace prefix and a
      whitespace suffix. */
  lemma StripWindow(s: string)
    ensures |s| - |StripLeft(s)| + |Strip(s)| <= |s|
    ensures Strip(s) == s[|s| - |StripLeft(s)|..|s| - |StripLeft(s)| + |Strip(s)|]
    ensures AllSpace(s[..|s| - |StripLeft(s)|])
    ensures AllSpace(s[|s| - |StripLeft(s)| + |Strip(s)|..])
  {
    StripLeftDropsSpace(s);
    StripWindowText(s);
    StripWindowTail(s);
  }

  lemma StripWindowText(s: string)
    ensures |s| - |StripLeft(s)| + |Strip(s)| <= |s|
    ensures Strip(s) == s[|s| - |StripLeft(s)|..|s| - |StripLeft(s)| + |Strip(s)|]
  {
    var l := StripLeft(s);
    var a := |s| - |l|;
    var r := StripRight(l);
    StripLeftDropsSpace(s);
    StripRightDropsSpace(l);
    WindowOfSuffix(s, a, |r|);
  }

  lemma StripWindowTail(s: string)
    ensures |s| - |StripLeft(s)| + |Strip(s)| <= |s|
    ensures AllSpace(s[|s| - |StripLeft(s)| + |Strip(s)|..])
  {
    var l := StripLeft(s);
    var a := |s| - |l|;
    var r := StripRight(l);
    StripLeftDropsSpace(s);
    StripRightDropsSpace(l);
    WindowOfSuffix(s, a, |r|);
  }

  lemma WindowOfSuffix(s: string, a: nat, n: nat)
    requires a + n <= |s|
    ensures s[a..][..n] == s[a..a + n]
    ensures s[a..][n..] == s[a + n..]
  {
  }

  /** Stripping yields the empty string exactly when the input is all whitespace. */
  lemma StripEmptyIff(s: string)
    ensures Strip(s) == [] <==> AllSpace(s)
  {
    StripWindow(s);
    var a := |s| - |StripLeft(s)|;
    if Strip(s) == [] {
      var l := StripLeft(s);
      StripRightDropsSpace(l);
      assert l[|Strip(s)|..] == l;
      assert l == [];
      assert s[..a] == s;
    } else {
      assert !IsSpace(Strip(s)[0]);
      assert Strip(s)[0] == s[a];
    }
  }

  /** A string without whitespace at its ends is left alone by `strip`. */
  lemma StripTrimmed(s: string)
    requires Trimmed(s)
    ensures Strip(s) == s
  {
  }

  /** Dropping leading whitespace keeps a substring that starts with a
      non-blank character, shifted by the number of characters dropped. */
  lemma StripLeftKeeps(s: string, q: string, k: nat)
    requires SubstringAt(s, q, k) && Trimmed(q)
    ensures k >= |s| - |StripLeft(s)|
    ensures SubstringAt(StripLeft(s), q, k - (|s| - |StripLeft(s)|))
  {
    var l := StripLeft(s);
    var a := |s| - |l|;
    StripLeftDropsSpace(s);
    assert !IsSpace(s[k]) by { assert s[k] == s[k..k + |q|][0]; }
    assert a <= k by {
      forall i | 0 <= i < a ensures IsSpace(s[i]) { assert s[..a][i] == s[i]; }
    }
    assert l[k - a..k - a + |q|] == s[k..k + |q|];
  }

  /** Dropping trailing whitespace keeps a substring that ends with a
      non-blank character, at the same index. */
  lemma StripRightKeeps(s: string, q: string, k: nat)
    requires SubstringAt(s, q, k) && Trimmed(q)
    ensures SubstringAt(StripRight(s), q, k)
  {
    var r := StripRight(s);
    StripRightDropsSpace(s);
    assert !IsSpace(s[k + |q| - 1]) by { assert s[k + |q| - 1] == s[k..k + |q|][|q| - 1]; }
    assert k + |q| <= |r| by {
      forall i | |r| <= i < |s| ensures IsSpace(s[i]) { assert s[|r|..][i - |r|] == s[i]; }
    }
    assert r[k..k + |q|] == s[k..k + |q|];
  }

  /** Stripping keeps every substring that itself has no whitespace at its ends. */
  lemma StripKeepsInner(s: string, q: string, k: nat)
    requires SubstringAt(s, q, k) && Trimmed(q)
    ensures Contains(Strip(s), q)
  {
    StripLeftKeeps(s, q, k);
    var k' := k - (|s| - |StripLeft(s)|);
    StripRightKeeps(StripLeft(s), q, k');
    assert SubstringAt(Strip(s), q, k');
  }

  // ---------------------------------------------------------------------------
  // substrings

  /** `sub` occurs in `s` starting at index `i`. */
  predicate SubstringAt(s: string, sub: string, i: nat) {
    i + |sub| <= |s| && s[i..i + |sub|] == sub
  }

  /** Python's `sub in s`. */
  predicate Contains(s: string, sub: string) {
    exists i: nat | i <= |s| :: SubstringAt(s, sub, i)
  }

  /** Python's `s.startswith(p)`. */
  predicate StartsWith(s: string, p: string) {
    |p| <= |s| && s[..|p|] == p
  }

  /** A substring occurrence survives extension of the text on either side. */
  lemma SubstringAtExtended(a: string, s: string, b: string, q: string, k: nat)
    requires SubstringAt(s, q, k)
    ensures SubstringAt(a + s + b, q, |a| + k)
  {
    assert (a + s + b)[|a| + k..|a| + k + |q|] == s[k..k + |q|];
  }

  /** A substring with a non-blank character makes the whole string non-blank. */
  lemma NotAllSpaceOfSubstring(s: string, q: string, k: nat)
    requires SubstringAt(s, q, k) && !AllSpace(q)
    ensures !AllSpace(s)
  {
    var j :| 0 <= j < |q| && !IsSpace(q[j]);
    assert s[k + j] == q[j];
  }

  // ---------------------------------------------------------------------------
  // split and join

  /** Python's `s.split(sep)` for a non-empty separator: the pieces between
      the non-overlapping occurrences of `sep`, scanned from the left. */
  function Split(s: string, sep: string): (r: seq<string>)
    requires sep != []
    ensures |r| >= 1
  {
    SplitFrom(s, sep, [])
  }

  /** `Split`, with `piece` the part of the current piece already scanned. */
  function SplitFrom(s: string, sep: string, piece: string): (r: seq<string>)
    requires sep != []
    ensures |r| >= 1
    decreases |s|
  {
    if |s| < |sep| then [piece + s]
    else if s[..|sep|] == sep then [piece] + SplitFrom(s[|sep|..], sep, [])
    else SplitFrom(s[1..], sep, piece + [s[0]])
  }

  /** Python's `sep.join(parts)`. */
  function Join(parts: seq<string>, sep: string): string
  {
    if |parts| == 0 then []
    else if |parts| == 1 then parts[0]
    else parts[0] + sep + Join(parts[1..], sep)
  }

  /** Python's `"".join(parts)`. */
  function Concat(parts: seq<string>): string
  {
    if parts == [] then [] else parts[0] + Concat(parts[1..])
  }

  /** Joining the pieces of a split with the same separator gives back the text. */
  lemma {:induction false} JoinSplit(s: string, sep: string)
    requires sep != []
    ensures Join(Split(s, sep), sep) == s
  {
    JoinSplitFrom(s, sep, []);
  }

  lemma {:induction false} JoinSplitFrom(s: string, sep: string, piece: string)
    requires sep != []
    ensures Join(SplitFrom(s, sep, piece), sep) == piece + s
    decreases |s|
  {
    if |s| < |sep| {
    } else if s[..|sep|] == sep {
      var rest := SplitFrom(s[|sep|..], sep, []);
      JoinSplitFrom(s[|sep|..], sep, []);
      assert ([piece] + rest)[1..] == rest;
      assert s == sep + s[|sep|..];
    } else {
      JoinSplitFrom(s[1..], sep, piece + [s[0]]);
      assert piece + [s[0]] + s[1..] == piece + s;
    }
  }

  /** Appending a part to a join adds the separator and the part. */
  lemma {:induction false} JoinSnoc(parts: seq<string>, x: string, sep: string)
    ensures Join(parts + [x], sep) == if parts == [] then x else Join(parts, sep) + sep + x
    decreases |parts|
  {
    if |parts| >= 2 {
      assert (parts + [x])[1..] == parts[1..] + [x];
      JoinSnoc(parts[1..], x, sep);
    } else if |parts| == 1 {
      assert (parts + [x])[1..] == [x];
    }
  }

  /** A join is as long as its parts plus one separator between each two. */
  lemma {:induction false} JoinLength(parts: seq<string>, sep: string)
    requires parts != []
    ensures |Join(parts, sep)| == |Concat(parts)| + (|parts| - 1) * |sep|
    decreases |parts|
  {
    if |parts| >= 2 {
      JoinLength(parts[1..], sep);
      assert (|parts| - 1) * |sep| == (|parts| - 2) * |sep| + |sep|;
    }
  }

  /** Concatenating one more part. */
  lemma {:induction false} ConcatSnoc(parts: seq<string>, x: string)
    ensures Concat(parts + [x]) == Concat(parts) + x
    decreases |parts|
  {
    if parts == [] {
      assert [] + [x] == [x];
    } else {
      assert (parts + [x])[1..] == parts[1..] + [x];
      ConcatSnoc(parts[1..], x);
    }
  }

  /** Every part of a join occurs in it, at the offset the earlier parts and
      separators add up to. */
  lemma {:induction false} JoinContainsPart(parts: seq<string>, sep: string, i: nat)
    requires i < |parts|
    ensures exists k: nat | k <= |Join(parts, sep)| :: SubstringAt(Join(parts, sep), parts[i], k)
    decreases |parts|
  {
    if |parts| == 1 {
      assert SubstringAt(Join(parts, sep), parts[i], 0);
    } else if i == 0 {
      assert SubstringAt(Join(parts, sep), parts[0], 0);
    } else {
      JoinContainsPart(parts[1..], sep, i - 1);
      var k: nat :| k <= |Join(parts[1..], sep)| && SubstringAt(Join(parts[1..], sep), parts[1..][i - 1], k);
      SubstringAtExtended(parts[0] + sep, Join(parts[1..], sep), [], parts[i], k);
      assert parts[0] + sep + Join(parts[1..], sep) + [] == Join(parts, sep);
    }
  }

  /** A join is blank only if every part is. */
  lemma JoinNotAllSpace(parts: seq<string>, sep: string, i: nat)
    requires i < |parts| && !AllSpace(parts[i])
    ensures !AllSpace(Join(parts, sep))
  {
    JoinContainsPart(parts, sep, i);
    var k: nat :| k <= |Join(parts, sep)| && SubstringAt(Join(parts, sep), parts[i], k);
    NotAllSpaceOfSubstring(Join(parts, sep), parts[i], k);
  }

  /** Every part of a split of a blank text is blank, when the separator is. */
  lemma SplitOfBlank(s: string, sep: string, i: nat)
    requires sep != [] && AllSpace(s)
    requires i < |Split(s, sep)|
    ensures AllSpace(Split(s, sep)[i])
  {
    JoinSplit(s, sep);
    if !AllSpace(Split(s, sep)[i]) {
      JoinNotAllSpace(Split(s, sep), sep, i);
    }
  }

  // ---------------------------------------------------------------------------
  // lower-casing

  /** Python's `str.lower` on one character, for ASCII and the Cyrillic letters
      (Russian and Uzbek alphabets); other characters are left as they are. */
  function LowerChar(c: char): char
  {
    if 'A' <= c <= 'Z' then (c as int + 32) as char
    else if '\U{0410}' <= c <= '\U{042F}' then (c as int + 32) as char
    else if '\U{0400}' <= c <= '\U{040F}' then (c as int + 80) as char
    else if c == '\U{04C0}' then '\U{04CF}'
    else if '\U{0460}' <= c <= '\U{0481}' && c as int % 2 == 0 then (c as int + 1) as char
    else if '\U{048A}' <= c <= '\U{04BF}' && c as int % 2 == 0 then (c as int + 1) as char
    else if '\U{04C1}' <= c <= '\U{04CE}' && c as int % 2 == 1 then (c as int + 1) as char
    else if '\U{04D0}' <= c <= '\U{04FF}' && c as int % 2 == 0 then (c as int + 1) as char
    else c
  }

  /** Python's `s.lower()`, character by character. */
  function Lower(s: string): (r: string)
    ensures |r| == |s|
    ensures forall i :: 0 <= i < |s| ==> r[i] == LowerChar(s[i])
  {
    seq(|s|, i requires 0 <= i < |s| => LowerChar(s[i]))
  }

  // ---------------------------------------------------------------------------
  // decimal rendering

  function DigitChar(d: nat): (c: char)
    requires d < 10
    ensures IsDigit(c)
  {
    ('0' as int + d) as char
  }

  /** Python's `str(n)` for a natural number. */
  function NatToString(n: nat): (r: string)
    ensures |r| >= 1
    ensures (|r| == 1) == (n < 10)
    ensures forall i :: 0 <= i < |r| ==> IsDigit(r[i])
  {
    if n < 10 then [DigitChar(n)] else NatToString(n / 10) + [DigitChar(n % 10)]
  }

  /** Distinct numbers render differently. */
  lemma {:induction false} NatToStringInjective(m: nat, n: nat)
    requires NatToString(m) == NatToString(n)
    ensures m == n
  {
    if m >= 10 && n >= 10 {
      var sm, sn := NatToString(m), NatToString(n);
      assert sm[|sm| - 1] == DigitChar(m % 10) && sn[|sn| - 1] == DigitChar(n % 10);
      assert sm[..|sm| - 1] == NatToString(m / 10);
      assert sn[..|sn| - 1] == NatToString(n / 10);
      NatToStringInjective(m / 10, n / 10);
    }
  }
}

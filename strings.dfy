/** The Python string operations the scripts rely on: `in`, `find`,
    `split(sep, 1)`, `split(c)`, `join`, `replace`, `strip`, decimal
    rendering of an integer, and `<` on strings. */
module Strings {
  import opened Wrappers

  /** `p` occurs in `s` starting at index `i`. */
  predicate OccursAt(s: string, p: string, i: int) {
    0 <= i && i + |p| <= |s| && s[i..i + |p|] == p
  }

  /** Python's `p in s`. */
  predicate Contains(s: string, p: string) {
    exists i | 0 <= i <= |s| :: OccursAt(s, p, i)
  }

  /** An occurrence at `i + 1` in `s` is an occurrence at `i` in `s[1..]`. */
  lemma OccursAtTail(s: string, p: string, i: int)
    requires |s| > 0 && i >= 0
    ensures OccursAt(s, p, i + 1) <==> OccursAt(s[1..], p, i)
  {
    if i + 1 + |p| <= |s| {
      assert s[i + 1..i + 1 + |p|] == s[1..][i..i + |p|];
    }
  }

  /** `s.find(p)`: the index of the first occurrence, or None when `p in s`
      is false. */
  function Find(s: string, p: string): (r: Option<nat>)
    ensures r.Some? ==> OccursAt(s, p, r.value)
    ensures r.Some? ==> forall j :: 0 <= j < r.value ==> !OccursAt(s, p, j)
    ensures r.None? <==> !Contains(s, p)
    decreases |s|
  {
    if |s| < |p| then None
    else if s[..|p|] == p then
      assert OccursAt(s, p, 0);
      Some(0)
    else
      assert !OccursAt(s, p, 0);
      assert forall j :: 0 <= j ==> (OccursAt(s, p, j + 1) <==> OccursAt(s[1..], p, j)) by {
        forall j | 0 <= j ensures OccursAt(s, p, j + 1) <==> OccursAt(s[1..], p, j) {
          OccursAtTail(s, p, j);
        }
      }
      match Find(s[1..], p)
      case None =>
        assert forall j :: !OccursAt(s, p, j) by {
          forall j ensures !OccursAt(s, p, j) {
            if j > 0 { assert !OccursAt(s[1..], p, j - 1); }
          }
        }
        None
      case Some(i) =>
        assert forall j :: 0 <= j < i + 1 ==> !OccursAt(s, p, j) by {
          forall j | 0 <= j < i + 1 ensures !OccursAt(s, p, j) {
            if j > 0 { assert !OccursAt(s[1..], p, j - 1); }
          }
        }
        Some(i + 1)
  }

  /** `s.split(sep, 1)` when `sep in s`: the text before the first occurrence
      and the text after it; None when `sep` does not occur. */
  function SplitOnce(s: string, sep: string): Option<(string, string)> {
    match Find(s, sep)
    case None => None
    case Some(i) => Some((s[..i], s[i + |sep|..]))
  }

  /** Splitting at the first separator loses nothing: the two halves around
      the separator give back the string, and the first half holds no
      separator.  No split happens exactly when the separator is absent. */
  lemma SplitOnceJoins(s: string, sep: string)
    requires |sep| > 0
    ensures SplitOnce(s, sep).None? <==> !Contains(s, sep)
    ensures SplitOnce(s, sep).Some? ==>
      SplitOnce(s, sep).value.0 + sep + SplitOnce(s, sep).value.1 == s
    ensures SplitOnce(s, sep).Some? ==> !Contains(SplitOnce(s, sep).value.0, sep)
  {
    var found := Find(s, sep);
    if found.Some? {
      var i := found.value;
      var before, after := s[..i], s[i + |sep|..];
      assert SplitOnce(s, sep) == Some((before, after));
      assert s[i..i + |sep|] == sep;
      assert before + sep + after == s by {
        assert s == s[..i] + s[i..i + |sep|] + s[i + |sep|..];
      }
      forall j | 0 <= j <= |before| ensures !OccursAt(before, sep, j) {
        if j + |sep| <= |before| {
          assert before[j..j + |sep|] == s[j..j + |sep|];
          assert !OccursAt(s, sep, j);
        }
      }
    }
  }

  /** A one-character pattern occurs exactly when the character does. */
  lemma ContainsChar(s: string, c: char)
    ensures Contains(s, [c]) <==> c in s
  {
    if c in s {
      var k :| 0 <= k < |s| && s[k] == c;
      assert OccursAt(s, [c], k);
    }
    if Contains(s, [c]) {
      var k :| 0 <= k <= |s| && OccursAt(s, [c], k);
      assert s[k] == s[k..k + 1][0];
    }
  }

  /** Splitting at a character that the first part does not hold separates
      exactly that first part. */
  lemma SplitOnceAtFirst(a: string, c: char, b: string)
    requires c !in a
    ensures SplitOnce(a + [c] + b, [c]) == Some((a, b))
  {
    var s := a + [c] + b;
    assert OccursAt(s, [c], |a|);
    assert forall k :: 0 <= k < |a| ==> !OccursAt(s, [c], k) by {
      forall k | 0 <= k < |a| ensures !OccursAt(s, [c], k) {
        assert s[k..k + 1] == [a[k]];
      }
    }
    var i := Find(s, [c]).value;
    assert i == |a|;
    assert s[..i] == a && s[i + 1..] == b;
  }

  /** No proper prefix of `p` is also a suffix of it, so two occurrences of
      `p` can never overlap. */
  predicate Borderless(p: string) {
    forall k :: 0 < k < |p| ==> p[..k] != p[|p| - k..]
  }

  /** A pattern whose last character occurs nowhere else in it is borderless. */
  lemma LastUniqueBorderless(p: string)
    requires |p| > 0 && p[|p| - 1] !in p[..|p| - 1]
    ensures Borderless(p)
  {
    forall k | 0 < k < |p| ensures p[..k] != p[|p| - k..] {
      assert p[..k][k - 1] == p[..|p| - 1][k - 1];
      assert p[|p| - k..][k - 1] == p[|p| - 1];
    }
  }

  /** Splitting at a borderless separator that the text before it does not
      hold separates exactly that text: the split is at the first
      occurrence. */
  lemma SplitOnceAfter(a: string, sep: string, b: string)
    requires |sep| > 0 && Borderless(sep) && !Contains(a, sep)
    ensures SplitOnce(a + sep + b, sep) == Some((a, b))
  {
    var s := a + sep + b;
    assert s[|a|..|a| + |sep|] == sep;
    assert OccursAt(s, sep, |a|);
    forall j | 0 <= j < |a| ensures !OccursAt(s, sep, j) {
      if j + |sep| <= |a| {
        assert s[j..j + |sep|] == a[j..j + |sep|];
        assert !OccursAt(a, sep, j);
      } else if j + |sep| <= |s| {
        var k := j + |sep| - |a|;
        assert s[j..j + |sep|] != sep by {
          assert s[j..j + |sep|][|a| - j..] == sep[..k];
          assert s[j..j + |sep|][|a| - j..] == s[j..j + |sep|][|sep| - k..];
          assert sep[..k] != sep[|sep| - k..];
        }
      }
    }
    var i := Find(s, sep).value;
    assert i == |a|;
    assert s[..i] == a && s[i + |sep|..] == b;
  }

  /** `s.replace(p, r)`: every occurrence found scanning left to right, not
      overlapping an earlier one, is replaced; the replacement text is not
      scanned again. */
  function Replace(s: string, p: string, r: string): string
    requires |p| > 0
    decreases |s|
  {
    if |s| < |p| then s
    else if s[..|p|] == p then r + Replace(s[|p|..], p, r)
    else [s[0]] + Replace(s[1..], p, r)
  }

  /** A string without the pattern is left as it is. */
  lemma {:induction false} ReplaceAbsent(s: string, p: string, r: string)
    requires |p| > 0 && !Contains(s, p)
    ensures Replace(s, p, r) == s
    decreases |s|
  {
    if |s| >= |p| {
      assert !OccursAt(s, p, 0);
      if Contains(s[1..], p) {
        var j :| 0 <= j <= |s[1..]| && OccursAt(s[1..], p, j);
        OccursAtTail(s, p, j);
      }
      ReplaceAbsent(s[1..], p, r);
    }
  }

  /** Replacing a single character distributes over concatenation. */
  lemma {:induction false} ReplaceCharConcat(a: string, b: string, p: string, r: string)
    requires |p| == 1
    ensures Replace(a + b, p, r) == Replace(a, p, r) + Replace(b, p, r)
    decreases |a|
  {
    if a != [] {
      assert (a + b)[1..] == a[1..] + b;
      assert (a + b)[..1] == a[..1];
      ReplaceCharConcat(a[1..], b, p, r);
    } else {
      assert a + b == b;
    }
  }

  /** Replacing one character by another keeps the length and leaves no
      occurrence of the replaced character. */
  lemma {:induction false} ReplaceCharRemoves(s: string, c: char, d: char)
    requires c != d
    ensures |Replace(s, [c], [d])| == |s| && c !in Replace(s, [c], [d])
    decreases |s|
  {
    if s != [] {
      ReplaceCharRemoves(s[1..], c, d);
      if s[..1] == [c] {
        assert s[1..] == s[|[c]|..];
      }
    }
  }

  /** A borderless pattern that a non-empty `x` does not hold cannot start
      `x + p + y`. */
  lemma NotAtStart(x: string, p: string, y: string)
    requires |p| > 0 && Borderless(p) && !Contains(x, p) && x != []
    ensures (x + p + y)[..|p|] != p
  {
    var s := x + p + y;
    if |x| >= |p| {
      assert s[..|p|] == x[..|p|];
      assert !OccursAt(x, p, 0);
    } else {
      var k := |p| - |x|;
      assert s[..|p|][|x|..] == p[..k];
      assert p[..k] != p[|p| - k..];
    }
  }

  /** The first occurrence of a borderless pattern is replaced wherever it
      stands: the text before it is kept, and the scan resumes right after
      it. */
  lemma {:induction false} ReplaceDropsOccurrence(x: string, p: string, y: string, r: string)
    requires |p| > 0 && Borderless(p) && !Contains(x, p)
    ensures Replace(x + p + y, p, r) == x + r + Replace(y, p, r)
    decreases |x|
  {
    var s := x + p + y;
    if x == [] {
      assert s == p + y;
      assert s[..|p|] == p && s[|p|..] == y;
    } else {
      NotAtStart(x, p, y);
      assert Replace(s, p, r) == [s[0]] + Replace(s[1..], p, r);
      assert s[1..] == x[1..] + p + y;
      if Contains(x[1..], p) {
        var j :| 0 <= j <= |x[1..]| && OccursAt(x[1..], p, j);
        OccursAtTail(x, p, j);
      }
      ReplaceDropsOccurrence(x[1..], p, y, r);
      assert s[0] == x[0] && [x[0]] + x[1..] == x;
    }
  }

  /** Removing a borderless pattern from a string that ends in it, and holds
      it nowhere else, gives back the string before it. */
  lemma ReplaceDropsSuffix(x: string, p: string)
    requires |p| > 0 && Borderless(p) && !Contains(x, p)
    ensures Replace(x + p, p, "") == x
  {
    ReplaceDropsOccurrence(x, p, [], "");
    assert x + p + [] == x + p;
  }

  /** The characters Python's `str.isspace` accepts. */
  predicate IsSpace(c: char) {
    ('\t' <= c <= '\r') || ('\U{1C}' <= c <= '\U{1F}') || c == ' ' || c == '\U{85}'
    || c == '\U{A0}' || c == '\U{1680}' || ('\U{2000}' <= c <= '\U{200A}')
    || c == '\U{2028}' || c == '\U{2029}' || c == '\U{202F}' || c == '\U{205F}'
    || c == '\U{3000}'
  }

  /** `s.lstrip()`: drops the leading whitespace, and only that. */
  function StripLeft(s: string): (t: string)
    ensures |t| <= |s| && t == s[|s| - |t|..]
    ensures forall k :: 0 <= k < |s| - |t| ==> IsSpace(s[k])
    ensures t != [] ==> !IsSpace(t[0])
  {
    if s != [] && IsSpace(s[0]) then StripLeft(s[1..]) else s
  }

  /** `s.rstrip()`: drops the trailing whitespace, and only that. */
  function StripRight(s: string): (t: string)
    ensures |t| <= |s| && t == s[..|t|]
    ensures forall k :: |t| <= k < |s| ==> IsSpace(s[k])
    ensures t != [] ==> !IsSpace(t[|t| - 1])
  {
    if s != [] && IsSpace(s[|s| - 1]) then StripRight(s[..|s| - 1]) else s
  }

  /** `s.strip()`. */
  function Strip(s: string): string {
    StripRight(StripLeft(s))
  }

  /** Stripping twice strips nothing more. */
  lemma StripIdempotent(s: string)
    ensures Strip(Strip(s)) == Strip(s)
  {
    var t := Strip(s);
    if t != [] {
      assert !IsSpace(t[|t| - 1]);
      assert t[0] == StripLeft(s)[0];
    }
    assert StripLeft(t) == t;
    assert StripRight(t) == t;
  }

  /** The character of a decimal digit. */
  function DigitChar(d: nat): (c: char)
    requires d < 10
    ensures IsDigit(c) && c as int - '0' as int == d
  {
    (d + '0' as int) as char
  }

  predicate IsDigit(c: char) {
    '0' as int <= c as int <= '9' as int
  }

  /** `str(n)` (also `f"{n}"`) for a non-negative integer. */
  function NatToString(n: nat): (s: string)
    ensures |s| > 0 && forall k :: 0 <= k < |s| ==> IsDigit(s[k])
  {
    if n < 10 then [DigitChar(n)] else NatToString(n / 10) + [DigitChar(n % 10)]
  }

  /** The value of a string of decimal digits. */
  function DecimalValue(s: string): nat
    requires forall k :: 0 <= k < |s| ==> IsDigit(s[k])
  {
    if s == [] then 0
    else
      assert IsDigit(s[|s| - 1]);
      DecimalValue(s[..|s| - 1]) * 10 + ((s[|s| - 1] as int) - ('0' as int))
  }

  /** Reading back the decimal rendering gives the number. */
  lemma {:induction false} DecimalRoundTrip(n: nat)
    ensures DecimalValue(NatToString(n)) == n
    decreases n
  {
    var s := NatToString(n);
    if n < 10 {
      assert s[..0] == [];
    } else {
      assert s[..|s| - 1] == NatToString(n / 10);
      DecimalRoundTrip(n / 10);
    }
  }

  /** Distinct numbers render as distinct strings. */
  lemma NatToStringInjective(a: nat, b: nat)
    requires NatToString(a) == NatToString(b)
    ensures a == b
  {
    DecimalRoundTrip(a);
    DecimalRoundTrip(b);
  }

  /** Python's `a < b` on strings: code-point lexicographic order. */
  predicate Before(a: string, b: string) {
    if a == [] then b != []
    else if b == [] then false
    else if a[0] != b[0] then a[0] < b[0]
    else Before(a[1..], b[1..])
  }

  lemma {:induction false} BeforeIrreflexive(a: string)
    ensures !Before(a, a)
  {
    if a != [] { BeforeIrreflexive(a[1..]); }
  }

  lemma {:induction false} BeforeAsymmetric(a: string, b: string)
    ensures Before(a, b) ==> !Before(b, a)
  {
    if a != [] && b != [] && a[0] == b[0] { BeforeAsymmetric(a[1..], b[1..]); }
  }

  lemma {:induction false} BeforeTransitive(a: string, b: string, c: string)
    requires Before(a, b) && Before(b, c)
    ensures Before(a, c)
  {
    if a != [] && a[0] == b[0] && b[0] == c[0] { BeforeTransitive(a[1..], b[1..], c[1..]); }
  }

  lemma {:induction false} BeforeTotal(a: string, b: string)
    ensures a == b || Before(a, b) || Before(b, a)
  {
    if a != [] && b != [] && a[0] == b[0] {
      BeforeTotal(a[1..], b[1..]);
      if a[1..] == b[1..] {
        assert a == [a[0]] + a[1..] && b == [b[0]] + b[1..];
      }
    }
  }

  /** `sep.join(parts)` for a one-character separator. */
  function Join(parts: seq<string>, sep: char): string
    requires |parts| > 0
  {
    if |parts| == 1 then parts[0] else parts[0] + [sep] + Join(parts[1..], sep)
  }

  /** `s.split(sep)` for a one-character separator: always at least one
      part, and `""` splits into `[""]`. */
  function Split(s: string, sep: char): (parts: seq<string>)
    ensures |parts| > 0
    decreases |s|
  {
    if s == [] then [""]
    else if s[0] == sep then [""] + Split(s[1..], sep)
    else
      var rest := Split(s[1..], sep);
      [[s[0]] + rest[0]] + rest[1..]
  }

  lemma {:induction false} SplitAfterPart(a: string, sep: char, b: string)
    requires sep !in a
    ensures Split(a + [sep] + b, sep) == [a] + Split(b, sep)
    decreases |a|
  {
    if a != [] {
      assert (a + [sep] + b)[1..] == a[1..] + [sep] + b;
      SplitAfterPart(a[1..], sep, b);
      assert [a[0]] + a[1..] == a;
    } else {
      assert (a + [sep] + b)[1..] == b;
    }
  }

  lemma {:induction false} SplitWithout(a: string, sep: char)
    requires sep !in a
    ensures Split(a, sep) == [a]
    decreases |a|
  {
    if a != [] {
      SplitWithout(a[1..], sep);
      assert [a[0]] + a[1..] == a;
    }
  }

  /** Splitting what was joined, when no part holds the separator, gives the
      parts back. */
  lemma {:induction false} SplitJoin(parts: seq<string>, sep: char)
    requires |parts| > 0
    requires forall i :: 0 <= i < |parts| ==> sep !in parts[i]
    ensures Split(Join(parts, sep), sep) == parts
    decreases |parts|
  {
    if |parts| == 1 {
      SplitWithout(parts[0], sep);
    } else {
      SplitAfterPart(parts[0], sep, Join(parts[1..], sep));
      SplitJoin(parts[1..], sep);
    }
  }
}

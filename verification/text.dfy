/**
 * The few Python string operations the calorie engine relies on:
 * `str.lower()`, `str.strip()` and the substring test `a in b`.
 */
module Text {

  /** Python's `str.isspace()` for a single character. */
  predicate IsSpace(c: char) {
    || c == ' ' || c == '\t' || c == '\n' || c == '\r' || c == '\U{0B}' || c == '\U{0C}'
    || ('\U{1C}' <= c <= '\U{1F}')
    || c == '\U{85}' || c == '\U{A0}' || c == '\U{1680}'
    || ('\U{2000}' <= c <= '\U{200A}')
    || c == '\U{2028}' || c == '\U{2029}' || c == '\U{202F}' || c == '\U{205F}' || c == '\U{3000}'
  }

  predicate AllSpace(s: string) {
    forall k :: 0 <= k < |s| ==> IsSpace(s[k])
  }

  /** True when `s` neither starts nor ends with whitespace. */
  predicate Trimmed(s: string) {
    |s| == 0 || (!IsSpace(s[0]) && !IsSpace(s[|s| - 1]))
  }

  /** Lower-casing of one character; only ASCII letters are folded. */
  function LowerChar(c: char): char {
    if 'A' <= c <= 'Z' then (c as int + 32) as char else c
  }

  /** Python's `str.lower()`, restricted to ASCII letters. */
  function Lower(s: string): (r: string)
    ensures |r| == |s|
    ensures forall i :: 0 <= i < |s| ==> r[i] == LowerChar(s[i])
  {
    seq(|s|, i requires 0 <= i < |s| => LowerChar(s[i]))
  }

  /** Lower-casing twice is lower-casing once. */
  lemma LowerIdempotent(s: string)
    ensures Lower(Lower(s)) == Lower(s)
  {
  }

  /** Lower-casing never turns whitespace into non-whitespace or back. */
  lemma LowerKeepsSpace(c: char)
    ensures IsSpace(LowerChar(c)) <==> IsSpace(c)
  {
  }

  /** Number of whitespace characters at the start of `s`. */
  function LeadingSpace(s: string): (n: nat)
    ensures n <= |s|
    ensures AllSpace(s[..n])
    ensures n < |s| ==> !IsSpace(s[n])
  {
    if |s| == 0 || !IsSpace(s[0]) then 0
    else
      var r := LeadingSpace(s[1..]);
      assert s[..1 + r] == [s[0]] + s[1..][..r];
      1 + r
  }

  /** Number of whitespace characters at the end of `s`. */
  function TrailingSpace(s: string): (n: nat)
    ensures n <= |s|
    ensures AllSpace(s[|s| - n..])
    ensures n < |s| ==> !IsSpace(s[|s| - n - 1])
  {
    if |s| == 0 || !IsSpace(s[|s| - 1]) then 0
    else
      var t := s[..|s| - 1];
      var r := TrailingSpace(t);
      assert s[|s| - (1 + r)..] == t[|t| - r..] + [s[|s| - 1]];
      1 + r
  }

  /**
   * Python's `str.strip()` with no argument: `s` with its leading and
   * trailing whitespace removed.
   */
  function Strip(s: string): (r: string)
    ensures |r| == 0 <==> AllSpace(s)
    ensures |r| > 0 ==> !IsSpace(r[0]) && !IsSpace(r[|r| - 1])
    ensures LeadingSpace(s) + |r| <= |s|
    ensures r == s[LeadingSpace(s)..LeadingSpace(s) + |r|]
    ensures AllSpace(s[..LeadingSpace(s)]) && AllSpace(s[LeadingSpace(s) + |r|..])
  {
    var t := s[LeadingSpace(s)..];
    t[..|t| - TrailingSpace(t)]
  }

  /** `n` is the length of the whitespace run that starts `s`. */
  lemma {:induction false} LeadingSpaceIs(s: string, n: nat)
    requires n <= |s| && AllSpace(s[..n]) && (n < |s| ==> !IsSpace(s[n]))
    ensures LeadingSpace(s) == n
  {
    if n > 0 {
      assert IsSpace(s[..n][0]);
      assert s[1..][..n - 1] == s[..n][1..];
      LeadingSpaceIs(s[1..], n - 1);
    }
  }

  /** `n` is the length of the whitespace run that ends `s`. */
  lemma {:induction false} TrailingSpaceIs(s: string, n: nat)
    requires n <= |s| && AllSpace(s[|s| - n..]) && (n < |s| ==> !IsSpace(s[|s| - n - 1]))
    ensures TrailingSpace(s) == n
  {
    if n > 0 {
      assert IsSpace(s[|s| - n..][n - 1]);
      var t := s[..|s| - 1];
      var u := t[|t| - (n - 1)..];
      assert AllSpace(u) by {
        forall j | 0 <= j < n - 1 ensures IsSpace(u[j]) {
          assert u[j] == s[|s| - n..][j];
        }
      }
      TrailingSpaceIs(t, n - 1);
    }
  }

  /** Stripping removes exactly the whitespace padding around a trimmed core. */
  lemma StripPadded(p: string, x: string, q: string)
    requires AllSpace(p) && AllSpace(q) && Trimmed(x)
    ensures Strip(p + x + q) == x
  {
    var s := p + x + q;
    if |x| == 0 {
      assert forall k :: 0 <= k < |s| ==> s[k] == (if k < |p| then p[k] else q[k - |p|]);
    } else {
      assert s[..|p|] == p;
      assert s[|p|] == x[0];
      LeadingSpaceIs(s, |p|);
      var t := s[|p|..];
      assert t == x + q;
      assert t[|t| - |q|..] == q;
      assert t[|t| - |q| - 1] == x[|x| - 1];
      TrailingSpaceIs(t, |q|);
      assert t[..|t| - |q|] == x;
    }
  }

  /** `a` sits in `b` at position `i`. */
  predicate OccursAt(a: string, b: string, i: int) {
    0 <= i <= |b| - |a| && b[i..i + |a|] == a
  }

  /** Python's `a in b` on strings: `a` occurs contiguously in `b`. */
  predicate Occurs(a: string, b: string) {
    exists i | 0 <= i <= |b| - |a| :: OccursAt(a, b, i)
  }

  /** The empty string occurs in every string, and every string in itself. */
  lemma OccursTrivially(b: string)
    ensures Occurs("", b) && Occurs(b, b)
  {
    assert OccursAt("", b, 0);
    assert OccursAt(b, b, 0);
  }

  /** A string holding a character that `b` lacks does not occur in `b`. */
  lemma NotOccursByChar(a: string, b: string, k: int)
    requires 0 <= k < |a| && forall i :: 0 <= i < |b| ==> b[i] != a[k]
    ensures !Occurs(a, b)
  {
    forall i | 0 <= i <= |b| - |a| ensures !OccursAt(a, b, i) {
      assert b[i..i + |a|][k] == b[i + k];
    }
  }
}

/**
  Character classes and the Python string methods the extractors call:
  `str.strip()`, `str.lower()` and `str.replace(old, '')`, on ASCII text.
 */
module Text {

  /** The ASCII characters for which Python's `str.isspace()` holds; both
      `\s` in a text pattern and `str.strip()` use this test. */
  predicate IsSpace(c: char) {
    c == ' ' || (9 <= c as int <= 13) || (28 <= c as int <= 31)
  }

  /** `\d`, restricted to ASCII. */
  predicate IsDigit(c: char) {
    '0' <= c <= '9'
  }

  /** `[A-Za-z]`. */
  predicate IsLetter(c: char) {
    ('A' <= c <= 'Z') || ('a' <= c <= 'z')
  }

  predicate AllSpace(s: string) {
    forall k :: 0 <= k < |s| ==> IsSpace(s[k])
  }

  predicate AllDigits(s: string) {
    forall k :: 0 <= k < |s| ==> IsDigit(s[k])
  }

  /** `s` occurs in `t` starting at index `i`. */
  predicate StartsAt(t: string, i: nat, s: string) {
    i + |s| <= |t| && t[i..i + |s|] == s
  }

  /** Python's `s in t` for strings. */
  ghost predicate Occurs(t: string, s: string) {
    exists i: nat :: StartsAt(t, i, s)
  }

  /** No whitespace at either end: what `strip()` leaves. */
  predicate IsTrimmed(s: string) {
    s == [] || (!IsSpace(s[0]) && !IsSpace(s[|s| - 1]))
  }

  // ---------------------------------------------------------------- strip

  /** Number of leading whitespace characters. */
  function LeadingSpace(s: string): (a: nat)
    ensures a <= |s| && AllSpace(s[..a])
    ensures a == |s| || !IsSpace(s[a])
  {
    if s == [] || !IsSpace(s[0]) then 0
    else
      var a := 1 + LeadingSpace(s[1..]);
      assert s[1..][..a - 1] == s[1..a];
      a
  }

  /** Length of `s` without its trailing whitespace. */
  function TrailingStart(s: string): (b: nat)
    ensures b <= |s| && AllSpace(s[b..])
    ensures b == 0 || !IsSpace(s[b - 1])
  {
    if s == [] || !IsSpace(s[|s| - 1]) then |s|
    else
      var b := TrailingStart(s[..|s| - 1]);
      assert s[b..] == s[..|s| - 1][b..] + [s[|s| - 1]];
      b
  }

  /** Python's `s.strip()`: `s` without its leading and trailing
      whitespace. The result is the slice of `s` starting after the
      leading whitespace, and only whitespace follows it in `s`. */
  function Strip(s: string): (r: string)
    ensures IsTrimmed(r)
    ensures LeadingSpace(s) + |r| <= |s|
    ensures r == s[LeadingSpace(s)..LeadingSpace(s) + |r|]
    ensures AllSpace(s[..LeadingSpace(s)]) && AllSpace(s[LeadingSpace(s) + |r|..])
  {
    var a, b := LeadingSpace(s), TrailingStart(s);
    if a < b then s[a..b] else ""
  }

  /** The leading whitespace is the longest whitespace prefix. */
  lemma LeadingIs(s: string, a: nat)
    requires a <= |s| && AllSpace(s[..a]) && (a == |s| || !IsSpace(s[a]))
    ensures LeadingSpace(s) == a
  {
    var b := LeadingSpace(s);
    assert forall k :: 0 <= k < a ==> s[..a][k] == s[k];
    assert forall k :: 0 <= k < b ==> s[..b][k] == s[k];
  }

  /** The trailing whitespace is the longest whitespace suffix. */
  lemma TrailingIs(s: string, b: nat)
    requires b <= |s| && AllSpace(s[b..]) && (b == 0 || !IsSpace(s[b - 1]))
    ensures TrailingStart(s) == b
  {
    var e := TrailingStart(s);
    assert forall k :: b <= k < |s| ==> s[b..][k - b] == s[k];
    assert forall k :: e <= k < |s| ==> s[e..][k - e] == s[k];
  }

  /** `Strip` is the only way to write `s` as whitespace, a trimmed
      string, whitespace. */
  lemma StripUnique(p: string, r: string, q: string)
    requires AllSpace(p) && AllSpace(q) && IsTrimmed(r)
    ensures Strip(p + r + q) == r
  {
    var s := p + r + q;
    if r == [] {
      assert AllSpace(s) by {
        forall k | 0 <= k < |s| ensures IsSpace(s[k]) {
          if k < |p| { assert s[k] == p[k]; } else { assert s[k] == q[k - |p|]; }
        }
      }
      var a := LeadingSpace(s);
      assert a == |s|;
      assert |Strip(s)| == 0;
    } else {
      var e := |p| + |r|;
      assert s[..|p|] == p && s[|p|] == r[0];
      LeadingIs(s, |p|);
      assert s[e..] == q && s[e - 1] == r[|r| - 1];
      TrailingIs(s, e);
      assert s[|p|..e] == r;
    }
  }

  /** A string that is already trimmed is left alone. */
  lemma StripTrimmed(r: string)
    requires IsTrimmed(r)
    ensures Strip(r) == r
  {
    StripUnique([], r, []);
    assert [] + r + [] == r;
  }

  /** An occurrence inside a slice is an occurrence in the whole text. */
  lemma SliceStartsAt(t: string, lo: nat, hi: nat, j: nat, p: string)
    requires lo <= hi <= |t|
    requires StartsAt(t[lo..hi], j, p)
    ensures StartsAt(t, lo + j, p)
  {
    assert forall k :: 0 <= k < |p| ==> t[lo + j + k] == t[lo..hi][j + k] == p[k];
  }

  /** What occurs in `Strip(s)` occurs in `s`, behind the leading
      whitespace. */
  lemma StripStartsAt(s: string, j: nat, p: string)
    requires StartsAt(Strip(s), j, p)
    ensures StartsAt(s, LeadingSpace(s) + j, p)
  {
    SliceStartsAt(s, LeadingSpace(s), LeadingSpace(s) + |Strip(s)|, j, p);
  }

  /** A character at index `i` is a one-character string starting there. */
  lemma CharStartsAt(t: string, i: nat, c: char)
    requires i < |t| && t[i] == c
    ensures StartsAt(t, i, [c])
  {
    assert t[i..i + 1] == [t[i]];
  }

  /** Where `s` starts at index `i`, its characters are those of `t` from `i` on. */
  lemma StartsAtChars(t: string, i: nat, s: string)
    requires StartsAt(t, i, s)
    ensures forall k :: 0 <= k < |s| ==> t[i + k] == s[k]
  {
    forall k | 0 <= k < |s| ensures t[i + k] == s[k] {
      assert t[i..i + |s|][k] == t[i + k];
    }
  }

  /** A character occurs exactly when it occurs as a one-character string. */
  lemma CharOccurs(s: string, c: char)
    ensures c in s <==> Occurs(s, [c])
  {
    if c in s {
      var i :| 0 <= i < |s| && s[i] == c;
      assert StartsAt(s, i, [c]);
    }
    if Occurs(s, [c]) {
      var i: nat :| StartsAt(s, i, [c]);
      assert s[i..i + 1][0] == s[i];
    }
  }

  // ---------------------------------------------------------------- lower

  /** Python's `str.lower()` on one character, ASCII letters only. */
  function LowerChar(c: char): char {
    if 'A' <= c <= 'Z' then (c as int + 32) as char else c
  }

  /** Python's `s.lower()`: each capital moves to its small letter, every
      other character stays, and no capital is left. */
  function Lower(s: string): (r: string)
    ensures |r| == |s|
    ensures forall k :: 0 <= k < |s| && 'A' <= s[k] <= 'Z' ==> r[k] as int == s[k] as int + 32
    ensures forall k :: 0 <= k < |s| && !('A' <= s[k] <= 'Z') ==> r[k] == s[k]
    ensures forall k :: 0 <= k < |r| ==> !('A' <= r[k] <= 'Z')
  {
    seq(|s|, k requires 0 <= k < |s| => LowerChar(s[k]))
  }

  /** Lower-casing twice is lower-casing once. */
  lemma LowerIdempotent(s: string)
    ensures Lower(Lower(s)) == Lower(s)
  {
    var r := Lower(s);
    assert forall k :: 0 <= k < |r| ==> Lower(r)[k] == r[k];
  }

  // -------------------------------------------------------------- replace

  /** Python's `s.replace(p, '')`: scanning from the left, every
      occurrence of `p` that does not overlap an earlier removed one is
      deleted; the text is not scanned again after a deletion. */
  function Remove(s: string, p: string): (r: string)
    requires |p| > 0
    ensures |r| <= |s|
    decreases |s|
  {
    if s == [] then []
    else if StartsAt(s, 0, p) then Remove(s[|p|..], p)
    else [s[0]] + Remove(s[1..], p)
  }

  /** Removing a pattern whose first character does not occur in `a`
      leaves the prefix `a` as it is. */
  lemma {:induction false} RemoveSkips(a: string, b: string, p: string)
    requires |p| > 0
    requires forall k :: 0 <= k < |a| ==> a[k] != p[0]
    ensures Remove(a + b, p) == a + Remove(b, p)
  {
    if a != [] {
      var s := a + b;
      assert s[0] == a[0];
      assert !StartsAt(s, 0, p) by { assert |p| > |s| || s[..|p|][0] != p[0]; }
      assert s[1..] == a[1..] + b;
      RemoveSkips(a[1..], b, p);
      calc {
        Remove(s, p);
        [s[0]] + Remove(s[1..], p);
        [a[0]] + (a[1..] + Remove(b, p));
        { assert a == [a[0]] + a[1..]; }
        a + Remove(b, p);
      }
    } else {
      assert a + b == b;
    }
  }

  /** A string without the pattern's first character has nothing removed. */
  lemma RemoveNothing(a: string, p: string)
    requires |p| > 0
    requires forall k :: 0 <= k < |a| ==> a[k] != p[0]
    ensures Remove(a, p) == a
  {
    RemoveSkips(a, [], p);
    assert a + [] == a;
  }

  /** Removing one character distributes over concatenation. */
  lemma {:induction false} RemoveCharAppend(a: string, b: string, c: char)
    ensures Remove(a + b, [c]) == Remove(a, [c]) + Remove(b, [c])
  {
    if a != [] {
      var s := a + b;
      assert s[1..] == a[1..] + b;
      assert s[0] == a[0];
      RemoveCharAppend(a[1..], b, c);
      if a[0] == c {
        assert StartsAt(s, 0, [c]) && StartsAt(a, 0, [c]);
      } else {
        assert !StartsAt(s, 0, [c]) && !StartsAt(a, 0, [c]);
      }
    } else {
      assert a + b == b;
    }
  }

  /** After removing a single character, it no longer occurs. */
  lemma {:induction false} RemoveCharGone(s: string, c: char)
    ensures c !in Remove(s, [c])
  {
    if s != [] {
      RemoveCharGone(s[1..], c);
    }
  }

  /** Removing a character keeps every other character as often as it
      occurred. */
  lemma {:induction false} RemoveCharKeeps(s: string, c: char, d: char)
    requires d != c
    ensures multiset(Remove(s, [c]))[d] == multiset(s)[d]
  {
    if s != [] {
      RemoveCharKeeps(s[1..], c, d);
      assert s == [s[0]] + s[1..];
    }
  }

  /** Removing `c` from a string made of digits and `c` leaves digits. */
  lemma {:induction false} RemoveCharLeavesDigits(s: string, c: char)
    requires forall k :: 0 <= k < |s| ==> IsDigit(s[k]) || s[k] == c
    ensures AllDigits(Remove(s, [c]))
  {
    if s != [] {
      RemoveCharLeavesDigits(s[1..], c);
    }
  }
}

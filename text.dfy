/**
 * The three string operations the search controller relies on:
 * `toLowerCase` (restricted to ASCII letters), `includes` (substring test)
 * and `trim` (removal of leading and trailing white space).
 */
module Text {

  // ---------------------------------------------------------------------------
  // Lower case
  // ---------------------------------------------------------------------------

  /** ASCII lower-casing of one character; every other character is kept. */
  function LowerChar(c: char): (r: char)
    ensures !IsUpper(r)
    ensures IsUpper(c) ==> r as int - 'a' as int == c as int - 'A' as int
    ensures !IsUpper(c) ==> r == c
  {
    if 'A' <= c <= 'Z' then (c as int + 32) as char else c
  }

  predicate IsUpper(c: char) {
    'A' <= c <= 'Z'
  }

  /** `s.toLowerCase()`, character by character. */
  function Lower(s: string): (r: string)
    ensures |r| == |s|
    ensures forall i :: 0 <= i < |s| ==> r[i] == LowerChar(s[i])
    ensures forall i :: 0 <= i < |s| ==> !IsUpper(r[i])
    ensures forall i :: 0 <= i < |s| && !IsUpper(s[i]) ==> r[i] == s[i]
  {
    seq(|s|, i requires 0 <= i < |s| => LowerChar(s[i]))
  }

  /** Lower-casing twice is lower-casing once. */
  lemma LowerIdempotent(s: string)
    ensures Lower(Lower(s)) == Lower(s)
  {
  }

  // ---------------------------------------------------------------------------
  // Substring test
  // ---------------------------------------------------------------------------

  /** `sub` occurs in `s` starting at position `k`. */
  predicate OccursAt(s: string, sub: string, k: int) {
    0 <= k && k + |sub| <= |s| && s[k..k + |sub|] == sub
  }

  /** `s.includes(sub)`: a left-to-right scan for an occurrence of `sub`. */
  function Includes(s: string, sub: string): (b: bool)
    ensures b <==> exists k :: OccursAt(s, sub, k)
    decreases |s|
  {
    if |sub| > |s| then
      false
    else if s[..|sub|] == sub then
      assert OccursAt(s, sub, 0);
      true
    else
      var rest := Includes(s[1..], sub);
      assert rest ==> exists k :: OccursAt(s, sub, k) by {
        if rest {
          var k :| OccursAt(s[1..], sub, k);
          assert s[k + 1..k + 1 + |sub|] == s[1..][k..k + |sub|];
          assert OccursAt(s, sub, k + 1);
        }
      }
      assert (exists k :: OccursAt(s, sub, k)) ==> rest by {
        if exists k :: OccursAt(s, sub, k) {
          var k :| OccursAt(s, sub, k);
          assert k != 0;
          assert s[1..][k - 1..k - 1 + |sub|] == s[k..k + |sub|];
          assert OccursAt(s[1..], sub, k - 1);
        }
      }
      rest
  }

  /** A string that lacks the first character of `sub` cannot include `sub`. */
  lemma MissingFirstCharExcludes(s: string, sub: string)
    requires sub != []
    requires forall i :: 0 <= i < |s| ==> s[i] != sub[0]
    ensures !Includes(s, sub)
  {
    forall k | 0 <= k && k + |sub| <= |s| ensures !OccursAt(s, sub, k) {
      assert s[k..k + |sub|][0] == s[k];
    }
  }

  // ---------------------------------------------------------------------------
  // Trimming
  // ---------------------------------------------------------------------------

  /**
   * The characters `String.prototype.trim` removes: the ECMAScript WhiteSpace
   * set (tab, vertical tab, form feed, space, no-break space, byte-order mark
   * and the Unicode space separators) and the LineTerminator set.
   */
  predicate IsSpace(c: char) {
    || c == '\t' || c == '\U{000B}' || c == '\U{000C}' || c == ' '
    || c == '\U{00A0}' || c == '\U{FEFF}'
    || c == '\n' || c == '\r' || c == '\U{2028}' || c == '\U{2029}'
    || c == '\U{1680}' || ('\U{2000}' <= c <= '\U{200A}')
    || c == '\U{202F}' || c == '\U{205F}' || c == '\U{3000}'
  }

  /**
   * The space, tab and line breaks are white space; no printable ASCII
   * character other than the space is, nor any control character from
   * DEL up to the no-break space.
   */
  lemma SpaceClasses(c: char)
    ensures c == ' ' || c == '\t' || c == '\n' || c == '\r' ==> IsSpace(c)
    ensures ' ' < c < '\U{00A0}' ==> !IsSpace(c)
  {
  }

  /** Every character of `s` at a position in `[lo, hi)` is white space. */
  predicate SpaceBetween(s: string, lo: int, hi: int) {
    forall k :: lo <= k < hi && 0 <= k < |s| ==> IsSpace(s[k])
  }

  predicate AllSpace(s: string) {
    SpaceBetween(s, 0, |s|)
  }

  /** The string begins and ends with a non-space character, or is empty. */
  predicate Trimmed(s: string) {
    s == [] || (!IsSpace(s[0]) && !IsSpace(s[|s| - 1]))
  }

  /** `r` is a slice of `s` with nothing but white space before and after it. */
  predicate IsCoreOf(r: string, s: string) {
    exists i :: 0 <= i <= i + |r| <= |s| && s[i..i + |r|] == r
                && SpaceBetween(s, 0, i) && SpaceBetween(s, i + |r|, |s|)
  }

  /** Drops leading white space: the result is the longest suffix that does not start with a space. */
  function TrimStart(s: string): (r: string)
    ensures |r| <= |s| && r == s[|s| - |r|..]
    ensures SpaceBetween(s, 0, |s| - |r|)
    ensures r == [] || !IsSpace(r[0])
  {
    if s != [] && IsSpace(s[0]) then TrimStart(s[1..]) else s
  }

  /** Drops trailing white space: the result is the longest prefix that does not end with a space. */
  function TrimEnd(s: string): (r: string)
    ensures |r| <= |s| && r == s[..|r|]
    ensures SpaceBetween(s, |r|, |s|)
    ensures r == [] || !IsSpace(r[|r| - 1])
  {
    if s != [] && IsSpace(s[|s| - 1]) then TrimEnd(s[..|s| - 1]) else s
  }

  /** `s.trim()`: leading white space dropped, then trailing white space. */
  function Trim(s: string): (r: string)
    ensures |r| <= |s|
    ensures r == [] || (!IsSpace(r[0]) && !IsSpace(r[|r| - 1]))
  {
    TrimEnd(TrimStart(s))
  }

  /**
   * What `trim` yields: a slice of `s` with only white space before and
   * after it, which itself neither starts nor ends with white space.
   */
  lemma TrimIsCore(s: string)
    ensures Trimmed(Trim(s)) && IsCoreOf(Trim(s), s)
  {
    var t := TrimStart(s);
    CoreOfSuffixPrefix(s, |s| - |t|, t, TrimEnd(t));
  }

  /** A prefix `r` of the suffix `t` of `s` that starts at `i`, with white space around it in `s`, is a core of `s`. */
  lemma CoreOfSuffixPrefix(s: string, i: int, t: string, r: string)
    requires 0 <= i <= |s| && t == s[i..] && |r| <= |t| && r == t[..|r|]
    requires SpaceBetween(s, 0, i) && SpaceBetween(t, |r|, |t|)
    ensures IsCoreOf(r, s)
  {
    assert s[i..i + |r|] == r;
    assert SpaceBetween(s, i + |r|, |s|) by {
      forall k | i + |r| <= k < |s| ensures IsSpace(s[k]) { assert s[k] == t[k - i]; }
    }
  }

  /**
   * Trim is determined by its cut points: whatever slice `s[i..j]` is
   * surrounded by white space only and is itself trimmed is `Trim(s)`.
   */
  lemma TrimUnique(s: string, i: int, j: int)
    requires 0 <= i <= j <= |s|
    requires SpaceBetween(s, 0, i) && SpaceBetween(s, j, |s|)
    requires Trimmed(s[i..j])
    ensures Trim(s) == s[i..j]
  {
    var t := TrimStart(s);
    var p := |s| - |t|;
    var u := TrimEnd(t);
    var q := |u|;
    if i == j {
      assert t == [];
    } else {
      // The first cut point is i ...
      assert s[i] == s[i..j][0];
      assert p <= i;
      assert t[0] == s[p];
      assert p == i;
      // ... and the second is j.
      assert t[j - i - 1] == s[i..j][j - i - 1];
      assert q >= j - i;
      assert u[q - 1] == s[i + q - 1];
      assert q == j - i;
    }
  }

  /** Leading white space is dropped by TrimStart whatever follows it. */
  lemma {:induction false} TrimStartSkipsSpace(a: string, y: string)
    requires AllSpace(a)
    ensures TrimStart(a + y) == TrimStart(y)
  {
    if a != [] {
      assert (a + y)[1..] == a[1..] + y;
      assert (a + y)[0] == a[0];
      assert forall k :: 0 <= k < |a| - 1 ==> a[1..][k] == a[k + 1];
      TrimStartSkipsSpace(a[1..], y);
    } else {
      assert a + y == y;
    }
  }

  /** Trailing white space is dropped by TrimEnd whatever precedes it. */
  lemma {:induction false} TrimEndSkipsSpace(y: string, b: string)
    requires AllSpace(b)
    ensures TrimEnd(y + b) == TrimEnd(y)
  {
    if b != [] {
      var b' := b[..|b| - 1];
      assert (y + b)[..|y + b| - 1] == y + b';
      assert (y + b)[|y + b| - 1] == b[|b| - 1];
      assert forall k :: 0 <= k < |b'| ==> b'[k] == b[k];
      TrimEndSkipsSpace(y, b');
    } else {
      assert y + b == y;
    }
  }

  /** A string that starts with white space is all white space exactly when its tail is. */
  lemma AllSpaceTail(s: string)
    requires s != [] && IsSpace(s[0])
    ensures AllSpace(s) <==> AllSpace(s[1..])
  {
    if AllSpace(s[1..]) {
      forall k | 0 < k < |s| ensures IsSpace(s[k]) { assert s[k] == s[1..][k - 1]; }
    }
  }

  /** TrimStart only looks at the front: once a non-space is reached, the rest is kept whole. */
  lemma {:induction false} TrimStartAppend(s: string, b: string)
    ensures TrimStart(s + b) == if AllSpace(s) then TrimStart(b) else TrimStart(s) + b
  {
    if s == [] {
      assert s + b == b;
    } else if IsSpace(s[0]) {
      assert (s + b)[0] == s[0];
      assert (s + b)[1..] == s[1..] + b;
      AllSpaceTail(s);
      TrimStartAppend(s[1..], b);
    } else {
      assert (s + b)[0] == s[0];
      assert !AllSpace(s);
    }
  }

  /** A string of white space only trims to nothing from the front. */
  lemma TrimStartOfSpace(s: string)
    requires AllSpace(s)
    ensures TrimStart(s) == []
  {
    TrimStartSkipsSpace(s, []);
    assert s + [] == s;
  }

  /** Leading white space does not change the trimmed string. */
  lemma TrimIgnoresLeading(a: string, y: string)
    requires AllSpace(a)
    ensures Trim(a + y) == Trim(y)
  {
    TrimStartSkipsSpace(a, y);
  }

  /** Trailing white space does not change the trimmed string. */
  lemma TrimIgnoresTrailing(s: string, b: string)
    requires AllSpace(b)
    ensures Trim(s + b) == Trim(s)
  {
    TrimStartAppend(s, b);
    if AllSpace(s) {
      TrimStartOfSpace(b);
      TrimStartOfSpace(s);
    } else {
      TrimEndSkipsSpace(TrimStart(s), b);
    }
  }

  /** Surrounding white space does not change the trimmed string. */
  lemma TrimIgnoresPadding(a: string, s: string, b: string)
    requires AllSpace(a) && AllSpace(b)
    ensures Trim(a + s + b) == Trim(s)
  {
    assert a + s + b == a + (s + b);
    TrimIgnoresLeading(a, s + b);
    TrimIgnoresTrailing(s, b);
  }

  /** Trimming twice is trimming once. */
  lemma TrimIdempotent(s: string)
    ensures Trim(Trim(s)) == Trim(s)
  {
    var r := Trim(s);
    assert r[0..|r|] == r;
    TrimUnique(r, 0, |r|);
  }

  /** The trimmed string is empty exactly when the whole string is white space. */
  lemma TrimEmptyIff(s: string)
    ensures Trim(s) == [] <==> AllSpace(s)
  {
    if AllSpace(s) {
      TrimUnique(s, 0, 0);
    }
  }
}

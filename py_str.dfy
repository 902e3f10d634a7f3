/**
 * The handful of Python string built-ins the script relies on, as functions on
 * `seq<char>`: the substring test `t in s`, `s.replace(p, "")`, `s.strip()` and
 * `sep.join(parts)`.
 */
module PyStr {

  /** `t` is a prefix of `s` (Python's `s.startswith(t)`). */
  predicate IsPrefix(t: string, s: string) {
    |t| <= |s| && s[..|t|] == t
  }

  /** `t` occurs in `s` starting at index `k`. */
  ghost predicate OccursAt(s: string, t: string, k: int) {
    0 <= k && k + |t| <= |s| && s[k..k + |t|] == t
  }

  /** Python's `t in s` for two strings. */
  function Contains(s: string, t: string): (found: bool)
    decreases |s|
  {
    IsPrefix(t, s) || (|s| > 0 && Contains(s[1..], t))
  }

  /** `t in s` holds exactly when `t` occurs at some index of `s`. */
  lemma {:induction false} ContainsIff(s: string, t: string)
    ensures Contains(s, t) <==> exists k :: OccursAt(s, t, k)
    decreases |s|
  {
    if IsPrefix(t, s) {
      assert OccursAt(s, t, 0);
    } else if |s| == 0 {
    } else {
      ContainsIff(s[1..], t);
      if Contains(s[1..], t) {
        var k :| OccursAt(s[1..], t, k);
        assert s[1..][k..k + |t|] == s[k + 1..k + 1 + |t|];
        assert OccursAt(s, t, k + 1);
      }
      forall k | OccursAt(s, t, k) ensures Contains(s[1..], t) {
        if k != 0 {
          assert s[1..][k - 1..k - 1 + |t|] == s[k..k + |t|];
          assert OccursAt(s[1..], t, k - 1);
        }
      }
    }
  }

  /** A string never contains a longer one. */
  lemma ContainsNoLonger(s: string, t: string)
    requires |s| < |t|
    ensures !Contains(s, t)
  {
    ContainsIff(s, t);
  }

  /** Whatever occurs in a slice of `s` occurs in `s`. */
  lemma ContainsInSlice(s: string, i: nat, j: nat, t: string)
    requires i <= j <= |s|
    ensures Contains(s[i..j], t) ==> Contains(s, t)
  {
    ContainsIff(s[i..j], t);
    ContainsIff(s, t);
    if Contains(s[i..j], t) {
      var k :| OccursAt(s[i..j], t, k);
      forall m | 0 <= m < |t| ensures s[i + k..i + k + |t|][m] == t[m] {
        assert t[m] == s[i..j][k..k + |t|][m] == s[i..j][k + m];
      }
      assert s[i + k..i + k + |t|] == t;
      assert OccursAt(s, t, i + k);
    }
  }

  /** A string that contains `t` contains every prefix of `t`. */
  lemma ContainsPrefixOf(s: string, t: string, u: string)
    requires IsPrefix(u, t)
    ensures Contains(s, t) ==> Contains(s, u)
  {
    ContainsIff(s, t);
    ContainsIff(s, u);
    if Contains(s, t) {
      var k :| OccursAt(s, t, k);
      assert s[k..k + |u|] == s[k..k + |t|][..|u|];
      assert OccursAt(s, u, k);
    }
  }

  /**
   * Python's `s.replace(p, "")`: scanning left to right, every occurrence of `p`
   * that does not overlap an earlier removed one is dropped.
   */
  function RemoveAll(s: string, p: string): (r: string)
    requires p != []
    ensures |r| <= |s|
    ensures !Contains(s, p) ==> r == s
    decreases |s|
  {
    if s == [] then []
    else if IsPrefix(p, s) then RemoveAll(s[|p|..], p)
    else [s[0]] + RemoveAll(s[1..], p)
  }

  /**
   * A prefix `a` that does not even hold the first character of `p` passes
   * through the removal untouched.
   */
  lemma {:induction false} RemoveAllKeepsPrefix(a: string, b: string, p: string)
    requires p != [] && p[0] !in a
    ensures RemoveAll(a + b, p) == a + RemoveAll(b, p)
    decreases |a|
  {
    if a != [] {
      assert !IsPrefix(p, a + b) by { assert (a + b)[0] == a[0]; }
      assert (a + b)[1..] == a[1..] + b;
      RemoveAllKeepsPrefix(a[1..], b, p);
      assert a == [a[0]] + a[1..];
    } else {
      assert a + b == b;
    }
  }

  /**
   * The characters Python's `str.isspace()` accepts, which `str.strip()` with no
   * argument removes.
   */
  predicate IsSpace(c: char) {
    || ('\t' <= c <= '\r')
    || ('\U{1C}' <= c <= ' ')
    || c == '\U{85}' || c == '\U{A0}' || c == '\U{1680}'
    || ('\U{2000}' <= c <= '\U{200A}')
    || c == '\U{2028}' || c == '\U{2029}' || c == '\U{202F}' || c == '\U{205F}'
    || c == '\U{3000}'
  }

  /** The number of whitespace characters `s` starts with. */
  function LeadingSpaces(s: string): (n: nat)
    ensures n <= |s|
    ensures forall k :: 0 <= k < n ==> IsSpace(s[k])
    ensures n < |s| ==> !IsSpace(s[n])
    decreases |s|
  {
    if s == [] || !IsSpace(s[0]) then 0 else 1 + LeadingSpaces(s[1..])
  }

  /** The number of whitespace characters `s` ends with. */
  function TrailingSpaces(s: string): (n: nat)
    ensures n <= |s|
    ensures forall k :: |s| - n <= k < |s| ==> IsSpace(s[k])
    ensures n < |s| ==> !IsSpace(s[|s| - 1 - n])
    decreases |s|
  {
    if s == [] || !IsSpace(s[|s| - 1]) then 0 else 1 + TrailingSpaces(s[..|s| - 1])
  }

  /**
   * The slice `[lo, hi)` that `s.strip()` keeps: everything outside it is
   * whitespace, and it is empty or starts and ends with a non-whitespace character.
   */
  function StripBounds(s: string): (b: (nat, nat))
    ensures b.0 <= b.1 <= |s|
    ensures forall k :: 0 <= k < b.0 ==> IsSpace(s[k])
    ensures forall k :: b.1 <= k < |s| ==> IsSpace(s[k])
    ensures b.0 < b.1 ==> !IsSpace(s[b.0]) && !IsSpace(s[b.1 - 1])
  {
    var lo := LeadingSpaces(s);
    var rest := s[lo..];
    var n := TrailingSpaces(rest);
    assert forall k :: lo + |rest| - n <= k < |s| ==> s[k] == rest[k - lo];
    (lo, lo + |rest| - n)
  }

  /** Python's `s.strip()`. */
  function Strip(s: string): (r: string)
    ensures |r| <= |s|
    ensures r == [] || (!IsSpace(r[0]) && !IsSpace(r[|r| - 1]))
    ensures r == [] <==> forall k :: 0 <= k < |s| ==> IsSpace(s[k])
  {
    var b := StripBounds(s);
    assert b.0 == b.1 ==> forall k :: 0 <= k < |s| ==> IsSpace(s[k]) by {
      if b.0 == b.1 {
        forall k | 0 <= k < |s| ensures IsSpace(s[k]) {
          if k < b.0 {
          } else {
          }
        }
      }
    }
    s[b.0..b.1]
  }

  /** Stripping a string that neither starts nor ends with whitespace changes nothing. */
  lemma StripTrimmed(s: string)
    requires s == [] || (!IsSpace(s[0]) && !IsSpace(s[|s| - 1]))
    ensures Strip(s) == s
  {
    var b := StripBounds(s);
    if s != [] {
      assert b.0 == 0;
      assert b.1 == |s|;
    }
  }

  /** `s.strip().strip() == s.strip()`. */
  lemma StripIdempotent(s: string)
    ensures Strip(Strip(s)) == Strip(s)
  {
    StripTrimmed(Strip(s));
  }

  /** Python's `sep.join(parts)`. */
  function Join(sep: string, parts: seq<string>): (joined: string)
    decreases |parts|
  {
    if |parts| == 0 then ""
    else if |parts| == 1 then parts[0]
    else parts[0] + sep + Join(sep, parts[1..])
  }

  /** The number of times `c` occurs in `s`. */
  function CountChar(s: string, c: char): (count: nat)
    decreases |s|
  {
    if s == [] then 0 else (if s[0] == c then 1 else 0) + CountChar(s[1..], c)
  }

  lemma {:induction false} CountCharAppend(a: string, b: string, c: char)
    ensures CountChar(a + b, c) == CountChar(a, c) + CountChar(b, c)
    decreases |a|
  {
    if a == [] {
      assert a + b == b;
    } else {
      assert (a + b)[1..] == a[1..] + b;
      CountCharAppend(a[1..], b, c);
    }
  }

  lemma {:induction false} CountCharAbsent(s: string, c: char)
    requires c !in s
    ensures CountChar(s, c) == 0
    decreases |s|
  {
    if s != [] {
      assert s[0] != c;
      CountCharAbsent(s[1..], c);
    }
  }

  /**
   * Joining parts that hold no separator character with a one-character
   * separator puts exactly one separator between neighbours.
   */
  lemma {:induction false} JoinCountsSeparators(c: char, parts: seq<string>)
    requires |parts| > 0
    requires forall i :: 0 <= i < |parts| ==> c !in parts[i]
    ensures CountChar(Join([c], parts), c) == |parts| - 1
    decreases |parts|
  {
    CountCharAbsent(parts[0], c);
    if |parts| > 1 {
      JoinCountsSeparators(c, parts[1..]);
      CountCharAppend(parts[0] + [c], Join([c], parts[1..]), c);
      CountCharAppend(parts[0], [c], c);
      assert CountChar([c], c) == 1 by { assert [c][1..] == []; }
    }
  }
}

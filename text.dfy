/**
 * String primitives shared by the renderer and the chat components: the
 * ECMAScript notions of line terminator and white space, case-insensitive
 * literal matching as a `/…/i` regular expression performs it, and searches
 * for the first and the last occurrence of a literal.
 */
module Text {
  import opened Wrappers

  /** The characters ECMAScript treats as line terminators: `.` never matches
      them and, under the `m` flag, `^` and `$` match next to them. */
  predicate IsLineTerminator(c: char) {
    c == '\n' || c == '\r' || c == '\U{2028}' || c == '\U{2029}'
  }

  predicate NoTerminator(s: string) {
    forall i | 0 <= i < |s| :: !IsLineTerminator(s[i])
  }

  /** Index of the first line terminator of `s`, or `|s|` if it has none. */
  function LineEnd(s: string): (k: nat)
    ensures k <= |s|
    ensures k < |s| ==> IsLineTerminator(s[k])
    ensures NoTerminator(s[..k])
  {
    if s == [] || IsLineTerminator(s[0]) then 0
    else
      var k' := LineEnd(s[1..]);
      assert s[..k' + 1] == [s[0]] + s[1..][..k'];
      k' + 1
  }

  /** ASCII upper-casing, the only case folding that can make an input
      character equal to an ASCII pattern character under the `i` flag
      (section 22.2.2.7.3, Canonicalize, of ECMA-262: a character at or above
      U+0080 never folds onto an ASCII one). */
  function Upper(c: char): char {
    if 'a' <= c <= 'z' then (c as int - 32) as char else c
  }

  /** Input character `c` matches the pattern character `p` case-insensitively. */
  predicate CharMatches(c: char, p: char) {
    Upper(c) == Upper(p)
  }

  /** The literal `pat` occurs (case-insensitively) in `s` at index `i`. */
  predicate MatchAt(s: string, i: nat, pat: string) {
    i + |pat| <= |s| && forall k | i <= k < i + |pat| :: CharMatches(s[k], pat[k - i])
  }

  /** For a pattern without ASCII letters, case-insensitive matching is
      plain equality of the slice. */
  lemma MatchAtExact(s: string, i: nat, pat: string)
    requires forall j | 0 <= j < |pat| :: !('a' <= pat[j] <= 'z') && !('A' <= pat[j] <= 'Z')
    ensures MatchAt(s, i, pat) <==> i + |pat| <= |s| && s[i..i + |pat|] == pat
  {
    if i + |pat| <= |s| {
      if MatchAt(s, i, pat) {
        forall j | 0 <= j < |pat| ensures s[i + j] == pat[j] {
          assert CharMatches(s[i + j], pat[j]);
        }
      }
    }
  }

  /** A pattern whose first character (not a letter) does not occur in `s`
      occurs nowhere in `s`. */
  lemma NoMatchWithoutHead(s: string, pat: string)
    requires pat != [] && !('a' <= pat[0] <= 'z') && !('A' <= pat[0] <= 'Z') && pat[0] !in s
    ensures forall i: nat :: !MatchAt(s, i, pat)
  {
    forall i: nat | i < |s| ensures !MatchAt(s, i, pat) {
      assert s[i] in s;
      assert !CharMatches(s[i], pat[0]);
    }
  }

  /** Leftmost occurrence of `pat` in `s` at or after `from`. */
  function FirstMatch(s: string, pat: string, from: nat): (r: Option<nat>)
    decreases |s| - from
    ensures r.Some? ==> from <= r.value && MatchAt(s, r.value, pat)
    ensures r.Some? ==> forall j: nat | from <= j < r.value :: !MatchAt(s, j, pat)
    ensures r.None? ==> forall j: nat | from <= j :: !MatchAt(s, j, pat)
  {
    if from + |pat| > |s| then None
    else if MatchAt(s, from, pat) then Some(from)
    else FirstMatch(s, pat, from + 1)
  }

  lemma FirstMatchIs(s: string, pat: string, from: nat, p: nat)
    requires from <= p && MatchAt(s, p, pat)
    requires forall j: nat | from <= j < p :: !MatchAt(s, j, pat)
    ensures FirstMatch(s, pat, from) == Some(p)
  {
  }

  lemma FirstMatchNone(s: string, pat: string, from: nat)
    requires forall j: nat | from <= j :: !MatchAt(s, j, pat)
    ensures FirstMatch(s, pat, from) == None
  {
  }

  /** Rightmost occurrence of `pat` in `s` starting strictly below `bound`. */
  function LastMatchBelow(s: string, pat: string, bound: nat): (r: Option<nat>)
    ensures r.Some? ==> r.value < bound && MatchAt(s, r.value, pat)
    ensures r.Some? ==> forall j: nat | r.value < j < bound :: !MatchAt(s, j, pat)
    ensures r.None? ==> forall j: nat | j < bound :: !MatchAt(s, j, pat)
  {
    if bound == 0 then None
    else if MatchAt(s, bound - 1, pat) then Some(bound - 1)
    else LastMatchBelow(s, pat, bound - 1)
  }

  /** Rightmost occurrence of `pat` in `s`. */
  function LastMatch(s: string, pat: string): (r: Option<nat>)
    ensures r.Some? ==> MatchAt(s, r.value, pat)
    ensures r.Some? ==> forall j: nat | r.value < j :: !MatchAt(s, j, pat)
    ensures r.None? ==> forall j: nat :: !MatchAt(s, j, pat)
  {
    LastMatchBelow(s, pat, |s| + 1)
  }

  /** Number of occurrences of `c` in `s`. */
  function Count(s: string, c: char): (n: nat)
    ensures n <= |s|
    ensures n == 0 <==> c !in s
  {
    if s == [] then 0 else (if s[0] == c then 1 else 0) + Count(s[1..], c)
  }

  lemma {:induction false} CountConcat(a: string, b: string, c: char)
    ensures Count(a + b, c) == Count(a, c) + Count(b, c)
  {
    if a != [] {
      assert (a + b)[1..] == a[1..] + b;
      CountConcat(a[1..], b, c);
    } else {
      assert a + b == b;
    }
  }

  /** ECMAScript WhiteSpace and LineTerminator code points: what
      `String.prototype.trim` removes (section 22.1.3.32 of ECMA-262). */
  predicate IsJsWhitespace(c: char) {
    c == '\t' || c == '\n' || c == '\U{000B}' || c == '\U{000C}' || c == '\r' || c == ' '
    || c == '\U{00A0}' || c == '\U{1680}' || ('\U{2000}' <= c <= '\U{200A}')
    || c == '\U{2028}' || c == '\U{2029}' || c == '\U{202F}' || c == '\U{205F}'
    || c == '\U{3000}' || c == '\U{FEFF}'
  }

  /** `s` without its leading white space. */
  function TrimStart(s: string): (r: string)
    ensures |r| <= |s| && r == s[|s| - |r|..]
    ensures r != [] ==> !IsJsWhitespace(r[0])
    ensures forall i | 0 <= i < |s| - |r| :: IsJsWhitespace(s[i])
  {
    if s != [] && IsJsWhitespace(s[0]) then TrimStart(s[1..]) else s
  }

  /** `s` without its trailing white space. */
  function TrimEnd(s: string): (r: string)
    ensures |r| <= |s| && r == s[..|r|]
    ensures r != [] ==> !IsJsWhitespace(r[|r| - 1])
    ensures forall i | |r| <= i < |s| :: IsJsWhitespace(s[i])
  {
    if s != [] && IsJsWhitespace(s[|s| - 1]) then TrimEnd(s[..|s| - 1]) else s
  }

  /** `String.prototype.trim`. */
  function Trim(s: string): string {
    TrimEnd(TrimStart(s))
  }

  /** `s.trim()` is the empty (falsy) string exactly when every character of
      `s` is white space. */
  lemma TrimEmptyIff(s: string)
    ensures Trim(s) == [] <==> forall i | 0 <= i < |s| :: IsJsWhitespace(s[i])
  {
    var t := TrimStart(s);
    if Trim(s) == [] {
      assert t == [];
    } else {
      assert t != [] && !IsJsWhitespace(t[0]);
      assert s[|s| - |t|] == t[0];
    }
  }

  /** Decimal digits of `n` without leading zeros: JavaScript's `String(n)`
      and `n.toString()` for a non-negative integer. */
  function NatToString(n: nat): (r: string)
    decreases n
    ensures |r| >= 1
    ensures forall i | 0 <= i < |r| :: '0' <= r[i] <= '9'
    ensures r[0] == '0' ==> n == 0
  {
    if n < 10 then [('0' as int + n) as char]
    else NatToString(n / 10) + [('0' as int + n % 10) as char]
  }

  /** Value of a string of decimal digits. */
  function DigitsValue(s: string): nat {
    if s == [] then 0
    else
      var d := s[|s| - 1] as int - '0' as int;
      DigitsValue(s[..|s| - 1]) * 10 + (if 0 <= d <= 9 then d else 0)
  }

  /** Reading the digits back gives the number: distinct numbers print as
      distinct strings. */
  lemma {:induction false} NatToStringRoundTrip(n: nat)
    ensures DigitsValue(NatToString(n)) == n
  {
    if n >= 10 {
      var s := NatToString(n);
      assert s[..|s| - 1] == NatToString(n / 10);
      NatToStringRoundTrip(n / 10);
    }
  }

  lemma NatToStringInjective(m: nat, n: nat)
    requires m != n
    ensures NatToString(m) != NatToString(n)
  {
    NatToStringRoundTrip(m);
    NatToStringRoundTrip(n);
  }
}

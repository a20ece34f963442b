/**
 * The three regular expressions of the registration form, each written out as a
 * predicate over the positions of the input string. The password and email
 * patterns also get an independent description of what they accept, with a proof
 * that the two agree.
 */
module Patterns {
  import opened CharClasses

  // ---------------------------------------------------------------------------
  // Name: /^[A-Z][a-z]/ (anchored at the start only)
  // ---------------------------------------------------------------------------

  /** `/^[A-Z][a-z]/.test(s)`: only the first two characters are inspected. */
  predicate NamePattern(s: string): (r: bool)
    ensures r <==> exists t: string :: |t| == 2 && t <= s && IsAsciiUpper(t[0]) && IsAsciiLower(t[1])
  {
    assert |s| >= 2 ==> s[..2] <= s;
    |s| >= 2 && IsAsciiUpper(s[0]) && IsAsciiLower(s[1])
  }

  /** Whatever follows the first two characters never matters to the name pattern. */
  lemma NamePatternIgnoresTail(s: string, t: string)
    requires |s| >= 2
    ensures NamePattern(s + t) <==> NamePattern(s[..2])
  {
  }

  // ---------------------------------------------------------------------------
  // Password: /^(?=.*[a-zA-Z])(?=.*\d)(?=.*[symbols])/
  // ---------------------------------------------------------------------------

  /** No line terminator occurs among the first `i` characters, so `.*` can span them. */
  predicate NoLineTerminatorBefore(s: string, i: int)
    requires 0 <= i <= |s|
  {
    forall j :: 0 <= j < i ==> !IsLineTerminator(s[j])
  }

  /** `(?=.*C)` at position 0: some character of class `C` is reachable by `.*`. */
  predicate Lookahead(s: string, k: PasswordClass): (r: bool)
    ensures r ==> Occurs(s, k)
    ensures (forall j :: 0 <= j < |s| ==> !IsLineTerminator(s[j])) ==> (r <==> Occurs(s, k))
  {
    exists i :: 0 <= i < |s| && InClass(s[i], k) && NoLineTerminatorBefore(s, i)
  }

  /** The password pattern: the three lookaheads, all anchored at position 0. */
  predicate PasswordPattern(s: string): (r: bool)
    ensures r ==> Occurs(s, Letter) && Occurs(s, Digit) && Occurs(s, Symbol)
  {
    Lookahead(s, Letter) && Lookahead(s, Digit) && Lookahead(s, Symbol)
  }

  /** The characters before the first line terminator. */
  function FirstLine(s: string): (r: string)
    ensures |r| <= |s| && r == s[..|r|]
    ensures forall j :: 0 <= j < |r| ==> !IsLineTerminator(r[j])
    ensures |r| < |s| ==> IsLineTerminator(s[|r|])
  {
    if s == [] || IsLineTerminator(s[0]) then [] else [s[0]] + FirstLine(s[1..])
  }

  /** Some character of class `k` occurs somewhere in `s`. */
  predicate Occurs(s: string, k: PasswordClass) {
    exists i :: 0 <= i < |s| && InClass(s[i], k)
  }

  /**
   * A lookahead `(?=.*C)` succeeds exactly when class `C` occurs on the first line:
   * the contract of `FirstLine` pins down the prefix that `.*` can span.
   */
  lemma LookaheadOnFirstLine(s: string, k: PasswordClass)
    ensures Lookahead(s, k) <==> Occurs(FirstLine(s), k)
  {
    var l := FirstLine(s);
    if Lookahead(s, k) {
      var i :| 0 <= i < |s| && InClass(s[i], k) && NoLineTerminatorBefore(s, i);
      if i >= |l| {
        LineTerminatorIsSpaceAndClassless(s[|l|], k);
      }
      assert l[i] == s[i];
    }
  }

  /** The password pattern holds exactly when its first line has a letter, a digit and a symbol. */
  lemma PasswordPatternIff(s: string)
    ensures PasswordPattern(s) <==>
      var l := FirstLine(s); Occurs(l, Letter) && Occurs(l, Digit) && Occurs(l, Symbol)
  {
    LookaheadOnFirstLine(s, Letter);
    LookaheadOnFirstLine(s, Digit);
    LookaheadOnFirstLine(s, Symbol);
  }

  /** For a single-line password the pattern is the three plain "contains" tests. */
  lemma PasswordPatternSingleLine(s: string)
    requires forall j :: 0 <= j < |s| ==> !IsLineTerminator(s[j])
    ensures PasswordPattern(s) <==> Occurs(s, Letter) && Occurs(s, Digit) && Occurs(s, Symbol)
  {
    PasswordPatternIff(s);
    assert FirstLine(s) == s;
  }

  // ---------------------------------------------------------------------------
  // Email: /\S+@\S+\.\S+/ (not anchored at either end)
  // ---------------------------------------------------------------------------

  /** `\S+` matches `s[i..j]`: at least one character, none of them white space. */
  predicate NonSpaceRun(s: string, i: int, j: int) {
    0 <= i < j <= |s| && forall k :: i <= k < j ==> !IsSpace(s[k])
  }

  /**
   * The email regular expression read piece by piece: `\S+` over `s[p..q)`, `@` at
   * `q`, `\S+` over `s[q+1..r)`, `\.` at `r` and `\S+` over `s[r+1..t)`.
   */
  predicate EmailMatchAt(s: string, p: int, q: int, r: int, t: int) {
    NonSpaceRun(s, p, q) && q < |s| && s[q] == '@'
    && NonSpaceRun(s, q + 1, r) && r < |s| && s[r] == '.'
    && NonSpaceRun(s, r + 1, t)
  }

  /** `/\S+@\S+\.\S+/.test(s)`: a match may start and end anywhere. */
  predicate EmailRegex(s: string): (r: bool)
    ensures r ==> |s| >= 5 && '@' in s && '.' in s
  {
    exists p, q, r, t | 0 <= p < q < r < t <= |s| :: EmailMatchAt(s, p, q, r, t)
  }

  /**
   * The same language by the positions of one `@` and one `.`: a non-space just
   * before the `@`, at least one character strictly between them and all of them
   * non-space, and a non-space just after the `.`.
   */
  predicate EmailAt(s: string, a: int, b: int) {
    1 <= a && a + 2 <= b && b < |s| - 1
    && s[a] == '@' && s[b] == '.'
    && !IsSpace(s[a - 1])
    && (forall j :: a < j < b ==> !IsSpace(s[j]))
    && !IsSpace(s[b + 1])
  }

  predicate EmailPattern(s: string) {
    exists a, b | 0 <= a < b < |s| :: EmailAt(s, a, b)
  }

  /** The piecewise reading of the regular expression and the positional one agree. */
  lemma EmailRegexIff(s: string)
    ensures EmailRegex(s) <==> EmailPattern(s)
  {
    if EmailRegex(s) {
      var p: int, q: int, r: int, t: int :| 0 <= p < q < r < t <= |s| && EmailMatchAt(s, p, q, r, t);
      assert EmailAt(s, q, r);
    }
    if EmailPattern(s) {
      var a: int, b: int :| 0 <= a < b < |s| && EmailAt(s, a, b);
      assert EmailMatchAt(s, a - 1, a, b, b + 2);
    }
  }

  /** Because the pattern is unanchored, text around an accepted string keeps it accepted. */
  lemma EmailUnanchored(s: string, before: string, after: string)
    requires EmailPattern(s)
    ensures EmailPattern(before + s + after)
  {
    var a: int, b: int :| 0 <= a < b < |s| && EmailAt(s, a, b);
    var u := before + s + after;
    var n := |before|;
    forall j | n + a < j < n + b
      ensures !IsSpace(u[j])
    {
      assert u[j] == s[j - n];
    }
    assert EmailAt(u, n + a, n + b);
  }
}

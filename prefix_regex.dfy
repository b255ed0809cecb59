/**
 * The fragment of Python regular expressions that the run-ID patterns use,
 * matched the way `re.match` does: anchored at the start of the string, with
 * no anchor at the end, so only some prefix of the string has to match.
 *
 * A pattern is a sequence of elements; each element is a character class
 * repeated a fixed number of times (`\d{6}`, `[A-Z0-9]{5}`, a literal `_`) or
 * one or more times (`\d+`). `MatchesFrom` is the backtracking semantics (some
 * way of splitting the input succeeds); `Match` is a deterministic matcher that
 * takes every `+` greedily. The two agree on well-formed patterns, in which
 * every `+` is followed by a literal its class cannot contain.
 */
module PrefixRegex {

  /** `\d` is taken to be the ASCII digits; `[A-Z0-9]`; a single literal character. */
  datatype CharClass = Digit | UpperAlnum | Char(c: char)

  datatype Elem =
    | Repeat(cls: CharClass, count: nat)  // cls{count}; a literal is Repeat(Char(c), 1)
    | Plus(cls: CharClass)                // cls+

  function Lit(c: char): Elem {
    Repeat(Char(c), 1)
  }

  predicate InClass(cls: CharClass, ch: char) {
    match cls
    case Digit => '0' <= ch <= '9'
    case UpperAlnum => 'A' <= ch <= 'Z' || '0' <= ch <= '9'
    case Char(c) => ch == c
  }

  /**
   * The elements `pat[m..]` match `s` starting at position `i`, ending anywhere:
   * a `+` may stop after any positive number of characters of its class.
   */
  ghost predicate MatchesFrom(pat: seq<Elem>, m: nat, s: string, i: nat)
    decreases |pat| - m
  {
    if m >= |pat| then i <= |s|
    else match pat[m]
      case Repeat(cls, n) =>
        i + n <= |s| && AllInRange(cls, s, i, i + n) && MatchesFrom(pat, m + 1, s, i + n)
      case Plus(cls) =>
        exists j :: i < j <= |s| && AllInRange(cls, s, i, j) && MatchesFrom(pat, m + 1, s, j)
  }

  /** `re.match(pat, s)` succeeds. */
  ghost predicate PrefixMatches(pat: seq<Elem>, s: string) {
    MatchesFrom(pat, 0, s, 0)
  }

  /** Every `+` is immediately followed by a literal outside its class. */
  predicate WellFormed(pat: seq<Elem>) {
    forall k :: 0 <= k < |pat| && pat[k].Plus? ==>
      k + 1 < |pat| && pat[k + 1].Repeat? && pat[k + 1].cls.Char? && pat[k + 1].count >= 1
      && !InClass(pat[k].cls, pat[k + 1].cls.c)
  }

  /** Every character of `s[i..j]` is in `cls`. */
  predicate AllInRange(cls: CharClass, s: string, i: nat, j: nat)
    requires i <= j <= |s|
  {
    forall q :: i <= q < j ==> InClass(cls, s[q])
  }

  /** End of the longest run of `cls` characters starting at `i`. */
  function RunEnd(cls: CharClass, s: string, i: nat): (j: nat)
    requires i <= |s|
    ensures i <= j <= |s|
    ensures AllInRange(cls, s, i, j)
    ensures j < |s| ==> !InClass(cls, s[j])
    decreases |s| - i
  {
    if i < |s| && InClass(cls, s[i]) then RunEnd(cls, s, i + 1) else i
  }

  /** Deterministic matcher: each `+` consumes the longest run of its class. */
  function Match(pat: seq<Elem>, m: nat, s: string, i: nat): bool
    requires i <= |s|
    decreases |pat| - m
  {
    if m >= |pat| then true
    else match pat[m]
      case Repeat(cls, n) =>
        i + n <= |s| && AllInRange(cls, s, i, i + n) && Match(pat, m + 1, s, i + n)
      case Plus(cls) =>
        var j := RunEnd(cls, s, i);
        i < j && Match(pat, m + 1, s, j)
  }

  /** A run of `cls` that stops before a character outside `cls` is the longest run. */
  lemma {:induction false} RunEndIsMaximal(cls: CharClass, s: string, i: nat, j: nat)
    requires i <= j < |s|
    requires AllInRange(cls, s, i, j) && !InClass(cls, s[j])
    ensures RunEnd(cls, s, i) == j
    decreases j - i
  {
    if i < j {
      RunEndIsMaximal(cls, s, i + 1, j);
    }
  }

  /** On well-formed patterns, greedy matching is exactly backtracking matching. */
  lemma {:induction false} MatchCorrect(pat: seq<Elem>, m: nat, s: string, i: nat)
    requires WellFormed(pat) && i <= |s|
    ensures Match(pat, m, s, i) <==> MatchesFrom(pat, m, s, i)
    decreases |pat| - m
  {
    if m < |pat| {
      match pat[m]
      case Repeat(cls, n) =>
        if i + n <= |s| {
          MatchCorrect(pat, m + 1, s, i + n);
        }
      case Plus(cls) =>
        var j := RunEnd(cls, s, i);
        if Match(pat, m, s, i) {
          MatchCorrect(pat, m + 1, s, j);
        }
        if MatchesFrom(pat, m, s, i) {
          var j' :| i < j' <= |s| && AllInRange(cls, s, i, j') && MatchesFrom(pat, m + 1, s, j');
          var next := pat[m + 1];
          assert j' < |s| && s[j'] == next.cls.c;
          RunEndIsMaximal(cls, s, i, j');
          MatchCorrect(pat, m + 1, s, j');
        }
    }
  }

  /**
   * Matching only looks at a prefix: whatever follows the matched part can be
   * changed without affecting the outcome, in particular by appending.
   */
  lemma {:induction false} MatchesFromExtend(pat: seq<Elem>, m: nat, s: string, t: string, i: nat)
    requires MatchesFrom(pat, m, s, i)
    ensures MatchesFrom(pat, m, s + t, i)
    decreases |pat| - m
  {
    if m < |pat| {
      match pat[m]
      case Repeat(cls, n) =>
        MatchesFromExtend(pat, m + 1, s, t, i + n);
      case Plus(cls) =>
        var j :| i < j <= |s| && AllInRange(cls, s, i, j) && MatchesFrom(pat, m + 1, s, j);
        MatchesFromExtend(pat, m + 1, s, t, j);
        assert AllInRange(cls, s + t, i, j);
    }
  }
}

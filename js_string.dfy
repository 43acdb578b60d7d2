/**
 * The few ECMAScript string operations the gallery relies on, over `seq<char>`:
 * `indexOf`, `replace` with a string pattern (first occurrence only), `trim`
 * and `Array.prototype.join`.
 */
module JsString {

  /** `pat` occurs in `s` starting at index `j`. */
  predicate OccursAt(s: string, pat: string, j: int) {
    0 <= j && j + |pat| <= |s| && s[j..j + |pat|] == pat
  }

  /**
   * `s.indexOf(pat, from)` for a start position within the string (ECMAScript
   * clamps a larger one to |s|): the first index at or after `from` where `pat`
   * occurs, or -1.
   */
  function IndexOfFrom(s: string, pat: string, from: nat): (r: int)
    requires from <= |s|
    ensures r == -1 || (from <= r && r + |pat| <= |s|)
    decreases |s| - from
  {
    if from + |pat| > |s| then -1
    else if s[from..from + |pat|] == pat then from
    else IndexOfFrom(s, pat, from + 1)
  }

  /** IndexOfFrom finds the first occurrence at or after `from`, and -1 only when there is none. */
  lemma {:induction false} IndexOfFromSpec(s: string, pat: string, from: nat)
    requires from <= |s|
    ensures var r := IndexOfFrom(s, pat, from);
      && (r >= 0 ==> OccursAt(s, pat, r) && forall j :: from <= j < r ==> !OccursAt(s, pat, j))
      && (r == -1 ==> forall j :: from <= j ==> !OccursAt(s, pat, j))
    decreases |s| - from
  {
    if from + |pat| <= |s| && s[from..from + |pat|] != pat {
      IndexOfFromSpec(s, pat, from + 1);
    }
  }

  /** `s.indexOf(pat)`. */
  function IndexOf(s: string, pat: string): int {
    IndexOfFrom(s, pat, 0)
  }

  /**
   * `s.replace(pat, rep)` with a string pattern: only the FIRST occurrence is
   * replaced, and `s` comes back unchanged when `pat` does not occur.
   * (`rep` is taken literally: no call here passes a `$` substitution pattern.)
   */
  function ReplaceFirst(s: string, pat: string, rep: string): string {
    var i := IndexOf(s, pat);
    if i < 0 then s else s[..i] + rep + s[i + |pat|..]
  }

  /** A pattern holding a character that `s` lacks does not occur in `s`. */
  lemma NoMatchWithoutChar(s: string, pat: string, c: char)
    requires c in pat && c !in s
    ensures IndexOf(s, pat) == -1
  {
    IndexOfFromSpec(s, pat, 0);
  }

  /** `indexOf` moves on past a position whose character differs from the pattern's first. */
  lemma IndexOfFromSkip(s: string, pat: string, from: nat)
    requires pat != [] && from < |s| && s[from] != pat[0]
    ensures IndexOfFrom(s, pat, from) == IndexOfFrom(s, pat, from + 1)
  {
    if from + |pat| <= |s| { assert s[from..from + |pat|][0] != pat[0]; }
  }

  /** What `replace` promises, stated without `indexOf`. */
  lemma ReplaceFirstSpec(s: string, pat: string, rep: string)
    ensures (forall j :: !OccursAt(s, pat, j)) ==> ReplaceFirst(s, pat, rep) == s
    ensures forall i :: OccursAt(s, pat, i) && (forall j :: 0 <= j < i ==> !OccursAt(s, pat, j))
                        ==> ReplaceFirst(s, pat, rep) == s[..i] + rep + s[i + |pat|..]
  {
    var r := IndexOf(s, pat);
    IndexOfFromSpec(s, pat, 0);
    if r >= 0 {
      assert OccursAt(s, pat, r);
    }
    forall i | OccursAt(s, pat, i) && (forall j :: 0 <= j < i ==> !OccursAt(s, pat, j))
      ensures ReplaceFirst(s, pat, rep) == s[..i] + rep + s[i + |pat|..]
    {
      assert r != -1;
      assert !(r < i) && !(i < r);
    }
  }

  /** ECMAScript WhiteSpace and LineTerminator code points: what `trim` removes. */
  predicate IsWhitespace(c: char) {
    var n := c as int;
    n == 0x09 || n == 0x0A || n == 0x0B || n == 0x0C || n == 0x0D || n == 0x20
    || n == 0xA0 || n == 0x1680 || (0x2000 <= n <= 0x200A) || n == 0x2028 || n == 0x2029
    || n == 0x202F || n == 0x205F || n == 0x3000 || n == 0xFEFF
  }

  /** The first index at or after `i` that holds no whitespace, or |s|. */
  function SkipLeading(s: string, i: nat): (a: nat)
    requires i <= |s|
    ensures i <= a <= |s|
    decreases |s| - i
  {
    if i < |s| && IsWhitespace(s[i]) then SkipLeading(s, i + 1) else i
  }

  /** SkipLeading passes over whitespace only, and stops at a non-whitespace character. */
  lemma {:induction false} SkipLeadingSpec(s: string, i: nat)
    requires i <= |s|
    ensures forall k :: i <= k < SkipLeading(s, i) ==> IsWhitespace(s[k])
    ensures SkipLeading(s, i) < |s| ==> !IsWhitespace(s[SkipLeading(s, i)])
    decreases |s| - i
  {
    if i < |s| && IsWhitespace(s[i]) { SkipLeadingSpec(s, i + 1); }
  }

  /** One past the last index below `j` (and not below `lo`) that holds no whitespace, or `lo`. */
  function SkipTrailing(s: string, lo: nat, j: nat): (b: nat)
    requires lo <= j <= |s|
    ensures lo <= b <= j
    decreases j
  {
    if j > lo && IsWhitespace(s[j - 1]) then SkipTrailing(s, lo, j - 1) else j
  }

  /** SkipTrailing passes back over whitespace only, and stops after a non-whitespace character. */
  lemma {:induction false} SkipTrailingSpec(s: string, lo: nat, j: nat)
    requires lo <= j <= |s|
    ensures forall k :: SkipTrailing(s, lo, j) <= k < j ==> IsWhitespace(s[k])
    ensures SkipTrailing(s, lo, j) > lo ==> !IsWhitespace(s[SkipTrailing(s, lo, j) - 1])
    decreases j
  {
    if j > lo && IsWhitespace(s[j - 1]) { SkipTrailingSpec(s, lo, j - 1); }
  }

  /** `s.trim()`: `s` without its leading and trailing whitespace. */
  function Trim(s: string): string {
    var a := SkipLeading(s, 0);
    s[a..SkipTrailing(s, a, |s|)]
  }

  /**
   * What `trim` promises: a slice of `s` with only whitespace cut on either
   * side, starting and ending with non-whitespace, and empty exactly when `s`
   * is all whitespace.
   */
  lemma TrimSpec(s: string)
    ensures var r := Trim(s); var a := SkipLeading(s, 0);
      && a + |r| <= |s| && r == s[a..a + |r|]
      && (forall k :: 0 <= k < a ==> IsWhitespace(s[k]))
      && (forall k :: a + |r| <= k < |s| ==> IsWhitespace(s[k]))
      && (r != [] ==> !IsWhitespace(r[0]) && !IsWhitespace(r[|r| - 1]))
      && (r == [] <==> forall k :: 0 <= k < |s| ==> IsWhitespace(s[k]))
  {
    var a := SkipLeading(s, 0);
    SkipLeadingSpec(s, 0);
    SkipTrailingSpec(s, a, |s|);
  }

  /** Trimming a string that neither starts nor ends with whitespace changes nothing. */
  lemma TrimNoop(s: string)
    requires s != [] ==> !IsWhitespace(s[0]) && !IsWhitespace(s[|s| - 1])
    ensures Trim(s) == s
  {
    if s != [] {
      assert SkipLeading(s, 0) == 0;
      assert SkipTrailing(s, 0, |s|) == |s|;
    }
  }

  /** `xs.join(sep)`: the elements separated by `sep`; `[].join(sep)` is the empty string. */
  function Join(xs: seq<string>, sep: string): (r: string)
    ensures xs == [] ==> r == ""
    ensures |xs| == 1 ==> r == xs[0]
    ensures xs != [] ==> |xs[0]| <= |r| && r[..|xs[0]|] == xs[0]
    decreases |xs|
  {
    if xs == [] then ""
    else if |xs| == 1 then xs[0]
    else xs[0] + sep + Join(xs[1..], sep)
  }

  /** Pushing one more element and joining appends the separator and that element. */
  lemma {:induction false} JoinPush(xs: seq<string>, y: string, sep: string)
    requires xs != []
    ensures Join(xs + [y], sep) == Join(xs, sep) + sep + y
    decreases |xs|
  {
    if |xs| == 1 {
      assert (xs + [y])[1..] == [y];
    } else {
      assert (xs + [y])[1..] == xs[1..] + [y];
      JoinPush(xs[1..], y, sep);
    }
  }
}

/**
 * The java.lang.String operations the profile endpoints rely on, over `seq<char>`:
 * `startsWith`, `replace(CharSequence, CharSequence)` and `trim`.
 */
module JavaStrings {

  /** `s.startsWith(prefix)`: an exact, case-sensitive prefix test. */
  predicate StartsWith(s: string, prefix: string) {
    |prefix| <= |s| && s[..|prefix|] == prefix
  }

  /** `target` occurs in `s` at some position. */
  predicate Contains(s: string, target: string)
    decreases |s|
  {
    StartsWith(s, target) || (|s| > 0 && Contains(s[1..], target))
  }

  /**
   * `s.replace(target, replacement)`: scans `s` from the left and replaces every
   * non-overlapping occurrence of `target`; an empty `target` puts `replacement`
   * before every character and at the end.
   */
  function Replace(s: string, target: string, replacement: string): (r: string)
    ensures |replacement| <= |target| ==> |r| <= |s|
    decreases |s|
  {
    if |target| == 0 then
      if s == [] then replacement else replacement + [s[0]] + Replace(s[1..], target, replacement)
    else if StartsWith(s, target) then
      replacement + Replace(s[|target|..], target, replacement)
    else if s == [] then
      []
    else
      [s[0]] + Replace(s[1..], target, replacement)
  }

  /** A string in which `target` does not occur comes back unchanged. */
  lemma {:induction false} ReplaceAbsent(s: string, target: string, replacement: string)
    requires !Contains(s, target)
    ensures Replace(s, target, replacement) == s
  {
    if |target| > 0 && s != [] {
      ReplaceAbsent(s[1..], target, replacement);
    }
  }

  /**
   * `replace` finds the FIRST occurrence of `target` when scanning from the left:
   * if `target` does not start anywhere inside `a` (nor straddle its end), then
   * `a` is copied, the occurrence right after it is replaced, and the scan
   * resumes after that occurrence.
   */
  lemma {:induction false} ReplaceFirstOccurrence(a: string, target: string, b: string, replacement: string)
    requires |target| > 0
    requires !Contains(a + target[..|target| - 1], target)
    ensures Replace(a + target + b, target, replacement) == a + replacement + Replace(b, target, replacement)
  {
    if a == [] {
      ReplaceAtFront(target + b, target, replacement);
      assert a + target + b == target + b;
      assert (target + b)[|target|..] == b;
    } else {
      assert !Contains(a[1..] + target[..|target| - 1], target) by {
        assert (a + target[..|target| - 1])[1..] == a[1..] + target[..|target| - 1];
      }
      ReplaceFirstOccurrence(a[1..], target, b, replacement);
      ReplaceCopiesFirst(a, target, b, replacement);
    }
  }

  /** The step of `ReplaceFirstOccurrence`: the first character of a non-empty `a` is copied. */
  lemma ReplaceCopiesFirst(a: string, target: string, b: string, replacement: string)
    requires |target| > 0 && a != []
    requires !StartsWith(a + target[..|target| - 1], target)
    requires Replace(a[1..] + target + b, target, replacement) == a[1..] + replacement + Replace(b, target, replacement)
    ensures Replace(a + target + b, target, replacement) == a + replacement + Replace(b, target, replacement)
  {
    var s := a + target + b;
    NoEarlyStart(a, target, b);
    ReplaceSkipsFirst(s, target, replacement);
    JoinHead(a, target, b);
    JoinHead(a, replacement, Replace(b, target, replacement));
  }

  /** The first character of a join with a non-empty front, and what follows it. */
  lemma JoinHead(a: string, t: string, b: string)
    requires a != []
    ensures (a + t + b)[0] == a[0]
    ensures (a + t + b)[1..] == a[1..] + t + b
    ensures [a[0]] + (a[1..] + t + b) == a + t + b
  {
    assert a == [a[0]] + a[1..];
  }

  /** Whether `target` starts `a + target + b` is decided within `a` and all but the last character of `target`. */
  lemma NoEarlyStart(a: string, target: string, b: string)
    requires |target| > 0 && a != []
    requires !StartsWith(a + target[..|target| - 1], target)
    ensures !StartsWith(a + target + b, target)
  {
    var prefix := a + target[..|target| - 1];
    assert (a + target + b)[..|target|] == prefix[..|target|];
  }

  /** An occurrence at the front is replaced and the scan resumes after it. */
  lemma ReplaceAtFront(s: string, target: string, replacement: string)
    requires |target| > 0 && StartsWith(s, target)
    ensures Replace(s, target, replacement) == replacement + Replace(s[|target|..], target, replacement)
  {
  }

  /** A string that does not start with `target` keeps its first character. */
  lemma ReplaceSkipsFirst(s: string, target: string, replacement: string)
    requires |target| > 0 && s != [] && !StartsWith(s, target)
    ensures Replace(s, target, replacement) == [s[0]] + Replace(s[1..], target, replacement)
  {
  }

  /**
   * Every occurrence is replaced, not only the first: with `target` at the front
   * and once more after `x`, and nowhere else, both go.
   */
  lemma ReplaceTwoOccurrences(target: string, x: string, y: string, replacement: string)
    requires |target| > 0
    requires !Contains(x + target[..|target| - 1], target)
    requires !Contains(y, target)
    ensures Replace(target + (x + target + y), target, replacement) == replacement + (x + replacement + y)
  {
    ReplaceFirstOccurrence(x, target, y, replacement);
    ReplaceAbsent(y, target, replacement);
    ReplaceTargetThen(target, x + target + y, replacement);
  }

  /** `target` followed by `rest`: the front occurrence is replaced, then `rest` is scanned. */
  lemma ReplaceTargetThen(target: string, rest: string, replacement: string)
    requires |target| > 0
    ensures Replace(target + rest, target, replacement) == replacement + Replace(rest, target, replacement)
  {
    assert (target + rest)[|target|..] == rest;
    ReplaceAtFront(target + rest, target, replacement);
  }




  /** `trim` removes every character whose code is at most U+0020. */
  predicate IsTrimmed(c: char) {
    c <= ' '
  }

  /** Every character of `s` from `lo` up to `hi` is one that `trim` removes. */
  predicate PaddingOnly(s: string, lo: int, hi: int)
    requires 0 <= lo <= hi <= |s|
  {
    forall k :: lo <= k < hi ==> IsTrimmed(s[k])
  }

  /** Neither end of `s` is a character that `trim` removes. */
  predicate HasNoPadding(s: string) {
    s == [] || (!IsTrimmed(s[0]) && !IsTrimmed(s[|s| - 1]))
  }

  /** The leading-characters half of `trim`: the suffix of `s` after its leading padding. */
  function TrimStart(s: string): (r: string)
    ensures |r| <= |s| && r == s[|s| - |r|..]
    ensures PaddingOnly(s, 0, |s| - |r|)
    ensures r == [] || !IsTrimmed(r[0])
    decreases |s|
  {
    if |s| > 0 && IsTrimmed(s[0]) then TrimStart(s[1..]) else s
  }

  /** The trailing-characters half of `trim`: the prefix of `s` before its trailing padding. */
  function TrimEnd(s: string): (r: string)
    ensures |r| <= |s| && r == s[..|r|]
    ensures PaddingOnly(s, |r|, |s|)
    ensures r == [] || !IsTrimmed(r[|r| - 1])
    decreases |s|
  {
    if |s| > 0 && IsTrimmed(s[|s| - 1]) then TrimEnd(s[..|s| - 1]) else s
  }

  /**
   * `s.trim()`: the slice of `s` left after dropping the padding at both ends; the
   * result has no padding of its own, and everything dropped is padding.
   */
  function Trim(s: string): (r: string)
    ensures HasNoPadding(r)
    ensures exists i :: 0 <= i <= |s| - |r| && r == s[i..i + |r|] && PaddingOnly(s, 0, i) && PaddingOnly(s, i + |r|, |s|)
  {
    var front := TrimStart(s);
    var r := TrimEnd(front);
    TrimCutsOneSlice(s, front, r);
    r
  }

  /**
   * Cutting leading padding off `s` and then trailing padding off what is left
   * leaves one slice of `s` with only padding around it.
   */
  lemma TrimCutsOneSlice(s: string, front: string, r: string)
    requires |front| <= |s| && front == s[|s| - |front|..] && PaddingOnly(s, 0, |s| - |front|)
    requires front == [] || !IsTrimmed(front[0])
    requires |r| <= |front| && r == front[..|r|] && PaddingOnly(front, |r|, |front|)
    requires r == [] || !IsTrimmed(r[|r| - 1])
    ensures HasNoPadding(r)
    ensures var i := |s| - |front|;
      0 <= i <= |s| - |r| && r == s[i..i + |r|] && PaddingOnly(s, 0, i) && PaddingOnly(s, i + |r|, |s|)
  {
  }

  /** Trimming a string that has no padding leaves it as it is. */
  lemma TrimUnpadded(s: string)
    requires HasNoPadding(s)
    ensures Trim(s) == s
  {
  }
}

/**
 * The few Python `str` operations the modelled code relies on, written out:
 * substring search, `split`, `strip`, `s[:-1]`, and the joins that the
 * formatters build by appending `part + sep` in a loop.
 */
module Strings {
  import opened Wrappers

  /**
   * `t` occurs in `s` starting at index `k`. Stated character by character
   * through `MatchesFrom`, so that the solver only looks inside an
   * occurrence when a proof asks it to (`OccursAtIff`).
   */
  predicate OccursAt(s: string, t: string, k: int) {
    0 <= k && k + |t| <= |s| && MatchesFrom(s, t, k, 0)
  }

  /** From index `j` on, the characters of `t` agree with those of `s` from `k + j` on. */
  predicate MatchesFrom(s: string, t: string, k: nat, j: nat)
    requires k + |t| <= |s|
    decreases |t| - j
  {
    j >= |t| || (s[k + j] == t[j] && MatchesFrom(s, t, k, j + 1))
  }

  lemma {:induction false} MatchesFromIff(s: string, t: string, k: nat, j: nat)
    requires k + |t| <= |s| && j <= |t|
    ensures MatchesFrom(s, t, k, j) <==> s[k + j..k + |t|] == t[j..]
    decreases |t| - j
  {
    if j < |t| {
      MatchesFromIff(s, t, k, j + 1);
      assert s[k + j..k + |t|] == [s[k + j]] + s[k + j + 1..k + |t|];
      assert t[j..] == [t[j]] + t[j + 1..];
    }
  }

  /** An occurrence is a slice equal to `t`. */
  lemma OccursAtIff(s: string, t: string, k: int)
    ensures OccursAt(s, t, k) <==> 0 <= k && k + |t| <= |s| && s[k..k + |t|] == t
  {
    if 0 <= k && k + |t| <= |s| {
      MatchesFromIff(s, t, k, 0);
      assert t[0..] == t;
    }
  }

  /** Python `s.startswith(t)`. */
  predicate StartsWith(s: string, t: string) {
    OccursAt(s, t, 0)
  }

  /** Python `s.endswith(t)`. */
  predicate EndsWith(s: string, t: string) {
    OccursAt(s, t, |s| - |t|)
  }

  /** The first index at or after `from` where `t` occurs. */
  function IndexOfFrom(s: string, t: string, from: nat): (r: Option<nat>)
    ensures r.Some? ==> from <= r.value && OccursAt(s, t, r.value)
    ensures r.Some? ==> forall k :: from <= k < r.value ==> !OccursAt(s, t, k)
    ensures r.None? ==> forall k :: from <= k ==> !OccursAt(s, t, k)
    decreases |s| + 1 - from
  {
    if from + |t| > |s| then None
    else if OccursAt(s, t, from) then Some(from)
    else IndexOfFrom(s, t, from + 1)
  }

  /** The last index at or after `from` where `t` occurs. */
  function LastIndexOfFrom(s: string, t: string, from: nat): (r: Option<nat>)
    ensures r.Some? ==> from <= r.value && OccursAt(s, t, r.value)
    ensures r.Some? ==> forall k :: r.value < k ==> !OccursAt(s, t, k)
    ensures r.None? ==> forall k :: from <= k ==> !OccursAt(s, t, k)
    decreases |s| + 1 - from
  {
    if from + |t| > |s| then None
    else match LastIndexOfFrom(s, t, from + 1)
      case Some(k) => Some(k)
      case None => if OccursAt(s, t, from) then Some(from) else None
  }

  /** Python `t in s`. */
  predicate Contains(s: string, t: string) {
    IndexOfFrom(s, t, 0).Some?
  }

  lemma OccursAtSlice(s: string, t: string, i: nat, j: nat, k: int)
    requires i <= j <= |s|
    ensures OccursAt(s[i..j], t, k) ==> OccursAt(s, t, i + k)
  {
    OccursAtIff(s[i..j], t, k);
    OccursAtIff(s, t, i + k);
    if OccursAt(s[i..j], t, k) {
      assert s[i..j][k..k + |t|] == s[i + k..i + k + |t|];
    }
  }

  /** Every string contains itself. */
  lemma ContainsSelf(t: string)
    ensures Contains(t, t)
  {
    OccursAtIff(t, t, 0);
    assert t[0..|t|] == t;
  }

  /** What either half of a concatenation contains, the concatenation contains. */
  lemma ContainsConcat(a: string, b: string, t: string)
    ensures Contains(a, t) || Contains(b, t) ==> Contains(a + b, t)
  {
    var s := a + b;
    if Contains(a, t) {
      var k := IndexOfFrom(a, t, 0).value;
      assert s[0..|a|] == a;
      OccursAtSlice(s, t, 0, |a|, k);
    } else if Contains(b, t) {
      var k := IndexOfFrom(b, t, 0).value;
      assert s[|a|..|s|] == b;
      OccursAtSlice(s, t, |a|, |s|, k);
    }
  }

  /** An occurrence inside a suffix is an occurrence in the whole string, and back. */
  lemma OccursAtSuffix(s: string, t: string, i: nat, k: int)
    requires i <= |s|
    ensures OccursAt(s[i..], t, k) <==> 0 <= k && OccursAt(s, t, i + k)
  {
    OccursAtIff(s[i..], t, k);
    OccursAtIff(s, t, i + k);
    if 0 <= k && k + |t| <= |s| - i {
      assert s[i..][k..k + |t|] == s[i + k..i + k + |t|];
    }
  }

  /** A concatenation starts with its first part and ends with its last. */
  lemma ConcatEnds(a: string, b: string)
    ensures StartsWith(a + b, a) && EndsWith(a + b, b)
  {
    OccursAtIff(a + b, a, 0);
    OccursAtIff(a + b, b, |a|);
    assert (a + b)[0..|a|] == a;
    assert (a + b)[|a|..|a| + |b|] == b;
  }

  /** A framed text starts with its head and ends with its tail. */
  lemma Framed(h: string, m: string, t: string)
    ensures StartsWith(h + m + t, h) && EndsWith(h + m + t, t)
  {
    ConcatEnds(h, m + t);
    assert h + m + t == h + (m + t);
    ConcatEnds(h + m, t);
  }

  /** The middle of `h + m + t` reads back as `m` once `h` and `t` are cut off. */
  lemma FramedMiddle(h: string, m: string, t: string)
    ensures |h| + |t| <= |h + m + t|
    ensures (h + m + t)[|h|..|h + m + t| - |t|] == m
  {
    var s := h + m + t;
    forall k | 0 <= k < |m| ensures s[|h|..|s| - |t|][k] == m[k] {
      assert s[|h| + k] == m[k];
    }
  }

  /** A slice of a string that does not contain `t` does not contain it either. */
  lemma SliceNotContains(s: string, t: string, i: nat, j: nat)
    requires i <= j <= |s|
    requires !Contains(s, t)
    ensures !Contains(s[i..j], t)
  {
    if Contains(s[i..j], t) {
      var k := IndexOfFrom(s[i..j], t, 0).value;
      OccursAtSlice(s, t, i, j, k);
      assert false;
    }
  }

  /** A string without the one-character string `[c]` does not hold `c`. */
  lemma NoCharOccurrence(s: string, c: char)
    requires !Contains(s, [c])
    ensures c !in s
  {
    forall k | 0 <= k < |s| ensures s[k] != c {
      OccursAtIff(s, [c], k);
      assert s[k..k + 1] == [s[k]];
    }
  }

  /** Python `s[:-1]`: drop the last character; the empty string stays empty. */
  function DropLast(s: string): (r: string)
    ensures |s| == 0 ==> |r| == 0
    ensures |s| > 0 ==> r + [s[|s| - 1]] == s
  {
    if |s| == 0 then s else s[..|s| - 1]
  }

  /** Dropping the last character of a concatenation touches only its non-empty tail. */
  lemma DropLastConcat(a: string, b: string)
    requires |b| > 0
    ensures DropLast(a + b) == a + DropLast(b)
  {
    assert (a + b)[..|a + b| - 1] == a + b[..|b| - 1];
  }

  // ---------------------------------------------------------------- split

  /**
   * Python `s.split(sep)` for a non-empty separator: the pieces between the
   * non-overlapping occurrences of `sep`, found from left to right.
   */
  function Split(s: string, sep: string): (parts: seq<string>)
    requires sep != ""
    ensures |parts| >= 1
    decreases |s|
  {
    match IndexOfFrom(s, sep, 0)
    case None => [s]
    case Some(i) => [s[..i]] + Split(s[i + |sep|..], sep)
  }

  /** Python `sep.join(parts)`. */
  function Join(parts: seq<string>, sep: string): string {
    if |parts| == 0 then ""
    else if |parts| == 1 then parts[0]
    else parts[0] + sep + Join(parts[1..], sep)
  }

  /**
   * `p` is what precedes the first occurrence of `sep` in `s`: a prefix of
   * `s` at none of whose indices `sep` begins, followed by `sep` or by the
   * end of `s`.
   */
  predicate CutAtFirst(s: string, sep: string, p: string) {
    |p| <= |s| && p == s[..|p|] &&
    (forall k :: 0 <= k < |p| ==> !OccursAt(s, sep, k)) &&
    (OccursAt(s, sep, |p|) || |p| == |s|)
  }

  /** There is only one piece before the first occurrence. */
  lemma CutAtFirstUnique(s: string, sep: string, p: string, p': string)
    requires CutAtFirst(s, sep, p) && CutAtFirst(s, sep, p')
    ensures p == p'
  {
  }

  /**
   * The first piece of a split is the prefix of `s` before the first
   * occurrence of `sep` (the whole string when there is none).
   */
  lemma FirstPiece(s: string, sep: string)
    requires sep != ""
    ensures var p := Split(s, sep)[0];
      |p| <= |s| && p == s[..|p|] && !Contains(p, sep) &&
      (if Contains(s, sep) then OccursAt(s, sep, |p|) else p == s)
    ensures CutAtFirst(s, sep, Split(s, sep)[0])
  {
    match IndexOfFrom(s, sep, 0)
    case None =>
    case Some(i) =>
      assert Split(s, sep)[0] == s[..i];
      if Contains(s[..i], sep) {
        var k := IndexOfFrom(s[..i], sep, 0).value;
        OccursAtSlice(s, sep, 0, i, k);
        assert false;
      }
  }

  /**
   * The second piece of a split is the first piece of what follows the
   * first occurrence of `sep`.
   */
  lemma SecondPiece(s: string, sep: string)
    requires sep != "" && Contains(s, sep)
    ensures var i := IndexOfFrom(s, sep, 0).value;
      |Split(s, sep)| >= 2 && Split(s, sep)[1] == Split(s[i + |sep|..], sep)[0]
  {
  }

  /**
   * What follows the last occurrence of `sep` met by a left-to-right scan for
   * non-overlapping occurrences; the whole string when there is none.
   */
  function AfterLast(s: string, sep: string): string
    requires sep != ""
    decreases |s|
  {
    match IndexOfFrom(s, sep, 0)
    case None => s
    case Some(i) => AfterLast(s[i + |sep|..], sep)
  }

  /** `s.split(sep)[-1]` is what follows the last occurrence of `sep`. */
  lemma {:induction false} LastPiece(s: string, sep: string)
    requires sep != ""
    ensures var parts := Split(s, sep); parts[|parts| - 1] == AfterLast(s, sep)
    decreases |s|
  {
    match IndexOfFrom(s, sep, 0)
    case None =>
    case Some(i) =>
      var rest := s[i + |sep|..];
      LastPiece(rest, sep);
      assert Split(s, sep) == [s[..i]] + Split(rest, sep);
  }

  /** What follows the last occurrence never contains the separator. */
  lemma {:induction false} AfterLastClean(s: string, sep: string)
    requires sep != ""
    ensures !Contains(AfterLast(s, sep), sep)
    decreases |s|
  {
    match IndexOfFrom(s, sep, 0)
    case None =>
    case Some(i) =>
      AfterLastClean(s[i + |sep|..], sep);
  }

  /** What follows the last occurrence is a suffix of the string. */
  lemma {:induction false} AfterLastIsSuffix(s: string, sep: string)
    requires sep != ""
    ensures EndsWith(s, AfterLast(s, sep))
    decreases |s|
  {
    match IndexOfFrom(s, sep, 0)
    case None =>
      OccursAtIff(s, s, 0);
    case Some(i) =>
      AfterLastIsSuffix(s[i + |sep|..], sep);
      SuffixOfSuffix(s, i + |sep|, AfterLast(s[i + |sep|..], sep));
  }

  lemma SuffixOfSuffix(s: string, k: nat, l: string)
    requires k <= |s| && EndsWith(s[k..], l)
    ensures EndsWith(s, l)
  {
    OccursAtSlice(s, l, k, |s|, |s| - k - |l|);
    assert s[k..|s|] == s[k..];
  }

  /** Without an occurrence of `sep` nothing is cut off. */
  lemma AfterLastWhole(s: string, sep: string)
    requires sep != "" && !Contains(s, sep)
    ensures AfterLast(s, sep) == s
  {
  }

  /** When `sep` occurs, what follows its last occurrence directly follows an occurrence of it. */
  lemma {:induction false} AfterLastFollowsSep(s: string, sep: string)
    requires sep != "" && Contains(s, sep)
    ensures var l := AfterLast(s, sep); |l| + |sep| <= |s| && OccursAt(s, sep, |s| - |l| - |sep|)
    decreases |s|
  {
    var i := IndexOfFrom(s, sep, 0).value;
    var rest := s[i + |sep|..];
    assert AfterLast(s, sep) == AfterLast(rest, sep);
    if Contains(rest, sep) {
      AfterLastFollowsSep(rest, sep);
      var l := AfterLast(rest, sep);
      OccursAtSlice(s, sep, i + |sep|, |s|, |rest| - |l| - |sep|);
      assert s[i + |sep|..|s|] == rest;
    } else {
      AfterLastWhole(rest, sep);
    }
  }

  /** A string that lacks the first character of `t` does not contain `t`. */
  lemma HeadNotContained(s: string, t: string)
    requires |t| > 0 && t[0] !in s
    ensures !Contains(s, t)
  {
    forall k | 0 <= k ensures !OccursAt(s, t, k) {
      if k + |t| <= |s| {
        assert s[k..k + |t|][0] == s[k];
      }
    }
  }

  /** With no occurrence of `sep`, a split yields the whole string as its only piece. */
  lemma SplitAbsent(s: string, sep: string)
    requires sep != "" && !Contains(s, sep)
    ensures Split(s, sep) == [s]
  {
  }

  /** Splitting at a one-character separator undoes joining with it. */
  lemma {:induction false} JoinSplit(parts: seq<string>, c: char)
    requires |parts| > 0
    requires forall k :: 0 <= k < |parts| ==> c !in parts[k]
    ensures Split(Join(parts, [c]), [c]) == parts
    decreases |parts|
  {
    var p := parts[0];
    if |parts| == 1 {
      assert Join(parts, [c]) == p;
      HeadNotContained(p, [c]);
    } else {
      var rest := Join(parts[1..], [c]);
      var s := Join(parts, [c]);
      assert s == p + [c] + rest;
      assert OccursAt(s, [c], |p|);
      forall k | 0 <= k < |p| ensures !OccursAt(s, [c], k) {
        assert s[k] == p[k];
      }
      assert IndexOfFrom(s, [c], 0) == Some(|p|);
      assert s[..|p|] == p;
      assert s[|p| + 1..] == rest;
      JoinSplit(parts[1..], c);
    }
  }

  // ------------------------------------------------ loop-built separators

  /** Every part followed by `sep`: what appending `part + sep` in a loop builds. */
  function Terminated(parts: seq<string>, sep: string): string {
    if |parts| == 0 then "" else Terminated(parts[..|parts| - 1], sep) + parts[|parts| - 1] + sep
  }

  lemma TerminatedSnoc(parts: seq<string>, x: string, sep: string)
    ensures Terminated(parts + [x], sep) == Terminated(parts, sep) + x + sep
  {
    assert (parts + [x])[..|parts|] == parts;
  }

  lemma {:induction false} JoinSnoc(parts: seq<string>, x: string, sep: string)
    requires |parts| > 0
    ensures Join(parts + [x], sep) == Join(parts, sep) + sep + x
    decreases |parts|
  {
    if |parts| > 1 {
      assert (parts + [x])[1..] == parts[1..] + [x];
      JoinSnoc(parts[1..], x, sep);
    }
  }

  /** One more part after a fixed prefix: the loop step, with the prefix kept in front. */
  lemma TerminatedAppend(p: string, parts: seq<string>, x: string, sep: string)
    ensures p + Terminated(parts + [x], sep) == p + Terminated(parts, sep) + x + sep
  {
    TerminatedSnoc(parts, x, sep);
  }

  /** Terminating two lists one after the other terminates their concatenation. */
  lemma {:induction false} TerminatedConcat(a: seq<string>, b: seq<string>, sep: string)
    ensures Terminated(a + b, sep) == Terminated(a, sep) + Terminated(b, sep)
    decreases |b|
  {
    if |b| == 0 {
      assert a + b == a;
    } else {
      var init := b[..|b| - 1];
      var y := b[|b| - 1];
      assert a + b == (a + init) + [y];
      assert b == init + [y];
      TerminatedConcat(a, init, sep);
      TerminatedSnoc(a + init, y, sep);
      TerminatedAppend(Terminated(a, sep), init, y, sep);
    }
  }

  /** A join is at least as long as its first part. */
  lemma JoinLength(parts: seq<string>, sep: string)
    requires |parts| > 0
    ensures |Join(parts, sep)| >= |parts[0]|
  {
  }

  /**
   * Dropping the separator after the last part of a loop-built list leaves
   * the parts joined by the separator: the trailing-comma trim.
   */
  lemma {:induction false} TerminatedIsJoin(parts: seq<string>, sep: string)
    requires |parts| > 0
    ensures Terminated(parts, sep) == Join(parts, sep) + sep
    decreases |parts|
  {
    if |parts| > 1 {
      var init := parts[..|parts| - 1];
      TerminatedIsJoin(init, sep);
      JoinSnoc(init, parts[|parts| - 1], sep);
      assert init + [parts[|parts| - 1]] == parts;
    }
  }

  /** With a one-character separator, trimming the last character is the join. */
  lemma TrimTerminated(parts: seq<string>, c: char)
    ensures DropLast(Terminated(parts, [c])) == Join(parts, [c])
  {
    if |parts| > 0 {
      TerminatedIsJoin(parts, [c]);
      assert DropLast(Join(parts, [c]) + [c]) == Join(parts, [c]);
    }
  }

  // ---------------------------------------------------------------- strip

  /** The characters Python's `str.strip()` removes (`str.isspace`). */
  predicate IsSpace(c: char) {
    || c == ' ' || c == '\t' || c == '\n' || c == '\r' || c == '\U{b}' || c == '\U{c}'
    || ('\U{1c}' <= c <= '\U{1f}') || c == '\U{85}' || c == '\U{a0}' || c == '\U{1680}'
    || ('\U{2000}' <= c <= '\U{200a}') || c == '\U{2028}' || c == '\U{2029}'
    || c == '\U{202f}' || c == '\U{205f}' || c == '\U{3000}'
  }

  /** The first index at or after `from` that does not hold whitespace (or `|s|`). */
  function SkipSpace(s: string, from: nat): (i: nat)
    requires from <= |s|
    ensures from <= i <= |s|
    ensures forall k :: from <= k < i ==> IsSpace(s[k])
    ensures i == |s| || !IsSpace(s[i])
    decreases |s| - from
  {
    if from < |s| && IsSpace(s[from]) then SkipSpace(s, from + 1) else from
  }

  /** The end of `s[lo..hi]` once its trailing whitespace is gone. */
  function SkipSpaceBack(s: string, lo: nat, hi: nat): (j: nat)
    requires lo <= hi <= |s|
    ensures lo <= j <= hi
    ensures forall k :: j <= k < hi ==> IsSpace(s[k])
    ensures j == lo || !IsSpace(s[j - 1])
    decreases hi
  {
    if lo < hi && IsSpace(s[hi - 1]) then SkipSpaceBack(s, lo, hi - 1) else hi
  }

  /** Where the result of `s.strip()` starts and ends in `s`. */
  function StripBounds(s: string): (b: (nat, nat))
    ensures b.0 <= b.1 <= |s|
    ensures forall k :: 0 <= k < b.0 ==> IsSpace(s[k])
    ensures forall k :: b.1 <= k < |s| ==> IsSpace(s[k])
    ensures b.0 < b.1 ==> !IsSpace(s[b.0]) && !IsSpace(s[b.1 - 1])
  {
    var i := SkipSpace(s, 0);
    (i, SkipSpaceBack(s, i, |s|))
  }

  /**
   * Python `s.strip()`: the slice of `s` left once the whitespace at both
   * ends is gone, so neither end of the result is whitespace.
   */
  function Strip(s: string): (r: string)
    ensures var (i, j) := StripBounds(s); r == s[i..j]
    ensures |r| == 0 || (!IsSpace(r[0]) && !IsSpace(r[|r| - 1]))
  {
    var (i, j) := StripBounds(s);
    s[i..j]
  }

  /** Stripping adds no character. */
  lemma StripChars(s: string)
    ensures forall c :: c in Strip(s) ==> c in s
  {
    var (i, j) := StripBounds(s);
    var r := Strip(s);
    forall c | c in r ensures c in s {
      var k :| 0 <= k < |r| && r[k] == c;
      assert s[i + k] == c;
    }
  }

  /** Stripping creates no occurrence of `t`. */
  lemma StripNotContains(s: string, t: string)
    requires !Contains(s, t)
    ensures !Contains(Strip(s), t)
  {
    var (i, j) := StripBounds(s);
    SliceNotContains(s, t, i, j);
  }
}

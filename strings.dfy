/**
 * The JavaScript string built-ins the uploader relies on, stated over
 * `seq<char>`: the regular-expression replacement `s.replace(/.*[D]/, '')`,
 * `indexOf` / `String.prototype.replace` with a string pattern (first
 * occurrence only, `$` patterns expanded), `Array.prototype.join` and
 * `toLowerCase` on ASCII letters.
 */
module Strings {
  import opened Wrappers

  /** The characters a regular-expression `.` does not match (LF, CR, LS, PS). */
  predicate IsLineTerminator(c: char) {
    c == '\n' || c == '\r' || c == '\U{2028}' || c == '\U{2029}'
  }

  /** No line terminator among s[a..b]. */
  predicate NoTerminatorBetween(s: string, a: int, b: int)
    requires 0 <= a && b <= |s|
  {
    forall k :: a <= k < b ==> !IsLineTerminator(s[k])
  }

  /** The pattern `.*[D]` matches the text s[i..j+1] (D is `delim`). */
  ghost predicate GreedyMatch(s: string, delim: char -> bool, i: int, j: int) {
    0 <= i <= j < |s| && delim(s[j]) && NoTerminatorBetween(s, i, j)
  }

  /** The first index of s satisfying p. */
  function FirstIndex(s: string, p: char -> bool): (r: Option<nat>)
    ensures r.None? ==> forall k :: 0 <= k < |s| ==> !p(s[k])
    ensures r.Some? ==> r.value < |s| && p(s[r.value]) && forall k :: 0 <= k < r.value ==> !p(s[k])
  {
    if s == [] then None
    else if p(s[0]) then Some(0)
    else match FirstIndex(s[1..], p)
      case None => None
      case Some(k) => Some(k + 1)
  }

  /** The start of the line that holds index f. */
  function LineStart(s: string, f: nat): (r: nat)
    requires f <= |s|
    ensures r <= f && NoTerminatorBetween(s, r, f)
    ensures r > 0 ==> IsLineTerminator(s[r - 1])
  {
    if f == 0 then 0
    else if IsLineTerminator(s[f - 1]) then f
    else LineStart(s, f - 1)
  }

  /** Delimiters the pattern `[D]` names are never line terminators (`.` and the path separators). */
  ghost predicate PlainDelimiters(delim: char -> bool) {
    forall c :: delim(c) ==> !IsLineTerminator(c)
  }

  /**
   * The last index r >= best, among best and the indices from k on, reachable
   * from `from` without crossing a line terminator and satisfying p.
   */
  function LastInLineFrom(s: string, p: char -> bool, from: nat, best: nat, k: nat): (r: nat)
    requires PlainDelimiters(p)
    requires from <= best < k <= |s| && p(s[best]) && NoTerminatorBetween(s, from, k)
    requires forall m :: best < m < k ==> !p(s[m])
    ensures best <= r < |s| && p(s[r]) && NoTerminatorBetween(s, from, r)
    ensures forall m :: r < m < |s| && NoTerminatorBetween(s, from, m) ==> !p(s[m])
    decreases |s| - k
  {
    if k == |s| || IsLineTerminator(s[k]) then best
    else if p(s[k]) then LastInLineFrom(s, p, from, k, k + 1)
    else LastInLineFrom(s, p, from, best, k + 1)
  }

  /**
   * Where the regular expression `.*[D]` matches in s, as JavaScript finds it:
   * the leftmost start, and from that start the longest match.
   */
  function LeftmostGreedyMatch(s: string, delim: char -> bool): (r: Option<(nat, nat)>)
    requires PlainDelimiters(delim)
    ensures r.None? ==> forall i, j :: !GreedyMatch(s, delim, i, j)
    ensures r.Some? ==> GreedyMatch(s, delim, r.value.0, r.value.1)
    ensures r.Some? ==> forall i, j :: 0 <= i < r.value.0 ==> !GreedyMatch(s, delim, i, j)
    ensures r.Some? ==> forall j :: r.value.1 < j ==> !GreedyMatch(s, delim, r.value.0, j)
  {
    match FirstIndex(s, delim)
    case None => None
    case Some(f) =>
      var i := LineStart(s, f);
      var j := LastInLineFrom(s, delim, f, f, f + 1);
      assert NoTerminatorBetween(s, i, j) by {
        forall k | i <= k < j ensures !IsLineTerminator(s[k]) {
          if k >= f { assert f <= k < j; }
        }
      }
      Some((i, j))
  }

  /** `s.replace(/.*[D]/, '')`: delete the text the regular expression matches. */
  function StripThroughLast(s: string, delim: char -> bool): (r: string)
    requires PlainDelimiters(delim)
    ensures |r| <= |s|
    ensures (forall k :: 0 <= k < |s| ==> !delim(s[k])) ==> r == s
  {
    match LeftmostGreedyMatch(s, delim)
    case None => s
    case Some((i, j)) =>
      assert delim(s[j]);
      s[..i] + s[j + 1..]
  }

  /**
   * On a single line, `s.replace(/.*[D]/, '')` keeps exactly the text after the
   * last delimiter: a suffix of s with no delimiter, preceded by a delimiter
   * unless it is all of s.
   */
  lemma StripSingleLine(s: string, delim: char -> bool)
    requires PlainDelimiters(delim)
    requires NoTerminatorBetween(s, 0, |s|)
    ensures var r := StripThroughLast(s, delim);
      && r == s[|s| - |r|..]
      && (forall k :: 0 <= k < |r| ==> !delim(r[k]))
      && (|r| < |s| ==> delim(s[|s| - |r| - 1]))
  {
    var r := StripThroughLast(s, delim);
    match LeftmostGreedyMatch(s, delim)
    case None =>
      forall k | 0 <= k < |s| ensures !delim(s[k]) {
        assert !GreedyMatch(s, delim, k, k);
      }
    case Some((i, j)) =>
      assert r == s[j + 1..];
      forall k | 0 <= k < |r| ensures !delim(r[k]) {
        assert r[k] == s[j + 1 + k];
        assert !GreedyMatch(s, delim, 0, j + 1 + k);
      }
  }

  /** `toLowerCase` on one character; only the ASCII letters are mapped. */
  function Lower(c: char): char {
    if 'A' <= c <= 'Z' then (c as int + 32) as char else c
  }

  function LowerString(s: string): (r: string)
    ensures |r| == |s| && forall k :: 0 <= k < |s| ==> r[k] == Lower(s[k])
  {
    seq(|s|, k requires 0 <= k < |s| => Lower(s[k]))
  }

  /** Two strings agree on where delimiters and line terminators are. */
  ghost predicate SameShape(s: string, t: string, delim: char -> bool) {
    |s| == |t| && forall k :: 0 <= k < |s| ==>
      delim(s[k]) == delim(t[k]) && IsLineTerminator(s[k]) == IsLineTerminator(t[k])
  }

  /** The regular expression matches strings of the same shape at the same place. */
  lemma SameShapeSameMatch(s: string, t: string, delim: char -> bool)
    requires PlainDelimiters(delim) && SameShape(s, t, delim)
    ensures LeftmostGreedyMatch(s, delim) == LeftmostGreedyMatch(t, delim)
  {
    forall i, j ensures GreedyMatch(s, delim, i, j) <==> GreedyMatch(t, delim, i, j) {
      if 0 <= i <= j < |s| {
        assert NoTerminatorBetween(s, i, j) <==> NoTerminatorBetween(t, i, j);
      }
    }
  }

  /** Lowercasing keeps the delimiters and the line terminators where they are. */
  lemma LowerSameShape(s: string, delim: char -> bool)
    requires forall c {:trigger Lower(c)} :: delim(Lower(c)) == delim(c)
    ensures SameShape(s, LowerString(s), delim)
  {
    forall k | 0 <= k < |s|
      ensures delim(s[k]) == delim(LowerString(s)[k])
      ensures IsLineTerminator(s[k]) == IsLineTerminator(LowerString(s)[k])
    {
      assert LowerString(s)[k] == Lower(s[k]);
    }
  }

  /** Lowercasing before or after the replacement gives the same text, when lowercasing keeps the delimiters. */
  lemma StripCommutesWithLower(s: string, delim: char -> bool)
    requires PlainDelimiters(delim)
    requires forall c {:trigger Lower(c)} :: delim(Lower(c)) == delim(c)
    ensures StripThroughLast(LowerString(s), delim) == LowerString(StripThroughLast(s, delim))
  {
    var t := LowerString(s);
    LowerSameShape(s, delim);
    SameShapeSameMatch(s, t, delim);
    match LeftmostGreedyMatch(s, delim)
    case None =>
    case Some((i, j)) =>
      assert StripThroughLast(t, delim) == t[..i] + t[j + 1..];
      assert StripThroughLast(s, delim) == s[..i] + s[j + 1..];
      LowerCut(s, i, j + 1);
  }

  /** Lowercasing commutes with cutting out `s[i..j]`. */
  lemma LowerCut(s: string, i: nat, j: nat)
    requires i <= j <= |s|
    ensures LowerString(s[..i] + s[j..]) == LowerString(s)[..i] + LowerString(s)[j..]
  {
    var l, r := LowerString(s[..i] + s[j..]), LowerString(s)[..i] + LowerString(s)[j..];
    assert |l| == |r|;
    forall k | 0 <= k < |l| ensures l[k] == r[k] {
      if k < i {
        assert l[k] == Lower(s[k]);
      } else {
        assert l[k] == Lower(s[k - i + j]);
      }
    }
  }

  /** The needle occurs in s at index i. */
  predicate OccursAt(s: string, needle: string, i: int) {
    0 <= i && i + |needle| <= |s| && s[i..i + |needle|] == needle
  }

  function IndexOfFrom(s: string, needle: string, from: nat): (r: Option<nat>)
    ensures r.None? ==> forall i :: from <= i ==> !OccursAt(s, needle, i)
    ensures r.Some? ==> from <= r.value && OccursAt(s, needle, r.value)
    ensures r.Some? ==> forall i :: from <= i < r.value ==> !OccursAt(s, needle, i)
    decreases |s| - from
  {
    if from + |needle| > |s| then None
    else if s[from..from + |needle|] == needle then Some(from)
    else IndexOfFrom(s, needle, from + 1)
  }

  /** `s.indexOf(needle)`: the first occurrence. */
  function IndexOf(s: string, needle: string): (r: Option<nat>)
    ensures r.None? ==> forall i :: !OccursAt(s, needle, i)
    ensures r.Some? ==> OccursAt(s, needle, r.value) && forall i :: 0 <= i < r.value ==> !OccursAt(s, needle, i)
  {
    IndexOfFrom(s, needle, 0)
  }

  /**
   * The replacement text `String.prototype.replace` inserts for a string
   * pattern (there are no capture groups): `$$` is `$`, `$&` the matched
   * text, `` $` `` the text before it, `$'` the text after it; any other `$`
   * stands for itself.
   */
  function Substitution(replacement: string, matched: string, before: string, after: string): string
  {
    if replacement == [] then []
    else if replacement[0] == '$' && |replacement| >= 2 then
      var rest := Substitution(replacement[2..], matched, before, after);
      match replacement[1]
      case '$' => "$" + rest
      case '&' => matched + rest
      case '`' => before + rest
      case '\'' => after + rest
      case _ => "$" + Substitution(replacement[1..], matched, before, after)
    else [replacement[0]] + Substitution(replacement[1..], matched, before, after)
  }

  /** A replacement without `$` is inserted as it is. */
  lemma {:induction false} SubstitutionLiteral(replacement: string, matched: string, before: string, after: string)
    requires '$' !in replacement
    ensures Substitution(replacement, matched, before, after) == replacement
  {
    if replacement != [] {
      assert replacement[0] != '$';
      SubstitutionLiteral(replacement[1..], matched, before, after);
    }
  }

  /** `s.replace(pattern, replacement)` with a string pattern: only the first occurrence is replaced. */
  function ReplaceFirst(s: string, pattern: string, replacement: string): (r: string)
    ensures IndexOf(s, pattern).None? ==> r == s
  {
    match IndexOf(s, pattern)
    case None => s
    case Some(i) =>
      s[..i] + Substitution(replacement, pattern, s[..i], s[i + |pattern|..]) + s[i + |pattern|..]
  }

  /**
   * Replacing in `before + pattern + after`, where the pattern does not occur
   * earlier, substitutes the replacement between `before` and `after`; later
   * occurrences inside `after` are left alone.
   */
  lemma ReplaceFirstSplit(before: string, pattern: string, after: string, replacement: string)
    requires forall i :: 0 <= i < |before| ==> !OccursAt(before + pattern + after, pattern, i)
    ensures ReplaceFirst(before + pattern + after, pattern, replacement)
         == before + Substitution(replacement, pattern, before, after) + after
  {
    var s := before + pattern + after;
    assert s[|before|..|before| + |pattern|] == pattern;
    assert OccursAt(s, pattern, |before|);
    var i := IndexOf(s, pattern).value;
    assert i == |before|;
    assert s[..i] == before && s[i + |pattern|..] == after;
  }

  /** The same, for a replacement without `$`, which is inserted as it is. */
  lemma ReplaceFirstAt(before: string, pattern: string, after: string, replacement: string)
    requires '$' !in replacement
    requires forall i :: 0 <= i < |before| ==> !OccursAt(before + pattern + after, pattern, i)
    ensures ReplaceFirst(before + pattern + after, pattern, replacement) == before + replacement + after
  {
    ReplaceFirstSplit(before, pattern, after, replacement);
    SubstitutionLiteral(replacement, pattern, before, after);
  }

  /** `parts.join(separator)`. */
  function Join(parts: seq<string>, separator: string): (r: string)
    ensures parts == [] ==> r == ""
    ensures |parts| == 1 ==> r == parts[0]
  {
    if parts == [] then ""
    else if |parts| == 1 then parts[0]
    else parts[0] + separator + Join(parts[1..], separator)
  }
}

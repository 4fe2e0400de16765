/**
 * Locating the JSON candidate in a reply: `re.search(r'({[\s\S]*})', text)`
 * and `json_match.group(1)` (app.py:77-79).
 */
module Extraction {
  import opened Wrappers

  /** Index of the first occurrence of `c` in `s`. */
  function FirstIndex(s: string, c: char): (r: Option<nat>)
    ensures r.Some? ==> r.value < |s| && s[r.value] == c
    ensures r.Some? ==> forall k :: 0 <= k < r.value ==> s[k] != c
    ensures r.None? <==> forall k :: 0 <= k < |s| ==> s[k] != c
  {
    if |s| == 0 then None
    else if s[0] == c then Some(0)
    else
      match FirstIndex(s[1..], c)
      case None => None
      case Some(i) => Some(i + 1)
  }

  /** Index of the last occurrence of `c` in `s`. */
  function LastIndex(s: string, c: char): (r: Option<nat>)
    ensures r.Some? ==> r.value < |s| && s[r.value] == c
    ensures r.Some? ==> forall k :: r.value < k < |s| ==> s[k] != c
    ensures r.None? <==> forall k :: 0 <= k < |s| ==> s[k] != c
  {
    if |s| == 0 then None
    else if s[|s| - 1] == c then Some(|s| - 1)
    else LastIndex(s[..|s| - 1], c)
  }

  /** An occurrence of `c` with none before it is the first. */
  lemma FirstIndexAt(s: string, c: char, i: nat)
    requires i < |s| && s[i] == c
    requires forall k :: 0 <= k < i ==> s[k] != c
    ensures FirstIndex(s, c) == Some(i)
  {
    var r := FirstIndex(s, c);
    assert r.Some?;
    assert !(r.value < i) && !(i < r.value);
  }

  /** An occurrence of `c` with none after it is the last. */
  lemma LastIndexAt(s: string, c: char, j: nat)
    requires j < |s| && s[j] == c
    requires forall k :: j < k < |s| ==> s[k] != c
    ensures LastIndex(s, c) == Some(j)
  {
    var r := LastIndex(s, c);
    assert r.Some?;
    assert !(r.value < j) && !(j < r.value);
  }

  /** `t` occurs in `s` as one contiguous piece. */
  ghost predicate IsSubstring(t: string, s: string) {
    exists a, b :: 0 <= a <= b <= |s| && s[a..b] == t
  }

  /**
   * The pattern `({[\s\S]*})` matches `s[i..j+1]`: a `{`, any characters at
   * all (`[\s\S]` includes newlines), and a `}`.
   */
  ghost predicate PatternMatchAt(s: string, i: int, j: int) {
    0 <= i < j < |s| && s[i] == '{' && s[j] == '}'
  }

  /**
   * The match `re.search` reports: the backtracking engine tries the start
   * positions from the left and, at the first that matches, lets the greedy
   * `*` take as much as it can, so the match is the leftmost one and, among
   * those starting there, the longest.
   */
  ghost predicate SearchFinds(s: string, i: int, j: int) {
    && PatternMatchAt(s, i, j)
    && (forall i', j' :: PatternMatchAt(s, i', j') ==> i <= i')
    && (forall j' :: PatternMatchAt(s, i, j') ==> j' <= j)
  }

  /**
   * The JSON candidate of `s`: from the first `{` to the last `}`, both
   * included, provided that `{` comes before that `}`.
   */
  function ExtractSpan(s: string): (r: Option<string>)
    ensures r.Some? ==> 2 <= |r.value| && r.value[0] == '{' && r.value[|r.value| - 1] == '}'
    ensures r.Some? ==> IsSubstring(r.value, s)
  {
    match (FirstIndex(s, '{'), LastIndex(s, '}'))
    case (Some(i), Some(j)) =>
      if i < j then Some(s[i..j + 1]) else None
    case _ => None
  }

  /**
   * `ExtractSpan` is the regex search: it finds a candidate exactly when the
   * pattern matches somewhere, and then the very span `re.search` reports.
   */
  lemma ExtractSpanIsSearch(s: string)
    ensures ExtractSpan(s).Some? <==> exists i, j :: PatternMatchAt(s, i, j)
    ensures ExtractSpan(s).Some? ==> exists i, j :: SearchFinds(s, i, j) && ExtractSpan(s).value == s[i..j + 1]
    ensures forall i, j :: SearchFinds(s, i, j) ==> ExtractSpan(s) == Some(s[i..j + 1])
  {
    var first, last := FirstIndex(s, '{'), LastIndex(s, '}');
    if first.Some? && last.Some? && first.value < last.value {
      var i, j := first.value, last.value;
      assert SearchFinds(s, i, j);
      forall i', j' | SearchFinds(s, i', j') ensures ExtractSpan(s) == Some(s[i'..j' + 1]) {
        assert i' <= i && i <= i';
        assert j' <= j && j <= j';
      }
    } else {
      forall i, j | 0 <= i < j < |s| && s[i] == '{' ensures s[j] != '}' {
        assert first.Some? && first.value <= i;
        assert last.Some? ==> last.value < first.value;
      }
    }
  }

  /**
   * A `{`...`}` text between prose with no `{` before it and no `}` after it
   * is exactly what is extracted, whatever braces it holds inside.
   */
  lemma SpanOfWrapped(pre: string, candidate: string, post: string)
    requires '{' !in pre && '}' !in post
    requires 2 <= |candidate| && candidate[0] == '{' && candidate[|candidate| - 1] == '}'
    ensures ExtractSpan(pre + candidate + post) == Some(candidate)
  {
    var s := pre + candidate + post;
    var i, j := |pre|, |pre| + |candidate| - 1;
    assert s[i] == candidate[0] && s[j] == candidate[|candidate| - 1];
    forall k | 0 <= k < i ensures s[k] != '{' { assert s[k] == pre[k]; }
    forall k | j < k < |s| ensures s[k] != '}' { assert s[k] == post[k - j - 1]; }
    FirstIndexAt(s, '{', i);
    LastIndexAt(s, '}', j);
    assert s[i..j + 1] == candidate;
  }
}

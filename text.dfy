/**
 * The two Python string operations the adapter and the result display rely on:
 * `str.strip()` with no arguments (app.py:72) and `str.lower()` (app.py:125).
 */
module Text {

  /**
   * Python's `str.isspace()` for one character: the characters `str.strip()`
   * removes when called without arguments.  These are the ASCII controls
   * TAB..CR and FS..US, SPACE, NEL, NO-BREAK SPACE and the Unicode space and
   * separator characters.
   */
  predicate IsSpace(c: char) {
    || ('\t' <= c <= '\r')
    || ('\U{1C}' <= c <= '\U{1F}')
    || c == ' '
    || c == '\U{85}'
    || c == '\U{A0}'
    || c == '\U{1680}'
    || ('\U{2000}' <= c <= '\U{200A}')
    || c == '\U{2028}'
    || c == '\U{2029}'
    || c == '\U{202F}'
    || c == '\U{205F}'
    || c == '\U{3000}'
  }

  ghost predicate AllSpace(s: string) {
    forall i :: 0 <= i < |s| ==> IsSpace(s[i])
  }

  /** Neither the first nor the last character of `s` is whitespace. */
  predicate NoOuterSpace(s: string) {
    s == [] || (!IsSpace(s[0]) && !IsSpace(s[|s| - 1]))
  }

  /** Number of whitespace characters at the start of `s`. */
  function LeadingSpace(s: string): (k: nat)
    ensures k <= |s|
    ensures forall i :: 0 <= i < k ==> IsSpace(s[i])
    ensures k < |s| ==> !IsSpace(s[k])
  {
    if |s| > 0 && IsSpace(s[0]) then 1 + LeadingSpace(s[1..]) else 0
  }

  /** Number of whitespace characters at the end of `s`. */
  function TrailingSpace(s: string): (k: nat)
    ensures k <= |s|
    ensures forall i :: |s| - k <= i < |s| ==> IsSpace(s[i])
    ensures k < |s| ==> !IsSpace(s[|s| - 1 - k])
  {
    if |s| > 0 && IsSpace(s[|s| - 1]) then 1 + TrailingSpace(s[..|s| - 1]) else 0
  }

  /**
   * `s[a..b]` is what is left of `s` once all leading and all trailing
   * whitespace is cut off: everything before `a` and from `b` on is
   * whitespace, and what is kept neither starts nor ends with whitespace.
   */
  ghost predicate StripBounds(s: string, a: int, b: int) {
    && 0 <= a <= b <= |s|
    && (forall i :: 0 <= i < a ==> IsSpace(s[i]))
    && (forall i :: b <= i < |s| ==> IsSpace(s[i]))
    && (a < b ==> !IsSpace(s[a]) && !IsSpace(s[b - 1]))
  }

  /** `r` is `s` with its leading and trailing whitespace cut off, and nothing else. */
  ghost predicate IsStripOf(s: string, r: string) {
    exists a, b :: StripBounds(s, a, b) && r == s[a..b]
  }

  /** Python's `str.strip()` with no arguments. */
  function Strip(s: string): (r: string)
    ensures IsStripOf(s, r)
    ensures NoOuterSpace(r)
  {
    var a := LeadingSpace(s);
    var rest := s[a..];
    var b := |s| - TrailingSpace(rest);
    assert forall i :: b <= i < |s| ==> IsSpace(s[i]) by {
      forall i | b <= i < |s| ensures IsSpace(s[i]) { assert s[i] == rest[i - a]; }
    }
    assert a < b ==> s[b - 1] == rest[|rest| - 1 - TrailingSpace(rest)];
    assert StripBounds(s, a, b);
    s[a..b]
  }

  /** The bounds of a strip are unique, up to where an all-whitespace text is cut. */
  // A kept piece starts at the first and ends after the last non-whitespace
  // character; a text with none of those is cut down to nothing both times.
  lemma StripBoundsUnique(s: string, a1: int, b1: int, a2: int, b2: int)
    requires StripBounds(s, a1, b1) && StripBounds(s, a2, b2)
    ensures s[a1..b1] == s[a2..b2]
  {
  }

  /** At most one string is the strip of `s`: `IsStripOf` pins `Strip` down completely. */
  lemma StripUnique(s: string, r1: string, r2: string)
    requires IsStripOf(s, r1) && IsStripOf(s, r2)
    ensures r1 == r2
  {
    var a1, b1 :| StripBounds(s, a1, b1) && r1 == s[a1..b1];
    var a2, b2 :| StripBounds(s, a2, b2) && r2 == s[a2..b2];
    StripBoundsUnique(s, a1, b1, a2, b2);
  }

  /** `strip()` leaves a text alone exactly when it neither starts nor ends with whitespace. */
  lemma StripKeeps(s: string)
    ensures Strip(s) == s <==> NoOuterSpace(s)
  {
    if NoOuterSpace(s) {
      assert s[0..|s|] == s;
      assert StripBounds(s, 0, |s|);
      StripUnique(s, Strip(s), s);
    }
  }

  /** Stripping twice is stripping once. */
  lemma StripIdempotent(s: string)
    ensures Strip(Strip(s)) == Strip(s)
  {
    var r := Strip(s);
    assert r[0..|r|] == r;
    assert StripBounds(r, 0, |r|);
    StripUnique(r, Strip(r), r);
  }

  /** Cut bounds of `s` shifted past added whitespace are cut bounds of the padded text. */
  lemma StripBoundsPadded(w1: string, s: string, w2: string, a: int, b: int)
    requires AllSpace(w1) && AllSpace(w2) && StripBounds(s, a, b)
    ensures StripBounds(w1 + s + w2, |w1| + a, |w1| + b)
    ensures (w1 + s + w2)[|w1| + a..|w1| + b] == s[a..b]
  {
    var t := w1 + s + w2;
    var a', b' := |w1| + a, |w1| + b;
    forall i | 0 <= i < a' ensures IsSpace(t[i]) {
      if i < |w1| { assert t[i] == w1[i]; } else { assert t[i] == s[i - |w1|]; }
    }
    forall i | b' <= i < |t| ensures IsSpace(t[i]) {
      if i < |w1| + |s| { assert t[i] == s[i - |w1|]; } else { assert t[i] == w2[i - |w1| - |s|]; }
    }
    assert a' < b' ==> t[a'] == s[a] && t[b' - 1] == s[b - 1];
    assert t[a'..b'] == s[a..b] by {
      forall k | 0 <= k < b - a ensures t[a'..b'][k] == s[a..b][k] { assert t[a' + k] == s[a + k]; }
    }
  }

  /** Whitespace added around a text does not change its strip. */
  lemma StripIgnoresPadding(w1: string, s: string, w2: string)
    requires AllSpace(w1) && AllSpace(w2)
    ensures Strip(w1 + s + w2) == Strip(s)
  {
    var r := Strip(s);
    var a, b :| StripBounds(s, a, b) && r == s[a..b];
    StripBoundsPadded(w1, s, w2, a, b);
    StripUnique(w1 + s + w2, Strip(w1 + s + w2), r);
  }

  /**
   * Python's `str.lower()` on one character, for the characters whose lower
   * case is a lower-case ASCII letter: `A`..`Z` and KELVIN SIGN (U+212A),
   * which lower-cases to `k`.  Every other character is kept; see `Lower`.
   */
  function LowerChar(c: char): char {
    if 'A' <= c <= 'Z' then (c as int + 32) as char
    else if c == '\U{212A}' then 'k'
    else c
  }

  /**
   * Python's `str.lower()`, exact wherever the result is compared with a
   * lower-case ASCII text: a character it keeps either lower-cases to itself
   * or to something that is not a lower-case ASCII letter.
   */
  function Lower(s: string): (r: string)
    ensures |r| == |s|
    // upper-case ASCII letters become their lower-case forms ...
    ensures forall i :: 0 <= i < |s| && 'A' <= s[i] <= 'Z' ==> 'a' <= r[i] <= 'z' && r[i] as int - s[i] as int == 32
    // ... no upper-case ASCII letter is left ...
    ensures forall i :: 0 <= i < |r| ==> !('A' <= r[i] <= 'Z')
    // ... and every character other than those and KELVIN SIGN is kept
    ensures forall i :: 0 <= i < |s| && !('A' <= s[i] <= 'Z') && s[i] != '\U{212A}' ==> r[i] == s[i]
  {
    seq(|s|, i requires 0 <= i < |s| => LowerChar(s[i]))
  }
}

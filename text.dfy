/** Python's `str.strip()` with no argument, on Dafny strings.

    `StickyNoteChat` decides whether a message or a new name is "empty" by
    comparing its stripped form with "". Python strips every character for
    which `str.isspace()` holds, at both ends, and keeps everything in
    between. */
module PyText {

  /** The characters Python's `str.isspace()` accepts: the ASCII controls
      TAB..CR, the four information separators, SPACE, NEL, NO-BREAK SPACE
      and the Unicode space separators, line separator and paragraph
      separator. */
  predicate IsSpace(c: char)
  {
    ('\t' <= c <= '\r')
    || ('\U{1C}' <= c <= '\U{1F}')
    || c == ' '
    || c == '\U{85}'
    || c == '\U{A0}'
    || c == '\U{1680}'
    || ('\U{2000}' <= c <= '\U{200A}')
    || c == '\U{2028}'
    || c == '\U{2029}'
    || c == '\U{202F}'
    || c == '\U{205F}'
    || c == '\U{3000}'
  }

  /** `s[lo..hi]` is all whitespace. */
  predicate SpaceRun(s: string, lo: nat, hi: nat)
    requires lo <= hi <= |s|
  {
    forall i :: lo <= i < hi ==> IsSpace(s[i])
  }

  /** Every character of `s` is whitespace (the empty string included). */
  predicate AllSpace(s: string)
  {
    SpaceRun(s, 0, |s|)
  }

  /** `s` neither starts nor ends with whitespace. */
  predicate Trimmed(s: string)
  {
    s == [] || (!IsSpace(s[0]) && !IsSpace(s[|s| - 1]))
  }

  /** The first index at or after `i` that does not hold whitespace, or
      `|s|` if there is none. */
  function SkipLeading(s: string, i: nat): (k: nat)
    requires i <= |s|
    ensures i <= k <= |s|
    ensures SpaceRun(s, i, k)
    ensures k < |s| ==> !IsSpace(s[k])
    decreases |s| - i
  {
    if i < |s| && IsSpace(s[i]) then SkipLeading(s, i + 1) else i
  }

  /** The end of `s[lo..j]` once the whitespace at its end is dropped: the
      least index `k` from which `s[k..j]` is all whitespace. */
  function SkipTrailing(s: string, lo: nat, j: nat): (k: nat)
    requires lo <= j <= |s|
    ensures lo <= k <= j
    ensures SpaceRun(s, k, j)
    ensures k > lo ==> !IsSpace(s[k - 1])
    decreases j
  {
    if j > lo && IsSpace(s[j - 1]) then SkipTrailing(s, lo, j - 1) else j
  }

  /** Where the stripped text starts in `s`. */
  function StripStart(s: string): (i: nat)
    ensures i <= |s|
  {
    SkipLeading(s, 0)
  }

  /** `str.strip()`: `s` without its leading and trailing whitespace.
      The result is the slice of `s` that starts where the leading
      whitespace ends and is followed in `s` by whitespace only; it is
      trimmed, and it is empty exactly when `s` is all whitespace. */
  function Strip(s: string): (r: string)
    ensures StripStart(s) + |r| <= |s|
    ensures r == s[StripStart(s)..StripStart(s) + |r|]
    ensures SpaceRun(s, 0, StripStart(s))
    ensures SpaceRun(s, StripStart(s) + |r|, |s|)
    ensures Trimmed(r)
    ensures r == [] <==> AllSpace(s)
  {
    var i := SkipLeading(s, 0);
    var j := SkipTrailing(s, i, |s|);
    s[i..j]
  }

  /** Whitespace before and after a trimmed string is exactly what
      `Strip` removes. */
  lemma StripPadded(pre: string, t: string, post: string)
    requires AllSpace(pre) && AllSpace(post) && Trimmed(t)
    ensures Strip(pre + t + post) == t
  {
    var s := pre + t + post;
    assert forall i :: 0 <= i < |pre| ==> s[i] == pre[i];
    assert forall i :: 0 <= i < |t| ==> s[|pre| + i] == t[i];
    assert forall i :: 0 <= i < |post| ==> s[|pre| + |t| + i] == post[i];
    if t != [] {
      assert SpaceRun(s, 0, |pre|) && !IsSpace(s[|pre|]);
      assert SkipLeading(s, 0) == |pre|;
      assert SpaceRun(s, |pre| + |t|, |s|) && !IsSpace(s[|pre| + |t| - 1]);
      assert SkipTrailing(s, |pre|, |s|) == |pre| + |t|;
      assert s[|pre|..|pre| + |t|] == t;
    } else {
      assert SpaceRun(s, 0, |s|) by {
        forall i | 0 <= i < |s| ensures IsSpace(s[i]) {
          if i >= |pre| { assert s[i] == post[i - |pre|]; }
        }
      }
    }
  }

  /** A trimmed string is its own stripped form. */
  lemma StripTrimmed(s: string)
    requires Trimmed(s)
    ensures Strip(s) == s
  {
    assert s == [] + s + [];
    StripPadded([], s, []);
  }

  /** `Strip` leaves a string alone exactly when it is already trimmed. */
  lemma StripFixedIff(s: string)
    ensures Strip(s) == s <==> Trimmed(s)
  {
    if Trimmed(s) {
      StripTrimmed(s);
    }
  }

  /** Stripping twice is stripping once. */
  lemma StripIdempotent(s: string)
    ensures Strip(Strip(s)) == Strip(s)
  {
    StripTrimmed(Strip(s));
  }
}

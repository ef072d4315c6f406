/** Whitespace trimming as Go's `strings.TrimSpace` does it, and its
    element-wise use on string lists. */
module Text {

  /** The characters Go's `unicode.IsSpace` reports as white space. */
  const SpaceChars: set<char> := {
    ' ', '\t', '\n', '\U{B}', '\U{C}', '\r', '\U{85}', '\U{A0}', '\U{1680}',
    '\U{2000}', '\U{2001}', '\U{2002}', '\U{2003}', '\U{2004}', '\U{2005}',
    '\U{2006}', '\U{2007}', '\U{2008}', '\U{2009}', '\U{200A}',
    '\U{2028}', '\U{2029}', '\U{202F}', '\U{205F}', '\U{3000}'
  }

  predicate IsSpace(c: char) {
    c in SpaceChars
  }

  predicate AllSpace(s: string) {
    forall i | 0 <= i < |s| :: IsSpace(s[i])
  }

  /** The first index at or after `i` whose character is not white space,
      or `|s|` if there is none (`SkipLeadingSpec`). */
  function SkipLeading(s: string, i: nat): (r: nat)
    requires i <= |s|
    ensures i <= r <= |s|
    decreases |s| - i
  {
    if i == |s| || !IsSpace(s[i]) then i else SkipLeading(s, i + 1)
  }

  lemma SkipLeadingSpec(s: string, i: nat)
    requires i <= |s|
    ensures forall k | i <= k < SkipLeading(s, i) :: IsSpace(s[k])
    ensures SkipLeading(s, i) < |s| ==> !IsSpace(s[SkipLeading(s, i)])
    decreases |s| - i
  {
    if i < |s| && IsSpace(s[i]) {
      SkipLeadingSpec(s, i + 1);
    }
  }

  /** The end of `s[lo..j]` once its trailing white space is dropped
      (`SkipTrailingSpec`). */
  function SkipTrailing(s: string, lo: nat, j: nat): (r: nat)
    requires lo <= j <= |s|
    ensures lo <= r <= j
    decreases j
  {
    if j == lo || !IsSpace(s[j - 1]) then j else SkipTrailing(s, lo, j - 1)
  }

  lemma SkipTrailingSpec(s: string, lo: nat, j: nat)
    requires lo <= j <= |s|
    ensures forall k | SkipTrailing(s, lo, j) <= k < j :: IsSpace(s[k])
    ensures SkipTrailing(s, lo, j) > lo ==> !IsSpace(s[SkipTrailing(s, lo, j) - 1])
    decreases j
  {
    if j > lo && IsSpace(s[j - 1]) {
      SkipTrailingSpec(s, lo, j - 1);
    }
  }

  /** `t` neither starts nor ends with white space. */
  predicate Unpadded(t: string) {
    t == [] || (!IsSpace(t[0]) && !IsSpace(t[|t| - 1]))
  }

  /** `t` is `s` with a white-space prefix and a white-space suffix cut off. */
  ghost predicate CutFrom(s: string, t: string) {
    exists i, j | 0 <= i <= j <= |s| ::
      && t == s[i..j]
      && (forall k | 0 <= k < i :: IsSpace(s[k]))
      && (forall k | j <= k < |s| :: IsSpace(s[k]))
  }

  /** `s` with leading and trailing white space removed (Go's
      `strings.TrimSpace`); `TrimSpaceCut` and `CutIsTrim` say what it is. */
  function TrimSpace(s: string): (t: string)
    ensures |t| <= |s|
  {
    var i := SkipLeading(s, 0);
    var j := SkipTrailing(s, i, |s|);
    s[i..j]
  }

  /** What is left is a contiguous part of `s`, everything cut off is white
      space, and the result neither starts nor ends with white space. */
  lemma TrimSpaceCut(s: string)
    ensures CutFrom(s, TrimSpace(s)) && Unpadded(TrimSpace(s))
  {
    var i := SkipLeading(s, 0);
    var j := SkipTrailing(s, i, |s|);
    SkipLeadingSpec(s, 0);
    SkipTrailingSpec(s, i, |s|);
    var t := s[i..j];
    assert t == TrimSpace(s);
    if t != [] {
      assert t[0] == s[i] && t[|t| - 1] == s[j - 1];
    }
    forall k | j <= k < |s| ensures IsSpace(s[k]) {
    }
  }

  /** Cutting white space off both ends has only one unpadded outcome, and
      it is the trimmed form. */
  lemma CutIsTrim(s: string, t: string)
    requires CutFrom(s, t) && Unpadded(t)
    ensures t == TrimSpace(s)
  {
    var i, j :| 0 <= i <= j <= |s| && t == s[i..j]
      && (forall k | 0 <= k < i :: IsSpace(s[k])) && (forall k | j <= k < |s| :: IsSpace(s[k]));
    var a := SkipLeading(s, 0);
    var b := SkipTrailing(s, a, |s|);
    SkipLeadingSpec(s, 0);
    SkipTrailingSpec(s, a, |s|);
    if t == [] {
      forall k | 0 <= k < |s| ensures IsSpace(s[k]) {
        if k >= i { assert k >= j; }
      }
      assert a == |s|;
    } else {
      assert !IsSpace(s[i]) by { assert t[0] == s[i]; }
      assert !IsSpace(s[j - 1]) by { assert t[|t| - 1] == s[j - 1]; }
      SameStart(s, i, a);
      SameEnd(s, a, j, b);
    }
  }

  /** Two indexes that both end a white-space prefix at a non-space
      character (or at the end) are the same. */
  lemma SameStart(s: string, i: nat, a: nat)
    requires i <= |s| && a <= |s|
    requires forall k | 0 <= k < i :: IsSpace(s[k])
    requires forall k | 0 <= k < a :: IsSpace(s[k])
    requires i < |s| ==> !IsSpace(s[i])
    requires a < |s| ==> !IsSpace(s[a])
    ensures i == a
  {
  }

  /** Two indexes above `lo` that both start a white-space suffix after a
      non-space character are the same. */
  lemma SameEnd(s: string, lo: nat, j: nat, b: nat)
    requires lo < j <= |s| && lo <= b <= |s|
    requires forall k | j <= k < |s| :: IsSpace(s[k])
    requires forall k | b <= k < |s| :: IsSpace(s[k])
    requires !IsSpace(s[j - 1])
    requires b > lo ==> !IsSpace(s[b - 1])
    ensures j == b
  {
  }

  /** A string that neither starts nor ends with white space is its own
      trimmed form. */
  lemma TrimSpaceUnpadded(s: string)
    requires Unpadded(s)
    ensures TrimSpace(s) == s
  {
    assert s == s[0..|s|];
    assert CutFrom(s, s);
    CutIsTrim(s, s);
  }

  lemma TrimSpaceIgnoresLeftPadding(p: string, t: string)
    requires AllSpace(p)
    ensures TrimSpace(p + t) == TrimSpace(t)
  {
    var s := p + t;
    var u := TrimSpace(t);
    TrimSpaceCut(t);
    var i, j :| 0 <= i <= j <= |t| && u == t[i..j]
      && (forall k | 0 <= k < i :: IsSpace(t[k])) && (forall k | j <= k < |t| :: IsSpace(t[k]));
    var n := |p|;
    ShiftedCut(s, n, i, j);
    assert CutFrom(s, u);
    CutIsTrim(s, u);
  }

  lemma ShiftedCut(s: string, n: nat, i: nat, j: nat)
    requires n + j <= |s| && i <= j
    requires forall k | 0 <= k < n :: IsSpace(s[k])
    requires forall k | 0 <= k < i :: IsSpace(s[n..][k])
    requires forall k | j <= k < |s| - n :: IsSpace(s[n..][k])
    ensures s[n + i..n + j] == s[n..][i..j]
    ensures forall k | 0 <= k < n + i :: IsSpace(s[k])
    ensures forall k | n + j <= k < |s| :: IsSpace(s[k])
  {
    forall k | n <= k < n + i ensures IsSpace(s[k]) {
      assert s[k] == s[n..][k - n];
    }
    forall k | n + j <= k < |s| ensures IsSpace(s[k]) {
      assert s[k] == s[n..][k - n];
    }
  }

  lemma TrimSpaceIgnoresRightPadding(t: string, q: string)
    requires AllSpace(q)
    ensures TrimSpace(t + q) == TrimSpace(t)
  {
    var s := t + q;
    var u := TrimSpace(t);
    TrimSpaceCut(t);
    var i, j :| 0 <= i <= j <= |t| && u == t[i..j]
      && (forall k | 0 <= k < i :: IsSpace(t[k])) && (forall k | j <= k < |t| :: IsSpace(t[k]));
    assert u == s[i..j];
    forall k | 0 <= k < i ensures IsSpace(s[k]) {
      assert s[k] == t[k];
    }
    forall k | j <= k < |s| ensures IsSpace(s[k]) {
      if k < |t| { assert s[k] == t[k]; } else { assert s[k] == q[k - |t|]; }
    }
    assert CutFrom(s, u);
    CutIsTrim(s, u);
  }

  /** White space around a string does not change its trimmed form: the
      remote service may add incidental white space to list elements, and
      trimming undoes it. */
  lemma TrimSpaceIgnoresPadding(p: string, t: string, q: string)
    requires AllSpace(p) && AllSpace(q)
    ensures TrimSpace(p + t + q) == TrimSpace(t)
  {
    TrimSpaceIgnoresRightPadding(p + t, q);
    TrimSpaceIgnoresLeftPadding(p, t);
  }

  /** Trimming twice is trimming once. */
  lemma TrimSpaceIdempotent(s: string)
    ensures TrimSpace(TrimSpace(s)) == TrimSpace(s)
  {
    TrimSpaceCut(s);
    TrimSpaceUnpadded(TrimSpace(s));
  }

  /** Every element of `xs` trimmed, in the same order (element by element
      in `TrimEachAt`). */
  function TrimEach(xs: seq<string>): (ys: seq<string>)
    ensures |ys| == |xs|
  {
    if xs == [] then [] else [TrimSpace(xs[0])] + TrimEach(xs[1..])
  }

  lemma {:induction false} TrimEachAt(xs: seq<string>, i: nat)
    requires i < |xs|
    ensures TrimEach(xs)[i] == TrimSpace(xs[i])
  {
    if i > 0 {
      TrimEachAt(xs[1..], i - 1);
    }
  }

  /** Trimming a list that was already trimmed changes nothing, so a list
      read back from the service and sent again is sent unchanged. */
  lemma TrimEachIdempotent(xs: seq<string>)
    ensures TrimEach(TrimEach(xs)) == TrimEach(xs)
  {
    forall i | 0 <= i < |xs| ensures TrimEach(TrimEach(xs))[i] == TrimEach(xs)[i] {
      TrimEachAt(TrimEach(xs), i);
      TrimEachAt(xs, i);
      TrimSpaceIdempotent(xs[i]);
    }
  }

  /** The trimming loop the resource runs over a list of certificates or
      audiences: a fresh list, one trimmed element per input element. */
  method TrimAll(xs: seq<string>) returns (ys: seq<string>)
    ensures ys == TrimEach(xs)
  {
    ys := [];
    var i := 0;
    while i < |xs|
      invariant 0 <= i <= |xs| && |ys| == i
      invariant forall k | 0 <= k < i :: ys[k] == TrimSpace(xs[k])
    {
      ys := ys + [TrimSpace(xs[i])];
      i := i + 1;
    }
    forall k | 0 <= k < |xs| ensures ys[k] == TrimEach(xs)[k] {
      TrimEachAt(xs, k);
    }
  }
}

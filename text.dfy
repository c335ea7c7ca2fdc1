/** Go's `strings.TrimSpace`, over code points. */
module Text {

  /** Go's `unicode.IsSpace`: the Latin-1 spaces and the White_Space code points above. */
  predicate IsSpace(c: char) {
    || c == '\t' || c == '\n' || c == '\U{000B}' || c == '\U{000C}' || c == '\r' || c == ' '
    || c == '\U{0085}' || c == '\U{00A0}' || c == '\U{1680}'
    || ('\U{2000}' <= c <= '\U{200A}')
    || c == '\U{2028}' || c == '\U{2029}' || c == '\U{202F}' || c == '\U{205F}' || c == '\U{3000}'
  }

  ghost predicate AllSpace(s: string) {
    forall i :: 0 <= i < |s| ==> IsSpace(s[i])
  }

  /** True when `s` neither starts nor ends with a space. */
  ghost predicate Trimmed(s: string) {
    s == [] || (!IsSpace(s[0]) && !IsSpace(s[|s| - 1]))
  }

  /** `s` is `r` at offset `i`, with only space before and after it. */
  ghost predicate PaddedAt(s: string, r: string, i: int) {
    && 0 <= i <= |s| - |r| && s[i..i + |r|] == r
    && (forall k :: 0 <= k < i ==> IsSpace(s[k]))
    && (forall k :: i + |r| <= k < |s| ==> IsSpace(s[k]))
  }

  /** The first index at or after `i` that is not a space, |s| if none. */
  function LeftEnd(s: string, i: nat): (j: nat)
    requires i <= |s|
    ensures i <= j <= |s|
    ensures forall k :: i <= k < j ==> IsSpace(s[k])
    ensures j == |s| || !IsSpace(s[j])
    decreases |s| - i
  {
    if i < |s| && IsSpace(s[i]) then LeftEnd(s, i + 1) else i
  }

  /** The end of `s[lo..j]` once its trailing spaces are dropped. */
  function RightEnd(s: string, lo: nat, j: nat): (e: nat)
    requires lo <= j <= |s|
    ensures lo <= e <= j
    ensures forall k :: e <= k < j ==> IsSpace(s[k])
    ensures e == lo || !IsSpace(s[e - 1])
    decreases j
  {
    if lo < j && IsSpace(s[j - 1]) then RightEnd(s, lo, j - 1) else j
  }

  /** `strings.TrimSpace`: `s` is the result with space before and after it, and the
      result itself neither starts nor ends with a space. */
  function TrimSpace(s: string): (r: string)
    ensures Trimmed(r)
    ensures exists i :: PaddedAt(s, r, i)
  {
    var i := LeftEnd(s, 0);
    var j := RightEnd(s, i, |s|);
    assert PaddedAt(s, s[i..j], i);
    s[i..j]
  }

  /** LeftEnd stops exactly at the first non-space. */
  lemma {:induction false} LeftEndAt(t: string, i: nat, k: nat)
    requires i <= k <= |t|
    requires forall m :: i <= m < k ==> IsSpace(t[m])
    requires k == |t| || !IsSpace(t[k])
    ensures LeftEnd(t, i) == k
    decreases k - i
  {
    if i < k {
      LeftEndAt(t, i + 1, k);
    }
  }

  /** RightEnd stops exactly after the last non-space. */
  lemma {:induction false} RightEndAt(t: string, lo: nat, j: nat, e: nat)
    requires lo <= e <= j <= |t|
    requires forall m :: e <= m < j ==> IsSpace(t[m])
    requires e == lo || !IsSpace(t[e - 1])
    ensures RightEnd(t, lo, j) == e
    decreases j - e
  {
    if e < j {
      RightEndAt(t, lo, j - 1, e);
    }
  }

  /** TrimSpace is determined by its contract: whatever space surrounds a trimmed string,
      trimming gives back exactly that string. */
  lemma TrimSpacePadded(a: string, s: string, b: string)
    requires AllSpace(a) && AllSpace(b) && Trimmed(s)
    ensures TrimSpace(a + s + b) == s
  {
    var t := a + s + b;
    var n := |a| + |s|;
    assert forall m :: 0 <= m < |a| ==> t[m] == a[m];
    assert forall m :: |a| <= m < n ==> t[m] == s[m - |a|];
    assert forall m :: n <= m < |t| ==> t[m] == b[m - n];
    if s == [] {
      LeftEndAt(t, 0, |t|);
      RightEndAt(t, |t|, |t|, |t|);
    } else {
      LeftEndAt(t, 0, |a|);
      RightEndAt(t, |a|, |t|, n);
      assert t[|a|..n] == s;
    }
  }

  /** Trimming twice is trimming once. */
  lemma TrimSpaceIdempotent(s: string)
    ensures TrimSpace(TrimSpace(s)) == TrimSpace(s)
  {
    var r := TrimSpace(s);
    assert [] + r + [] == r;
    TrimSpacePadded([], r, []);
  }
}

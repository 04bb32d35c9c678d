/**
 * Go's `strings.TrimSpace`, applied by tinyirc to every stdin line before it
 * is parsed and to every rendered inbound message before it is printed.
 */
module Text {

  /** Go's `unicode.IsSpace`: the Latin-1 spaces plus Unicode White_Space. */
  predicate IsSpace(c: char) {
    || c == '\t' || c == '\n' || c == '\U{000B}' || c == '\U{000C}' || c == '\r' || c == ' '
    || c == '\U{0085}' || c == '\U{00A0}' || c == '\U{1680}'
    || ('\U{2000}' <= c <= '\U{200A}')
    || c == '\U{2028}' || c == '\U{2029}' || c == '\U{202F}' || c == '\U{205F}' || c == '\U{3000}'
  }

  predicate AllSpace(s: string) {
    forall i :: 0 <= i < |s| ==> IsSpace(s[i])
  }

  /** The length of the longest all-space prefix of `s`. */
  function LeadingSpaces(s: string): (n: nat)
    ensures n <= |s|
    ensures forall i :: 0 <= i < n ==> IsSpace(s[i])
    ensures n < |s| ==> !IsSpace(s[n])
  {
    if |s| > 0 && IsSpace(s[0]) then 1 + LeadingSpaces(s[1..]) else 0
  }

  /** The length of the longest all-space suffix of `s`. */
  function TrailingSpaces(s: string): (n: nat)
    ensures n <= |s|
    ensures forall i :: |s| - n <= i < |s| ==> IsSpace(s[i])
    ensures n < |s| ==> !IsSpace(s[|s| - 1 - n])
  {
    if |s| > 0 && IsSpace(s[|s| - 1]) then 1 + TrailingSpaces(s[..|s| - 1]) else 0
  }

  /**
   * `strings.TrimSpace`: strip white space from the front, then from the back.
   * The result neither starts nor ends with a space.
   */
  function TrimSpace(s: string): (r: string)
    ensures |r| <= |s|
    ensures r == [] || (!IsSpace(r[0]) && !IsSpace(r[|r| - 1]))
  {
    if |s| > 0 && IsSpace(s[0]) then TrimSpace(s[1..])
    else if |s| > 0 && IsSpace(s[|s| - 1]) then TrimSpace(s[..|s| - 1])
    else s
  }

  /**
   * What TrimSpace keeps: the slice of `s` that starts right after its
   * leading spaces and is followed only by spaces; it is empty exactly when
   * `s` is all space.
   */
  lemma {:induction false} TrimSpaceSlice(s: string)
    ensures LeadingSpaces(s) + |TrimSpace(s)| <= |s|
    ensures TrimSpace(s) == s[LeadingSpaces(s)..LeadingSpaces(s) + |TrimSpace(s)|]
    ensures forall i :: LeadingSpaces(s) + |TrimSpace(s)| <= i < |s| ==> IsSpace(s[i])
    ensures TrimSpace(s) == [] <==> AllSpace(s)
  {
    var r := TrimSpace(s);
    if |s| > 0 && IsSpace(s[0]) {
      var t := s[1..];
      TrimSpaceSlice(t);
      assert LeadingSpaces(s) == 1 + LeadingSpaces(t);
      assert forall i :: 1 <= i < |s| ==> s[i] == t[i - 1];
    } else if |s| > 0 && IsSpace(s[|s| - 1]) {
      var t := s[..|s| - 1];
      TrimSpaceSlice(t);
      assert t[0] == s[0];
      assert LeadingSpaces(s) == 0 && LeadingSpaces(t) == 0;
      assert forall i :: 0 <= i < |t| ==> s[i] == t[i];
    } else if s != [] {
      assert LeadingSpaces(s) == 0;
    }
  }

  /** A string that is not all space splits into its leading spaces, the trimmed result and its trailing spaces. */
  lemma TrimSpaceSplit(s: string)
    requires !AllSpace(s)
    ensures LeadingSpaces(s) + |TrimSpace(s)| + TrailingSpaces(s) == |s|
  {
    TrimSpaceSlice(s);
    var r, l, n := TrimSpace(s), LeadingSpaces(s), TrailingSpaces(s);
    var e := l + |r|;
    assert r != [];
    assert s[e - 1] == r[|r| - 1];
  }

  /** Any split of `x` into spaces, a core with non-space ends, and spaces has TrimSpace(x) equal to that core. */
  lemma {:induction false} TrimSpaceUnique(x: string, n: nat, r: string)
    requires n + |r| <= |x| && x[n..n + |r|] == r
    requires r != [] && !IsSpace(r[0]) && !IsSpace(r[|r| - 1])
    requires forall i :: 0 <= i < n ==> IsSpace(x[i])
    requires forall i :: n + |r| <= i < |x| ==> IsSpace(x[i])
    ensures TrimSpace(x) == r
    decreases |x|
  {
    if n > 0 {
      var t := x[1..];
      assert t[n - 1..n - 1 + |r|] == r;
      assert forall i :: 0 <= i < |t| ==> t[i] == x[i + 1];
      TrimSpaceUnique(t, n - 1, r);
    } else if |x| > |r| {
      var t := x[..|x| - 1];
      assert x[0] == r[0];
      assert t[..|r|] == r;
      assert forall i :: 0 <= i < |t| ==> t[i] == x[i];
      TrimSpaceUnique(t, 0, r);
    } else {
      assert x == r;
    }
  }

  /** Trimming is idempotent: the printed and the parsed forms are already trimmed. */
  lemma TrimSpaceIdempotent(s: string)
    ensures TrimSpace(TrimSpace(s)) == TrimSpace(s)
  {
  }

  /** Surrounding spaces do not change what TrimSpace keeps. */
  lemma TrimSpacePadded(head: string, s: string, tail: string)
    requires AllSpace(head) && AllSpace(tail)
    ensures TrimSpace(head + s + tail) == TrimSpace(s)
  {
    TrimSpaceSlice(s);
    var r := TrimSpace(s);
    var x := head + s + tail;
    assert forall i :: 0 <= i < |head| ==> x[i] == head[i];
    assert forall i :: |head| <= i < |head| + |s| ==> x[i] == s[i - |head|];
    assert forall i :: |head| + |s| <= i < |x| ==> x[i] == tail[i - |head| - |s|];
    if r == [] {
      assert AllSpace(x);
      TrimSpaceSlice(x);
    } else {
      var n := |head| + LeadingSpaces(s);
      assert x[n..n + |r|] == r;
      TrimSpaceUnique(x, n, r);
    }
  }
}

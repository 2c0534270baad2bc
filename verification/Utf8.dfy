/** UTF-8 safe truncation of payload previews. Validity follows sections 3 and 4 of RFC 3629. */
module Utf8 {
  import opened Basics

  predicate Tail(b: byte) {
    0x80 <= b <= 0xBF
  }

  /** A byte that can start a character: anything but 10xxxxxx. */
  predicate RuneStart(b: byte) {
    !Tail(b)
  }

  /** The length of the well-formed character at the front of `s`, 0 if there is none. */
  function CharLength(s: bytes): (n: nat)
    ensures n <= 4 && n <= |s|
    ensures n > 0 ==> RuneStart(s[0])
    ensures forall i :: 1 <= i < n ==> Tail(s[i])
  {
    if s == [] then 0
    else if s[0] <= 0x7F then 1
    else if 0xC2 <= s[0] <= 0xDF then
      if |s| >= 2 && Tail(s[1]) then 2 else 0
    else if 0xE0 <= s[0] <= 0xEF then
      if |s| >= 3 && Tail(s[1]) && Tail(s[2])
         && (s[0] == 0xE0 ==> s[1] >= 0xA0) && (s[0] == 0xED ==> s[1] <= 0x9F)
      then 3 else 0
    else if 0xF0 <= s[0] <= 0xF4 then
      if |s| >= 4 && Tail(s[1]) && Tail(s[2]) && Tail(s[3])
         && (s[0] == 0xF0 ==> s[1] >= 0x90) && (s[0] == 0xF4 ==> s[1] <= 0x8F)
      then 4 else 0
    else 0
  }

  predicate Valid(s: bytes) {
    s == [] || (CharLength(s) > 0 && Valid(s[CharLength(s)..]))
  }

  /** A prefix of valid text is valid exactly when it ends at the start of a character or at the end. */
  lemma {:induction false} ValidPrefixIff(s: bytes, p: nat)
    requires Valid(s) && p <= |s|
    ensures Valid(s[..p]) <==> p == |s| || RuneStart(s[p])
    decreases |s|
  {
    if p == |s| {
      assert s[..p] == s;
    } else if p > 0 {
      var n := CharLength(s);
      if p < n {
        CutCharIsMalformed(s, p);
      } else {
        ValidPrefixIff(s[n..], p - n);
        assert s[..p][n..] == s[n..][..p - n];
        assert s[n..][p - n..] == s[p..];
        SameChar(s, p);
        if p < |s| {
          assert s[n..][p - n] == s[p];
        }
      }
    }
  }

  lemma CutCharIsMalformed(s: bytes, p: nat)
    requires 0 < p < CharLength(s)
    ensures CharLength(s[..p]) == 0 && Tail(s[p])
  {
  }

  lemma SameChar(s: bytes, p: nat)
    requires 0 < CharLength(s) <= p <= |s|
    ensures CharLength(s[..p]) == CharLength(s)
  {
  }

  /** A character of valid text is at most four bytes, so at most three in a row cannot start one. */
  lemma {:induction false} StartWithinFour(s: bytes, p: nat)
    requires Valid(s) && 3 <= p < |s|
    ensures RuneStart(s[p]) || RuneStart(s[p - 1]) || RuneStart(s[p - 2]) || RuneStart(s[p - 3])
    decreases |s|
  {
    var n := CharLength(s);
    if p - n >= 3 {
      StartWithinFour(s[n..], p - n);
    } else if p >= n {
      assert s[n..][0] == s[n];
      assert CharLength(s[n..]) > 0;
    }
  }

  /** The last position up to `n` where a character can start. */
  function LastStart(s: bytes, n: nat): (k: nat)
    requires n < |s|
    ensures k <= n && (k == 0 || RuneStart(s[k]))
    ensures forall i :: k < i <= n ==> Tail(s[i])
  {
    if n == 0 || RuneStart(s[n]) then n else LastStart(s, n - 1)
  }

  function Preview(s: bytes, maxLen: nat): bytes {
    if |s| <= maxLen then s else s[..LastStart(s, maxLen)]
  }

  method Truncate(s: bytes, maxLen: nat) returns (t: bytes)
    ensures t == Preview(s, maxLen)
  {
    if |s| <= maxLen { return s; }
    var n := maxLen;
    while n > 0 && !RuneStart(s[n])
      invariant 0 <= n <= maxLen && LastStart(s, n) == LastStart(s, maxLen)
    {
      n := n - 1;
    }
    return s[..n];
  }

  /** The preview of valid text is its longest valid prefix of at most `maxLen` bytes, and gives up
      fewer than four bytes below the limit. */
  lemma PreviewIsLongestValidPrefix(s: bytes, maxLen: nat)
    requires Valid(s)
    ensures var t := Preview(s, maxLen);
            && t <= s && |t| <= maxLen && Valid(t)
            && (forall p: nat :: p <= |s| && p <= maxLen && Valid(s[..p]) ==> p <= |t|)
            && (|s| > maxLen ==> |t| > maxLen - 4)
  {
    var t := Preview(s, maxLen);
    if |s| > maxLen {
      ValidPrefixIff(s, |t|);
      forall p: nat | p <= maxLen && Valid(s[..p])
        ensures p <= |t|
      {
        ValidPrefixIff(s, p);
      }
      if |t| + 4 <= maxLen {
        StartWithinFour(s, maxLen);
      }
    }
  }
}

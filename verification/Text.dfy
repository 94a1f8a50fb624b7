/** Strings as the program compares and searches them. */
module Text {

  /** Lexicographic order of Go strings. */
  predicate LexLess(a: string, b: string)
  {
    if b == "" then false
    else if a == "" then true
    else a[0] < b[0] || (a[0] == b[0] && LexLess(a[1..], b[1..]))
  }

  lemma {:induction false} LexTotal(a: string, b: string)
    ensures LexLess(a, b) || a == b || LexLess(b, a)
  {
    if a != "" && b != "" && a[0] == b[0] {
      LexTotal(a[1..], b[1..]);
      assert a == [a[0]] + a[1..] && b == [b[0]] + b[1..];
    }
  }

  lemma {:induction false} LexTransitive(a: string, b: string, c: string)
    requires LexLess(a, b) && LexLess(b, c)
    ensures LexLess(a, c)
  {
    if a != "" && a[0] == b[0] == c[0] {
      LexTransitive(a[1..], b[1..], c[1..]);
    }
  }

  lemma {:induction false} LexIrreflexive(a: string)
    ensures !LexLess(a, a)
  {
    if a != "" {
      LexIrreflexive(a[1..]);
    }
  }

  // ------------------------------------------------------------------- search

  /** sub occurs in s at position i. */
  predicate At(s: string, sub: string, i: int)
  {
    0 <= i && i + |sub| <= |s| && s[i..i + |sub|] == sub
  }

  function IndexFrom(s: string, sub: string, i: nat): (r: int)
    ensures r == -1 ==> forall k :: k >= i ==> !At(s, sub, k)
    ensures r != -1 ==> r >= i && At(s, sub, r) && forall k :: i <= k < r ==> !At(s, sub, k)
    decreases |s| - i
  {
    if i + |sub| > |s| then -1
    else if At(s, sub, i) then i
    else IndexFrom(s, sub, i + 1)
  }

  /** Position of the first occurrence, -1 if there is none. */
  function Index(s: string, sub: string): int
  {
    IndexFrom(s, sub, 0)
  }

  function LastIndexBefore(s: string, sub: string, n: int): (r: int)
    ensures r == -1 ==> forall k :: k < n ==> !At(s, sub, k)
    ensures r != -1 ==> r < n && At(s, sub, r) && forall k :: r < k < n ==> !At(s, sub, k)
    decreases n
  {
    if n <= 0 then -1
    else if At(s, sub, n - 1) then n - 1
    else LastIndexBefore(s, sub, n - 1)
  }

  /** Position of the last occurrence, -1 if there is none. */
  function LastIndex(s: string, sub: string): (r: int)
    ensures r == -1 ==> forall k :: !At(s, sub, k)
    ensures r != -1 ==> At(s, sub, r) && forall k :: k > r ==> !At(s, sub, k)
  {
    LastIndexBefore(s, sub, |s| + 1)
  }

  /** An occurrence with none before it is the first one. */
  lemma IndexIs(s: string, sub: string, i: nat)
    requires At(s, sub, i) && forall k :: 0 <= k < i ==> !At(s, sub, k)
    ensures Index(s, sub) == i
  {
  }

  lemma LastIndexIs(s: string, sub: string, i: nat)
    requires At(s, sub, i) && forall k :: k > i ==> !At(s, sub, k)
    ensures LastIndex(s, sub) == i
  {
  }

  /** Where a single character occurs. */
  lemma AtChar(s: string, c: char, i: int)
    ensures At(s, [c], i) <==> 0 <= i < |s| && s[i] == c
  {
    if 0 <= i < |s| {
      assert s[i..i + 1] == [s[i]];
    }
  }

  /** An occurrence starts with the first character of what was searched. */
  lemma AtFirst(s: string, sub: string, i: int)
    requires At(s, sub, i) && sub != ""
    ensures s[i] == sub[0]
  {
    assert s[i..i + |sub|][0] == s[i];
  }

  /** What was put behind a prefix occurs right there. */
  lemma AtMiddle(a: string, sub: string, b: string)
    ensures At(a + sub + b, sub, |a|)
  {
    assert (a + sub + b)[|a|..|a| + |sub|] == sub;
  }
}

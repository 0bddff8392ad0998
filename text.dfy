/**
  String and sequence helpers that stand for the handful of Python built-ins
  the program relies on: `str.startswith`, slicing `s[:n]`, `str.split(c)[0]`
  and the `in` test on strings.
 */
module Text {

  /** `s.startswith(p)`. */
  predicate StartsWith(s: string, p: string)
  {
    |p| <= |s| && s[..|p|] == p
  }

  /** Python's `s[:n]` for a non-negative `n`: the first `n` elements, or all of `s`. */
  function Take<T>(s: seq<T>, n: nat): (r: seq<T>)
    ensures |r| == if |s| <= n then |s| else n
    ensures r == s[..|r|]
  {
    if |s| <= n then s else s[..n]
  }

  /** Taking from a longer sequence whose first part already fills the limit. */
  lemma {:induction false} TakeOfTake<T>(a: seq<T>, b: seq<T>, n: nat)
    ensures Take(a + Take(b, n), n) == Take(a + b, n)
  {
    var l := Take(a + Take(b, n), n);
    var r := Take(a + b, n);
    assert |l| == |r|;
    forall k | 0 <= k < |l|
      ensures l[k] == r[k]
    {
      if k >= |a| {
        assert l[k] == Take(b, n)[k - |a|];
        assert r[k] == b[k - |a|];
      }
    }
  }

  /** The elements of `s` in the opposite order. */
  function Reversed<T>(s: seq<T>): (r: seq<T>)
    ensures |r| == |s|
    ensures forall k :: 0 <= k < |s| ==> r[k] == s[|s| - 1 - k]
  {
    if s == [] then [] else Reversed(s[1..]) + [s[0]]
  }

  /** Reversing `s + [x]` puts `x` first. */
  lemma {:induction false} ReversedSnoc<T>(s: seq<T>, x: T)
    ensures Reversed(s + [x]) == [x] + Reversed(s)
  {
    var l, r := Reversed(s + [x]), [x] + Reversed(s);
    forall k | 0 <= k < |l|
      ensures l[k] == r[k]
    {
      if k > 0 {
        assert l[k] == (s + [x])[|s| - k];
      }
    }
  }

  /** `s.split(c)[0]`: everything before the first `c`, or the whole of `s` when it has none. */
  function Before(s: string, c: char): (r: string)
    ensures |r| <= |s| && r == s[..|r|]
    ensures c !in r
    ensures |r| < |s| ==> s[|r|] == c
  {
    if s == [] || s[0] == c then [] else [s[0]] + Before(s[1..], c)
  }

  /** `(a + c + b).split(c)[0] == a` when `a` holds no `c`. */
  lemma {:induction false} BeforeFirst(a: string, c: char, b: string)
    requires c !in a
    ensures Before(a + [c] + b, c) == a
  {
    if a != [] {
      assert (a + [c] + b)[1..] == a[1..] + [c] + b;
      BeforeFirst(a[1..], c, b);
    }
  }

  /** `needle in s` on Python strings: some position of `s` starts with `needle`. */
  function Contains(s: string, needle: string): (r: bool)
    ensures r <==> exists i :: 0 <= i <= |s| && StartsWith(s[i..], needle)
  {
    if StartsWith(s, needle) then
      assert StartsWith(s[0..], needle);
      true
    else if s == [] then
      false
    else
      var r := Contains(s[1..], needle);
      assert forall i :: 1 <= i <= |s| ==> s[i..] == s[1..][i - 1..];
      r
  }

  /** A needle found inside a longer one is found wherever the longer one is. */
  lemma {:induction false} ContainsPrefixOfNeedle(s: string, needle: string, longer: string)
    requires StartsWith(longer, needle)
    requires Contains(s, longer)
    ensures Contains(s, needle)
  {
    var i :| 0 <= i <= |s| && StartsWith(s[i..], longer);
    assert s[i..][..|needle|] == longer[..|needle|];
    assert StartsWith(s[i..], needle);
  }
}

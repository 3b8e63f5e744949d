/** Generic sequence helpers (filter, reverse, prefix, subsequence) with the facts
    the views and queries rely on. */
module Seqs {

  /** Keeps the elements that satisfy `p`, in their original order (Array.prototype.filter). */
  function Filter<T(==)>(s: seq<T>, p: T -> bool): (r: seq<T>)
    ensures |r| <= |s|
    ensures forall i :: 0 <= i < |r| ==> p(r[i]) && r[i] in s
    ensures forall i :: 0 <= i < |s| && p(s[i]) ==> s[i] in r
  {
    if s == [] then [] else if p(s[0]) then [s[0]] + Filter(s[1..], p) else Filter(s[1..], p)
  }

  /** `sub` can be obtained from `s` by deleting elements (order is preserved). */
  predicate IsSubsequence<T(==)>(sub: seq<T>, s: seq<T>)
  {
    if sub == [] then true
    else if s == [] then false
    else if sub[0] == s[0] then IsSubsequence(sub[1..], s[1..])
    else IsSubsequence(sub, s[1..])
  }

  lemma {:induction false} SubsequenceOfTail<T>(sub: seq<T>, s: seq<T>)
    requires |s| > 0 && IsSubsequence(sub, s[1..])
    ensures IsSubsequence(sub, s)
    decreases |s|, 0
  {
    if sub != [] && sub[0] == s[0] {
      // sub is a subsequence of s[1..]; so sub[1..] is too, and it matches after s[0]
      SubsequenceDropHead(sub, s[1..]);
    }
  }

  lemma {:induction false} SubsequenceDropHead<T>(sub: seq<T>, s: seq<T>)
    requires |sub| > 0 && IsSubsequence(sub, s)
    ensures IsSubsequence(sub[1..], s)
    decreases |s|, 1
  {
    if s == [] {
    } else if sub[0] == s[0] {
      if sub[1..] != [] {
        SubsequenceOfTail(sub[1..], s);
      }
    } else {
      SubsequenceDropHead(sub, s[1..]);
      if sub[1..] != [] {
        SubsequenceOfTail(sub[1..], s);
      }
    }
  }

  lemma {:induction false} SubsequenceExtend<T>(sub: seq<T>, s: seq<T>, x: T)
    requires IsSubsequence(sub, s)
    ensures IsSubsequence(sub, s + [x])
    decreases |s|
  {
    if sub != [] && s != [] {
      assert (s + [x])[1..] == s[1..] + [x];
      if sub[0] == s[0] {
        SubsequenceExtend(sub[1..], s[1..], x);
      } else {
        SubsequenceExtend(sub, s[1..], x);
      }
    }
  }

  lemma {:induction false} SubsequenceAppend<T>(sub: seq<T>, s: seq<T>, x: T)
    requires IsSubsequence(sub, s)
    ensures IsSubsequence(sub + [x], s + [x])
    decreases |s|
  {
    if s == [] {
      assert sub == [];
      assert IsSubsequence([x][1..], [x][1..]);
    } else {
      assert (s + [x])[1..] == s[1..] + [x];
      if sub == [] {
        SubsequenceAppend(sub, s[1..], x);
        SubsequenceOfTail(sub + [x], s + [x]);
      } else if sub[0] == s[0] {
        SubsequenceAppend(sub[1..], s[1..], x);
        assert (sub + [x])[1..] == sub[1..] + [x];
      } else {
        SubsequenceAppend(sub, s[1..], x);
      }
    }
  }

  /** A filter result is an order-preserving sub-list of its input. */
  lemma {:induction false} FilterIsSubsequence<T>(s: seq<T>, p: T -> bool)
    ensures IsSubsequence(Filter(s, p), s)
  {
    if s != [] {
      FilterIsSubsequence(s[1..], p);
      if !p(s[0]) {
        SubsequenceOfTail(Filter(s[1..], p), s);
      } else {
        assert Filter(s, p)[1..] == Filter(s[1..], p);
      }
    }
  }

  /** Filtering a list extended by one element extends the filtered list by that element
      when it passes. */
  lemma {:induction false} FilterAppend<T>(s: seq<T>, x: T, p: T -> bool)
    ensures Filter(s + [x], p) == Filter(s, p) + (if p(x) then [x] else [])
  {
    if s == [] {
      assert [x][1..] == [];
    } else {
      assert (s + [x])[1..] == s[1..] + [x];
      FilterAppend(s[1..], x, p);
    }
  }

  /** Filtering with a predicate that holds everywhere on `s` changes nothing. */
  lemma {:induction false} FilterAll<T>(s: seq<T>, p: T -> bool)
    requires forall i :: 0 <= i < |s| ==> p(s[i])
    ensures Filter(s, p) == s
  {
    if s != [] {
      FilterAll(s[1..], p);
    }
  }

  function Reverse<T>(s: seq<T>): (r: seq<T>)
    ensures |r| == |s|
    ensures forall i :: 0 <= i < |s| ==> r[i] == s[|s| - 1 - i]
  {
    if s == [] then [] else Reverse(s[1..]) + [s[0]]
  }


  /** The first `n` elements, or all of them when there are fewer (Array.prototype.slice(0, n)). */
  function Take<T>(s: seq<T>, n: nat): (r: seq<T>)
    ensures |r| == if |s| < n then |s| else n
    ensures r == s[..|r|]
  {
    if |s| <= n then s else s[..n]
  }

  /** An element before position `n` is in the first `n` elements. */
  lemma PrefixMember<T>(s: seq<T>, n: nat, p: nat)
    ensures p < n <= |s| ==> s[p] in s[..n]
  {
    if p < n <= |s| {
      assert s[..n][p] == s[p];
    }
  }

  /** A non-empty sequence is its first elements followed by its last, also as a multiset. */
  lemma InitLast<T>(s: seq<T>)
    requires |s| > 0
    ensures s == s[..|s| - 1] + [s[|s| - 1]]
    ensures multiset(s) == multiset(s[..|s| - 1]) + multiset{s[|s| - 1]}
  {
    assert s == s[..|s| - 1] + [s[|s| - 1]];
  }

  function Min(a: int, b: int): int { if a < b then a else b }
}

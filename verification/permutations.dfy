/** Permutations of `0..n-1` and the multiset facts the shuffle relies on. */
module Permutations {

  /** The identity order `[0, 1, ..., n-1]`. */
  function Range(n: nat): (r: seq<int>)
    ensures |r| == n && forall k :: 0 <= k < n ==> r[k] == k
  {
    seq(n, k => k)
  }

  /** `p` is a rearrangement of `0..n-1`. */
  ghost predicate IsPermutation(p: seq<int>, n: nat) {
    multiset(p) == multiset(Range(n))
  }

  predicate Distinct<T(==)>(s: seq<T>) {
    forall a, b :: 0 <= a < b < |s| ==> s[a] != s[b]
  }

  lemma {:induction false} DistinctCountsOnce<T>(s: seq<T>, x: T)
    requires Distinct(s)
    ensures multiset(s)[x] <= 1
  {
    if s != [] {
      var t := s[1..];
      assert s == [s[0]] + t;
      assert Distinct(t) by {
        forall a, b | 0 <= a < b < |t| ensures t[a] != t[b] {
          assert t[a] == s[a + 1] && t[b] == s[b + 1];
        }
      }
      DistinctCountsOnce(t, x);
      if s[0] == x {
        assert x !in t by {
          forall b | 0 <= b < |t| ensures t[b] != x {
            assert t[b] == s[b + 1];
          }
        }
      }
    }
  }

  lemma TwoPositionsCountTwice<T>(s: seq<T>, a: nat, b: nat)
    requires a < b < |s| && s[a] == s[b]
    ensures multiset(s)[s[a]] >= 2
  {
    assert s == s[..a] + [s[a]] + s[a + 1..b] + [s[b]] + s[b + 1..];
  }

  lemma {:induction false} RangeIsDistinct(n: nat)
    ensures Distinct(Range(n))
  {
  }

  /** Every value of `0..n-1` occurs once in a permutation, and nothing else
      occurs: the permutation is a bijection on `0..n-1`. */
  lemma PermutationFacts(p: seq<int>, n: nat)
    requires IsPermutation(p, n)
    ensures |p| == n
    ensures forall k :: 0 <= k < n ==> 0 <= p[k] < n
    ensures Distinct(p)
    ensures forall v :: 0 <= v < n ==> v in p
  {
    assert |p| == |multiset(p)| == |multiset(Range(n))| == n;
    forall k | 0 <= k < n ensures 0 <= p[k] < n {
      assert p[k] in multiset(Range(n));
    }
    forall a, b | 0 <= a < b < |p| ensures p[a] != p[b] {
      if p[a] == p[b] {
        TwoPositionsCountTwice(p, a, b);
        RangeIsDistinct(n);
        DistinctCountsOnce(Range(n), p[a]);
        assert false;
      }
    }
    forall v | 0 <= v < n ensures v in p {
      assert Range(n)[v] == v;
      assert v in multiset(Range(n));
    }
  }

  /** Exchanging two entries keeps a permutation a permutation. */
  lemma SwapKeepsPermutation(p: seq<int>, n: nat, i: nat, j: nat)
    requires IsPermutation(p, n) && i < |p| && j < |p|
    ensures IsPermutation(p[i := p[j]][j := p[i]], n)
  {
  }
}

/** JavaScript's array `filter`, and what it means for the result to keep the input's order. */
module Seqs {

  /** `a` can be obtained from `b` by deleting elements: `a` is an order-preserving subsequence of `b`. */
  ghost predicate SubsequenceOf<T>(a: seq<T>, b: seq<T>)
    decreases |b|
  {
    |a| == 0 || (|b| > 0 && ((a[0] == b[0] && SubsequenceOf(a[1..], b[1..])) || SubsequenceOf(a, b[1..])))
  }

  lemma {:induction false} SubsequenceReflexive<T>(a: seq<T>)
    ensures SubsequenceOf(a, a)
    decreases |a|
  {
    if |a| > 0 {
      SubsequenceReflexive(a[1..]);
    }
  }

  /**
   * `s.filter(p)`: the result keeps, in order, exactly the occurrences of the
   * elements that satisfy `p`.
   */
  function Filter<T(!new)>(s: seq<T>, p: T -> bool): (r: seq<T>)
    ensures |r| <= |s|
    ensures forall x :: x in r <==> x in s && p(x)
    ensures forall x :: multiset(r)[x] == if p(x) then multiset(s)[x] else 0
    ensures SubsequenceOf(r, s)
    decreases |s|
  {
    if |s| == 0 then []
    else
      var rest := Filter(s[1..], p);
      assert s == [s[0]] + s[1..];
      if p(s[0]) then [s[0]] + rest else rest
  }

  /** The first element kept by the filter is the first element of `s` that satisfies `p`. */
  lemma {:induction false} FilterFirst<T(!new)>(s: seq<T>, p: T -> bool)
    requires |Filter(s, p)| > 0
    ensures exists i :: 0 <= i < |s| && p(s[i]) && Filter(s, p)[0] == s[i] && forall j :: 0 <= j < i ==> !p(s[j])
    decreases |s|
  {
    if !p(s[0]) {
      FilterFirst(s[1..], p);
      var i :| 0 <= i < |s| - 1 && p(s[1..][i]) && Filter(s[1..], p)[0] == s[1..][i]
               && forall j :: 0 <= j < i ==> !p(s[1..][j]);
      assert forall j :: 0 <= j < i + 1 ==> !p(s[j]) by {
        forall j | 0 <= j < i + 1 ensures !p(s[j]) {
          if j > 0 { assert s[j] == s[1..][j - 1]; }
        }
      }
    } else {
      assert Filter(s, p)[0] == s[0];
    }
  }

  /** No element satisfies `p` exactly when the filter keeps nothing. */
  lemma FilterEmpty<T(!new)>(s: seq<T>, p: T -> bool)
    ensures |Filter(s, p)| == 0 <==> forall j :: 0 <= j < |s| ==> !p(s[j])
  {
    if |Filter(s, p)| == 0 {
      forall j | 0 <= j < |s| ensures !p(s[j]) {
        assert s[j] in s;
      }
    } else {
      var x := Filter(s, p)[0];
      assert x in Filter(s, p);
      var j :| 0 <= j < |s| && s[j] == x;
    }
  }

  ghost predicate OnlyIndex<T>(s: seq<T>, p: T -> bool, i: int)
  {
    0 <= i < |s| && p(s[i]) && forall j :: 0 <= j < |s| && p(s[j]) ==> j == i
  }

  lemma {:induction false} CountOneHasOnlyIndex<T(!new)>(s: seq<T>, p: T -> bool)
    requires |Filter(s, p)| == 1
    ensures exists i :: OnlyIndex(s, p, i)
    decreases |s|
  {
    var t := s[1..];
    if p(s[0]) {
      FilterEmpty(t, p);
      forall j | 0 < j < |s| ensures !p(s[j]) {
        assert s[j] == t[j - 1];
      }
      assert OnlyIndex(s, p, 0);
    } else {
      CountOneHasOnlyIndex(t, p);
      var i :| OnlyIndex(t, p, i);
      forall j | 0 <= j < |s| && p(s[j]) ensures j == i + 1 {
        assert j > 0;
        assert s[j] == t[j - 1];
      }
      assert OnlyIndex(s, p, i + 1);
    }
  }

  lemma {:induction false} OnlyIndexCountsOne<T(!new)>(s: seq<T>, p: T -> bool, i: int)
    requires OnlyIndex(s, p, i)
    ensures |Filter(s, p)| == 1
    decreases |s|
  {
    var t := s[1..];
    if i == 0 {
      forall j | 0 <= j < |t| ensures !p(t[j]) {
        assert t[j] == s[j + 1];
      }
      FilterEmpty(t, p);
    } else {
      forall j | 0 <= j < |t| && p(t[j]) ensures j == i - 1 {
        assert t[j] == s[j + 1];
      }
      assert t[i - 1] == s[i];
      OnlyIndexCountsOne(t, p, i - 1);
    }
  }

  /** The filter keeps exactly one element when exactly one index satisfies `p`. */
  lemma CountIsOne<T(!new)>(s: seq<T>, p: T -> bool)
    ensures |Filter(s, p)| == 1 <==> exists i :: OnlyIndex(s, p, i)
  {
    if |Filter(s, p)| == 1 {
      CountOneHasOnlyIndex(s, p);
    }
    if exists i :: OnlyIndex(s, p, i) {
      var i :| OnlyIndex(s, p, i);
      OnlyIndexCountsOne(s, p, i);
    }
  }

  /** Filtering by `p` keeps everything exactly when every element satisfies `p`. */
  lemma {:induction false} FilterKeepsAll<T(!new)>(s: seq<T>, p: T -> bool)
    requires forall x :: x in s ==> p(x)
    ensures Filter(s, p) == s
    decreases |s|
  {
    if |s| > 0 {
      FilterKeepsAll(s[1..], p);
      assert [s[0]] + s[1..] == s;
    }
  }

  /** Two successive filters are one filter by the conjunction. */
  lemma {:induction false} FilterFilter<T(!new)>(s: seq<T>, p: T -> bool, q: T -> bool, pq: T -> bool)
    requires forall x :: pq(x) == (p(x) && q(x))
    ensures Filter(Filter(s, p), q) == Filter(s, pq)
    decreases |s|
  {
    if |s| > 0 {
      FilterFilter(s[1..], p, q, pq);
    }
  }

  /** Filtering by two predicates that agree everywhere gives the same list. */
  lemma {:induction false} FilterExt<T(!new)>(s: seq<T>, p: T -> bool, q: T -> bool)
    requires forall x :: p(x) == q(x)
    ensures Filter(s, p) == Filter(s, q)
    decreases |s|
  {
    if |s| > 0 {
      FilterExt(s[1..], p, q);
    }
  }

  /** Filtering distributes over concatenation. */
  lemma {:induction false} FilterAppend<T(!new)>(s: seq<T>, t: seq<T>, p: T -> bool)
    ensures Filter(s + t, p) == Filter(s, p) + Filter(t, p)
    decreases |s|
  {
    if |s| > 0 {
      assert (s + t)[1..] == s[1..] + t;
      FilterAppend(s[1..], t, p);
    } else {
      assert s + t == t;
    }
  }

  /**
   * `if (c) list = list.filter(p)`: a filter applied only when `c` holds is the
   * filter by "not c, or p".
   */
  lemma FilterWhen<T(!new)>(s: seq<T>, c: bool, p: T -> bool, cp: T -> bool)
    requires forall x :: cp(x) == (!c || p(x))
    ensures (if c then Filter(s, p) else s) == Filter(s, cp)
  {
    if c {
      FilterExt(s, p, cp);
    } else {
      FilterKeepsAll(s, cp);
    }
  }

  /** Every element is kept by exactly one of a predicate and its negation. */
  lemma {:induction false} FilterPartition<T(!new)>(s: seq<T>, p: T -> bool, notP: T -> bool)
    requires forall x :: notP(x) == !p(x)
    ensures |Filter(s, p)| + |Filter(s, notP)| == |s|
    decreases |s|
  {
    if |s| > 0 {
      FilterPartition(s[1..], p, notP);
    }
  }

  /** The number of elements satisfying `p`: `s.filter(p).length`. */
  function CountWhere<T(!new)>(s: seq<T>, p: T -> bool): (n: nat)
    ensures n <= |s|
    ensures n == 0 <==> forall x :: x in s ==> !p(x)
  {
    |Filter(s, p)|
  }

  /** Elements satisfying pairwise exclusive predicates are counted at most once in all. */
  lemma {:induction false} ExclusiveCountsBounded<T(!new)>(s: seq<T>, p: T -> bool, q: T -> bool, r: T -> bool)
    requires forall x :: !(p(x) && q(x)) && !(p(x) && r(x)) && !(q(x) && r(x))
    ensures CountWhere(s, p) + CountWhere(s, q) + CountWhere(s, r) <= |s|
    decreases |s|
  {
    if |s| > 0 {
      ExclusiveCountsBounded(s[1..], p, q, r);
    }
  }

  /** `s.reverse()` on a copy. */
  function Reverse<T>(s: seq<T>): (r: seq<T>)
    ensures |r| == |s|
    ensures forall i :: 0 <= i < |s| ==> r[i] == s[|s| - 1 - i]
    decreases |s|
  {
    if |s| == 0 then [] else [s[|s| - 1]] + Reverse(s[..|s| - 1])
  }
}

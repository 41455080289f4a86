/** Kotlin's `List.filter` and the order facts used about it. */
module Seqs {
  import opened Wrappers

  /** `s.filter(p)`: the elements satisfying `p`, in their original order. */
  function Filter<T(!new)>(s: seq<T>, p: T -> bool): (r: seq<T>)
    ensures |r| <= |s|
    ensures forall x :: x in r <==> x in s && p(x)
    ensures forall i :: 0 <= i < |r| ==> p(r[i])
  {
    if s == [] then []
    else (if p(s[0]) then [s[0]] else []) + Filter(s[1..], p)
  }

  /** `a` can be obtained from `b` by deleting elements: the order of what
      is kept does not change. */
  predicate IsSubsequence<T(==)>(a: seq<T>, b: seq<T>)
    decreases |b|
  {
    if a == [] then true
    else if b == [] then false
    else (a[0] == b[0] && IsSubsequence(a[1..], b[1..])) || IsSubsequence(a, b[1..])
  }

  lemma {:induction false} SubsequenceReflexive<T>(s: seq<T>)
    ensures IsSubsequence(s, s)
  {
    if s != [] {
      SubsequenceReflexive(s[1..]);
    }
  }

  /** Whatever a subsequence holds, the whole sequence holds. */
  lemma {:induction false} SubsequenceMembers<T>(a: seq<T>, b: seq<T>, x: T)
    requires IsSubsequence(a, b) && x in a
    ensures x in b
    decreases |b|
  {
    if a[0] == b[0] && IsSubsequence(a[1..], b[1..]) {
      if x != a[0] {
        SubsequenceMembers(a[1..], b[1..], x);
      }
    } else {
      SubsequenceMembers(a, b[1..], x);
    }
  }

  lemma {:induction false} SubsequenceTransitive<T>(a: seq<T>, b: seq<T>, c: seq<T>)
    requires IsSubsequence(a, b) && IsSubsequence(b, c)
    ensures IsSubsequence(a, c)
    decreases |c|
  {
    if a != [] && b != [] && c != [] {
      if IsSubsequence(b, c[1..]) {
        SubsequenceTransitive(a, b, c[1..]);
      } else if a[0] == b[0] && IsSubsequence(a[1..], b[1..]) {
        SubsequenceTransitive(a[1..], b[1..], c[1..]);
      } else {
        SubsequenceTransitive(a, b[1..], c[1..]);
      }
    }
  }

  lemma {:induction false} FilterIsSubsequence<T(!new)>(s: seq<T>, p: T -> bool)
    ensures IsSubsequence(Filter(s, p), s)
  {
    if s != [] {
      FilterIsSubsequence(s[1..], p);
      var f := Filter(s, p);
      if p(s[0]) {
        assert f[0] == s[0] && f[1..] == Filter(s[1..], p);
      } else {
        assert f == Filter(s[1..], p);
      }
    }
  }

  /** Filtering distributes over concatenation: what comes first stays first. */
  lemma {:induction false} FilterAppend<T(!new)>(a: seq<T>, b: seq<T>, p: T -> bool)
    ensures Filter(a + b, p) == Filter(a, p) + Filter(b, p)
  {
    if a != [] {
      assert (a + b)[0] == a[0] && (a + b)[1..] == a[1..] + b;
      FilterAppend(a[1..], b, p);
    } else {
      assert a + b == b;
    }
  }

  /** Nothing is removed when every element passes. */
  lemma {:induction false} FilterKeepsAll<T(!new)>(s: seq<T>, p: T -> bool)
    requires forall i :: 0 <= i < |s| ==> p(s[i])
    ensures Filter(s, p) == s
  {
    if s != [] {
      FilterKeepsAll(s[1..], p);
    }
  }

  /** When exactly one element fails, filtering removes just that element. */
  lemma FilterDropsOne<T(!new)>(s: seq<T>, p: T -> bool, i: nat)
    requires i < |s| && !p(s[i])
    requires forall k :: 0 <= k < |s| && k != i ==> p(s[k])
    ensures Filter(s, p) == s[..i] + s[i + 1..]
  {
    var a, b := s[..i], s[i..];
    assert s == a + b;
    FilterAppend(a, b, p);
    FilterKeepsPrefix(s, p, i);
    FilterDropsHead(b, p);
    assert b[1..] == s[i + 1..];
  }

  lemma FilterKeepsPrefix<T(!new)>(s: seq<T>, p: T -> bool, i: nat)
    requires i <= |s|
    requires forall k :: 0 <= k < i ==> p(s[k])
    ensures Filter(s[..i], p) == s[..i]
  {
    var a := s[..i];
    forall k | 0 <= k < |a| ensures p(a[k]) {
      assert a[k] == s[k];
    }
    FilterKeepsAll(a, p);
  }

  lemma FilterDropsHead<T(!new)>(s: seq<T>, p: T -> bool)
    requires s != [] && !p(s[0])
    requires forall k :: 0 < k < |s| ==> p(s[k])
    ensures Filter(s, p) == s[1..]
  {
    var t := s[1..];
    forall k | 0 <= k < |t| ensures p(t[k]) {
      assert t[k] == s[k + 1];
    }
    FilterKeepsAll(t, p);
  }

  lemma FilterCons<T(!new)>(x: T, t: seq<T>, p: T -> bool)
    ensures Filter([x] + t, p) == (if p(x) then [x] else []) + Filter(t, p)
  {
    assert ([x] + t)[0] == x && ([x] + t)[1..] == t;
  }

  /** Two prefixes of which one is empty can be applied in either order. */
  lemma SwapEmptyPrefix<T>(a: seq<T>, b: seq<T>, c: seq<T>)
    requires a == [] || b == []
    ensures a + (b + c) == b + (a + c)
  {
    if a == [] {
      assert a + (b + c) == b + c == b + (a + c);
    } else {
      assert b + (a + c) == a + c == a + (b + c);
    }
  }

  /** Prepending an element `h` that cannot pass together with `x` keeps `x`,
      when it passes, ahead of the filtered rest. */
  lemma FilterPastHead<T(!new)>(p: T -> bool, h: T, x: T, rest: seq<T>, t: seq<T>)
    requires !(p(x) && p(h))
    requires Filter(rest, p) == (if p(x) then [x] else []) + Filter(t, p)
    ensures Filter([h] + rest, p) == (if p(x) then [x] else []) + Filter([h] + t, p)
  {
    FilterCons(h, rest, p);
    FilterCons(h, t, p);
    var hs: seq<T> := if p(h) then [h] else [];
    var xs: seq<T> := if p(x) then [x] else [];
    SwapEmptyPrefix(hs, xs, Filter(t, p));
  }

  /** The step of `FilterPartition`: an element that passes exactly one of
      `p` and `q` joins exactly one side. */
  lemma FilterPartitionStep<T(!new)>(x: T, t: seq<T>, p: T -> bool, q: T -> bool)
    requires q(x) == !p(x)
    requires multiset(Filter(t, p)) + multiset(Filter(t, q)) == multiset(t)
    ensures multiset(Filter([x] + t, p)) + multiset(Filter([x] + t, q)) == multiset([x] + t)
  {
    FilterCons(x, t, p);
    FilterCons(x, t, q);
    var fp, fq := Filter(t, p), Filter(t, q);
    if p(x) {
      assert multiset([x] + fp) == multiset{x} + multiset(fp);
    } else {
      assert multiset([x] + fq) == multiset{x} + multiset(fq);
    }
    assert multiset([x] + t) == multiset{x} + multiset(t);
  }

  /** A predicate and its negation split a sequence in two: every element goes
      to exactly one side, and the sizes add up. */
  lemma {:induction false} FilterPartition<T(!new)>(s: seq<T>, p: T -> bool, q: T -> bool)
    requires forall x :: q(x) == !p(x)
    ensures multiset(Filter(s, p)) + multiset(Filter(s, q)) == multiset(s)
    ensures |Filter(s, p)| + |Filter(s, q)| == |s|
  {
    if s != [] {
      var x, t := s[0], s[1..];
      FilterPartition(t, p, q);
      FilterPartitionStep(x, t, p, q);
      assert s == [x] + t;
    }
    assert |multiset(Filter(s, p))| + |multiset(Filter(s, q))| == |multiset(s)|;
  }

  /** The first index whose element satisfies `p`, if any (`indexOfFirst`). */
  function FirstWhere<T>(s: seq<T>, p: T -> bool): (r: Option<nat>)
    ensures r.None? ==> forall j :: 0 <= j < |s| ==> !p(s[j])
    ensures r.Some? ==> r.value < |s| && p(s[r.value])
    ensures r.Some? ==> forall j :: 0 <= j < r.value ==> !p(s[j])
  {
    if s == [] then None
    else if p(s[0]) then Some(0)
    else match FirstWhere(s[1..], p)
      case None => None
      case Some(i) => Some(i + 1)
  }

  /** The sequence read back to front. */
  function Reverse<T>(s: seq<T>): (r: seq<T>)
    ensures |r| == |s|
    ensures forall i :: 0 <= i < |s| ==> r[i] == s[|s| - 1 - i]
  {
    if s == [] then [] else Reverse(s[1..]) + [s[0]]
  }

  lemma ReverseSnoc<T>(s: seq<T>, x: T)
    ensures Reverse(s + [x]) == [x] + Reverse(s)
  {
    assert forall i :: 0 <= i < |s| + 1 ==> Reverse(s + [x])[i] == ([x] + Reverse(s))[i];
  }

  lemma MultisetOfTail<T>(s: seq<T>)
    requires s != []
    ensures multiset(s[1..]) == multiset(s) - multiset{s[0]}
  {
    assert s == [s[0]] + s[1..];
  }

  lemma ReverseInvolution<T>(s: seq<T>)
    ensures Reverse(Reverse(s)) == s
  {
  }

  lemma {:induction false} ReversePermutes<T>(s: seq<T>)
    ensures multiset(Reverse(s)) == multiset(s)
  {
    if s != [] {
      ReversePermutes(s[1..]);
      assert s == [s[0]] + s[1..];
    }
  }

  /** The first `n` elements, or all of them when there are fewer:
      `subList(n, size).clear()` on a list longer than `n`. */
  function Take<T>(s: seq<T>, n: nat): (r: seq<T>)
    ensures |r| <= n && |r| <= |s|
    ensures |s| <= n ==> r == s
    ensures |s| > n ==> |r| == n
    ensures forall i :: 0 <= i < |r| ==> r[i] == s[i]
  {
    if |s| > n then s[..n] else s
  }

  lemma {:induction false} TakeIsSubsequence<T>(s: seq<T>, k: nat)
    ensures IsSubsequence(Take(s, k), s)
    decreases |s|
  {
    var t := Take(s, k);
    if t != [] {
      assert t[0] == s[0];
      TakeIsSubsequence(s[1..], k - 1);
      assert t[1..] == Take(s[1..], k - 1);
    }
  }

  /** Cutting before prepending one element changes nothing once the result
      is cut again. */
  lemma TakeCons<T>(x: T, s: seq<T>, k: nat)
    ensures Take([x] + Take(s, k), k) == Take([x] + s, k)
  {
    if |s| > k && k > 0 {
      assert ([x] + s[..k])[..k] == [x] + s[..k - 1] == ([x] + s)[..k];
    }
  }
}

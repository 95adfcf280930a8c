/** Subsequences, and the list functions that preserve them. */
module Subsequences {
  import opened Common

  /** `a` is obtained from `b` by dropping elements. */
  ghost predicate IsSubseq<T>(a: seq<T>, b: seq<T>)
    decreases |b|
  {
    a == [] || (b != [] && ((a[|a| - 1] == b[|b| - 1] && IsSubseq(a[..|a| - 1], b[..|b| - 1]))
                            || IsSubseq(a, b[..|b| - 1])))
  }

  /** Strictly increasing positions of `b` at which the elements of `a` stand. */
  lemma {:induction false} SubseqPositions<T>(a: seq<T>, b: seq<T>) returns (idx: seq<nat>)
    requires IsSubseq(a, b)
    ensures |idx| == |a| && Increasing(idx) && forall i :: 0 <= i < |a| ==> idx[i] < |b| && b[idx[i]] == a[i]
    decreases |b|
  {
    if a == [] {
      idx := [];
    } else {
      var init := b[..|b| - 1];
      if a[|a| - 1] == b[|b| - 1] && IsSubseq(a[..|a| - 1], init) {
        var rest := SubseqPositions(a[..|a| - 1], init);
        idx := rest + [|b| - 1];
      } else {
        idx := SubseqPositions(a, init);
      }
    }
  }

  function Filter<T>(p: T -> bool, s: seq<T>): seq<T> {
    if s == [] then []
    else
      var init := Filter(p, s[..|s| - 1]);
      if p(s[|s| - 1]) then init + [s[|s| - 1]] else init
  }

  function Map<A, B>(f: A -> B, s: seq<A>): (r: seq<B>)
    ensures |r| == |s| && forall i :: 0 <= i < |s| ==> r[i] == f(s[i])
  {
    seq(|s|, i requires 0 <= i < |s| => f(s[i]))
  }

  /** The entries of `s` at the given indices. */
  function Select<T>(s: seq<T>, idx: seq<nat>): (r: seq<T>)
    requires forall i :: 0 <= i < |idx| ==> idx[i] < |s|
    ensures |r| == |idx| && forall i :: 0 <= i < |idx| ==> r[i] == s[idx[i]]
  {
    seq(|idx|, i requires 0 <= i < |idx| => s[idx[i]])
  }

  lemma {:induction false} SubseqOfSelf<T>(s: seq<T>)
    ensures IsSubseq(s, s)
  {
    if s == [] {
    } else {
      SubseqOfSelf(s[..|s| - 1]);
    }
  }

  lemma {:induction false} FilterSnoc<T>(p: T -> bool, s: seq<T>, x: T)
    ensures Filter(p, s + [x]) == if p(x) then Filter(p, s) + [x] else Filter(p, s)
  {
    assert (s + [x])[..|s|] == s;
  }

  lemma FilterMapSnoc<A, B>(p: B -> bool, f: A -> B, s: seq<A>, x: A)
    ensures Filter(p, Map(f, s + [x])) == Filter(p, Map(f, s)) + if p(f(x)) then [f(x)] else []
  {
    assert Map(f, s + [x]) == Map(f, s) + [f(x)];
    FilterSnoc(p, Map(f, s), f(x));
  }

  lemma FilterSelectSnoc<T>(p: T -> bool, s: seq<T>, idx: seq<nat>, k: nat)
    requires k < |s| && forall i :: 0 <= i < |idx| ==> idx[i] < |s|
    ensures Filter(p, Select(s, idx + [k])) == Filter(p, Select(s, idx)) + if p(s[k]) then [s[k]] else []
  {
    assert Select(s, idx + [k]) == Select(s, idx) + [s[k]];
    FilterSnoc(p, Select(s, idx), s[k]);
  }

  lemma SubseqSnoc<T>(a: seq<T>, b: seq<T>, x: T)
    requires IsSubseq(a, b)
    ensures IsSubseq(a + [x], b + [x]) && IsSubseq(a, b + [x])
  {
    assert (b + [x])[..|b|] == b && (a + [x])[..|a|] == a;
  }

  lemma {:induction false} FilterSubseq<T>(p: T -> bool, a: seq<T>, b: seq<T>)
    requires IsSubseq(a, b)
    ensures IsSubseq(Filter(p, a), Filter(p, b))
    decreases |b|
  {
    if a == [] {
    } else {
      var x, init := b[|b| - 1], b[..|b| - 1];
      if a[|a| - 1] == x && IsSubseq(a[..|a| - 1], init) {
        FilterSubseq(p, a[..|a| - 1], init);
        SubseqSnoc(Filter(p, a[..|a| - 1]), Filter(p, init), x);
      } else {
        FilterSubseq(p, a, init);
        SubseqSnoc(Filter(p, a), Filter(p, init), x);
      }
    }
  }

  lemma {:induction false} MapSubseq<A, B>(f: A -> B, a: seq<A>, b: seq<A>)
    requires IsSubseq(a, b)
    ensures IsSubseq(Map(f, a), Map(f, b))
    decreases |b|
  {
    if a == [] {
    } else {
      var x, init := b[|b| - 1], b[..|b| - 1];
      assert Map(f, b) == Map(f, init) + [f(x)];
      if a[|a| - 1] == x && IsSubseq(a[..|a| - 1], init) {
        MapSubseq(f, a[..|a| - 1], init);
        assert Map(f, a) == Map(f, a[..|a| - 1]) + [f(x)];
        SubseqSnoc(Map(f, a[..|a| - 1]), Map(f, init), f(x));
      } else {
        MapSubseq(f, a, init);
        SubseqSnoc(Map(f, a), Map(f, init), f(x));
      }
    }
  }

  /** Increasing indices below n pick a subsequence of the first n entries. */
  lemma {:induction false} SelectSubseq<T>(s: seq<T>, idx: seq<nat>, n: nat)
    requires n <= |s| && Increasing(idx) && forall i :: 0 <= i < |idx| ==> idx[i] < n
    ensures IsSubseq(Select(s, idx), s[..n])
    decreases n
  {
    if idx == [] {
    } else {
      var last := |idx| - 1;
      assert idx[last] < n;
      assert s[..n] == s[..n - 1] + [s[n - 1]];
      if idx[last] == n - 1 {
        SelectSubseq(s, idx[..last], n - 1);
        assert Select(s, idx) == Select(s, idx[..last]) + [s[n - 1]];
        SubseqSnoc(Select(s, idx[..last]), s[..n - 1], s[n - 1]);
      } else {
        assert forall i :: 0 <= i < last ==> idx[i] < idx[last];
        SelectSubseq(s, idx, n - 1);
        SubseqSnoc(Select(s, idx), s[..n - 1], s[n - 1]);
      }
    }
  }

  lemma {:induction false} SubseqOfPrefix<T>(a: seq<T>, b: seq<T>, c: seq<T>)
    requires IsSubseq(a, b) && b <= c
    ensures IsSubseq(a, c)
    decreases |c|
  {
    if b == c {
    } else {
      assert b <= c[..|c| - 1];
      SubseqOfPrefix(a, b, c[..|c| - 1]);
    }
  }
}

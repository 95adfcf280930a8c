/** Small vocabulary shared by the other modules. */
module Common {

  datatype Option<+T> = None | Some(value: T)

  /** Strictly increasing: as a list of indices, it selects a subsequence. */
  ghost predicate Increasing(s: seq<nat>) {
    forall i, j :: 0 <= i < j < |s| ==> s[i] < s[j]
  }

  ghost predicate Below(a: seq<nat>, b: seq<nat>) {
    forall x, y :: x in a && y in b ==> x < y
  }

  ghost predicate Under(a: seq<nat>, n: nat) {
    forall x :: x in a ==> x < n
  }

  /** The last element of a concatenation, and what comes before it. */
  lemma LastOfConcat<T>(a: seq<T>, b: seq<T>)
    requires b != []
    ensures |a + b| > 0
    ensures (a + b)[..|a + b| - 1] == a + b[..|b| - 1]
    ensures (a + b)[|a + b| - 1] == b[|b| - 1]
  {
  }

  lemma ConcatAssociates<T>(a: seq<T>, b: seq<T>, c: seq<T>)
    ensures a + (b + c) == a + b + c
  {
  }

  lemma ConcatNothing<T>(a: seq<T>)
    ensures a + [] == a && [] + a == a
  {
  }

  lemma IncreasingConcat(a: seq<nat>, b: seq<nat>)
    requires Increasing(a) && Increasing(b) && Below(a, b)
    ensures Increasing(a + b)
  {
    forall i, j | 0 <= i < j < |a + b| ensures (a + b)[i] < (a + b)[j] {
      if i < |a| <= j {
        assert a[i] in a && b[j - |a|] in b;
      }
    }
  }

  /** An increasing list of exactly the numbers below n is the list of the numbers below n. */
  lemma {:induction false} IncreasingAndFull(s: seq<nat>, n: nat)
    requires Increasing(s) && Under(s, n) && forall i: nat :: i < n ==> i in s
    ensures s == seq(n, i => i)
  {
    assert s != [] ==> s[|s| - 1] in s;
    if n == 0 {
    } else {
      assert n - 1 in s;
      var k :| 0 <= k < |s| && s[k] == n - 1;
      assert k == |s| - 1;
      assert s == s[..k] + [n - 1];
      assert Under(s[..k], n - 1) by {
        forall x | x in s[..k] ensures x < n - 1 {
          var j :| 0 <= j < k && s[j] == x;
        }
      }
      forall i: nat | i < n - 1 ensures i in s[..k] {
        assert i in s;
      }
      IncreasingAndFull(s[..k], n - 1);
    }
  }

  /** Distinct entries cannot all fit in a shorter list. */
  lemma {:induction false} Pigeonhole(s: seq<nat>, t: seq<nat>)
    requires Increasing(s) && forall i :: i in s ==> i in t
    ensures |s| <= |t|
  {
    if s == [] {
    } else {
      var x := s[0];
      assert x in t;
      var k :| 0 <= k < |t| && t[k] == x;
      var rest := t[..k] + t[k + 1..];
      assert t == t[..k] + [x] + t[k + 1..];
      forall i | i in s[1..] ensures i in rest {
        assert i in t && i != x;
      }
      Pigeonhole(s[1..], rest);
    }
  }
}

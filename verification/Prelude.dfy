/** Small general-purpose definitions shared by the model. */
module Prelude {

  datatype Option<+T> = None | Some(value: T)

  datatype Result<+R, +E> = Success(value: R) | Failure(error: E)

  ghost predicate Distinct<T>(xs: seq<T>) {
    forall i, j :: 0 <= i < j < |xs| ==> xs[i] != xs[j]
  }

  lemma DistinctAppend<T>(xs: seq<T>, x: T)
    requires Distinct(xs) && x !in xs
    ensures Distinct(xs + [x])
  {
  }

  /** A duplicate-free sequence drawn from a finite set is no longer than the set is large. */
  lemma {:induction false} DistinctFits<T>(xs: seq<T>, s: set<T>)
    requires Distinct(xs)
    requires forall x :: x in xs ==> x in s
    ensures |xs| <= |s|
  {
    if xs != [] {
      var last := xs[|xs| - 1];
      var front := xs[..|xs| - 1];
      forall x | x in front ensures x in s - {last} {
        var k :| 0 <= k < |front| && front[k] == x;
        assert xs[k] == x;
      }
      DistinctFits(front, s - {last});
    }
  }

  /** A duplicate-free sequence of exactly the elements of a set is as long as the set is large. */
  lemma {:induction false} DistinctCount<T>(xs: seq<T>, s: set<T>)
    requires Distinct(xs)
    requires forall x :: x in xs <==> x in s
    ensures |xs| == |s|
  {
    if xs == [] {
      assert s == {};
    } else {
      var last, front := xs[|xs| - 1], xs[..|xs| - 1];
      assert xs == front + [last];
      DistinctCount(front, s - {last});
    }
  }

  /** Where p holds in a sequence. */
  ghost function Positions<T>(xs: seq<T>, p: T -> bool): set<int> {
    set k | 0 <= k < |xs| && p(xs[k])
  }

  /** The last element adds at most its own position. */
  lemma CountLast<T>(xs: seq<T>, p: T -> bool)
    requires xs != []
    ensures |Positions(xs, p)| == |Positions(xs[..|xs| - 1], p)| + if p(xs[|xs| - 1]) then 1 else 0
  {
    var n := |xs| - 1;
    var before := Positions(xs[..n], p);
    forall k ensures k in Positions(xs, p) <==> k in before || (k == n && p(xs[n])) {
      if 0 <= k < n {
        assert xs[..n][k] == xs[k];
      }
    }
    assert Positions(xs, p) == if p(xs[n]) then before + {n} else before;
  }

  lemma RemoveAt<T>(s: seq<T>, k: nat)
    requires k < |s|
    ensures multiset(s[..k] + s[k + 1..]) == multiset(s) - multiset{s[k]}
  {
    assert s == s[..k] + [s[k]] + s[k + 1..];
  }

  /** Where a permutation has the last element, and that the rest is a permutation of the rest. */
  lemma LastOfPermutation<T>(a: seq<T>, b: seq<T>) returns (k: nat)
    requires multiset(a) == multiset(b) && a != []
    ensures k < |b| && b[k] == a[|a| - 1]
    ensures multiset(a[..|a| - 1]) == multiset(b[..k] + b[k + 1..])
  {
    var n := |a| - 1;
    assert a[n] in multiset(a);
    k :| 0 <= k < |b| && b[k] == a[n];
    RemoveAt(a, n);
    RemoveAt(b, k);
    assert a[..n] + a[n + 1..] == a[..n];
  }
}

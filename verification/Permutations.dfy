/** One-to-one index maps between finite sequences, and the pigeonhole principle. */
module Permutations {
  ghost predicate Injective<T>(p: seq<T>) {
    forall i, j :: 0 <= i < j < |p| ==> p[i] != p[j]
  }

  ghost predicate Below(p: seq<nat>, n: nat) {
    forall i :: 0 <= i < |p| ==> p[i] < n
  }

  /** The indices below `n`. */
  ghost function Indices(n: nat): (r: set<nat>)
    ensures |r| == n
    ensures forall x :: x in r <==> 0 <= x < n
  {
    if n == 0 then {} else Indices(n - 1) + {n - 1}
  }

  ghost function Elements<T>(p: seq<T>): set<T> {
    set x | x in p
  }

  lemma {:induction false} ElementsCard<T>(p: seq<T>)
    requires Injective(p)
    ensures |Elements(p)| == |p|
  {
    if p != [] {
      var q := p[..|p| - 1];
      ElementsCard(q);
      assert p == q + [p[|p| - 1]];
      assert Elements(p) == Elements(q) + {p[|p| - 1]};
    }
  }

  /** Distinct indices below `n` are at most `n`, and all of them only when there are `n`. */
  lemma {:induction false} Pigeonhole(p: seq<nat>, n: nat)
    requires Injective(p) && Below(p, n)
    ensures |p| <= n
    ensures |p| < n ==> exists x :: 0 <= x < n && x !in p
    ensures |p| == n ==> forall x :: 0 <= x < n ==> x in p
  {
    ElementsCard(p);
    assert Elements(p) <= Indices(n);
    assert Indices(n) == Elements(p) + (Indices(n) - Elements(p));
    assert n == |p| + |Indices(n) - Elements(p)|;
    if |p| < n {
      var x :| x in Indices(n) - Elements(p);
      assert x !in p;
    } else {
      assert Indices(n) - Elements(p) == {};
      forall x | 0 <= x < n ensures x in p {
        assert x in Indices(n);
      }
    }
  }

  function Reindex<T>(xs: seq<T>, p: seq<nat>): (r: seq<T>)
    requires forall i :: 0 <= i < |p| ==> p[i] < |xs|
  {
    seq(|p|, i requires 0 <= i < |p| => xs[p[i]])
  }

  /** `p` with the indices above `j` moved down by one. */
  function CloseGap(p: seq<nat>, j: nat): seq<nat>
    requires forall i :: 0 <= i < |p| ==> p[i] != j
  {
    seq(|p|, i requires 0 <= i < |p| => if p[i] < j then p[i] else p[i] - 1)
  }

  /** A sequence without its element `j`. */
  function Without<T>(xs: seq<T>, j: nat): (r: seq<T>)
    requires j < |xs|
    ensures |r| == |xs| - 1
  {
    xs[..j] + xs[j + 1..]
  }

  lemma {:induction false} WithoutElements<T>(xs: seq<T>, j: nat)
    requires j < |xs|
    ensures multiset(xs) == multiset(Without(xs, j)) + multiset{xs[j]}
  {
    assert xs == xs[..j] + [xs[j]] + xs[j + 1..];
  }

  lemma {:induction false} CloseGapInjective(p: seq<nat>, n: nat)
    requires Injective(p) && Below(p, n) && p != []
    ensures var m := |p| - 1;
      && (forall i :: 0 <= i < m ==> p[..m][i] != p[m])
      && Injective(CloseGap(p[..m], p[m])) && Below(CloseGap(p[..m], p[m]), n - 1)
  {
    var m := |p| - 1;
    var q := CloseGap(p[..m], p[m]);
    forall i, j | 0 <= i < j < |q| ensures q[i] != q[j] {
      assert p[i] != p[j] && p[i] != p[m] && p[j] != p[m];
    }
  }

  lemma {:induction false} CloseGapReads<T>(xs: seq<T>, p: seq<nat>, j: nat)
    requires j < |xs| && Below(p, |xs|) && (forall i :: 0 <= i < |p| ==> p[i] != j)
    requires Below(CloseGap(p, j), |xs| - 1)
    ensures Reindex(Without(xs, j), CloseGap(p, j)) == Reindex(xs, p)
  {
  }

  /** Reading a sequence through a permutation of its indices keeps its elements. */
  lemma {:induction false} ReindexKeepsElements<T>(xs: seq<T>, p: seq<nat>)
    requires Injective(p) && Below(p, |xs|) && |p| == |xs|
    ensures multiset(Reindex(xs, p)) == multiset(xs)
    decreases |xs|
  {
    if xs == [] {
      assert Reindex(xs, p) == [];
    } else {
      var n := |xs| - 1;
      CloseGapInjective(p, |xs|);
      ReindexKeepsElements(Without(xs, p[n]), CloseGap(p[..n], p[n]));
      CloseGapReads(xs, p[..n], p[n]);
      WithoutElements(xs, p[n]);
      assert Reindex(xs, p) == Reindex(xs, p[..n]) + [xs[p[n]]];
    }
  }

  lemma {:induction false} MultisetCancel<T>(a: multiset<T>, b: multiset<T>, x: T)
    requires a + multiset{x} == b + multiset{x}
    ensures a == b
  {
    forall y ensures a[y] == b[y] {
      assert (a + multiset{x})[y] == (b + multiset{x})[y];
    }
  }

  /** `p` with the indices from `j` on moved up by one. */
  function OpenGap(p: seq<nat>, j: nat): seq<nat> {
    seq(|p|, i requires 0 <= i < |p| => if p[i] < j then p[i] else p[i] + 1)
  }

  lemma {:induction false} OpenGapReads<T>(ys: seq<T>, q: seq<nat>, j: nat)
    requires j < |ys| && Injective(q) && Below(q, |ys| - 1)
    ensures Injective(OpenGap(q, j) + [j]) && Below(OpenGap(q, j) + [j], |ys|)
    ensures forall i :: 0 <= i < |q| ==> ys[OpenGap(q, j)[i]] == Without(ys, j)[q[i]]
  {
  }

  lemma {:induction false} FindLast<T>(xs: seq<T>, ys: seq<T>) returns (j: nat)
    requires multiset(xs) == multiset(ys) && xs != []
    ensures j < |ys| && ys[j] == xs[|xs| - 1]
    ensures multiset(xs[..|xs| - 1]) == multiset(Without(ys, j))
  {
    var n := |xs| - 1;
    assert xs[n] in multiset(ys);
    j :| 0 <= j < |ys| && ys[j] == xs[n];
    assert xs == xs[..n] + [xs[n]];
    assert multiset(xs) == multiset(xs[..n]) + multiset{xs[n]};
    WithoutElements(ys, j);
    MultisetCancel(multiset(xs[..n]), multiset(Without(ys, j)), xs[n]);
  }

  /** Two listings of the same elements differ by a permutation of indices. */
  lemma {:induction false} FindPermutation<T>(xs: seq<T>, ys: seq<T>) returns (p: seq<nat>)
    requires multiset(xs) == multiset(ys)
    ensures |p| == |xs| == |ys| && Injective(p) && Below(p, |ys|)
    ensures forall i :: 0 <= i < |xs| ==> ys[p[i]] == xs[i]
    decreases |xs|
  {
    if xs == [] {
      assert |multiset(ys)| == 0;
      p := [];
    } else {
      var n := |xs| - 1;
      var j := FindLast(xs, ys);
      var q := FindPermutation(xs[..n], Without(ys, j));
      p := OpenGap(q, j) + [j];
      OpenGapReads(ys, q, j);
    }
  }
}

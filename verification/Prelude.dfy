/** Small datatypes and sequence facts shared by the other modules. */
module Prelude {

  datatype Option<+T> = None | Some(value: T)

  datatype Result<+T, +E> = Ok(value: T) | Err(error: E)

  function Max(a: int, b: int): (r: int) {
    if a >= b then a else b
  }

  function Min(a: int, b: int): (r: int) {
    if a <= b then a else b
  }

  function MaxR(a: real, b: real): real {
    if a >= b then a else b
  }

  function MinR(a: real, b: real): real {
    if a <= b then a else b
  }

  function SumR(xs: seq<real>): real {
    if xs == [] then 0.0 else xs[0] + SumR(xs[1..])
  }

  /** The pieces of `xss` laid end to end. */
  function Flatten<T>(xss: seq<seq<T>>): seq<T> {
    if xss == [] then [] else xss[0] + Flatten(xss[1..])
  }

  lemma {:induction false} FlattenAppend<T>(xss: seq<seq<T>>, yss: seq<seq<T>>)
    ensures Flatten(xss + yss) == Flatten(xss) + Flatten(yss)
  {
    if xss == [] {
      assert xss + yss == yss;
    } else {
      assert (xss + yss)[1..] == xss[1..] + yss;
      FlattenAppend(xss[1..], yss);
    }
  }

  lemma {:induction false} FlattenSnoc<T>(xss: seq<seq<T>>, xs: seq<T>)
    ensures Flatten(xss + [xs]) == Flatten(xss) + xs
  {
    FlattenAppend(xss, [xs]);
    assert Flatten([xs]) == xs;
  }

  /** Every piece has the same length `w`. */
  ghost predicate Uniform<T>(xss: seq<seq<T>>, w: nat) {
    forall i :: 0 <= i < |xss| ==> |xss[i]| == w
  }

  lemma {:induction false} UniformLength<T>(xss: seq<seq<T>>, w: nat)
    requires Uniform(xss, w)
    ensures |Flatten(xss)| == |xss| * w
  {
    if xss != [] {
      UniformLength(xss[1..], w);
    }
  }

  /** Cuts `n` pieces of width `w` off the front of `xs`. */
  function Cut<T>(xs: seq<T>, w: nat, n: nat): (r: seq<seq<T>>)
    requires n * w <= |xs|
    ensures |r| == n
    decreases n
  {
    if n == 0 then [] else
      assert n * w == w + (n - 1) * w && 0 <= (n - 1) * w;
      [xs[..w]] + Cut(xs[w..], w, n - 1)
  }

  /** Cutting at the width the pieces were joined with gives the pieces back. */
  lemma {:induction false} CutFlatten<T>(xss: seq<seq<T>>, w: nat)
    requires Uniform(xss, w)
    ensures |xss| * w == |Flatten(xss)|
    ensures Cut(Flatten(xss), w, |xss|) == xss
  {
    UniformLength(xss, w);
    if xss != [] {
      assert |xss[0]| == w;
      assert Flatten(xss)[..w] == xss[0] && Flatten(xss)[w..] == Flatten(xss[1..]);
      CutFlatten(xss[1..], w);
    }
  }

  /** Pieces that use up the whole sequence join back to it. */
  lemma {:induction false} FlattenCut<T>(xs: seq<T>, w: nat, n: nat)
    requires n * w == |xs|
    ensures Flatten(Cut(xs, w, n)) == xs
    ensures Uniform(Cut(xs, w, n), w)
    decreases n
  {
    if n > 0 {
      assert n * w == w + (n - 1) * w && 0 <= (n - 1) * w;
      FlattenCut(xs[w..], w, n - 1);
    }
  }

  /** Element `j` of piece `i` sits at `i * w + j`. */
  lemma {:induction false} FlattenAt<T>(xss: seq<seq<T>>, w: nat, i: nat, j: nat)
    requires Uniform(xss, w) && i < |xss| && j < w
    ensures 0 <= i * w + j < |Flatten(xss)|
    ensures Flatten(xss)[i * w + j] == xss[i][j]
  {
    assert |xss[0]| == w;
    UniformLength(xss, w);
    if i > 0 {
      FlattenAt(xss[1..], w, i - 1, j);
      assert i * w == w + (i - 1) * w;
    }
  }

  lemma {:induction false} CutAt<T>(xs: seq<T>, w: nat, n: nat, i: nat, j: nat)
    requires n * w <= |xs| && i < n && j < w
    ensures |Cut(xs, w, n)[i]| == w
    ensures 0 <= i * w + j < |xs|
    ensures Cut(xs, w, n)[i][j] == xs[i * w + j]
    decreases n
  {
    assert n * w == w + (n - 1) * w && 0 <= (n - 1) * w;
    if i > 0 {
      CutAt(xs[w..], w, n - 1, i - 1, j);
      assert i * w == w + (i - 1) * w;
    }
  }

  lemma {:induction false} MulMono(a: int, b: int, w: int)
    requires a <= b && 0 <= w
    ensures a * w <= b * w
  {
    assert 0 <= (b - a) * w;
  }

  lemma {:induction false} MulStep(n: nat, w: nat)
    requires n > 0
    ensures n * w == w + (n - 1) * w && 0 <= (n - 1) * w
  {
    MulMono(0, n - 1, w);
  }

  /** Natural product, quotient and remainder as functions of their own. */
  function Times(a: nat, b: nat): nat {
    MulMono(0, a, b);
    a * b
  }

  function Quotient(a: nat, b: nat): (r: nat)
    requires b > 0
    ensures r == a / b
  {
    a / b
  }

  function Remainder(a: nat, b: nat): (r: nat)
    requires b > 0
    ensures r == a % b && r < b
  {
    a % b
  }

  lemma {:induction false} DivParts(a: nat, b: nat)
    requires b > 0
    ensures a == Times(Quotient(a, b), b) + Remainder(a, b)
  {
  }

  /** A quotient of k < a * b by b is below a. */
  lemma {:induction false} QuotientBelow(k: nat, a: nat, b: nat)
    requires b > 0 && k < Times(a, b)
    ensures Quotient(k, b) < a
  {
    DivParts(k, b);
    if Quotient(k, b) >= a {
      MulMono(a, Quotient(k, b), b);
    }
  }

  lemma {:induction false} DivOfProduct(a: int, b: int)
    requires b > 0
    ensures (a * b) / b == a && (a * b) % b == 0
  {
    var q, m := (a * b) / b, (a * b) % b;
    assert a * b == q * b + m;
    assert m == (a - q) * b;
    if a - q >= 1 {
      MulMono(1, a - q, b);
    } else if a - q <= -1 {
      MulMono(a - q, -1, b);
    }
  }
}

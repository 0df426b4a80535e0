/** Vectors and matrices of exact reals, and what row operations do to a product. */
module Vectors {

  type Vector = seq<real>

  type Matrix = seq<Vector>

  /** A product of two scalars, by name: proofs then rewrite it instead of computing with it. */
  function Times(x: real, y: real): real { x * y }

  function Dot(u: Vector, v: Vector): real
    requires |u| == |v|
    decreases |u|
  {
    if u == [] then 0.0
    else Dot(u[..|u| - 1], v[..|v| - 1]) + Times(u[|u| - 1], v[|v| - 1])
  }

  /** u + c * v */
  function Axpy(u: Vector, c: real, v: Vector): Vector
    requires |u| == |v|
  {
    seq(|u|, (i: nat) requires i < |u| => u[i] + Times(c, v[i]))
  }

  /** u / d */
  function Over(u: Vector, d: real): Vector
    requires d != 0.0
  {
    seq(|u|, (i: nat) requires i < |u| => u[i] / d)
  }

  lemma {:induction false} DotCommutes(u: Vector, v: Vector)
    requires |u| == |v|
    ensures Dot(u, v) == Dot(v, u)
    decreases |u|
  {
    if u != [] { DotCommutes(u[..|u| - 1], v[..|v| - 1]); }
  }

  lemma Factor(c: real, x: real, y: real)
    ensures Times(c, x + y) == Times(c, x) + Times(c, y)
  {
  }

  lemma {:induction false} DotAxpy(u: Vector, c: real, v: Vector, y: Vector)
    requires |u| == |v| == |y|
    ensures Dot(Axpy(u, c, v), y) == Dot(u, y) + Times(c, Dot(v, y))
    decreases |u|
  {
    if u != [] {
      var n := |u| - 1;
      DotAxpy(u[..n], c, v[..n], y[..n]);
      AxpyPrefix(u, c, v, n);
      Factor(c, Dot(v[..n], y[..n]), Times(v[n], y[n]));
    }
  }

  lemma {:induction false} DotOver(u: Vector, d: real, y: Vector)
    requires |u| == |y| && d != 0.0
    ensures Dot(Over(u, d), y) == Dot(u, y) / d
    decreases |u|
  {
    if u != [] {
      var n := |u| - 1;
      DotOver(u[..n], d, y[..n]);
      assert Over(u, d)[..n] == Over(u[..n], d);
    }
  }

  /** u is the i-th unit vector. */
  ghost predicate Unit(u: Vector, i: int) {
    forall j :: 0 <= j < |u| ==> u[j] == if j == i then 1.0 else 0.0
  }

  lemma {:induction false} DotUnit(u: Vector, i: int, y: Vector)
    requires |u| == |y| && Unit(u, i)
    ensures Dot(u, y) == if 0 <= i < |u| then y[i] else 0.0
    decreases |u|
  {
    if u != [] {
      var n := |u| - 1;
      DotUnit(u[..n], i, y[..n]);
    }
  }

  ghost predicate Square(m: Matrix, n: nat) {
    |m| == n && forall i :: 0 <= i < n ==> |m[i]| == n
  }

  /** m * v */
  function Mul(m: Matrix, v: Vector): Vector
    requires forall i :: 0 <= i < |m| ==> |m[i]| == |v|
  {
    seq(|m|, (i: nat) requires i < |m| => Dot(m[i], v))
  }

  lemma {:induction false} DotAxpyRight(v: Vector, a: Vector, c: real, b: Vector)
    requires |v| == |a| == |b|
    ensures Dot(v, Axpy(a, c, b)) == Dot(v, a) + Times(c, Dot(v, b))
    decreases |v|
  {
    if v != [] {
      var n := |v| - 1;
      DotAxpyRight(v[..n], a[..n], c, b[..n]);
      AxpyPrefix(a, c, b, n);
      Factor(c, Dot(v[..n], b[..n]), Times(v[n], b[n]));
    }
  }

  lemma AxpyPrefix(a: Vector, c: real, b: Vector, n: nat)
    requires |a| == |b| && n <= |a|
    ensures Axpy(a, c, b)[..n] == Axpy(a[..n], c, b[..n])
  {
    forall i | 0 <= i < n ensures Axpy(a, c, b)[..n][i] == Axpy(a[..n], c, b[..n])[i] {
      assert b[..n][i] == b[i];
    }
  }

  lemma DotOverRight(v: Vector, a: Vector, d: real)
    requires |v| == |a| && d != 0.0
    ensures Dot(v, Over(a, d)) == Dot(v, a) / d
  {
    DotCommutes(v, Over(a, d));
    DotOver(a, d, v);
    DotCommutes(v, a);
  }
}

/** Inner products of real vectors, taken over the first k components. */
module Vectors {

  type Vec = seq<real>
  type Matrix = seq<seq<real>>

  /** c[0]*r[0] + ... + c[k-1]*r[k-1], summed in that order. */
  function Dot(c: Vec, r: Vec, k: nat): real
    requires k <= |c| && k <= |r|
  {
    if k == 0 then 0.0 else Dot(c, r, k - 1) + c[k-1] * r[k-1]
  }

  function Abs(x: real): real {
    if x < 0.0 then -x else x
  }

  lemma {:induction false} DotAgree(c: Vec, r: Vec, c': Vec, r': Vec, k: nat)
    requires k <= |c| && k <= |r| && k <= |c'| && k <= |r'|
    requires forall j :: 0 <= j < k ==> c[j] == c'[j] && r[j] == r'[j]
    ensures Dot(c, r, k) == Dot(c', r', k)
  {
    if k != 0 {
      DotAgree(c, r, c', r', k - 1);
    }
  }

  lemma {:induction false} DotSymmetric(c: Vec, r: Vec, k: nat)
    requires k <= |c| && k <= |r|
    ensures Dot(c, r, k) == Dot(r, c, k)
  {
    if k != 0 {
      DotSymmetric(c, r, k - 1);
    }
  }

  /** Dot is linear in its second argument. */
  lemma {:induction false} DotCombine(c: Vec, q: Vec, r: Vec, f: real, p: Vec, k: nat)
    requires k <= |c| && k <= |q| && k <= |r| && k <= |p|
    requires forall j :: 0 <= j < k ==> q[j] == r[j] + f * p[j]
    ensures Dot(c, q, k) == Dot(c, r, k) + f * Dot(c, p, k)
  {
    if k != 0 {
      DotCombine(c, q, r, f, p, k - 1);
      assert c[k-1] * q[k-1] == c[k-1] * r[k-1] + f * (c[k-1] * p[k-1]);
    }
  }

  lemma {:induction false} DotScale(c: Vec, q: Vec, f: real, p: Vec, k: nat)
    requires k <= |c| && k <= |q| && k <= |p|
    requires forall j :: 0 <= j < k ==> q[j] == f * p[j]
    ensures Dot(c, q, k) == f * Dot(c, p, k)
  {
    if k != 0 {
      DotScale(c, q, f, p, k - 1);
      assert c[k-1] * q[k-1] == f * (c[k-1] * p[k-1]);
    }
  }

  lemma {:induction false} DotZero(c: Vec, r: Vec, k: nat)
    requires k <= |c| && k <= |r|
    requires forall j :: 0 <= j < k ==> r[j] == 0.0
    ensures Dot(c, r, k) == 0.0
  {
    if k != 0 {
      DotZero(c, r, k - 1);
    }
  }

  /** A row with a single 1 picks out one component. */
  lemma {:induction false} DotUnit(c: Vec, r: Vec, i: nat, k: nat)
    requires k <= |c| && k <= |r|
    requires forall j :: 0 <= j < k ==> r[j] == if j == i then 1.0 else 0.0
    ensures Dot(c, r, k) == if i < k then c[i] else 0.0
  {
    if k != 0 {
      DotUnit(c, r, i, k - 1);
    }
  }

  /** Added up from the front. */
  function Total(v: Vec): real {
    if v == [] then 0.0 else v[0] + Total(v[1..])
  }

  lemma {:induction false} TotalAppend(v: Vec, x: real)
    ensures Total(v + [x]) == Total(v) + x
  {
    if v == [] {
      assert v + [x] == [x] && [x][1..] == [];
    } else {
      TotalAppend(v[1..], x);
      assert (v + [x])[1..] == v[1..] + [x];
    }
  }

  function Product(x: real, y: real): (p: real)
    ensures x > 0.0 && y > 0.0 ==> p > 0.0
  {
    x * y
  }

  function Squared(x: real): (s: real)
    ensures s >= 0.0
    ensures x != 0.0 ==> s > 0.0
    ensures s == x * x
  {
    if x >= 0.0 then Product(x, x) else Product(-x, -x)
  }

  lemma DivideIsScale(a: real, v: real)
    requires v != 0.0
    ensures a / v == (1.0 / v) * a
    ensures v * (a / v) == a
  {
    var q, inv := a / v, 1.0 / v;
    assert q * v == a && inv * v == 1.0;
    assert inv * a == inv * (q * v) == q * (inv * v);
  }

  lemma {:induction false} MultipleIsZero(c: Vec, q: Vec, f: real, p: Vec, k: nat)
    requires k <= |c| && k <= |q| && k <= |p| && f != 0.0
    requires forall j :: 0 <= j < k ==> q[j] == f * p[j]
    ensures Dot(c, q, k) == 0.0 <==> Dot(c, p, k) == 0.0
  {
    var d := Dot(c, p, k);
    DotScale(c, q, f, p, k);
    NoZeroDivisor(f, d);
  }

  lemma NoZeroDivisor(f: real, d: real)
    requires f != 0.0
    ensures f * d == 0.0 <==> d == 0.0
  {
  }

  /** A sum of squares is non-negative, and zero only for the zero vector. */
  lemma {:induction false} DotSelf(v: Vec, k: nat)
    requires k <= |v|
    ensures Dot(v, v, k) >= 0.0
    ensures Dot(v, v, k) == 0.0 <==> forall j :: 0 <= j < k ==> v[j] == 0.0
  {
    if k != 0 {
      DotSelf(v, k - 1);
      assert Dot(v, v, k) == Dot(v, v, k - 1) + Squared(v[k-1]);
    }
  }
}

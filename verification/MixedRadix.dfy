/**
 Row-major indices of an n-dimensional grid: the number of an element and its coordinates.
 */
module MixedRadix {
  function Size(shape: seq<nat>): nat {
    if shape == [] then 1 else Size(shape[..|shape|-1]) * shape[|shape|-1]
  }

  ghost predicate Positive(shape: seq<nat>) {
    forall d :: 0 <= d < |shape| ==> shape[d] > 0
  }

  /** Coordinates that lie in the grid. */
  ghost predicate Inside(c: seq<nat>, shape: seq<nat>) {
    |c| == |shape| && forall d :: 0 <= d < |c| ==> c[d] < shape[d]
  }

  function Encode(c: seq<nat>, shape: seq<nat>): nat
    requires |c| == |shape|
  {
    if c == [] then 0
    else Encode(c[..|c|-1], shape[..|c|-1]) * shape[|c|-1] + c[|c|-1]
  }

  function Quot(f: nat, k: nat): nat
    requires k > 0
  {
    f / k
  }

  function Rem(f: nat, k: nat): (r: nat)
    requires k > 0
    ensures r < k
  {
    f % k
  }

  function Decode(f: nat, shape: seq<nat>): (c: seq<nat>)
    requires Positive(shape)
    ensures |c| == |shape|
    decreases |shape|
  {
    if shape == [] then []
    else
      var last := shape[|shape|-1];
      Decode(Quot(f, last), shape[..|shape|-1]) + [Rem(f, last)]
  }

  // ---------------------------------------------------------------- arithmetic

  lemma MulMonotone(a: nat, b: nat, k: nat)
    requires a <= b
    ensures a * k <= b * k
  {
  }

  lemma QuotRem(f: nat, k: nat)
    requires k > 0
    ensures Quot(f, k) * k + Rem(f, k) == f
  {
  }

  /** The quotient and remainder of a number written as quotient and remainder. */
  lemma QuotRemUnique(q: nat, k: nat, r: nat)
    requires r < k
    ensures Quot(q * k + r, k) == q && Rem(q * k + r, k) == r
  {
    hide Quot, Rem;
    var f := q * k + r;
    QuotRem(f, k);
    if Quot(f, k) < q {
      MulMonotone(Quot(f, k) + 1, q, k);
    } else if Quot(f, k) > q {
      MulMonotone(q + 1, Quot(f, k), k);
    }
  }

  lemma BelowProduct(q: nat, m: nat, k: nat, r: nat)
    requires q < m && r < k
    ensures q * k + r < m * k
  {
    MulMonotone(q + 1, m, k);
    assert (q + 1) * k == q * k + k;
  }

  lemma QuotBelow(f: nat, m: nat, k: nat)
    requires k > 0 && f < m * k
    ensures Quot(f, k) < m
  {
    hide Quot, Rem;
    QuotRem(f, k);
    if Quot(f, k) >= m {
      MulMonotone(m, Quot(f, k), k);
    }
  }

  // ---------------------------------------------------------------- encode and decode are inverse

  lemma {:induction false} SizePositive(shape: seq<nat>)
    requires Positive(shape)
    ensures Size(shape) > 0
  {
    if shape != [] {
      SizePositive(shape[..|shape|-1]);
      BelowProduct(0, Size(shape[..|shape|-1]), shape[|shape|-1], 0);
    }
  }

  lemma {:induction false} EncodeInside(c: seq<nat>, shape: seq<nat>)
    requires Inside(c, shape)
    ensures Encode(c, shape) < Size(shape)
  {
    if c != [] {
      var n := |c| - 1;
      EncodeInside(c[..n], shape[..n]);
      BelowProduct(Encode(c[..n], shape[..n]), Size(shape[..n]), shape[n], c[n]);
    }
  }

  lemma {:induction false} DecodeEncode(c: seq<nat>, shape: seq<nat>)
    requires Inside(c, shape) && Positive(shape)
    ensures Decode(Encode(c, shape), shape) == c
  {
    hide Quot, Rem;
    if c != [] {
      var n := |c| - 1;
      DecodeEncode(c[..n], shape[..n]);
      QuotRemUnique(Encode(c[..n], shape[..n]), shape[n], c[n]);
    }
  }

  lemma {:induction false} EncodeDecode(f: nat, shape: seq<nat>)
    requires Positive(shape) && f < Size(shape)
    ensures Inside(Decode(f, shape), shape)
    ensures Encode(Decode(f, shape), shape) == f
    decreases |shape|
  {
    hide Quot, Rem;
    if shape != [] {
      var n := |shape| - 1;
      var front, last := shape[..n], shape[n];
      QuotBelow(f, Size(front), last);
      EncodeDecode(Quot(f, last), front);
      var c := Decode(f, shape);
      assert c[..n] == Decode(Quot(f, last), front);
      QuotRem(f, last);
    }
  }

  /** Ranks with the same coordinates are the same rank. */
  lemma SameCoordinates(f: nat, g: nat, shape: seq<nat>)
    requires Positive(shape) && f < Size(shape) && g < Size(shape)
    requires Decode(f, shape) == Decode(g, shape)
    ensures f == g
  {
    EncodeDecode(f, shape);
    EncodeDecode(g, shape);
  }

  lemma {:induction false} SizeSplit(shape: seq<nat>, m: nat)
    requires m <= |shape|
    ensures Size(shape) == Size(shape[..m]) * Size(shape[m..])
    decreases |shape|
  {
    if m == |shape| {
      assert shape[..m] == shape && shape[m..] == [];
    } else {
      var n := |shape| - 1;
      var front, last, tail := shape[..n], shape[n], shape[m..];
      SizeSplit(front, m);
      assert front[..m] == shape[..m];
      assert tail[..|tail|-1] == front[m..] && tail[|tail|-1] == last;
      Associate(Size(shape[..m]), Size(front[m..]), last);
    }
  }

  lemma Associate(a: nat, b: nat, c: nat)
    ensures a * b * c == a * (b * c)
  {
  }

  lemma QuotQuot(f: nat, a: nat, b: nat)
    requires a > 0 && b > 0
    ensures a * b > 0 && Quot(Quot(f, b), a) == Quot(f, a * b)
  {
    hide Quot, Rem;
    var g := Quot(f, b);
    var q, r := Quot(g, a), Rem(g, a) * b + Rem(f, b);
    BelowProduct(Rem(g, a), a, b, Rem(f, b));
    QuotRem(f, b);
    QuotRem(g, a);
    Distribute(q * a, Rem(g, a), b);
    Associate(q, a, b);
    QuotRemUnique(q, a * b, r);
  }

  lemma Distribute(a: nat, b: nat, c: nat)
    ensures (a + b) * c == a * c + b * c
  {
  }

  /** The leading coordinates of f number the block of the trailing size that f lies in. */
  lemma {:induction false} DecodePrefix(f: nat, shape: seq<nat>, m: nat)
    requires Positive(shape) && m <= |shape|
    ensures Size(shape[m..]) > 0
    ensures Decode(f, shape)[..m] == Decode(Quot(f, Size(shape[m..])), shape[..m])
    decreases |shape|
  {
    hide Quot, Rem;
    SizePositive(shape[m..]);
    if m == |shape| {
      assert shape[m..] == [] && shape[..m] == shape;
      assert Decode(f, shape)[..m] == Decode(f, shape);
      QuotRem(f, 1);
    } else {
      var n := |shape| - 1;
      var front, last, tail := shape[..n], shape[n], shape[m..];
      assert tail[..|tail|-1] == front[m..] && tail[|tail|-1] == last;
      DecodePrefix(Quot(f, last), front, m);
      assert front[..m] == shape[..m];
      assert Decode(f, shape)[..m] == Decode(Quot(f, last), front)[..m];
      QuotQuot(f, Size(front[m..]), last);
    }
  }
}

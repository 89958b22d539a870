/**
 Communication groups cut out of the grid of ranks: the ranks are laid out row by row, two
 dimensions are exchanged, and the result is read off in lists of equal length.
 */
module RankGroups {
  import opened MixedRadix

  function Exchanged(c: seq<nat>, a: nat, b: nat): (r: seq<nat>)
    requires a < |c| && b < |c|
    ensures |r| == |c|
  {
    c[a := c[b]][b := c[a]]
  }

  /** Entry number f of the grid with dimensions a and b exchanged. */
  function RankAt(shape: seq<nat>, a: nat, b: nat, f: nat): nat
    requires Positive(shape) && a < |shape| && b < |shape|
  {
    Encode(Exchanged(Decode(f, Exchanged(shape, a, b)), a, b), shape)
  }

  function ListAt(shape: seq<nat>, a: nat, b: nat, k: nat, g: nat): (list: seq<nat>)
    requires Positive(shape) && a < |shape| && b < |shape|
    ensures |list| == k && forall j: nat :: j < k ==> list[j] == RankAt(shape, a, b, g * k + j)
  {
    var first: nat := g * k;
    seq<nat>(k, j requires 0 <= j => RankAt(shape, a, b, first + j))
  }

  /** The lists of length k, in order. */
  function Lists(shape: seq<nat>, a: nat, b: nat, k: nat): (lists: seq<seq<nat>>)
    requires Positive(shape) && a < |shape| && b < |shape| && k > 0
    ensures |lists| == Quot(Size(shape), k)
    ensures forall g :: 0 <= g < |lists| ==> lists[g] == ListAt(shape, a, b, k, g)
  {
    seq(Quot(Size(shape), k), g requires 0 <= g => ListAt(shape, a, b, k, g))
  }

  /** Where a rank stands in the exchanged grid. */
  function Place(shape: seq<nat>, a: nat, b: nat, r: nat): nat
    requires Positive(shape) && a < |shape| && b < |shape|
  {
    Encode(Exchanged(Decode(r, shape), a, b), Exchanged(shape, a, b))
  }

  ghost predicate At(lists: seq<seq<nat>>, g: nat, j: nat, r: nat) {
    g < |lists| && j < |lists[g]| && lists[g][j] == r
  }

  ghost predicate Listed(lists: seq<seq<nat>>, r: nat) {
    exists g: nat, j: nat :: At(lists, g, j, r)
  }

  /** Every rank below world is listed exactly once, and nothing else is. */
  ghost predicate IsPartition(lists: seq<seq<nat>>, world: nat) {
    && (forall r: nat :: r < world ==> Listed(lists, r))
    && (forall g: nat, j: nat, r: nat :: At(lists, g, j, r) ==> r < world)
    && (forall g: nat, j: nat, h: nat, i: nat, r: nat :: At(lists, g, j, r) && At(lists, h, i, r) ==> g == h && j == i)
  }

  /** Both ranks are in one list. */
  ghost predicate Together(lists: seq<seq<nat>>, r: nat, s: nat) {
    exists g: nat :: g < |lists| && r in lists[g] && s in lists[g]
  }

  // ---------------------------------------------------------------- exchanging dimensions

  lemma SizeOne(n: nat)
    ensures Size([n]) == n
  {
    assert [n][..0] == [];
  }

  lemma SizeConcat(x: seq<nat>, y: seq<nat>)
    ensures Size(x + y) == Size(x) * Size(y)
  {
    SizeSplit(x + y, |x|);
    assert (x + y)[..|x|] == x && (x + y)[|x|..] == y;
  }

  lemma SizeFive(x: seq<nat>, p: nat, y: seq<nat>, q: nat, z: seq<nat>)
    ensures Size(x + [p] + y + [q] + z) == Size(x) * p * Size(y) * q * Size(z)
  {
    hide Size;
    SizeConcat(x, [p]);
    SizeConcat(x + [p], y);
    SizeConcat(x + [p] + y, [q]);
    SizeConcat(x + [p] + y + [q], z);
    SizeOne(p);
    SizeOne(q);
  }

  lemma SwapFactors(x: nat, p: nat, y: nat, q: nat, z: nat)
    ensures x * p * y * q * z == x * q * y * p * z
  {
  }

  lemma ExchangedSize(shape: seq<nat>, a: nat, b: nat)
    requires a < |shape| && b < |shape|
    ensures Size(Exchanged(shape, a, b)) == Size(shape)
  {
    hide Size;
    if a == b {
      assert Exchanged(shape, a, b) == shape;
    } else if a < b {
      ExchangedSizeOrdered(shape, a, b);
    } else {
      ExchangedSizeOrdered(shape, b, a);
      assert Exchanged(shape, a, b) == Exchanged(shape, b, a);
    }
  }

  lemma ExchangedSizeOrdered(shape: seq<nat>, i: nat, j: nat)
    requires i < j < |shape|
    ensures Size(Exchanged(shape, i, j)) == Size(shape)
  {
    hide Size, Exchanged;
    var x, y, z := shape[..i], shape[i+1..j], shape[j+1..];
    ExchangedParts(shape, i, j);
    SizeFive(x, shape[i], y, shape[j], z);
    SizeFive(x, shape[j], y, shape[i], z);
    SwapFactors(Size(x), shape[i], Size(y), shape[j], Size(z));
  }

  lemma ExchangedParts(shape: seq<nat>, i: nat, j: nat)
    requires i < j < |shape|
    ensures shape == shape[..i] + [shape[i]] + shape[i+1..j] + [shape[j]] + shape[j+1..]
    ensures Exchanged(shape, i, j) == shape[..i] + [shape[j]] + shape[i+1..j] + [shape[i]] + shape[j+1..]
  {
  }

  lemma ExchangedInside(c: seq<nat>, shape: seq<nat>, a: nat, b: nat)
    requires a < |shape| && b < |shape| && Inside(c, shape)
    ensures Inside(Exchanged(c, a, b), Exchanged(shape, a, b))
    ensures Exchanged(Exchanged(c, a, b), a, b) == c && Exchanged(Exchanged(shape, a, b), a, b) == shape
  {
  }

  lemma ExchangedPositive(shape: seq<nat>, a: nat, b: nat)
    requires Positive(shape) && a < |shape| && b < |shape|
    ensures Positive(Exchanged(shape, a, b))
  {
  }

  /** Place and RankAt undo each other. */
  lemma PlaceOfRank(shape: seq<nat>, a: nat, b: nat, f: nat)
    requires Positive(shape) && a < |shape| && b < |shape| && f < Size(shape)
    ensures RankAt(shape, a, b, f) < Size(shape)
    ensures Place(shape, a, b, RankAt(shape, a, b, f)) == f
  {
    hide Size, Encode, Decode, Exchanged, Inside, Positive;
    var shape' := Exchanged(shape, a, b);
    ExchangedPositive(shape, a, b);
    ExchangedSize(shape, a, b);
    EncodeDecode(f, shape');
    var c := Decode(f, shape');
    ExchangedInside(c, shape', a, b);
    ExchangedTwice(shape, a, b);
    EncodeInside(Exchanged(c, a, b), shape);
    DecodeEncode(Exchanged(c, a, b), shape);
  }

  lemma ExchangedTwice(c: seq<nat>, a: nat, b: nat)
    requires a < |c| && b < |c|
    ensures Exchanged(Exchanged(c, a, b), a, b) == c
  {
  }

  lemma RankOfPlace(shape: seq<nat>, a: nat, b: nat, r: nat)
    requires Positive(shape) && a < |shape| && b < |shape| && r < Size(shape)
    ensures Place(shape, a, b, r) < Size(shape)
    ensures RankAt(shape, a, b, Place(shape, a, b, r)) == r
  {
    hide Size, Encode, Decode, Exchanged, Inside, Positive;
    var shape' := Exchanged(shape, a, b);
    ExchangedPositive(shape, a, b);
    ExchangedSize(shape, a, b);
    EncodeDecode(r, shape);
    var c := Decode(r, shape);
    ExchangedInside(c, shape, a, b);
    EncodeInside(Exchanged(c, a, b), shape');
    DecodeEncode(Exchanged(c, a, b), shape');
  }

  // ---------------------------------------------------------------- the lists partition the ranks

  /** A rank is at position j of list g exactly when it stands at g * k + j. */
  lemma AtIsPlace(shape: seq<nat>, a: nat, b: nat, k: nat, g: nat, j: nat, r: nat)
    requires Positive(shape) && a < |shape| && b < |shape| && k > 0 && Rem(Size(shape), k) == 0
    ensures At(Lists(shape, a, b, k), g, j, r) <==>
      r < Size(shape) && Quot(Place(shape, a, b, r), k) == g && Rem(Place(shape, a, b, r), k) == j
  {
    hide Size, RankAt, Place, Quot, Rem, Positive, Encode, Decode, Exchanged;
    var lists := Lists(shape, a, b, k);
    QuotRem(Size(shape), k);
    if At(lists, g, j, r) {
      assert r == lists[g][j] == ListAt(shape, a, b, k, g)[j] == RankAt(shape, a, b, g * k + j);
      BelowProduct(g, Quot(Size(shape), k), k, j);
      PlaceOfRank(shape, a, b, g * k + j);
      QuotRemUnique(g, k, j);
    }
    if r < Size(shape) && Quot(Place(shape, a, b, r), k) == g && Rem(Place(shape, a, b, r), k) == j {
      RankOfPlace(shape, a, b, r);
      QuotRem(Place(shape, a, b, r), k);
      QuotBelow(Place(shape, a, b, r), Quot(Size(shape), k), k);
      assert lists[g][j] == ListAt(shape, a, b, k, g)[j] == RankAt(shape, a, b, g * k + j) == r;
    }
  }

  lemma ListsPartition(shape: seq<nat>, a: nat, b: nat, k: nat)
    requires Positive(shape) && a < |shape| && b < |shape| && k > 0 && Rem(Size(shape), k) == 0
    ensures IsPartition(Lists(shape, a, b, k), Size(shape))
  {
    hide Size, Place, Quot, Rem, At, RankAt;
    var lists := Lists(shape, a, b, k);
    forall r: nat | r < Size(shape) ensures Listed(lists, r) {
      AtIsPlace(shape, a, b, k, Quot(Place(shape, a, b, r), k), Rem(Place(shape, a, b, r), k), r);
    }
    forall g: nat, j: nat, r: nat | At(lists, g, j, r)
      ensures r < Size(shape) && g == Quot(Place(shape, a, b, r), k) && j == Rem(Place(shape, a, b, r), k)
    {
      AtIsPlace(shape, a, b, k, g, j, r);
    }
  }

  lemma TogetherIsPlace(shape: seq<nat>, a: nat, b: nat, k: nat, r: nat, s: nat)
    requires Positive(shape) && a < |shape| && b < |shape| && k > 0 && Rem(Size(shape), k) == 0
    requires r < Size(shape) && s < Size(shape)
    ensures Together(Lists(shape, a, b, k), r, s) <==> Quot(Place(shape, a, b, r), k) == Quot(Place(shape, a, b, s), k)
  {
    hide Size, Place, Quot, Rem, RankAt;
    var lists := Lists(shape, a, b, k);
    if Together(lists, r, s) {
      var g: nat :| g < |lists| && r in lists[g] && s in lists[g];
      var i: nat :| i < |lists[g]| && lists[g][i] == r;
      var j: nat :| j < |lists[g]| && lists[g][j] == s;
      AtIsPlace(shape, a, b, k, g, i, r);
      AtIsPlace(shape, a, b, k, g, j, s);
    }
    if Quot(Place(shape, a, b, r), k) == Quot(Place(shape, a, b, s), k) {
      AtIsPlace(shape, a, b, k, Quot(Place(shape, a, b, r), k), Rem(Place(shape, a, b, r), k), r);
      AtIsPlace(shape, a, b, k, Quot(Place(shape, a, b, s), k), Rem(Place(shape, a, b, s), k), s);
    }
  }

  lemma SizeTail(shape: seq<nat>, m: nat)
    requires Positive(shape) && m <= |shape|
    ensures Size(shape[m..]) > 0 && Rem(Size(shape), Size(shape[m..])) == 0
  {
    hide Size, Rem;
    SizePositive(shape[m..]);
    SizeSplit(shape, m);
    QuotRemUnique(Size(shape[..m]), Size(shape[m..]), 0);
  }

  /** With lists as long as all trailing dimensions together, two ranks share one when their leading coordinates agree. */
  lemma ListsFixPrefix(shape: seq<nat>, a: nat, b: nat, m: nat, r: nat, s: nat)
    requires Positive(shape) && a < |shape| && b < |shape| && m <= |shape|
    requires r < Size(shape) && s < Size(shape)
    ensures Size(Exchanged(shape, a, b)[m..]) > 0
    ensures Rem(Size(shape), Size(Exchanged(shape, a, b)[m..])) == 0
    ensures Together(Lists(shape, a, b, Size(Exchanged(shape, a, b)[m..])), r, s) <==>
      Exchanged(Decode(r, shape), a, b)[..m] == Exchanged(Decode(s, shape), a, b)[..m]
  {
    hide Size, Encode, Decode, Quot, Rem, Together, RankAt, Exchanged;
    var shape' := Exchanged(shape, a, b);
    ExchangedPositive(shape, a, b);
    var k, f, g := Size(shape'[m..]), Place(shape, a, b, r), Place(shape, a, b, s);
    ExchangedSize(shape, a, b);
    SizeTail(shape', m);
    TogetherIsPlace(shape, a, b, k, r, s);
    RankOfPlace(shape, a, b, r);
    RankOfPlace(shape, a, b, s);
    PlaceCoordinates(shape, a, b, r);
    PlaceCoordinates(shape, a, b, s);
    DecodePrefix(f, shape', m);
    DecodePrefix(g, shape', m);
    SizeSplit(shape', m);
    QuotBelow(f, Size(shape'[..m]), k);
    QuotBelow(g, Size(shape'[..m]), k);
    if Decode(f, shape')[..m] == Decode(g, shape')[..m] {
      SameCoordinates(Quot(f, k), Quot(g, k), shape'[..m]);
    }
  }

  lemma PlaceCoordinates(shape: seq<nat>, a: nat, b: nat, r: nat)
    requires Positive(shape) && a < |shape| && b < |shape| && r < Size(shape)
    ensures Decode(Place(shape, a, b, r), Exchanged(shape, a, b)) == Exchanged(Decode(r, shape), a, b)
  {
    hide Size, Encode, Decode, Exchanged, Inside, Positive;
    ExchangedPositive(shape, a, b);
    EncodeDecode(r, shape);
    ExchangedInside(Decode(r, shape), shape, a, b);
    DecodeEncode(Exchanged(Decode(r, shape), a, b), Exchanged(shape, a, b));
  }
}

/**
 The rank lists of the offload groups on the five-dimensional grid of ranks: data parallel
 within an outer dimension, then pipeline, prefill context and tensor parallel.
 */
module RankLayout {
  import opened MixedRadix
  import opened RankGroups

  /** The lists that run along dimension d: d is exchanged with the last one. */
  function DimensionLists(shape: seq<nat>, d: nat): seq<seq<nat>>
    requires Positive(shape) && d < |shape|
  {
    Lists(shape, d, |shape| - 1, shape[d])
  }

  /** The ranks have the same coordinates but for the given dimensions. */
  ghost predicate AgreeBut(shape: seq<nat>, r: nat, s: nat, dims: set<nat>)
    requires Positive(shape)
  {
    forall e: nat :: e < |shape| && e !in dims ==> Decode(r, shape)[e] == Decode(s, shape)[e]
  }

  lemma DimensionTail(shape: seq<nat>, d: nat)
    requires Positive(shape) && d < |shape|
    ensures Size(Exchanged(shape, d, |shape| - 1)[|shape| - 1..]) == shape[d]
    ensures Rem(Size(shape), shape[d]) == 0
  {
    hide Size, Quot, Rem;
    var n := |shape| - 1;
    var shape' := Exchanged(shape, d, n);
    assert shape'[n..] == [shape[d]];
    ExchangedPositive(shape, d, n);
    hide Exchanged;
    SizeOne(shape[d]);
    ExchangedSize(shape, d, n);
    SizeTail(shape', n);
  }

  /** Along one dimension: the lists partition the ranks, and two ranks share one when only that coordinate differs. */
  lemma SingleDimension(shape: seq<nat>, d: nat, r: nat, s: nat)
    requires Positive(shape) && d < |shape| && r < Size(shape) && s < Size(shape)
    ensures IsPartition(DimensionLists(shape, d), Size(shape))
    ensures Together(DimensionLists(shape, d), r, s) <==> AgreeBut(shape, r, s, {d})
  {
    hide Size, Decode, Quot, Rem, RankAt, IsPartition, Together;
    var n := |shape| - 1;
    DimensionTail(shape, d);
    ListsPartition(shape, d, n, shape[d]);
    ListsFixPrefix(shape, d, n, n, r, s);
    var x, y := Decode(r, shape), Decode(s, shape);
    ExchangedPrefix(x, y, d);
  }

  lemma ExchangedPrefix(x: seq<nat>, y: seq<nat>, d: nat)
    requires |x| == |y| && d < |x|
    ensures Exchanged(x, d, |x| - 1)[..|x| - 1] == Exchanged(y, d, |x| - 1)[..|x| - 1] <==>
      forall e: nat :: e < |x| && e !in {d} ==> x[e] == y[e]
  {
    var n := |x| - 1;
    var x', y' := Exchanged(x, d, n), Exchanged(y, d, n);
    if x'[..n] == y'[..n] {
      forall e: nat | e < |x| && e != d ensures x[e] == y[e] {
        var i := if e == n then d else e;
        assert x'[..n][i] == y'[..n][i];
      }
    }
  }

  /** A rank's position in its list is its coordinate in that dimension. */
  lemma PositionIsCoordinate(shape: seq<nat>, d: nat, g: nat, j: nat, r: nat)
    requires Positive(shape) && d < |shape| && At(DimensionLists(shape, d), g, j, r)
    ensures r < Size(shape) && Decode(r, shape)[d] == j
  {
    hide Size, Quot, Rem, RankAt, Place;
    var n := |shape| - 1;
    DimensionTail(shape, d);
    AtIsPlace(shape, d, n, shape[d], g, j, r);
    PlaceCoordinates(shape, d, n, r);
    var c := Decode(Place(shape, d, n, r), Exchanged(shape, d, n));
    assert c[n] == Rem(Place(shape, d, n, r), shape[d]);
    assert c[n] == Decode(r, shape)[d];
  }

  /** Lists along two different dimensions have at most one rank in common. */
  lemma DimensionsMeetOnce(shape: seq<nat>, d: nat, e: nat, r: nat, s: nat)
    requires Positive(shape) && d < |shape| && e < |shape| && d != e && r < Size(shape) && s < Size(shape)
    requires Together(DimensionLists(shape, d), r, s) && Together(DimensionLists(shape, e), r, s)
    ensures r == s
  {
    hide Size, Decode, DimensionLists, Together;
    SingleDimension(shape, d, r, s);
    SingleDimension(shape, e, r, s);
    assert Decode(r, shape) == Decode(s, shape);
    SameCoordinates(r, s, shape);
  }

  // ---------------------------------------------------------------- the five dimensions

  /** outer is what the leading -1 of the reshape stands for. */
  datatype Sizes = Sizes(outer: nat, dp: nat, pp: nat, pcp: nat, tp: nat)

  const DP: nat := 1
  const PP: nat := 2
  const PCP: nat := 3
  const TP: nat := 4

  function Grid(z: Sizes): (shape: seq<nat>)
    ensures |shape| == 5
  {
    [z.outer, z.dp, z.pp, z.pcp, z.tp]
  }

  /** The expert-parallel and MC2 lists: everything within one pipeline stage. */
  function ExpertLists(z: Sizes): seq<seq<nat>>
    requires Positive(Grid(z)) && z.dp * z.pcp * z.tp > 0
  {
    Lists(Grid(z), DP, PP, z.dp * z.pcp * z.tp)
  }

  lemma SizeThree(a: nat, b: nat, c: nat)
    ensures Size([a, b, c]) == a * b * c
  {
    hide Size;
    assert [a, b, c] == [a] + [b] + [c];
    SizeConcat([a] + [b], [c]);
    SizeConcat([a], [b]);
    SizeOne(a);
    SizeOne(b);
    SizeOne(c);
  }

  lemma ExpertTail(z: Sizes)
    requires Positive(Grid(z))
    ensures z.dp * z.pcp * z.tp > 0
    ensures Size(Exchanged(Grid(z), DP, PP)[2..]) == z.dp * z.pcp * z.tp
    ensures Rem(Size(Grid(z)), z.dp * z.pcp * z.tp) == 0
  {
    hide Size;
    var shape' := Exchanged(Grid(z), DP, PP);
    assert Positive(shape') by {
      ExchangedPositive(Grid(z), DP, PP);
    }
    assert shape'[2..] == [z.dp, z.pcp, z.tp];
    SizeThree(z.dp, z.pcp, z.tp);
    ExchangedSize(Grid(z), DP, PP);
    SizeTail(shape', 2);
  }

  /** They partition the ranks; two ranks share one when they are in the same outer replica and pipeline stage. */
  lemma ExpertGroups(z: Sizes, r: nat, s: nat)
    requires Positive(Grid(z)) && r < Size(Grid(z)) && s < Size(Grid(z))
    ensures z.dp * z.pcp * z.tp > 0
    ensures IsPartition(ExpertLists(z), Size(Grid(z)))
    ensures Together(ExpertLists(z), r, s) <==> AgreeBut(Grid(z), r, s, {DP, PCP, TP})
  {
    hide Size, Decode, Quot, Rem, RankAt, IsPartition, Together;
    var shape := Grid(z);
    ExpertTail(z);
    ListsPartition(shape, DP, PP, z.dp * z.pcp * z.tp);
    ListsFixPrefix(shape, DP, PP, 2, r, s);
    var x, y := Decode(r, shape), Decode(s, shape);
    assert Exchanged(x, DP, PP)[..2] == [x[0], x[PP]];
    assert Exchanged(y, DP, PP)[..2] == [y[0], y[PP]];
    assert forall e: nat {:trigger x[e]} :: e < 5 && e !in {DP, PCP, TP} <==> e == 0 || e == PP;
    if Exchanged(x, DP, PP)[..2] == Exchanged(y, DP, PP)[..2] {
      assert [x[0], x[PP]][0] == [y[0], y[PP]][0] && [x[0], x[PP]][1] == [y[0], y[PP]][1];
    }
  }

  /** Data, prefill-context and tensor parallel groups lie inside expert groups. */
  lemma ExpertGroupsContain(z: Sizes, d: nat, r: nat, s: nat)
    requires Positive(Grid(z)) && r < Size(Grid(z)) && s < Size(Grid(z)) && d in {DP, PCP, TP}
    requires Together(DimensionLists(Grid(z), d), r, s)
    ensures z.dp * z.pcp * z.tp > 0 && Together(ExpertLists(z), r, s)
  {
    hide Size, Decode, Together, DimensionLists, ExpertLists;
    SingleDimension(Grid(z), d, r, s);
    ExpertGroups(z, r, s);
  }

  // ---------------------------------------------------------------- decode-context groups

  function DcpLists(z: Sizes, dcp: nat): seq<seq<nat>>
    requires Positive(Grid(z)) && dcp > 0
  {
    Lists(Grid(z), TP, TP, dcp)
  }

  lemma PlaceUnchanged(shape: seq<nat>, a: nat, r: nat)
    requires Positive(shape) && a < |shape| && r < Size(shape)
    ensures Place(shape, a, a, r) == r
  {
    EncodeDecode(r, shape);
    assert Exchanged(Decode(r, shape), a, a) == Decode(r, shape);
    assert Exchanged(shape, a, a) == shape;
  }

  /** Consecutive ranks share a list up to each multiple of its length. */
  lemma ConsecutiveLists(shape: seq<nat>, a: nat, k: nat, r: nat, s: nat)
    requires Positive(shape) && a < |shape| && k > 0 && Rem(Size(shape), k) == 0 && r < Size(shape) && s < Size(shape)
    ensures Together(Lists(shape, a, a, k), r, s) <==> Quot(r, k) == Quot(s, k)
  {
    hide Size, Decode, Quot, Rem, Together, Place;
    TogetherIsPlace(shape, a, a, k, r, s);
    PlaceUnchanged(shape, a, r);
    PlaceUnchanged(shape, a, s);
  }

  ghost predicate DcpInsideTp(z: Sizes, dcp: nat)
    requires Positive(Grid(z)) && dcp > 0
  {
    forall r: nat, s: nat :: r < Size(Grid(z)) && s < Size(Grid(z)) ==>
      Together(DcpLists(z, dcp), r, s) ==> Together(DimensionLists(Grid(z), TP), r, s)
  }

  /** Decode-context groups lie inside tensor-parallel groups exactly when their size divides tp. */
  lemma DcpInsideTpExactly(z: Sizes, dcp: nat)
    requires Positive(Grid(z)) && dcp > 0 && Rem(Size(Grid(z)), dcp) == 0
    ensures DcpInsideTp(z, dcp) <==> Rem(z.tp, dcp) == 0
  {
    hide Size, Quot, Rem, Together, Lists;
    var shape, world := Grid(z), Size(Grid(z));
    DimensionTail(shape, TP);
    if Rem(z.tp, dcp) == 0 {
      forall r: nat, s: nat | r < world && s < world && Together(DcpLists(z, dcp), r, s)
        ensures Together(DimensionLists(shape, TP), r, s)
      {
        ConsecutiveLists(shape, TP, dcp, r, s);
        ConsecutiveLists(shape, TP, z.tp, r, s);
        DividesKeepsQuot(r, s, dcp, z.tp);
      }
    } else {
      SizePositive(shape);
      SecondGroupExists(world, z.tp, dcp);
      QuotRem(z.tp, dcp);
      QuotRemUnique(Quot(z.tp, dcp), dcp, Rem(z.tp, dcp));
      QuotRemUnique(Quot(z.tp, dcp), dcp, Rem(z.tp, dcp) - 1);
      QuotRemUnique(0, z.tp, z.tp - 1);
      QuotRemUnique(1, z.tp, 0);
      assert Quot(z.tp - 1, dcp) == Quot(z.tp, dcp);
      assert 0 * z.tp + (z.tp - 1) == z.tp - 1 && 1 * z.tp + 0 == z.tp;
      assert Quot(z.tp - 1, z.tp) == 0 && Quot(z.tp, z.tp) == 1;
      ConsecutiveLists(shape, TP, dcp, z.tp - 1, z.tp);
      ConsecutiveLists(shape, TP, z.tp, z.tp - 1, z.tp);
      assert Together(DcpLists(z, dcp), z.tp - 1, z.tp);
      assert DimensionLists(shape, TP) == Lists(shape, TP, TP, z.tp);
      assert !Together(DimensionLists(shape, TP), z.tp - 1, z.tp);
    }
  }

  lemma DividesKeepsQuot(r: nat, s: nat, k: nat, n: nat)
    requires k > 0 && n > 0 && Rem(n, k) == 0 && Quot(r, k) == Quot(s, k)
    ensures Quot(r, n) == Quot(s, n)
  {
    hide Quot, Rem;
    QuotRem(n, k);
    var q := Quot(n, k);
    assert q > 0;
    QuotQuot(r, q, k);
    QuotQuot(s, q, k);
  }

  lemma SecondGroupExists(world: nat, tp: nat, dcp: nat)
    requires world > 0 && tp > 0 && dcp > 0 && Rem(world, tp) == 0 && Rem(world, dcp) == 0 && Rem(tp, dcp) != 0
    ensures world > tp
  {
    hide Quot, Rem;
    QuotRem(world, tp);
    if Quot(world, tp) >= 2 {
      MulMonotone(2, Quot(world, tp), tp);
    }
  }

  // ---------------------------------------------------------------- head-replica groups

  /** A quotient in two steps: by the large unit, and the rest by the small one. */
  lemma QuotSplit(f: nat, q: nat, a: nat)
    requires q > 0 && a > 0
    ensures q * a > 0
    ensures Quot(Rem(f, q * a), a) < q && Quot(f, a) == Quot(f, q * a) * q + Quot(Rem(f, q * a), a)
  {
    hide Quot, Rem;
    BelowProduct(0, q, a, 0);
    var m := q * a;
    var x, y := Quot(f, m), Rem(f, m);
    QuotRem(f, m);
    QuotRem(y, a);
    QuotBelow(y, q, a);
    Associate(x, q, a);
    Distribute(x * q, Quot(y, a), a);
    QuotRemUnique(x * q + Quot(y, a), a, Rem(y, a));
  }

  /**
   The head-replica lists: ranks split by cell and replica, then cut into all-to-all groups of
   size a out of q * a. cells counts the data, pipeline and context parallel cells.
   */
  function HeadReplicaLists(cells: nat, q: nat, a: nat, replicas: nat): seq<seq<nat>>
    requires a > 0 && Positive([cells, q * a, replicas])
  {
    Lists([cells, q * a, replicas], 1, 2, a)
  }

  /** They partition the ranks; two ranks share one when cell and replica agree and their places fall in the same a. */
  lemma HeadReplicaGroups(cells: nat, q: nat, a: nat, replicas: nat, r: nat, s: nat)
    requires cells > 0 && q > 0 && a > 0 && replicas > 0
    requires q * a > 0 && r < Size([cells, q * a, replicas]) && s < Size([cells, q * a, replicas])
    ensures IsPartition(HeadReplicaLists(cells, q, a, replicas), Size([cells, q * a, replicas]))
    ensures
      var x, y := Decode(r, [cells, q * a, replicas]), Decode(s, [cells, q * a, replicas]);
      Together(HeadReplicaLists(cells, q, a, replicas), r, s) <==>
        x[0] == y[0] && x[2] == y[2] && Quot(x[1], a) == Quot(y[1], a)
  {
    hide Size, Quot, Rem, Together, IsPartition, Place, RankAt, Lists, Decode;
    var m := q * a;
    var shape := [cells, m, replicas];
    var x, y := Decode(r, shape), Decode(s, shape);
    var f, g := Place(shape, 1, 2, r), Place(shape, 1, 2, s);
    DimensionTail(shape, 1);
    Divides(Size(shape), q, a);
    ListsPartition(shape, 1, 2, a);
    TogetherIsPlace(shape, 1, 2, a, r, s);
    PlaceCoordinates(shape, 1, 2, r);
    PlaceCoordinates(shape, 1, 2, s);
    RankOfPlace(shape, 1, 2, r);
    RankOfPlace(shape, 1, 2, s);
    PlaceThree(cells, m, replicas, f, x);
    PlaceThree(cells, m, replicas, g, y);
    QuotSplit(f, q, a);
    QuotSplit(g, q, a);
    QuotRemUnique(Quot(f, m), q, Quot(Rem(f, m), a));
    QuotRemUnique(Quot(g, m), q, Quot(Rem(g, m), a));
    if x[0] == y[0] && x[2] == y[2] {
      SameCoordinates(Quot(f, m), Quot(g, m), [cells, replicas]);
    }
  }

  lemma Divides(n: nat, q: nat, a: nat)
    requires q > 0 && a > 0 && q * a > 0 && Rem(n, q * a) == 0
    ensures Rem(n, a) == 0
  {
    hide Quot, Rem;
    QuotRem(n, q * a);
    Associate(Quot(n, q * a), q, a);
    QuotRemUnique(Quot(n, q * a) * q, a, 0);
  }

  lemma PlaceThree(cells: nat, m: nat, replicas: nat, f: nat, x: seq<nat>)
    requires cells > 0 && m > 0 && replicas > 0 && |x| == 3 && f < Size([cells, m, replicas])
    requires Decode(f, Exchanged([cells, m, replicas], 1, 2)) == Exchanged(x, 1, 2)
    ensures Rem(f, m) == x[1]
    ensures Decode(Quot(f, m), [cells, replicas]) == [x[0], x[2]]
    ensures Quot(f, m) < Size([cells, replicas])
  {
    hide Quot, Rem;
    var shape' := Exchanged([cells, m, replicas], 1, 2);
    assert shape' == [cells, replicas, m];
    assert shape'[..2] == [cells, replicas];
    ExchangedSize([cells, m, replicas], 1, 2);
    var c := Decode(f, shape');
    assert c == Decode(Quot(f, m), [cells, replicas]) + [Rem(f, m)];
    assert c == [x[0], x[2], x[1]];
    assert c[2] == Rem(f, m);
    assert c[..2] == [x[0], x[2]];
    assert c[..2] == Decode(Quot(f, m), [cells, replicas]);
    assert Size(shape') == Size([cells, replicas]) * m;
    QuotBelow(f, Size([cells, replicas]), m);
  }

  /** The data, pipeline and prefill-context parallel cells of the first reshape. */
  function Cells(z: Sizes): (c: nat)
    ensures Positive(Grid(z)) ==> c > 0
  {
    assert Positive(Grid(z)) ==> Grid(z)[DP] > 0 && Grid(z)[PP] > 0 && Grid(z)[PCP] > 0;
    ProductPositive(z.dp, z.pp);
    ProductPositive(z.dp * z.pp, z.pcp);
    z.dp * z.pp * z.pcp
  }

  lemma ProductPositive(a: nat, b: nat)
    ensures a > 0 && b > 0 ==> a * b > 0
  {
  }

  /** What the -1 of the first reshape stands for: the ranks of one cell and one replica. */
  function Span(z: Sizes, replicas: nat): nat
    requires Positive(Grid(z)) && replicas > 0
  {
    ProductPositive(Cells(z), replicas);
    Quot(Size(Grid(z)), Cells(z) * replicas)
  }

  function RemoteTp(z: Sizes, ratio: nat): nat
    requires ratio > 0
  {
    Quot(z.tp, ratio)
  }

  /** The configured sizes let the reshapes go through: every division they leave to the framework is exact. */
  ghost predicate HeadReplicaFits(z: Sizes, replicas: nat, ratio: nat) {
    && Positive(Grid(z)) && replicas > 0 && ratio > 0 && RemoteTp(z, ratio) > 0
    && Span(z, replicas) * (Cells(z) * replicas) == Size(Grid(z))
    && Quot(Span(z, replicas), RemoteTp(z, ratio)) > 0
    && Rem(Span(z, replicas), Quot(Span(z, replicas), RemoteTp(z, ratio))) == 0
  }

  /**
   From the configured sizes: the group size is the span divided by the remote tensor-parallel
   size, the groups partition the whole world, and every cell and replica has at least one group
   for each remote tensor rank, exactly one when the remote size divides the span.
   */
  lemma HeadReplicaOfConfig(z: Sizes, replicas: nat, ratio: nat)
    requires HeadReplicaFits(z, replicas, ratio)
    ensures
      var (span, remote) := (Span(z, replicas), RemoteTp(z, ratio));
      var a := Quot(span, remote);
      var q := Quot(span, a);
      && q > 0 && q * a == span
      && IsPartition(HeadReplicaLists(Cells(z), q, a, replicas), Size(Grid(z)))
      && q >= remote && (q == remote <==> Rem(span, remote) == 0)
  {
    hide Quot, Rem, Size, IsPartition, HeadReplicaLists, Span, RemoteTp, Cells, Grid;
    var (cells, span, remote) := (Cells(z), Span(z, replicas), RemoteTp(z, ratio));
    var a := Quot(span, remote);
    var q := Quot(span, a);
    QuotRem(span, a);
    QuotRem(span, remote);
    assert q > 0 by {
      BelowProduct(0, a, remote, 0);
    }
    SizeThree(cells, q * a, replicas);
    assert cells * span * replicas == span * (cells * replicas);
    SizePositive(Grid(z));
    HeadReplicaGroups(cells, q, a, replicas, 0, 0);
    RemoteShare(span, remote, a, q);
  }

  lemma RemoteShare(span: nat, remote: nat, a: nat, q: nat)
    requires remote > 0 && a > 0 && q * a == span && a == Quot(span, remote)
    ensures q >= remote && (q == remote <==> Rem(span, remote) == 0)
  {
    hide Quot, Rem;
    QuotRem(span, remote);
    assert a * remote + Rem(span, remote) == q * a;
    if q < remote {
      MulMonotone(q + 1, remote, a);
    } else if q > remote {
      MulMonotone(remote + 1, q, a);
    }
  }
}

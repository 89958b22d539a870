/**
 Sequence-parallel replacement of an all-reduce: pad, reduce-scatter, later all-gather and
 unpad, on the lists of rows that every rank of a group holds.
 */
module Collectives {
  import opened MixedRadix
  import opened Vectors

  type Row = seq<real>

  function Plus(a: Row, b: Row): Row {
    seq(|a|, i requires 0 <= i < |a| => a[i] + if i < |b| then b[i] else 0.0)
  }

  function ZeroRows(count: nat, width: nat): (r: seq<Row>)
    ensures |r| == count
  {
    seq(count, _ => seq(width, _ => 0.0))
  }

  /** Every rank of a non-empty group holds n rows. */
  ghost predicate SameLength(xs: seq<seq<Row>>, n: nat) {
    xs != [] && forall r :: 0 <= r < |xs| ==> |xs[r]| == n
  }

  // ---------------------------------------------------------------- the collectives

  /** Row i added up over the ranks. */
  function RowSum(xs: seq<seq<Row>>, i: nat): Row
    requires xs != [] && forall r :: 0 <= r < |xs| ==> i < |xs[r]|
  {
    var last := xs[|xs|-1][i];
    if |xs| == 1 then last else Plus(RowSum(xs[..|xs|-1], i), last)
  }

  ghost function AllReduce(xs: seq<seq<Row>>, n: nat): (r: seq<Row>)
    requires SameLength(xs, n)
    ensures |r| == n
  {
    seq(n, i requires 0 <= i < n => RowSum(xs, i))
  }

  /** All rows of all ranks have this many entries. */
  ghost predicate SameWidth(xs: seq<seq<Row>>, n: nat, width: nat) {
    SameLength(xs, n) && forall r, i :: 0 <= r < |xs| && 0 <= i < n ==> |xs[r][i]| == width
  }

  /** One entry as each rank has it. */
  function Across(xs: seq<seq<Row>>, i: nat, j: nat): (v: Vec)
    requires forall r :: 0 <= r < |xs| ==> i < |xs[r]| && j < |xs[r][i]|
    ensures |v| == |xs|
  {
    seq(|xs|, r requires 0 <= r < |xs| => xs[r][i][j])
  }

  lemma {:induction false} RowSumAt(xs: seq<seq<Row>>, n: nat, width: nat, i: nat, j: nat)
    requires SameWidth(xs, n, width) && i < n && j < width
    ensures |RowSum(xs, i)| == width && RowSum(xs, i)[j] == Total(Across(xs, i, j))
    decreases |xs|
  {
    var m := |xs| - 1;
    var front, v := xs[..m], Across(xs, i, j);
    TotalAppend(v[..m], v[m]);
    assert v == v[..m] + [v[m]];
    if m > 0 {
      RowSumAt(front, n, width, i, j);
      assert v[..m] == Across(front, i, j);
    } else {
      assert v[..m] == [];
    }
  }

  /** After an all-reduce every entry is the total of that entry over the ranks. */
  lemma AllReduceAddsUp(xs: seq<seq<Row>>, n: nat, width: nat, i: nat, j: nat)
    requires SameWidth(xs, n, width) && i < n && j < width
    ensures |AllReduce(xs, n)| == n && |AllReduce(xs, n)[i]| == width
    ensures AllReduce(xs, n)[i][j] == Total(Across(xs, i, j))
  {
    RowSumAt(xs, n, width, i, j);
  }

  /** Rows rank * c up to rank * c + c, where c is an equal share. */
  function Share(rows: seq<Row>, ranks: nat, rank: nat): (r: seq<Row>)
    requires ranks > 0 && Rem(|rows|, ranks) == 0 && rank < ranks
    ensures |r| == Quot(|rows|, ranks)
    ensures forall i {:trigger r[i]} :: 0 <= i < |r| ==>
      rank * |r| + i < |rows| && r[i] == rows[rank * |r| + i]
  {
    var c := Quot(|rows|, ranks);
    QuotRem(|rows|, ranks);
    MulMonotone(rank + 1, ranks, c);
    Distribute(rank, 1, c);
    rows[rank * c..rank * c + c]
  }

  /** What each rank is left with. */
  ghost function ReduceScatter(xs: seq<seq<Row>>, n: nat): (r: seq<seq<Row>>)
    requires SameLength(xs, n) && Rem(n, |xs|) == 0
    ensures |r| == |xs|
  {
    seq(|xs|, rank requires 0 <= rank < |xs| => Share(AllReduce(xs, n), |xs|, rank))
  }

  function AllGather(ys: seq<seq<Row>>): seq<Row> {
    if ys == [] then [] else AllGather(ys[..|ys|-1]) + ys[|ys|-1]
  }

  /** Gathering equal shares: row f is row f % c of rank f / c. */
  lemma {:induction false} GatheredRow(ys: seq<seq<Row>>, c: nat, f: nat)
    requires c > 0 && (forall r :: 0 <= r < |ys| ==> |ys[r]| == c)
    ensures |AllGather(ys)| == |ys| * c
    ensures f < |ys| * c ==> Quot(f, c) < |ys| && AllGather(ys)[f] == ys[Quot(f, c)][Rem(f, c)]
  {
    if ys != [] {
      hide Quot, Rem;
      var n := |ys| - 1;
      GatheredRow(ys[..n], c, f);
      Distribute(n, 1, c);
      if n * c <= f < |ys| * c {
        QuotRemUnique(n, c, f - n * c);
      }
    }
  }

  lemma {:induction false} GatheredNothing(ys: seq<seq<Row>>)
    requires forall r :: 0 <= r < |ys| ==> |ys[r]| == 0
    ensures AllGather(ys) == []
  {
    if ys != [] {
      GatheredNothing(ys[..|ys|-1]);
    }
  }

  /** Scattering equal shares and gathering them again gives the rows back. */
  lemma GatherShares(rows: seq<Row>, ys: seq<seq<Row>>)
    requires |ys| > 0 && Rem(|rows|, |ys|) == 0
    requires forall r :: 0 <= r < |ys| ==> ys[r] == Share(rows, |ys|, r)
    ensures AllGather(ys) == rows
  {
    hide Quot, Rem, AllGather;
    var c := Quot(|rows|, |ys|);
    QuotRem(|rows|, |ys|);
    if c == 0 {
      GatheredNothing(ys);
    } else {
      GatheredRow(ys, c, 0);
      forall f | 0 <= f < |rows| ensures AllGather(ys)[f] == rows[f] {
        GatheredRow(ys, c, f);
        QuotRem(f, c);
        assert ys[Quot(f, c)][Rem(f, c)] == rows[Quot(f, c) * c + Rem(f, c)];
      }
    }
  }

  /** A reduce-scatter followed by an all-gather is an all-reduce. */
  lemma ScatterGather(xs: seq<seq<Row>>, n: nat)
    requires SameLength(xs, n) && Rem(n, |xs|) == 0
    ensures AllGather(ReduceScatter(xs, n)) == AllReduce(xs, n)
  {
    hide Quot, Rem, AllGather, AllReduce;
    GatherShares(AllReduce(xs, n), ReduceScatter(xs, n));
  }

  // ---------------------------------------------------------------- the tensor-parallel branch

  function Padded(x: seq<Row>, pad: nat, width: nat): (r: seq<Row>)
    ensures |r| == |x| + pad
  {
    if pad > 0 then x + ZeroRows(pad, width) else x
  }

  function PaddedAll(xs: seq<seq<Row>>, pad: nat, width: nat): (r: seq<seq<Row>>)
    ensures |r| == |xs| && forall k :: 0 <= k < |xs| ==> r[k] == Padded(xs[k], pad, width)
  {
    seq(|xs|, k requires 0 <= k < |xs| => Padded(xs[k], pad, width))
  }

  ghost function PadAndReduce(xs: seq<seq<Row>>, n: nat, pad: nat, width: nat): (r: seq<seq<Row>>)
    requires SameLength(xs, n) && Rem(n + pad, |xs|) == 0
    ensures |r| == |xs|
  {
    ReduceScatter(PaddedAll(xs, pad, width), n + pad)
  }

  function GatherAndUnpad(ys: seq<seq<Row>>, pad: nat): seq<Row> {
    var x := AllGather(ys);
    if pad == 0 then x else if pad <= |x| then x[..|x| - pad] else []
  }

  lemma PaddedRow(x: seq<Row>, pad: nat, width: nat, i: nat)
    requires i < |x|
    ensures Padded(x, pad, width)[i] == x[i]
  {
  }

  lemma {:induction false} PaddedRowSum(xs: seq<seq<Row>>, n: nat, pad: nat, width: nat, i: nat)
    requires SameLength(xs, n) && i < n
    ensures RowSum(PaddedAll(xs, pad, width), i) == RowSum(xs, i)
    decreases |xs|
  {
    hide Plus, Padded;
    PaddedRow(xs[|xs|-1], pad, width, i);
    var ps := PaddedAll(xs, pad, width);
    if |xs| > 1 {
      var front := xs[..|xs|-1];
      assert ps[..|xs|-1] == PaddedAll(front, pad, width);
      PaddedRowSum(front, n, pad, width, i);
    }
  }

  /** The kept rows of a padded reduction are the unpadded reduction. */
  lemma PaddedReduce(xs: seq<seq<Row>>, n: nat, pad: nat, width: nat)
    requires SameLength(xs, n)
    ensures AllReduce(PaddedAll(xs, pad, width), n + pad)[..n] == AllReduce(xs, n)
  {
    hide RowSum;
    forall i | 0 <= i < n ensures AllReduce(PaddedAll(xs, pad, width), n + pad)[i] == AllReduce(xs, n)[i] {
      PaddedRowSum(xs, n, pad, width, i);
    }
  }

  /** With any padding to a multiple of the group size, the two halves together are an all-reduce, on every rank. */
  lemma TpBranchIsAllReduce(xs: seq<seq<Row>>, n: nat, pad: nat, width: nat)
    requires SameLength(xs, n) && Rem(n + pad, |xs|) == 0
    ensures GatherAndUnpad(PadAndReduce(xs, n, pad, width), pad) == AllReduce(xs, n)
  {
    hide Quot, Rem, AllGather, AllReduce, ReduceScatter;
    ScatterGather(PaddedAll(xs, pad, width), n + pad);
    PaddedReduce(xs, n, pad, width);
  }

  // ---------------------------------------------------------------- the residual

  function Least(a: nat, b: nat): nat {
    if a < b then a else b
  }

  /** torch.chunk: pieces of the rounded-up equal length, the last ones shorter or missing. */
  function Chunk(rows: seq<Row>, pieces: nat, k: nat): seq<Row>
    requires pieces > 0
  {
    var c := Quot(|rows| + pieces - 1, pieces);
    rows[Least(k * c, |rows|)..Least(k * c + c, |rows|)]
  }

  function ChunksTo(rows: seq<Row>, pieces: nat, k: nat): seq<Row>
    requires pieces > 0
  {
    if k == 0 then [] else ChunksTo(rows, pieces, k - 1) + Chunk(rows, pieces, k - 1)
  }

  lemma {:induction false} ChunksReach(rows: seq<Row>, pieces: nat, k: nat)
    requires pieces > 0
    ensures ChunksTo(rows, pieces, k) == rows[..Least(k * Quot(|rows| + pieces - 1, pieces), |rows|)]
  {
    hide Quot;
    if k > 0 {
      ChunksReach(rows, pieces, k - 1);
      Distribute(k - 1, 1, Quot(|rows| + pieces - 1, pieces));
    }
  }

  /** The chunks one behind the other are the rows, also when these do not divide evenly. */
  lemma ChunksRejoin(rows: seq<Row>, pieces: nat)
    requires pieces > 0
    ensures ChunksTo(rows, pieces, pieces) == rows
  {
    hide Quot, Rem, ChunksTo;
    var c := Quot(|rows| + pieces - 1, pieces);
    QuotRem(|rows| + pieces - 1, pieces);
    ChunksReach(rows, pieces, pieces);
    assert pieces * c == c * pieces;
  }

  function ChunkResidual(x: seq<Row>, residual: seq<Row>, pad: nat, width: nat, tp: nat, rank: nat): seq<Row>
    requires tp > 0
  {
    if |x| != |residual| then Chunk(Padded(residual, pad, width), tp, rank) else residual
  }

  function AddRows(a: seq<Row>, b: seq<Row>): (r: seq<Row>)
    requires |a| == |b|
    ensures |r| == |a|
  {
    seq(|a|, i requires 0 <= i < |a| => Plus(a[i], b[i]))
  }

  /** When the rows divide evenly, a chunk is an equal share. */
  lemma ChunkIsShare(rows: seq<Row>, pieces: nat, k: nat)
    requires pieces > 0 && Rem(|rows|, pieces) == 0 && k < pieces
    ensures Chunk(rows, pieces, k) == Share(rows, pieces, k)
  {
    hide Quot, Rem;
    var c := Quot(|rows|, pieces);
    QuotRem(|rows|, pieces);
    QuotRemUnique(c, pieces, pieces - 1);
    assert |rows| + pieces - 1 == c * pieces + (pieces - 1);
    MulMonotone(k + 1, pieces, c);
    Distribute(k, 1, c);
  }

  /** A rank's part of the residual is as long as its shard, and its kept rows are the right ones. */
  lemma ResidualPart(ranks: nat, n: nat, pad: nat, width: nat, residual: seq<Row>, x: seq<Row>, rank: nat)
    requires ranks > 0 && Rem(n + pad, ranks) == 0 && |residual| == n && rank < ranks
    requires |x| == Quot(n + pad, ranks)
    ensures
      var part := ChunkResidual(x, residual, pad, width, ranks, rank);
      && |part| == |x|
      && forall i :: 0 <= i < |x| && rank * |x| + i < n ==> part[i] == residual[rank * |x| + i]
  {
    hide Quot, Rem, Chunk;
    var c, padded := |x|, Padded(residual, pad, width);
    if c != n {
      ChunkIsShare(padded, ranks, rank);
    } else if rank > 0 {
      MulMonotone(1, rank, c);
    }
  }

  lemma ShardRow(xs: seq<seq<Row>>, n: nat, pad: nat, width: nat, r: nat, i: nat)
    requires SameLength(xs, n) && Rem(n + pad, |xs|) == 0 && r < |xs|
    ensures |PadAndReduce(xs, n, pad, width)[r]| == Quot(n + pad, |xs|)
    ensures i < Quot(n + pad, |xs|) && r * Quot(n + pad, |xs|) + i < n ==>
      PadAndReduce(xs, n, pad, width)[r][i] == AllReduce(xs, n)[r * Quot(n + pad, |xs|) + i]
  {
    hide Quot, Rem, AllReduce;
    var whole := AllReduce(PaddedAll(xs, pad, width), n + pad);
    var share, c := Share(whole, |xs|, r), Quot(n + pad, |xs|);
    assert PadAndReduce(xs, n, pad, width)[r] == share && |share| == c;
    if i < c && r * c + i < n {
      PaddedReduce(xs, n, pad, width);
      assert share[i] == whole[r * c + i] == whole[..n][r * c + i];
    }
  }

  /** Each rank's shard with its part of the residual added. */
  ghost function WithResidual(xs: seq<seq<Row>>, n: nat, pad: nat, width: nat, residual: seq<Row>): (zs: seq<seq<Row>>)
    requires SameLength(xs, n) && Rem(n + pad, |xs|) == 0 && |residual| == n
    ensures |zs| == |xs|
  {
    seq(|xs|, r requires 0 <= r < |xs| => ShardWithResidual(xs, n, pad, width, residual, r))
  }

  ghost function ShardWithResidual(
    xs: seq<seq<Row>>, n: nat, pad: nat, width: nat, residual: seq<Row>, r: nat): (z: seq<Row>)
    requires SameLength(xs, n) && Rem(n + pad, |xs|) == 0 && |residual| == n && r < |xs|
    ensures |z| == Quot(n + pad, |xs|)
  {
    var shard := PadAndReduce(xs, n, pad, width)[r];
    ShardRow(xs, n, pad, width, r, 0);
    ResidualPart(|xs|, n, pad, width, residual, shard, r);
    AddRows(shard, ChunkResidual(shard, residual, pad, width, |xs|, r))
  }

  lemma ResidualRow(xs: seq<seq<Row>>, n: nat, pad: nat, width: nat, residual: seq<Row>, r: nat, i: nat, f: nat)
    requires SameLength(xs, n) && Rem(n + pad, |xs|) == 0 && |residual| == n && r < |xs|
    requires i < Quot(n + pad, |xs|) && f < n && f == r * Quot(n + pad, |xs|) + i
    ensures ShardWithResidual(xs, n, pad, width, residual, r)[i] == Plus(AllReduce(xs, n)[f], residual[f])
  {
    hide Quot, Rem, AllReduce, ChunkResidual, PadAndReduce, Plus;
    ShardRow(xs, n, pad, width, r, i);
    ResidualPart(|xs|, n, pad, width, residual, PadAndReduce(xs, n, pad, width)[r], r);
  }

  /** Gathering equal shares of a total: its length, and where row f comes from. */
  lemma GatheredShares(ys: seq<seq<Row>>, total: nat)
    requires |ys| > 0 && Rem(total, |ys|) == 0 && forall r :: 0 <= r < |ys| ==> |ys[r]| == Quot(total, |ys|)
    ensures |AllGather(ys)| == total
  {
    hide Quot, Rem, AllGather;
    var c := Quot(total, |ys|);
    QuotRem(total, |ys|);
    if c == 0 {
      GatheredNothing(ys);
    } else {
      GatheredRow(ys, c, 0);
    }
  }

  lemma GatheredFrom(ys: seq<seq<Row>>, total: nat, f: nat)
    requires |ys| > 0 && Rem(total, |ys|) == 0 && forall r :: 0 <= r < |ys| ==> |ys[r]| == Quot(total, |ys|)
    requires f < total
    ensures Quot(total, |ys|) > 0
    ensures
      var c := Quot(total, |ys|);
      && Quot(f, c) < |ys| && f == Quot(f, c) * c + Rem(f, c)
      && f < |AllGather(ys)| && AllGather(ys)[f] == ys[Quot(f, c)][Rem(f, c)]
  {
    hide Quot, Rem, AllGather;
    var c := Quot(total, |ys|);
    QuotRem(total, |ys|);
    QuotRem(f, c);
    GatheredRow(ys, c, f);
  }

  lemma ResidualCommutesAt(xs: seq<seq<Row>>, n: nat, pad: nat, width: nat, residual: seq<Row>, f: nat)
    requires SameLength(xs, n) && Rem(n + pad, |xs|) == 0 && |residual| == n && f < n
    ensures
      var zs := WithResidual(xs, n, pad, width, residual);
      f < |AllGather(zs)| && AllGather(zs)[f] == AddRows(AllReduce(xs, n), residual)[f]
  {
    hide Quot, Rem, AllGather, AllReduce, ShardWithResidual, Plus;
    var zs := WithResidual(xs, n, pad, width, residual);
    GatheredFrom(zs, n + pad, f);
    var c := Quot(n + pad, |xs|);
    ResidualRow(xs, n, pad, width, residual, Quot(f, c), Rem(f, c), f);
  }

  /** Row by row and entry by entry. */
  lemma AddRowsAt(a: seq<Row>, b: seq<Row>, i: nat, j: nat)
    requires |a| == |b| && i < |a| && |a[i]| == |b[i]| && j < |a[i]|
    ensures |AddRows(a, b)[i]| == |a[i]| && AddRows(a, b)[i][j] == a[i][j] + b[i][j]
  {
  }

  /** Every entry after the branch is the total over the ranks, with the residual's entry added once. */
  lemma ResidualAddedOnce(
    xs: seq<seq<Row>>, n: nat, pad: nat, width: nat, residual: seq<Row>, entries: nat, i: nat, j: nat)
    requires SameWidth(xs, n, entries) && Rem(n + pad, |xs|) == 0 && |residual| == n
    requires i < n && |residual[i]| == entries && j < entries
    ensures
      var z := GatherAndUnpad(WithResidual(xs, n, pad, width, residual), pad);
      && |z| == n && |z[i]| == entries && z[i][j] == Total(Across(xs, i, j)) + residual[i][j]
  {
    hide AllReduce, AddRows, WithResidual, GatherAndUnpad, Total, Rem;
    ResidualCommutes(xs, n, pad, width, residual);
    AllReduceAddsUp(xs, n, entries, i, j);
    AddRowsAt(AllReduce(xs, n), residual, i, j);
  }

  /** The residual can be added on the shards before gathering: also where a shard is as long as the whole. */
  lemma ResidualCommutes(xs: seq<seq<Row>>, n: nat, pad: nat, width: nat, residual: seq<Row>)
    requires SameLength(xs, n) && Rem(n + pad, |xs|) == 0 && |residual| == n
    ensures GatherAndUnpad(WithResidual(xs, n, pad, width, residual), pad) == AddRows(AllReduce(xs, n), residual)
  {
    hide Quot, Rem, AllGather, AllReduce, ShardWithResidual, Plus;
    var zs := WithResidual(xs, n, pad, width, residual);
    GatheredShares(zs, n + pad);
    hide WithResidual, AddRows;
    forall f | 0 <= f < n ensures AllGather(zs)[f] == AddRows(AllReduce(xs, n), residual)[f] {
      ResidualCommutesAt(xs, n, pad, width, residual, f);
    }
  }
}

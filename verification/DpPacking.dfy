/**
 The data-parallel branch of the sequence-parallel collectives: every rank's batch goes into a
 block of padded length before the reduction, and comes out of it after the gathering.
 */
module DpPacking {
  import opened Wrappers
  import opened MixedRadix
  import opened Collectives

  /** The rows of the batches before batch b. */
  function Offset(counts: seq<nat>, b: nat): nat
    requires b <= |counts|
  {
    if b == 0 then 0 else Offset(counts, b - 1) + counts[b-1]
  }

  lemma {:induction false} OffsetGrows(counts: seq<nat>, a: nat, b: nat)
    requires a <= b <= |counts|
    ensures Offset(counts, a) <= Offset(counts, b)
  {
    if a < b {
      OffsetGrows(counts, a, b - 1);
    }
  }

  /** Where block b begins. */
  function BlockStart(b: nat, length: nat): nat {
    b * length
  }

  lemma BlockBounds(b: nat, blocks: nat, length: nat)
    requires b < blocks
    ensures BlockStart(b, length) + length == BlockStart(b + 1, length) <= BlockStart(blocks, length)
  {
    Distribute(b, 1, length);
    MulMonotone(b + 1, blocks, length);
  }

  lemma NoBlocks(length: nat)
    ensures BlockStart(0, length) == 0
  {
  }

  /** Every batch fits its block, and the batches together are the rows. */
  ghost predicate Fits(counts: seq<nat>, length: nat, rows: nat) {
    BatchesFit(counts, length) && Offset(counts, |counts|) == rows
  }

  ghost predicate BatchesFit(counts: seq<nat>, length: nat) {
    forall b :: 0 <= b < |counts| ==> counts[b] <= length
  }

  /** Rows at up to at + count. */
  function Slice(rows: seq<Row>, at: nat, count: nat): (r: seq<Row>)
    requires at + count <= |rows|
    ensures |r| == count
  {
    rows[at..at + count]
  }

  lemma SliceAt(rows: seq<Row>, at: nat, count: nat, k: nat)
    requires at + count <= |rows| && k < count
    ensures Slice(rows, at, count)[k] == rows[at + k]
  {
  }

  /** Where batch b lies among the rows and where its block lies. */
  lemma BatchBounds(counts: seq<nat>, length: nat, rows: nat, b: nat)
    requires Fits(counts, length, rows) && b < |counts|
    ensures counts[b] <= length && Offset(counts, b) + counts[b] <= rows
    ensures BlockStart(b, length) + length == BlockStart(b + 1, length) <= BlockStart(|counts|, length)
  {
    hide BlockStart;
    BlockBounds(b, |counts|, length);
    OffsetGrows(counts, b + 1, |counts|);
  }

  /** The first b blocks: each batch, and behind it what was in the memory before. */
  function Packed(x: seq<Row>, counts: seq<nat>, length: nat, filler: seq<Row>, b: nat): (r: seq<Row>)
    requires Fits(counts, length, |x|) && |filler| == BlockStart(|counts|, length) && b <= |counts|
    ensures |r| == BlockStart(b, length)
  {
    NoBlocks(length);
    if b == 0 then []
    else
      BatchBounds(counts, length, |x|, b - 1);
      Packed(x, counts, length, filler, b - 1)
      + Slice(x, Offset(counts, b - 1), counts[b-1])
      + Slice(filler, BlockStart(b - 1, length) + counts[b-1], length - counts[b-1])
  }

  /** The first b blocks' batches, one behind the other. */
  function Unpacked(y: seq<Row>, counts: seq<nat>, length: nat, b: nat): (r: seq<Row>)
    requires b <= |counts| && |y| == BlockStart(|counts|, length) && BatchesFit(counts, length)
    ensures |r| == Offset(counts, b)
  {
    if b == 0 then []
    else
      BlockBounds(b - 1, |counts|, length);
      Unpacked(y, counts, length, b - 1) + Slice(y, BlockStart(b - 1, length), counts[b-1])
  }

  // ---------------------------------------------------------------- the two loops

  /** A slice assignment: count rows of y, from position at on, go to position to on. */
  method CopyRows(rows: array<Row>, to: nat, y: seq<Row>, at: nat, count: nat)
    requires to + count <= rows.Length && at + count <= |y|
    modifies rows
    ensures rows[..] == old(rows[..to]) + Slice(y, at, count) + old(rows[to + count..])
  {
    forall k | 0 <= k < count {
      rows[to + k] := y[at + k];
    }
  }

  /** The body of the packing loop: one block. */
  method PackBlock(
    padded: array<Row>, x: seq<Row>, counts: seq<nat>, length: nat, ghost filler: seq<Row>, b: nat, offset: nat)
    requires Fits(counts, length, |x|) && |filler| == BlockStart(|counts|, length) && b < |counts|
    requires offset == Offset(counts, b) && BlockStart(b, length) <= |filler|
    requires padded[..] == Packed(x, counts, length, filler, b) + filler[BlockStart(b, length)..]
    modifies padded
    ensures BlockStart(b + 1, length) <= |filler|
    ensures padded[..] == Packed(x, counts, length, filler, b + 1) + filler[BlockStart(b + 1, length)..]
  {
    hide BlockStart, Fits, Slice, Packed, Offset, BatchesFit;
    BatchBounds(counts, length, |x|, b);
    PackedStep(x, counts, length, filler, b);
    ghost var before, done := padded[..], Packed(x, counts, length, filler, b);
    assert |before| == padded.Length == |filler|;
    CopyRows(padded, BlockStart(b, length), x, offset, counts[b]);
    Spliced(before, padded[..], done, filler, counts[b], length, Slice(x, offset, counts[b]));
  }

  method Pack(x: seq<Row>, counts: seq<nat>, length: nat, filler: seq<Row>) returns (packed: seq<Row>)
    requires Fits(counts, length, |x|) && |filler| == BlockStart(|counts|, length)
    ensures packed == Packed(x, counts, length, filler, |counts|)
  {
    hide BlockStart, Fits, Packed;
    var padded := new Row[|filler|](f requires 0 <= f < |filler| => filler[f]);
    var offset := 0;
    NoBlocks(length);
    PackedNone(x, counts, length, filler);
    assert padded[..] == filler == [] + filler[0..];
    for b := 0 to |counts|
      invariant BlockStart(b, length) <= |filler| && offset == Offset(counts, b)
      invariant padded[..] == Packed(x, counts, length, filler, b) + filler[BlockStart(b, length)..]
    {
      PackBlock(padded, x, counts, length, filler, b, offset);
      offset := offset + counts[b];
    }
    packed := padded[..];
  }

  lemma PackedNone(x: seq<Row>, counts: seq<nat>, length: nat, filler: seq<Row>)
    requires Fits(counts, length, |x|) && |filler| == BlockStart(|counts|, length)
    ensures Packed(x, counts, length, filler, 0) == []
  {
  }

  lemma PackedStep(x: seq<Row>, counts: seq<nat>, length: nat, filler: seq<Row>, b: nat)
    requires Fits(counts, length, |x|) && |filler| == BlockStart(|counts|, length) && b < |counts|
    ensures Offset(counts, b) + counts[b] <= |x| && counts[b] <= length
    ensures BlockStart(b, length) + length <= |filler|
    ensures Packed(x, counts, length, filler, b + 1)
      == Packed(x, counts, length, filler, b) + Slice(x, Offset(counts, b), counts[b])
         + Slice(filler, BlockStart(b, length) + counts[b], length - counts[b])
  {
    hide BlockStart, Slice;
    BatchBounds(counts, length, |x|, b);
  }

  lemma Spliced(
    before: seq<Row>, after: seq<Row>, done: seq<Row>, filler: seq<Row>, count: nat, length: nat, batch: seq<Row>)
    requires count <= length && |done| + length <= |filler| && |batch| == count
    requires before == done + filler[|done|..]
    requires after == before[..|done|] + batch + before[|done| + count..]
    ensures after == done + batch + Slice(filler, |done| + count, length - count) + filler[|done| + length..]
  {
    assert before[..|done|] == done;
    assert before[|done| + count..] == filler[|done| + count..];
    assert filler[|done| + count..] == Slice(filler, |done| + count, length - count) + filler[|done| + length..];
  }

  method Unpack(y: seq<Row>, counts: seq<nat>, length: nat) returns (result: seq<Row>)
    requires |y| == BlockStart(|counts|, length) && BatchesFit(counts, length)
    ensures result == Unpacked(y, counts, length, |counts|)
  {
    hide BlockStart, Slice;
    var rows := new Row[Offset(counts, |counts|)];
    var offset := 0;
    for b := 0 to |counts|
      invariant offset == Offset(counts, b) <= rows.Length
      invariant rows[..offset] == Unpacked(y, counts, length, b)
    {
      BlockBounds(b, |counts|, length);
      OffsetGrows(counts, b + 1, |counts|);
      ghost var before := rows[..];
      CopyRows(rows, offset, y, BlockStart(b, length), counts[b]);
      Grown(before, rows[..], offset, Slice(y, BlockStart(b, length), counts[b]));
      offset := offset + counts[b];
    }
    result := rows[..];
  }

  lemma Grown(before: seq<Row>, after: seq<Row>, offset: nat, batch: seq<Row>)
    requires offset + |batch| <= |before| && after == before[..offset] + batch + before[offset + |batch|..]
    ensures |after| == |before| && after[..offset + |batch|] == before[..offset] + batch
  {
  }

  // ---------------------------------------------------------------- the branch as a whole

  /** The batch at the head of block c is z's batch. */
  ghost predicate KeptBatch(y: seq<Row>, counts: seq<nat>, length: nat, z: seq<Row>, c: nat)
    requires c < |counts|
  {
    && BlockStart(c, length) + counts[c] <= |y| && Offset(counts, c) + counts[c] <= |z|
    && Slice(y, BlockStart(c, length), counts[c]) == Slice(z, Offset(counts, c), counts[c])
  }

  /** Unpacking gives z when every block's batch is z's. */
  lemma {:induction false} UnpackedIs(y: seq<Row>, counts: seq<nat>, length: nat, z: seq<Row>, b: nat)
    requires b <= |counts| && |y| == BlockStart(|counts|, length) && Fits(counts, length, |z|)
    requires forall c: nat :: c < |counts| ==> KeptBatch(y, counts, length, z, c)
    ensures Offset(counts, b) <= |z| && Unpacked(y, counts, length, b) == z[..Offset(counts, b)]
    decreases b
  {
    hide BlockStart;
    OffsetGrows(counts, b, |counts|);
    if b > 0 {
      UnpackedIs(y, counts, length, z, b - 1);
      assert KeptBatch(y, counts, length, z, b - 1);
      assert z[..Offset(counts, b)] == z[..Offset(counts, b - 1)] + Slice(z, Offset(counts, b - 1), counts[b-1]);
    }
  }

  /** Each batch stands at the head of its block. */
  lemma {:induction false} PackedKeeps(x: seq<Row>, counts: seq<nat>, length: nat, filler: seq<Row>, b: nat, c: nat)
    requires Fits(counts, length, |x|) && |filler| == BlockStart(|counts|, length) && c < b <= |counts|
    ensures KeptBatch(Packed(x, counts, length, filler, b), counts, length, x, c)
    decreases b
  {
    hide BlockStart, Slice;
    BatchBounds(counts, length, |x|, b - 1);
    var front := Packed(x, counts, length, filler, b - 1);
    var batch := Slice(x, Offset(counts, b - 1), counts[b-1]);
    var rest := Slice(filler, BlockStart(b - 1, length) + counts[b-1], length - counts[b-1]);
    if c == b - 1 {
      SliceMiddle(front, batch, rest);
    } else {
      BatchBounds(counts, length, |x|, c);
      PackedKeeps(x, counts, length, filler, b - 1, c);
      SliceFront(front, batch + rest, BlockStart(c, length), counts[c]);
      assert front + batch + rest == front + (batch + rest);
    }
  }

  lemma SliceMiddle(front: seq<Row>, middle: seq<Row>, back: seq<Row>)
    ensures Slice(front + middle + back, |front|, |middle|) == middle
  {
  }

  lemma SliceFront(front: seq<Row>, back: seq<Row>, at: nat, count: nat)
    requires at + count <= |front|
    ensures Slice(front + back, at, count) == Slice(front, at, count)
  {
  }

  /** Unpacking undoes packing, whatever stood in the padding. */
  lemma UnpackPacked(x: seq<Row>, counts: seq<nat>, length: nat, filler: seq<Row>)
    requires Fits(counts, length, |x|) && |filler| == BlockStart(|counts|, length)
    ensures Unpacked(Packed(x, counts, length, filler, |counts|), counts, length, |counts|) == x
  {
    hide BlockStart, Packed, Unpacked, KeptBatch;
    forall c: nat | c < |counts|
      ensures KeptBatch(Packed(x, counts, length, filler, |counts|), counts, length, x, c)
    {
      PackedKeeps(x, counts, length, filler, |counts|, c);
    }
    UnpackedIs(Packed(x, counts, length, filler, |counts|), counts, length, x, |counts|);
  }

  ghost predicate FillersFit(fillers: seq<seq<Row>>, ranks: nat, size: nat) {
    |fillers| == ranks && forall r :: 0 <= r < ranks ==> |fillers[r]| == size
  }

  /** Every rank packs its rows into memory of its own. */
  function PackedAll(xs: seq<seq<Row>>, n: nat, counts: seq<nat>, length: nat, fillers: seq<seq<Row>>): (ps: seq<seq<Row>>)
    requires (forall r :: 0 <= r < |xs| ==> |xs[r]| == n)
    requires Fits(counts, length, n) && FillersFit(fillers, |xs|, BlockStart(|counts|, length))
    ensures |ps| == |xs| && forall r :: 0 <= r < |ps| ==> ps[r] == Packed(xs[r], counts, length, fillers[r], |counts|)
  {
    seq(|xs|, r requires 0 <= r < |xs| => Packed(xs[r], counts, length, fillers[r], |counts|))
  }

  /** Adding up a kept row over the ranks does not see the padding. */
  lemma {:induction false} PackedRowSum(
    xs: seq<seq<Row>>, n: nat, counts: seq<nat>, length: nat, fillers: seq<seq<Row>>, b: nat, k: nat)
    requires SameLength(xs, n) && Fits(counts, length, n) && FillersFit(fillers, |xs|, BlockStart(|counts|, length))
    requires b < |counts| && k < counts[b]
    ensures BlockStart(b, length) + k < BlockStart(|counts|, length) && Offset(counts, b) + k < n
    ensures RowSum(PackedAll(xs, n, counts, length, fillers), BlockStart(b, length) + k)
      == RowSum(xs, Offset(counts, b) + k)
    decreases |xs|
  {
    hide Packed, BlockStart, Fits, Slice;
    var ps, m := PackedAll(xs, n, counts, length, fillers), |xs| - 1;
    BatchBounds(counts, length, n, b);
    PackedKeeps(xs[m], counts, length, fillers[m], |counts|, b);
    SliceAt(ps[m], BlockStart(b, length), counts[b], k);
    SliceAt(xs[m], Offset(counts, b), counts[b], k);
    assert ps[m][BlockStart(b, length) + k] == xs[m][Offset(counts, b) + k];
    if m > 0 {
      PackedRowSum(xs[..m], n, counts, length, fillers[..m], b, k);
      assert ps[..m] == PackedAll(xs[..m], n, counts, length, fillers[..m]);
    }
  }

  lemma ReducedKeeps(xs: seq<seq<Row>>, n: nat, counts: seq<nat>, length: nat, fillers: seq<seq<Row>>, c: nat)
    requires SameLength(xs, n) && Fits(counts, length, n) && FillersFit(fillers, |xs|, BlockStart(|counts|, length))
    requires c < |counts|
    ensures KeptBatch(AllReduce(PackedAll(xs, n, counts, length, fillers), BlockStart(|counts|, length)),
                      counts, length, AllReduce(xs, n), c)
  {
    hide Packed, BlockStart, Fits, Slice, RowSum, PackedAll;
    var y, z := AllReduce(PackedAll(xs, n, counts, length, fillers), BlockStart(|counts|, length)), AllReduce(xs, n);
    BatchBounds(counts, length, n, c);
    var a, b := Slice(y, BlockStart(c, length), counts[c]), Slice(z, Offset(counts, c), counts[c]);
    forall k: nat | k < counts[c] ensures a[k] == b[k] {
      PackedRowSum(xs, n, counts, length, fillers, c, k);
      SliceAt(y, BlockStart(c, length), counts[c], k);
      SliceAt(z, Offset(counts, c), counts[c], k);
    }
    assert a == b;
  }

  /**
   Packing, reduce-scatter over the expert group, all-gather and unpacking are an all-reduce,
   for any batch sizes, any padded length that the group divides evenly, and any padding.
   */
  lemma DpBranchIsAllReduce(xs: seq<seq<Row>>, n: nat, counts: seq<nat>, length: nat, fillers: seq<seq<Row>>)
    requires SameLength(xs, n) && Fits(counts, length, n) && FillersFit(fillers, |xs|, BlockStart(|counts|, length))
    requires Rem(BlockStart(|counts|, length), |xs|) == 0
    ensures
      var gathered := AllGather(ReduceScatter(PackedAll(xs, n, counts, length, fillers), BlockStart(|counts|, length)));
      && |gathered| == BlockStart(|counts|, length)
      && Unpacked(gathered, counts, length, |counts|) == AllReduce(xs, n)
  {
    hide Quot, Rem, AllGather, ReduceScatter, Packed, Unpacked, RowSum, BlockStart, KeptBatch, AllReduce;
    var ps, size := PackedAll(xs, n, counts, length, fillers), BlockStart(|counts|, length);
    ScatterGather(ps, size);
    var y, z := AllReduce(ps, size), AllReduce(xs, n);
    forall c: nat | c < |counts| ensures KeptBatch(y, counts, length, z, c) {
      ReducedKeeps(xs, n, counts, length, fillers, c);
    }
    UnpackedIs(y, counts, length, z, |counts|);
    assert z[..n] == z;
  }

  // ---------------------------------------------------------------- padding sizes

  /** The fields of the forward context; paddedLength is set only with several data-parallel ranks. */
  datatype Padding = Padding(padSize: int, paddedLength: Option<nat>, paddedNumTokens: nat)

  /** Rounded up to a multiple of tp. */
  function RoundedUp(n: nat, tp: nat): (r: nat)
    requires tp > 0
  {
    Quot(n + tp - 1, tp) * tp
  }

  lemma RoundedUpIs(n: nat, tp: nat)
    requires tp > 0
    ensures n <= RoundedUp(n, tp) < n + tp && Rem(RoundedUp(n, tp), tp) == 0
  {
    hide Quot, Rem;
    QuotRem(n + tp - 1, tp);
    QuotRemUnique(Quot(n + tp - 1, tp), tp, 0);
  }

  /** Only one multiple of tp lies in n up to n + tp - 1. */
  lemma RoundedUpUnique(n: nat, tp: nat, m: nat)
    requires tp > 0 && n <= m < n + tp && Rem(m, tp) == 0
    ensures m == RoundedUp(n, tp)
  {
    hide Quot, Rem;
    QuotRem(m, tp);
    assert n + tp - 1 == Quot(m, tp) * tp + (n + tp - 1 - m);
    QuotRemUnique(Quot(m, tp), tp, n + tp - 1 - m);
  }

  /**
   The padding fields for a forward pass; maxAcrossDp is the largest batch of the data-parallel
   ranks when there are several. Padding to padSize or paddedLength makes the rows divide evenly,
   and no smaller padding does.
   */
  method SetPadding(numTokens: nat, tp: nat, sequenceParallel: bool, maxAcrossDp: Option<nat>) returns (p: Padding)
    requires tp > 0 && (maxAcrossDp.Some? ==> numTokens <= maxAcrossDp.value)
    ensures !sequenceParallel ==> p.padSize == 0 && p.paddedLength.None?
    ensures sequenceParallel ==> p.padSize >= 0 && Rem(numTokens + p.padSize, tp) == 0
    ensures sequenceParallel && maxAcrossDp.None? ==>
      p.paddedLength.None? && numTokens + p.padSize == RoundedUp(numTokens, tp)
    ensures sequenceParallel && maxAcrossDp.Some? ==>
      p.paddedLength == Some(RoundedUp(maxAcrossDp.value, tp)) && numTokens + p.padSize == p.paddedLength.value
    ensures p.paddedNumTokens == RoundedUp(if maxAcrossDp.Some? then maxAcrossDp.value else numTokens, tp)
  {
    hide Quot, Rem, RoundedUp;
    var padSize: int, paddedLength: Option<nat>, maxTokens := 0, None, numTokens;
    if sequenceParallel {
      padSize := Rem(tp - Rem(numTokens, tp), tp);
      LeastPadding(numTokens, tp);
    }
    if maxAcrossDp.Some? {
      maxTokens := maxAcrossDp.value;
      if sequenceParallel {
        RoundedUpIs(maxTokens, tp);
        paddedLength := Some(RoundedUp(maxTokens, tp));
        padSize := RoundedUp(maxTokens, tp) - numTokens;
      }
    }
    RoundedUpIs(maxTokens, tp);
    p := Padding(padSize, paddedLength, RoundedUp(maxTokens, tp));
  }

  lemma LeastPadding(n: nat, tp: nat)
    requires tp > 0
    ensures Rem(n + Rem(tp - Rem(n, tp), tp), tp) == 0
    ensures n + Rem(tp - Rem(n, tp), tp) == RoundedUp(n, tp)
  {
    hide Quot, Rem, RoundedUp;
    var q, r := Quot(n, tp), Rem(n, tp);
    QuotRem(n, tp);
    if r == 0 {
      QuotRemUnique(1, tp, 0);
      assert 1 * tp + 0 == tp;
      QuotRemUnique(q, tp, 0);
    } else {
      QuotRemUnique(0, tp, tp - r);
      assert 0 * tp + (tp - r) == tp - r;
      Distribute(q, 1, tp);
      QuotRemUnique(q + 1, tp, 0);
    }
    RoundedUpUnique(n, tp, n + Rem(tp - r, tp));
  }

  /** The padded length divides evenly over the expert group of dp * tp ranks, and holds every batch. */
  lemma PaddedLengthServes(counts: seq<nat>, most: nat, tp: nat)
    requires tp > 0 && |counts| > 0 && forall b :: 0 <= b < |counts| ==> counts[b] <= most
    ensures |counts| * tp > 0 && Rem(BlockStart(|counts|, RoundedUp(most, tp)), |counts| * tp) == 0
    ensures Fits(counts, RoundedUp(most, tp), Offset(counts, |counts|))
  {
    hide Quot, Rem;
    RoundedUpIs(most, tp);
    BelowProduct(0, |counts|, tp, 0);
    var q := Quot(most + tp - 1, tp);
    assert |counts| * (q * tp) == q * (|counts| * tp);
    QuotRemUnique(q, |counts| * tp, 0);
  }
}

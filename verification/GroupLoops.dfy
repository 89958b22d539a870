/**
 Groups built by nested loops: the output- and data-parallel groups of FlashComm2, and the
 fine-grained tensor-parallel groups.
 */
module GroupLoops {
  import opened MixedRadix
  import opened RankGroups
  import opened RankLayout

  // ---------------------------------------------------------------- FlashComm2

  function StrideRank(cell: nat, tp: nat, i: nat, j: nat, num: nat): nat {
    cell * tp + (i + j * num)
  }

  /** Group i of a cell: one rank from each of the otp strides. */
  function OtpGroup(cell: nat, i: nat, tp: nat, otp: nat): (group: seq<nat>)
    requires otp > 0
    ensures |group| == otp
    ensures forall j :: 0 <= j < otp ==> group[j] == cell * tp + (i + j * Quot(tp, otp))
  {
    seq<nat>(otp, j requires 0 <= j => StrideRank(cell, tp, i, j, Quot(tp, otp)))
  }

  /** Stride j of a cell: consecutive ranks. */
  function OdpGroup(cell: nat, j: nat, tp: nat, otp: nat): (group: seq<nat>)
    requires otp > 0
    ensures |group| == Quot(tp, otp)
    ensures forall i :: 0 <= i < |group| ==> group[i] == cell * tp + (i + j * Quot(tp, otp))
  {
    seq<nat>(Quot(tp, otp), i requires 0 <= i => StrideRank(cell, tp, i, j, Quot(tp, otp)))
  }

  ghost predicate OtpFilled(groups: seq<seq<nat>>, cells: nat, tp: nat, otp: nat)
    requires otp > 0
  {
    && |groups| == cells * Quot(tp, otp)
    && forall g: nat {:trigger groups[g]} :: g < |groups| && Quot(tp, otp) > 0 ==>
         groups[g] == OtpGroup(Quot(g, Quot(tp, otp)), Rem(g, Quot(tp, otp)), tp, otp)
  }

  /** The first cells * otp groups are filled, the others still empty. */
  ghost predicate OdpFilled(groups: seq<seq<nat>>, cells: nat, tp: nat, otp: nat)
    requires otp > 0
  {
    && cells * otp <= |groups|
    && forall g: nat {:trigger groups[g]} :: g < |groups| ==>
         groups[g] == if g < cells * otp then OdpGroup(Quot(g, otp), Rem(g, otp), tp, otp) else []
  }

  /** The two inner loops: one data- and pipeline-parallel cell. */
  method CellGroups(cell: nat, tp: nat, otp: nat, odpBefore: seq<seq<nat>>)
    returns (otpGroups: seq<seq<nat>>, odp: seq<seq<nat>>)
    requires otp > 0 && cell * otp + otp <= |odpBefore|
    requires forall g: nat :: cell * otp <= g < cell * otp + otp ==> odpBefore[g] == []
    ensures |otpGroups| == Quot(tp, otp)
    ensures forall i: nat :: i < |otpGroups| ==> otpGroups[i] == OtpGroup(cell, i, tp, otp)
    ensures |odp| == |odpBefore|
    ensures forall g: nat {:trigger odp[g]} :: g < |odp| ==>
      odp[g] == if cell * otp <= g < cell * otp + otp then OdpGroup(cell, g - cell * otp, tp, otp) else odpBefore[g]
  {
    hide Quot, CellPartly, OdpGroup, StrideRank, OtpGroup;
    var num, tpBase, odpBase := Quot(tp, otp), cell * tp, cell * otp;
    otpGroups, odp := [], odpBefore;
    CellUntouched(odp, cell, tp, otp);
    for i := 0 to num
      invariant |otpGroups| == i && forall k: nat :: k < i ==> otpGroups[k] == OtpGroup(cell, k, tp, otp)
      invariant CellPartly(odp, odpBefore, cell, tp, otp, i, 0)
    {
      var ranks: seq<nat> := [];
      for j := 0 to otp
        invariant |ranks| == j && forall k: nat :: k < j ==> ranks[k] == StrideRank(cell, tp, i, k, num)
        invariant CellPartly(odp, odpBefore, cell, tp, otp, i, j)
      {
        var rank := tpBase + (i + j * num);
        StrideRankIs(cell, tp, i, j, num);
        ranks := ranks + [rank];
        CellPartlyStep(odp, odpBefore, cell, tp, otp, i, j, rank);
        odp := odp[odpBase + j := odp[odpBase + j] + [rank]];
      }
      StridesAreGroup(ranks, cell, i, tp, otp);
      otpGroups := otpGroups + [ranks];
      CellRowDone(odp, odpBefore, cell, tp, otp, i);
    }
    CellDone(odp, odpBefore, cell, tp, otp);
  }

  lemma StrideRankIs(cell: nat, tp: nat, i: nat, j: nat, num: nat)
    ensures StrideRank(cell, tp, i, j, num) == cell * tp + (i + j * num)
  {
  }

  lemma StridesAreGroup(ranks: seq<nat>, cell: nat, i: nat, tp: nat, otp: nat)
    requires otp > 0 && |ranks| == otp
    requires forall k: nat :: k < otp ==> ranks[k] == StrideRank(cell, tp, i, k, Quot(tp, otp))
    ensures ranks == OtpGroup(cell, i, tp, otp)
  {
    hide Quot;
  }

  /** The cell's groups hold the first i ranks of their strides, the first j groups one more; nothing else changed. */
  ghost predicate CellPartly(odp: seq<seq<nat>>, before: seq<seq<nat>>, cell: nat, tp: nat, otp: nat, i: nat, j: nat)
    requires otp > 0
  {
    && |odp| == |before| && cell * otp + otp <= |before|
    && j <= otp && i <= Quot(tp, otp) && (j > 0 ==> i < Quot(tp, otp))
    && forall g: nat {:trigger odp[g]} :: g < |odp| ==>
         odp[g] ==
           if cell * otp <= g < cell * otp + otp then
             OdpGroup(cell, g - cell * otp, tp, otp)[..if g < cell * otp + j then i + 1 else i]
           else before[g]
  }

  lemma CellUntouched(before: seq<seq<nat>>, cell: nat, tp: nat, otp: nat)
    requires otp > 0 && cell * otp + otp <= |before|
    requires forall g: nat :: cell * otp <= g < cell * otp + otp ==> before[g] == []
    ensures CellPartly(before, before, cell, tp, otp, 0, 0)
  {
  }

  lemma CellPartlyStep(
    odp: seq<seq<nat>>, before: seq<seq<nat>>, cell: nat, tp: nat, otp: nat, i: nat, j: nat, rank: nat)
    requires otp > 0 && i < Quot(tp, otp) && j < otp && CellPartly(odp, before, cell, tp, otp, i, j)
    requires rank == cell * tp + (i + j * Quot(tp, otp))
    ensures cell * otp + j < |odp|
    ensures CellPartly(odp[cell * otp + j := odp[cell * otp + j] + [rank]], before, cell, tp, otp, i, j + 1)
  {
    hide Quot, OdpGroup;
    var group := OdpGroup(cell, j, tp, otp);
    assert group[..i+1] == group[..i] + [rank];
  }

  lemma CellRowDone(odp: seq<seq<nat>>, before: seq<seq<nat>>, cell: nat, tp: nat, otp: nat, i: nat)
    requires otp > 0 && i < Quot(tp, otp) && CellPartly(odp, before, cell, tp, otp, i, otp)
    ensures CellPartly(odp, before, cell, tp, otp, i + 1, 0)
  {
    hide Quot, OdpGroup;
  }

  lemma CellDone(odp: seq<seq<nat>>, before: seq<seq<nat>>, cell: nat, tp: nat, otp: nat)
    requires otp > 0 && CellPartly(odp, before, cell, tp, otp, Quot(tp, otp), 0)
    ensures |odp| == |before|
    ensures forall g: nat {:trigger odp[g]} :: g < |odp| ==>
      odp[g] == if cell * otp <= g < cell * otp + otp then OdpGroup(cell, g - cell * otp, tp, otp) else before[g]
  {
    hide Quot, OdpGroup;
    forall g: nat | cell * otp <= g < cell * otp + otp ensures odp[g] == OdpGroup(cell, g - cell * otp, tp, otp) {
      var group := OdpGroup(cell, g - cell * otp, tp, otp);
      assert odp[g] == group[..Quot(tp, otp)] == group;
    }
  }

  lemma OtpFilledStep(groups: seq<seq<nat>>, more: seq<seq<nat>>, cell: nat, tp: nat, otp: nat)
    requires otp > 0 && OtpFilled(groups, cell, tp, otp)
    requires |more| == Quot(tp, otp) && forall i: nat :: i < |more| ==> more[i] == OtpGroup(cell, i, tp, otp)
    ensures OtpFilled(groups + more, cell + 1, tp, otp)
  {
    hide Quot, Rem, OtpGroup;
    var num, all := Quot(tp, otp), groups + more;
    Distribute(cell, 1, num);
    forall g: nat | g < |all| && num > 0 ensures all[g] == OtpGroup(Quot(g, num), Rem(g, num), tp, otp) {
      if g >= |groups| {
        QuotRemUnique(cell, num, g - |groups|);
      }
    }
  }

  lemma OdpFilledStep(before: seq<seq<nat>>, after: seq<seq<nat>>, cell: nat, tp: nat, otp: nat)
    requires otp > 0 && OdpFilled(before, cell, tp, otp)
    requires cell * otp + otp <= |before| && |after| == |before|
    requires forall g: nat {:trigger after[g]} :: g < |after| ==>
      after[g] == if cell * otp <= g < cell * otp + otp then OdpGroup(cell, g - cell * otp, tp, otp) else before[g]
    ensures OdpFilled(after, cell + 1, tp, otp)
  {
    hide Quot, Rem, OdpGroup;
    Distribute(cell, 1, otp);
    forall g: nat | g < |after|
      ensures after[g] == if g < (cell + 1) * otp then OdpGroup(Quot(g, otp), Rem(g, otp), tp, otp) else []
    {
      if cell * otp <= g < cell * otp + otp {
        QuotRemUnique(cell, otp, g - cell * otp);
      } else {
        assert after[g] == before[g];
      }
    }
  }

  method FlashComm2Groups(dp: nat, pp: nat, tp: nat, otp: nat)
    returns (otpGroups: seq<seq<nat>>, odpGroups: seq<seq<nat>>)
    requires otp > 0
    ensures OtpFilled(otpGroups, dp * pp, tp, otp)
    ensures |odpGroups| == dp * pp * otp && OdpFilled(odpGroups, dp * pp, tp, otp)
  {
    hide OtpFilled, OdpFilled, Quot;
    otpGroups, odpGroups := [], seq(dp * pp * otp, _ => []);
    NothingFilled(odpGroups, tp, otp);
    for d := 0 to dp
      invariant |odpGroups| == dp * pp * otp
      invariant OtpFilled(otpGroups, d * pp, tp, otp) && OdpFilled(odpGroups, d * pp, tp, otp)
    {
      Distribute(d, 1, pp);
      for p := 0 to pp
        invariant |odpGroups| == dp * pp * otp
        invariant OtpFilled(otpGroups, d * pp + p, tp, otp) && OdpFilled(odpGroups, d * pp + p, tp, otp)
      {
        var cell := d * pp + p;
        CellRoom(odpGroups, cell, d, dp, p, pp, tp, otp);
        var more, odp := CellGroups(cell, tp, otp, odpGroups);
        OtpFilledStep(otpGroups, more, cell, tp, otp);
        OdpFilledStep(odpGroups, odp, cell, tp, otp);
        otpGroups, odpGroups := otpGroups + more, odp;
      }
    }
  }

  lemma NothingFilled(odpGroups: seq<seq<nat>>, tp: nat, otp: nat)
    requires otp > 0 && forall g :: 0 <= g < |odpGroups| ==> odpGroups[g] == []
    ensures OtpFilled([], 0, tp, otp) && OdpFilled(odpGroups, 0, tp, otp)
  {
  }

  lemma CellRoom(groups: seq<seq<nat>>, cell: nat, d: nat, dp: nat, p: nat, pp: nat, tp: nat, otp: nat)
    requires otp > 0 && d < dp && p < pp && cell == d * pp + p && |groups| == dp * pp * otp
    requires OdpFilled(groups, cell, tp, otp)
    ensures cell * otp + otp <= |groups|
    ensures forall g: nat :: cell * otp <= g < cell * otp + otp ==> groups[g] == []
  {
    BelowProduct(d, dp, pp, p);
    MulMonotone(cell + 1, dp * pp, otp);
    Distribute(cell, 1, otp);
  }

  // ---------------------------------------------------------------- what the groups are

  /** When otp divides tp, the loops give the lists along two dimensions of one grid. */
  lemma OtpGroupsAreLists(groups: seq<seq<nat>>, cells: nat, tp: nat, otp: nat)
    requires otp > 0 && tp > 0 && cells > 0 && Rem(tp, otp) == 0 && OtpFilled(groups, cells, tp, otp)
    ensures Quot(tp, otp) > 0
    ensures Size([cells, otp, Quot(tp, otp)]) == cells * tp
    ensures groups == DimensionLists([cells, otp, Quot(tp, otp)], 1)
  {
    hide Quot, Rem, Size, RankAt, OtpGroup, Encode, Decode;
    var num := Quot(tp, otp);
    QuotRem(tp, otp);
    var shape := [cells, otp, num];
    GridSize(cells, tp, otp, num);
    var lists := DimensionLists(shape, 1);
    ThirdsQuot(cells, num, otp);
    forall g: nat | g < |groups| ensures groups[g] == lists[g] {
      var cell, i := Quot(g, num), Rem(g, num);
      QuotRem(g, num);
      QuotBelow(g, cells, num);
      forall j: nat | j < otp ensures groups[g][j] == lists[g][j] {
        OtpRank(cells, otp, num, cell, i, j);
        Associate(cell, otp, num);
      }
    }
  }

  lemma GridSize(cells: nat, tp: nat, otp: nat, num: nat)
    requires num * otp == tp
    ensures Size([cells, otp, num]) == cells * tp
  {
    SizeThree(cells, otp, num);
    Associate(cells, otp, num);
  }

  lemma ThirdsQuot(cells: nat, num: nat, otp: nat)
    requires otp > 0
    ensures Quot(Size([cells, otp, num]), otp) == cells * num
  {
    hide Quot;
    SizeThree(cells, otp, num);
    assert cells * otp * num == cells * num * otp;
    QuotRemUnique(cells * num, otp, 0);
  }

  lemma EncodeThree(x: nat, y: nat, z: nat, a: nat, b: nat, c: nat)
    ensures Encode([x, y, z], [a, b, c]) == (x * b + y) * c + z
  {
    assert [x, y, z][..2] == [x, y] && [a, b, c][..2] == [a, b];
    assert [x, y][..1] == [x] && [a, b][..1] == [a];
    assert [x][..0] == [] && [a][..0] == [];
    assert Encode([x], [a]) == x;
    assert Encode([x, y], [a, b]) == x * b + y;
  }

  lemma OtpRank(cells: nat, otp: nat, num: nat, cell: nat, i: nat, j: nat)
    requires otp > 0 && num > 0 && cells > 0 && cell < cells && i < num && j < otp
    ensures RankAt([cells, otp, num], 1, 2, (cell * num + i) * otp + j) == cell * otp * num + (i + j * num)
  {
    hide Encode, Decode;
    var shape, shape' := [cells, otp, num], [cells, num, otp];
    assert Exchanged(shape, 1, 2) == shape';
    var f := (cell * num + i) * otp + j;
    EncodeThree(cell, i, j, cells, num, otp);
    DecodeEncode([cell, i, j], shape');
    assert Exchanged([cell, i, j], 1, 2) == [cell, j, i];
    EncodeThree(cell, j, i, cells, otp, num);
    Distribute(cell * otp, j, num);
  }

  lemma OdpGroupsAreLists(groups: seq<seq<nat>>, cells: nat, tp: nat, otp: nat)
    requires otp > 0 && tp > 0 && cells > 0 && Rem(tp, otp) == 0
    requires |groups| == cells * otp && OdpFilled(groups, cells, tp, otp)
    ensures Quot(tp, otp) > 0
    ensures groups == DimensionLists([cells, otp, Quot(tp, otp)], 2)
  {
    hide Quot, Rem, Size, RankAt, OdpGroup, Encode, Decode;
    var num := Quot(tp, otp);
    QuotRem(tp, otp);
    var shape := [cells, otp, num];
    var lists := DimensionLists(shape, 2);
    SizeThree(cells, otp, num);
    QuotRemUnique(cells * otp, num, 0);
    forall g: nat | g < |groups| ensures groups[g] == lists[g] {
      var cell, j := Quot(g, otp), Rem(g, otp);
      QuotRem(g, otp);
      QuotBelow(g, cells, otp);
      forall i: nat | i < num ensures groups[g][i] == lists[g][i] {
        OdpRank(cells, otp, num, cell, i, j);
        Associate(cell, otp, num);
      }
    }
  }

  lemma OdpRank(cells: nat, otp: nat, num: nat, cell: nat, i: nat, j: nat)
    requires otp > 0 && num > 0 && cells > 0 && cell < cells && i < num && j < otp
    ensures RankAt([cells, otp, num], 2, 2, (cell * otp + j) * num + i) == cell * otp * num + (i + j * num)
  {
    hide Encode, Decode;
    var shape := [cells, otp, num];
    assert Exchanged(shape, 2, 2) == shape;
    EncodeThree(cell, j, i, cells, otp, num);
    DecodeEncode([cell, j, i], shape);
    assert Exchanged([cell, j, i], 2, 2) == [cell, j, i];
    Distribute(cell * otp, j, num);
  }

  /** Within a cell, an output-parallel and a data-parallel group meet in exactly one rank. */
  lemma GroupsMeetOnce(cell: nat, i: nat, j: nat, tp: nat, otp: nat, r: nat)
    requires otp > 0 && i < Quot(tp, otp) && j < otp
    ensures r in OtpGroup(cell, i, tp, otp) && r in OdpGroup(cell, j, tp, otp) <==>
      r == cell * tp + (i + j * Quot(tp, otp))
  {
    hide Quot;
    var num, a, b := Quot(tp, otp), OtpGroup(cell, i, tp, otp), OdpGroup(cell, j, tp, otp);
    if r in a && r in b {
      var j' :| 0 <= j' < |a| && a[j'] == r;
      var i' :| 0 <= i' < |b| && b[i'] == r;
      QuotRemUnique(j', num, i);
      QuotRemUnique(j, num, i');
    }
    assert a[j] == b[i] == cell * tp + (i + j * num);
  }

  /**
   The output-parallel groups of dp * pp cells partition the ranks exactly when there are
   dp * pp * tp ranks and the group size divides tp.
   */
  lemma OtpPartitionExactly(groups: seq<seq<nat>>, cells: nat, tp: nat, otp: nat, replicas: nat)
    requires otp > 0 && tp > 0 && cells > 0 && replicas > 0 && OtpFilled(groups, cells, tp, otp)
    ensures IsPartition(groups, replicas * (cells * tp)) <==> replicas == 1 && Rem(tp, otp) == 0
  {
    hide Quot, Rem, OtpFilled, DimensionLists, Size, At, IsPartition;
    if replicas == 1 && Rem(tp, otp) == 0 {
      OtpGroupsAreLists(groups, cells, tp, otp);
      var shape := [cells, otp, Quot(tp, otp)];
      SizePositive(shape);
      SingleDimension(shape, 1, 0, 0);
    } else {
      var missing := if Rem(tp, otp) != 0 then Quot(tp, otp) * otp else cells * tp;
      QuotRem(tp, otp);
      MulMonotone(1, cells, tp);
      assert missing <= cells * tp && (Rem(tp, otp) != 0 ==> missing < tp);
      if replicas > 1 {
        MulMonotone(2, replicas, cells * tp);
      }
      forall g: nat, j: nat ensures !At(groups, g, j, missing) {
        OtpMisses(groups, cells, tp, otp, g, j, missing);
      }
      NotListed(groups, missing, replicas * (cells * tp));
    }
  }

  lemma NotListed(groups: seq<seq<nat>>, missing: nat, world: nat)
    requires missing < world && forall g: nat, j: nat :: !At(groups, g, j, missing)
    ensures !IsPartition(groups, world)
  {
    assert !Listed(groups, missing);
  }

  /** Nothing listed is as large as what the strides of cell 0 leave out and still in cell 0, or beyond the last cell. */
  lemma OtpMisses(groups: seq<seq<nat>>, cells: nat, tp: nat, otp: nat, g: nat, j: nat, missing: nat)
    requires otp > 0 && OtpFilled(groups, cells, tp, otp)
    requires missing >= cells * tp || Quot(tp, otp) * otp <= missing < tp
    ensures !At(groups, g, j, missing)
  {
    hide Quot, Rem;
    if At(groups, g, j, missing) {
      var num := Quot(tp, otp);
      QuotRem(tp, otp);
      if num == 0 {
        assert false;
      }
      var cell, i := Quot(g, num), Rem(g, num);
      QuotBelow(g, cells, num);
      BelowProduct(j, otp, num, i);
      assert otp * num == num * otp;
      assert missing == cell * tp + (i + j * num);
      BelowProduct(cell, cells, tp, i + j * num);
      if cell > 0 {
        MulMonotone(1, cell, tp);
      }
    }
  }

  /** The data-parallel side partitions the ranks under the same condition. */
  lemma OdpPartitionExactly(groups: seq<seq<nat>>, cells: nat, tp: nat, otp: nat, replicas: nat)
    requires otp > 0 && tp > 0 && cells > 0 && replicas > 0
    requires |groups| == cells * otp && OdpFilled(groups, cells, tp, otp)
    ensures IsPartition(groups, replicas * (cells * tp)) <==> replicas == 1 && Rem(tp, otp) == 0
  {
    hide Quot, Rem, OdpFilled, DimensionLists, Size, At, IsPartition;
    if replicas == 1 && Rem(tp, otp) == 0 {
      OdpGroupsAreLists(groups, cells, tp, otp);
      var shape := [cells, otp, Quot(tp, otp)];
      QuotRem(tp, otp);
      GridSize(cells, tp, otp, Quot(tp, otp));
      SizePositive(shape);
      SingleDimension(shape, 2, 0, 0);
    } else {
      var missing := if Rem(tp, otp) != 0 then Quot(tp, otp) * otp else cells * tp;
      QuotRem(tp, otp);
      MulMonotone(1, cells, tp);
      assert missing <= cells * tp && (Rem(tp, otp) != 0 ==> missing < tp);
      if replicas > 1 {
        MulMonotone(2, replicas, cells * tp);
      }
      forall g: nat, i: nat ensures !At(groups, g, i, missing) {
        OdpMisses(groups, cells, tp, otp, g, i, missing);
      }
      NotListed(groups, missing, replicas * (cells * tp));
    }
  }

  lemma OdpMisses(groups: seq<seq<nat>>, cells: nat, tp: nat, otp: nat, g: nat, i: nat, missing: nat)
    requires otp > 0 && |groups| == cells * otp && OdpFilled(groups, cells, tp, otp)
    requires missing >= cells * tp || Quot(tp, otp) * otp <= missing < tp
    ensures !At(groups, g, i, missing)
  {
    hide Quot, Rem;
    if At(groups, g, i, missing) {
      var num := Quot(tp, otp);
      QuotRem(tp, otp);
      var cell, j := Quot(g, otp), Rem(g, otp);
      QuotBelow(g, cells, otp);
      BelowProduct(j, otp, num, i);
      assert otp * num == num * otp;
      assert missing == cell * tp + (i + j * num);
      BelowProduct(cell, cells, tp, i + j * num);
      if cell > 0 {
        MulMonotone(1, cell, tp);
      }
    }
  }

  // ---------------------------------------------------------------- fine-grained groups

  /** One group: size data-parallel ranks in a row, at one pipeline stage and tensor rank. */
  function FineGroup(p: nat, chunk: nat, t: nat, dp: nat, tp: nat, size: nat): (group: seq<nat>)
    ensures |group| == size
    ensures forall d :: 0 <= d < size ==> group[d] == FineRank(p, chunk, t, d, dp, tp, size)
  {
    seq<nat>(size, d requires 0 <= d => FineRank(p, chunk, t, d, dp, tp, size))
  }

  /** The entry of the (pp, dp, tp) grid of ranks. */
  function FineRank(p: nat, chunk: nat, t: nat, d: nat, dp: nat, tp: nat, size: nat): nat {
    (p * dp + (chunk * size + d)) * tp + t
  }

  /** The first count groups, in the order of the three loops. */
  ghost predicate FineFilled(groups: seq<seq<nat>>, count: nat, dp: nat, tp: nat, size: nat)
    requires size > 0
  {
    var chunks := Quot(dp, size);
    && |groups| == count
    && (tp > 0 && chunks > 0 ==> forall g: nat {:trigger groups[g]} :: g < |groups| ==>
          groups[g] == FineGroup(Quot(Quot(g, tp), chunks), Rem(Quot(g, tp), chunks), Rem(g, tp), dp, tp, size))
  }

  method CreateGroup(pp: nat, dp: nat, tp: nat, size: nat) returns (groups: seq<seq<nat>>)
    requires size > 0
    ensures FineFilled(groups, pp * Quot(dp, size) * tp, dp, tp, size)
  {
    hide Quot, FineFilled;
    var chunks := Quot(dp, size);
    groups := [];
    assert FineFilled(groups, 0, dp, tp, size) by {
      NoFineGroups(dp, tp, size);
    }
    for p := 0 to pp
      invariant FineFilled(groups, p * chunks * tp, dp, tp, size)
    {
      Distribute(p, 1, chunks);
      for chunk := 0 to chunks
        invariant FineFilled(groups, (p * chunks + chunk) * tp, dp, tp, size)
      {
        Distribute(p * chunks + chunk, 1, tp);
        for t := 0 to tp
          invariant FineFilled(groups, (p * chunks + chunk) * tp + t, dp, tp, size)
        {
          var group := seq<nat>(size, d requires 0 <= d => FineRank(p, chunk, t, d, dp, tp, size));
          assert group == FineGroup(p, chunk, t, dp, tp, size);
          FineFilledStep(groups, p, chunk, t, dp, tp, size);
          groups := groups + [group];
        }
      }
    }
  }

  lemma NoFineGroups(dp: nat, tp: nat, size: nat)
    requires size > 0
    ensures FineFilled([], 0, dp, tp, size)
  {
  }

  lemma FineFilledStep(groups: seq<seq<nat>>, p: nat, chunk: nat, t: nat, dp: nat, tp: nat, size: nat)
    requires size > 0 && chunk < Quot(dp, size) && t < tp
    requires FineFilled(groups, (p * Quot(dp, size) + chunk) * tp + t, dp, tp, size)
    ensures FineFilled(groups + [FineGroup(p, chunk, t, dp, tp, size)],
                       (p * Quot(dp, size) + chunk) * tp + t + 1, dp, tp, size)
  {
    hide Quot, Rem, FineGroup;
    QuotRemUnique(p * Quot(dp, size) + chunk, tp, t);
    QuotRemUnique(p, Quot(dp, size), chunk);
  }

  lemma EncodeFour(w: nat, x: nat, y: nat, z: nat, a: nat, b: nat, c: nat, d: nat)
    ensures Encode([w, x, y, z], [a, b, c, d]) == ((w * b + x) * c + y) * d + z
  {
    assert [w, x, y, z][..3] == [w, x, y] && [a, b, c, d][..3] == [a, b, c];
    EncodeThree(w, x, y, a, b, c);
  }

  lemma SizeFour(a: nat, b: nat, c: nat, d: nat)
    ensures Size([a, b, c, d]) == a * b * c * d
  {
    hide Size;
    assert [a, b, c, d] == [a, b, c] + [d];
    SizeConcat([a, b, c], [d]);
    SizeThree(a, b, c);
    SizeOne(d);
  }

  lemma FineListRank(pp: nat, chunks: nat, size: nat, tp: nat, p: nat, chunk: nat, t: nat, d: nat)
    requires p < pp && chunk < chunks && t < tp && d < size
    ensures RankAt([pp, chunks, size, tp], 2, 3, ((p * chunks + chunk) * tp + t) * size + d)
      == ((p * chunks + chunk) * size + d) * tp + t
  {
    hide Encode, Decode;
    var shape, shape' := [pp, chunks, size, tp], [pp, chunks, tp, size];
    assert Exchanged(shape, 2, 3) == shape';
    EncodeFour(p, chunk, t, d, pp, chunks, tp, size);
    DecodeEncode([p, chunk, t, d], shape');
    assert Exchanged([p, chunk, t, d], 2, 3) == [p, chunk, d, t];
    EncodeFour(p, chunk, d, t, pp, chunks, size, tp);
  }

  /** When the group size divides dp, the loops give the lists along one dimension of a grid with dp cut in two. */
  lemma FineGroupsAreLists(groups: seq<seq<nat>>, pp: nat, dp: nat, tp: nat, size: nat)
    requires pp > 0 && dp > 0 && tp > 0 && size > 0 && Rem(dp, size) == 0
    requires FineFilled(groups, pp * Quot(dp, size) * tp, dp, tp, size)
    ensures Quot(dp, size) > 0
    ensures Size([pp, Quot(dp, size), size, tp]) == pp * dp * tp
    ensures groups == DimensionLists([pp, Quot(dp, size), size, tp], 2)
  {
    hide Quot, Rem, Size, RankAt, FineGroup, Encode, Decode;
    var chunks := Quot(dp, size);
    QuotRem(dp, size);
    var shape := [pp, chunks, size, tp];
    SizeFour(pp, chunks, size, tp);
    Associate(pp, chunks, size);
    var lists := DimensionLists(shape, 2);
    FineCount(pp, chunks, size, tp);
    forall g: nat | g < |groups| ensures groups[g] == lists[g] {
      FineGroupIsList(pp, dp, chunks, size, tp, g);
    }
  }

  lemma FineIndex(g: nat, chunks: nat, tp: nat)
    requires chunks > 0 && tp > 0
    ensures g == (Quot(Quot(g, tp), chunks) * chunks + Rem(Quot(g, tp), chunks)) * tp + Rem(g, tp)
  {
    hide Quot, Rem;
    QuotRem(g, tp);
    QuotRem(Quot(g, tp), chunks);
  }

  lemma FineEntry(pp: nat, dp: nat, chunks: nat, size: nat, tp: nat, p: nat, chunk: nat, t: nat, d: nat, g: nat)
    requires p < pp && chunk < chunks && t < tp && d < size && size > 0 && dp == chunks * size
    requires g == (p * chunks + chunk) * tp + t
    ensures FineRank(p, chunk, t, d, dp, tp, size) == RankAt([pp, chunks, size, tp], 2, 3, g * size + d)
  {
    hide RankAt;
    FineListRank(pp, chunks, size, tp, p, chunk, t, d);
    Distribute(p * chunks, chunk, size);
    Associate(p, chunks, size);
  }

  lemma FineGroupIsList(pp: nat, dp: nat, chunks: nat, size: nat, tp: nat, g: nat)
    requires pp > 0 && chunks > 0 && size > 0 && tp > 0 && dp == chunks * size && g < pp * chunks * tp
    ensures FineGroup(Quot(Quot(g, tp), chunks), Rem(Quot(g, tp), chunks), Rem(g, tp), dp, tp, size)
      == ListAt([pp, chunks, size, tp], 2, 3, size, g)
  {
    hide Quot, Rem, RankAt, FineRank;
    var p, chunk, t := Quot(Quot(g, tp), chunks), Rem(Quot(g, tp), chunks), Rem(g, tp);
    var a, b := FineGroup(p, chunk, t, dp, tp, size), ListAt([pp, chunks, size, tp], 2, 3, size, g);
    QuotBelow(g, pp * chunks, tp);
    QuotBelow(Quot(g, tp), pp, chunks);
    FineIndex(g, chunks, tp);
    forall d: nat | d < size ensures a[d] == b[d] {
      FineEntry(pp, dp, chunks, size, tp, p, chunk, t, d, g);
    }
  }

  lemma FineCount(pp: nat, chunks: nat, size: nat, tp: nat)
    requires size > 0
    ensures Quot(Size([pp, chunks, size, tp]), size) == pp * chunks * tp
  {
    hide Quot, Size;
    SizeFour(pp, chunks, size, tp);
    assert pp * chunks * size * tp == pp * chunks * tp * size;
    QuotRemUnique(pp * chunks * tp, size, 0);
  }

  /** The fine-grained groups partition the pp * dp * tp ranks exactly when their size divides dp. */
  lemma FinePartitionExactly(groups: seq<seq<nat>>, pp: nat, dp: nat, tp: nat, size: nat)
    requires pp > 0 && dp > 0 && tp > 0 && size > 0
    requires FineFilled(groups, pp * Quot(dp, size) * tp, dp, tp, size)
    ensures IsPartition(groups, pp * dp * tp) <==> Rem(dp, size) == 0
  {
    hide Quot, Rem, FineFilled, DimensionLists, Size, At, IsPartition;
    if Rem(dp, size) == 0 {
      FineGroupsAreLists(groups, pp, dp, tp, size);
      var shape := [pp, Quot(dp, size), size, tp];
      SizePositive(shape);
      SingleDimension(shape, 2, 0, 0);
    } else {
      var left := Quot(dp, size) * size;
      QuotRem(dp, size);
      BelowProduct(left, dp, tp, 0);
      MulMonotone(1, pp, dp);
      MulMonotone(dp, pp * dp, tp);
      forall g: nat, j: nat ensures !At(groups, g, j, left * tp) {
        FineMisses(groups, pp, dp, tp, size, g, j);
      }
      NotListed(groups, left * tp, pp * dp * tp);
    }
  }

  /** The first data-parallel rank behind the last whole chunk is in no group. */
  lemma FineMisses(groups: seq<seq<nat>>, pp: nat, dp: nat, tp: nat, size: nat, g: nat, j: nat)
    requires pp > 0 && dp > 0 && tp > 0 && size > 0 && Rem(dp, size) != 0
    requires FineFilled(groups, pp * Quot(dp, size) * tp, dp, tp, size)
    ensures !At(groups, g, j, Quot(dp, size) * size * tp)
  {
    hide Quot, Rem;
    hide FineRank;
    var chunks := Quot(dp, size);
    if At(groups, g, j, chunks * size * tp) {
      QuotRem(dp, size);
      if chunks == 0 {
        assert false;
      }
      var p, chunk, t := Quot(Quot(g, tp), chunks), Rem(Quot(g, tp), chunks), Rem(g, tp);
      LeftoverRank(p, chunk, t, j, dp, tp, size, chunks);
    }
  }

  /** A member of a whole chunk is not the first rank behind the last whole chunk. */
  lemma LeftoverRank(p: nat, chunk: nat, t: nat, j: nat, dp: nat, tp: nat, size: nat, chunks: nat)
    requires chunk < chunks && j < size && t < tp && chunks * size < dp
    ensures FineRank(p, chunk, t, j, dp, tp, size) != chunks * size * tp
  {
    BelowProduct(chunk, chunks, size, j);
    OtherRow(p, dp, chunk * size + j, chunks * size);
    LeftoverRow(p * dp + (chunk * size + j), chunks * size, tp, t);
  }

  lemma OtherRow(p: nat, dp: nat, a: nat, y: nat)
    requires a < y < dp
    ensures p * dp + a != y
  {
    if p > 0 {
      MulMonotone(1, p, dp);
    }
  }

  lemma LeftoverRow(x: nat, y: nat, tp: nat, t: nat)
    requires t < tp && x != y
    ensures x * tp + t != y * tp
  {
    hide Quot, Rem;
    QuotRemUnique(x, tp, t);
    QuotRemUnique(y, tp, 0);
  }

  /** The grid of the main layout, without an outer or a prefill-context dimension. */
  function MainGrid(pp: nat, dp: nat, tp: nat): (shape: seq<nat>)
    requires pp > 0 && dp > 0 && tp > 0
    ensures Positive(shape) && |shape| == 5
  {
    Grid(Sizes(1, dp, pp, 1, tp))
  }

  /** Any two members of a fine-grained group are in one data-parallel group of the main layout. */
  ghost predicate FineInsideDp(groups: seq<seq<nat>>, pp: nat, dp: nat, tp: nat)
    requires pp > 0 && dp > 0 && tp > 0
  {
    forall g: nat, i: nat, j: nat, r: nat, s: nat :: At(groups, g, i, r) && At(groups, g, j, s) ==>
      Together(DimensionLists(MainGrid(pp, dp, tp), DP), r, s)
  }

  predicate SameStage(pp: nat, tp: nat, r: nat, s: nat)
    requires pp > 0 && tp > 0
  {
    Rem(Quot(r, tp), pp) == Rem(Quot(s, tp), pp) && Rem(r, tp) == Rem(s, tp)
  }

  lemma DecodeStep(f: nat, front: seq<nat>, last: nat)
    requires Positive(front) && last > 0
    ensures Positive(front + [last]) && Decode(f, front + [last]) == Decode(Quot(f, last), front) + [Rem(f, last)]
  {
    assert (front + [last])[..|front|] == front;
  }

  /** The coordinates of a rank in the main layout; those of the two dimensions of size one are zero. */
  lemma MainCoordinates(pp: nat, dp: nat, tp: nat, r: nat)
    requires pp > 0 && dp > 0 && tp > 0
    ensures
      var c := Decode(r, MainGrid(pp, dp, tp));
      c[0] == 0 && c[PP] == Rem(Quot(r, tp), pp) && c[PCP] == 0 && c[TP] == Rem(r, tp)
  {
    hide Quot, Rem;
    DecodeStep(r, [1, dp, pp, 1], tp);
    assert [1, dp, pp, 1] + [tp] == MainGrid(pp, dp, tp);
    var f := Quot(r, tp);
    DecodeStep(f, [1, dp, pp], 1);
    assert [1, dp, pp] + [1] == [1, dp, pp, 1];
    QuotRemUnique(f, 1, 0);
    DecodeStep(f, [1, dp], pp);
    assert [1, dp] + [pp] == [1, dp, pp];
    DecodeStep(Quot(f, pp), [1], dp);
    assert [1] + [dp] == [1, dp];
    QuotRemUnique(Quot(Quot(f, pp), dp), 1, 0);
  }

  /** Two ranks are in one data-parallel group when pipeline stage and tensor rank agree. */
  lemma DpTogether(pp: nat, dp: nat, tp: nat, r: nat, s: nat)
    requires pp > 0 && dp > 0 && tp > 0 && r < Size(MainGrid(pp, dp, tp)) && s < Size(MainGrid(pp, dp, tp))
    ensures Together(DimensionLists(MainGrid(pp, dp, tp), DP), r, s) <==> SameStage(pp, tp, r, s)
  {
    hide Quot, Rem, Size, Together, DimensionLists, Decode, MainGrid;
    SingleDimension(MainGrid(pp, dp, tp), DP, r, s);
    MainCoordinates(pp, dp, tp, r);
    MainCoordinates(pp, dp, tp, s);
    var x, y := Decode(r, MainGrid(pp, dp, tp)), Decode(s, MainGrid(pp, dp, tp));
    assert forall e: nat {:trigger x[e]} :: e < 5 && e !in {DP} <==> e == 0 || e == PP || e == PCP || e == TP;
  }

  lemma MainSize(pp: nat, dp: nat, tp: nat)
    requires pp > 0 && dp > 0 && tp > 0
    ensures Size(MainGrid(pp, dp, tp)) == pp * dp * tp
  {
    hide Size;
    assert MainGrid(pp, dp, tp) == [1] + [dp, pp, 1, tp];
    SizeConcat([1], [dp, pp, 1, tp]);
    SizeOne(1);
    SizeFour(dp, pp, 1, tp);
  }

  /** The loops list ranks of the world only. */
  lemma FineBelow(groups: seq<seq<nat>>, pp: nat, dp: nat, tp: nat, size: nat, g: nat, j: nat)
    requires pp > 0 && dp > 0 && tp > 0 && size > 0
    requires FineFilled(groups, pp * Quot(dp, size) * tp, dp, tp, size)
    requires g < |groups| && j < |groups[g]|
    ensures groups[g][j] < Size(MainGrid(pp, dp, tp))
  {
    hide Quot, Rem, Size, FineRank;
    var chunks := Quot(dp, size);
    assert chunks > 0;
    var p, chunk, t := Quot(Quot(g, tp), chunks), Rem(Quot(g, tp), chunks), Rem(g, tp);
    QuotBelow(g, pp * chunks, tp);
    QuotBelow(Quot(g, tp), pp, chunks);
    QuotRem(dp, size);
    FineRankBelow(p, chunk, t, j, pp, dp, tp, size, chunks);
    MainSize(pp, dp, tp);
  }

  lemma FineRankBelow(p: nat, chunk: nat, t: nat, j: nat, pp: nat, dp: nat, tp: nat, size: nat, chunks: nat)
    requires p < pp && chunk < chunks && j < size && t < tp && chunks * size <= dp
    ensures FineRank(p, chunk, t, j, dp, tp, size) < pp * dp * tp
  {
    BelowProduct(chunk, chunks, size, j);
    BelowProduct(p, pp, dp, chunk * size + j);
    BelowProduct(p * dp + (chunk * size + j), pp * dp, tp, t);
  }

  /**
   The fine-grained groups are cut from a (pp, dp, tp) grid, the others from a (dp, pp, tp)
   grid: they lie inside the main layout's data-parallel groups only without pipeline stages,
   or trivially.
   */
  lemma FineInsideDpExactly(groups: seq<seq<nat>>, pp: nat, dp: nat, tp: nat, size: nat)
    requires pp > 0 && dp > 0 && tp > 0 && size > 0
    requires FineFilled(groups, pp * Quot(dp, size) * tp, dp, tp, size)
    ensures FineInsideDp(groups, pp, dp, tp) <==> pp == 1 || size == 1 || dp < size
  {
    hide Quot, Rem, FineFilled, Size, Together, DimensionLists, MainGrid;
    if pp == 1 || size == 1 || dp < size {
      forall g: nat, i: nat, j: nat, r: nat, s: nat | At(groups, g, i, r) && At(groups, g, j, s)
        ensures Together(DimensionLists(MainGrid(pp, dp, tp), DP), r, s)
      {
        FineMembers(groups, pp, dp, tp, size, g, i, j);
        FineBelow(groups, pp, dp, tp, size, g, i);
        FineBelow(groups, pp, dp, tp, size, g, j);
        DpTogether(pp, dp, tp, r, s);
      }
    } else {
      FirstFineGroup(groups, pp, dp, tp, size);
      FirstPairApart(pp, tp);
      assert At(groups, 0, 0, 0) && At(groups, 0, 1, tp);
      FineBelow(groups, pp, dp, tp, size, 0, 0);
      FineBelow(groups, pp, dp, tp, size, 0, 1);
      DpTogether(pp, dp, tp, 0, tp);
    }
  }

  lemma FirstPairApart(pp: nat, tp: nat)
    requires pp > 1 && tp > 0
    ensures !SameStage(pp, tp, 0, tp)
  {
    hide Quot, Rem;
    QuotRemUnique(0, tp, 0);
    QuotRemUnique(1, tp, 0);
    QuotRemUnique(0, pp, 0);
    QuotRemUnique(0, pp, 1);
    assert 0 * tp + 0 == 0 && 1 * tp + 0 == tp && 0 * pp + 0 == 0 && 0 * pp + 1 == 1;
  }

  lemma FineMembers(groups: seq<seq<nat>>, pp: nat, dp: nat, tp: nat, size: nat, g: nat, i: nat, j: nat)
    requires pp > 0 && dp > 0 && tp > 0 && size > 0 && (pp == 1 || size == 1 || dp < size)
    requires FineFilled(groups, pp * Quot(dp, size) * tp, dp, tp, size)
    requires g < |groups| && i < |groups[g]| && j < |groups[g]|
    ensures SameStage(pp, tp, groups[g][i], groups[g][j])
  {
    hide Quot, Rem, FineRank, SameStage;
    var chunks := Quot(dp, size);
    FewChunks(dp, size);
    assert chunks > 0;
    var p, chunk, t := Quot(Quot(g, tp), chunks), Rem(Quot(g, tp), chunks), Rem(g, tp);
    if size == 1 {
      assert i == j;
      StageOfSelf(pp, tp, groups[g][i]);
    } else {
      FineRankStage(p, chunk, t, i, j, dp, tp, size);
    }
  }

  lemma StageOfSelf(pp: nat, tp: nat, r: nat)
    requires pp > 0 && tp > 0
    ensures SameStage(pp, tp, r, r)
  {
  }

  lemma FineRankStage(p: nat, chunk: nat, t: nat, i: nat, j: nat, dp: nat, tp: nat, size: nat)
    requires t < tp
    ensures SameStage(1, tp, FineRank(p, chunk, t, i, dp, tp, size), FineRank(p, chunk, t, j, dp, tp, size))
  {
    hide Quot;
    QuotRemUnique(p * dp + (chunk * size + i), tp, t);
    QuotRemUnique(p * dp + (chunk * size + j), tp, t);
  }

  lemma FewChunks(dp: nat, size: nat)
    requires size > 0
    ensures dp < size <==> Quot(dp, size) == 0
  {
    hide Quot, Rem;
    QuotRem(dp, size);
    if Quot(dp, size) > 0 {
      MulMonotone(1, Quot(dp, size), size);
    }
  }

  lemma FirstFineGroup(groups: seq<seq<nat>>, pp: nat, dp: nat, tp: nat, size: nat)
    requires pp > 0 && dp > 0 && tp > 0 && 1 < size <= dp
    requires FineFilled(groups, pp * Quot(dp, size) * tp, dp, tp, size)
    ensures |groups| > 0 && |groups[0]| > 1 && groups[0][0] == 0 && groups[0][1] == tp
  {
    hide Quot, Rem;
    var chunks := Quot(dp, size);
    FewChunks(dp, size);
    BelowProduct(0, pp, chunks, 0);
    BelowProduct(0, pp * chunks, tp, 0);
    QuotRemUnique(0, tp, 0);
    QuotRemUnique(0, chunks, 0);
    assert 0 * tp + 0 == 0 && 0 * chunks + 0 == 0;
    assert groups[0] == FineGroup(0, 0, 0, dp, tp, size);
  }
}

/**
 * Square grids over a window that is cut in two: splitting a grid of weights, averaging two grids of means,
 * and adding two grids of white-balance blocks. In each half a column is half as wide as in the whole.
 */
module GridMerge {
  import opened Words
  import opened AecWindows

  /** One row of a grid, as a function of the column. */
  type Row = nat -> int

  // ----- Weights: one grid becomes two -----

  /** The column of the whole grid that a column of the left half, or of the right half, lies in. */
  function LeftColumn(j: nat): nat {
    j / 2
  }

  function RightColumn(n: nat, j: nat): nat {
    j / 2 + j % 2 + n / 2
  }

  lemma RightColumnInRange(n: nat, j: nat)
    requires n % 2 == 1 && j < n
    ensures RightColumn(n, j) < n
  {
  }

  /** Two grids hold, at this place, the weights of the columns that the halves of the place lie in. */
  predicate SplitAt(ori: array2<int>, left: array2<int>, right: array2<int>, n: nat, i: nat, j: nat)
    reads ori, left, right
    requires n % 2 == 1 && i < n && j < n
    requires ori.Length0 == left.Length0 == right.Length0 == n
    requires ori.Length1 == left.Length1 == right.Length1 == n
  {
    RightColumnInRange(n, j);
    left[i, j] == ori[i, LeftColumn(j)] && right[i, j] == ori[i, RightColumn(n, j)]
  }

  method SplitAecWeight(ori: array2<int>, left: array2<int>, right: array2<int>, mode: Mode, n: nat)
    requires mode == LeftAndRight ==> n % 2 == 1
    requires ori.Length0 == left.Length0 == right.Length0 == n
    requires ori.Length1 == left.Length1 == right.Length1 == n
    requires ori != left && ori != right && left != right
    modifies left, right
    ensures mode == LeftAndRight ==>
              forall i, j :: 0 <= i < n && 0 <= j < n ==> SplitAt(ori, left, right, n, i, j)
    ensures mode != LeftAndRight ==>
              forall i, j :: 0 <= i < n && 0 <= j < n ==> left[i, j] == right[i, j] == ori[i, j]
  {
    if mode == LeftAndRight {
      for i := 0 to n
        invariant forall x, y :: 0 <= x < i && 0 <= y < n ==> SplitAt(ori, left, right, n, x, y)
      {
        for j := 0 to n
          invariant forall x, y :: 0 <= x < i && 0 <= y < n ==> SplitAt(ori, left, right, n, x, y)
          invariant forall y :: 0 <= y < j ==> SplitAt(ori, left, right, n, i, y)
        {
          RightColumnInRange(n, j);
          label before:
          left[i, j] := ori[i, j / 2];
          right[i, j] := ori[i, j / 2 + j % 2 + n / 2];
          forall x, y | (0 <= x < i && 0 <= y < n) || (x == i && 0 <= y < j)
            ensures SplitAt(ori, left, right, n, x, y)
          {
            assert old@before(SplitAt(ori, left, right, n, x, y));
          }
        }
      }
    } else {
      forall i, j | 0 <= i < n && 0 <= j < n {
        left[i, j] := ori[i, j];
      }
      forall i, j | 0 <= i < n && 0 <= j < n {
        right[i, j] := ori[i, j];
      }
    }
  }

  // ----- Means: two grids are averaged to one -----

  /**
   * Column j of the whole is two columns of a half; the middle one is the last of the left and the first
   * of the right.
   */
  function Averaged(n: nat, left: Row, right: Row, j: nat): int
    requires j < n
  {
    if j < n / 2 then (left(j * 2) + left(j * 2 + 1)) / 2
    else if j > n / 2 then (right(j * 2 - n) + right(j * 2 - n + 1)) / 2
    else (left(n - 1) + right(0)) / 2
  }

  function MergedMean(mode: Mode, n: nat, left: Row, right: Row, j: nat): int
    requires j < n
  {
    match mode
    case Left => left(j)
    case Right => right(j)
    case LeftAndRight => Averaged(n, left, right, j)
  }

  /** Row i of a grid; beyond its columns nothing is ever read. */
  function RowOf(a: array2<int>, i: nat): Row
    reads a
    requires i < a.Length0
  {
    RowOfSeq(seq(a.Length1, j requires 0 <= j < a.Length1 reads a => a[i, j]))
  }

  function RowOfSeq(s: seq<int>): Row {
    (j: nat) => if j < |s| then s[j] else 0
  }

  /** A mean without its black level, scaled; cut to an integer and kept in 16 bits. */
  function Scaled(mean: int, bls: int, ratio: real): uint16 {
    var exact := (mean - bls) as real * ratio;
    ToU16(if exact < 0.0 then -(-exact).Floor else exact.Floor)
  }

  /** Without black level and gain a mean stays what it is. */
  lemma ScaledByNothing(mean: uint16)
    ensures Scaled(mean, 0, 1.0) == mean
  {
  }

  /** The integer part of the exact value, towards zero, modulo 2^16. */
  lemma ScaledIsIntegerPart(mean: int, bls: int, ratio: real)
    ensures
      var exact := (mean - bls) as real * ratio;
      exists whole: int ::
        && Scaled(mean, bls, ratio) == whole % 0x1_0000
        && (if exact < 0.0 then exact <= whole as real < exact + 1.0 && whole <= 0
            else exact - 1.0 < whole as real <= exact)
  {
    var exact := (mean - bls) as real * ratio;
    var whole := if exact < 0.0 then -(-exact).Floor else exact.Floor;
    assert Scaled(mean, bls, ratio) == whole % 0x1_0000;
  }

  /** Place (i, j) of merged holds what the mode takes for it: its own mean of one side, or that of its pair. */
  predicate HoldsMean(merge: array2<int>, left: array2<int>, right: array2<int>, mode: Mode, n: nat, bls: int,
      ratio: real, i: nat, j: nat)
    reads merge, left, right
    requires merge.Length0 == left.Length0 == right.Length0 == n
    requires merge.Length1 == left.Length1 == right.Length1 == n
    requires i < n && j < n
  {
    merge[i, j] == Scaled(
      if mode == Left then left[i, j]
      else if mode == Right then right[i, j]
      else if 2 * j + 1 < n then (left[i, 2 * j] + left[i, 2 * j + 1]) / 2
      else if 2 * j > n then (right[i, 2 * j - n] + right[i, 2 * j - n + 1]) / 2
      else (left[i, n - 1] + right[i, 0]) / 2, bls, ratio)
  }

  lemma MeanIsHeld(merge: array2<int>, left: array2<int>, right: array2<int>, mode: Mode, n: nat, bls: int,
      ratio: real, i: nat, j: nat)
    requires merge.Length0 == left.Length0 == right.Length0 == n
    requires merge.Length1 == left.Length1 == right.Length1 == n
    requires i < n && j < n
    requires merge[i, j] == Scaled(MergedMean(mode, n, RowOf(left, i), RowOf(right, i), j), bls, ratio)
    ensures HoldsMean(merge, left, right, mode, n, bls, ratio, i, j)
  {
    hide Scaled;
  }

  /** Means of one channel are merged, then scaled. */
  method MergeAecWinMeans(merge: array2<int>, left: array2<int>, right: array2<int>, mode: Mode, n: nat,
      bls: int, ratio: real)
    requires merge.Length0 == left.Length0 == right.Length0 == n
    requires merge.Length1 == left.Length1 == right.Length1 == n
    requires merge != left && merge != right
    modifies merge
    ensures forall i, j :: 0 <= i < n && 0 <= j < n ==>
              merge[i, j] == Scaled(MergedMean(mode, n, RowOf(left, i), RowOf(right, i), j), bls, ratio)
    ensures forall i, j :: 0 <= i < n && 0 <= j < n ==> HoldsMean(merge, left, right, mode, n, bls, ratio, i, j)
  {
    for i := 0 to n
      invariant forall x, y :: 0 <= x < i && 0 <= y < n ==>
          merge[x, y] == Scaled(MergedMean(mode, n, RowOf(left, x), RowOf(right, x), y), bls, ratio)
    {
      for j := 0 to n
        invariant forall x, y :: 0 <= x < i && 0 <= y < n ==>
            merge[x, y] == Scaled(MergedMean(mode, n, RowOf(left, x), RowOf(right, x), y), bls, ratio)
        invariant forall y :: 0 <= y < j ==>
            merge[i, y] == Scaled(MergedMean(mode, n, RowOf(left, i), RowOf(right, i), y), bls, ratio)
      {
        hide Scaled;
        var mean: int;
        match mode {
          case Left => mean := left[i, j];
          case Right => mean := right[i, j];
          case LeftAndRight =>
            if j < n / 2 {
              mean := (left[i, j * 2] + left[i, j * 2 + 1]) / 2;
            } else if j > n / 2 {
              mean := (right[i, j * 2 - n] + right[i, j * 2 - n + 1]) / 2;
            } else {
              mean := (left[i, n - 1] + right[i, 0]) / 2;
            }
        }
        assert mean == MergedMean(mode, n, RowOf(left, i), RowOf(right, i), j);
        hide MergedMean;
        merge[i, j] := Scaled(mean, bls, ratio);
      }
    }
    hide Scaled, MergedMean, RowOf, HoldsMean;
    forall i, j | 0 <= i < n && 0 <= j < n ensures HoldsMean(merge, left, right, mode, n, bls, ratio, i, j) {
      MeanIsHeld(merge, left, right, mode, n, bls, ratio, i, j);
    }
  }

  // ----- Averaging undoes splitting -----

  function LeftHalf(row: Row): Row {
    (j: nat) => row(LeftColumn(j))
  }

  function RightHalf(n: nat, row: Row): Row {
    (j: nat) => row(RightColumn(n, j))
  }

  ghost predicate Restores(n: nat, row: Row) {
    forall j :: 0 <= j < n ==> Averaged(n, LeftHalf(row), RightHalf(n, row), j) == row(j)
  }

  /**
   * Averaging the halves of a row gives it back, whatever it holds, exactly when the number of columns
   * is odd or zero.
   */
  lemma AveragingUndoesSplittingIff(n: nat)
    ensures (forall row: Row :: Restores(n, row)) <==> n % 2 == 1 || n == 0
  {
    if n % 2 == 1 {
      forall row: Row ensures Restores(n, row) {
        forall j | 0 <= j < n ensures Averaged(n, LeftHalf(row), RightHalf(n, row), j) == row(j) {
          HalfColumns(n, j);
        }
      }
    } else if n > 0 {
      var row: Row := (j: nat) => if j == n / 2 then 2 else 0;
      assert LeftColumn(n - 1) == n / 2 - 1 && RightColumn(n, 0) == n / 2;
      assert LeftHalf(row)(n - 1) == 0 && RightHalf(n, row)(0) == 2;
      assert row(n / 2) == 2;
      assert !Restores(n, row);
    }
  }

  /** With an odd number of columns, the two half columns of column j both come from it. */
  lemma HalfColumns(n: nat, j: nat)
    requires n % 2 == 1 && j < n
    ensures j < n / 2 ==> LeftColumn(j * 2) == LeftColumn(j * 2 + 1) == j
    ensures j > n / 2 ==> RightColumn(n, j * 2 - n) == RightColumn(n, j * 2 - n + 1) == j
    ensures j == n / 2 ==> LeftColumn(n - 1) == RightColumn(n, 0) == j
  {
  }

  // ----- White-balance blocks: two grids are added to one -----

  /** Sums over a block, and how many white points it holds. */
  datatype Block = Block(r: nat, g: nat, b: nat, wp: nat)

  type Blocks = nat -> Block

  const NoBlock := Block(0, 0, 0, 0)

  function Plus(x: Block, y: Block): Block {
    Block(x.r + y.r, x.g + y.g, x.b + y.b, x.wp + y.wp)
  }

  /** What a pair of blocks adds up to. */
  function Paired(n: nat, left: Blocks, right: Blocks, j: nat): Block
    requires j < n
  {
    if j < n / 2 then Plus(left(j * 2), left(j * 2 + 1))
    else if j > n / 2 then Plus(right(j * 2 - n), right(j * 2 - n + 1))
    else Plus(left(n - 1), right(0))
  }

  /** The sum of a pair is computed in 32 bits. */
  function InWords(x: Block): Block {
    Block(ToU32(x.r), ToU32(x.g), ToU32(x.b), ToU32(x.wp))
  }

  function Added(n: nat, left: Blocks, right: Blocks, j: nat): Block
    requires j < n
  {
    InWords(Paired(n, left, right, j))
  }

  function MergedBlock(mode: Mode, n: nat, left: Blocks, right: Blocks, j: nat): Block
    requires j < n
  {
    match mode
    case Left => left(j)
    case Right => right(j)
    case LeftAndRight => Added(n, left, right, j)
  }

  function RowSeq(a: array2<Block>, i: nat): seq<Block>
    reads a
    requires i < a.Length0
  {
    seq(a.Length1, j requires 0 <= j < a.Length1 reads a => a[i, j])
  }

  function BlocksOf(a: array2<Block>, i: nat): Blocks
    reads a
    requires i < a.Length0
  {
    BlocksOfSeq(RowSeq(a, i))
  }

  function BlocksOfSeq(s: seq<Block>): Blocks {
    (j: nat) => if j < |s| then s[j] else NoBlock
  }

  /** Every channel of the block is that of both, added in 32 bits. */
  predicate IsSumOf(x: Block, a: Block, b: Block) {
    && x.r == (a.r + b.r) % 0x1_0000_0000 && x.g == (a.g + b.g) % 0x1_0000_0000
    && x.b == (a.b + b.b) % 0x1_0000_0000 && x.wp == (a.wp + b.wp) % 0x1_0000_0000
  }

  /** Place (i, j) of merged holds what the mode takes for it: the block of one side, or the sum of its pair. */
  predicate HoldsBlock(merge: array2<Block>, left: array2<Block>, right: array2<Block>, mode: Mode, n: nat,
      i: nat, j: nat)
    reads merge, left, right
    requires merge.Length0 == left.Length0 == right.Length0 == n
    requires merge.Length1 == left.Length1 == right.Length1 == n
    requires i < n && j < n
  {
    if mode == Left then merge[i, j] == left[i, j]
    else if mode == Right then merge[i, j] == right[i, j]
    else if 2 * j + 1 < n then IsSumOf(merge[i, j], left[i, 2 * j], left[i, 2 * j + 1])
    else if 2 * j > n then IsSumOf(merge[i, j], right[i, 2 * j - n], right[i, 2 * j - n + 1])
    else IsSumOf(merge[i, j], left[i, n - 1], right[i, 0])
  }

  lemma BlockIsHeld(merge: array2<Block>, left: array2<Block>, right: array2<Block>, mode: Mode, n: nat,
      i: nat, j: nat)
    requires merge.Length0 == left.Length0 == right.Length0 == n
    requires merge.Length1 == left.Length1 == right.Length1 == n
    requires i < n && j < n
    requires merge[i, j] == MergedBlock(mode, n, BlocksOf(left, i), BlocksOf(right, i), j)
    ensures HoldsBlock(merge, left, right, mode, n, i, j)
  {
  }

  method MergeAwbBlkStats(merge: array2<Block>, left: array2<Block>, right: array2<Block>, mode: Mode, n: nat)
    requires merge.Length0 == left.Length0 == right.Length0 == n
    requires merge.Length1 == left.Length1 == right.Length1 == n
    requires merge != left && merge != right
    modifies merge
    ensures forall i, j :: 0 <= i < n && 0 <= j < n ==>
              merge[i, j] == MergedBlock(mode, n, BlocksOf(left, i), BlocksOf(right, i), j)
    ensures forall i, j :: 0 <= i < n && 0 <= j < n ==> HoldsBlock(merge, left, right, mode, n, i, j)
  {
    for i := 0 to n
      invariant forall x, y :: 0 <= x < i && 0 <= y < n ==>
          merge[x, y] == MergedBlock(mode, n, BlocksOf(left, x), BlocksOf(right, x), y)
    {
      for j := 0 to n
        invariant forall x, y :: 0 <= x < i && 0 <= y < n ==>
            merge[x, y] == MergedBlock(mode, n, BlocksOf(left, x), BlocksOf(right, x), y)
        invariant forall y :: 0 <= y < j ==>
            merge[i, y] == MergedBlock(mode, n, BlocksOf(left, i), BlocksOf(right, i), y)
      {
        hide InWords;
        match mode
        case Left => merge[i, j] := left[i, j];
        case Right => merge[i, j] := right[i, j];
        case LeftAndRight =>
          if j < n / 2 {
            merge[i, j] := InWords(Plus(left[i, j * 2], left[i, j * 2 + 1]));
          } else if j > n / 2 {
            merge[i, j] := InWords(Plus(right[i, j * 2 - n], right[i, j * 2 - n + 1]));
          } else {
            merge[i, j] := InWords(Plus(left[i, n - 1], right[i, 0]));
          }
      }
    }
    hide MergedBlock, BlocksOf, HoldsBlock;
    forall i, j | 0 <= i < n && 0 <= j < n ensures HoldsBlock(merge, left, right, mode, n, i, j) {
      BlockIsHeld(merge, left, right, mode, n, i, j);
    }
  }

  // ----- Every block is used once -----

  /** The blocks of the first columns of a row, added up. */
  function Total(row: Blocks, columns: nat): Block {
    if columns == 0 then NoBlock else Plus(Total(row, columns - 1), row(columns - 1))
  }

  /** A row that holds, in its first n columns, the sums of the pairs. */
  ghost predicate IsPaired(n: nat, paired: Blocks, left: Blocks, right: Blocks) {
    forall j :: 0 <= j < n ==> paired(j) == Paired(n, left, right, j)
  }

  /** While columns come from one half, k merged columns are as much as 2k of the half. */
  lemma {:induction false} LeftColumnsAreUsed(n: nat, paired: Blocks, left: Blocks, right: Blocks, k: nat)
    requires IsPaired(n, paired, left, right)
    requires k <= n / 2
    ensures Total(paired, k) == Total(left, 2 * k)
  {
    if k > 0 {
      LeftColumnsAreUsed(n, paired, left, right, k - 1);
      TwoMore(left, 2 * k);
      assert paired(k - 1) == Paired(n, left, right, k - 1);
      hide Total;
    }
  }

  lemma TwoMore(row: Blocks, columns: nat)
    requires columns >= 2
    ensures Total(row, columns) == Plus(Total(row, columns - 2), Plus(row(columns - 2), row(columns - 1)))
  {
    assert Total(row, columns - 1) == Plus(Total(row, columns - 2), row(columns - 2));
  }

  lemma OneMore(row: Blocks, columns: nat)
    requires columns >= 1
    ensures Total(row, columns) == Plus(Total(row, columns - 1), row(columns - 1))
    ensures Total(row, 0) == NoBlock
  {
  }

  lemma {:induction false} RightColumnsAreUsed(n: nat, paired: Blocks, left: Blocks, right: Blocks, k: nat)
    requires n % 2 == 1
    requires IsPaired(n, paired, left, right)
    requires n / 2 < k <= n
    ensures Total(paired, k) == Plus(Total(left, n), Total(right, 2 * k - n))
  {
    hide Total;
    OneMore(paired, k);
    assert paired(k - 1) == Paired(n, left, right, k - 1);
    if k == n / 2 + 1 {
      LeftColumnsAreUsed(n, paired, left, right, k - 1);
      OneMore(left, n);
      OneMore(right, 1);
    } else {
      RightColumnsAreUsed(n, paired, left, right, k - 1);
      TwoMore(right, 2 * k - n);
    }
  }

  /**
   * For an odd number of columns the row of pairs adds up to the left row plus the right row, in every channel
   * and in the number of white points: each block is used exactly once.
   */
  lemma PairsAddUp(n: nat, paired: Blocks, left: Blocks, right: Blocks)
    requires n % 2 == 1
    requires IsPaired(n, paired, left, right)
    ensures Total(paired, n) == Plus(Total(left, n), Total(right, n))
  {
    RightColumnsAreUsed(n, paired, left, right, n);
  }

  // ----- Where sums of pairs fit in 32 bits -----

  /** A row that holds, in its first n columns, what merging two rows gives. */
  ghost predicate IsMerged(n: nat, merged: Blocks, left: Blocks, right: Blocks) {
    forall j :: 0 <= j < n ==> merged(j) == Added(n, left, right, j)
  }

  predicate FitsInWords(x: Block) {
    InWords(x) == x
  }

  /** In every channel no more. */
  predicate AtMost(x: Block, y: Block) {
    x.r <= y.r && x.g <= y.g && x.b <= y.b && x.wp <= y.wp
  }

  lemma WordsAreAtMost(x: Block)
    ensures AtMost(InWords(x), x)
  {
    WordIsAtMost(x.r);
    WordIsAtMost(x.g);
    WordIsAtMost(x.b);
    WordIsAtMost(x.wp);
  }

  lemma WordIsAtMost(x: nat)
    ensures ToU32(x) <= x
  {
  }

  /** Adding to both sides keeps the order, and equality only if both were equal. */
  lemma AtMostAdds(a: Block, b: Block, c: Block, d: Block)
    requires AtMost(a, b) && AtMost(c, d)
    ensures AtMost(Plus(a, c), Plus(b, d))
    ensures Plus(a, c) == Plus(b, d) <==> a == b && c == d
  {
  }

  ghost predicate PairsFit(n: nat, left: Blocks, right: Blocks, k: nat)
    requires k <= n
  {
    forall j :: 0 <= j < k ==> FitsInWords(Paired(n, left, right, j))
  }

  function PairedRow(n: nat, left: Blocks, right: Blocks): Blocks {
    (j: nat) => if j < n then Paired(n, left, right, j) else NoBlock
  }

  lemma {:induction false} MergedAtMostPaired(n: nat, merged: Blocks, left: Blocks, right: Blocks, k: nat)
    requires IsMerged(n, merged, left, right) && k <= n
    ensures
      var paired := PairedRow(n, left, right);
      AtMost(Total(merged, k), Total(paired, k)) && (Total(merged, k) == Total(paired, k)
              <==> PairsFit(n, left, right, k))
  {
    hide FitsInWords, Total, Paired, InWords, AtMost, Plus, PairsFit;
    var paired := PairedRow(n, left, right);
    if k > 0 {
      var last := Paired(n, left, right, k - 1);
      MergedAtMostPaired(n, merged, left, right, k - 1);
      OneMore(merged, k);
      OneMore(paired, k);
      assert merged(k - 1) == Added(n, left, right, k - 1);
      WordsAreAtMost(last);
      AtMostAdds(Total(merged, k - 1), Total(paired, k - 1), InWords(last), last);
      FitsMeansSame(last);
      OneMorePair(n, left, right, k);
    } else {
      OneMore(merged, 1);
      OneMore(paired, 1);
      NothingIsAtMost();
      NoPairs(n, left, right);
    }
  }

  lemma OneMorePair(n: nat, left: Blocks, right: Blocks, k: nat)
    requires 0 < k <= n
    ensures PairsFit(n, left, right, k)
            <==> PairsFit(n, left, right, k - 1) && FitsInWords(Paired(n, left, right, k - 1))
  {
    hide FitsInWords, Paired;
  }

  lemma NoPairs(n: nat, left: Blocks, right: Blocks)
    ensures PairsFit(n, left, right, 0)
  {
  }

  lemma FitsMeansSame(x: Block)
    ensures FitsInWords(x) <==> InWords(x) == x
  {
  }

  /**
   * For an odd number of columns the merged row adds up to the left row plus the right row, in every channel
   * and in the number of white points, exactly if every sum of a pair fits in 32 bits; it is never more.
   */
  lemma RowTotalsAddIff(n: nat, merged: Blocks, left: Blocks, right: Blocks)
    requires n % 2 == 1
    requires IsMerged(n, merged, left, right)
    ensures AtMost(Total(merged, n), Plus(Total(left, n), Total(right, n)))
    ensures Total(merged, n) == Plus(Total(left, n), Total(right, n)) <==> PairsFit(n, left, right, n)
  {
    hide Total, PairsFit;
    var paired := PairedRow(n, left, right);
    assert IsPaired(n, paired, left, right);
    PairsAddUp(n, paired, left, right);
    MergedAtMostPaired(n, merged, left, right, n);
  }

  function RowTotal(row: seq<Block>, n: nat): Block {
    Total(BlocksOfSeq(row), n)
  }

  /** The first rows of a grid added up. */
  function GridTotal(grid: seq<seq<Block>>, n: nat, rows: nat): Block
    requires rows <= |grid|
  {
    if rows == 0 then NoBlock else Plus(GridTotal(grid, n, rows - 1), RowTotal(grid[rows - 1], n))
  }

  ghost predicate MergedAt(n: nat, merged: seq<seq<Block>>, left: seq<seq<Block>>, right: seq<seq<Block>>, i: nat)
    requires i < |merged| == |left| == |right|
  {
    IsMerged(n, BlocksOfSeq(merged[i]), BlocksOfSeq(left[i]), BlocksOfSeq(right[i]))
  }

  ghost predicate FitsAt(n: nat, left: seq<seq<Block>>, right: seq<seq<Block>>, i: nat)
    requires i < |left| == |right|
  {
    PairsFit(n, BlocksOfSeq(left[i]), BlocksOfSeq(right[i]), n)
  }

  lemma RowTotalsAddAt(n: nat, merged: seq<seq<Block>>, left: seq<seq<Block>>, right: seq<seq<Block>>, i: nat)
    requires n % 2 == 1
    requires i < |merged| == |left| == |right| && MergedAt(n, merged, left, right, i)
    ensures AtMost(RowTotal(merged[i], n), Plus(RowTotal(left[i], n), RowTotal(right[i], n)))
    ensures RowTotal(merged[i], n) == Plus(RowTotal(left[i], n), RowTotal(right[i], n)) <==> FitsAt(n, left, right, i)
  {
    hide Total, IsMerged, PairsFit;
    RowTotalsAddIff(n, BlocksOfSeq(merged[i]), BlocksOfSeq(left[i]), BlocksOfSeq(right[i]));
  }

  lemma {:induction false} GridTotalsAddIff(n: nat, merged: seq<seq<Block>>, left: seq<seq<Block>>,
      right: seq<seq<Block>>, rows: nat)
    requires n % 2 == 1
    requires rows <= |merged| == |left| == |right|
    requires forall i :: 0 <= i < rows ==> MergedAt(n, merged, left, right, i)
    ensures
      var both := Plus(GridTotal(left, n, rows), GridTotal(right, n, rows));
      && AtMost(GridTotal(merged, n, rows), both)
      && (GridTotal(merged, n, rows) == both <==> forall i :: 0 <= i < rows ==> FitsAt(n, left, right, i))
    decreases rows
  {
    hide GridTotal, RowTotal, Total, MergedAt, IsMerged, FitsAt, Plus, AtMost;
    LastRow(merged, n, rows);
    LastRow(left, n, rows);
    LastRow(right, n, rows);
    if rows > 0 {
      var i := rows - 1;
      GridTotalsAddIff(n, merged, left, right, i);
      RowTotalsAddAt(n, merged, left, right, i);
      PlusRegroups(GridTotal(left, n, i), GridTotal(right, n, i), RowTotal(left[i], n), RowTotal(right[i], n));
      AtMostAdds(GridTotal(merged, n, i), Plus(GridTotal(left, n, i), GridTotal(right, n, i)),
                 RowTotal(merged[i], n), Plus(RowTotal(left[i], n), RowTotal(right[i], n)));
    } else {
      NothingIsAtMost();
    }
  }

  lemma NothingIsAtMost()
    ensures AtMost(NoBlock, NoBlock)
  {
  }

  lemma LastRow(grid: seq<seq<Block>>, n: nat, rows: nat)
    requires rows <= |grid|
    ensures rows == 0 ==> GridTotal(grid, n, rows) == NoBlock == Plus(NoBlock, NoBlock)
    ensures rows > 0 ==> GridTotal(grid, n, rows) == Plus(GridTotal(grid, n, rows - 1), RowTotal(grid[rows - 1], n))
  {
    hide RowTotal;
  }

  lemma PlusRegroups(a: Block, b: Block, c: Block, d: Block)
    ensures Plus(Plus(a, b), Plus(c, d)) == Plus(Plus(a, c), Plus(b, d))
  {
  }

  // ----- The grids in memory -----

  function GridOf(a: array2<Block>): seq<seq<Block>>
    reads a
  {
    seq(a.Length0, i requires 0 <= i < a.Length0 reads a => RowSeq(a, i))
  }

  /**
   * What MergeAwbBlkStats leaves in the merged grid adds up to both grids together, exactly if every sum of a
   * pair fits in 32 bits.
   */
  lemma MergedBlocksKeepTotalsIff(merge: array2<Block>, left: array2<Block>, right: array2<Block>, n: nat)
    requires n % 2 == 1
    requires merge.Length0 == left.Length0 == right.Length0 == n
    requires merge.Length1 == left.Length1 == right.Length1 == n
    requires forall i, j :: 0 <= i < n && 0 <= j < n ==>
               merge[i, j] == MergedBlock(LeftAndRight, n, BlocksOf(left, i), BlocksOf(right, i), j)
    ensures GridTotal(GridOf(merge), n, n) == Plus(GridTotal(GridOf(left), n, n), GridTotal(GridOf(right), n, n))
       <==> forall i :: 0 <= i < n ==> PairsFit(n, BlocksOf(left, i), BlocksOf(right, i), n)
  {
    hide Total, GridTotal, Plus, PairsFit;
    forall i | 0 <= i < n ensures MergedAt(n, GridOf(merge), GridOf(left), GridOf(right), i) {
      forall j | 0 <= j < n ensures BlocksOf(merge, i)(j) == Added(n, BlocksOf(left, i), BlocksOf(right, i), j) {
        assert merge[i, j] == MergedBlock(LeftAndRight, n, BlocksOf(left, i), BlocksOf(right, i), j);
      }
    }
    GridTotalsAddIff(n, GridOf(merge), GridOf(left), GridOf(right), n);
    forall i | 0 <= i < n
      ensures FitsAt(n, GridOf(left), GridOf(right), i) <==> PairsFit(n, BlocksOf(left, i), BlocksOf(right, i), n)
    {
    }
  }

  /** Blocks whose channels stay below 2^31 always fit. */
  lemma SmallBlocksFit(n: nat, left: Blocks, right: Blocks)
    requires forall j :: 0 <= j < n ==> AtMost(left(j), Largest) && AtMost(right(j), Largest)
    ensures PairsFit(n, left, right, n)
  {
    forall j | 0 <= j < n ensures FitsInWords(Paired(n, left, right, j)) {
      HalfWordsFit(Paired(n, left, right, j));
    }
  }

  const Largest := Block(0x7fff_ffff, 0x7fff_ffff, 0x7fff_ffff, 0x7fff_ffff)

  lemma HalfWordsFit(x: Block)
    requires AtMost(x, Plus(Largest, Largest))
    ensures FitsInWords(x)
  {
  }

  /**
   * Splitting a grid of weights and merging the halves as means without black level and gain gives back
   * every weight.
   */
  lemma SplitWeightsComeBack(ori: array2<int>, left: array2<int>, right: array2<int>, merge: array2<int>, n: nat)
    requires n % 2 == 1
    requires ori.Length0 == left.Length0 == right.Length0 == merge.Length0 == n
    requires ori.Length1 == left.Length1 == right.Length1 == merge.Length1 == n
    requires forall i, j :: 0 <= i < n && 0 <= j < n ==> SplitAt(ori, left, right, n, i, j)
    requires forall i, j :: 0 <= i < n && 0 <= j < n ==>
               merge[i, j] == Scaled(MergedMean(LeftAndRight, n, RowOf(left, i), RowOf(right, i), j), 0, 1.0)
    requires forall i, j :: 0 <= i < n && 0 <= j < n ==> 0 <= ori[i, j] < TWO_TO_16
    ensures forall i, j :: 0 <= i < n && 0 <= j < n ==> merge[i, j] == ori[i, j]
  {
    forall i, j | 0 <= i < n && 0 <= j < n ensures merge[i, j] == ori[i, j] {
      HalfColumns(n, j);
      ScaledByNothing(ori[i, j]);
      hide Scaled;
      if j < n / 2 {
        assert SplitAt(ori, left, right, n, i, j * 2) && SplitAt(ori, left, right, n, i, j * 2 + 1);
      } else if j > n / 2 {
        assert SplitAt(ori, left, right, n, i, j * 2 - n) && SplitAt(ori, left, right, n, i, j * 2 - n + 1);
      } else {
        assert SplitAt(ori, left, right, n, i, n - 1) && SplitAt(ori, left, right, n, i, 0);
      }
    }
  }
}

/** Adding the exposure histograms of the two ISPs, with every bin moved by black level and gain. */
module HistMerge {
  import opened Words
  import opened AecWindows

  const BINS := 256

  type Level = b: int | -0x8000 <= b < 0x8000

  /** The bin that bin i is moved to: rounded to nearest, and kept in range. */
  function Bin(i: nat, bls: Level, ratio: real): (t: nat)
    requires ratio >= 0.0
    ensures t < BINS
  {
    var moved := if i - bls >= 0 then Rounded(i - bls, ratio) else 0;
    if moved > BINS - 1 then BINS - 1 else moved
  }

  function Rounded(d: nat, ratio: real): nat
    requires ratio >= 0.0
  {
    NotNegative(d, ratio);
    (d as real * ratio + 0.5).Floor
  }

  lemma NotNegative(d: nat, ratio: real)
    requires ratio >= 0.0
    ensures d as real * ratio >= 0.0
  {
  }

  /** Above black level and while in range, the target is the nearest bin to the scaled distance; ties go up. */
  lemma BinIsNearest(i: nat, bls: Level, ratio: real)
    requires ratio >= 0.0
    ensures i < bls ==> Bin(i, bls, ratio) == 0
    ensures
      var exact := (i - bls) as real * ratio;
      i >= bls ==>
        && (exact < 254.5 ==> -0.5 < Bin(i, bls, ratio) as real - exact <= 0.5)
        && (exact >= 254.5 ==> Bin(i, bls, ratio) == BINS - 1)
  {
    if i >= bls {
      NotNegative(i - bls, ratio);
    }
  }

  /** Moving bins keeps their order. */
  lemma BinIsMonotone(i: nat, j: nat, bls: Level, ratio: real)
    requires ratio >= 0.0
    requires i <= j
    ensures Bin(i, bls, ratio) <= Bin(j, bls, ratio)
  {
    if i - bls >= 0 {
      MoreIsMore(i - bls, j - bls, ratio);
    }
  }

  lemma MoreIsMore(a: nat, b: nat, ratio: real)
    requires ratio >= 0.0 && a <= b
    ensures Rounded(a, ratio) <= Rounded(b, ratio)
  {
    var d := (b - a) as real;
    assert b as real == a as real + d;
    assert b as real * ratio == a as real * ratio + d * ratio;
    NotNegative(b - a, ratio);
  }

  /** The counts that are added up: of one ISP, or of both. */
  function Source(mode: Mode, left: seq<uint32>, right: seq<uint32>, i: nat): int
    requires i < |left| && i < |right|
  {
    match mode
    case Left => left[i]
    case Right => right[i]
    case LeftAndRight =>
      var l: int, r: int := left[i], right[i];
      l + r
  }

  function Counts(mode: Mode, left: seq<uint32>, right: seq<uint32>): seq<int>
    requires |left| == |right|
  {
    seq(|left|, i requires 0 <= i < |left| => Source(mode, left, right, i))
  }

  function Sum(counts: seq<int>, k: nat): int
    requires k <= |counts|
  {
    if k == 0 then 0 else Sum(counts, k - 1) + counts[k - 1]
  }

  /** What the first k bins contribute to bin t. */
  function Moved(counts: seq<int>, bls: Level, ratio: real, t: nat, k: nat): int
    requires k <= |counts| && ratio >= 0.0
  {
    if k == 0 then 0
    else Moved(counts, bls, ratio, t, k - 1) + if Bin(k - 1, bls, ratio) == t then counts[k - 1] else 0
  }

  method MergeAecHistBinStats(merge: array<uint32>, left: array<uint32>, right: array<uint32>, mode: Mode,
      bls: Level, ratio: real)
    requires merge.Length == left.Length == right.Length == BINS
    requires merge != left && merge != right
    requires ratio >= 0.0
    modifies merge
    ensures forall t :: 0 <= t < BINS ==>
              merge[t] == ToU32(Moved(Counts(mode, left[..], right[..]), bls, ratio, t, BINS))
    ensures forall t :: 0 <= t < BINS ==>
              var l, r := Arrived(left[..], bls, ratio, t, 256), Arrived(right[..], bls, ratio, t, 256);
              merge[t] == (if mode == Left then l else if mode == Right then r else l + r) % 0x1_0000_0000
    ensures mode == Left ==> WordSum(merge[..], 256) % 0x1_0000_0000 == WordSum(left[..], 256) % 0x1_0000_0000
    ensures mode == Right ==> WordSum(merge[..], 256) % 0x1_0000_0000 == WordSum(right[..], 256) % 0x1_0000_0000
    ensures mode == LeftAndRight ==>
              WordSum(merge[..], 256) % 0x1_0000_0000
              == (WordSum(left[..], 256) + WordSum(right[..], 256)) % 0x1_0000_0000
  {
    ghost var l, r := left[..], right[..];
    ghost var counts := Counts(mode, left[..], right[..]);
    for i := 0 to BINS
      invariant forall t :: 0 <= t < i ==> merge[t] == 0
    {
      merge[i] := 0;
    }
    for i := 0 to BINS
      invariant HoldsMoved(merge[..], counts, bls, ratio, i)
    {
      var target: int := if i - bls >= 0 then Rounded(i - bls, ratio) else 0;
      if target > BINS - 1 {
        target := BINS - 1;
      }
      var more: uint32;
      match mode {
        case Left => more := left[i];
        case Right => more := right[i];
        case LeftAndRight => more := AddedWord(left[i], right[i]);
      }
      assert more == ToU32(counts[i]) by {
        WordsAdd(counts[i], 0);
      }
      AddBin(merge[..], counts, bls, ratio, i);
      ghost var before := merge[..];
      merge[target] := AddedWord(merge[target], more);
      assert merge[..] == before[target := merge[target]];
    }
    assert forall t :: 0 <= t < BINS ==> merge[t] == merge[..][t];
    hide HoldsMoved, Moved, Counts, Arrived, WordSum, Bin;
    forall t | 0 <= t < BINS
      ensures
        var x, y := Arrived(l, bls, ratio, t, 256), Arrived(r, bls, ratio, t, 256);
        merge[t] == (if mode == Left then x else if mode == Right then y else x + y) % 0x1_0000_0000
    {
      MovedHaveArrived(l, r, mode, bls, ratio, t);
    }
    MergedHistogramConserves(merge[..], l, r, mode, bls, ratio);
  }

  // ----- By mode, over the histograms themselves -----

  /** What the bins of one histogram that are moved to t hold. */
  function Arrived(bins: seq<uint32>, bls: Level, ratio: real, t: nat, k: nat): int
    requires k <= |bins| && ratio >= 0.0
  {
    if k == 0 then 0
    else Arrived(bins, bls, ratio, t, k - 1) + if Bin(k - 1, bls, ratio) == t then bins[k - 1] else 0
  }

  lemma {:induction false} MovedByMode(left: seq<uint32>, right: seq<uint32>, mode: Mode, bls: Level, ratio: real,
      t: nat, k: nat)
    requires |left| == |right| && k <= |left| && ratio >= 0.0
    ensures
      var l, r := Arrived(left, bls, ratio, t, k), Arrived(right, bls, ratio, t, k);
      Moved(Counts(mode, left, right), bls, ratio, t, k)
      == if mode == Left then l else if mode == Right then r else l + r
  {
    hide Bin;
    if k > 0 {
      MovedByMode(left, right, mode, bls, ratio, t, k - 1);
    }
  }

  lemma MovedHaveArrived(left: seq<uint32>, right: seq<uint32>, mode: Mode, bls: Level, ratio: real, t: nat)
    requires |left| == |right| && ratio >= 0.0
    ensures
      var l, r := Arrived(left, bls, ratio, t, |left|), Arrived(right, bls, ratio, t, |left|);
      ToU32(Moved(Counts(mode, left, right), bls, ratio, t, |left|))
      == (if mode == Left then l else if mode == Right then r else l + r) % 0x1_0000_0000
  {
    MovedByMode(left, right, mode, bls, ratio, t, |left|);
    hide Moved, Arrived, Counts;
  }

  lemma {:induction false} SumByMode(left: seq<uint32>, right: seq<uint32>, mode: Mode, k: nat)
    requires |left| == |right| && k <= |left|
    ensures
      Sum(Counts(mode, left, right), k)
      == if mode == Left then WordSum(left, k)
         else if mode == Right then WordSum(right, k)
         else WordSum(left, k) + WordSum(right, k)
  {
    if k > 0 {
      SumByMode(left, right, mode, k - 1);
    }
  }

  ghost predicate HoldsMoved(bins: seq<uint32>, counts: seq<int>, bls: Level, ratio: real, k: nat)
    requires k <= |counts| && ratio >= 0.0
  {
    |bins| == BINS && forall t :: 0 <= t < BINS ==> bins[t] == ToU32(Moved(counts, bls, ratio, t, k))
  }

  lemma AddBin(bins: seq<uint32>, counts: seq<int>, bls: Level, ratio: real, i: nat)
    requires i < |counts| && ratio >= 0.0
    requires HoldsMoved(bins, counts, bls, ratio, i)
    ensures
      var target := Bin(i, bls, ratio);
      HoldsMoved(bins[target := AddedWord(bins[target], ToU32(counts[i]))], counts, bls, ratio, i + 1)
  {
    hide Bin, ToU32;
    var target := Bin(i, bls, ratio);
    var after := bins[target := AddedWord(bins[target], ToU32(counts[i]))];
    WordsAdd(Moved(counts, bls, ratio, target, i), counts[i]);
    forall t | 0 <= t < BINS ensures after[t] == ToU32(Moved(counts, bls, ratio, t, i + 1)) {
    }
  }

  function AddedWord(a: uint32, b: uint32): uint32 {
    var x: int, y: int := a, b;
    ToU32(x + y)
  }

  // ----- Nothing is lost, and order is kept -----

  /** The merged bins below t. */
  function Below(counts: seq<int>, bls: Level, ratio: real, t: nat, k: nat): int
    requires k <= |counts| && ratio >= 0.0
  {
    if t == 0 then 0 else Below(counts, bls, ratio, t - 1, k) + Moved(counts, bls, ratio, t - 1, k)
  }

  /** One more bin adds its count below every t that is above the bin it is moved to. */
  lemma {:induction false} BelowGrows(counts: seq<int>, bls: Level, ratio: real, t: nat, k: nat)
    requires 0 < k <= |counts| && ratio >= 0.0
    ensures Below(counts, bls, ratio, t, k)
         == Below(counts, bls, ratio, t, k - 1) + if Bin(k - 1, bls, ratio) < t then counts[k - 1] else 0
  {
    hide Bin;
    if t > 0 {
      BelowGrows(counts, bls, ratio, t - 1, k);
    }
  }

  /** The merged bins add up to the counts they were made from. */
  lemma {:induction false} MergedBinsAddUp(counts: seq<int>, bls: Level, ratio: real, k: nat)
    requires k <= |counts| && ratio >= 0.0
    ensures Below(counts, bls, ratio, BINS, k) == Sum(counts, k)
  {
    if k > 0 {
      BelowGrows(counts, bls, ratio, BINS, k);
      MergedBinsAddUp(counts, bls, ratio, k - 1);
    } else {
      NothingBelow(counts, bls, ratio, BINS);
    }
  }

  lemma {:induction false} NothingBelow(counts: seq<int>, bls: Level, ratio: real, t: nat)
    requires ratio >= 0.0
    ensures Below(counts, bls, ratio, t, 0) == 0
  {
    if t > 0 {
      NothingBelow(counts, bls, ratio, t - 1);
    }
  }

  /** How many of the first k bins are moved below t: they come first. */
  function Prefix(bls: Level, ratio: real, t: nat, k: nat): (n: nat)
    requires ratio >= 0.0
    ensures n <= k
  {
    if k == 0 then 0
    else if Bin(k - 1, bls, ratio) < t then k
    else Prefix(bls, ratio, t, k - 1)
  }

  /**
   * Cumulative counts survive: for every t, the merged bins below t add up to the source bins below some
   * other bin, the first that is not moved below t.
   */
  lemma {:induction false} MergingKeepsCumulativeCounts(counts: seq<int>, bls: Level, ratio: real, t: nat, k: nat)
    requires k <= |counts| && ratio >= 0.0
    ensures Below(counts, bls, ratio, t, k) == Sum(counts, Prefix(bls, ratio, t, k))
    ensures forall i :: 0 <= i < k ==> (Bin(i, bls, ratio) < t <==> i < Prefix(bls, ratio, t, k))
  {
    if k == 0 {
      NothingBelow(counts, bls, ratio, t);
    } else {
      BelowGrows(counts, bls, ratio, t, k);
      MergingKeepsCumulativeCounts(counts, bls, ratio, t, k - 1);
      forall i | 0 <= i < k ensures Bin(i, bls, ratio) < t <==> i < Prefix(bls, ratio, t, k) {
        BinIsMonotone(i, k - 1, bls, ratio);
      }
      if Bin(k - 1, bls, ratio) < t {
        assert k - 1 == 0 || Bin(k - 2, bls, ratio) < t by {
          if k > 1 {
            BinIsMonotone(k - 2, k - 1, bls, ratio);
          }
        }
      }
    }
  }

  // ----- In 32 bits -----

  function WordSum(bins: seq<uint32>, k: nat): int
    requires k <= |bins|
  {
    if k == 0 then 0 else WordSum(bins, k - 1) + bins[k - 1]
  }

  lemma {:induction false} WordsOfMergedBins(bins: seq<uint32>, counts: seq<int>, bls: Level, ratio: real, t: nat)
    requires |bins| == |counts| == BINS && ratio >= 0.0 && t <= BINS
    requires forall i :: 0 <= i < BINS ==> bins[i] == ToU32(Moved(counts, bls, ratio, i, BINS))
    ensures ToU32(WordSum(bins, t)) == ToU32(Below(counts, bls, ratio, t, BINS))
  {
    if t > 0 {
      WordsOfMergedBins(bins, counts, bls, ratio, t - 1);
      var was: int, more: int := WordSum(bins, t - 1), bins[t - 1];
      WordsAdd(was, more);
      WordsAdd(more, 0);
      WordsAdd(Below(counts, bls, ratio, t - 1, BINS), Moved(counts, bls, ratio, t - 1, BINS));
      hide ToU32, Moved;
    }
  }

  /** What the merge leaves in its bins is, in total, what the ISPs that were used had counted, as a 32-bit word. */
  lemma MergedHistogramConserves(bins: seq<uint32>, left: seq<uint32>, right: seq<uint32>, mode: Mode,
      bls: Level, ratio: real)
    requires |bins| == |left| == |right| == BINS && ratio >= 0.0
    requires forall i :: 0 <= i < BINS ==> bins[i] == ToU32(Moved(Counts(mode, left, right), bls, ratio, i, BINS))
    ensures ToU32(WordSum(bins, BINS)) == ToU32(Sum(Counts(mode, left, right), BINS))
    ensures WordSum(bins, BINS) % 0x1_0000_0000
         == (match mode
             case Left => WordSum(left, BINS)
             case Right => WordSum(right, BINS)
             case LeftAndRight => WordSum(left, BINS) + WordSum(right, BINS)) % 0x1_0000_0000
  {
    var counts := Counts(mode, left, right);
    SumByMode(left, right, mode, BINS);
    TotalsInWords(WordSum(bins, BINS), Sum(counts, BINS));
    hide Counts, ToU32, Moved, WordSum, Sum;
    WordsOfMergedBins(bins, counts, bls, ratio, BINS);
    MergedBinsAddUp(counts, bls, ratio, BINS);
  }

  lemma TotalsInWords(a: int, b: int)
    ensures ToU32(a) == ToU32(b) <==> a % 0x1_0000_0000 == b % 0x1_0000_0000
  {
  }
}

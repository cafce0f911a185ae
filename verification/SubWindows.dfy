/** Cutting the sub-windows of the exposure measurement, and adding up what the two ISPs measured in them. */
module SubWindows {
  import opened Words
  import opened AecWindows

  /** Pixel values by row and column. */
  type Image = (nat, nat) -> int

  datatype Cut = Cut(mode: Mode, left: Window, right: Window)

  predicate LeftEnabled(mode: Mode) {
    mode != Right
  }

  predicate RightEnabled(mode: Mode) {
    mode != Left
  }

  function AtLeastZero(x: int): nat {
    if x < 0 then 0 else x
  }

  /** How one enabled sub-window is cut: at the right edge of the left ISP, if it lies in both. */
  function CutSub(g: Geometry, w: Window): Cut {
    if w.h + w.hSize <= g.IspWidth() then Cut(Left, w, w.(h := 0))
    else if w.h >= g.RightX() then Cut(Right, w.(h := 0), w.(h := ToU16(w.h - g.RightX())))
    else
      var left := w.(hSize := ToU16(AtLeastZero(g.IspWidth() - w.h)));
      Cut(LeftAndRight, left,
          w.(h := ToU16(left.h + left.hSize - g.RightX()), hSize := ToU16(AtLeastZero(w.hSize - left.hSize))))
  }

  method SplitAecSubWin(g: Geometry, en: array<nat>, ori: array<Window>, left: array<Window>,
      right: array<Window>, mode: array<Mode>)
    requires en.Length == ori.Length == left.Length == right.Length == mode.Length
    requires ori != left && ori != right && left != right
    modifies left, right, mode
    ensures forall i :: 0 <= i < ori.Length ==>
              Cut(mode[i], left[i], right[i])
              == if en[i] == 1 then CutSub(g, ori[i]) else old(Cut(mode[i], left[i], right[i]))
  {
    for i := 0 to ori.Length
      invariant forall k :: 0 <= k < i ==>
            Cut(mode[k], left[k], right[k])
            == if en[k] == 1 then CutSub(g, ori[k]) else old(Cut(mode[k], left[k], right[k]))
      invariant forall k :: i <= k < ori.Length ==>
            Cut(mode[k], left[k], right[k]) == old(Cut(mode[k], left[k], right[k]))
    {
      if en[i] == 1 {
        var w := ori[i];
        if w.h + w.hSize <= g.IspWidth() {
          mode[i] := Left;
          left[i] := w;
          right[i] := w.(h := 0);
        } else if w.h >= g.RightX() {
          mode[i] := Right;
          left[i] := w.(h := 0);
          right[i] := w.(h := ToU16(w.h - g.RightX()));
        } else {
          mode[i] := LeftAndRight;
          left[i] := w.(hSize := ToU16(AtLeastZero(g.IspWidth() - w.h)));
          right[i] := w.(h := ToU16(left[i].h + left[i].hSize - g.RightX()),
                         hSize := ToU16(AtLeastZero(w.hSize - left[i].hSize)));
        }
      }
    }
  }

  /** Enables each side of an enabled sub-window that its mode uses; a disabled one is left alone. */
  method EnableSides(en: array<nat>, mode: array<Mode>, leftEn: array<bool>, rightEn: array<bool>)
    requires en.Length == mode.Length == leftEn.Length == rightEn.Length
    requires leftEn != rightEn
    modifies leftEn, rightEn
    ensures forall i :: 0 <= i < en.Length && en[i] != 0 ==>
              leftEn[i] == LeftEnabled(mode[i]) && rightEn[i] == RightEnabled(mode[i])
    ensures forall i :: 0 <= i < en.Length && en[i] == 0 ==>
            leftEn[i] == old(leftEn[i]) && rightEn[i] == old(rightEn[i])
  {
    for i := 0 to en.Length
      invariant forall k :: 0 <= k < i && en[k] != 0 ==>
            leftEn[k] == LeftEnabled(mode[k]) && rightEn[k] == RightEnabled(mode[k])
      invariant forall k :: 0 <= k < en.Length && (i <= k || en[k] == 0) ==>
            leftEn[k] == old(leftEn[k]) && rightEn[k] == old(rightEn[k])
    {
      if en[i] != 0 {
        match mode[i]
        case LeftAndRight => leftEn[i], rightEn[i] := true, true;
        case Left => leftEn[i], rightEn[i] := true, false;
        case Right => leftEn[i], rightEn[i] := false, true;
      }
    }
  }

  /** What merging adds up, in 32 bits. */
  function Merged(leftEn: bool, rightEn: bool, left: uint32, right: uint32): uint32 {
    ToU32((if leftEn then left else 0) + if rightEn then right else 0)
  }

  method MergeAecSubWinSums(leftEn: array<bool>, rightEn: array<bool>, left: array<uint32>,
      right: array<uint32>, merged: array<uint32>)
    requires leftEn.Length == rightEn.Length == left.Length == right.Length == merged.Length
    requires merged != left && merged != right
    modifies merged
    ensures forall i :: 0 <= i < merged.Length ==> merged[i] == Merged(leftEn[i], rightEn[i], left[i], right[i])
  {
    for i := 0 to merged.Length
      invariant forall k :: 0 <= k < i ==> merged[k] == Merged(leftEn[k], rightEn[k], left[k], right[k])
    {
      var sum: int := 0;
      if leftEn[i] {
        sum := sum + left[i];
      }
      if rightEn[i] {
        sum := sum + right[i];
      }
      merged[i] := ToU32(sum);
    }
  }

  // ----- What an ISP measures -----

  function RowSum(img: Image, row: nat, from: nat, to: nat): int
    decreases to - from
  {
    if to <= from then 0 else img(row, from) + RowSum(img, row, from + 1, to)
  }

  function BlockSum(img: Image, from: nat, to: nat, row: nat, rows: nat): int
    decreases rows
  {
    if rows == 0 then 0 else RowSum(img, row, from, to) + BlockSum(img, from, to, row + 1, rows - 1)
  }

  /** The sum over a window of an ISP whose first column is column x of the picture. */
  function WindowSum(img: Image, x: nat, w: Window): int {
    BlockSum(img, x + w.h, x + w.h + w.hSize, w.v, w.vSize)
  }

  /** The sum as the hardware reports it. */
  function Measured(img: Image, x: nat, w: Window): uint32 {
    ToU32(WindowSum(img, x, w))
  }

  lemma {:induction false} RowSumSplits(img: Image, row: nat, from: nat, middle: nat, to: nat)
    requires from <= middle <= to
    ensures RowSum(img, row, from, to) == RowSum(img, row, from, middle) + RowSum(img, row, middle, to)
    decreases middle - from
  {
    if from < middle {
      RowSumSplits(img, row, from + 1, middle, to);
    }
  }

  lemma {:induction false} BlockSumSplits(img: Image, from: nat, middle: nat, to: nat, row: nat, rows: nat)
    requires from <= middle <= to
    ensures BlockSum(img, from, to, row, rows)
         == BlockSum(img, from, middle, row, rows) + BlockSum(img, middle, to, row, rows)
    decreases rows
  {
    if rows > 0 {
      RowSumSplits(img, row, from, middle, to);
      BlockSumSplits(img, from, middle, to, row + 1, rows - 1);
    }
  }

  /** The image has one pixel that is not zero. */
  ghost predicate IsPixel(img: Image, row: nat, column: nat, value: int) {
    forall r: nat, c: nat :: img(r, c) == (if r == row && c == column then value else 0)
  }

  lemma {:induction false} PixelInRow(img: Image, row: nat, column: nat, value: int, r: nat, from: nat, to: nat)
    requires IsPixel(img, row, column, value)
    ensures RowSum(img, r, from, to) == (if r == row && from <= column < to then value else 0)
    decreases if from < to then to - from else 0
  {
    if from < to {
      PixelInRow(img, row, column, value, r, from + 1, to);
    }
  }

  lemma {:induction false} PixelInBlock(img: Image, row: nat, column: nat, value: int, from: nat, to: nat, r: nat,
      rows: nat)
    requires IsPixel(img, row, column, value)
    ensures BlockSum(img, from, to, r, rows) == (if r <= row < r + rows && from <= column < to then value else 0)
    decreases rows
  {
    if rows > 0 {
      PixelInRow(img, row, column, value, r, from, to);
      PixelInBlock(img, row, column, value, from, to, r + 1, rows - 1);
    }
  }

  /** A pixel counts exactly for the windows it lies in. */
  lemma PixelCountsInside(img: Image, row: nat, column: nat, value: int, x: nat, w: Window)
    requires IsPixel(img, row, column, value)
    ensures
      WindowSum(img, x, w)
      == (if w.v <= row < w.v + w.vSize && x + w.h <= column < x + w.h + w.hSize then value else 0)
  {
    PixelInBlock(img, row, column, value, x + w.h, x + w.h + w.hSize, w.v, w.vSize);
  }

  // ----- Nothing is lost and nothing counted twice -----

  /**
   * A sub-window goes to the left ISP if it ends there, else to the right one if it begins there, else to both.
   * Both parts of a cut lie inside their ISPs, and the enabled ones tile the sub-window.
   */
  lemma CutTiles(g: Geometry, w: Window)
    requires IsGeometry(g) && InPicture(g, w)
    ensures
      CutSub(g, w).mode
      == if w.h + w.hSize <= g.width / 2 + g.extended then Left
         else if w.h >= g.width / 2 - g.extended then Right
         else LeftAndRight
    ensures
      var c := CutSub(g, w);
      && c.left.h + c.left.hSize <= g.IspWidth() && c.right.h + c.right.hSize <= g.IspWidth()
      && c.left.v == w.v && c.left.vSize == w.vSize && c.right.v == w.v && c.right.vSize == w.vSize
      && match c.mode
         case Left => c.left == w && c.right == w.(h := 0)
         case Right => g.RightX() + c.right.h == w.h && c.right.hSize == w.hSize && c.left == w.(h := 0)
         case LeftAndRight =>
           && c.left.h == w.h
           && g.RightX() + c.right.h == w.h + c.left.hSize
           && c.left.h + c.left.hSize == g.width / 2 + g.extended
           && c.left.hSize + c.right.hSize == w.hSize
  {
    Widths(g);
  }

  /**
   * For every image and every enabled sub-window inside the picture, what merging adds up from the enabled
   * sides is the sum over the original sub-window, as a 32-bit word.
   */
  lemma SubWindowSumSurvives(g: Geometry, img: Image, w: Window)
    requires IsGeometry(g) && InPicture(g, w)
    ensures
      var c := CutSub(g, w);
      Merged(LeftEnabled(c.mode), RightEnabled(c.mode), Measured(img, 0, c.left), Measured(img, g.RightX(), c.right))
      == Measured(img, 0, w)
  {
    var c := CutSub(g, w);
    CutTiles(g, w);
    Widths(g);
    hide g.IspWidth, g.RightX, CutSub, BlockSum;
    if c.mode == LeftAndRight {
      BlockSumSplits(img, w.h, w.h + c.left.hSize, w.h + w.hSize, w.v, w.vSize);
      WordsAdd(WindowSum(img, 0, c.left), WindowSum(img, g.RightX(), c.right));
    }
  }
}

/**
 * Cutting an exposure measurement window between two overlapping ISPs, and deciding afterwards, in another
 * file, how it had been cut.
 */
module AecWindows {
  import opened Words

  datatype Mode = Left | Right | LeftAndRight

  /** A measurement window: horizontal offset and size, vertical offset and size. */
  datatype Window = Window(h: uint16, hSize: uint16, v: uint16, vSize: uint16)

  /** A picture of this width, cut in two halves that are both extended over the middle. */
  datatype Geometry = Geometry(width: nat, extended: nat) {

    /** The width of the left ISP and of the right one. */
    function IspWidth(): nat {
      width / 2 + extended
    }

    /** Where the right ISP begins. */
    function RightX(): int {
      width / 2 - extended
    }
  }

  predicate IsGeometry(g: Geometry) {
    g.width % 2 == 0 && g.width < TWO_TO_16 && g.extended <= g.width / 2
  }

  predicate InPicture(g: Geometry, w: Window) {
    w.h + w.hSize <= g.width
  }

  function Abs(x: int): nat {
    if x < 0 then -x else x
  }

  /** The middle of a window. */
  function Center(w: Window): nat {
    w.h + w.hSize / 2
  }

  // ----- The decision of the merging side -----

  method JudgeWinLocation(g: Geometry, w: Window) returns (mode: Mode)
    ensures mode == Location(g, w)
    ensures IsGeometry(g) && InPicture(g, w) ==> IsJudged(g, w, mode)
  {
    hide IsJudged;
    if w.h + w.hSize <= g.IspWidth() {
      mode := Left;
    } else if w.h >= g.RightX() {
      mode := Right;
    } else if Center(w) <= g.IspWidth() && g.RightX() <= Center(w) {
      mode := LeftAndRight;
    } else if Center(w) < g.RightX() {
      var alone := ToU16(g.IspWidth() - w.h);
      var both := ToU16((g.RightX() - w.h) * 2);
      mode := if Abs(w.hSize - alone) < Abs(w.hSize - both) then Left else LeftAndRight;
    } else {
      var alone := ToU16(w.h + w.hSize - g.RightX());
      var both := ToU16((w.h + w.hSize - g.IspWidth()) * 2);
      mode := if Abs(w.hSize - alone) < Abs(w.hSize - both) then Right else LeftAndRight;
    }
    assert mode == Location(g, w);
    hide Location, g.IspWidth, g.RightX;
    if IsGeometry(g) && InPicture(g, w) {
      LocationIsJudged(g, w);
    }
  }

  /** How a window would have to be resized for one ISP alone, and for both halves evenly. */
  function LeftAlone(g: Geometry, w: Window): uint16 { ToU16(g.IspWidth() - w.h) }
  function LeftBoth(g: Geometry, w: Window): uint16 { ToU16((g.RightX() - w.h) * 2) }
  function RightAlone(g: Geometry, w: Window): uint16 { ToU16(w.h + w.hSize - g.RightX()) }
  function RightBoth(g: Geometry, w: Window): uint16 { ToU16((w.h + w.hSize - g.IspWidth()) * 2) }

  predicate Closer(w: Window, alone: uint16, both: uint16) {
    Abs(w.hSize - alone) < Abs(w.hSize - both)
  }

  /** Inside one ISP if it fits there; else both if the middle lies in the overlap; else what needs less resizing. */
  function Location(g: Geometry, w: Window): Mode {
    if w.h + w.hSize <= g.IspWidth() then Left
    else if w.h >= g.RightX() then Right
    else if g.RightX() <= Center(w) <= g.IspWidth() then LeftAndRight
    else if Center(w) < g.RightX() then
      if Closer(w, LeftAlone(g, w), LeftBoth(g, w)) then Left else LeftAndRight
    else
      if Closer(w, RightAlone(g, w), RightBoth(g, w)) then Right else LeftAndRight
  }

  // ----- The block-size loop -----

  /** The offset of the right window that continues a left one of this size from h, before it is made even. */
  function RightOffset(g: Geometry, h: uint16, size: nat): uint16 {
    var end := ToU16(size) + h;
    if end > g.RightX() then ToU16(end - g.RightX()) else 0
  }

  /** A right window of this size ends inside the right ISP. */
  predicate FitsSize(g: Geometry, h: uint16, size: nat) {
    ToU32(RightOffset(g, h, size) + size) <= ToU32(g.IspWidth() - 1)
  }

  predicate Fits(g: Geometry, n: nat, h: uint16, b: nat) {
    FitsSize(g, h, b * n)
  }

  /** The offset and the test as the search computes them, with the size kept in the left window. */
  lemma FitsAsComputed(g: Geometry, n: nat, h: uint16, b: nat)
    ensures
      var size := ToU16(b * n);
      && RightOffset(g, h, b * n) == (if size + h > g.RightX() then ToU16(size + h - g.RightX()) else 0)
      && (Fits(g, n, h, b) <==> ToU32(RightOffset(g, h, b * n) + b * n) <= ToU32(g.IspWidth() - 1))
  {
  }

  function Even(x: uint16): uint16 {
    x - x % 2
  }

  method SplitAecCalcBlockSize(g: Geometry, n: nat, left0: Window, right0: Window, start: uint16)
    returns (left: Window, right: Window, b: uint16)
    ensures left == left0.(hSize := left.hSize) && right == right0.(h := right.h, hSize := right.hSize)
    ensures b <= start
    ensures forall k :: b < k <= start ==> !Fits(g, n, left0.h, k)
    ensures b > 0 ==> Fits(g, n, left0.h, b)
    ensures b > 0 ==> left == left0.(hSize := ToU16(b * n))
    ensures b > 0 ==> right == right0.(h := Even(RightOffset(g, left0.h, b * n)), hSize := ToU16(b * n))
  {
    hide Fits, RightOffset, g.RightX, g.IspWidth;
    left, right, b := left0, right0, start;
    var searching := true;
    while searching && b > 0
      invariant b <= start
      invariant left == left0.(hSize := left.hSize)
      invariant right == right0.(h := right.h, hSize := right.hSize)
      invariant forall k :: b < k <= start ==> !Fits(g, n, left0.h, k)
      invariant !searching ==>
          && b > 0 && Fits(g, n, left0.h, b)
          && left.hSize == ToU16(b * n)
          && right == right0.(h := Even(RightOffset(g, left0.h, b * n)), hSize := ToU16(b * n))
      decreases searching, b
    {
      FitsAsComputed(g, n, left0.h, b);
      left := left.(hSize := ToU16(b * n));
      right := right.(h := if left.hSize + left.h > g.RightX() then ToU16(left.hSize + left.h - g.RightX()) else 0);
      if ToU32(right.h + b * n) > ToU32(g.IspWidth() - 1) {
        b := b - 1;
      } else {
        searching := false;
        right := right.(h := right.h - right.h % 2, hSize := ToU16(b * n));
      }
    }
  }

  // ----- Cutting -----

  predicate IsSettled(g: Geometry, w: Window) {
    w.h + w.hSize <= g.IspWidth() || w.h >= g.RightX() || g.RightX() <= Center(w) <= g.IspWidth()
  }

  /** The window that is measured in place of w: one that can be cut. */
  function Corrected(g: Geometry, w: Window): Window
    requires IsGeometry(g) && InPicture(g, w)
  {
    if IsSettled(g, w) then w
    else if Center(w) < g.RightX() then
      w.(hSize := if Location(g, w) == Left then LeftAlone(g, w) else LeftBoth(g, w))
    else if Location(g, w) == Right then w.(h := g.RightX(), hSize := RightAlone(g, w))
    else
      MirrorStaysInside(g, w);
      w.(h := w.h + w.hSize - (w.h + w.hSize - g.IspWidth()) * 2, hSize := RightBoth(g, w))
  }

  lemma MirrorStaysInside(g: Geometry, w: Window)
    requires IsGeometry(g) && InPicture(g, w) && w.h + w.hSize > g.IspWidth()
    ensures 0 <= w.h + w.hSize - (w.h + w.hSize - g.IspWidth()) * 2 < TWO_TO_16
  {
  }

  /** The two ISPs overlap, and together they are as wide as the picture when laid end to end from the left edge. */
  lemma Widths(g: Geometry)
    requires IsGeometry(g)
    ensures 0 <= g.RightX() <= g.IspWidth()
    ensures g.RightX() + g.IspWidth() == g.width < TWO_TO_16
  {
  }

  /** A window over the whole overlap with its middle to the left: nothing is truncated, and both halves need more. */
  lemma NearLeft(g: Geometry, w: Window)
    requires IsGeometry(g) && InPicture(g, w)
    requires !IsSettled(g, w) && Center(w) < g.RightX()
    ensures LeftAlone(g, w) == g.IspWidth() - w.h < w.hSize < LeftBoth(g, w) == 2 * (g.RightX() - w.h)
  {
    Widths(g);
    hide g.IspWidth, g.RightX;
  }

  lemma NearRight(g: Geometry, w: Window)
    requires IsGeometry(g) && InPicture(g, w)
    requires !IsSettled(g, w) && Center(w) >= g.RightX()
    ensures RightAlone(g, w) == w.h + w.hSize - g.RightX() < w.hSize
    ensures w.hSize < RightBoth(g, w) == 2 * (w.h + w.hSize - g.IspWidth())
  {
    Widths(g);
    hide g.IspWidth, g.RightX;
  }

  /** What the two halves of a cut are in each mode. */
  predicate IsCut(g: Geometry, w: Window, mode: Mode, left: Window, right: Window) {
    && left.v == w.v && left.vSize == w.vSize && right.v == w.v && right.vSize == w.vSize
    && match mode
       case Left => left.h == w.h && left.hSize == w.hSize && right.h == 0 && right.hSize == w.hSize
       case Right => left.h == 0 && left.hSize == w.hSize && right.h == w.h - g.RightX() && right.hSize == w.hSize
       case LeftAndRight => left.h == w.h
  }

  /** The block size of half the window. */
  function HalfBlocks(w: Window, n: nat): (b: uint16)
    requires n > 0
    ensures b * n <= w.hSize / 2
  {
    HalfBlocksFit(w.hSize, n);
    w.hSize / (2 * n)
  }

  lemma HalfBlocksFit(size: nat, n: nat)
    requires n > 0
    ensures 0 <= size / (2 * n) <= size
    ensures size / (2 * n) * n <= size / 2
  {
    var d := 2 * n;
    var b := size / d;
    Quotient(size, d);
    Doubled(b, n);
    Grows(b, n);
  }

  lemma Quotient(size: nat, d: nat)
    requires d > 0
    ensures 0 <= size / d * d <= size
  {
  }

  lemma Doubled(b: nat, n: nat)
    ensures b * (2 * n) == 2 * (b * n)
  {
  }

  lemma Grows(b: nat, n: nat)
    requires n > 0
    ensures b <= b * n
  {
    assert b * n == b + b * (n - 1);
  }

  /** Equal halves of n blocks each, of the largest size that fits the right ISP and is no more than half the window. */
  ghost predicate IsEvenCut(g: Geometry, n: nat, w: Window, left: Window, right: Window, b: nat)
    requires n > 0
  {
    && b <= HalfBlocks(w, n)
    && (forall k :: b < k <= HalfBlocks(w, n) ==> !Fits(g, n, w.h, k))
    && (b > 0 ==>
          && Fits(g, n, w.h, b)
          && left.h == w.h && left.hSize == ToU16(b * n) && right.hSize == ToU16(b * n)
          && right.h == Even(RightOffset(g, w.h, b * n)))
  }

  /** Cuts ori, which may be corrected first; b is the block size the loop ends with, 0 if it is not run. */
  method SplitAecWin(g: Geometry, n: nat, ori0: Window, left0: Window, right0: Window)
    returns (ori: Window, left: Window, right: Window, mode: Mode, b: nat)
    requires IsGeometry(g) && 0 < n < 256
    requires InPicture(g, ori0)
    ensures mode == Location(g, ori0) && ori == Corrected(g, ori0) && IsJudged(g, ori0, mode)
    ensures IsCut(g, ori, mode, left, right)
    ensures mode == LeftAndRight ==> IsEvenCut(g, n, ori, left, right, b)
  {
    Widths(g);
    LocationIsJudged(g, ori0);
    hide g.IspWidth, g.RightX, LeftAlone, LeftBoth, RightAlone, RightBoth, Closer, Fits, RightOffset, Even, HalfBlocks;
    hide IsJudged;
    ori := ori0;
    b := 0;
    var l, r := left0.(v := ori.v, vSize := ori.vSize), right0.(v := ori.v, vSize := ori.vSize);
    left, right := l, r;
    if ori.h + ori.hSize <= g.IspWidth() {
      mode := Left;
      left := ori;
      right := ori.(h := 0);
    } else if ori.h >= g.RightX() {
      mode := Right;
      left := ori.(h := 0);
      right := ori.(h := ori.h - g.RightX());
    } else {
      if Center(ori) <= g.IspWidth() && g.RightX() <= Center(ori) {
        mode := LeftAndRight;
      } else if Center(ori) < g.RightX() {
        var alone, both := LeftAlone(g, ori), LeftBoth(g, ori);
        if Closer(ori, alone, both) {
          mode := Left;
          ori := ori.(hSize := alone);
          left := ori;
          right := ori.(h := 0);
        } else {
          mode := LeftAndRight;
          ori := ori.(hSize := both);
        }
      } else {
        var alone, both := RightAlone(g, ori), RightBoth(g, ori);
        if Closer(ori, alone, both) {
          mode := Right;
          ori := ori.(hSize := alone, h := g.RightX());
          right := ori.(h := 0);
          left := ori.(h := 0);
        } else {
          MirrorStaysInside(g, ori);
          mode := LeftAndRight;
          ori := ori.(h := ori.h + ori.hSize - (ori.h + ori.hSize - g.IspWidth()) * 2, hSize := both);
        }
      }
      if mode == LeftAndRight {
        hide Fits, RightOffset, Corrected, Location;
        left, right, b := SplitAecCalcBlockSize(g, n, l.(h := ori.h), r, HalfBlocks(ori, n));
      }
    }
  }

  // ----- The two sides agree -----

  /**
   * Correcting a window does not change the decision, so both sides decide alike whichever window they see;
   * the corrected window can be cut as it is.
   */
  lemma BothSidesAgree(g: Geometry, w: Window)
    requires IsGeometry(g) && InPicture(g, w)
    ensures Location(g, Corrected(g, w)) == Location(g, w)
    ensures InPicture(g, Corrected(g, w)) && IsSettled(g, Corrected(g, w))
  {
    if !IsSettled(g, w) {
      Widths(g);
      if Center(w) < g.RightX() {
        NearLeft(g, w);
      } else {
        NearRight(g, w);
      }
      hide g.IspWidth, g.RightX, LeftAlone, LeftBoth, RightAlone, RightBoth, Closer;
    }
  }

  /** A window that was corrected to be cut in two has grown, and its middle is an edge of the overlap. */
  lemma CorrectedIsCentred(g: Geometry, w: Window)
    requires IsGeometry(g) && InPicture(g, w)
    requires Location(g, w) == LeftAndRight
    ensures g.RightX() <= Center(Corrected(g, w)) <= g.IspWidth()
    ensures Corrected(g, w) != w ==>
              && w.hSize < Corrected(g, w).hSize
              && Center(Corrected(g, w)) == if Center(w) < g.RightX() then g.RightX() else g.IspWidth()
  {
    if !IsSettled(g, w) {
      Widths(g);
      if Center(w) < g.RightX() {
        NearLeft(g, w);
      } else {
        NearRight(g, w);
      }
      hide g.IspWidth, g.RightX, LeftAlone, LeftBoth, RightAlone, RightBoth, Closer;
    }
  }

  /**
   * Of the two ways to make an unsettled window fit, the one that changes its size less is taken, both
   * halves on a tie.
   */
  lemma CorrectionIsNearest(g: Geometry, w: Window)
    requires IsGeometry(g) && InPicture(g, w) && !IsSettled(g, w)
    ensures
      var size := Corrected(g, w).hSize;
      var alone := if Center(w) < g.RightX() then g.IspWidth() - w.h else w.h + w.hSize - g.RightX();
      var both := if Center(w) < g.RightX() then 2 * (g.RightX() - w.h) else 2 * (w.h + w.hSize - g.IspWidth());
      && (size == alone || size == both)
      && Abs(w.hSize - size) <= Abs(w.hSize - alone) && Abs(w.hSize - size) <= Abs(w.hSize - both)
      && (Location(g, w) == LeftAndRight <==> Abs(w.hSize - both) <= Abs(w.hSize - alone))
  {
    Widths(g);
    if Center(w) < g.RightX() {
      NearLeft(g, w);
    } else {
      NearRight(g, w);
    }
    hide g.IspWidth, g.RightX, LeftAlone, LeftBoth, RightAlone, RightBoth;
  }

  // ----- The decision and the cut in numbers -----

  /**
   * The left ISP ends, and the right one begins, this many columns behind and before the middle of the picture.
   * A window that no ISP holds, and whose middle the overlap does not hold, is kept on its side if cutting it
   * there takes away less than spreading it over both would add.
   */
  predicate IsJudged(g: Geometry, w: Window, mode: Mode) {
    var leftEnd, rightStart := g.width / 2 + g.extended, g.width / 2 - g.extended;
    var end, middle := w.h + w.hSize, w.h + w.hSize / 2;
    match mode
    case Left =>
      end <= leftEnd
      || (w.h < rightStart && middle < rightStart && end - leftEnd < 2 * (rightStart - w.h) - w.hSize)
    case Right =>
      end > leftEnd
      && (w.h >= rightStart || (middle > leftEnd && rightStart - w.h < 2 * (end - leftEnd) - w.hSize))
    case LeftAndRight =>
      w.h < rightStart && leftEnd < end
      && (|| rightStart <= middle <= leftEnd
          || (middle < rightStart && end - leftEnd >= 2 * (rightStart - w.h) - w.hSize)
          || (middle > leftEnd && rightStart - w.h >= 2 * (end - leftEnd) - w.hSize))
  }

  lemma LocationIsJudged(g: Geometry, w: Window)
    requires IsGeometry(g) && InPicture(g, w)
    ensures IsJudged(g, w, Location(g, w))
    ensures forall mode: Mode :: IsJudged(g, w, mode) ==> mode == Location(g, w)
  {
    if !IsSettled(g, w) {
      Widths(g);
      if Center(w) < g.RightX() {
        NearLeft(g, w);
      } else {
        NearRight(g, w);
      }
    }
  }

  /** What a window is corrected to: cut at the end of its ISP, or mirrored at the edge next to its middle. */
  lemma CorrectedInNumbers(g: Geometry, w: Window)
    requires IsGeometry(g) && InPicture(g, w)
    ensures
      var leftEnd, rightStart := g.width / 2 + g.extended, g.width / 2 - g.extended;
      var end, middle := w.h + w.hSize, w.h + w.hSize / 2;
      var c := Corrected(g, w);
      && c.v == w.v && c.vSize == w.vSize
      && if end <= leftEnd || w.h >= rightStart || rightStart <= middle <= leftEnd then c == w
         else if middle < rightStart then
           c.h == w.h && c.h + c.hSize == if Location(g, w) == Left then leftEnd else 2 * rightStart - w.h
         else c.h + c.hSize == end && c.h == if Location(g, w) == Right then rightStart else 2 * leftEnd - end
  {
    if !IsSettled(g, w) {
      Widths(g);
      if Center(w) < g.RightX() {
        NearLeft(g, w);
      } else {
        NearRight(g, w);
      }
    }
  }

  /** The search starts with the largest number of columns of which two times n blocks are no wider than the window. */
  lemma HalfBlocksAreLargest(w: Window, n: nat, k: nat)
    requires n > 0
    ensures k <= HalfBlocks(w, n) <==> 2 * n * k <= w.hSize
  {
    var d := 2 * n;
    QuotientIsLargest(w.hSize, d, k);
  }

  lemma QuotientIsLargest(size: nat, d: nat, k: nat)
    requires d > 0
    ensures k <= size / d <==> d * k <= size
  {
    var b := size / d;
    assert size == d * b + size % d;
    if k <= b {
      Monotone(k, b, d);
    } else {
      Monotone(b + 1, k, d);
      assert (b + 1) * d == b * d + d;
    }
  }

  // ----- Both halves lie inside their ISPs -----

  /** A window that is cut in two: over the whole overlap, with its middle in it. */
  predicate IsCutInTwo(g: Geometry, w: Window) {
    && InPicture(g, w)
    && w.h < g.RightX() && g.IspWidth() < w.h + w.hSize
    && g.RightX() <= Center(w) <= g.IspWidth()
  }

  lemma CorrectedIsCutInTwo(g: Geometry, w: Window)
    requires IsGeometry(g) && InPicture(g, w) && Location(g, w) == LeftAndRight
    ensures IsCutInTwo(g, Corrected(g, w)) && w.hSize <= Corrected(g, w).hSize
  {
    Widths(g);
    BothSidesAgree(g, w);
    CorrectedIsCentred(g, w);
    hide g.IspWidth, g.RightX, LeftAlone, LeftBoth, RightAlone, RightBoth, Closer, Corrected;
  }

  /** Where n blocks of size b end in the right ISP, with nothing truncated. */
  function RightEnd(g: Geometry, w: Window, size: nat): int {
    (if w.h + size > g.RightX() then w.h + size - g.RightX() else 0) + size
  }

  /** Up to half the window, nothing is truncated. */
  lemma FitsExactly(g: Geometry, w: Window, size: nat)
    requires IsGeometry(g) && IsCutInTwo(g, w)
    requires size <= w.hSize / 2
    ensures w.h + size <= g.IspWidth()
    ensures RightOffset(g, w.h, size) == if w.h + size > g.RightX() then w.h + size - g.RightX() else 0
    ensures FitsSize(g, w.h, size) <==> RightEnd(g, w, size) < g.IspWidth()
  {
    Widths(g);
    hide g.IspWidth, g.RightX, ToU16, ToU32;
    SmallWord(size);
    SmallWord(g.IspWidth() - 1);
    if w.h + size > g.RightX() {
      SmallWord(w.h + size - g.RightX());
    }
    SmallWord(RightEnd(g, w, size));
  }

  lemma SizeIsAtMostHalf(w: Window, n: nat, b: nat)
    requires n > 0 && b <= HalfBlocks(w, n)
    ensures b * n <= w.hSize / 2
  {
    Monotone(b, HalfBlocks(w, n), n);
    hide HalfBlocks;
  }

  lemma Monotone(a: nat, b: nat, n: nat)
    requires a <= b
    ensures a * n <= b * n
  {
    assert b * n == a * n + (b - a) * n;
  }

  /** A size that does not fit misses by one column, and fits with n columns less. */
  lemma OneLessFits(g: Geometry, n: nat, w: Window, size: nat)
    requires IsGeometry(g) && IsCutInTwo(g, w)
    requires 0 < n < g.RightX() && 2 * n <= w.hSize
    requires n <= size <= w.hSize / 2
    requires !FitsSize(g, w.h, size)
    ensures size > n && FitsSize(g, w.h, size - n)
  {
    FitsExactly(g, w, size);
    FitsExactly(g, w, size - n);
    Widths(g);
    hide g.IspWidth, g.RightX, FitsSize, RightOffset;
  }

  lemma StartOrOneLessFits(g: Geometry, n: nat, w: Window)
    requires IsGeometry(g) && IsCutInTwo(g, w)
    requires 0 < n < g.RightX() && 2 * n <= w.hSize
    ensures
      var start := HalfBlocks(w, n);
      start > 0 && (Fits(g, n, w.h, start) || (start > 1 && Fits(g, n, w.h, start - 1)))
  {
    var start := HalfBlocks(w, n);
    AtLeastOne(w.hSize, n);
    assert start > 0;
    SizeIsAtMostHalf(w, n, start);
    hide HalfBlocks, FitsSize, IsCutInTwo;
    Monotone(1, start, n);
    var size := start * n;
    assert (start - 1) * n == size - n;
    assert start == 1 ==> size == n;
    if !FitsSize(g, w.h, size) {
      OneLessFits(g, n, w, size);
    }
  }

  lemma AtLeastOne(size: nat, n: nat)
    requires 0 < n && 2 * n <= size
    ensures size / (2 * n) >= 1
  {
  }

  lemma HalfIsInside(g: Geometry, w: Window, size: nat)
    requires IsGeometry(g) && IsCutInTwo(g, w)
    requires size <= w.hSize / 2 && FitsSize(g, w.h, size)
    ensures ToU16(size) == size
    ensures w.h + size <= g.IspWidth()
    ensures
      var offset := Even(RightOffset(g, w.h, size));
      && offset % 2 == 0 && offset + size <= g.IspWidth()
      && if w.h + size > g.RightX() then w.h + size - 1 <= g.RightX() + offset <= w.h + size else offset == 0
  {
    FitsExactly(g, w, size);
    Widths(g);
    hide g.IspWidth, g.RightX, FitsSize, RightOffset;
  }

  /**
   * For a window of at least two blocks per half, the loop ends with the size it starts with or one less;
   * the halves have equal sizes, the right one begins at an even offset, both lie inside their ISPs, and the
   * right half begins where the left one ends, or one column earlier, unless the left half ends before the overlap.
   */
  lemma HalvesAreInside(g: Geometry, n: nat, w: Window, left: Window, right: Window, b: nat)
    requires IsGeometry(g) && IsCutInTwo(g, w)
    requires 0 < n < g.RightX() && 2 * n <= w.hSize
    requires IsEvenCut(g, n, w, left, right, b)
    ensures b > 0 && (b == HalfBlocks(w, n) || b == HalfBlocks(w, n) - 1)
    ensures left.hSize == right.hSize == b * n && right.h % 2 == 0
    ensures left.h + left.hSize <= g.IspWidth() && right.h + right.hSize <= g.IspWidth()
    ensures
      var leftEnd := left.h + left.hSize;
      var rightStart := g.RightX() + right.h;
      if leftEnd > g.RightX() then leftEnd - 1 <= rightStart <= leftEnd else rightStart == g.RightX()
  {
    hide HalfBlocks, FitsSize, RightOffset, Even;
    StartOrOneLessFits(g, n, w);
    assert b > 0;
    SizeIsAtMostHalf(w, n, b);
    HalfIsInside(g, w, b * n);
  }

  /** Whatever the mode, both windows that SplitAecWin produces lie inside their ISPs. */
  lemma WindowsAreInside(g: Geometry, n: nat, w: Window, left: Window, right: Window, b: nat)
    requires IsGeometry(g) && InPicture(g, w)
    requires 0 < n < g.RightX() && 2 * n <= w.hSize
    requires IsCut(g, Corrected(g, w), Location(g, w), left, right)
    requires Location(g, w) == LeftAndRight ==> IsEvenCut(g, n, Corrected(g, w), left, right, b)
    ensures left.h + left.hSize <= g.IspWidth()
    ensures right.h + right.hSize <= g.IspWidth()
  {
    if Location(g, w) == LeftAndRight {
      CorrectedIsCutInTwo(g, w);
      HalvesAreInside(g, n, Corrected(g, w), left, right, b);
    } else {
      BothSidesAgree(g, w);
      Widths(g);
      hide g.IspWidth, g.RightX, Corrected, Closer;
    }
  }
}

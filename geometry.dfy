/** The arithmetic of mt9v032_set_crop and mt9v032_set_format: alignment of the
    crop rectangle to the GRBG Bayer phase, clamping to the pixel array, and the
    binning ratio that relates an output size to the crop. */
module Geometry {
  import opened Types
  import opened Registers

  function Min(a: int, b: int): int { if a < b then a else b }
  function Max(a: int, b: int): int { if a < b then b else a }

  /** The kernel's clamp(val, lo, hi). */
  function Clamp(v: int, lo: int, hi: int): (r: int)
    requires lo <= hi
    ensures lo <= r <= hi
    ensures lo <= v <= hi ==> r == v
  {
    if v < lo then lo else if v > hi then hi else v
  }

  /** `x & ~1` on a two's-complement value: the largest even number not above x. */
  function ClearLowBit(x: int): (r: int)
    ensures r % 2 == 0 && r <= x < r + 2
  {
    x - x % 2
  }

  /** ALIGN(x + 1, 2) - 1 on an s32, with the wrap-around of 32-bit arithmetic:
      rounds x up to an odd number, except that the two largest values wrap. */
  function AlignOdd(x: s32): (r: s32)
    ensures r % 2 == 1
    ensures x < S32_MAX - 1 ==> x <= r <= x + 1
    ensures x >= S32_MAX - 1 ==> r == S32_MAX
  {
    Wrap32(ClearLowBit(Wrap32(Wrap32(x + 1) + 1)) - 1)
  }

  /** ALIGN(x, 2) on an s32: rounds up to even; S32_MAX wraps to S32_MIN. */
  function AlignEven(x: s32): (r: s32)
    ensures r % 2 == 0
    ensures x < S32_MAX ==> x <= r <= x + 1
    ensures x == S32_MAX ==> r == S32_MIN
  {
    ClearLowBit(Wrap32(x + 1))
  }

  /** ALIGN(x, 2) on a u32: rounds up to even; U32_MAX wraps to 0. */
  function AlignEvenU(x: u32): (r: u32)
    ensures r % 2 == 0
    ensures x < U32_MAX ==> x <= r <= x + 1
    ensures x == U32_MAX ==> r == 0
  {
    ClearLowBit(WrapU32(x + 1))
  }

  /** x rounded up to the next odd number (x itself when odd). */
  function RoundUpOdd(x: int): int { x + (x + 1) % 2 }

  /** x rounded up to the next even number (x itself when even). */
  function RoundUpEven(x: int): int { x + x % 2 }

  /** The bounds that every rectangle set_crop installs satisfies. */
  predicate CropInBounds(c: Rect) {
    && COLUMN_START_MIN <= c.left <= COLUMN_START_MAX
    && ROW_START_MIN <= c.top <= ROW_START_MAX
    && WINDOW_WIDTH_MIN <= c.width <= WINDOW_WIDTH_MAX
    && WINDOW_HEIGHT_MIN <= c.height <= WINDOW_HEIGHT_MAX
    && c.left + c.width <= PIXEL_ARRAY_WIDTH
    && c.top + c.height <= PIXEL_ARRAY_HEIGHT
  }

  /** What set_format and set_crop keep between an output format and its crop:
      the output is never empty and never larger than the crop. */
  predicate FormatFits(f: Format, c: Rect) {
    1 <= f.width <= c.width && 1 <= f.height <= c.height
  }

  /** The left edge set_crop derives: ALIGN to odd, then clamp to [1, 752]. */
  function CropLeft(x: s32): (left: int)
    ensures COLUMN_START_MIN <= left <= COLUMN_START_MAX
    ensures x <= 751 ==> left % 2 == 1 && left == Max(COLUMN_START_MIN, RoundUpOdd(x))
    ensures x >= 752 ==> left == COLUMN_START_MAX
  {
    Clamp(AlignOdd(x), COLUMN_START_MIN, COLUMN_START_MAX)
  }

  /** The top edge set_crop derives: ALIGN to odd, then clamp to [4, 482]. */
  function CropTop(x: s32): (top: int)
    ensures ROW_START_MIN <= top <= ROW_START_MAX
    ensures ROW_START_MIN <= x <= 481 ==> top % 2 == 1 && top == RoundUpOdd(x)
    ensures x < ROW_START_MIN ==> top == ROW_START_MIN
    ensures x >= 482 ==> top == ROW_START_MAX
  {
    Clamp(AlignOdd(x), ROW_START_MIN, ROW_START_MAX)
  }

  /** One extent as set_crop derives it: ALIGN to even, clamp to [1, max], then
      cut at the edge of the pixel array, which lies `room` pixels away. */
  function CropExtent(x: s32, max: int, room: int): (e: int)
    requires 2 <= max && max % 2 == 0 && 2 <= room
    ensures 1 <= e <= max && e <= room
    ensures e == 1 || e == room || e % 2 == 0
    ensures e == 1 <==> x <= 0 || x == S32_MAX
    ensures 0 < x < S32_MAX ==> e == Min(Min(RoundUpEven(x), max), room)
  {
    Min(Clamp(AlignEven(x), 1, max), room)
  }

  /** The rectangle mt9v032_set_crop derives from a requested one. */
  function ClampCrop(req: Rect): (r: Rect)
    // closure: always inside the pixel array
    ensures CropInBounds(r)
    // the origin
    ensures req.left <= 751 ==> r.left % 2 == 1 && r.left == Max(COLUMN_START_MIN, RoundUpOdd(req.left))
    ensures req.left >= 752 ==> r.left == COLUMN_START_MAX
    ensures ROW_START_MIN <= req.top <= 481 ==> r.top % 2 == 1 && r.top == RoundUpOdd(req.top)
    ensures req.top < ROW_START_MIN ==> r.top == ROW_START_MIN
    ensures req.top >= 482 ==> r.top == ROW_START_MAX
    // the extent: even, unless clamped up to 1 or cut at the array edge
    ensures r.width == 1 || r.width == PIXEL_ARRAY_WIDTH - r.left || r.width % 2 == 0
    ensures r.height == 1 || r.height == PIXEL_ARRAY_HEIGHT - r.top || r.height % 2 == 0
    ensures r.width == 1 <==> req.width <= 0 || req.width == S32_MAX
    ensures r.height == 1 <==> req.height <= 0 || req.height == S32_MAX
    ensures 0 < req.width < S32_MAX ==>
      r.width == Min(Min(RoundUpEven(req.width), WINDOW_WIDTH_MAX), PIXEL_ARRAY_WIDTH - r.left)
    ensures 0 < req.height < S32_MAX ==>
      r.height == Min(Min(RoundUpEven(req.height), WINDOW_HEIGHT_MAX), PIXEL_ARRAY_HEIGHT - r.top)
  {
    var left := CropLeft(req.left);
    var top := CropTop(req.top);
    Rect(left, top,
         CropExtent(req.width, WINDOW_WIDTH_MAX, PIXEL_ARRAY_WIDTH - left),
         CropExtent(req.height, WINDOW_HEIGHT_MAX, PIXEL_ARRAY_HEIGHT - top))
  }

  /** Applying set_crop to its own result changes nothing, except where the
      result's top is the even bound 4 or an extent was clamped up to 1 (a
      requested extent that is not positive, or S32_MAX). */
  lemma ClampCropIdempotent(req: Rect)
    requires req.top >= ROW_START_MIN
    requires 0 < req.width < S32_MAX && 0 < req.height < S32_MAX
    ensures ClampCrop(ClampCrop(req)) == ClampCrop(req)
  {
    var r := ClampCrop(req);
    assert ROW_START_MIN < r.top by {
      if req.top <= 481 { assert r.top == RoundUpOdd(req.top); }
    }
    ClampCropFixed(r);
  }

  /** The rectangles set_crop leaves unchanged: those it could have produced
      from a request with positive extents (this lemma and ClampCropFixedOnly
      together state both directions). */
  lemma ClampCropFixed(r: Rect)
    requires CropInBounds(r) && ROW_START_MIN < r.top
    requires r.left % 2 == 1 || r.left == COLUMN_START_MAX
    requires r.top % 2 == 1 || r.top == ROW_START_MAX
    requires 2 <= r.width && (r.width % 2 == 0 || r.width == PIXEL_ARRAY_WIDTH - r.left)
    requires 2 <= r.height && (r.height % 2 == 0 || r.height == PIXEL_ARRAY_HEIGHT - r.top)
    ensures ClampCrop(r) == r
  {
    CropLeftFixed(r.left);
    CropTopFixed(r.top);
    CropExtentFixed(r.width, WINDOW_WIDTH_MAX, PIXEL_ARRAY_WIDTH - r.left);
    CropExtentFixed(r.height, WINDOW_HEIGHT_MAX, PIXEL_ARRAY_HEIGHT - r.top);
  }

  /** Every rectangle set_crop leaves unchanged is one of those. */
  lemma ClampCropFixedOnly(r: Rect)
    requires ClampCrop(r) == r
    ensures CropInBounds(r) && ROW_START_MIN < r.top
    ensures r.left % 2 == 1 || r.left == COLUMN_START_MAX
    ensures r.top % 2 == 1 || r.top == ROW_START_MAX
    ensures 2 <= r.width && (r.width % 2 == 0 || r.width == PIXEL_ARRAY_WIDTH - r.left)
    ensures 2 <= r.height && (r.height % 2 == 0 || r.height == PIXEL_ARRAY_HEIGHT - r.top)
  {
    var c := ClampCrop(r);
    assert CropInBounds(c);
    if r.top == ROW_START_MIN {
      assert false;
    }
    assert c.width != 1 && c.height != 1;
  }

  lemma CropLeftFixed(v: s32)
    requires COLUMN_START_MIN <= v <= COLUMN_START_MAX
    requires v % 2 == 1 || v == COLUMN_START_MAX
    ensures CropLeft(v) == v
  {
  }

  lemma CropTopFixed(v: s32)
    requires ROW_START_MIN < v <= ROW_START_MAX
    requires v % 2 == 1 || v == ROW_START_MAX
    ensures CropTop(v) == v
  {
  }

  lemma CropExtentFixed(e: s32, max: int, room: int)
    requires 2 <= max < S32_MAX && max % 2 == 0 && 2 <= room
    requires 2 <= e <= max && e <= room
    requires e % 2 == 0 || e == room
    ensures CropExtent(e, max, room) == e
  {
    assert CropExtent(e, max, room) == Min(Min(RoundUpEven(e), max), room);
    if e % 2 == 0 {
      assert RoundUpEven(e) == e;
    } else {
      assert RoundUpEven(e) == e + 1 <= max;
    }
  }

  /** Re-cropping a rectangle whose top is 4 moves the top to 5. */
  lemma ClampCropNotIdempotentAtTopBound()
    ensures ClampCrop(Rect(1, 0, 752, 480)) == Rect(1, 4, 752, 480)
    ensures ClampCrop(Rect(1, 4, 752, 480)) == Rect(1, 5, 752, 480)
  {
    assert CropLeft(1) == 1;
    assert CropTop(0) == 4 && CropTop(4) == 5;
    assert CropExtent(752, WINDOW_WIDTH_MAX, PIXEL_ARRAY_WIDTH - 1) == 752;
    assert CropExtent(480, WINDOW_HEIGHT_MAX, PIXEL_ARRAY_HEIGHT - 4) == 480;
    assert CropExtent(480, WINDOW_HEIGHT_MAX, PIXEL_ARRAY_HEIGHT - 5) == 480;
  }

  /** An even left request is rounded up: {2, 4, 751, 479} becomes {3, 5, 752, 480}. */
  lemma ClampCropRoundsUp()
    ensures ClampCrop(Rect(2, 4, 751, 479)) == Rect(3, 5, 752, 480)
  {
  }

  /** A left edge of 751 leaves an odd width of 31 to the array edge. */
  lemma ClampCropOddCut()
    ensures ClampCrop(Rect(751, 5, 752, 480)).width == 31
  {
  }

  /** DIV_ROUND_CLOSEST(x, d) for a non-negative dividend and positive divisor:
      x / d rounded to the nearest integer, halves rounded up. */
  function DivRoundClosest(x: nat, d: nat): (q: nat)
    requires d > 0
    ensures q * d <= x + d / 2 < q * d + d
  {
    (x + d / 2) / d
  }

  /** The requested size after ALIGN and clamp_t in set_format, for a crop
      dimension c: the value that the binning ratio is computed from. */
  function BinningTarget(req: u32, c: int, sizeMin: int): (w: int)
    requires 1 <= sizeMin <= c
    ensures Max(c / 8, sizeMin) <= w <= c
    ensures Max(c / 8, sizeMin) <= AlignEvenU(req) <= c ==> w == AlignEvenU(req)
    ensures c <= req < U32_MAX ==> w == c
  {
    Clamp(AlignEvenU(req), Max(c / 8, sizeMin), c)
  }

  /** The binning ratio DIV_ROUND_CLOSEST(c, w); never zero and never above c. */
  function BinningRatio(c: int, w: int): (k: int)
    requires 1 <= w <= c
    ensures 1 <= k <= c
    ensures w == c ==> k == 1
  {
    RatioBounds(c, w);
    DivRoundClosest(c, w)
  }

  lemma RatioBounds(c: int, w: int)
    requires 1 <= w <= c
    ensures 1 <= (c + w / 2) / w <= c
    ensures w == c ==> (c + w / 2) / w == 1
  {
    var a := c + w / 2;
    QuotientAtLeastOne(a, w);
    if w == 1 {
      assert a == c;
    } else {
      QuotientAtMostHalf(a, w);
      assert a / 2 <= c;
    }
    if w == c {
      QuotientIsOne(a, w);
    }
  }

  lemma QuotientAtLeastOne(a: int, w: int)
    requires 1 <= w <= a
    ensures a / w >= 1
  {
  }

  lemma QuotientAtMostHalf(a: int, w: int)
    requires 2 <= w && 0 <= a
    ensures a / w <= a / 2
  {
    var q := a / w;
    assert q * w <= a;
    assert q >= 0;
    assert q * 2 <= q * w;
  }

  lemma QuotientIsOne(a: int, w: int)
    requires 1 <= w <= a < w + w
    ensures a / w == 1
  {
    var q := a / w;
    assert q * w <= a < q * w + w;
    ProductBounds(q, w);
  }

  lemma ProductBounds(q: int, w: int)
    requires w >= 0
    ensures q >= 2 ==> q * w >= 2 * w
    ensures q <= 0 ==> q * w <= 0
  {
  }

  /** The size set_format stores for one dimension: the crop dimension divided
      by the binning ratio. */
  function BinnedSize(req: u32, c: int, sizeMin: int): (r: int)
    requires 1 <= sizeMin <= c
    ensures 1 <= r <= c
    ensures var k := BinningRatio(c, BinningTarget(req, c, sizeMin)); r * k <= c < r * k + k
    ensures c <= req < U32_MAX ==> r == c
    ensures req == U32_MAX ==> r == c / BinningRatio(c, Max(c / 8, sizeMin))
  {
    var w := BinningTarget(req, c, sizeMin);
    var k := BinningRatio(c, w);
    QuotientBounds(c, k);
    DivideByOne(c, k);
    c / k
  }

  lemma DivideByOne(c: int, k: int)
    ensures k == 1 ==> c / k == c
  {
  }

  lemma QuotientBounds(c: int, k: int)
    requires 1 <= k <= c
    ensures 1 <= c / k <= c
    ensures (c / k) * k <= c < (c / k) * k + k
  {
    QuotientAtLeastOne(c, k);
  }

  /** The binning ratio is not bounded by 8: a 14-pixel crop with a requested
      size of 0 has ratio 14 and output size 1. */
  lemma RatioNotBoundedByEight()
    ensures BinningTarget(0, 14, WINDOW_WIDTH_MIN) == 1
    ensures BinningRatio(14, 1) == 14 && BinnedSize(0, 14, WINDOW_WIDTH_MIN) == 1
  {
    assert BinningTarget(0, 14, WINDOW_WIDTH_MIN) == 1;
  }

  /** The stored size need not divide the crop: 752 with a request of 250 gives 250. */
  lemma BinnedSizeNeedNotDivide()
    ensures BinnedSize(250, 752, WINDOW_WIDTH_MIN) == 250 && 752 % 250 != 0
  {
    assert AlignEvenU(250) == 250;
    assert BinningTarget(250, 752, WINDOW_WIDTH_MIN) == 250;
    assert DivRoundClosest(752, 250) == 3;
  }

  /** The output need not be at least an eighth of its crop: a crop with top
      475 and height 480 is cut to height 17, and a requested height of 2 on
      it then has ratio 9 and stores 1, below 17 / 8 = 2. */
  lemma FormatBelowEighthOfCrop()
    ensures ClampCrop(Rect(1, 475, 752, 480)).height == 17
    ensures BinnedSize(2, 17, WINDOW_HEIGHT_MIN) < Eighth(17)
  {
    LowCropTop();
    LowCropHeight();
    SmallCropBinning();
    EighthOf17();
  }

  /** An eighth of a crop dimension, the lower bound set_format clamps to. */
  function Eighth(c: int): int { c / 8 }

  lemma EighthOf17()
    ensures Eighth(17) == 2
  {
  }

  lemma LowCropTop()
    ensures CropTop(475) == 475
  {
  }

  lemma LowCropHeight()
    ensures CropExtent(480, WINDOW_HEIGHT_MAX, PIXEL_ARRAY_HEIGHT - 475) == 17
  {
  }

  /** A requested height of 2 on a crop of 17 has ratio 9 and stores 1. */
  lemma SmallCropBinning()
    ensures BinnedSize(2, 17, WINDOW_HEIGHT_MIN) == 1
  {
    assert AlignEvenU(2) == 2;
    assert BinningTarget(2, 17, WINDOW_HEIGHT_MIN) == 2;
    assert DivRoundClosest(17, 2) == 9;
  }

  /** The largest u32 request wraps in ALIGN to 0 and yields the smallest size. */
  lemma BinnedSizeMaxRequest()
    ensures BinnedSize(U32_MAX, 752, WINDOW_WIDTH_MIN) == 94
  {
    assert BinningTarget(U32_MAX, 752, WINDOW_WIDTH_MIN) == 94;
    assert DivRoundClosest(752, 94) == 8;
  }

  /** HORIZONTAL_BLANKING as s_stream programs it: max(43, 660 - width). */
  function HorizontalBlanking(width: int): (hb: int)
    ensures hb >= HORIZONTAL_BLANKING_MIN && width + hb >= 660
    ensures hb == HORIZONTAL_BLANKING_MIN || width + hb == 660
  {
    Max(HORIZONTAL_BLANKING_MIN, 660 - width)
  }
}

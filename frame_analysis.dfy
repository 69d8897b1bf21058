/**
 * The per-frame quality analysis of the document scanner: one strided pass over an RGBA
 * frame accumulating luminance, horizontal gradient, margin-strip activity and centre text
 * density, and the lighting class, clarity score, edge flags, warnings and document
 * detection derived from those sums. Luminance and averages are exact reals.
 */
module FrameAnalysis {

  /** Perceived luminance of one pixel, with the BT.601 weights. */
  function Luma(r: int, g: int, b: int): real {
    0.299 * r as real + 0.587 * g as real + 0.114 * b as real
  }

  /** Luminance of bytes is itself within the byte range. */
  lemma LumaRange(r: int, g: int, b: int)
    requires 0 <= r <= 255 && 0 <= g <= 255 && 0 <= b <= 255
    ensures 0.0 <= Luma(r, g, b) <= 255.0
  {
  }

  function Abs(v: int): (r: nat)
    ensures r == v || r == -v
  {
    if v < 0 then -v else v
  }

  /** The sampling stride of the analysis pass: every second pixel of every second row. */
  const Stride: nat := 2

  /** The accumulators of the analysis pass. */
  datatype Stats = Stats(luminance: real, pixelCount: nat, gradient: int, textDensity: nat,
                         top: int, bottom: int, left: int, right: int)

  const NoStats := Stats(0.0, 0, 0, 0, 0, 0, 0, 0)

  function Add(a: Stats, b: Stats): Stats {
    Stats(a.luminance + b.luminance, a.pixelCount + b.pixelCount, a.gradient + b.gradient,
          a.textDensity + b.textDensity, a.top + b.top, a.bottom + b.bottom,
          a.left + b.left, a.right + b.right)
  }

  /** `c` is the field-wise sum of `a` and `b`. */
  lemma AddFields(a: Stats, b: Stats, c: Stats)
    requires c.luminance == a.luminance + b.luminance && c.pixelCount == a.pixelCount + b.pixelCount
    requires c.gradient == a.gradient + b.gradient && c.textDensity == a.textDensity + b.textDensity
    requires c.top == a.top + b.top && c.bottom == a.bottom + b.bottom
    requires c.left == a.left + b.left && c.right == a.right + b.right
    ensures c == Add(a, b)
  {
  }

  /** `Math.floor(width * 0.15)` and `Math.floor(height * 0.15)`. */
  function Margin(n: nat): nat { (n * 15) / 100 }

  /** An RGBA frame of `w` by `h` pixels. */
  predicate IsFrame(d: seq<int>, w: nat, h: nat) { |d| == w * h * 4 }

  lemma OneMore(r: nat, c: nat)
    ensures (1 + r) * c == c + r * c
  {
  }

  lemma MulMono(a: nat, b: nat, c: nat)
    requires a <= b
    ensures a * c <= b * c
  {
    var k := b - a;
    assert b * c == a * c + k * c;
  }

  /**
   * `len` bytes hold rows `y`, `y + 2`, ... below `h` of `w` RGBA pixels each, reading each
   * row from its start and skipping the odd row after it.
   */
  predicate RowsFit(len: int, w: nat, y: nat, h: nat)
    decreases h - y
  {
    y >= h || (len >= w * 4 && RowsFit(len - w * 8, w, y + Stride, h))
  }

  /** A whole frame holds its rows. */
  lemma {:induction false} FrameRowsFit(w: nat, h: nat, y: nat)
    requires y <= h
    ensures RowsFit((h - y) * w * 4, w, y, h)
    decreases h - y
  {
    if y < h {
      MulMono(1, h - y, w * 4);
      if y + Stride <= h {
        FrameRowsFit(w, h, y + Stride);
        assert (h - y) * w * 4 - w * 8 == (h - (y + Stride)) * w * 4;
      }
    }
  }

  /**
   * The contribution of the sample at column `x` of row `y`, whose bytes start at `base`:
   * its luminance, and the gradient to the sample on its right.
   */
  function Sample(d: seq<int>, w: nat, h: nat, y: nat, base: nat, x: nat): (r: Stats)
    requires base + w * 4 <= |d| && x < w
    ensures r.pixelCount == 1 && r.gradient >= 0 && r.textDensity <= 1
    ensures r.top >= 0 && r.bottom >= 0 && r.left >= 0 && r.right >= 0
  {
    var i := base + x * 4;
    var luma := Luma(d[i], d[i + 1], d[i + 2]);
    if x < w - Stride then
      var nextI := base + (x + Stride) * 4;
      var contrast := Abs(d[i] - d[nextI]) + Abs(d[i + 1] - d[nextI + 1]) + Abs(d[i + 2] - d[nextI + 2]);
      var marginX, marginY := Margin(w), Margin(h);
      var inCentre := y > marginY && y < h - marginY && x > marginX && x < w - marginX;
      Stats(luma, 1, contrast, if inCentre && contrast > 20 then 1 else 0,
            if y < marginY then contrast else 0,
            if y > h - marginY then contrast else 0,
            if x < marginX then contrast else 0,
            if x > w - marginX then contrast else 0)
    else
      Stats(luma, 1, 0, 0, 0, 0, 0, 0)
  }

  /** `acc` plus the samples of row `y` (bytes from `base`) from column `x` on. */
  function RowFrom(d: seq<int>, w: nat, h: nat, y: nat, base: nat, x: nat, acc: Stats): Stats
    requires base + w * 4 <= |d|
    decreases w - x
  {
    if x >= w then acc else RowFrom(d, w, h, y, base, x + Stride, Add(acc, Sample(d, w, h, y, base, x)))
  }

  /** Where the row after next starts (capped at the end of the frame). */
  function NextRow(len: nat, w: nat, base: nat): (r: nat)
    requires base <= len
    ensures base <= r <= len
  {
    if base + w * 8 <= len then base + w * 8 else len
  }

  lemma NextRowFits(len: nat, w: nat, h: nat, y: nat, base: nat)
    requires base <= len && RowsFit(len - base, w, y, h) && y < h
    ensures base + w * 4 <= len
    ensures RowsFit(len - NextRow(len, w, base), w, y + Stride, h)
  {
  }

  /** `acc` plus the samples of rows `y`, `y + 2`, ..., the first of them starting at byte `base`. */
  function GridFrom(d: seq<int>, w: nat, h: nat, y: nat, base: nat, acc: Stats): Stats
    requires base <= |d| && RowsFit(|d| - base, w, y, h)
    decreases h - y
  {
    if y >= h then acc
    else
      NextRowFits(|d|, w, h, y, base);
      GridFrom(d, w, h, y + Stride, NextRow(|d|, w, base), RowFrom(d, w, h, y, base, 0, acc))
  }

  /** A whole frame holds its rows from the top. */
  lemma FrameFits(d: seq<int>, w: nat, h: nat)
    requires IsFrame(d, w, h)
    ensures RowsFit(|d|, w, 0, h)
  {
    FrameRowsFit(w, h, 0);
    assert w * h * 4 == (h - 0) * w * 4;
  }

  /** The whole analysis pass over the frame. */
  function FrameStats(d: seq<int>, w: nat, h: nat): Stats
    requires IsFrame(d, w, h)
  {
    FrameFits(d, w, h);
    GridFrom(d, w, h, 0, 0, NoStats)
  }

  /**
   * The body of the pass for the sample at column `x` of row `y` (bytes from `rowBase`):
   * add its luminance, and its gradient to the right-hand sample to the totals, the
   * centre density count and the margin strips it lies in.
   */
  method AccumulateSample(data: array<int>, w: nat, h: nat, y: nat, rowBase: nat, x: nat, acc: Stats)
    returns (s: Stats)
    requires rowBase + w * 4 <= data.Length && x < w
    ensures s == Add(acc, Sample(data[..], w, h, y, rowBase, x))
  {
    ghost var sample := Sample(data[..], w, h, y, rowBase, x);
    var marginX, marginY := Margin(w), Margin(h);
    var totalLuminance, pixelCount, totalGradient, textDensityCount := acc.luminance, acc.pixelCount, acc.gradient, acc.textDensity;
    var top, bottom, left, right := acc.top, acc.bottom, acc.left, acc.right;
    var i := rowBase + x * 4;
    var luma := Luma(data[i], data[i + 1], data[i + 2]);
    assert luma == sample.luminance;
    totalLuminance := totalLuminance + luma;
    pixelCount := pixelCount + 1;
    if x < w - Stride {
      var nextI := rowBase + (x + Stride) * 4;
      var contrast := Abs(data[i] - data[nextI]) + Abs(data[i + 1] - data[nextI + 1]) + Abs(data[i + 2] - data[nextI + 2]);
      assert contrast == sample.gradient;
      totalGradient := totalGradient + contrast;
      if y > marginY && y < h - marginY && x > marginX && x < w - marginX && contrast > 20 {
        textDensityCount := textDensityCount + 1;
      }
      top := top + (if y < marginY then contrast else 0);
      bottom := bottom + (if y > h - marginY then contrast else 0);
      left := left + (if x < marginX then contrast else 0);
      right := right + (if x > w - marginX then contrast else 0);
    } else {
      assert sample == Stats(luma, 1, 0, 0, 0, 0, 0, 0);
    }
    s := Stats(totalLuminance, pixelCount, totalGradient, textDensityCount, top, bottom, left, right);
    AddFields(acc, sample, s);
  }

  /** The inner loop of the pass: the samples of row `y`, whose bytes start at `rowBase`. */
  method RowStatistics(data: array<int>, w: nat, h: nat, y: nat, rowBase: nat, acc: Stats)
    returns (s: Stats)
    requires rowBase + w * 4 <= data.Length
    ensures s == RowFrom(data[..], w, h, y, rowBase, 0, acc)
  {
    s := acc;
    var x: nat := 0;
    while x < w
      invariant RowFrom(data[..], w, h, y, rowBase, x, s) == RowFrom(data[..], w, h, y, rowBase, 0, acc)
      decreases w - x
    {
      s := AccumulateSample(data, w, h, y, rowBase, x, s);
      x := x + Stride;
    }
  }

  /** Pass 1 of `analyzeFrame`: the nested strided loop accumulating the statistics. */
  method FrameStatistics(data: array<int>, w: nat, h: nat) returns (s: Stats)
    requires data.Length == w * h * 4
    ensures s == FrameStats(data[..], w, h)
  {
    ghost var d := data[..];
    FrameFits(d, w, h);
    s := NoStats;
    var y: nat, rowBase: nat := 0, 0;
    while y < h
      invariant rowBase <= |d| && RowsFit(|d| - rowBase, w, y, h)
      invariant GridFrom(d, w, h, y, rowBase, s) == FrameStats(d, w, h)
      decreases h - y
    {
      // `(y * width + x) * 4` with the row offset `y * width * 4` carried from row to row.
      NextRowFits(data.Length, w, h, y, rowBase);
      s := RowStatistics(data, w, h, y, rowBase, s);
      y, rowBase := y + Stride, NextRow(data.Length, w, rowBase);
    }
  }

  /* ---- What the pass computes ---- */

  /** Every byte of the frame is in 0..255, as in a `Uint8ClampedArray`. */
  predicate Bytes(d: seq<int>) {
    forall i :: 0 <= i < |d| ==> 0 <= d[i] <= 255
  }

  /** The sums that can only grow are non-negative, and at most one dense pair per sample. */
  predicate Sane(s: Stats) {
    s.gradient >= 0 && s.textDensity <= s.pixelCount
    && s.top >= 0 && s.bottom >= 0 && s.left >= 0 && s.right >= 0
  }

  /** The luminance sum averages to a byte value. */
  predicate LumaBounded(s: Stats) {
    0.0 <= s.luminance <= 255.0 * s.pixelCount as real
  }

  /** The number of sampled columns `x, x + 2, ...` below `w`. */
  function Columns(w: nat, x: nat): nat { if x >= w then 0 else (w - x + 1) / 2 }

  lemma SampleLuma(d: seq<int>, w: nat, h: nat, y: nat, base: nat, x: nat)
    requires base + w * 4 <= |d| && x < w && Bytes(d)
    ensures 0.0 <= Sample(d, w, h, y, base, x).luminance <= 255.0
  {
    var i := base + x * 4;
    assert i + 2 < base + w * 4 by { MulMono(x + 1, w, 4); }
    LumaRange(d[i], d[i + 1], d[i + 2]);
  }

  lemma {:induction false} RowFacts(d: seq<int>, w: nat, h: nat, y: nat, base: nat, x: nat, acc: Stats)
    requires base + w * 4 <= |d|
    ensures RowFrom(d, w, h, y, base, x, acc).pixelCount == acc.pixelCount + Columns(w, x)
    ensures Sane(acc) ==> Sane(RowFrom(d, w, h, y, base, x, acc))
    ensures Bytes(d) && LumaBounded(acc) ==> LumaBounded(RowFrom(d, w, h, y, base, x, acc))
    decreases w - x
  {
    if x < w {
      var next := Add(acc, Sample(d, w, h, y, base, x));
      RowFacts(d, w, h, y, base, x + Stride, next);
      if Bytes(d) {
        SampleLuma(d, w, h, y, base, x);
      }
    }
  }

  /** The number of sampled rows `y, y + 2, ...` below `h`. */
  function Rows(h: nat, y: nat): nat { if y >= h then 0 else (h - y + 1) / 2 }

  /** The grid from row `y` is the grid from row `y + 2` after row `y`. */
  lemma GridStep(d: seq<int>, w: nat, h: nat, y: nat, base: nat, acc: Stats)
    requires base <= |d| && RowsFit(|d| - base, w, y, h) && y < h
    ensures base + w * 4 <= |d| && NextRow(|d|, w, base) <= |d|
    ensures RowsFit(|d| - NextRow(|d|, w, base), w, y + Stride, h)
    ensures GridFrom(d, w, h, y, base, acc)
         == GridFrom(d, w, h, y + Stride, NextRow(|d|, w, base), RowFrom(d, w, h, y, base, 0, acc))
  {
    NextRowFits(|d|, w, h, y, base);
  }

  lemma {:induction false} GridCount(d: seq<int>, w: nat, h: nat, y: nat, base: nat, acc: Stats)
    requires base <= |d| && RowsFit(|d| - base, w, y, h)
    ensures GridFrom(d, w, h, y, base, acc).pixelCount == acc.pixelCount + Rows(h, y) * Columns(w, 0)
    decreases h - y
  {
    if y < h {
      GridStep(d, w, h, y, base, acc);
      var row := RowFrom(d, w, h, y, base, 0, acc);
      RowFacts(d, w, h, y, base, 0, acc);
      GridCount(d, w, h, y + Stride, NextRow(|d|, w, base), row);
      assert Rows(h, y) == 1 + Rows(h, y + Stride);
      OneMore(Rows(h, y + Stride), Columns(w, 0));
    }
  }

  lemma {:induction false} GridSane(d: seq<int>, w: nat, h: nat, y: nat, base: nat, acc: Stats)
    requires base <= |d| && RowsFit(|d| - base, w, y, h) && Sane(acc)
    ensures Sane(GridFrom(d, w, h, y, base, acc))
    decreases h - y
  {
    if y < h {
      GridStep(d, w, h, y, base, acc);
      RowFacts(d, w, h, y, base, 0, acc);
      GridSane(d, w, h, y + Stride, NextRow(|d|, w, base), RowFrom(d, w, h, y, base, 0, acc));
    }
  }

  lemma {:induction false} GridLuma(d: seq<int>, w: nat, h: nat, y: nat, base: nat, acc: Stats)
    requires base <= |d| && RowsFit(|d| - base, w, y, h) && Bytes(d) && LumaBounded(acc)
    ensures LumaBounded(GridFrom(d, w, h, y, base, acc))
    decreases h - y
  {
    if y < h {
      GridStep(d, w, h, y, base, acc);
      RowFacts(d, w, h, y, base, 0, acc);
      GridLuma(d, w, h, y + Stride, NextRow(|d|, w, base), RowFrom(d, w, h, y, base, 0, acc));
    }
  }

  lemma SampleCount(w: nat, h: nat)
    ensures Rows(h, 0) * Columns(w, 0) == ((w + 1) / 2) * ((h + 1) / 2)
  {
    assert Rows(h, 0) == (h + 1) / 2 && Columns(w, 0) == (w + 1) / 2;
  }

  /**
   * The pass samples every second pixel of every second row, once each; the sums it keeps
   * are non-negative, and over bytes the luminance averages within 0..255.
   */
  lemma FrameFacts(d: seq<int>, w: nat, h: nat)
    requires IsFrame(d, w, h)
    ensures FrameStats(d, w, h).pixelCount == ((w + 1) / 2) * ((h + 1) / 2)
    ensures Sane(FrameStats(d, w, h))
    ensures Bytes(d) ==> LumaBounded(FrameStats(d, w, h))
  {
    FrameFits(d, w, h);
    GridCount(d, w, h, 0, 0, NoStats);
    SampleCount(w, h);
    GridSane(d, w, h, 0, 0, NoStats);
    if Bytes(d) {
      GridLuma(d, w, h, 0, 0, NoStats);
    }
  }

  /** A non-empty frame has samples, so the averages below are defined. */
  lemma FrameSampled(d: seq<int>, w: nat, h: nat)
    requires IsFrame(d, w, h) && w > 0 && h > 0
    ensures FrameStats(d, w, h).pixelCount > 0
  {
    FrameFacts(d, w, h);
    MulMono(1, (w + 1) / 2, (h + 1) / 2);
  }

  /* ---- Lighting ---- */

  datatype LightLevel = LowLight | GoodLight | HighLight

  /** Dark below an average luma of 50, bright above 220. */
  function ClassifyLighting(avgLuma: real): (l: LightLevel)
    ensures l == LowLight <==> avgLuma < 50.0
    ensures l == HighLight <==> avgLuma > 220.0
    ensures l == GoodLight <==> 50.0 <= avgLuma <= 220.0
  {
    if avgLuma < 50.0 then LowLight else if avgLuma > 220.0 then HighLight else GoodLight
  }

  function LightRank(l: LightLevel): nat {
    match l
    case LowLight => 0
    case GoodLight => 1
    case HighLight => 2
  }

  /** A brighter frame never gets a darker class. */
  lemma LightingMonotone(a: real, b: real)
    requires a <= b
    ensures LightRank(ClassifyLighting(a)) <= LightRank(ClassifyLighting(b))
  {
  }

  /* ---- Clarity ---- */

  function Min(a: real, b: real): real { if a <= b then a else b }
  function Max(a: real, b: real): real { if a >= b then a else b }

  /** `Math.min(100, Math.max(0, (avgGradient - 5) * 4))`. */
  function RawClarity(avgGradient: real): (r: real)
    ensures 0.0 <= r <= 100.0
    ensures r == 0.0 <==> avgGradient <= 5.0
    ensures r == 100.0 <==> avgGradient >= 30.0
    ensures 0.0 < r < 100.0 ==> r == (avgGradient - 5.0) * 4.0
    ensures r < 40.0 <==> avgGradient < 15.0
  {
    Min(100.0, Max(0.0, (avgGradient - 5.0) * 4.0))
  }

  /** A sharper frame never scores lower. */
  lemma RawClarityMonotone(a: real, b: real)
    requires a <= b
    ensures RawClarity(a) <= RawClarity(b)
  {
  }

  /** The state update `prev * 0.7 + scoreRaw * 0.3`. */
  function Smooth(prev: real, raw: real): (r: real)
    ensures prev <= raw ==> prev <= r <= raw
    ensures raw <= prev ==> raw <= r <= prev
  {
    prev * 0.7 + raw * 0.3
  }

  function RealAbs(v: real): real { if v < 0.0 then -v else v }

  /** A score in 0..100 stays there whatever frame is analysed next. */
  lemma SmoothInRange(prev: real, raw: real)
    requires 0.0 <= prev <= 100.0 && 0.0 <= raw <= 100.0
    ensures 0.0 <= Smooth(prev, raw) <= 100.0
  {
  }

  /** Each update closes 30% of the distance to the new raw score. */
  lemma SmoothContracts(prev: real, raw: real)
    ensures RealAbs(Smooth(prev, raw) - raw) == 0.7 * RealAbs(prev - raw)
  {
  }

  /** The score after `n` analysed frames of the same raw score. */
  function SmoothN(prev: real, raw: real, n: nat): real {
    if n == 0 then prev else Smooth(SmoothN(prev, raw, n - 1), raw)
  }

  function Pow(b: real, n: nat): real {
    if n == 0 then 1.0 else b * Pow(b, n - 1)
  }

  /** One update under the raw score multiplies the signed gap to it by 0.7. */
  lemma GapStep(p: real, raw: real, q: real, next: real, g: real)
    requires p - raw == q * g && next == 0.7 * q
    ensures Smooth(p, raw) - raw == next * g
  {
  }

  /** Under a constant raw score the signed gap to it is 0.7ⁿ times the first one. */
  lemma {:induction false} SmoothNGap(prev: real, raw: real, n: nat)
    ensures SmoothN(prev, raw, n) - raw == Pow(0.7, n) * (prev - raw)
  {
    if n > 0 {
      SmoothNGap(prev, raw, n - 1);
      GapStep(SmoothN(prev, raw, n - 1), raw, Pow(0.7, n - 1), Pow(0.7, n), prev - raw);
    }
  }

  lemma {:induction false} PowPositive(b: real, n: nat)
    requires b > 0.0
    ensures Pow(b, n) > 0.0
  {
    if n > 0 {
      PowPositive(b, n - 1);
      PositiveProduct(Pow(b, n - 1), b);
    }
  }

  lemma AbsScale(q: real, g: real)
    requires q > 0.0
    ensures RealAbs(q * g) == q * RealAbs(g)
  {
    if g < 0.0 {
      assert q * g == -(q * -g);
      PositiveProduct(-g, q);
    } else {
      PositiveProduct(g, q);
    }
  }

  /** Under a constant raw score the distance to it shrinks by 0.7 per analysed frame. */
  lemma SmoothNConverges(prev: real, raw: real, n: nat)
    ensures RealAbs(SmoothN(prev, raw, n) - raw) == Pow(0.7, n) * RealAbs(prev - raw)
  {
    SmoothNGap(prev, raw, n);
    PowPositive(0.7, n);
    AbsScale(Pow(0.7, n), prev - raw);
  }

  /** From anywhere in 0..100, thirteen frames bring the score within 1 of a steady raw score. */
  lemma SmoothSettles(prev: real, raw: real)
    requires 0.0 <= prev <= 100.0 && 0.0 <= raw <= 100.0
    ensures RealAbs(SmoothN(prev, raw, 13) - raw) < 1.0
  {
    SmoothNConverges(prev, raw, 13);
    assert Pow(0.7, 13) == 0.0096889010407;
  }

  /* ---- Edges ---- */

  datatype Edges = Edges(top: bool, right: bool, bottom: bool, left: bool)

  const NoEdges := Edges(false, false, false, false)

  predicate AllEdges(e: Edges) { e.top && e.right && e.bottom && e.left }

  /** A strip shows an edge when its contrast per approximate sample exceeds 12. */
  predicate StripActive(sum: int, area: real)
    requires area > 0.0
  {
    sum as real / area > 12.0
  }

  lemma StripActiveIff(sum: int, cells: nat)
    requires cells > 0
    ensures StripActive(sum, cells as real / 4.0) <==> sum > 3 * cells
  {
    var area := cells as real / 4.0;
    var q := sum as real / area;
    assert q * area == sum as real;
    assert sum as real - 12.0 * area == (q - 12.0) * area;
    PositiveProduct(q - 12.0, area);
    PositiveProduct(12.0 - q, area);
  }

  lemma PositiveProduct(a: real, b: real)
    requires b > 0.0
    ensures a > 0.0 ==> a * b > 0.0
  {
  }

  /**
   * The four edge flags: the top and bottom strips are normalised by `width * marginY / 4`
   * samples and the side strips by `height * marginX / 4`. The margins are positive once
   * the frame is at least 7 pixels each way.
   */
  function DetectEdges(s: Stats, w: nat, h: nat): (e: Edges)
    requires w >= 7 && h >= 7
    ensures e.top <==> s.top > 3 * (w * Margin(h))
    ensures e.bottom <==> s.bottom > 3 * (w * Margin(h))
    ensures e.left <==> s.left > 3 * (h * Margin(w))
    ensures e.right <==> s.right > 3 * (h * Margin(w))
  {
    var strip, side := w * Margin(h), h * Margin(w);
    MulMono(1, w, Margin(h));
    MulMono(1, h, Margin(w));
    StripActiveIff(s.top, strip);
    StripActiveIff(s.bottom, strip);
    StripActiveIff(s.left, side);
    StripActiveIff(s.right, side);
    var regionPixels, sidePixels := strip as real / 4.0, side as real / 4.0;
    Edges(StripActive(s.top, regionPixels), StripActive(s.right, sidePixels),
          StripActive(s.bottom, regionPixels), StripActive(s.left, sidePixels))
  }

  /* ---- Warnings ---- */

  datatype WarningType = Blur | Glare | Motion | Shadow | Lighting | Alignment | Resolution

  datatype Severity = Low | Medium | High

  datatype ScanWarning = ScanWarning(kind: WarningType, severity: Severity, message: string)

  /** The order in which the analysis raises warnings. */
  function KindRank(k: WarningType): nat {
    match k
    case Blur => 0
    case Lighting => 1
    case Glare => 1
    case Alignment => 2
    case Resolution => 3
    case Motion => 4
    case Shadow => 4
  }

  function BlurWarning(raw: real, light: LightLevel): seq<ScanWarning> {
    if raw < 40.0 then [ScanWarning(Blur, if light == LowLight then High else Medium, "Image is blurry")] else []
  }

  function LightWarning(light: LightLevel): seq<ScanWarning> {
    if light == LowLight then [ScanWarning(Lighting, High, "Too dark")]
    else if light == HighLight then [ScanWarning(Glare, Medium, "Potential glare")]
    else []
  }

  function AlignWarning(e: Edges): seq<ScanWarning> {
    if !AllEdges(e) then [ScanWarning(Alignment, Low, "Align edges")] else []
  }

  function ResolutionWarning(videoWidth: int): seq<ScanWarning> {
    if videoWidth < 960 then [ScanWarning(Resolution, Medium, "Low resolution")] else []
  }

  /**
   * Blur below a raw score of 40 (high severity in the dark), then too dark or glare,
   * then misalignment unless all four edges are seen, then a source narrower than 960.
   */
  function Warnings(raw: real, light: LightLevel, e: Edges, videoWidth: int): seq<ScanWarning> {
    BlurWarning(raw, light) + LightWarning(light) + AlignWarning(e) + ResolutionWarning(videoWidth)
  }

  predicate Raised(ws: seq<ScanWarning>, k: WarningType) {
    exists i :: 0 <= i < |ws| && ws[i].kind == k
  }

  predicate NoHighWarning(ws: seq<ScanWarning>) {
    forall i :: 0 <= i < |ws| ==> ws[i].severity != High
  }

  lemma RaisedAppend(a: seq<ScanWarning>, b: seq<ScanWarning>, k: WarningType)
    ensures Raised(a + b, k) <==> Raised(a, k) || Raised(b, k)
  {
    if Raised(a + b, k) {
      var i :| 0 <= i < |a + b| && (a + b)[i].kind == k;
      if i >= |a| { assert b[i - |a|].kind == k; }
    }
    if Raised(b, k) {
      var i :| 0 <= i < |b| && b[i].kind == k;
      assert (a + b)[|a| + i].kind == k;
    }
    if Raised(a, k) {
      var i :| 0 <= i < |a| && a[i].kind == k;
      assert (a + b)[i].kind == k;
    }
  }

  lemma RaisedOne(x: ScanWarning, k: WarningType)
    ensures Raised([x], k) <==> x.kind == k
  {
    if x.kind == k { assert [x][0].kind == k; }
  }

  /** A kind is raised exactly when its own condition holds. */
  lemma RaisedParts(raw: real, light: LightLevel, e: Edges, videoWidth: int, k: WarningType)
    ensures Raised(Warnings(raw, light, e, videoWidth), k) <==>
      (k == Blur && raw < 40.0) || (k == Lighting && light == LowLight) || (k == Glare && light == HighLight)
      || (k == Alignment && !AllEdges(e)) || (k == Resolution && videoWidth < 960)
  {
    var bl, li, al, re := BlurWarning(raw, light), LightWarning(light), AlignWarning(e), ResolutionWarning(videoWidth);
    RaisedAppend(bl, li, k);
    RaisedAppend(bl + li, al, k);
    RaisedAppend(bl + li + al, re, k);
    if |bl| == 1 { RaisedOne(bl[0], k); assert bl == [bl[0]]; }
    if |li| == 1 { RaisedOne(li[0], k); assert li == [li[0]]; }
    if |al| == 1 { RaisedOne(al[0], k); assert al == [al[0]]; }
    if |re| == 1 { RaisedOne(re[0], k); assert re == [re[0]]; }
  }

  /** Which warnings are raised; darkness and glare exclude each other. */
  lemma WarningsRaised(raw: real, light: LightLevel, e: Edges, videoWidth: int)
    ensures Raised(Warnings(raw, light, e, videoWidth), Blur) <==> raw < 40.0
    ensures Raised(Warnings(raw, light, e, videoWidth), Lighting) <==> light == LowLight
    ensures Raised(Warnings(raw, light, e, videoWidth), Glare) <==> light == HighLight
    ensures Raised(Warnings(raw, light, e, videoWidth), Alignment) <==> !AllEdges(e)
    ensures Raised(Warnings(raw, light, e, videoWidth), Resolution) <==> videoWidth < 960
    ensures !Raised(Warnings(raw, light, e, videoWidth), Motion)
    ensures !Raised(Warnings(raw, light, e, videoWidth), Shadow)
    ensures !(Raised(Warnings(raw, light, e, videoWidth), Lighting) && Raised(Warnings(raw, light, e, videoWidth), Glare))
  {
    RaisedParts(raw, light, e, videoWidth, Blur);
    RaisedParts(raw, light, e, videoWidth, Lighting);
    RaisedParts(raw, light, e, videoWidth, Glare);
    RaisedParts(raw, light, e, videoWidth, Alignment);
    RaisedParts(raw, light, e, videoWidth, Resolution);
    RaisedParts(raw, light, e, videoWidth, Motion);
    RaisedParts(raw, light, e, videoWidth, Shadow);
  }

  /** The warnings come in strictly increasing order, so no kind is raised twice. */
  lemma WarningsOrdered(raw: real, light: LightLevel, e: Edges, videoWidth: int)
    ensures forall i, j :: 0 <= i < j < |Warnings(raw, light, e, videoWidth)| ==>
      KindRank(Warnings(raw, light, e, videoWidth)[i].kind) < KindRank(Warnings(raw, light, e, videoWidth)[j].kind)
  {
  }

  /** Severities and messages: blur is high exactly in the dark, the rest are fixed per kind. */
  lemma WarningsSeverity(raw: real, light: LightLevel, e: Edges, videoWidth: int)
    ensures forall w <- Warnings(raw, light, e, videoWidth) ::
      match w.kind
      case Blur => w.severity == (if light == LowLight then High else Medium) && w.message == "Image is blurry"
      case Lighting => w.severity == High && w.message == "Too dark"
      case Glare => w.severity == Medium && w.message == "Potential glare"
      case Alignment => w.severity == Low && w.message == "Align edges"
      case Resolution => w.severity == Medium && w.message == "Low resolution"
      case _ => false
  {
  }

  /** Only darkness raises a high-severity warning (as "too dark", and blur then too). */
  lemma NoHighIff(raw: real, light: LightLevel, e: Edges, videoWidth: int)
    ensures NoHighWarning(Warnings(raw, light, e, videoWidth)) <==> light != LowLight
  {
    var ws := Warnings(raw, light, e, videoWidth);
    if light == LowLight {
      var k := if raw < 40.0 then 1 else 0;
      assert ws[k].severity == High;
    }
  }

  /* ---- The analysis of one frame ---- */

  /** What one analysed frame sets: lighting, raw clarity, edges, warnings and the two flags. */
  datatype Analysis = Analysis(lighting: LightLevel, rawClarity: real, edges: Edges,
                               warnings: seq<ScanWarning>, resolutionWarning: bool,
                               documentDetected: bool)

  /** Comparing an average with a threshold is comparing the total with the threshold times the count. */
  lemma AverageCompare(total: real, n: real, c: real)
    requires n > 0.0
    ensures total / n < c <==> total < c * n
    ensures total / n > c <==> total > c * n
    ensures total / n <= c <==> total <= c * n
    ensures total / n >= c <==> total >= c * n
  {
    var q := total / n;
    assert q * n == total;
    assert total - c * n == (q - c) * n;
    PositiveProduct(q - c, n);
    PositiveProduct(c - q, n);
  }

  /** The lighting class and the raw clarity, read off the sums over `n` samples. */
  lemma ClassesOnSums(luminance: real, gradient: real, n: real, light: LightLevel, raw: real)
    requires n > 0.0
    requires light == ClassifyLighting(luminance / n) && raw == RawClarity(gradient / n)
    ensures light == LowLight <==> luminance < 50.0 * n
    ensures light == HighLight <==> luminance > 220.0 * n
    ensures raw == 0.0 <==> gradient <= 5.0 * n
    ensures raw == 100.0 <==> gradient >= 30.0 * n
    ensures raw < 40.0 <==> gradient < 15.0 * n
  {
    AverageCompare(luminance, n, 50.0);
    AverageCompare(luminance, n, 220.0);
    AverageCompare(gradient, n, 5.0);
    AverageCompare(gradient, n, 15.0);
    AverageCompare(gradient, n, 30.0);
  }

  /** The warnings of a frame, read off the sums over `n` samples. */
  lemma WarningsOnSums(luminance: real, gradient: real, n: real, light: LightLevel, raw: real,
                       e: Edges, videoWidth: int, ws: seq<ScanWarning>)
    requires n > 0.0
    requires light == ClassifyLighting(luminance / n) && raw == RawClarity(gradient / n)
    requires ws == Warnings(raw, light, e, videoWidth)
    ensures Raised(ws, Blur) <==> gradient < 15.0 * n
    ensures Raised(ws, Lighting) <==> luminance < 50.0 * n
    ensures Raised(ws, Glare) <==> luminance > 220.0 * n
    ensures Raised(ws, Alignment) <==> !AllEdges(e)
    ensures Raised(ws, Resolution) <==> videoWidth < 960
    ensures NoHighWarning(ws) <==> luminance >= 50.0 * n
  {
    ClassesOnSums(luminance, gradient, n, light, raw);
    WarningsRaised(raw, light, e, videoWidth);
    NoHighIff(raw, light, e, videoWidth);
  }

  /**
   * Steps 1 to 5 of the analysis from the accumulated statistics, stated on the sums over
   * the `n` samples: dark below 50 per sample and bright above 220; raw clarity 0 up to a
   * gradient of 5 per sample, 100 from 30, blurry below 15; a high-severity warning exactly
   * in the dark; a document when more than 150 centre pairs have contrast above 20.
   */
  function Derive(s: Stats, w: nat, h: nat, videoWidth: int): (a: Analysis)
    requires w >= 7 && h >= 7 && s.pixelCount > 0
    ensures var n := s.pixelCount as real;
      && (a.lighting == LowLight <==> s.luminance < 50.0 * n)
      && (a.lighting == HighLight <==> s.luminance > 220.0 * n)
      && 0.0 <= a.rawClarity <= 100.0
      && (a.rawClarity == 0.0 <==> s.gradient as real <= 5.0 * n)
      && (a.rawClarity == 100.0 <==> s.gradient as real >= 30.0 * n)
      && (0.0 < a.rawClarity < 100.0 ==> a.rawClarity == (s.gradient as real / n - 5.0) * 4.0)
      && (Raised(a.warnings, Blur) <==> s.gradient as real < 15.0 * n)
      && (Raised(a.warnings, Lighting) <==> s.luminance < 50.0 * n)
      && (Raised(a.warnings, Glare) <==> s.luminance > 220.0 * n)
      && (NoHighWarning(a.warnings) <==> s.luminance >= 50.0 * n)
    ensures a.edges == DetectEdges(s, w, h)
    ensures a.warnings == Warnings(a.rawClarity, a.lighting, a.edges, videoWidth)
    ensures Raised(a.warnings, Alignment) <==> !AllEdges(a.edges)
    ensures Raised(a.warnings, Resolution) <==> a.resolutionWarning
    ensures a.resolutionWarning <==> videoWidth < 960
    ensures a.documentDetected <==> s.textDensity > 150
  {
    var n := s.pixelCount as real;
    var light := ClassifyLighting(s.luminance / n);
    var raw := RawClarity(s.gradient as real / n);
    var e := DetectEdges(s, w, h);
    var ws := Warnings(raw, light, e, videoWidth);
    ClassesOnSums(s.luminance, s.gradient as real, n, light, raw);
    WarningsOnSums(s.luminance, s.gradient as real, n, light, raw, e, videoWidth, ws);
    Analysis(light, raw, e, ws, videoWidth < 960, s.textDensity > 150)
  }

  /** The analysis of the frame `d`, from its statistics. */
  function AnalysisOf(d: seq<int>, w: nat, h: nat, videoWidth: int): Analysis
    requires |d| == w * h * 4 && w >= 7 && h >= 7
  {
    FrameSampled(d, w, h);
    Derive(FrameStats(d, w, h), w, h, videoWidth)
  }

  /** The analysis of one sampled frame. */
  method AnalyzeFrame(data: array<int>, w: nat, h: nat, videoWidth: int) returns (a: Analysis)
    requires data.Length == w * h * 4 && w >= 7 && h >= 7
    ensures FrameStats(data[..], w, h).pixelCount > 0
    ensures a == Derive(FrameStats(data[..], w, h), w, h, videoWidth)
    ensures a == AnalysisOf(data[..], w, h, videoWidth)
  {
    var s := FrameStatistics(data, w, h);
    FrameSampled(data[..], w, h);
    a := Derive(s, w, h, videoWidth);
  }

  lemma AverageBound(total: real, n: real)
    requires n > 0.0 && 0.0 <= total <= 255.0 * n
    ensures 0.0 <= total / n <= 255.0
  {
    var q := total / n;
    assert q * n == total;
    assert total - 255.0 * n == (q - 255.0) * n;
    PositiveProduct(q - 255.0, n);
    PositiveProduct(-q, n);
  }

  /** Over byte data the average luma is a byte value. */
  lemma AverageLumaRange(d: seq<int>, w: nat, h: nat)
    requires IsFrame(d, w, h) && w > 0 && h > 0 && Bytes(d)
    ensures FrameStats(d, w, h).pixelCount > 0
    ensures 0.0 <= FrameStats(d, w, h).luminance / FrameStats(d, w, h).pixelCount as real <= 255.0
  {
    FrameFacts(d, w, h);
    FrameSampled(d, w, h);
    var s := FrameStats(d, w, h);
    AverageBound(s.luminance, s.pixelCount as real);
  }
}

/**
 * Burst capture of the document scanner: each of the three shots is scored by the
 * horizontal red-channel contrast of a coarse grid, the shots are sorted by descending
 * score (stably), and the best one is converted to grayscale and contrast-stretched in
 * place before it is handed on.
 */
module Burst {
  import FrameAnalysis

  /* ---- Frame score ---- */

  /** `getFrameScore` reads every fourth pixel of every fourth row. */
  const ScoreStride: nat := 4

  /** `len` bytes hold rows `y`, `y + 4`, ... below `h` of `w` RGBA pixels each. */
  predicate ScoreRowsFit(len: int, w: nat, y: nat, h: nat)
    decreases h - y
  {
    y >= h || (len >= w * 4 && ScoreRowsFit(len - w * 16, w, y + ScoreStride, h))
  }

  lemma {:induction false} FrameScoreRowsFit(w: nat, h: nat, y: nat)
    requires y <= h
    ensures ScoreRowsFit((h - y) * w * 4, w, y, h)
    decreases h - y
  {
    if y < h {
      RowsBytes(h - y, w);
      if y + ScoreStride <= h {
        FrameScoreRowsFit(w, h, y + ScoreStride);
      }
    }
  }

  /** `n` rows of `w` pixels hold one row, and four rows fewer once four are taken. */
  lemma RowsBytes(n: nat, w: nat)
    requires n >= 1
    ensures n * w * 4 >= w * 4
    ensures n >= ScoreStride ==> n * w * 4 - w * 16 == (n - ScoreStride) * w * 4
  {
    FrameAnalysis.MulMono(1, n, w * 4);
    assert n * w * 4 == n * (w * 4);
    assert (n - ScoreStride) * w * 4 == n * w * 4 - ScoreStride * w * 4;
  }

  lemma ScoreFits(d: seq<int>, w: nat, h: nat)
    requires |d| == w * h * 4
    ensures ScoreRowsFit(|d|, w, 0, h)
  {
    FrameScoreRowsFit(w, h, 0);
    assert w * h * 4 == (h - 0) * w * 4;
  }

  /** `acc` plus the red contrasts of row bytes from `base`, from column `x` on. */
  function ScoreRow(d: seq<int>, w: nat, base: nat, x: nat, acc: nat): nat
    requires base + w * 4 <= |d|
    decreases w - x
  {
    if x + ScoreStride < w then
      ScoreRow(d, w, base, x + ScoreStride, acc + FrameAnalysis.Abs(d[base + x * 4] - d[base + (x + ScoreStride) * 4]))
    else acc
  }

  /** Where the row four below starts (capped at the end of the frame). */
  function NextScoreRow(len: nat, w: nat, base: nat): (r: nat)
    requires base <= len
    ensures base <= r <= len
  {
    if base + w * 16 <= len then base + w * 16 else len
  }

  lemma NextScoreRowFits(len: nat, w: nat, h: nat, y: nat, base: nat)
    requires base <= len && ScoreRowsFit(len - base, w, y, h) && y < h
    ensures base + w * 4 <= len
    ensures ScoreRowsFit(len - NextScoreRow(len, w, base), w, y + ScoreStride, h)
  {
  }

  /** `acc` plus the contrasts of rows `y`, `y + 4`, ..., the first at byte `base`. */
  function ScoreGrid(d: seq<int>, w: nat, h: nat, y: nat, base: nat, acc: nat): nat
    requires base <= |d| && ScoreRowsFit(|d| - base, w, y, h)
    decreases h - y
  {
    if y >= h then acc
    else
      NextScoreRowFits(|d|, w, h, y, base);
      ScoreGrid(d, w, h, y + ScoreStride, NextScoreRow(|d|, w, base), ScoreRow(d, w, base, 0, acc))
  }

  /** The score of a `w` by `h` RGBA frame. */
  function Score(d: seq<int>, w: nat, h: nat): nat
    requires |d| == w * h * 4
  {
    ScoreFits(d, w, h);
    ScoreGrid(d, w, h, 0, 0, 0)
  }

  method ScoreRowLoop(data: array<int>, w: nat, rowBase: nat, acc: nat) returns (total: nat)
    requires rowBase + w * 4 <= data.Length
    ensures total == ScoreRow(data[..], w, rowBase, 0, acc)
  {
    total := acc;
    var x: nat := 0;
    while x + ScoreStride < w
      invariant ScoreRow(data[..], w, rowBase, x, total) == ScoreRow(data[..], w, rowBase, 0, acc)
      decreases w - x
    {
      var i := rowBase + x * 4;
      var nextI := rowBase + (x + ScoreStride) * 4;
      var contrast := FrameAnalysis.Abs(data[i] - data[nextI]);
      total := total + contrast;
      x := x + ScoreStride;
    }
  }

  /** `getFrameScore`: the sum of red-channel differences to the sample four pixels right. */
  method FrameScore(data: array<int>, w: nat, h: nat) returns (total: nat)
    requires data.Length == w * h * 4
    ensures total == Score(data[..], w, h)
  {
    ghost var d := data[..];
    ScoreFits(d, w, h);
    total := 0;
    var y: nat, rowBase: nat := 0, 0;
    while y < h
      invariant rowBase <= |d| && ScoreRowsFit(|d| - rowBase, w, y, h)
      invariant ScoreGrid(d, w, h, y, rowBase, total) == Score(d, w, h)
      decreases h - y
    {
      NextScoreRowFits(data.Length, w, h, y, rowBase);
      total := ScoreRowLoop(data, w, rowBase, total);
      y, rowBase := y + ScoreStride, NextScoreRow(data.Length, w, rowBase);
    }
  }

  /** The two frames have the same red bytes. */
  predicate SameRed(d1: seq<int>, d2: seq<int>) {
    |d1| == |d2| && forall i :: 0 <= i < |d1| && i % 4 == 0 ==> d1[i] == d2[i]
  }

  /** The two samples of a row step are red bytes. */
  lemma RedOffsets(base: nat, x: nat)
    requires base % 4 == 0
    ensures (base + x * 4) % 4 == 0 && (base + (x + ScoreStride) * 4) % 4 == 0
  {
    var q := base / 4;
    assert base + x * 4 == (q + x) * 4;
    assert base + (x + ScoreStride) * 4 == (q + x + ScoreStride) * 4;
  }

  lemma {:induction false} ScoreRowRedOnly(d1: seq<int>, d2: seq<int>, w: nat, base: nat, x: nat, acc: nat)
    requires SameRed(d1, d2) && base % 4 == 0 && base + w * 4 <= |d1|
    ensures ScoreRow(d1, w, base, x, acc) == ScoreRow(d2, w, base, x, acc)
    decreases w - x
  {
    if x + ScoreStride < w {
      RedOffsets(base, x);
      assert d1[base + x * 4] == d2[base + x * 4];
      assert d1[base + (x + ScoreStride) * 4] == d2[base + (x + ScoreStride) * 4];
      ScoreRowRedOnly(d1, d2, w, base, x + ScoreStride,
                      acc + FrameAnalysis.Abs(d1[base + x * 4] - d1[base + (x + ScoreStride) * 4]));
    }
  }

  lemma {:induction false} ScoreGridRedOnly(d1: seq<int>, d2: seq<int>, w: nat, h: nat, y: nat, base: nat, acc: nat)
    requires SameRed(d1, d2) && base % 4 == 0 && |d1| % 4 == 0
    requires base <= |d1| && ScoreRowsFit(|d1| - base, w, y, h)
    ensures ScoreGrid(d1, w, h, y, base, acc) == ScoreGrid(d2, w, h, y, base, acc)
    decreases h - y
  {
    if y < h {
      NextScoreRowFits(|d1|, w, h, y, base);
      ScoreRowRedOnly(d1, d2, w, base, 0, acc);
      ScoreGridRedOnly(d1, d2, w, h, y + ScoreStride, NextScoreRow(|d1|, w, base), ScoreRow(d1, w, base, 0, acc));
    }
  }

  /** The score depends on the red channel only. */
  lemma ScoreRedOnly(d1: seq<int>, d2: seq<int>, w: nat, h: nat)
    requires |d1| == w * h * 4 && SameRed(d1, d2)
    ensures Score(d1, w, h) == Score(d2, w, h)
  {
    ScoreFits(d1, w, h);
    ScoreGridRedOnly(d1, d2, w, h, 0, 0, 0);
  }

  /** Every red byte of the frame is `c`. */
  predicate UniformRed(d: seq<int>, c: int) {
    forall i :: 0 <= i < |d| && i % 4 == 0 ==> d[i] == c
  }

  lemma {:induction false} ScoreRowUniform(d: seq<int>, c: int, w: nat, base: nat, x: nat, acc: nat)
    requires UniformRed(d, c) && base % 4 == 0 && base + w * 4 <= |d|
    ensures ScoreRow(d, w, base, x, acc) == acc
    decreases w - x
  {
    if x + ScoreStride < w {
      RedOffsets(base, x);
      ScoreRowUniform(d, c, w, base, x + ScoreStride, acc);
    }
  }

  lemma {:induction false} ScoreGridUniform(d: seq<int>, c: int, w: nat, h: nat, y: nat, base: nat, acc: nat)
    requires UniformRed(d, c) && base % 4 == 0 && |d| % 4 == 0
    requires base <= |d| && ScoreRowsFit(|d| - base, w, y, h)
    ensures ScoreGrid(d, w, h, y, base, acc) == acc
    decreases h - y
  {
    if y < h {
      NextScoreRowFits(|d|, w, h, y, base);
      ScoreRowUniform(d, c, w, base, 0, acc);
      ScoreGridUniform(d, c, w, h, y + ScoreStride, NextScoreRow(|d|, w, base), acc);
    }
  }

  /** A frame whose red channel is flat scores 0. */
  lemma UniformScoresZero(d: seq<int>, c: int, w: nat, h: nat)
    requires |d| == w * h * 4 && UniformRed(d, c)
    ensures Score(d, w, h) == 0
  {
    ScoreFits(d, w, h);
    ScoreGridUniform(d, c, w, h, 0, 0, 0);
  }

  /* ---- Picking the best shot ---- */

  /** A scored shot of the burst. */
  datatype Shot = Shot(score: nat, image: seq<int>)

  predicate SortedDesc(xs: seq<Shot>) {
    forall i, j :: 0 <= i < j < |xs| ==> xs[i].score >= xs[j].score
  }

  /** Places `x`, which came before all of `ys`, ahead of the first shot it does not lose to. */
  function Insert(x: Shot, ys: seq<Shot>): (r: seq<Shot>)
    ensures multiset(r) == multiset(ys) + multiset{x}
  {
    if ys == [] || x.score >= ys[0].score then [x] + ys
    else
      assert ys == [ys[0]] + ys[1..];
      [ys[0]] + Insert(x, ys[1..])
  }

  /** `frames.sort((a, b) => b.score - a.score)`: a stable sort by descending score. */
  function SortByScore(xs: seq<Shot>): (r: seq<Shot>)
    ensures multiset(r) == multiset(xs)
  {
    if xs == [] then []
    else
      assert xs == [xs[0]] + xs[1..];
      Insert(xs[0], SortByScore(xs[1..]))
  }

  /** Inserting keeps every score at most `c` when all of them were. */
  lemma {:induction false} InsertBelow(x: Shot, ys: seq<Shot>, c: nat)
    requires x.score <= c && forall j :: 0 <= j < |ys| ==> ys[j].score <= c
    ensures forall j :: 0 <= j < |Insert(x, ys)| ==> Insert(x, ys)[j].score <= c
  {
    if ys != [] && x.score < ys[0].score {
      assert forall j :: 0 <= j < |ys[1..]| ==> ys[1..][j] == ys[j + 1];
      InsertBelow(x, ys[1..], c);
    }
  }

  lemma {:induction false} InsertSorted(x: Shot, ys: seq<Shot>)
    requires SortedDesc(ys)
    ensures SortedDesc(Insert(x, ys))
    ensures |ys| > 0 ==> Insert(x, ys)[0] == (if x.score >= ys[0].score then x else ys[0])
  {
    if ys != [] && x.score < ys[0].score {
      var rest := ys[1..];
      assert forall j :: 0 <= j < |rest| ==> rest[j] == ys[j + 1];
      assert SortedDesc(rest);
      InsertSorted(x, rest);
      InsertBelow(x, rest, ys[0].score);
      var r := Insert(x, rest);
      assert Insert(x, ys) == [ys[0]] + r;
      assert forall j :: 0 < j < |[ys[0]] + r| ==> ([ys[0]] + r)[j] == r[j - 1];
    }
  }

  /** The sorted burst is ordered by descending score. */
  lemma {:induction false} SortSorted(xs: seq<Shot>)
    ensures SortedDesc(SortByScore(xs))
  {
    if xs != [] {
      SortSorted(xs[1..]);
      InsertSorted(xs[0], SortByScore(xs[1..]));
    }
  }

  /** The first sorted shot is `xs[0]` unless the best of the rest beats it. */
  lemma SortHead(xs: seq<Shot>)
    requires |xs| > 1
    ensures SortByScore(xs)[0] ==
      (if xs[0].score >= SortByScore(xs[1..])[0].score then xs[0] else SortByScore(xs[1..])[0])
  {
    SortSorted(xs[1..]);
    InsertSorted(xs[0], SortByScore(xs[1..]));
  }

  /** The first sorted shot has the highest score. */
  lemma {:induction false} SortHeadIsBest(xs: seq<Shot>)
    requires |xs| > 0
    ensures forall j :: 0 <= j < |xs| ==> xs[j].score <= SortByScore(xs)[0].score
  {
    if |xs| > 1 {
      var rest := xs[1..];
      SortHeadIsBest(rest);
      SortHead(xs);
      forall j | 0 < j < |xs|
        ensures xs[j].score <= SortByScore(rest)[0].score
      {
        assert xs[j] == rest[j - 1];
      }
    }
  }

  /** A best-so-far at `k` in the tail that also beats the head is a best-so-far of the whole. */
  lemma EarlierLower(xs: seq<Shot>, rest: seq<Shot>, k: nat)
    requires k + 1 < |xs| && rest == xs[1..] && xs[0].score < xs[k + 1].score
    requires forall j :: 0 <= j < k ==> rest[j].score < rest[k].score
    ensures forall j :: 0 <= j < k + 1 ==> xs[j].score < xs[k + 1].score
  {
    forall j | 0 < j < k + 1
      ensures xs[j].score < xs[k + 1].score
    {
      assert xs[j] == rest[j - 1];
    }
  }

  /**
   * The first sorted shot is the earliest with the highest score: ties go to the
   * earlier shot, as the sort is stable.
   */
  lemma {:induction false} SortHeadIsEarliestBest(xs: seq<Shot>)
    requires |xs| > 0
    ensures forall j :: 0 <= j < |xs| ==> xs[j].score <= SortByScore(xs)[0].score
    ensures exists k :: 0 <= k < |xs| && SortByScore(xs)[0] == xs[k]
                        && forall j :: 0 <= j < k ==> xs[j].score < xs[k].score
  {
    SortHeadIsBest(xs);
    if |xs| == 1 {
      assert SortByScore(xs)[0] == xs[0];
    } else {
      var rest := xs[1..];
      SortHeadIsEarliestBest(rest);
      SortHead(xs);
      var best := SortByScore(rest)[0];
      var k :| 0 <= k < |rest| && best == rest[k] && forall j :: 0 <= j < k ==> rest[j].score < rest[k].score;
      if xs[0].score < best.score {
        EarlierLower(xs, rest, k);
        assert 0 <= k + 1 < |xs| && SortByScore(xs)[0] == xs[k + 1];
      } else {
        assert SortByScore(xs)[0] == xs[0];
      }
    }
  }

  /* ---- Enhancement ---- */

  /** Storing a number into a `Uint8ClampedArray`: clamp to 0..255, round half to even. */
  function ToUint8Clamp(v: real): (b: int)
    ensures 0 <= b <= 255
  {
    if v <= 0.0 then 0
    else if v >= 255.0 then 255
    else
      var f := v.Floor;
      if v - f as real < 0.5 then f
      else if v - f as real > 0.5 then f + 1
      else if f % 2 == 0 then f else f + 1
  }

  /** The stored byte is the nearest byte to the value, and saturates outside 0..255. */
  lemma ToUint8ClampRounds(v: real)
    ensures v <= 0.0 ==> ToUint8Clamp(v) == 0
    ensures v >= 255.0 ==> ToUint8Clamp(v) == 255
    ensures 0.0 <= v <= 255.0 ==> FrameAnalysis.RealAbs(ToUint8Clamp(v) as real - v) <= 0.5
  {
  }

  /** A larger value never stores as a smaller byte. */
  lemma ToUint8ClampMonotone(u: real, v: real)
    requires u <= v
    ensures ToUint8Clamp(u) <= ToUint8Clamp(v)
  {
  }

  /** The first byte of the pixel holding byte `k`. */
  function PixelStart(k: nat): nat { k - k % 4 }

  /** The luma of the pixel whose bytes start at `i`. */
  function PixelLuma(s: seq<int>, i: nat): real
    requires i + 2 < |s|
  {
    FrameAnalysis.Luma(s[i], s[i + 1], s[i + 2])
  }

  /** Byte `k` after pass 1 of `enhanceImage`: a colour byte becomes its pixel's luma. */
  function GrayByte(s: seq<int>, k: nat): int
    requires |s| % 4 == 0 && k < |s|
  {
    if k % 4 == 3 then s[k] else ToUint8Clamp(PixelLuma(s, PixelStart(k)))
  }

  function Gray(s: seq<int>): (g: seq<int>)
    requires |s| % 4 == 0
    ensures |g| == |s|
  {
    seq(|s|, k requires 0 <= k < |s| => GrayByte(s, k))
  }

  /** The smallest luma of the first `n` pixels, starting from 255. */
  function MinLuma(s: seq<int>, n: nat): real
    requires n * 4 <= |s|
  {
    if n == 0 then 255.0
    else
      var luma := PixelLuma(s, (n - 1) * 4);
      var m := MinLuma(s, n - 1);
      if luma < m then luma else m
  }

  /** The largest luma of the first `n` pixels, starting from 0. */
  function MaxLuma(s: seq<int>, n: nat): real
    requires n * 4 <= |s|
  {
    if n == 0 then 0.0
    else
      var luma := PixelLuma(s, (n - 1) * 4);
      var m := MaxLuma(s, n - 1);
      if luma > m then luma else m
  }

  /** The stretch factor `255 / (max - min)`. */
  function Alpha(lo: real, hi: real): real
    requires lo < hi
  {
    255.0 / (hi - lo)
  }

  /** The value `v` shifted down by `lo` and scaled by `alpha`. */
  function Scale(v: real, lo: real, alpha: real): real {
    (v - lo) * alpha
  }

  /** The contrast stretch `(v - min) * (255 / (max - min))`. */
  function Remap(v: real, lo: real, hi: real): real
    requires lo < hi
  {
    Scale(v, lo, Alpha(lo, hi))
  }

  /** Byte `k` after pass 2, with `alpha == 255 / (max - min)`: a colour byte becomes the stretched red byte of its pixel. */
  function StretchByte(g: seq<int>, lo: real, alpha: real, k: nat): int
    requires k < |g|
  {
    if k % 4 == 3 then g[k] else Stretched(g[PixelStart(k)], lo, alpha)
  }

  /** The stored value of `(v - min) * alpha`. */
  function Stretched(v: int, lo: real, alpha: real): int {
    ToUint8Clamp(Scale(v as real, lo, alpha))
  }

  function StretchWith(g: seq<int>, lo: real, alpha: real): (r: seq<int>)
    ensures |r| == |g|
  {
    seq(|g|, k requires 0 <= k < |g| => StretchByte(g, lo, alpha, k))
  }

  function Stretch(g: seq<int>, lo: real, hi: real): (r: seq<int>)
    requires lo < hi
    ensures |r| == |g|
  {
    StretchWith(g, lo, Alpha(lo, hi))
  }

  /** The enhanced frame: grayscale, then stretched when the lumas are not all equal. */
  function Enhanced(s: seq<int>): (r: seq<int>)
    requires |s| % 4 == 0
    ensures |r| == |s|
  {
    var g := Gray(s);
    var lo, hi := MinLuma(s, |s| / 4), MaxLuma(s, |s| / 4);
    if hi - lo > 0.0 then Stretch(g, lo, hi) else g
  }

  lemma GrayPixel(s: seq<int>, i: nat, b: int)
    requires |s| % 4 == 0 && i % 4 == 0 && i < |s| && b == ToUint8Clamp(PixelLuma(s, i))
    ensures i + 3 < |s|
    ensures GrayByte(s, i) == b && GrayByte(s, i + 1) == b && GrayByte(s, i + 2) == b
    ensures GrayByte(s, i + 3) == s[i + 3]
  {
    assert PixelStart(i) == i && PixelStart(i + 1) == i && PixelStart(i + 2) == i;
    assert (i + 1) % 4 == 1 && (i + 2) % 4 == 2 && (i + 3) % 4 == 3;
  }

  lemma StretchPixel(g: seq<int>, lo: real, alpha: real, i: nat)
    requires |g| % 4 == 0 && i % 4 == 0 && i < |g|
    ensures i + 3 < |g|
    ensures StretchByte(g, lo, alpha, i) == StretchByte(g, lo, alpha, i + 1) == StretchByte(g, lo, alpha, i + 2)
            == Stretched(g[i], lo, alpha)
    ensures StretchByte(g, lo, alpha, i + 3) == g[i + 3]
  {
    assert PixelStart(i) == i && PixelStart(i + 1) == i && PixelStart(i + 2) == i;
    assert (i + 1) % 4 == 1 && (i + 2) % 4 == 2 && (i + 3) % 4 == 3;
  }

  /** Pass 1 over the first `p` pixels, pixel by pixel. */
  function GrayPrefix(s: seq<int>, p: nat): (r: seq<int>)
    requires p * 4 <= |s|
    ensures |r| == p * 4
  {
    if p == 0 then []
    else
      var i := (p - 1) * 4;
      var b := ToUint8Clamp(PixelLuma(s, i));
      GrayPrefix(s, p - 1) + [b, b, b, s[i + 3]]
  }

  lemma {:induction false} GrayPrefixBytes(s: seq<int>, p: nat)
    requires p * 4 <= |s| && |s| % 4 == 0
    ensures forall k :: 0 <= k < p * 4 ==> GrayPrefix(s, p)[k] == GrayByte(s, k)
  {
    if p > 0 {
      GrayPrefixBytes(s, p - 1);
      var i := (p - 1) * 4;
      GrayPixel(s, i, ToUint8Clamp(PixelLuma(s, i)));
    }
  }

  /** Writing `b` into the colour bytes of the pixel at `i` appends that pixel to the done prefix. */
  lemma WritePixel(before: seq<int>, after: seq<int>, s: seq<int>, i: nat, b: int)
    requires |before| == |s| && i + 4 <= |s| && before[i..] == s[i..]
    requires after == before[i := b][i + 1 := b][i + 2 := b]
    ensures after[..i + 4] == before[..i] + [b, b, b, s[i + 3]] && after[i + 4..] == s[i + 4..]
  {
    assert before[i + 3] == s[i + 3];
    assert forall k :: i + 4 <= k < |s| ==> after[k] == before[k] == s[k];
  }

  /** One more pixel of pass 1: its gray bytes are appended and its luma joins the range. */
  lemma GrayStep(s: seq<int>, p: nat, luma: real)
    requires (p + 1) * 4 <= |s| && luma == PixelLuma(s, p * 4)
    ensures GrayPrefix(s, p + 1) == GrayPrefix(s, p) + [ToUint8Clamp(luma), ToUint8Clamp(luma), ToUint8Clamp(luma), s[p * 4 + 3]]
    ensures MinLuma(s, p + 1) == if luma < MinLuma(s, p) then luma else MinLuma(s, p)
    ensures MaxLuma(s, p + 1) == if luma > MaxLuma(s, p) then luma else MaxLuma(s, p)
  {
    assert (p + 1 - 1) * 4 == p * 4;
  }

  /** One pixel of pass 1: its colour bytes become its luma, which is returned. */
  method GrayPixelInPlace(data: array<int>, i: nat, ghost s: seq<int>, ghost p: nat) returns (luma: real)
    requires i == p * 4 && i + 4 <= data.Length == |s|
    requires data[..i] == GrayPrefix(s, p) && data[i..] == s[i..]
    modifies data
    ensures luma == PixelLuma(s, i)
    ensures MinLuma(s, p + 1) == (if luma < MinLuma(s, p) then luma else MinLuma(s, p))
    ensures MaxLuma(s, p + 1) == (if luma > MaxLuma(s, p) then luma else MaxLuma(s, p))
    ensures data[..i + 4] == GrayPrefix(s, p + 1) && data[i + 4..] == s[i + 4..]
  {
    assert data[i] == s[i] && data[i + 1] == s[i + 1] && data[i + 2] == s[i + 2];
    luma := FrameAnalysis.Luma(data[i], data[i + 1], data[i + 2]);
    var b := ToUint8Clamp(luma);
    GrayStep(s, p, luma);
    ghost var before := data[..];
    data[i], data[i + 1], data[i + 2] := b, b, b;
    WritePixel(before, data[..], s, i, b);
  }

  /** Pass 1 of `enhanceImage`: grayscale in place, collecting the luma range. */
  method GrayPass(data: array<int>) returns (lo: real, hi: real)
    requires data.Length % 4 == 0
    modifies data
    ensures data[..] == Gray(old(data[..]))
    ensures lo == MinLuma(old(data[..]), data.Length / 4) && hi == MaxLuma(old(data[..]), data.Length / 4)
  {
    ghost var s := data[..];
    lo, hi := 255.0, 0.0;
    var i := 0;
    ghost var p := 0;
    while i < data.Length
      invariant i == p * 4 && i <= data.Length
      invariant lo == MinLuma(s, p) && hi == MaxLuma(s, p)
      invariant data[..i] == GrayPrefix(s, p) && data[i..] == s[i..]
    {
      var luma := GrayPixelInPlace(data, i, s, p);
      if luma < lo { lo := luma; }
      if luma > hi { hi := luma; }
      i, p := i + 4, p + 1;
    }
    assert p == data.Length / 4;
    GrayPrefixBytes(s, p);
    assert data[..] == data[..i];
  }

  /** The first `p` pixels with each colour byte replaced by `f` of its pixel's red byte. */
  function MapPrefix(g: seq<int>, f: int -> int, p: nat): (r: seq<int>)
    requires p * 4 <= |g|
    ensures |r| == p * 4
  {
    if p == 0 then []
    else
      var i := (p - 1) * 4;
      var b := f(g[i]);
      MapPrefix(g, f, p - 1) + [b, b, b, g[i + 3]]
  }

  lemma {:induction false} StretchPrefixBytes(g: seq<int>, lo: real, alpha: real, p: nat)
    requires p * 4 <= |g| && |g| % 4 == 0
    ensures forall k :: 0 <= k < p * 4 ==>
      MapPrefix(g, v => Stretched(v, lo, alpha), p)[k] == StretchByte(g, lo, alpha, k)
  {
    if p > 0 {
      StretchPrefixBytes(g, lo, alpha, p - 1);
      StretchPixel(g, lo, alpha, (p - 1) * 4);
    }
  }

  /** Pass 2 of `enhanceImage` with the stretch `f`, in place. */
  method MapPass(data: array<int>, f: int -> int)
    requires data.Length % 4 == 0
    modifies data
    ensures data[..] == MapPrefix(old(data[..]), f, data.Length / 4)
  {
    ghost var g := data[..];
    var i := 0;
    ghost var p := 0;
    while i < data.Length
      invariant i == p * 4 && i <= data.Length
      invariant data[..i] == MapPrefix(g, f, p) && data[i..] == g[i..]
    {
      assert data[i] == g[i];
      var b := f(data[i]);
      ghost var before := data[..];
      data[i], data[i + 1], data[i + 2] := b, b, b;
      WritePixel(before, data[..], g, i, b);
      i, p := i + 4, p + 1;
    }
    assert p == data.Length / 4;
    assert data[..] == data[..i];
  }

  method StretchPass(data: array<int>, lo: real, alpha: real)
    requires data.Length % 4 == 0
    modifies data
    ensures data[..] == StretchWith(old(data[..]), lo, alpha)
  {
    ghost var g := data[..];
    MapPass(data, v => Stretched(v, lo, alpha));
    StretchPrefixBytes(g, lo, alpha, data.Length / 4);
  }

  /** `enhanceImage`, rewriting the pixel buffer in place. */
  method EnhanceImage(data: array<int>)
    requires data.Length % 4 == 0
    modifies data
    ensures data[..] == Enhanced(old(data[..]))
  {
    ghost var s := data[..];
    var lo, hi := GrayPass(data);
    ghost var g := data[..];
    assert g == Gray(s) && lo == MinLuma(s, |s| / 4) && hi == MaxLuma(s, |s| / 4);
    var range := hi - lo;
    if range > 0.0 {
      var alpha := 255.0 / range;
      assert alpha == Alpha(lo, hi);
      StretchPass(data, lo, alpha);
      assert data[..] == Stretch(g, lo, hi);
    }
  }

  /* ---- Properties of the enhanced frame ---- */

  /** Every byte of the enhanced frame is a byte, and the alpha bytes are the original ones. */
  lemma EnhancedBytes(s: seq<int>, k: nat)
    requires |s| % 4 == 0 && k < |s|
    ensures k % 4 != 3 ==> 0 <= Enhanced(s)[k] <= 255
    ensures k % 4 == 3 ==> Enhanced(s)[k] == s[k]
  {
    assert Gray(s)[k] == GrayByte(s, k);
  }

  /** The enhanced frame is gray: the three colour bytes of each pixel are equal. */
  lemma EnhancedIsGray(s: seq<int>, k: nat)
    requires |s| % 4 == 0 && k < |s| && k % 4 != 3
    ensures Enhanced(s)[k] == Enhanced(s)[PixelStart(k)]
  {
    var g := Gray(s);
    var p := PixelStart(k);
    PixelStartOfStart(k);
    assert g[k] == GrayByte(s, k) && g[p] == GrayByte(s, p);
    var lo, hi := MinLuma(s, |s| / 4), MaxLuma(s, |s| / 4);
    if hi - lo > 0.0 {
      StretchWithAt(g, lo, Alpha(lo, hi), k);
      StretchWithAt(g, lo, Alpha(lo, hi), p);
    }
  }

  /** The first byte of a pixel starts its own pixel and is a colour byte. */
  lemma PixelStartOfStart(k: nat)
    ensures PixelStart(k) <= k && PixelStart(k) % 4 == 0 && PixelStart(PixelStart(k)) == PixelStart(k)
  {
    var q := k / 4;
    assert PixelStart(k) == q * 4;
  }

  /** A frame whose lumas are all equal is only converted to gray. */
  lemma EnhancedFlat(s: seq<int>)
    requires |s| % 4 == 0
    requires MaxLuma(s, |s| / 4) <= MinLuma(s, |s| / 4)
    ensures Enhanced(s) == Gray(s)
  {
  }

  /** Otherwise each colour byte is the stored stretch of its pixel's gray byte. */
  lemma EnhancedStretches(s: seq<int>, k: nat)
    requires |s| % 4 == 0 && k < |s| && k % 4 != 3
    requires MinLuma(s, |s| / 4) < MaxLuma(s, |s| / 4)
    ensures Enhanced(s)[k] == ToUint8Clamp(Remap(Gray(s)[PixelStart(k)] as real,
                                                 MinLuma(s, |s| / 4), MaxLuma(s, |s| / 4)))
  {
    var lo, hi := MinLuma(s, |s| / 4), MaxLuma(s, |s| / 4);
    StretchWithAt(Gray(s), lo, Alpha(lo, hi), k);
  }

  lemma StretchWithAt(g: seq<int>, lo: real, alpha: real, k: nat)
    requires k < |g| && k % 4 != 3
    ensures PixelStart(k) < |g|
    ensures StretchWith(g, lo, alpha)[k] == Stretched(g[PixelStart(k)], lo, alpha)
  {
  }

  /** The stretch sends the darkest luma to 0 and the brightest to 255, in order. */
  lemma RemapEnds(v: real, w: real, lo: real, hi: real)
    requires lo < hi
    ensures Remap(lo, lo, hi) == 0.0 && Remap(hi, lo, hi) == 255.0
    ensures v <= w ==> Remap(v, lo, hi) <= Remap(w, lo, hi)
    ensures lo <= v <= hi ==> 0.0 <= Remap(v, lo, hi) <= 255.0
  {
    var alpha := Alpha(lo, hi);
    assert (hi - lo) * alpha == 255.0;
    assert alpha > 0.0;
    assert Remap(lo, lo, hi) == 0.0 * alpha == 0.0;
    assert Remap(hi, lo, hi) == (hi - lo) * alpha;
    if v <= w {
      ScaleMonotone(v - lo, w - lo, alpha);
    }
    if lo <= v <= hi {
      ScaleMonotone(0.0, v - lo, alpha);
      ScaleMonotone(v - lo, hi - lo, alpha);
    }
  }

  /** Scaling by a positive factor keeps the order. */
  lemma ScaleMonotone(a: real, b: real, alpha: real)
    requires a <= b && alpha > 0.0
    ensures a * alpha <= b * alpha
  {
    assert b * alpha - a * alpha == (b - a) * alpha;
    FrameAnalysis.PositiveProduct(b - a, alpha);
  }

  /** Every pixel's luma lies between the minimum and the maximum gathered by pass 1. */
  lemma {:induction false} LumaWithinRange(s: seq<int>, n: nat, j: nat)
    requires n * 4 <= |s| && j < n
    ensures MinLuma(s, n) <= PixelLuma(s, j * 4) <= MaxLuma(s, n)
  {
    if j < n - 1 {
      LumaWithinRange(s, n - 1, j);
    }
  }

  /** A frame that is already gray is left as it is by pass 1. */
  lemma GrayIdempotent(s: seq<int>)
    requires |s| % 4 == 0
    ensures Gray(Gray(s)) == Gray(s)
  {
    var g := Gray(s);
    forall k | 0 <= k < |s|
      ensures GrayByte(g, k) == g[k]
    {
      if k % 4 != 3 {
        var i := PixelStart(k);
        var b := ToUint8Clamp(PixelLuma(s, i));
        GrayPixel(s, i, b);
        assert g[i] == b && g[i + 1] == b && g[i + 2] == b;
        GrayPixelFixed(g, i);
        assert k == i || k == i + 1 || k == i + 2;
      }
    }
  }

  /** The colour bytes of a pixel that is already one gray byte stay as they are. */
  lemma GrayPixelFixed(g: seq<int>, i: nat)
    requires |g| % 4 == 0 && i % 4 == 0 && i < |g|
    requires i + 2 < |g| && g[i + 1] == g[i] && g[i + 2] == g[i] && 0 <= g[i] <= 255
    ensures GrayByte(g, i) == g[i] && GrayByte(g, i + 1) == g[i] && GrayByte(g, i + 2) == g[i]
  {
    var b := g[i];
    assert PixelLuma(g, i) == b as real;
    assert ToUint8Clamp(b as real) == b;
    GrayPixel(g, i, b);
  }

  /* ---- The burst capture ---- */

  /** `handleCapture` takes three shots. */
  const BurstSize: nat := 3

  /** Every shot is a `w` by `h` RGBA frame. */
  predicate FramesOf(shots: seq<seq<int>>, w: nat, h: nat) {
    forall i :: 0 <= i < |shots| ==> |shots[i]| == w * h * 4
  }

  /** The shots with their scores, in the order they were taken. */
  function Scored(shots: seq<seq<int>>, w: nat, h: nat): (r: seq<Shot>)
    requires FramesOf(shots, w, h)
    ensures |r| == |shots|
  {
    seq(|shots|, i requires 0 <= i < |shots| => Shot(Score(shots[i], w, h), shots[i]))
  }

  /** `frames[0]` after sorting: the shot that is enhanced, the size of every shot. */
  function BestShot(shots: seq<seq<int>>, w: nat, h: nat): (r: seq<int>)
    requires FramesOf(shots, w, h) && |shots| > 0
    ensures |r| == w * h * 4
  {
    var xs := Scored(shots, w, h);
    var sorted := SortByScore(xs);
    assert |sorted| == |xs| by {
      assert |multiset(sorted)| == |multiset(xs)|;
    }
    assert sorted[0] in multiset(xs) by {
      assert sorted[0] in multiset(sorted);
    }
    var i :| 0 <= i < |xs| && xs[i] == sorted[0];
    sorted[0].image
  }

  /** The enhanced shot is one of the burst, scores highest, and no earlier shot scores as high. */
  lemma BestShotIsEarliestBest(shots: seq<seq<int>>, w: nat, h: nat)
    requires FramesOf(shots, w, h) && |shots| > 0
    ensures exists k :: (0 <= k < |shots| && BestShot(shots, w, h) == shots[k]
      && (forall j :: 0 <= j < |shots| ==> Score(shots[j], w, h) <= Score(shots[k], w, h))
      && (forall j :: 0 <= j < k ==> Score(shots[j], w, h) < Score(shots[k], w, h)))
  {
    var xs := Scored(shots, w, h);
    SortHeadIsEarliestBest(xs);
    var best := SortByScore(xs)[0];
    var k :| 0 <= k < |xs| && best == xs[k] && forall j :: 0 <= j < k ==> xs[j].score < xs[k].score;
    assert BestShot(shots, w, h) == best.image;
    ScoredBest(shots, w, h, xs, k);
  }

  /** What holds of the scored shots at `k` holds of the shots and their scores. */
  lemma ScoredBest(shots: seq<seq<int>>, w: nat, h: nat, xs: seq<Shot>, k: nat)
    requires FramesOf(shots, w, h) && |xs| == |shots| && k < |xs|
    requires forall i :: 0 <= i < |xs| ==> xs[i] == Shot(Score(shots[i], w, h), shots[i])
    requires forall j :: 0 <= j < |xs| ==> xs[j].score <= xs[k].score
    requires forall j :: 0 <= j < k ==> xs[j].score < xs[k].score
    ensures xs[k].image == shots[k]
    ensures forall j :: 0 <= j < |shots| ==> Score(shots[j], w, h) <= Score(shots[k], w, h)
    ensures forall j :: 0 <= j < k ==> Score(shots[j], w, h) < Score(shots[k], w, h)
  {
    forall j | 0 <= j < |shots|
      ensures Score(shots[j], w, h) <= Score(shots[k], w, h)
    {
      assert xs[j].score <= xs[k].score;
    }
  }

  /** Each shot drawn onto the canvas and scored, in the order taken. */
  method ScoreBurst(shots: seq<seq<int>>, w: nat, h: nat) returns (frames: seq<Shot>)
    requires |shots| == BurstSize && FramesOf(shots, w, h)
    ensures frames == Scored(shots, w, h)
  {
    frames := [];
    var i := 0;
    while i < BurstSize
      invariant 0 <= i <= BurstSize
      invariant frames == Scored(shots[..i], w, h)
    {
      var canvas := new int[w * h * 4](k requires 0 <= k < w * h * 4 => shots[i][k]);
      assert canvas[..] == shots[i];
      var score := FrameScore(canvas, w, h);
      frames := frames + [Shot(score, shots[i])];
      i := i + 1;
    }
    assert shots[..i] == shots;
  }

  /**
   * The burst of `handleCapture`: the shots scored, sorted by score, and the best one
   * drawn again and enhanced.
   */
  method BurstCapture(shots: seq<seq<int>>, w: nat, h: nat) returns (image: seq<int>)
    requires |shots| == BurstSize && FramesOf(shots, w, h)
    ensures image == Enhanced(BestShot(shots, w, h))
  {
    var frames := ScoreBurst(shots, w, h);
    var sorted := SortByScore(frames);
    assert |multiset(sorted)| == |multiset(frames)|;
    var best := sorted[0];
    assert best.image == BestShot(shots, w, h);
    var canvas := new int[|best.image|](k requires 0 <= k < |best.image| => best.image[k]);
    assert canvas[..] == best.image;
    EnhanceImage(canvas);
    image := canvas[..];
  }
}

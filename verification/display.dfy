/**
 * The drawing vocabulary shared by both copies of the OLED class: the
 * 128 x 32 panel, the draw calls made on the image buffer, the rectangle
 * layer of the picture they produce, and the time-series pipeline of
 * draw_timeseries (strided subsampling, the last-128 window, the peak
 * rescaling applied in place, and the polyline through the window).
 */
module Display {
  import opened Common

  /** Panel size in pixels. */
  const Width: int := 128
  const Height: int := 32

  /** The four fonts the class loads: PIL's default and DejaVuSans at 8, 10 and 16 pt. */
  datatype Font = DefaultFont | SmallFont | MediumFont | LargeFont

  /**
   * The font argument of draw_text: None, the name "large", "medium" or
   * "small", any other name, or a font object.
   */
  datatype FontArg = NoFont | Named(name: string) | Given(font: Font)

  /** The pos argument of draw_text; any other string draws no text. */
  datatype Pos = Center | TopRight | Elsewhere

  /** A text extent in pixels, as the image's textsize reports it. */
  datatype Size = Size(width: nat, height: nat)

  /** One call on the ImageDraw object. Coordinates of a line may be fractional. */
  datatype DrawOp =
    | Rect(x0: int, y0: int, x1: int, y1: int, outline: int, fill: int)
    | Line(lx0: int, ly0: real, lx1: int, ly1: real, ink: int)
    | Text(tx: int, ty: int, caption: Label, face: Font, color: int)

  /**
   * draw_text's font selection: None gives the default font, the three
   * names give the loaded fonts, a font object is used as it is. Any other
   * name is passed on unchanged and textsize then fails; that is None here.
   */
  function ResolveFont(arg: FontArg): (r: Option<Font>)
    ensures r.None? <==> arg.Named? && arg.name != "large" && arg.name != "medium" && arg.name != "small"
    ensures arg.NoFont? ==> r == Some(DefaultFont)
    ensures arg.Given? ==> r == Some(arg.font)
    ensures arg == Named("large") ==> r == Some(LargeFont)
    ensures arg == Named("medium") ==> r == Some(MediumFont)
    ensures arg == Named("small") ==> r == Some(SmallFont)
  {
    match arg
    case NoFont => Some(DefaultFont)
    case Given(f) => Some(f)
    case Named(name) =>
      if name == "large" then Some(LargeFont)
      else if name == "medium" then Some(MediumFont)
      else if name == "small" then Some(SmallFont)
      else None
  }

  // ---------------------------------------------------------------------
  // The rectangle layer of the picture

  predicate OnScreen(x: int, y: int) {
    0 <= x < Width && 0 <= y < Height
  }

  predicate Covers(op: DrawOp, x: int, y: int)
    requires op.Rect?
  {
    op.x0 <= x <= op.x1 && op.y0 <= y <= op.y1
  }

  /** A rectangle paints its border with the outline colour and its inside with the fill colour. */
  function RectShade(op: DrawOp, x: int, y: int): int
    requires op.Rect?
  {
    if x == op.x0 || x == op.x1 || y == op.y0 || y == op.y1 then op.outline else op.fill
  }

  /**
   * The colour of pixel (x, y) after the draw calls ops on a new (black)
   * image, where the rectangles determine it: the last rectangle covering
   * the pixel decides, unless a line or a glyph was drawn after it, whose
   * pixels depend on rendering and are unknown (None).
   */
  function Pixel(ops: seq<DrawOp>, x: int, y: int): Option<int>
    decreases |ops|
  {
    if |ops| == 0 then Some(0)
    else
      var last := ops[|ops| - 1];
      if !last.Rect? then None
      else if Covers(last, x, y) then Some(RectShade(last, x, y))
      else Pixel(ops[..|ops| - 1], x, y)
  }

  /** clear_display: a black rectangle over the panel, twice its height. */
  const ClearOp: DrawOp := Rect(0, 0, Width, Height * 2, 0, 0)

  /** Whatever was drawn before, clearing leaves every pixel of the panel black. */
  lemma ClearBlanksPanel(ops: seq<DrawOp>, x: int, y: int)
    requires OnScreen(x, y)
    ensures Pixel(ops + [ClearOp], x, y) == Some(0)
  {
  }

  /**
   * The frame: a white rectangle over the whole panel, then a black one
   * inset by border on every side.
   */
  function FrameOps(border: int): (r: seq<DrawOp>)
    ensures |r| == 2 && r[0].Rect? && r[1].Rect?
  {
    [Rect(0, 0, Width, Height, 255, 255),
     Rect(border, border, Width - border - 1, Height - border - 1, 0, 0)]
  }

  /**
   * After the frame, a panel pixel is white exactly when it lies within
   * border pixels of an edge, whatever was drawn before.
   */
  lemma {:induction false} FrameIsBorder(ops: seq<DrawOp>, border: int, x: int, y: int)
    requires OnScreen(x, y)
    ensures Pixel(ops + FrameOps(border), x, y)
            == Some(if border <= x < Width - border && border <= y < Height - border then 0 else 255)
  {
    var all := ops + FrameOps(border);
    assert all[..|all| - 1] == ops + [FrameOps(border)[0]];
  }

  // ---------------------------------------------------------------------
  // Text placement

  /** Centred text: (width//2 - w//2, height//2 - h//2). */
  function CenterAnchor(size: Size): (p: (int, int))
    ensures 0 <= p.0 - (Width - (p.0 + size.width)) <= 1
    ensures 0 <= p.1 - (Height - (p.1 + size.height)) <= 1
  {
    (Width / 2 - size.width / 2, Height / 2 - size.height / 2)
  }

  /** The draw calls draw_text makes before measuring: the optional clear, then the optional frame. */
  function Preamble(clearDisplay: bool, frame: Option<int>): (r: seq<DrawOp>)
    ensures |r| == (if clearDisplay then 1 else 0) + (if frame.Some? then 2 else 0)
    ensures forall i :: 0 <= i < |r| ==> r[i].Rect?
  {
    (if clearDisplay then [ClearOp] else []) + (if frame.Some? then FrameOps(frame.value) else [])
  }

  /** The text call itself, in white at the anchor, if there is one. */
  function Glyphs(text: Label, font: Font, at: Option<(int, int)>): (r: seq<DrawOp>)
    ensures |r| == if at.Some? then 1 else 0
    ensures |r| == 1 ==> r[0].Text? && r[0].caption == text && r[0].face == font && at == Some((r[0].tx, r[0].ty))
  {
    match at
    case None => []
    case Some(p) => [Text(p.0, p.1, text, font, 255)]
  }

  /** A frame drawn by draw_text is what the picture's rectangle layer shows, cleared or not. */
  lemma FramedText(ops: seq<DrawOp>, clearDisplay: bool, border: int, x: int, y: int)
    requires OnScreen(x, y)
    ensures Pixel(ops + Preamble(clearDisplay, Some(border)), x, y)
            == Some(if border <= x < Width - border && border <= y < Height - border then 0 else 255)
  {
    if clearDisplay {
      assert ops + Preamble(clearDisplay, Some(border)) == (ops + [ClearOp]) + FrameOps(border);
      FrameIsBorder(ops + [ClearOp], border, x, y);
    } else {
      assert ops + Preamble(clearDisplay, Some(border)) == ops + FrameOps(border);
      FrameIsBorder(ops, border, x, y);
    }
  }

  // ---------------------------------------------------------------------
  // The plotted window

  /** Subsampling stride: len // 128 when that exceeds 1, otherwise every point. */
  function Stride(len: nat): (s: nat)
    ensures s >= 1
    ensures s > 1 <==> len / Width > 1
    ensures s > 1 ==> s == len / Width
  {
    if len / Width > 1 then len / Width else 1
  }

  /** data[::k]: every k-th point, starting with the first. */
  function Strided(s: seq<real>, k: nat): seq<real>
    requires k >= 1
    decreases |s|
  {
    if |s| == 0 then []
    else if |s| <= k then [s[0]]
    else [s[0]] + Strided(s[k..], k)
  }

  /**
   * a * k, by repeated addition. Keeping the product behind a recursive
   * definition lets the index arithmetic below stay linear.
   */
  function Mul(a: nat, k: nat): nat
    decreases a
  {
    if a == 0 then 0 else Mul(a - 1, k) + k
  }

  lemma {:induction false} MulIsProduct(a: nat, k: nat)
    ensures Mul(a, k) == a * k
    decreases a
  {
    if a > 0 {
      MulIsProduct(a - 1, k);
      assert (a - 1) * k + k == a * k;
    }
  }

  /** len(data[::k]) for len(data) == len: the number of multiples of k below len. */
  function StridedCount(len: nat, k: nat): (c: nat)
    requires k >= 1
    ensures len > 0 ==> c > 0
    decreases len
  {
    if len == 0 then 0 else if len <= k then 1 else 1 + StridedCount(len - k, k)
  }

  /** Point i of the strided data is s[i * k], and exactly the multiples of k below |s| are taken. */
  lemma {:induction false} StridedIndexing(s: seq<real>, k: nat)
    requires k >= 1
    ensures |Strided(s, k)| == StridedCount(|s|, k)
    ensures forall i :: 0 <= i < |Strided(s, k)| ==> Mul(i, k) < |s| && Strided(s, k)[i] == s[Mul(i, k)]
    ensures forall i: nat :: Mul(i, k) < |s| ==> i < |Strided(s, k)|
    decreases |s|
  {
    if |s| == 0 {
    } else if |s| <= k {
    } else {
      StridedIndexing(s[k..], k);
      var t := Strided(s[k..], k);
      forall i | 1 <= i < |Strided(s, k)|
        ensures Mul(i, k) < |s| && Strided(s, k)[i] == s[Mul(i, k)]
      {
        assert Strided(s, k)[i] == t[i - 1];
      }
      forall i: nat | Mul(i, k) < |s|
        ensures i < |Strided(s, k)|
      {
        if i >= 1 {
          assert Mul(i - 1, k) < |s[k..]|;
        }
      }
    }
  }

  /** data[-w:]: the last w points, or all of them when there are fewer. */
  function Tail(s: seq<real>, w: nat): (r: seq<real>)
    ensures |r| == if |s| <= w then |s| else w
    ensures r == s[|s| - |r|..]
  {
    if |s| <= w then s else s[|s| - w..]
  }

  /** The points draw_timeseries plots: the last 128 of the strided data. */
  function View(s: seq<real>): (r: seq<real>)
    ensures |r| <= Width
    ensures |s| > 0 ==> |r| > 0
    ensures |r| <= |Strided(s, Stride(|s|))|
    ensures var t := Strided(s, Stride(|s|)); r == t[|t| - |r|..]
  {
    Tail(Strided(s, Stride(|s|)), Width)
  }

  /** Index, within the strided points, of the first plotted one. */
  function ViewStart(len: nat): nat {
    var c := StridedCount(len, Stride(len));
    if c > Width then c - Width else 0
  }

  /** Number of plotted points. */
  function ViewLength(len: nat): nat {
    StridedCount(len, Stride(len)) - ViewStart(len)
  }

  /** Position in the caller's array of plotted point j. */
  function ViewIndex(len: nat, j: nat): nat {
    Mul(ViewStart(len) + j, Stride(len))
  }

  /** The positions in the caller's array of all plotted points, in order. */
  function ViewIndices(len: nat): seq<nat> {
    seq(ViewLength(len), j requires 0 <= j < ViewLength(len) => ViewIndex(len, j))
  }

  /** The window is a view of the caller's array: point j is element ViewIndex(len, j). */
  lemma ViewAt(s: seq<real>, j: nat)
    requires j < |View(s)|
    ensures |View(s)| == ViewLength(|s|)
    ensures ViewIndex(|s|, j) < |s|
    ensures View(s)[j] == s[ViewIndex(|s|, j)]
  {
    ViewLengthOf(s);
    ViewPoint(s, j);
    StridedPoint(s, Stride(|s|), ViewStart(|s|) + j);
  }

  /** Plotted point j is strided point ViewStart + j. */
  lemma ViewPoint(s: seq<real>, j: nat)
    requires j < |View(s)|
    ensures ViewStart(|s|) + j < |Strided(s, Stride(|s|))|
    ensures View(s)[j] == Strided(s, Stride(|s|))[ViewStart(|s|) + j]
  {
    ViewShape(s);
  }

  /** Point i of the strided data, on its own. */
  lemma StridedPoint(s: seq<real>, k: nat, i: nat)
    requires k >= 1 && i < |Strided(s, k)|
    ensures Mul(i, k) < |s| && Strided(s, k)[i] == s[Mul(i, k)]
  {
    StridedIndexing(s, k);
  }

  /** The window is the strided data from index ViewStart on. */
  lemma ViewShape(s: seq<real>)
    ensures ViewStart(|s|) <= |Strided(s, Stride(|s|))|
    ensures View(s) == Strided(s, Stride(|s|))[ViewStart(|s|)..]
  {
    var t := Strided(s, Stride(|s|));
    StridedIndexing(s, Stride(|s|));
    assert |t| == StridedCount(|s|, Stride(|s|));
  }

  lemma ViewLengthOf(s: seq<real>)
    ensures |View(s)| == ViewLength(|s|)
  {
    StridedIndexing(s, Stride(|s|));
  }

  /** Later plotted points sit further right in the caller's array. */
  lemma {:induction false} ViewIndexIncreasing(len: nat, i: nat, j: nat)
    requires i < j
    ensures ViewIndex(len, i) < ViewIndex(len, j)
    decreases j - i
  {
    if i < j - 1 {
      ViewIndexIncreasing(len, i, j - 1);
    }
  }

  // ---------------------------------------------------------------------
  // Peak scaling

  /** max(data), scanning from the front. */
  function Peak(w: seq<real>): (m: real)
    requires |w| > 0
    ensures exists i :: 0 <= i < |w| && w[i] == m
    ensures forall i :: 0 <= i < |w| ==> w[i] <= m
  {
    if |w| == 1 then w[0]
    else
      var m' := Peak(w[..|w| - 1]);
      assert forall i :: 0 <= i < |w| - 1 ==> w[..|w| - 1][i] == w[i];
      if w[|w| - 1] > m' then w[|w| - 1] else m'
  }

  /** Full 32-pixel height for a peak above the noise level 20, else a third of it. */
  function ScaleFactor(m: real): real {
    if m > 20.0 then Height as real else Height as real / 3.0
  }

  /** One point after data /= m and data *= factor. */
  function ScaledPoint(v: real, m: real): real
    requires m != 0.0
  {
    v / m * ScaleFactor(m)
  }

  lemma RatioBounds(v: real, m: real)
    requires m > 0.0 && 0.0 <= v <= m
    ensures 0.0 <= v / m <= 1.0
  {
    assert v / m * m == v;
  }

  /**
   * With a positive peak, the peak maps to the full scale (32 or 32/3) and
   * every non-negative point lands between 0 and that scale.
   */
  lemma PeakScaling(w: seq<real>)
    requires |w| > 0 && Peak(w) > 0.0
    ensures ScaledPoint(Peak(w), Peak(w)) == ScaleFactor(Peak(w))
    ensures forall i :: 0 <= i < |w| && w[i] >= 0.0 ==>
              0.0 <= ScaledPoint(w[i], Peak(w)) <= ScaleFactor(Peak(w))
  {
    var m := Peak(w);
    assert m / m == 1.0;
    forall i | 0 <= i < |w| && w[i] >= 0.0
      ensures 0.0 <= ScaledPoint(w[i], m) <= ScaleFactor(m)
    {
      RatioBounds(w[i], m);
    }
  }

  /**
   * The caller's array after the in-place rescaling: every element the
   * window views is scaled by the window's peak, every other element is
   * left as it was.
   */
  function Rescaled(s: seq<real>): (r: seq<real>)
    requires |s| > 0 && Peak(View(s)) != 0.0
    ensures |r| == |s|
    ensures forall i :: 0 <= i < |s| && i !in ViewIndices(|s|) ==> r[i] == s[i]
  {
    ScaledAt(s, ViewIndices(|s|), Peak(View(s)))
  }

  /** s with every element at an index listed in p scaled by the peak m. */
  function ScaledAt(s: seq<real>, p: seq<nat>, m: real): (r: seq<real>)
    requires m != 0.0
    ensures |r| == |s|
    ensures forall i :: 0 <= i < |s| ==> r[i] == if i in p then ScaledPoint(s[i], m) else s[i]
  {
    seq(|s|, i requires 0 <= i < |s| => if i in p then ScaledPoint(s[i], m) else s[i])
  }

  /** The window of the rescaled array is the scaled window of the original. */
  lemma {:induction false} RescaledView(s: seq<real>)
    requires |s| > 0 && Peak(View(s)) != 0.0
    ensures |View(Rescaled(s))| == |View(s)|
    ensures forall j :: 0 <= j < |View(s)| ==>
              View(Rescaled(s))[j] == ScaledPoint(View(s)[j], Peak(View(s)))
  {
    var r := Rescaled(s);
    ViewLengthOf(s);
    ViewLengthOf(r);
    forall j | 0 <= j < |View(s)|
      ensures View(r)[j] == ScaledPoint(View(s)[j], Peak(View(s)))
    {
      ViewAt(s, j);
      ViewAt(r, j);
      assert ViewIndices(|s|)[j] == ViewIndex(|s|, j);
    }
  }

  /** What the in-place rescaling did: nothing (empty data, zero peak) or a rescaling by this peak. */
  datatype ScaleOutcome = EmptyData | ZeroPeak | Scaled(peak: real)

  /** The peak of the window, read through the caller's array. */
  method WindowPeak(a: array<real>) returns (m: real)
    requires a.Length > 0
    ensures m == Peak(View(a[..]))
  {
    ghost var s := a[..];
    ghost var w := View(s);
    var len := a.Length;
    var n := ViewLength(len);
    ViewLengthOf(s);
    ViewAt(s, 0);
    m := a[ViewIndex(len, 0)];
    ghost var at := 0;
    var j := 1;
    while j < n
      invariant 1 <= j <= n && n == |w|
      invariant at < j && w[at] == m
      invariant forall k :: 0 <= k < j ==> w[k] <= m
    {
      ViewAt(s, j);
      var v := a[ViewIndex(len, j)];
      if v > m {
        m := v;
        at := j;
      }
      j := j + 1;
    }
    PeakIsMaximum(w, m, at);
  }

  /** A point at least as large as every point is the peak. */
  lemma PeakIsMaximum(w: seq<real>, m: real, at: nat)
    requires at < |w| && w[at] == m
    requires forall k :: 0 <= k < |w| ==> w[k] <= m
    ensures Peak(w) == m
  {
  }

  /** One element after data /= d (mul false) or data *= d (mul true). */
  function Op(v: real, d: real, mul: bool): real
    requires !mul ==> d != 0.0
  {
    if mul then v * d else v / d
  }

  /** s with Op applied at every index listed in p. */
  function Applied(s: seq<real>, p: seq<nat>, d: real, mul: bool): (r: seq<real>)
    requires !mul ==> d != 0.0
    ensures |r| == |s|
    ensures forall i :: 0 <= i < |s| && i !in p ==> r[i] == s[i]
  {
    seq(|s|, i requires 0 <= i < |s| => if i in p then Op(s[i], d, mul) else s[i])
  }

  /** The array after one pass that divides (or multiplies) every viewed element by d. */
  function WindowApplied(s: seq<real>, d: real, mul: bool): (r: seq<real>)
    requires !mul ==> d != 0.0
    ensures |r| == |s|
  {
    Applied(s, ViewIndices(|s|), d, mul)
  }

  /** Dividing by the peak and then multiplying by the factor is the rescaling. */
  lemma TwoPassesRescale(s: seq<real>)
    requires |s| > 0 && Peak(View(s)) != 0.0
    ensures var m := Peak(View(s));
            WindowApplied(WindowApplied(s, m, false), ScaleFactor(m), true) == Rescaled(s)
  {
    var m := Peak(View(s));
    var u := WindowApplied(WindowApplied(s, m, false), ScaleFactor(m), true);
    forall i | 0 <= i < |s|
      ensures u[i] == Rescaled(s)[i]
    {
      TwoPassesAt(s, i);
    }
  }

  lemma TwoPassesAt(s: seq<real>, i: nat)
    requires |s| > 0 && Peak(View(s)) != 0.0 && i < |s|
    ensures var m := Peak(View(s));
            WindowApplied(WindowApplied(s, m, false), ScaleFactor(m), true)[i] == Rescaled(s)[i]
  {
    var m := Peak(View(s));
    var p := ViewIndices(|s|);
    var mid := WindowApplied(s, m, false);
    assert mid == Applied(s, p, m, false);
    assert WindowApplied(mid, ScaleFactor(m), true) == Applied(mid, p, ScaleFactor(m), true);
    AppliedTwice(s, p, m, ScaleFactor(m), i);
    OpsScale(s[i], m);
  }

  /** Dividing one point by the peak and multiplying it by the factor scales it. */
  lemma OpsScale(v: real, m: real)
    requires m != 0.0
    ensures Op(Op(v, m, false), ScaleFactor(m), true) == ScaledPoint(v, m)
  {
  }

  /** A division pass and then a multiplication pass over the same indices, at one element. */
  lemma AppliedTwice(s: seq<real>, p: seq<nat>, d: real, e: real, i: nat)
    requires d != 0.0 && i < |s|
    ensures Applied(Applied(s, p, d, false), p, e, true)[i] == if i in p then Op(Op(s[i], d, false), e, true) else s[i]
  {
  }

  /** Treating one more, not yet treated, index is one array update. */
  lemma AppliedStep(s: seq<real>, p: seq<nat>, at: nat, d: real, mul: bool)
    requires !mul ==> d != 0.0
    requires at < |s| && at !in p
    ensures Applied(s, p + [at], d, mul) == Applied(s, p, d, mul)[at := Op(s[at], d, mul)]
  {
    var u := Applied(s, p + [at], d, mul);
    var v := Applied(s, p, d, mul)[at := Op(s[at], d, mul)];
    forall i | 0 <= i < |s|
      ensures u[i] == v[i]
    {
      assert i in p + [at] <==> i in p || i == at;
    }
  }

  /** A prefix one longer is the prefix followed by the next element. */
  lemma PrefixStep(p: seq<nat>, j: nat)
    requires j < |p|
    ensures p[..j + 1] == p[..j] + [p[j]]
  {
  }

  /** Plotted point j sits at an index no earlier point uses. */
  lemma FreshIndex(len: nat, j: nat)
    requires j < ViewLength(len)
    ensures ViewIndex(len, j) !in ViewIndices(len)[..j]
  {
    var idx := ViewIndices(len);
    forall p | 0 <= p < j
      ensures idx[p] != ViewIndex(len, j)
    {
      ViewIndexIncreasing(len, p, j);
    }
  }

  /**
   * One in-place pass over the window, a[ViewIndex(j)] := g(a[ViewIndex(j)])
   * for every plotted point j, with g dividing by d when mul is false and
   * multiplying by d when it is true.
   */
  method ScaleWindow(a: array<real>, d: real, mul: bool)
    requires a.Length > 0
    requires !mul ==> d != 0.0
    modifies a
    ensures a[..] == WindowApplied(old(a[..]), d, mul)
  {
    ghost var s := a[..];
    var len := a.Length;
    var n := ViewLength(len);
    ghost var idx := ViewIndices(len);
    ViewLengthOf(s);
    var j := 0;
    while j < n
      invariant 0 <= j <= n
      invariant a[..] == Applied(s, idx[..j], d, mul)
    {
      ViewAt(s, j);
      var at := ViewIndex(len, j);
      FreshIndex(len, j);
      AppliedStep(s, idx[..j], at, d, mul);
      assert idx[j] == at;
      PrefixStep(idx, j);
      ghost var before := a[..];
      assert a[at] == s[at];
      a[at] := Op(a[at], d, mul);
      assert a[..] == before[at := Op(s[at], d, mul)];
      j := j + 1;
    }
    assert idx[..n] == idx;
  }

  /**
   * The rescaling statements of draw_timeseries on the caller's array:
   * the peak of the window, then data /= peak and data *= factor on the
   * elements the window views. max of an empty window raises; a zero peak
   * would make every point NaN and is reported without changing the data.
   */
  method ScaleInPlace(a: array<real>) returns (outcome: ScaleOutcome)
    modifies a
    ensures a.Length == 0 <==> outcome == EmptyData
    ensures a.Length > 0 ==> (outcome == ZeroPeak <==> Peak(View(old(a[..]))) == 0.0)
    ensures outcome.Scaled? ==> a.Length > 0 && outcome.peak == Peak(View(old(a[..])))
    ensures outcome.Scaled? ==> a[..] == Rescaled(old(a[..]))
    ensures !outcome.Scaled? ==> a[..] == old(a[..])
  {
    if a.Length == 0 {
      return EmptyData;
    }
    ghost var s := a[..];
    var m := WindowPeak(a);
    if m == 0.0 {
      return ZeroPeak;
    }
    ScaleWindow(a, m, false);
    ScaleWindow(a, ScaleFactor(m), true);
    TwoPassesRescale(s);
    outcome := Scaled(m);
  }

  // ---------------------------------------------------------------------
  // The polyline

  /** Segment x joins point x at height 32 - d[x] to point x + 1. */
  function Segment(d: seq<real>, x: nat): DrawOp
    requires x + 1 < |d|
  {
    Line(x, Height as real - d[x], x + 1, Height as real - d[x + 1], 1)
  }

  /** The draw.line calls of draw_timeseries: one segment per neighbouring pair of points. */
  function Polyline(d: seq<real>): (r: seq<DrawOp>)
    ensures |r| == if |d| == 0 then 0 else |d| - 1
    ensures forall x :: 0 <= x < |r| ==> r[x].Line? && r[x].lx0 == x && r[x].lx1 == x + 1
  {
    if |d| <= 1 then [] else seq(|d| - 1, x requires 0 <= x < |d| - 1 => Segment(d, x))
  }

  /** Neighbouring segments meet: the line is connected. */
  lemma PolylineJoins(d: seq<real>, x: nat)
    requires x + 1 < |Polyline(d)|
    ensures Polyline(d)[x].lx1 == Polyline(d)[x + 1].lx0
    ensures Polyline(d)[x].ly1 == Polyline(d)[x + 1].ly0
    ensures Polyline(d)[x].ly0 == Height as real - d[x]
  {
  }

  /**
   * Plotting non-negative data whose window has a positive peak keeps the
   * whole line on the panel: every end point has a height in [0, 32].
   */
  lemma {:induction false} PlotStaysOnScreen(s: seq<real>)
    requires |s| > 0 && Peak(View(s)) > 0.0
    requires forall i :: 0 <= i < |s| ==> s[i] >= 0.0
    ensures var p := Polyline(View(Rescaled(s)));
            forall x :: 0 <= x < |p| ==> 0.0 <= p[x].ly0 <= Height as real && 0.0 <= p[x].ly1 <= Height as real
  {
    var d := View(Rescaled(s));
    forall j | 0 <= j < |d|
      ensures 0.0 <= d[j] <= Height as real
    {
      RescaledPointOnScreen(s, j);
    }
    PolylineHeights(d);
  }

  /** One plotted point of non-negative rescaled data lies between 0 and the panel height. */
  lemma RescaledPointOnScreen(s: seq<real>, j: nat)
    requires |s| > 0 && Peak(View(s)) > 0.0
    requires forall i :: 0 <= i < |s| ==> s[i] >= 0.0
    requires j < |View(Rescaled(s))|
    ensures 0.0 <= View(Rescaled(s))[j] <= Height as real
  {
    var w := View(s);
    var m := Peak(w);
    RescaledView(s);
    ViewAt(s, j);
    assert View(Rescaled(s))[j] == ScaledPoint(w[j], m);
    assert 0.0 <= w[j] <= m;
    PointScaling(w[j], m);
  }

  /** A point between 0 and a positive peak scales to between 0 and the factor, which is at most the height. */
  lemma PointScaling(v: real, m: real)
    requires m > 0.0 && 0.0 <= v <= m
    ensures 0.0 <= ScaledPoint(v, m) <= ScaleFactor(m) <= Height as real
  {
    RatioBounds(v, m);
  }

  /** Points between 0 and the panel height give segment ends between 0 and the panel height. */
  lemma PolylineHeights(d: seq<real>)
    requires forall j :: 0 <= j < |d| ==> 0.0 <= d[j] <= Height as real
    ensures var p := Polyline(d);
            forall x :: 0 <= x < |p| ==> 0.0 <= p[x].ly0 <= Height as real && 0.0 <= p[x].ly1 <= Height as real
  {
    var p := Polyline(d);
    forall x | 0 <= x < |p|
      ensures 0.0 <= p[x].ly0 <= Height as real && 0.0 <= p[x].ly1 <= Height as real
    {
      assert p[x] == Segment(d, x);
    }
  }
}

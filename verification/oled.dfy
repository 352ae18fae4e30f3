/**
 * The OLED class of the top-level OLED.py, an older copy of the display
 * class. It differs from the driver copy in three ways: top-right text
 * sits flush with the corner, draw_text clears by default and always
 * pushes the picture, and the frame is drawn inline by draw_text (there is
 * no draw_frame and no draw_display).
 */
module Oled {
  import opened Common
  import opened Display

  /** Top-right text: its right edge on the panel's, its top on the panel's. */
  function TopRightAnchor(size: Size): (p: (int, int))
    ensures p.0 + size.width == Width && p.1 == 0
  {
    (Width - size.width, 0)
  }

  /** Where draw_text puts the text: centred, top right, or nowhere for any other pos. */
  function Anchor(pos: Pos, size: Size): (p: Option<(int, int)>)
    ensures p.None? <==> pos.Elsewhere?
    ensures pos.Center? ==> p == Some(CenterAnchor(size))
    ensures pos.TopRight? ==> p == Some(TopRightAnchor(size))
  {
    match pos
    case Center => Some(CenterAnchor(size))
    case TopRight => Some(TopRightAnchor(size))
    case Elsewhere => None
  }

  class Oled {
    /** The image's textsize for each text and font. */
    const measure: (Label, Font) -> Size
    /** The draw calls made on the image since it was created. */
    var image: seq<DrawOp>
    /** Every picture pushed to the panel, oldest first. */
    var shown: seq<seq<DrawOp>>

    /** What draw_timeseries draws after rescaling: clear, polyline, then the caption at the top right. */
    function PlotOps(d: seq<real>, text: Option<Label>, clearDisplay: bool): (r: seq<DrawOp>)
      ensures |r| == (if clearDisplay then 1 else 0) + |Polyline(d)| + (if text.Some? then 1 else 0)
    {
      (if clearDisplay then [ClearOp] else []) + Polyline(d)
      + (if text.Some? then Glyphs(text.value, SmallFont, Anchor(TopRight, measure(text.value, SmallFont))) else [])
    }

    /**
     * __init__: the panel is blanked and shown, a new image is made, and
     * "Sleep Well" is drawn (cleared by default), framed with border 1, in
     * the large font, centred; draw_text pushes it.
     */
    constructor (measure: (Label, Font) -> Size)
      ensures this.measure == measure
      ensures image == [ClearOp] + FrameOps(1)
                       + Glyphs(Literal("Sleep Well"), LargeFont, Anchor(Center, measure(Literal("Sleep Well"), LargeFont)))
      ensures shown == [[], image]
    {
      this.measure := measure;
      image := [];
      shown := [[]];
      new;
      var _ := DrawText(Literal("Sleep Well"), true, Named("large"), Center, Some(1));
    }

    /** clear_display: a black rectangle over the panel; pushed only when redraw is set. */
    method ClearDisplay(redraw: bool)
      modifies this
      ensures image == old(image) + [ClearOp]
      ensures shown == if redraw then old(shown) + [image] else old(shown)
    {
      image := image + [ClearOp];
      if redraw {
        DrawImage();
      }
    }

    /** draw_image: push the current picture to the panel. */
    method DrawImage()
      modifies this
      ensures image == old(image)
      ensures shown == old(shown) + [image]
    {
      shown := shown + [image];
    }

    /**
     * draw_text: optional clear, font selection, the frame drawn inline
     * when a border is given, the text at its anchor, and always a push.
     * A font name other than the three known ones makes textsize raise
     * after the clear and the frame were drawn, before the push; ok is
     * false then.
     */
    method DrawText(text: Label, clearDisplay: bool, font: FontArg, pos: Pos, frame: Option<int>)
      returns (ok: bool)
      modifies this
      ensures ok <==> ResolveFont(font).Some?
      ensures image == old(image) + Preamble(clearDisplay, frame)
                       + (if ok then Glyphs(text, ResolveFont(font).value, Anchor(pos, measure(text, ResolveFont(font).value)))
                          else [])
      ensures shown == if ok then old(shown) + [image] else old(shown)
    {
      var f := ResolveFont(font);
      DrawPreamble(clearDisplay, frame);
      if f.None? {
        return false;
      }
      var size := measure(text, f.value);
      var at := Anchor(pos, size);
      if at.Some? {
        image := image + [Text(at.value.0, at.value.1, text, f.value, 255)];
      }
      DrawImage();
      ok := true;
    }

    /** The start of draw_text: the optional clear, then the frame drawn inline when a border is given. */
    method DrawPreamble(clearDisplay: bool, frame: Option<int>)
      modifies this
      ensures image == old(image) + Preamble(clearDisplay, frame)
      ensures shown == old(shown)
    {
      if clearDisplay {
        ClearDisplay(false);
      }
      if frame.Some? {
        var border := frame.value;
        image := image + [Rect(0, 0, Width, Height, 255, 255)];
        image := image + [Rect(border, border, Width - border - 1, Height - border - 1, 0, 0)];
      }
    }

    /**
     * draw_timeseries: the window of data is rescaled in place in the
     * caller's array, then drawn as a polyline, optionally on a cleared
     * picture and with a caption at the top right, and always pushed; the
     * caption's draw_text pushes the same picture once more. Empty data
     * raises in max; a zero peak is reported as such. Either way nothing is
     * drawn and data is left as it was.
     */
    method DrawTimeseries(data: array<real>, clearDisplay: bool, text: Option<Label>)
      returns (outcome: ScaleOutcome)
      modifies this, data
      ensures data.Length == 0 <==> outcome == EmptyData
      ensures data.Length > 0 ==> (outcome == ZeroPeak <==> Peak(View(old(data[..]))) == 0.0)
      ensures outcome.Scaled? ==> data.Length > 0 && outcome.peak == Peak(View(old(data[..])))
      ensures outcome.Scaled? ==> data[..] == Rescaled(old(data[..]))
      ensures outcome.Scaled? ==> image == old(image) + PlotOps(View(data[..]), text, clearDisplay)
      ensures outcome.Scaled? ==> shown == old(shown) + (if text.Some? then [image, image] else [image])
      ensures !outcome.Scaled? ==> data[..] == old(data[..]) && image == old(image) && shown == old(shown)
    {
      outcome := ScaleInPlace(data);
      if !outcome.Scaled? {
        return;
      }
      Plot(View(data[..]), text, clearDisplay);
    }

    /** The drawing half of draw_timeseries, on the already rescaled window d, with its pushes. */
    method Plot(d: seq<real>, text: Option<Label>, clearDisplay: bool)
      modifies this
      ensures image == old(image) + PlotOps(d, text, clearDisplay)
      ensures shown == old(shown) + (if text.Some? then [image, image] else [image])
    {
      ghost var cleared := if clearDisplay then [ClearOp] else [];
      if clearDisplay {
        ClearDisplay(false);
      } else {
        assert old(image) + cleared == old(image);
      }
      DrawLines(d);
      ghost var lined := image;
      Associative(old(image), cleared, Polyline(d));
      if text.Some? {
        var _ := DrawText(text.value, false, Given(SmallFont), TopRight, None);
      }
      ghost var caption := if text.Some? then Glyphs(text.value, SmallFont, Anchor(TopRight, measure(text.value, SmallFont))) else [];
      assert image == lined + caption;
      Associative(old(image), cleared + Polyline(d), caption);
      DrawImage();
      if text.Some? {
        assert shown == old(shown) + [image] + [image];
        assert old(shown) + [image] + [image] == old(shown) + [image, image];
      }
    }

    /** The segment loop of draw_timeseries: for x in range(len(d) - 1), the line from point x to point x + 1. */
    method DrawLines(d: seq<real>)
      modifies this
      ensures image == old(image) + Polyline(d)
      ensures shown == old(shown)
    {
      var x := 0;
      while x + 1 < |d|
        invariant 0 <= x <= |Polyline(d)|
        invariant image == old(image) + Polyline(d)[..x]
        invariant shown == old(shown)
      {
        assert Polyline(d)[..x + 1] == Polyline(d)[..x] + [Segment(d, x)];
        image := image + [Line(x, Height as real - d[x], x + 1, Height as real - d[x + 1], 1)];
        x := x + 1;
      }
      assert Polyline(d)[..x] == Polyline(d);
    }
  }
}

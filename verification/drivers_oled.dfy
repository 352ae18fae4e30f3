/**
 * The OLED class of drivers/OLED.py, the one the logger draws on. The
 * SSD1306 panel and the PIL image are abstracted: the image is the list of
 * draw calls made on it since it was created, the panel is the list of
 * pictures pushed to it (image() followed by show()), and the font metrics
 * of textsize are a function given at construction.
 */
module DriversOled {
  import opened Common
  import opened Display

  /** Top-right text: its right edge 4 px from the panel's, its top 1 px below the panel's. */
  function TopRightAnchor(size: Size): (p: (int, int))
    ensures p.0 + size.width + 4 == Width && p.1 == 1
  {
    (Width - size.width - 4, 1)
  }

  /** Where draw_text puts the text: centred, top right, or nowhere for any other pos. */
  function Anchor(pos: Pos, size: Size): (p: Option<(int, int)>)
    ensures p.None? <==> pos.Elsewhere?
    ensures pos.Center? ==> p == Some(CenterAnchor(size))
    ensures pos.TopRight? ==> p == Some(TopRightAnchor(size))
  {
    match pos
    case Center => Some(CenterAnchor(size))
    case TopRight => Some(TopRightAnchor(size))
    case Elsewhere => None
  }

  class Oled {
    /** The image's textsize for each text and font. */
    const measure: (Label, Font) -> Size
    /** The draw calls made on the image since it was created. */
    var image: seq<DrawOp>
    /** Every picture pushed to the panel, oldest first. */
    var shown: seq<seq<DrawOp>>

    /** What draw_timeseries draws after rescaling: clear, polyline, then the caption at the top right. */
    function PlotOps(d: seq<real>, text: Option<Label>, clearDisplay: bool): (r: seq<DrawOp>)
      ensures |r| == (if clearDisplay then 1 else 0) + |Polyline(d)| + (if text.Some? then 1 else 0)
    {
      (if clearDisplay then [ClearOp] else []) + Polyline(d)
      + (if text.Some? then Glyphs(text.value, SmallFont, Anchor(TopRight, measure(text.value, SmallFont))) else [])
    }

    /**
     * __init__: the panel is blanked and shown, a new image is made, and
     * "Sleep Well" is drawn cleared, framed with border 1, in the large font,
     * centred, and pushed.
     */
    constructor (measure: (Label, Font) -> Size)
      ensures this.measure == measure
      ensures image == [ClearOp] + FrameOps(1)
                       + Glyphs(Literal("Sleep Well"), LargeFont, Anchor(Center, measure(Literal("Sleep Well"), LargeFont)))
      ensures shown == [[], image]
    {
      this.measure := measure;
      image := [];
      shown := [[]];
      new;
      var _ := DrawText(Literal("Sleep Well"), true, Named("large"), Center, Some(1), false);
      DrawImage();
    }

    /** clear_display: a black rectangle over the panel; pushed only when redraw is set. */
    method ClearDisplay(redraw: bool)
      modifies this
      ensures image == old(image) + [ClearOp]
      ensures shown == if redraw then old(shown) + [image] else old(shown)
    {
      image := image + [ClearOp];
      if redraw {
        DrawImage();
      }
    }

    /** draw_image: push the current picture to the panel. */
    method DrawImage()
      modifies this
      ensures image == old(image)
      ensures shown == old(shown) + [image]
    {
      shown := shown + [image];
    }

    /** draw_frame: the full white rectangle, then the black one inset by border. */
    method DrawFrame(border: int)
      modifies this
      ensures image == old(image) + FrameOps(border)
      ensures shown == old(shown)
    {
      image := image + [Rect(0, 0, Width, Height, 255, 255)];
      image := image + [Rect(border, border, Width - border - 1, Height - border - 1, 0, 0)];
    }

    /**
     * draw_text: optional clear, font selection, optional frame, then the
     * text at its anchor, pushed when redraw is set. A font name other than
     * the three known ones makes textsize raise after the clear and the
     * frame were drawn; ok is false then.
     */
    method DrawText(text: Label, clearDisplay: bool, font: FontArg, pos: Pos, frame: Option<int>, redraw: bool)
      returns (ok: bool)
      modifies this
      ensures ok <==> ResolveFont(font).Some?
      ensures image == old(image) + Preamble(clearDisplay, frame)
                       + (if ok then Glyphs(text, ResolveFont(font).value, Anchor(pos, measure(text, ResolveFont(font).value)))
                          else [])
      ensures shown == if ok && redraw then old(shown) + [image] else old(shown)
    {
      var f := ResolveFont(font);
      DrawPreamble(clearDisplay, frame);
      if f.None? {
        return false;
      }
      var size := measure(text, f.value);
      var at := Anchor(pos, size);
      if at.Some? {
        image := image + [Text(at.value.0, at.value.1, text, f.value, 255)];
      }
      if redraw {
        DrawImage();
      }
      ok := true;
    }

    /** The start of draw_text: the optional clear, then the optional frame. */
    method DrawPreamble(clearDisplay: bool, frame: Option<int>)
      modifies this
      ensures image == old(image) + Preamble(clearDisplay, frame)
      ensures shown == old(shown)
    {
      if clearDisplay {
        ClearDisplay(false);
      }
      if frame.Some? {
        DrawFrame(frame.value);
      }
    }

    /**
     * draw_timeseries: the window of data is rescaled in place in the
     * caller's array, then drawn as a polyline, optionally on a cleared
     * picture and with a caption at the top right, and pushed when redraw
     * is set. Empty data raises in max; a zero peak is reported as such.
     * Either way nothing is drawn and data is left as it was.
     */
    method DrawTimeseries(data: array<real>, text: Option<Label>, clearDisplay: bool, redraw: bool)
      returns (outcome: ScaleOutcome)
      modifies this, data
      ensures data.Length == 0 <==> outcome == EmptyData
      ensures data.Length > 0 ==> (outcome == ZeroPeak <==> Peak(View(old(data[..]))) == 0.0)
      ensures outcome.Scaled? ==> data.Length > 0 && outcome.peak == Peak(View(old(data[..])))
      ensures outcome.Scaled? ==> data[..] == Rescaled(old(data[..]))
      ensures outcome.Scaled? ==> image == old(image) + PlotOps(View(data[..]), text, clearDisplay)
      ensures outcome.Scaled? ==> shown == if redraw then old(shown) + [image] else old(shown)
      ensures !outcome.Scaled? ==> data[..] == old(data[..]) && image == old(image) && shown == old(shown)
    {
      outcome := ScaleInPlace(data);
      if !outcome.Scaled? {
        return;
      }
      Plot(View(data[..]), text, clearDisplay);
      if redraw {
        DrawImage();
      }
    }

    /** The drawing half of draw_timeseries, on the already rescaled window d. */
    method Plot(d: seq<real>, text: Option<Label>, clearDisplay: bool)
      modifies this
      ensures image == old(image) + PlotOps(d, text, clearDisplay)
      ensures shown == old(shown)
    {
      ghost var cleared := if clearDisplay then [ClearOp] else [];
      if clearDisplay {
        ClearDisplay(false);
      } else {
        assert old(image) + cleared == old(image);
      }
      DrawLines(d);
      ghost var lined := image;
      Associative(old(image), cleared, Polyline(d));
      if text.Some? {
        var _ := DrawText(text.value, false, Given(SmallFont), TopRight, None, false);
      }
      ghost var caption := if text.Some? then Glyphs(text.value, SmallFont, Anchor(TopRight, measure(text.value, SmallFont))) else [];
      assert image == lined + caption;
      Associative(old(image), cleared + Polyline(d), caption);
    }

    /** The segment loop of draw_timeseries: for x in range(len(d) - 1), the line from point x to point x + 1. */
    method DrawLines(d: seq<real>)
      modifies this
      ensures image == old(image) + Polyline(d)
      ensures shown == old(shown)
    {
      var x := 0;
      while x + 1 < |d|
        invariant 0 <= x <= |Polyline(d)|
        invariant image == old(image) + Polyline(d)[..x]
        invariant shown == old(shown)
      {
        assert Polyline(d)[..x + 1] == Polyline(d)[..x] + [Segment(d, x)];
        image := image + [Line(x, Height as real - d[x], x + 1, Height as real - d[x + 1], 1)];
        x := x + 1;
      }
      assert Polyline(d)[..x] == Polyline(d);
    }

    /** What draw_display adds when the stimulus is triggered: "STIMULUS" centred in the medium font. */
    function StimulusOps(trigger: bool): (r: seq<DrawOp>)
      reads this
      ensures |r| == if trigger then 1 else 0
    {
      if trigger then Glyphs(Literal("STIMULUS"), MediumFont, Anchor(Center, measure(Literal("STIMULUS"), MediumFont)))
      else []
    }

    /** draw_text("STIMULUS", font='medium'): centred, not cleared, not pushed. */
    method Stimulus()
      modifies this
      ensures image == old(image) + StimulusOps(true)
      ensures shown == old(shown)
    {
      var stimulus := Literal("STIMULUS");
      var _ := DrawText(stimulus, false, Named("medium"), Center, None, false);
      assert Preamble(false, None) == [];
    }

    /**
     * draw_display: the time series with the status caption on a cleared
     * picture, "STIMULUS" centred in the medium font when triggered, then
     * one push. Empty data raises in max and ends it; a zero peak draws no
     * series but still adds "STIMULUS" and pushes.
     */
    method DrawDisplay(timeseries: array<real>, status: Option<Label>, trigger: bool) returns (outcome: ScaleOutcome)
      modifies this, timeseries
      ensures timeseries.Length == 0 <==> outcome == EmptyData
      ensures timeseries.Length > 0 ==> (outcome == ZeroPeak <==> Peak(View(old(timeseries[..]))) == 0.0)
      ensures outcome.Scaled? ==> timeseries[..] == Rescaled(old(timeseries[..]))
      ensures outcome.Scaled? ==>
                image == old(image) + PlotOps(View(timeseries[..]), status, true) + StimulusOps(trigger)
      ensures outcome == ZeroPeak ==> timeseries[..] == old(timeseries[..]) && image == old(image) + StimulusOps(trigger)
      ensures outcome != EmptyData ==> shown == old(shown) + [image]
      ensures outcome == EmptyData ==> timeseries[..] == old(timeseries[..]) && image == old(image) && shown == old(shown)
    {
      outcome := DrawTimeseries(timeseries, status, true, false);
      if outcome == EmptyData {
        return;
      }
      Finish(trigger);
    }

    /** The end of draw_display: "STIMULUS" when triggered, then the push. */
    method Finish(trigger: bool)
      modifies this
      ensures image == old(image) + StimulusOps(trigger)
      ensures shown == old(shown) + [image]
    {
      if trigger {
        Stimulus();
      }
      DrawImage();
    }
  }
}

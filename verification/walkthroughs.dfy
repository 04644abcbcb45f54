/**
  Clients of the overlay: the call chains an app makes, followed by one paint
  of the surface, with the frame each of them produces.
*/
module Walkthroughs {
  import opened Options
  import opened Geometry
  import opened Canvas
  import opened Marks
  import opened Overlay

  /**
    The iOS app's chain: Create() with no arguments, one mark with no
    position, Show(); then one paint. The frame clears, punches the plain
    rectangle hole, resets, paints the default translucent black backdrop
    and puts the label one x-height below the button.
  */
  method SingleMarkWalkthrough(button: RectF, text: string, size: Size, scale: real, xHeight: real)
    returns (log: seq<Command>, redraws: nat)
    ensures redraws == 1
    ensures |log| == 5
    ensures log[0] == Command.Clear
    ensures log[1] == ClipDiffRect(ToSkRect(Scale(button, scale)))
    ensures log[2] == Command.ResetMatrix
    ensures log[3].DrawRect? && log[3] == Command.DrawRect(0.0, 0.0, size.width, size.height, log[3].paint)
    ensures log[3].paint.color == 0x7700_0000 && log[3].paint.style == Fill
    ensures log[4] == Command.DrawText(text, button.x * scale, (button.y + button.height) * scale + xHeight)
  {
    var factory := new CoachMarks();
    var overlay := factory.Create(null, None);
    overlay := overlay.Add(button, text, None);
    overlay := overlay.Show();
    var canvas := new Canvas();
    overlay.Draw(canvas, size, scale, xHeight);
    log, redraws := canvas.log, overlay.view.redrawRequests;
    var m := NewTextMark(button, text, None);
    assert overlay.marks == [m];
    FrameLayout([m], size, scale, overlay.bgPaint, xHeight);
    ScaledEdges(button, scale);
  }

  /**
    Showing twice: the second Show reuses the surface the first one created
    and adds one more redraw request.
  */
  method ShowTwice(rect: RectF, text: string) returns (sameSurface: bool, redraws: nat, marks: seq<Mark>)
    ensures sameSurface && redraws == 2
    ensures marks == [NewTextMark(rect, text, None)]
  {
    var factory := new CoachMarks();
    var overlay := factory.Create(null, None);
    overlay := overlay.Add(rect, text, None);
    overlay := overlay.Show();
    var first := overlay.view;
    overlay := overlay.Show();
    assert overlay.surfacesCreated == 1;
    sameSurface, redraws, marks := overlay.view == first, overlay.view.redrawRequests, overlay.marks;
  }

  /** The marks of TwoMarkWalkthrough: "A" above one square, "B" below another. */
  function TwoMarks(): (marks: seq<Mark>)
  {
    [NewTextMark(RectF(0.0, 0.0, 50.0, 50.0), "A", Some(Above)),
     NewTextMark(RectF(100.0, 100.0, 20.0, 20.0), "B", Some(Below))]
  }

  /** Both holes are plain rectangles at the marks' own coordinates. */
  lemma TwoMarkHoles()
    ensures HoleClips(TwoMarks(), 1.0)
         == [ClipDiffRect(SkRect(0.0, 0.0, 50.0, 50.0)), ClipDiffRect(SkRect(100.0, 100.0, 120.0, 120.0))]
  {
    var ms := TwoMarks();
    assert ms[..1][..0] == [];
    assert Placed(ms[0], 1.0) == SkRect(0.0, 0.0, 50.0, 50.0);
    assert Placed(ms[1], 1.0) == SkRect(100.0, 100.0, 120.0, 120.0);
  }

  /** "A" sits on its mark's top edge, "B" one x-height below its mark's bottom edge. */
  lemma TwoMarkLabels(xHeight: real)
    ensures TextDraws(TwoMarks(), 1.0, xHeight)
         == [Command.DrawText("A", 0.0, 0.0), Command.DrawText("B", 100.0, 120.0 + xHeight)]
  {
    var ms := TwoMarks();
    assert ms[..1][..0] == [];
    assert Placed(ms[0], 1.0) == SkRect(0.0, 0.0, 50.0, 50.0);
    assert Placed(ms[1], 1.0) == SkRect(100.0, 100.0, 120.0, 120.0);
  }

  /** The frame those two marks paint at scale 1, command by command. */
  lemma TwoMarkFrame(size: Size, backdrop: Paint, xHeight: real)
    ensures Frame(TwoMarks(), size, 1.0, backdrop, xHeight) == [
      Command.Clear,
      ClipDiffRect(SkRect(0.0, 0.0, 50.0, 50.0)),
      ClipDiffRect(SkRect(100.0, 100.0, 120.0, 120.0)),
      Command.ResetMatrix,
      Command.DrawRect(0.0, 0.0, size.width, size.height, backdrop),
      Command.DrawText("A", 0.0, 0.0),
      Command.DrawText("B", 100.0, 120.0 + xHeight)]
  {
    TwoMarkHoles();
    TwoMarkLabels(xHeight);
  }

  /**
    Two marks, one labelled Above and one Below, over a backdrop paint of the
    caller's choosing, painted at scale 1: both holes are plain rectangles in
    mark order, the backdrop uses the given paint, "A" sits on its mark's top
    edge and "B" one x-height below its mark's bottom edge.
  */
  method TwoMarkWalkthrough(size: Size, xHeight: real) returns (log: seq<Command>, backdrop: Paint)
    ensures backdrop.color == 0x8800_0000
    ensures log == [
      Command.Clear,
      ClipDiffRect(SkRect(0.0, 0.0, 50.0, 50.0)),
      ClipDiffRect(SkRect(100.0, 100.0, 120.0, 120.0)),
      Command.ResetMatrix,
      Command.DrawRect(0.0, 0.0, size.width, size.height, backdrop),
      Command.DrawText("A", 0.0, 0.0),
      Command.DrawText("B", 100.0, 120.0 + xHeight)]
  {
    var factory := new CoachMarks();
    backdrop := new Paint(0x8800_0000, Fill, false);
    var overlay := factory.Create(backdrop, None);
    overlay := overlay.Add(RectF(0.0, 0.0, 50.0, 50.0), "A", Some(Above));
    overlay := overlay.Add(RectF(100.0, 100.0, 20.0, 20.0), "B", Some(Below));
    overlay := overlay.Show();
    assert overlay.marks == TwoMarks();
    var canvas := new Canvas();
    overlay.Draw(canvas, size, 1.0, xHeight);
    log := canvas.log;
    assert log == Frame(TwoMarks(), size, 1.0, backdrop, xHeight);
    TwoMarkFrame(size, backdrop, xHeight);
  }
}

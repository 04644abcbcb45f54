/**
  The overlay itself: the factory, the instance that collects marks and owns
  the drawing surface, and the compositor that paints one frame. The frame a
  paint produces is specified by the function Frame; the method Draw issues
  it call by call.
*/
module Overlay {
  import opened Options
  import opened Geometry
  import opened Canvas
  import opened Marks

  /** The device rectangle a mark is clipped and labelled against. */
  function Placed(m: Mark, scale: real): (device: SkRect)
    ensures scale == 1.0 ==> device == ToSkRect(m.rect)
    ensures 0.0 < scale ==> (device.left <= device.right <==> 0.0 <= m.rect.width)
    ensures 0.0 < scale ==> (device.top <= device.bottom <==> 0.0 <= m.rect.height)
  {
    ToSkRect(Scale(m.rect, scale))
  }

  /** The hole clips of a frame: one per mark, in mark order. */
  function HoleClips(marks: seq<Mark>, scale: real): (cs: seq<Command>)
    ensures |cs| == |marks|
  {
    if marks == [] then []
    else
      var last := marks[|marks| - 1];
      HoleClips(marks[..|marks| - 1], scale) + [HoleClip(last.hole, Placed(last, scale))]
  }

  /** Hole clip i belongs to mark i. */
  lemma {:induction false} HoleClipsAt(marks: seq<Mark>, scale: real, i: nat)
    requires i < |marks|
    ensures HoleClips(marks, scale)[i] == HoleClip(marks[i].hole, Placed(marks[i], scale))
  {
    if i < |marks| - 1 {
      HoleClipsAt(marks[..|marks| - 1], scale, i);
    }
  }

  /** Every mark's vertical direction is one the label switch handles. */
  predicate AllPlaceable(marks: seq<Mark>)
  {
    forall i :: 0 <= i < |marks| ==> Placeable(marks[i].position)
  }

  /**
    The label draws of a frame, in mark order: at most one per mark, and
    exactly one per mark when every position is placeable.
  */
  function TextDraws(marks: seq<Mark>, scale: real, xHeight: real): (cs: seq<Command>)
    ensures |cs| <= |marks|
    ensures AllPlaceable(marks) ==> |cs| == |marks|
  {
    if marks == [] then []
    else
      var last := marks[|marks| - 1];
      assert AllPlaceable(marks) ==> AllPlaceable(marks[..|marks| - 1]);
      TextDraws(marks[..|marks| - 1], scale, xHeight) + Commands(TextDraw(last, Placed(last, scale), xHeight))
  }

  /** When every position is placeable, label draw i belongs to mark i. */
  lemma {:induction false} TextDrawsAt(marks: seq<Mark>, scale: real, xHeight: real, i: nat)
    requires AllPlaceable(marks) && i < |marks|
    ensures Some(TextDraws(marks, scale, xHeight)[i]) == TextDraw(marks[i], Placed(marks[i], scale), xHeight)
  {
    var n := |marks|;
    var init := marks[..n - 1];
    assert AllPlaceable(init);
    if i < n - 1 {
      TextDrawsAt(init, scale, xHeight, i);
    }
  }

  /** The label draws hold nothing but DrawText commands. */
  lemma {:induction false} TextDrawsAreLabels(marks: seq<Mark>, scale: real, xHeight: real)
    ensures forall j :: 0 <= j < |TextDraws(marks, scale, xHeight)| ==> TextDraws(marks, scale, xHeight)[j].DrawText?
  {
    if marks != [] {
      TextDrawsAreLabels(marks[..|marks| - 1], scale, xHeight);
    }
  }

  /** One more hole clip appended to a log extends the clips of a prefix by one mark. */
  lemma HoleClipsStep(log: seq<Command>, marks: seq<Mark>, i: nat, scale: real)
    requires i < |marks|
    ensures log + HoleClips(marks[..i], scale) + [HoleClip(marks[i].hole, Placed(marks[i], scale))]
         == log + HoleClips(marks[..i + 1], scale)
  {
    assert marks[..i + 1][..i] == marks[..i];
  }

  /** One more label draw appended to a log extends the labels of a prefix by one mark. */
  lemma TextDrawsStep(log: seq<Command>, marks: seq<Mark>, i: nat, scale: real, xHeight: real)
    requires i < |marks|
    ensures log + TextDraws(marks[..i], scale, xHeight) + Commands(TextDraw(marks[i], Placed(marks[i], scale), xHeight))
         == log + TextDraws(marks[..i + 1], scale, xHeight)
  {
    assert marks[..i + 1][..i] == marks[..i];
  }

  /** The commands of one paint of the overlay. */
  function Frame(marks: seq<Mark>, size: Size, scale: real, bgPaint: Paint, xHeight: real): (frame: seq<Command>)
    ensures |marks| + 3 <= |frame| <= 2 * |marks| + 3
  {
    [Command.Clear] + HoleClips(marks, scale)
    + [Command.ResetMatrix, Command.DrawRect(0.0, 0.0, size.width, size.height, bgPaint)]
    + TextDraws(marks, scale, xHeight)
  }

  /**
    The layout of a frame for n marks: the clear, then mark i's hole clip at
    1 + i, then the matrix reset, then the full-size backdrop, then the label
    draws. When every position is placeable the frame has exactly 2n + 3
    commands and mark i's label is at n + 3 + i.
  */
  lemma FrameLayout(marks: seq<Mark>, size: Size, scale: real, bgPaint: Paint, xHeight: real)
    ensures var f, n := Frame(marks, size, scale, bgPaint, xHeight), |marks|;
      && n + 3 <= |f| <= 2 * n + 3
      && f[0] == Command.Clear
      && (forall i :: 0 <= i < n ==> f[1 + i] == HoleClip(marks[i].hole, Placed(marks[i], scale)))
      && f[n + 1] == Command.ResetMatrix
      && f[n + 2] == Command.DrawRect(0.0, 0.0, size.width, size.height, bgPaint)
      && (AllPlaceable(marks) ==> |f| == 2 * n + 3)
      && (AllPlaceable(marks) ==> forall i :: 0 <= i < n ==>
            Some(f[n + 3 + i]) == TextDraw(marks[i], Placed(marks[i], scale), xHeight))
  {
    var f, n := Frame(marks, size, scale, bgPaint, xHeight), |marks|;
    var holes, texts := HoleClips(marks, scale), TextDraws(marks, scale, xHeight);
    assert f == [Command.Clear] + holes + [Command.ResetMatrix, Command.DrawRect(0.0, 0.0, size.width, size.height, bgPaint)] + texts;
    forall i | 0 <= i < n
      ensures f[1 + i] == HoleClip(marks[i].hole, Placed(marks[i], scale))
    {
      assert f[1 + i] == holes[i];
      HoleClipsAt(marks, scale, i);
    }
    if AllPlaceable(marks) {
      forall i | 0 <= i < n
        ensures Some(f[n + 3 + i]) == TextDraw(marks[i], Placed(marks[i], scale), xHeight)
      {
        assert f[n + 3 + i] == texts[i];
        TextDrawsAt(marks, scale, xHeight, i);
      }
    }
  }

  /**
    Clipping is finished before the backdrop is painted and labels come after
    it: every clip precedes the single backdrop rectangle, and every label
    follows it.
  */
  lemma FrameOrder(marks: seq<Mark>, size: Size, scale: real, bgPaint: Paint, xHeight: real)
    ensures var f, n := Frame(marks, size, scale, bgPaint, xHeight), |marks|;
      && (forall j :: 0 <= j < |f| ==> (f[j].DrawRect? <==> j == n + 2))
      && (forall j :: 0 <= j < |f| && f[j].IsClip() ==> 0 < j < n + 1)
      && (forall j :: 0 <= j < |f| && f[j].DrawText? ==> n + 2 < j)
  {
    var f, n := Frame(marks, size, scale, bgPaint, xHeight), |marks|;
    var texts := TextDraws(marks, scale, xHeight);
    FrameLayout(marks, size, scale, bgPaint, xHeight);
    TextDrawsAreLabels(marks, scale, xHeight);
    forall j | 0 <= j < |f|
      ensures (f[j].DrawRect? <==> j == n + 2)
      ensures f[j].IsClip() ==> 0 < j < n + 1
      ensures f[j].DrawText? ==> n + 2 < j
    {
      if 0 < j < n + 1 {
        assert f[j] == HoleClip(marks[j - 1].hole, Placed(marks[j - 1], scale));
      } else if n + 2 < j {
        assert f[j] == texts[j - n - 3];
      }
    }
  }

  /**
    Adding a mark extends the frame at both ends of the backdrop: its hole is
    clipped after every earlier hole and its label drawn after every earlier
    label, and the earlier marks' commands are unchanged.
  */
  lemma FrameAfterAdd(marks: seq<Mark>, m: Mark, size: Size, scale: real, bgPaint: Paint, xHeight: real)
    ensures Frame(marks + [m], size, scale, bgPaint, xHeight)
         == [Command.Clear] + HoleClips(marks, scale) + [HoleClip(m.hole, Placed(m, scale))]
            + [Command.ResetMatrix, Command.DrawRect(0.0, 0.0, size.width, size.height, bgPaint)]
            + TextDraws(marks, scale, xHeight) + Commands(TextDraw(m, Placed(m, scale), xHeight))
  {
    var ms := marks + [m];
    assert ms[..|ms| - 1] == marks;
    var hs, h := HoleClips(marks, scale), [HoleClip(m.hole, Placed(m, scale))];
    var ts, t := TextDraws(marks, scale, xHeight), Commands(TextDraw(m, Placed(m, scale), xHeight));
    var mid := [Command.ResetMatrix, Command.DrawRect(0.0, 0.0, size.width, size.height, bgPaint)];
    assert HoleClips(ms, scale) == hs + h;
    assert TextDraws(ms, scale, xHeight) == ts + t;
    assert [Command.Clear] + (hs + h) == [Command.Clear] + hs + h;
    assert [Command.Clear] + hs + h + mid + (ts + t) == [Command.Clear] + hs + h + mid + ts + t;
  }

  /** A mark whose rectangle is scaled by k. */
  function ScaleMark(m: Mark, k: real): (scaled: Mark)
  {
    m.(rect := Scale(m.rect, k))
  }

  /** Every mark's rectangle scaled by k. */
  function ScaleMarks(marks: seq<Mark>, k: real): (ms: seq<Mark>)
    ensures |ms| == |marks|
  {
    if marks == [] then []
    else ScaleMarks(marks[..|marks| - 1], k) + [ScaleMark(marks[|marks| - 1], k)]
  }

  /**
    A mark scaled by k and placed at scale 1 lands where it lands at scale k,
    so it punches the same hole.
  */
  lemma PlacedScaleMark(m: Mark, k: real)
    ensures Placed(ScaleMark(m, k), 1.0) == Placed(m, k)
    ensures HoleClip(ScaleMark(m, k).hole, Placed(ScaleMark(m, k), 1.0)) == HoleClip(m.hole, Placed(m, k))
  {
  }

  /**
    The label of a mark drawn at scale k with x-height xk, and of the same
    mark pre-scaled by k and drawn at scale 1 with x-height x1: the font
    metrics are fetched at the draw's scale, so the two may differ. They are
    the same exactly when the x-heights agree or the label is not placed
    below the mark, the one case that reads the x-height.
  */
  lemma LabelScaleMark(m: Mark, k: real, xk: real, x1: real)
    ensures TextDraw(ScaleMark(m, k), Placed(ScaleMark(m, k), 1.0), x1) == TextDraw(m, Placed(m, k), xk)
        <==> xk == x1 || m.position.v != 1
  {
    PlacedScaleMark(m, k);
  }

  /** No mark's label is placed below its mark. */
  predicate NoneBelow(marks: seq<Mark>)
  {
    forall i :: 0 <= i < |marks| ==> marks[i].position.v != 1
  }

  /** Two concatenations with equally long first parts agree part by part. */
  lemma SplitConcat<T>(a: seq<T>, b: seq<T>, c: seq<T>, d: seq<T>)
    requires a + b == c + d && |a| == |c|
    ensures a == c && b == d
  {
    assert a == (a + b)[..|a|] && c == (c + d)[..|c|];
    assert b == (a + b)[|a|..] && d == (c + d)[|c|..];
  }

  lemma {:induction false} HoleClipsScaleInvariant(marks: seq<Mark>, k: real)
    ensures HoleClips(marks, k) == HoleClips(ScaleMarks(marks, k), 1.0)
  {
    if marks != [] {
      var n := |marks|;
      var scaled := ScaleMarks(marks, k);
      assert scaled[..n - 1] == ScaleMarks(marks[..n - 1], k);
      HoleClipsScaleInvariant(marks[..n - 1], k);
      PlacedScaleMark(marks[n - 1], k);
    }
  }

  /**
    The labels at scale k with x-height xk equal those of the pre-scaled
    marks at scale 1 with x-height x1 exactly when the x-heights agree or no
    label is placed below its mark.
  */
  lemma {:induction false} TextDrawsScaleInvariant(marks: seq<Mark>, k: real, xk: real, x1: real)
    ensures TextDraws(marks, k, xk) == TextDraws(ScaleMarks(marks, k), 1.0, x1)
        <==> xk == x1 || NoneBelow(marks)
  {
    if marks != [] {
      var n := |marks|;
      var init, last := marks[..n - 1], marks[n - 1];
      var scaled := ScaleMarks(marks, k);
      assert scaled[..n - 1] == ScaleMarks(init, k);
      assert scaled[n - 1] == ScaleMark(last, k);
      TextDrawsScaleInvariant(init, k, xk, x1);
      LabelScaleMark(last, k, xk, x1);
      assert NoneBelow(marks) <==> NoneBelow(init) && last.position.v != 1 by {
        if NoneBelow(init) && last.position.v != 1 {
          forall i | 0 <= i < n ensures marks[i].position.v != 1 {
            if i < n - 1 { assert marks[i] == init[i]; }
          }
        }
        if NoneBelow(marks) {
          forall i | 0 <= i < n - 1 ensures init[i].position.v != 1 {
            assert init[i] == marks[i];
          }
        }
      }
      var a, b := TextDraws(init, k, xk), Commands(TextDraw(last, Placed(last, k), xk));
      var c := TextDraws(ScaleMarks(init, k), 1.0, x1);
      var d := Commands(TextDraw(ScaleMark(last, k), Placed(ScaleMark(last, k), 1.0), x1));
      assert TextDraws(marks, k, xk) == a + b;
      assert TextDraws(scaled, 1.0, x1) == c + d;
      assert |b| == |d|;
      if a + b == c + d {
        SplitConcat(a, b, c, d);
      }
    }
  }

  /**
    Scale invariance: painting marks at scale k (labels with x-height xk)
    gives the same frame as painting the marks with their rectangles scaled by
    k at scale 1 (labels with x-height x1) exactly when the x-heights agree
    or no label is placed below its mark.
  */
  lemma FrameScaleInvariant(marks: seq<Mark>, size: Size, k: real, bgPaint: Paint, xk: real, x1: real)
    ensures Frame(marks, size, k, bgPaint, xk) == Frame(ScaleMarks(marks, k), size, 1.0, bgPaint, x1)
        <==> xk == x1 || NoneBelow(marks)
  {
    var scaled := ScaleMarks(marks, k);
    var backdrop := [Command.ResetMatrix, Command.DrawRect(0.0, 0.0, size.width, size.height, bgPaint)];
    HoleClipsScaleInvariant(marks, k);
    TextDrawsScaleInvariant(marks, k, xk, x1);
    var p := [Command.Clear] + HoleClips(marks, k) + backdrop;
    assert Frame(marks, size, k, bgPaint, xk) == p + TextDraws(marks, k, xk);
    assert Frame(scaled, size, 1.0, bgPaint, x1) == p + TextDraws(scaled, 1.0, x1);
    if p + TextDraws(marks, k, xk) == p + TextDraws(scaled, 1.0, x1) {
      SplitConcat(p, TextDraws(marks, k, xk), p, TextDraws(scaled, 1.0, x1));
    }
  }

  /** The host surface (SKCanvasView): it only counts the redraws requested of it. */
  class SurfaceView {
    var redrawRequests: nat

    constructor ()
      ensures redrawRequests == 0
    {
      redrawRequests := 0;
    }

    /** SetNeedsDisplay: asks the host for one more paint. */
    method SetNeedsDisplay()
      modifies this
      ensures redrawRequests == old(redrawRequests) + 1
    {
      redrawRequests := redrawRequests + 1;
    }
  }

  /** An Action delegate supplied by the host, known only by its identity. */
  datatype Action = Action(handle: nat)

  /** CoachMarksInstance. */
  class CoachMarksInstance {
    var marks: seq<Mark>
    const onTouch: Option<Action>
    var bgPaint: Paint
    var view: SurfaceView?
    /** How many surfaces this instance has created. */
    ghost var surfacesCreated: nat

    /** At most one surface is ever created, and it is the one the field holds. */
    ghost predicate Valid()
      reads this
    {
      surfacesCreated == if view == null then 0 else 1
    }

    constructor (bgPaint: Paint, onTouch: Option<Action>)
      ensures Valid()
      ensures this.bgPaint == bgPaint && this.onTouch == onTouch
      ensures marks == [] && view == null
    {
      this.bgPaint := bgPaint;
      this.onTouch := onTouch;
      marks := [];
      view := null;
      surfacesCreated := 0;
    }

    /**
      Show: creates the surface when there is none yet, then requests one
      redraw of it; returns the instance itself.
    */
    method Show() returns (self: CoachMarksInstance)
      requires Valid()
      modifies this, view
      ensures Valid() && self == this
      ensures view != null && surfacesCreated == 1
      ensures old(view) != null ==> view == old(view)
      ensures old(view) == null ==> fresh(view)
      ensures view.redrawRequests == if old(view) == null then 1 else old(view.redrawRequests) + 1
      ensures marks == old(marks) && bgPaint == old(bgPaint)
    {
      if view == null {
        view := new SurfaceView();
        surfacesCreated := surfacesCreated + 1;
      }
      Invalidate();
      self := this;
    }

    /** Invalidate: one redraw request on the surface, which Show has created. */
    method Invalidate()
      requires view != null
      modifies view
      ensures old(Valid()) ==> Valid()
      ensures view.redrawRequests == old(view.redrawRequests) + 1
    {
      view.SetNeedsDisplay();
    }

    /** Add: appends a text mark and returns the instance itself. */
    method Add(rect: RectF, text: string, position: Option<Position>) returns (self: CoachMarksInstance)
      modifies this`marks
      ensures old(Valid()) ==> Valid()
      ensures self == this
      ensures marks == old(marks) + [NewTextMark(rect, text, position)]
    {
      marks := marks + [NewTextMark(rect, text, position)];
      self := this;
    }

    /**
      Draw: the paint handler's compositor. xHeight is the label font's
      x-height at this scale.
    */
    method Draw(canvas: Canvas, size: Size, scale: real, xHeight: real)
      modifies canvas
      ensures canvas.log == old(canvas.log) + Frame(marks, size, scale, bgPaint, xHeight)
    {
      canvas.Clear();
      ClipHoles(canvas, scale);
      canvas.ResetMatrix();
      canvas.DrawRect(0.0, 0.0, size.width, size.height, bgPaint);
      DrawLabels(canvas, scale, xHeight);
    }

    /** Draw's first loop: every mark's hole, in mark order. */
    method ClipHoles(canvas: Canvas, scale: real)
      modifies canvas
      ensures canvas.log == old(canvas.log) + HoleClips(marks, scale)
    {
      var ms := marks;
      var i := 0;
      while i < |ms|
        invariant 0 <= i <= |ms|
        invariant canvas.log == old(canvas.log) + HoleClips(ms[..i], scale)
      {
        DrawHole(ms[i].hole, canvas, Placed(ms[i], scale));
        HoleClipsStep(old(canvas.log), ms, i, scale);
        i := i + 1;
      }
      assert ms[..i] == ms;
    }

    /** Draw's second loop: every mark's label, in mark order. */
    method DrawLabels(canvas: Canvas, scale: real, xHeight: real)
      modifies canvas
      ensures canvas.log == old(canvas.log) + TextDraws(marks, scale, xHeight)
    {
      var ms := marks;
      var i := 0;
      while i < |ms|
        invariant 0 <= i <= |ms|
        invariant canvas.log == old(canvas.log) + TextDraws(ms[..i], scale, xHeight)
      {
        DrawLabel(ms[i], canvas, Placed(ms[i], scale), xHeight);
        TextDrawsStep(old(canvas.log), ms, i, scale, xHeight);
        i := i + 1;
      }
      assert ms[..i] == ms;
    }
  }

  /** CoachMarks: the factory, holding the default backdrop paint. */
  class CoachMarks {
    const defaultBgPaint: Paint

    /** The default backdrop: translucent black (0x77000000), filled, not antialiased. */
    constructor ()
      ensures fresh(defaultBgPaint)
      ensures defaultBgPaint.color == 0x7700_0000
      ensures defaultBgPaint.style == Fill && !defaultBgPaint.isAntialias
    {
      defaultBgPaint := new Paint(0x7700_0000, Fill, false);
    }

    /** Create: a new instance with no marks, using the given paint or else the default. */
    method Create(bgPaint: Paint?, onTouch: Option<Action>) returns (inst: CoachMarksInstance)
      ensures fresh(inst) && inst.Valid()
      ensures inst.bgPaint == if bgPaint != null then bgPaint else defaultBgPaint
      ensures inst.onTouch == onTouch
      ensures inst.marks == [] && inst.view == null
    {
      inst := new CoachMarksInstance(if bgPaint != null then bgPaint else defaultBgPaint, onTouch);
    }
  }
}

/**
  The drawing surface seen by the engine: a Skia canvas reduced to the log of
  the calls made on it, and the paints passed to those calls.
*/
module Canvas {
  import opened Geometry

  datatype PaintStyle = Fill | Stroke | StrokeAndFill

  /** SKPaint, reduced to the settings the engine chooses; compared by identity. */
  class Paint {
    const color: bv32
    const style: PaintStyle
    const isAntialias: bool

    constructor (color: bv32, style: PaintStyle, isAntialias: bool)
      ensures this.color == color && this.style == style && this.isAntialias == isAntialias
    {
      this.color := color;
      this.style := style;
      this.isAntialias := isAntialias;
    }
  }

  /** One canvas call. Every clip the engine issues uses SKClipOperation.Difference. */
  datatype Command =
    | Clear
    | ClipDiffRect(rect: SkRect)
    | ClipDiffRoundRect(rect: SkRect, rx: real, ry: real)
    | ClipDiffCircle(cx: real, cy: real, radius: real)
    | ResetMatrix
    // SKCanvas.DrawRect(x, y, w, h, paint): origin and size, not edges
    | DrawRect(x: real, y: real, w: real, h: real, paint: Paint)
    | DrawText(text: string, x: real, y: real)
  {
    /** The commands that narrow the clip region. */
    predicate IsClip() {
      ClipDiffRect? || ClipDiffRoundRect? || ClipDiffCircle?
    }
  }

  /** SKCanvas: every call appends its command to the log and does nothing else. */
  class Canvas {
    var log: seq<Command>

    constructor ()
      ensures log == []
    {
      log := [];
    }

    method Clear()
      modifies this
      ensures log == old(log) + [Command.Clear]
    {
      log := log + [Command.Clear];
    }

    /** ClipRect(rect, SKClipOperation.Difference). */
    method ClipRect(rect: SkRect)
      modifies this
      ensures log == old(log) + [ClipDiffRect(rect)]
    {
      log := log + [ClipDiffRect(rect)];
    }

    /** ClipRoundRect(new SKRoundRect(rect, rx, ry), SKClipOperation.Difference). */
    method ClipRoundRect(rect: SkRect, rx: real, ry: real)
      modifies this
      ensures log == old(log) + [ClipDiffRoundRect(rect, rx, ry)]
    {
      log := log + [ClipDiffRoundRect(rect, rx, ry)];
    }

    /** ClipPath on a path holding one circle, SKClipOperation.Difference. */
    method ClipCircle(cx: real, cy: real, radius: real)
      modifies this
      ensures log == old(log) + [ClipDiffCircle(cx, cy, radius)]
    {
      log := log + [ClipDiffCircle(cx, cy, radius)];
    }

    method ResetMatrix()
      modifies this
      ensures log == old(log) + [Command.ResetMatrix]
    {
      log := log + [Command.ResetMatrix];
    }

    method DrawRect(x: real, y: real, w: real, h: real, paint: Paint)
      modifies this
      ensures log == old(log) + [Command.DrawRect(x, y, w, h, paint)]
    {
      log := log + [Command.DrawRect(x, y, w, h, paint)];
    }

    method DrawText(text: string, x: real, y: real)
      modifies this
      ensures log == old(log) + [Command.DrawText(text, x, y)]
    {
      log := log + [Command.DrawText(text, x, y)];
    }
  }
}

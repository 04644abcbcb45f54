/**
  A coach mark: the highlighted rectangle, the hole it punches through the
  backdrop and the text label drawn beside it. The hole shapes and the label
  placement are pure case analyses (functions); the methods issue the same
  choice as calls on a canvas.
*/
module Marks {
  import opened Options
  import opened Geometry
  import opened Canvas

  /**
    CoachMarkPosition: a horizontal and a vertical direction, each -1, 0 or +1
    for the named positions, though the constructor takes any integers.
    Only the vertical one affects drawing.
  */
  datatype Position = Position(h: int, v: int)

  const Above := Position(0, -1)
  const Below := Position(0, 1)
  const Left := Position(-1, 0)
  const Right := Position(1, 0)

  /** The hole shapes: CoachMarkHoleRect with its Roundness, and CoachMarkHoleCircle. */
  datatype Hole = RectHole(roundness: real) | CircleHole

  /** TextBaseCoachMark: rectangle, hole, label and label position. */
  datatype Mark = TextMark(rect: RectF, hole: Hole, text: string, position: Position)

  /**
    TextBaseCoachMark's constructor: it passes no hole to BaseCoachMark, whose
    constructor then falls back to a new CoachMarkHoleRect (Roundness 0), and
    a missing position means Below.
  */
  function NewTextMark(rect: RectF, text: string, position: Option<Position>): (m: Mark)
    ensures m.rect == rect && m.text == text
    ensures m.hole == RectHole(0.0)
    ensures position.Some? ==> m.position == position.value
    ensures position.None? ==> m.position == Below && m.position.v == 1
  {
    TextMark(rect, RectHole(0.0), text, if position.Some? then position.value else Below)
  }

  /**
    The clip a hole punches for the device rectangle r. A rectangle hole
    removes exactly r, with both corner radii equal to Roundness when that is
    positive. A circle hole spans r's width exactly, is centred on r's centre,
    and its radius is half the width whatever the height.
  */
  function HoleClip(hole: Hole, r: SkRect): (c: Command)
    ensures c.IsClip()
    ensures hole.RectHole? ==> (c.ClipDiffRect? || c.ClipDiffRoundRect?) && c.rect == r
    ensures hole.RectHole? ==> (c.ClipDiffRoundRect? <==> hole.roundness > 0.0)
    ensures hole.RectHole? && c.ClipDiffRoundRect? ==> c.rx == hole.roundness && c.ry == hole.roundness
    ensures hole.CircleHole? ==> c.ClipDiffCircle?
    ensures hole.CircleHole? ==> c.cx - c.radius == r.left && c.cx + c.radius == r.right
    ensures hole.CircleHole? ==> c.cy - r.top == r.bottom - c.cy
  {
    match hole
    case RectHole(roundness) =>
      if roundness <= 0.0 then ClipDiffRect(SkRect(r.left, r.top, r.right, r.bottom))
      else ClipDiffRoundRect(SkRect(r.left, r.top, r.right, r.bottom), roundness, roundness)
    case CircleHole =>
      ClipDiffCircle(r.left + r.Width() / 2.0, r.top + r.Height() / 2.0, r.Width() / 2.0)
  }

  /** A roundness of zero or less punches the same clip as a plain rectangle hole. */
  lemma NonPositiveRoundnessIsPlain(roundness: real, r: SkRect)
    requires roundness <= 0.0
    ensures HoleClip(RectHole(roundness), r) == HoleClip(RectHole(0.0), r) == ClipDiffRect(r)
  {
  }

  /** Every mark built by the text constructor punches exactly its rectangle, with square corners. */
  lemma TextMarkClipsPlainRect(rect: RectF, text: string, position: Option<Position>, r: SkRect)
    ensures HoleClip(NewTextMark(rect, text, position).hole, r) == ClipDiffRect(r)
  {
  }

  /** The circle's radius depends on the rectangle's width only, never on its height. */
  lemma CircleRadiusIgnoresHeight(r1: SkRect, r2: SkRect)
    requires r1.Width() == r2.Width()
    ensures HoleClip(CircleHole, r1).radius == HoleClip(CircleHole, r2).radius
  {
  }

  /** CoachMarkHoleRect.DrawHole and CoachMarkHoleCircle.DrawHole on a canvas. */
  method DrawHole(hole: Hole, canvas: Canvas, r: SkRect)
    modifies canvas
    ensures canvas.log == old(canvas.log) + [HoleClip(hole, r)]
  {
    match hole
    case RectHole(roundness) =>
      if roundness <= 0.0 {
        canvas.ClipRect(SkRect(r.left, r.top, r.right, r.bottom));
      } else {
        canvas.ClipRoundRect(SkRect(r.left, r.top, r.right, r.bottom), roundness, roundness);
      }
    case CircleHole =>
      canvas.ClipCircle(r.left + r.Width() / 2.0, r.top + r.Height() / 2.0, r.Width() / 2.0);
  }

  /** The vertical directions the label switch handles. */
  predicate Placeable(p: Position)
  {
    -1 <= p.v <= 1
  }

  /**
    The label draw for mark m placed on device rectangle r, given the x-height
    of the label font: none when the vertical direction is outside -1..1;
    otherwise the mark's text at r's left edge, with its baseline on r's top
    edge (Above), on its bottom edge (0) or one x-height below the bottom edge
    (Below).
  */
  function TextDraw(m: Mark, r: SkRect, xHeight: real): (c: Option<Command>)
    ensures c.Some? <==> Placeable(m.position)
    ensures c.Some? ==> c.value.DrawText? && c.value.text == m.text && c.value.x == r.left
    ensures c.Some? && m.position.v == -1 ==> c.value.y == r.top
    ensures c.Some? && m.position.v == 0 ==> c.value.y == r.bottom
    ensures c.Some? && m.position.v == 1 ==> c.value.y == r.bottom + xHeight
  {
    match m.position.v
    case -1 => Some(Command.DrawText(m.text, r.left, r.top))
    case 0 => Some(Command.DrawText(m.text, r.left, r.top + r.Height()))
    case 1 => Some(Command.DrawText(m.text, r.left, r.top + r.Height() + xHeight))
    case _ => None
  }

  /** The commands a label draw appends: zero or one. */
  function Commands(c: Option<Command>): (s: seq<Command>)
    ensures |s| <= 1
  {
    if c.Some? then [c.value] else []
  }

  /**
    With a non-negative height and x-height, Above puts the label no lower
    than a sideways position, and that no lower than Below.
  */
  lemma BaselineOrder(text: string, rect: RectF, r: SkRect, xHeight: real)
    requires r.top <= r.bottom && 0.0 <= xHeight
    ensures TextDraw(NewTextMark(rect, text, Some(Above)), r, xHeight).value.y
         <= TextDraw(NewTextMark(rect, text, Some(Left)), r, xHeight).value.y
         == TextDraw(NewTextMark(rect, text, Some(Right)), r, xHeight).value.y
         <= TextDraw(NewTextMark(rect, text, None), r, xHeight).value.y
  {
  }

  /** A mark added without a position is labelled exactly as one added with Below. */
  lemma DefaultPositionIsBelow(rect: RectF, text: string, r: SkRect, xHeight: real)
    ensures NewTextMark(rect, text, None) == NewTextMark(rect, text, Some(Below))
    ensures TextDraw(NewTextMark(rect, text, None), r, xHeight)
         == Some(Command.DrawText(text, r.left, r.bottom + xHeight))
  {
  }

  /** TextBaseCoachMark.Draw: the label switch on the vertical direction. */
  method DrawLabel(m: Mark, canvas: Canvas, r: SkRect, xHeight: real)
    modifies canvas
    ensures canvas.log == old(canvas.log) + Commands(TextDraw(m, r, xHeight))
  {
    match m.position.v
    case -1 => canvas.DrawText(m.text, r.left, r.top);
    case 0 => canvas.DrawText(m.text, r.left, r.top + r.Height());
    case 1 => canvas.DrawText(m.text, r.left, r.top + r.Height() + xHeight);
    case _ =>
  }
}

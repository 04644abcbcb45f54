# SkiaSharp CoachMarks — a Dafny model of the overlay engine

SkiaSharp CoachMarks dims the whole screen with a translucent backdrop,
punches a transparent hole over each highlighted region ("coach mark") and
writes a text label beside each one. This project models the engine in
`SkiaSharp-CoachMarks/CoachMarks.cs` and proves what it draws and in what order:

- `geometry.dfy` (`Geometry`): `RectangleF`, `SKRect`, `SKSize`, the
  `Scale` extension on `RectangleF`, and the conversion to `SKRect`.
- `canvas.dfy` (`Canvas`): `SKPaint` as a class compared by identity, and
  `SKCanvas` as an append-only log of the calls the engine makes on it
  (`Clear`, the three difference clips, `ResetMatrix`, `DrawRect`, `DrawText`).
- `marks.dfy` (`Marks`): `CoachMarkPosition`, the two hole shapes
  (`CoachMarkHoleRect` with its `Roundness`, `CoachMarkHoleCircle`), the text
  mark and its constructor. The clip a hole punches and the place a label
  goes are functions (`HoleClip`, `TextDraw`). The methods `DrawHole` and
  `DrawLabel` make the same choices as canvas calls.
- `overlay.dfy` (`Overlay`): the factory `CoachMarks`, the instance
  `CoachMarksInstance` (mark list, backdrop paint, lazily created surface)
  and the compositor. `Frame` specifies the commands of one paint. `Draw`
  issues them. Its two `foreach` loops are the methods `ClipHoles` and
  `DrawLabels`.
- `walkthroughs.dfy` (`Walkthroughs`): client call chains followed by one
  paint, each with the exact frame it produces.

`Draw` is the paint handler's body. The surface's pixel size, the content
scale factor and the x-height of the label font (`metrics.XHeight`) are its
parameters. The host surface (`SKCanvasView`) is reduced to a counter of
redraw requests (`SetNeedsDisplay`). A ghost counter of created surfaces is
tied to the view field by `CoachMarksInstance.Valid`.

Behaviour of the code worth knowing, which the model follows:
- A roundness of zero or less gives the plain rectangle clip. The code does
  not clamp negative roundness; it treats it like zero.
- `Invalidate` dereferences the view field. It is not a no-op when no
  surface exists. Its only caller, `Show`, creates the surface first on iOS,
  so the model requires the surface to exist.
- `Create` takes a paint, not a colour. The default is a filled,
  non-antialiased paint with colour 0x77000000.
- The compositor calls `ResetMatrix` between the clips and the backdrop.
  The model records exactly that call, not a restore of the clip region.
- The label font's x-height is fetched at the draw's scale, so a frame at
  scale k equals the frame of the pre-scaled marks at scale 1 only when the
  two x-heights agree or no label is placed Below; the scale lemmas state
  exactly that condition, in both directions.

## Model

| member | source | states |
|---|---|---|
| `Geometry.Scale` | SkiaSharp-CoachMarks/CoachMarks.cs:260-269 | scaling multiplies X, Y, Width and Height by k and nothing else; its contract states that a positive k keeps the sign of the width and of the height (the edge-by-edge result is `ScaledEdges`) |
| `Geometry.ToSkRect` | SkiaSharp-CoachMarks/CoachMarks.cs:111 | the SKRect keeps the rectangle's origin as its left and top edges, and its edges are in order (left <= right, top <= bottom) exactly when the width, respectively the height, is non-negative |
| `Geometry.ScaleByOne` | SkiaSharp-CoachMarks/CoachMarks.cs:260-269 | scaling a RectangleF by 1 leaves it unchanged |
| `Geometry.ScaleCompose` | SkiaSharp-CoachMarks/CoachMarks.cs:260-269 | scaling by a and then by b is scaling by a*b |
| `Geometry.ScaleRoundTrip` | SkiaSharp-CoachMarks/CoachMarks.cs:260-269 | scaling by a non-zero k is undone by scaling by 1/k |
| `Geometry.ScaledEdges` | SkiaSharp-CoachMarks/CoachMarks.cs:111 | the SKRect of a scaled mark has every edge scaled by k, and its width and height are the mark's width and height times k |
| `Geometry.SkRectRoundTrip` | SkiaSharp-CoachMarks/CoachMarks.cs:111 | the ToSKRect conversion applied to each mark's scaled rect loses nothing: FromLtrb, the edges-to-rectangle conversion RectangleF.FromLTRB, recovers the rectangle from it |
| `Marks.NewTextMark` | SkiaSharp-CoachMarks/CoachMarks.cs:198-203 | a text mark keeps its rectangle and text, gets a rectangle hole with Roundness 0, and gets position Below (V = +1) when none is given |
| `Marks.HoleClip` | SkiaSharp-CoachMarks/CoachMarks.cs:158-180 | a rectangle hole clips exactly the given rect, as a round rect with both radii equal to Roundness iff Roundness > 0; a circle hole spans the rect's width exactly and is centred on its vertical midpoint |
| `Marks.NonPositiveRoundnessIsPlain` | SkiaSharp-CoachMarks/CoachMarks.cs:164-165 | any Roundness <= 0 gives the same clip as Roundness 0, a plain difference ClipRect |
| `Marks.TextMarkClipsPlainRect` | SkiaSharp-CoachMarks/CoachMarks.cs:145-149 | every text mark's hole clips its own rect with square corners |
| `Marks.CircleRadiusIgnoresHeight` | SkiaSharp-CoachMarks/CoachMarks.cs:177 | two rects of equal width give circle holes of equal radius, whatever their heights |
| `Marks.DrawHole` | SkiaSharp-CoachMarks/CoachMarks.cs:162-180 | issues exactly one canvas call, the clip HoleClip specifies |
| `Marks.TextDraw` | SkiaSharp-CoachMarks/CoachMarks.cs:205-220 | a label is drawn iff V is -1, 0 or +1; it holds the mark's text at the rect's left edge, with its baseline at the top (V = -1), the bottom (V = 0) or the bottom plus the x-height (V = +1) |
| `Marks.BaselineOrder` | SkiaSharp-CoachMarks/CoachMarks.cs:223-239 | for a rect of non-negative height and a non-negative x-height, Above's baseline is no lower than Left's and Right's, which are no lower than the default's |
| `Marks.DefaultPositionIsBelow` | SkiaSharp-CoachMarks/CoachMarks.cs:202 | a mark added without a position equals one added with Below, and its label sits one x-height below the rect |
| `Marks.DrawLabel` | SkiaSharp-CoachMarks/CoachMarks.cs:205-220 | appends the one label draw TextDraw specifies, or nothing |
| `Overlay.HoleClips` | SkiaSharp-CoachMarks/CoachMarks.cs:110-111 | one hole clip per mark |
| `Overlay.HoleClipsAt` | SkiaSharp-CoachMarks/CoachMarks.cs:110-111 | hole clip i is mark i's hole on mark i's rect scaled by the draw scale |
| `Overlay.TextDraws` | SkiaSharp-CoachMarks/CoachMarks.cs:120-121 | at most one label per mark, and exactly one per mark when every V is -1, 0 or +1 |
| `Overlay.TextDrawsAt` | SkiaSharp-CoachMarks/CoachMarks.cs:120-121 | when every V is placeable, label draw i is mark i's label on mark i's scaled rect |
| `Overlay.TextDrawsAreLabels` | SkiaSharp-CoachMarks/CoachMarks.cs:120-121 | the second loop issues nothing but DrawText calls |
| `Overlay.Placed` | SkiaSharp-CoachMarks/CoachMarks.cs:111 | the device rect of a mark is its rectangle scaled and converted to an SKRect: at scale 1 it is the mark's own SKRect, and at a positive scale its edges are in order exactly when the mark's width and height are non-negative |
| `Overlay.Frame` | SkiaSharp-CoachMarks/CoachMarks.cs:105-122 | one paint clears, clips one hole per mark, resets the matrix, fills the backdrop and draws at most one label per mark: between n + 3 and 2n + 3 commands for n marks |
| `Overlay.FrameLayout` | SkiaSharp-CoachMarks/CoachMarks.cs:105-122 | a frame for n marks has the clear at 0, mark i's hole at 1 + i, the reset at n + 1, the full-size backdrop with the instance's paint at n + 2; it has between n + 3 and 2n + 3 commands, exactly 2n + 3 when every V is placeable, and then mark i's label is at n + 3 + i |
| `Overlay.FrameOrder` | SkiaSharp-CoachMarks/CoachMarks.cs:105-122 | the backdrop rect is drawn exactly once, every clip comes before it and every label after it |
| `Overlay.FrameAfterAdd` | SkiaSharp-CoachMarks/CoachMarks.cs:90-94 | a mark added last has its hole clipped after all earlier holes and its label drawn after all earlier labels; the earlier marks' commands are unchanged |
| `Overlay.PlacedScaleMark` | SkiaSharp-CoachMarks/CoachMarks.cs:111 | a mark pre-scaled by k and placed at scale 1 gets the same device rect and hole clip as the mark at scale k |
| `Overlay.LabelScaleMark` | SkiaSharp-CoachMarks/CoachMarks.cs:205-220 | a mark's label at scale k with x-height xk equals the pre-scaled mark's label at scale 1 with x-height x1 iff xk == x1 or the mark's V is not +1, the only case that fetches the metrics |
| `Overlay.HoleClipsScaleInvariant` | SkiaSharp-CoachMarks/CoachMarks.cs:110-111 | the hole clips at scale k equal those of the pre-scaled marks at scale 1 |
| `Overlay.TextDrawsScaleInvariant` | SkiaSharp-CoachMarks/CoachMarks.cs:120-121 | the labels at scale k (x-height xk) equal those of the pre-scaled marks at scale 1 (x-height x1) iff xk == x1 or no mark has V = +1 |
| `Overlay.FrameScaleInvariant` | SkiaSharp-CoachMarks/CoachMarks.cs:105-122 | a whole frame at scale k (x-height xk) equals the frame of the pre-scaled marks at scale 1 (x-height x1) iff xk == x1 or no mark has V = +1 |
| `Overlay.CoachMarksInstance.constructor` | SkiaSharp-CoachMarks/CoachMarks.cs:45-51 | a new instance has the given paint and touch action, no marks and no surface |
| `Overlay.CoachMarksInstance.Show` | SkiaSharp-CoachMarks/CoachMarks.cs:54-86 | creates a fresh surface only when there is none, keeps an existing one, leaves exactly one surface created, adds exactly one redraw request, keeps the marks and paint, and returns the instance itself |
| `Overlay.CoachMarksInstance.Invalidate` | SkiaSharp-CoachMarks/CoachMarks.cs:96-103 | adds exactly one redraw request to the existing surface and keeps the instance invariant |
| `Overlay.CoachMarksInstance.Add` | SkiaSharp-CoachMarks/CoachMarks.cs:90-94 | appends exactly one text mark at the end, changes nothing else, keeps the instance invariant, and returns the instance itself |
| `Overlay.CoachMarksInstance.Draw` | SkiaSharp-CoachMarks/CoachMarks.cs:105-122 | appends exactly the frame Frame specifies to the canvas log |
| `Overlay.CoachMarksInstance.ClipHoles` | SkiaSharp-CoachMarks/CoachMarks.cs:110-111 | the first loop appends every mark's hole clip, in mark order |
| `Overlay.CoachMarksInstance.DrawLabels` | SkiaSharp-CoachMarks/CoachMarks.cs:120-121 | the second loop appends every mark's label draw, in mark order |
| `Overlay.CoachMarks.constructor` | SkiaSharp-CoachMarks/CoachMarks.cs:25-29 | the default backdrop is a new filled, non-antialiased paint of colour 0x77000000 |
| `Overlay.CoachMarks.Create` | SkiaSharp-CoachMarks/CoachMarks.cs:31-32 | a fresh instance with no marks and no surface, using the given paint or else the default one |
| `Walkthroughs.SingleMarkWalkthrough` | iOS/ViewController.cs:31-35 | Create().Add(rect, text).Show() requests one redraw, and a paint then clears, clips the scaled rect, resets, draws the default 0x77000000 backdrop and puts the label one x-height below the rect |
| `Walkthroughs.ShowTwice` | SkiaSharp-CoachMarks/CoachMarks.cs:54-86 | a second Show keeps the same surface and brings the redraw requests to two |
| `Walkthroughs.TwoMarkWalkthrough` | SkiaSharp-CoachMarks/CoachMarks.cs:105-122 | two marks, Above and Below, at scale 1 produce exactly the seven commands: clear, two rect holes in order, reset, the given backdrop, "A" on its top edge and "B" one x-height below its bottom edge |

## Left out

- Skia's rendering: pixel coverage of clips, antialiasing and text rasterisation. The canvas is a log of calls.
- Font metrics: `GetFontMetrics` is not modelled; the x-height is an input to `Draw`.
- The label paint (green, size 40, fake bold) is not recorded in `DrawText` commands. Neither are paint settings other than colour, style and antialiasing.
- UIKit plumbing in `Show`: the `SKCanvasView` bounds and colours, `AddSubview`, the layout constraints and `UserInteractionEnabled`. It is host-platform code.
- The tap gesture (`onTouch`, or else `RemoveFromSuperview`). The action is stored, but a tap is not modelled: it is host-platform event wiring.
- The `PaintSurface` handler wiring. Its body is `Draw`, modelled with the size and scale as parameters.
- The Android branch of `Show`. It is an empty TODO that leaves the surface null, so Android's `Invalidate` would dereference null.
- `ViewExtensions.WindowPosition` and `FromNative`. They wrap UIKit coordinate conversion.
- The integer `Rectangle.Scale` overload. The engine never calls it.
- Float rounding: coordinates are reals.
- Null text and null paint: `Add` stores a null text unchecked and the label draw then passes it to `DrawText`, which throws; the public `CoachMarksInstance` constructor stores a null paint, which then reaches `DrawRect` (only `Create` substitutes the default). The model's non-null `string` and `Paint` types exclude both error paths.
- The unused `CoachMarkHoleTypes` enum.
- The `Roundness` setter. The engine never calls it, so a hole's roundness is a value fixed when the hole is built.
- `SKPath` allocation and disposal around the circle clip. `ClipDiffCircle` records the circle directly.
- The scale argument of `DrawHole` and of the label `Draw`. The holes never read it, and the label reads it only through the font metrics, which are an input here.
- iOS/ViewController.cs and Droid/MainActivity.cs as programs. They are app bootstrap, and MainActivity calls `Create`, `Add` and `Show` overloads that do not exist in CoachMarks.cs. The iOS call chain is modelled as a client in `Walkthroughs`.

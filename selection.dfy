/** The rectangle arithmetic of the interactive cropper: where the scaled
    image lies on the canvas, clamping a selection to it, one-pixel nudges,
    aspect-locked creation and resizing, the centre-relative record a
    selection is saved in across redraws, fixed-size placement, and the
    conversion from canvas coordinates back to image pixels. Coordinates
    are exact reals. */
module Selection {
  import opened Common
  import opened Resolutions
  import opened Geometry

  // ------------------------------------------------------------ crop modes

  /** The three crop modes, "1:1", "1216:832" and "832:1216". */
  datatype CropMode = Square | Landscape | Portrait

  /** `crop_modes[mode]`: the aspect ratio as (width, height). The code tells
      the square mode apart by the two parts being equal. */
  function ModeRatio(m: CropMode): (r: (int, int))
    ensures r.0 > 0 && r.1 > 0
    ensures r.0 == r.1 <==> m == Square
    ensures r.0 > r.1 <==> m == Landscape
  {
    match m
    case Square => (1, 1)
    case Landscape => (1216, 832)
    case Portrait => (832, 1216)
  }

  /** `_calculate_fixed_rect_dimensions`: the size in image pixels of the
      fixed-size selection, which has the mode's aspect ratio and is an
      entry of the resolution catalogue. */
  function FixedDimensions(m: CropMode): (r: Size)
    ensures Positive(r)
    ensures r.width * ModeRatio(m).1 == r.height * ModeRatio(m).0
    ensures r in Candidates()
  {
    if m == Square then Size(1024, 1024)
    else if ModeRatio(m).0 > ModeRatio(m).1 then Size(1216, 832)
    else Size(832, 1216)
  }

  // ------------------------------------------------------- the image's place

  /** `image_bounds`: the canvas rectangle the scaled image is drawn in, and
      the middle of the viewport it is centred on. */
  datatype Bounds = Bounds(x1: real, y1: real, x2: real, y2: real, centerX: real, centerY: real)

  /** `_calculate_scaled_size`: `int(size * scale)` on both sides. */
  function ScaledSize(img: Size, scale: real): (r: Size)
    requires scale > 0.0
    ensures r.width as real <= img.width as real * scale < r.width as real + 1.0
    ensures r.height as real <= img.height as real * scale < r.height as real + 1.0
  {
    MulNonneg(img.width as real, scale);
    MulNonneg(img.height as real, scale);
    Size(Trunc(img.width as real * scale), Trunc(img.height as real * scale))
  }

  /** `_draw_image`: the scaled image centred in the viewport with floor
      division; its bounds are exactly the scaled size, and the recorded
      centre is within half a pixel of the middle of the bounds. */
  function DrawBounds(viewport: Size, scaled: Size): (b: Bounds)
    ensures b.x2 - b.x1 == scaled.width as real && b.y2 - b.y1 == scaled.height as real
    ensures -1.0 <= 2.0 * b.centerX - (b.x1 + b.x2) <= 1.0
    ensures -1.0 <= 2.0 * b.centerY - (b.y1 + b.y2) <= 1.0
    ensures b.x1 <= b.centerX <= b.x2 && b.y1 <= b.centerY <= b.y2
  {
    var x := (viewport.width - scaled.width) / 2;
    var y := (viewport.height - scaled.height) / 2;
    var cx := viewport.width / 2;
    var cy := viewport.height / 2;
    Bounds(x as real, y as real, (x + scaled.width) as real, (y + scaled.height) as real, cx as real, cy as real)
  }

  // ------------------------------------------------------------ rectangles

  /** A selection rectangle in canvas coordinates (`canvas.coords(rect_id)`). */
  datatype Rect = Rect(x1: real, y1: real, x2: real, y2: real)

  function Width(r: Rect): real { r.x2 - r.x1 }

  function Height(r: Rect): real { r.y2 - r.y1 }

  predicate Within(r: Rect, b: Bounds)
  {
    b.x1 <= r.x1 && r.x2 <= b.x2 && b.y1 <= r.y1 && r.y2 <= b.y2
  }

  /** `is_inside_rect`: the point lies in the closed rectangle. */
  predicate Contains(r: Rect, x: real, y: real)
  {
    r.x1 <= x <= r.x2 && r.y1 <= y <= r.y2
  }

  /** `max(lo, min(v, hi))`, the clamp every drag handler uses. */
  function Clamp(v: real, lo: real, hi: real): (r: real)
    ensures lo <= r
    ensures lo <= hi ==> r <= hi
    ensures lo <= v <= hi ==> r == v
    ensures v <= lo ==> r == lo
  {
    MaxR(lo, MinR(v, hi))
  }

  // --------------------------------------------------------- arrow-key nudge

  /** The four arrow keys bound to `move_rect`. */
  datatype Direction = LeftArrow | RightArrow | UpArrow | DownArrow

  function Opposite(d: Direction): Direction
  {
    match d
    case LeftArrow => RightArrow
    case RightArrow => LeftArrow
    case UpArrow => DownArrow
    case DownArrow => UpArrow
  }

  function Step(d: Direction): (real, real)
  {
    match d
    case LeftArrow => (-1.0, 0.0)
    case RightArrow => (1.0, 0.0)
    case UpArrow => (0.0, -1.0)
    case DownArrow => (0.0, 1.0)
  }

  function Shift(r: Rect, dx: real, dy: real): Rect
  {
    Rect(r.x1 + dx, r.y1 + dy, r.x2 + dx, r.y2 + dy)
  }

  /** `move_rect`: the rectangle moves by one canvas unit in the direction
      when the moved rectangle stays within the image, and otherwise stays
      where it is; either way its size is kept. */
  function Nudge(r: Rect, d: Direction, b: Bounds): (m: Rect)
    ensures Width(m) == Width(r) && Height(m) == Height(r)
    ensures Within(Shift(r, Step(d).0, Step(d).1), b) ==> m == Shift(r, Step(d).0, Step(d).1)
    ensures !Within(Shift(r, Step(d).0, Step(d).1), b) ==> m == r
  {
    var moved := Shift(r, Step(d).0, Step(d).1);
    if Within(moved, b) then moved else r
  }

  /** A nudge that was accepted is undone by the opposite arrow key. */
  lemma NudgeUndo(r: Rect, d: Direction, b: Bounds)
    requires Within(r, b) && Nudge(r, d, b) != r
    ensures Nudge(Nudge(r, d, b), Opposite(d), b) == r
  {
    var m := Nudge(r, d, b);
    assert Shift(m, Step(Opposite(d)).0, Step(Opposite(d)).1) == r;
  }

  // ------------------------------------------------------------ dragging

  /** `_calculate_new_position`: the top-left corner for a rectangle of the
      given size dragged by the cursor with the grab offset kept. It never
      leaves the image to the left or top, stays inside whenever the
      rectangle fits, and follows the cursor exactly when no clamping is
      needed. */
  function DragPosition(ex: real, ey: real, offsetX: real, offsetY: real, w: real, h: real, b: Bounds): (p: (real, real))
    ensures b.x1 <= p.0 && b.y1 <= p.1
    ensures w <= b.x2 - b.x1 ==> p.0 + w <= b.x2
    ensures h <= b.y2 - b.y1 ==> p.1 + h <= b.y2
    ensures b.x1 <= ex - offsetX <= b.x2 - w ==> p.0 == ex - offsetX
    ensures b.y1 <= ey - offsetY <= b.y2 - h ==> p.1 == ey - offsetY
  {
    (Clamp(ex - offsetX, b.x1, b.x2 - w), Clamp(ey - offsetY, b.y1, b.y2 - h))
  }

  /** `_constrain_to_image`: the cursor pulled into the image. */
  function ConstrainToImage(ex: real, ey: real, b: Bounds): (p: (real, real))
    ensures b.x1 <= b.x2 ==> b.x1 <= p.0 <= b.x2
    ensures b.y1 <= b.y2 ==> b.y1 <= p.1 <= b.y2
    ensures b.x1 <= ex <= b.x2 && b.y1 <= ey <= b.y2 ==> p == (ex, ey)
  {
    (Clamp(ex, b.x1, b.x2), Clamp(ey, b.y1, b.y2))
  }

  function AbsR(x: real): (r: real)
    ensures r >= 0.0 && (r == x || r == -x)
  {
    if x < 0.0 then -x else x
  }

  /** Width and height stand in the mode's ratio. */
  predicate InRatio(w: real, h: real, m: CropMode)
  {
    h * ModeRatio(m).0 as real == w * ModeRatio(m).1 as real
  }

  /** The height that goes with a width in a non-square mode. */
  function RatioHeight(w: real, m: CropMode): (h: real)
    ensures InRatio(w, h, m)
    ensures w >= 0.0 ==> h >= 0.0
  {
    var (rw, rh) := ModeRatio(m);
    DivMul(w * rh as real, rw as real);
    (w * rh as real) / rw as real
  }

  /** The width that goes with a height in a non-square mode. */
  function RatioWidth(h: real, m: CropMode): (w: real)
    ensures InRatio(w, h, m)
    ensures h >= 0.0 ==> w >= 0.0
  {
    var (rw, rh) := ModeRatio(m);
    DivMul(h * rw as real, rh as real);
    (h * rw as real) / rh as real
  }

  lemma DivMul(a: real, d: real)
    requires d > 0.0
    ensures (a / d) * d == a
    ensures a >= 0.0 ==> a / d >= 0.0
  {
  }

  /** The corner a new rectangle grows from: the press point, moved back by
      the size on each axis where the cursor is left of or above it. */
  function Anchor(start: real, cursor: real, size: real): real
  {
    if cursor < start then start - size else start
  }

  /** `_calculate_rect_dimensions` and `_create_new_rect`: the rectangle
      dragged from the press point (sx, sy) to the (already constrained)
      cursor. In the square mode it is the largest square the drag spans;
      otherwise its width is the horizontal drag and its height follows
      from the mode's ratio. It grows from the press point towards the
      cursor, and is then pushed back into the image. */
  function DraggedRect(m: CropMode, sx: real, sy: real, ex: real, ey: real, b: Bounds): (r: Rect)
    ensures Width(r) >= 0.0 && Height(r) >= 0.0
    ensures m == Square ==> Width(r) == Height(r) == MinR(AbsR(ex - sx), AbsR(ey - sy))
    ensures m != Square ==> Width(r) == AbsR(ex - sx)
    ensures InRatio(Width(r), Height(r), m)
    ensures b.x1 <= r.x1 && b.y1 <= r.y1
    ensures Width(r) <= b.x2 - b.x1 ==> r.x2 <= b.x2
    ensures Height(r) <= b.y2 - b.y1 ==> r.y2 <= b.y2
    ensures var ax := Anchor(sx, ex, Width(r));
      b.x1 <= ax <= b.x2 - Width(r) ==> r.x1 == ax
    ensures var ay := Anchor(sy, ey, Height(r));
      b.y1 <= ay <= b.y2 - Height(r) ==> r.y1 == ay
  {
    var w := if m == Square then MinR(AbsR(ex - sx), AbsR(ey - sy)) else AbsR(ex - sx);
    var h := if m == Square then w else RatioHeight(w, m);
    var x1 := Clamp(Anchor(sx, ex, w), b.x1, b.x2 - w);
    var y1 := Clamp(Anchor(sy, ey, h), b.y1, b.y2 - h);
    Rect(x1, y1, x1 + w, y1 + h)
  }

  /** `_move_rect_to_center`: the rectangle, size kept, centred on the
      click as far as the image allows. */
  function CentreOn(r: Rect, ex: real, ey: real, b: Bounds): (m: Rect)
    ensures Width(m) == Width(r) && Height(m) == Height(r)
    ensures b.x1 <= m.x1 && b.y1 <= m.y1
    ensures Width(r) <= b.x2 - b.x1 && Height(r) <= b.y2 - b.y1 ==> Within(m, b)
    ensures b.x1 <= ex - Width(r) / 2.0 <= b.x2 - Width(r) && b.y1 <= ey - Height(r) / 2.0 <= b.y2 - Height(r)
      ==> m.x1 + m.x2 == 2.0 * ex && m.y1 + m.y2 == 2.0 * ey
  {
    var w, h := Width(r), Height(r);
    var x := Clamp(ex - w / 2.0, b.x1, b.x2 - w);
    var y := Clamp(ey - h / 2.0, b.y1, b.y2 - h);
    Rect(x, y, x + w, y + h)
  }

  /** A click the rectangle could be centred on without clamping ends up
      inside the moved rectangle, so a following press grabs it. */
  lemma CentredClickInside(r: Rect, ex: real, ey: real, b: Bounds)
    requires Width(r) >= 0.0 && Height(r) >= 0.0
    requires b.x1 <= ex - Width(r) / 2.0 <= b.x2 - Width(r) && b.y1 <= ey - Height(r) / 2.0 <= b.y2 - Height(r)
    ensures Contains(CentreOn(r, ex, ey, b), ex, ey)
  {
  }

  // --------------------------------------------------------- edge resizing

  /** The edge `_handle_rect_resize` drags (`resize_edge`). */
  datatype Edge = RightEdge | LeftEdge | BottomEdge | TopEdge

  /** The four corners each pulled into the image. */
  function ClampCorners(r: Rect, b: Bounds): (c: Rect)
    ensures b.x1 <= b.x2 && b.y1 <= b.y2 ==> Within(Rect(c.x1, c.y1, c.x1, c.y1), b) && Within(Rect(c.x2, c.y2, c.x2, c.y2), b)
    ensures Within(r, b) && r.x1 <= r.x2 && r.y1 <= r.y2 ==> c == r
  {
    Rect(Clamp(r.x1, b.x1, b.x2), Clamp(r.y1, b.y1, b.y2), Clamp(r.x2, b.x1, b.x2), Clamp(r.y2, b.y1, b.y2))
  }

  /** `_handle_rect_resize` before its final clamp: the dragged edge follows
      the cursor, the opposite edge stays, the dragged side is at least 10,
      and the other side follows from the mode's ratio. Without an edge the
      rectangle is the one recorded at the press. */
  function Resized(start: Rect, edge: Option<Edge>, m: CropMode, ex: real, ey: real): (r: Rect)
    ensures edge.None? ==> r == start
    ensures edge.Some? ==> Width(r) >= 0.0 && Height(r) >= 0.0
    ensures edge.Some? ==> InRatio(Width(r), Height(r), m)
    ensures edge.Some? && m == Square ==> Width(r) == Height(r)
    ensures edge == Some(RightEdge) ==> r.x1 == start.x1 && r.y1 == start.y1 && Width(r) == MaxR(10.0, ex - start.x1)
    ensures edge == Some(LeftEdge) ==> r.x2 == start.x2 && r.y1 == start.y1 && Width(r) == MaxR(10.0, start.x2 - ex)
    ensures edge == Some(BottomEdge) ==> r.x1 == start.x1 && r.y1 == start.y1 && Height(r) == MaxR(10.0, ey - start.y1)
    ensures edge == Some(TopEdge) ==> r.x1 == start.x1 && r.y2 == start.y2 && Height(r) == MaxR(10.0, start.y2 - ey)
  {
    match edge
    case None => start
    case Some(RightEdge) =>
      var (w, h) := LockedSides(m, MaxR(10.0, ex - start.x1), true);
      Anchored(start.x1, start.y1, w, h, false, false)
    case Some(LeftEdge) =>
      var (w, h) := LockedSides(m, MaxR(10.0, start.x2 - ex), true);
      Anchored(start.x2, start.y1, w, h, true, false)
    case Some(BottomEdge) =>
      var (w, h) := LockedSides(m, MaxR(10.0, ey - start.y1), false);
      Anchored(start.x1, start.y1, w, h, false, false)
    case Some(TopEdge) =>
      var (w, h) := LockedSides(m, MaxR(10.0, start.y2 - ey), false);
      Anchored(start.x1, start.y2, w, h, false, true)
  }

  /** The rectangle of the given size with its corner at (ax, ay): the
      right edge there when `leftward`, else the left edge; the bottom edge
      there when `upward`, else the top edge. */
  function Anchored(ax: real, ay: real, w: real, h: real, leftward: bool, upward: bool): (r: Rect)
    ensures Width(r) == w && Height(r) == h
    ensures (if leftward then r.x2 else r.x1) == ax
    ensures (if upward then r.y2 else r.y1) == ay
  {
    var x1 := if leftward then ax - w else ax;
    var y1 := if upward then ay - h else ay;
    Rect(x1, y1, x1 + w, y1 + h)
  }

  /** The two sides of an aspect-locked rectangle given the dragged one
      (the width when `horizontal`, else the height): equal in the square
      mode, in the mode's ratio otherwise. */
  function LockedSides(m: CropMode, dragged: real, horizontal: bool): (s: (real, real))
    requires dragged >= 0.0
    ensures s.0 >= 0.0 && s.1 >= 0.0
    ensures (if horizontal then s.0 else s.1) == dragged
    ensures m == Square ==> s.0 == s.1
    ensures InRatio(s.0, s.1, m)
  {
    if m == Square then (dragged, dragged)
    else if horizontal then (dragged, RatioHeight(dragged, m))
    else (RatioWidth(dragged, m), dragged)
  }

  /** `_handle_rect_resize`: the resized rectangle with every corner pulled
      into the image; a resize that stays inside the image is kept as is,
      so it keeps the ratio and the minimum side of `Resized`. */
  function ResizeByEdge(start: Rect, edge: Option<Edge>, m: CropMode, ex: real, ey: real, b: Bounds): (r: Rect)
    ensures b.x1 <= b.x2 && b.y1 <= b.y2 ==> b.x1 <= r.x1 <= b.x2 && b.x1 <= r.x2 <= b.x2 && b.y1 <= r.y1 <= b.y2 && b.y1 <= r.y2 <= b.y2
    ensures edge.Some? && Within(Resized(start, edge, m, ex, ey), b) ==> r == Resized(start, edge, m, ex, ey)
  {
    ClampCorners(Resized(start, edge, m, ex, ey), b)
  }

  // ----------------------------------------------- centre-relative records

  /** `_save_rect_info`'s `relative_pos`: each corner's offset from the
      canvas centre, in image units (divided by the display scale). */
  function Relative(r: Rect, cx: real, cy: real, scale: real): Rect
    requires scale != 0.0
  {
    Rect((r.x1 - cx) / scale, (r.y1 - cy) / scale, (r.x2 - cx) / scale, (r.y2 - cy) / scale)
  }

  /** `_restore_rect_from_info`: the corners placed back around the centre
      at the display scale. */
  function Absolute(rel: Rect, cx: real, cy: real, scale: real): Rect
  {
    Rect(cx + rel.x1 * scale, cy + rel.y1 * scale, cx + rel.x2 * scale, cy + rel.y2 * scale)
  }

  lemma RescaleOffset(v: real, c: real, s: real, c2: real, s2: real)
    requires s != 0.0
    ensures c2 + ((v - c) / s) * s2 - c2 == (v - c) * (s2 / s)
  {
  }

  /** Saving a selection and restoring it after a redraw keeps every
      corner's offset from the centre, scaled by the ratio of the new
      display scale to the old. */
  lemma RestoreScalesOffsets(r: Rect, cx: real, cy: real, s: real, cx2: real, cy2: real, s2: real)
    requires s != 0.0
    ensures var a := Absolute(Relative(r, cx, cy, s), cx2, cy2, s2);
      && a.x1 - cx2 == (r.x1 - cx) * (s2 / s) && a.x2 - cx2 == (r.x2 - cx) * (s2 / s)
      && a.y1 - cy2 == (r.y1 - cy) * (s2 / s) && a.y2 - cy2 == (r.y2 - cy) * (s2 / s)
  {
    RescaleOffset(r.x1, cx, s, cx2, s2);
    RescaleOffset(r.x2, cx, s, cx2, s2);
    RescaleOffset(r.y1, cy, s, cy2, s2);
    RescaleOffset(r.y2, cy, s, cy2, s2);
  }

  /** With the same scale, restoring around a new centre moves the
      selection by exactly the centre's displacement: its size is kept. */
  lemma RestoreRecentres(r: Rect, cx: real, cy: real, s: real, cx2: real, cy2: real)
    requires s != 0.0
    ensures Absolute(Relative(r, cx, cy, s), cx2, cy2, s) == Shift(r, cx2 - cx, cy2 - cy)
  {
    RestoreScalesOffsets(r, cx, cy, s, cx2, cy2, s);
    assert s / s == 1.0;
  }

  /** Restoring with the centre and scale it was saved with gives the
      selection back. */
  lemma RestoreRoundTrip(r: Rect, cx: real, cy: real, s: real)
    requires s != 0.0
    ensures Absolute(Relative(r, cx, cy, s), cx, cy, s) == r
  {
    RestoreRecentres(r, cx, cy, s, cx, cy);
  }

  // ----------------------------------------------------- fixed-size placement

  /** `(v // step) * step`: the multiple of `step` at or below `v`. */
  function Snap(v: int, step: int): (r: int)
    requires step > 0
    ensures r % step == 0
    ensures r <= v < r + step
    ensures v >= 0 ==> r >= 0
    ensures -step <= v < 0 ==> r == -step
  {
    SnapFacts(v, step);
    (v / step) * step
  }

  lemma SnapFacts(v: int, step: int)
    requires step > 0
    ensures var r := (v / step) * step;
      r % step == 0 && r <= v < r + step
      && (v >= 0 ==> r >= 0) && (-step <= v < 0 ==> r == -step)
  {
    var q := v / step;
    DivUnique(q * step, step, q, 0);
    if -step <= v < 0 {
      DivUnique(v, step, -1, v + step);
    }
    if v >= 0 {
      MulNonnegInt(q, step);
    }
  }

  /** Euclidean division is determined by its quotient and remainder. */
  lemma DivUnique(a: int, step: int, q: int, r: int)
    requires step > 0 && 0 <= r < step && a == q * step + r
    ensures a / step == q && a % step == r
  {
    var q0, r0 := a / step, a % step;
    assert (q - q0) * step == r0 - r;
    if q > q0 {
      MulAtLeast(q - q0, step);
    } else if q < q0 {
      MulAtLeast(q0 - q, step);
    }
  }

  lemma MulAtLeast(k: int, s: int)
    requires k >= 1 && s > 0
    ensures k * s >= s
  {
  }

  lemma MulNonnegInt(a: int, b: int)
    requires a >= 0 && b >= 0
    ensures a * b >= 0
  {
  }

  /** `int((x - bounds.x1) / scale)`: a canvas click in image pixels. */
  function ClickToImage(x: real, left: real, scale: real): int
    requires scale != 0.0
  {
    Trunc((x - left) / scale)
  }

  /** `create_fixed_rect`'s top-left corner in image pixels: centred on the
      image, or centred on the click and clamped to the image, then snapped
      down to a multiple of the fixed width and height. */
  function FixedOrigin(m: CropMode, img: Size, click: Option<(int, int)>): (o: (int, int))
    ensures var t := FixedDimensions(m); o.0 % t.width == 0 && o.1 % t.height == 0
    ensures var t := FixedDimensions(m); click.Some? ==>
      0 <= o.0 <= MaxI(0, img.width - t.width) && 0 <= o.1 <= MaxI(0, img.height - t.height)
    ensures var t := FixedDimensions(m); click.None? && t.width <= img.width ==>
      0 <= o.0 <= (img.width - t.width) / 2
    ensures var t := FixedDimensions(m); click.None? && t.height <= img.height ==>
      0 <= o.1 <= (img.height - t.height) / 2
    ensures var t := FixedDimensions(m); click.None? && img.width < t.width ==> o.0 + t.width == 0
    ensures var t := FixedDimensions(m); click.None? && img.height < t.height ==> o.1 + t.height == 0
  {
    var t := FixedDimensions(m);
    var wd, hd := img.width - t.width, img.height - t.height;
    var (ix, iy) :=
      match click
      case None => (wd / 2, hd / 2)
      case Some(c) => (MaxI(0, MinI(c.0 - t.width / 2, wd)), MaxI(0, MinI(c.1 - t.height / 2, hd)));
    (Snap(ix, t.width), Snap(iy, t.height))
  }

  /** As written, centring the fixed-size selection on an image narrower
      (or shorter) than the fixed size snaps the negative half-difference
      down one whole step, so the selection ends where the image begins and
      covers none of it: 800 x 800 in 1:1 mode gives (-1024, -1024). */
  lemma CentredFixedMissesSmallImage()
    ensures var o := FixedOrigin(Square, Size(800, 800), None);
      o == (-1024, -1024) && o.0 + FixedDimensions(Square).width == 0
  {
    assert (800 - 1024) / 2 == -112;
  }

  /** The centred placement clamped at the image's top-left corner like
      the click placement is: every origin lies in [0, max(0, image -
      target)] on the snapping grid, the selection covers part of every
      non-empty image, and nothing changes for a click or for an image at
      least as large as the fixed size. */
  function FixedOriginClamped(m: CropMode, img: Size, click: Option<(int, int)>): (o: (int, int))
    ensures var t := FixedDimensions(m); o.0 % t.width == 0 && o.1 % t.height == 0
    ensures var t := FixedDimensions(m);
      0 <= o.0 <= MaxI(0, img.width - t.width) && 0 <= o.1 <= MaxI(0, img.height - t.height)
    ensures Positive(img) ==> o.0 < img.width && o.1 < img.height
    ensures var t := FixedDimensions(m);
      click.Some? || (t.width <= img.width && t.height <= img.height) ==> o == FixedOrigin(m, img, click)
  {
    var t := FixedDimensions(m);
    match click
    case Some(_) => FixedOrigin(m, img, click)
    case None =>
      (Snap(MaxI(0, (img.width - t.width) / 2), t.width), Snap(MaxI(0, (img.height - t.height) / 2), t.height))
  }

  /** `create_fixed_rect`'s canvas rectangle: the origin and the fixed size
      scaled onto the canvas from the image's top-left corner. */
  function FixedRect(m: CropMode, origin: (int, int), b: Bounds, scale: real): Rect
  {
    Placed(origin, FixedDimensions(m), b, scale)
  }

  /** An image-space rectangle at `origin` of size `t`, on the canvas. */
  function Placed(origin: (int, int), t: Size, b: Bounds, scale: real): Rect
  {
    var x1 := b.x1 + origin.0 as real * scale;
    var y1 := b.y1 + origin.1 as real * scale;
    Rect(x1, y1, x1 + t.width as real * scale, y1 + t.height as real * scale)
  }

  // ------------------------------------------------ canvas to image pixels

  /** `_convert_coords_to_image_space`: the rectangle relative to the
      image's top-left corner at scale 1, with the left and top edges
      truncated and the right and bottom edges rounded half up (for the
      non-negative coordinates a selection inside the image has). */
  function ToImageSpace(c: Rect, b: Bounds, scale: real): (box: Box)
    requires scale != 0.0
    ensures var x1 := (c.x1 - b.x1) / scale; 0.0 <= x1 ==> box.left as real <= x1 < box.left as real + 1.0
    ensures var y1 := (c.y1 - b.y1) / scale; 0.0 <= y1 ==> box.top as real <= y1 < box.top as real + 1.0
    ensures var x2 := (c.x2 - b.x1) / scale; 0.0 <= x2 ==> box.right as real - 0.5 <= x2 < box.right as real + 0.5
    ensures var y2 := (c.y2 - b.y1) / scale; 0.0 <= y2 ==> box.bottom as real - 0.5 <= y2 < box.bottom as real + 0.5
  {
    Box(Trunc((c.x1 - b.x1) / scale), Trunc((c.y1 - b.y1) / scale),
        Trunc((c.x2 - b.x1) / scale + 0.5), Trunc((c.y2 - b.y1) / scale + 0.5))
  }

  /** A canvas rectangle relative to the image's top-left corner, at
      scale 1, before any rounding. */
  function ImageEdges(c: Rect, b: Bounds, scale: real): Rect
    requires scale != 0.0
  {
    Rect((c.x1 - b.x1) / scale, (c.y1 - b.y1) / scale, (c.x2 - b.x1) / scale, (c.y2 - b.y1) / scale)
  }

  /** `_get_cropped_image`'s crop box, the conversion the save path uses:
      each edge relative to the image's top-left corner at scale 1, times
      `factor` (the width of the reopened original over the width of the
      displayed image, 1 unless the display was shrunk), all four edges
      truncated. */
  function SavedBox(c: Rect, b: Bounds, scale: real, factor: real): Box
    requires scale != 0.0
  {
    var q := ImageEdges(c, b, scale);
    Box(Trunc(q.x1 * factor), Trunc(q.y1 * factor), Trunc(q.x2 * factor), Trunc(q.y2 * factor))
  }

  /** A rectangle placed at whole image pixels reads back, before rounding,
      as exactly those pixels. */
  lemma PlacedImageEdges(origin: (int, int), t: Size, b: Bounds, scale: real)
    requires scale != 0.0
    ensures ImageEdges(Placed(origin, t, b, scale), b, scale)
        == Rect(origin.0 as real, origin.1 as real, (origin.0 + t.width) as real, (origin.1 + t.height) as real)
  {
    var r := Placed(origin, t, b, scale);
    AxisEdges(b.x1, r.x1, r.x2, origin.0, t.width, scale);
    AxisEdges(b.y1, r.y1, r.y2, origin.1, t.height, scale);
  }

  /** When the display was not shrunk (factor 1), a rectangle placed at
      whole image pixels is saved as exactly those pixels. */
  lemma PlacedSavedUnscaled(origin: (int, int), t: Size, b: Bounds, scale: real)
    requires scale != 0.0
    ensures SavedBox(Placed(origin, t, b, scale), b, scale, 1.0)
        == Box(origin.0, origin.1, origin.0 + t.width, origin.1 + t.height)
  {
    PlacedImageEdges(origin, t, b, scale);
  }

  /** A fixed-size selection on an image not shrunk for display is saved as
      exactly the fixed size, at the origin it was placed at. */
  lemma FixedRectSaved(m: CropMode, origin: (int, int), b: Bounds, scale: real)
    requires scale != 0.0
    ensures var t := FixedDimensions(m);
      SavedBox(FixedRect(m, origin, b, scale), b, scale, 1.0)
        == Box(origin.0, origin.1, origin.0 + t.width, origin.1 + t.height)
  {
    PlacedSavedUnscaled(origin, FixedDimensions(m), b, scale);
  }

  /** When the opened file was shrunk for display, the save path scales the
      fixed-size box by the factor: a 1:1 selection at the corner of a
      4000-pixel file shown at 2000 pixels is saved as 2048 by 2048 pixels,
      not the 1024 by 1024 of the catalogue size. */
  lemma ShrunkFileSavesScaledFixed(b: Bounds, scale: real)
    requires scale != 0.0
    ensures SavedBox(FixedRect(Square, (0, 0), b, scale), b, scale, 2.0) == Box(0, 0, 2048, 2048)
  {
    PlacedImageEdges((0, 0), FixedDimensions(Square), b, scale);
  }

  /** Along one axis: the edges of a span placed `o` image pixels from the
      image's edge, `w` pixels long, convert back to `o` and `o + w`. */
  lemma AxisBack(left: real, v1: real, v2: real, o: int, w: int, scale: real)
    requires scale != 0.0 && o + w >= 0
    requires v1 == left + o as real * scale && v2 == v1 + w as real * scale
    ensures Trunc((v1 - left) / scale) == o
    ensures Trunc((v2 - left) / scale + 0.5) == o + w
  {
    AxisEdges(left, v1, v2, o, w, scale);
  }

  /** Along one axis, before rounding: the edges of a span placed `o` image
      pixels from the image's edge, `w` pixels long, read back as exactly
      `o` and `o + w`. */
  lemma AxisEdges(left: real, v1: real, v2: real, o: int, w: int, scale: real)
    requires scale != 0.0
    requires v1 == left + o as real * scale && v2 == v1 + w as real * scale
    ensures (v1 - left) / scale == o as real
    ensures (v2 - left) / scale == (o + w) as real
  {
    assert v2 - left == (o + w) as real * scale;
  }

  /** A rectangle placed at whole image pixels converts back to exactly
      those pixels. */
  lemma PlacedToImageSpace(origin: (int, int), t: Size, b: Bounds, scale: real)
    requires scale != 0.0
    requires origin.0 + t.width >= 0 && origin.1 + t.height >= 0
    ensures ToImageSpace(Placed(origin, t, b, scale), b, scale)
        == Box(origin.0, origin.1, origin.0 + t.width, origin.1 + t.height)
  {
    var r := Placed(origin, t, b, scale);
    AxisBack(b.x1, r.x1, r.x2, origin.0, t.width, scale);
    AxisBack(b.y1, r.y1, r.y2, origin.1, t.height, scale);
  }

  /** A fixed-size selection converts back to exactly the fixed size in
      image pixels, at the origin it was placed at. */
  lemma FixedRectToImageSpace(m: CropMode, origin: (int, int), b: Bounds, scale: real)
    requires scale != 0.0
    requires origin.0 + FixedDimensions(m).width >= 0 && origin.1 + FixedDimensions(m).height >= 0
    ensures var t := FixedDimensions(m);
      ToImageSpace(FixedRect(m, origin, b, scale), b, scale)
        == Box(origin.0, origin.1, origin.0 + t.width, origin.1 + t.height)
  {
    PlacedToImageSpace(origin, FixedDimensions(m), b, scale);
  }
}

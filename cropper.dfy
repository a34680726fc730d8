/** The interactive cropper's editing session (`ImageCropper`): the image on
    the canvas, its orientation flags and the red selection rectangle, as
    fields that the button, key and mouse handlers update. Pixels, widgets
    and dialogs are left out; what a handler learns from them (the size of
    an opened or rotated image, the size of the viewport, a cursor
    position) is a parameter. */
module Cropper {
  import opened Common
  import opened Resolutions
  import opened Geometry
  import opened Selection
  import opened Orientation
  import opened CropperFiles

  /** `MAX_DISPLAY_SIZE` of `load_image_from_path`. */
  const MaxDisplaySize: nat := 2000

  /** The space `_init_image_settings` keeps free for buttons and labels. */
  const Margin: nat := 50

  /** `load_image_from_path`: an image larger than 2000 pixels on either
      side is shrunk, keeping its proportions, until it fits in 2000 x 2000
      with one side exactly 2000; a smaller one is shown as it is. */
  function DisplaySize(s: Size): (r: Size)
    requires Positive(s)
    ensures r.width <= MaxDisplaySize && r.height <= MaxDisplaySize
    ensures r.width <= s.width && r.height <= s.height
    ensures s.width <= MaxDisplaySize && s.height <= MaxDisplaySize ==> r == s
    ensures s.width > MaxDisplaySize || s.height > MaxDisplaySize ==>
      r.width == MaxDisplaySize || r.height == MaxDisplaySize
  {
    if s.width > MaxDisplaySize || s.height > MaxDisplaySize then
      var box := Size(MaxDisplaySize, MaxDisplaySize);
      ShrinkWithin(s, box);
      FitScaling(s, box);
      ScaleSize(s, FitRatio(s, box))
    else s
  }

  /** The fit ratio into 2000 x 2000 of an image larger than that is below
      one, so the image only shrinks. */
  lemma ShrinkWithin(s: Size, box: Size)
    requires Positive(s) && box == Size(MaxDisplaySize, MaxDisplaySize)
    requires s.width > MaxDisplaySize || s.height > MaxDisplaySize
    ensures ScaleSize(s, FitRatio(s, box)).width <= s.width
    ensures ScaleSize(s, FitRatio(s, box)).height <= s.height
  {
    var w, h := s.width as real, s.height as real;
    var ratio := FitRatio(s, box);
    FitRatioIsMin(s, box);
    if s.width > MaxDisplaySize {
      assert (2000.0 / w) * w == 2000.0;
      assert ratio <= 2000.0 / w < 1.0;
    } else {
      assert (2000.0 / h) * h == 2000.0;
      assert ratio <= 2000.0 / h < 1.0;
    }
    assert w / w == 1.0 && h / h == 1.0;
    ScaleWithin(s, s, ratio);
  }

  /** The area `_init_image_settings` fits the image into. */
  function Available(viewport: Size): Size
    requires viewport.width > Margin && viewport.height > Margin
  {
    Size(viewport.width - Margin, viewport.height - Margin)
  }

  /** `_init_image_settings`: the scale is positive, the scaled image fits
      in the viewport less the margin, and fills it along one side. */
  lemma InitialScaleFits(img: Size, viewport: Size)
    requires Positive(img) && viewport.width > Margin && viewport.height > Margin
    ensures var s := FitRatio(img, Available(viewport));
      && s > 0.0
      && ScaledSize(img, s).width <= viewport.width - Margin
      && ScaledSize(img, s).height <= viewport.height - Margin
      && (ScaledSize(img, s).width == viewport.width - Margin || ScaledSize(img, s).height == viewport.height - Margin)
  {
    var a := Available(viewport);
    FitRatioPositive(img, a);
    FitScaling(img, a);
    assert ScaledSize(img, FitRatio(img, a)) == ScaleSize(img, FitRatio(img, a));
  }

  /** Multiplying a positive scale by a positive factor gives a positive
      scale, a different one unless the factor is one. */
  lemma Rescaled(before: real, factor: real, after: real)
    requires before > 0.0 && factor > 0.0 && after == before * factor
    ensures after > 0.0
    ensures before == after <==> factor == 1.0
  {
    MulLt(before, 0.0, factor);
    if factor < 1.0 {
      MulLt(before, factor, 1.0);
    } else if factor > 1.0 {
      MulLt(before, 1.0, factor);
    }
  }

  lemma FitRatioPositive(img: Size, target: Size)
    requires Positive(img) && Positive(target)
    ensures FitRatio(img, target) > 0.0
  {
    var w, h := img.width as real, img.height as real;
    assert (target.width as real / w) * w == target.width as real;
    assert (target.height as real / h) * h == target.height as real;
  }

  /** `_init_image_settings`'s scale: the smaller of the two ratios that
      fit the image into the viewport less the margin. */
  function InitialScale(img: Size, viewport: Size): (s: real)
    requires Positive(img) && viewport.width > Margin && viewport.height > Margin
    ensures s > 0.0
  {
    InitialScaleFits(img, viewport);
    FitRatio(img, Available(viewport))
  }

  /** `image_bounds` after `_draw_image` for an image drawn at `scale`. */
  function CanvasBounds(img: Size, scale: real, viewport: Size): Bounds
    requires scale > 0.0
  {
    DrawBounds(viewport, ScaledSize(img, scale))
  }

  /** Whether `display_image` can draw `img` at `scale`. PIL's `resize`
      refuses a size with a zero side, so for an image whose scaled size
      truncates to 0 the redraw raises before the canvas is cleared, and the
      handler that called it stops there. */
  predicate Drawable(img: Size, scale: real)
    requires scale > 0.0
  {
    Positive(ScaledSize(img, scale))
  }

  /** An image more than `Available(viewport).height` times taller than
      wide cannot be drawn at its initial scale: its width truncates to 0.
      A 1x2000 file in a 1000x800 window is one; loading it sets the image,
      scale and angle but keeps the old bounds. */
  lemma ThinImageNotDrawable(img: Size, viewport: Size)
    requires Positive(img) && viewport.width > Margin && viewport.height > Margin
    requires img.width * Available(viewport).height < img.height
    ensures !Drawable(img, InitialScale(img, viewport))
  {
    ThinFitEmpty(img, Available(viewport));
  }

  lemma ThinLoadExample()
    ensures DisplaySize(Size(1, 2000)) == Size(1, 2000)
    ensures !Drawable(Size(1, 2000), InitialScale(Size(1, 2000), Size(1000, 800)))
  {
    ThinImageNotDrawable(Size(1, 2000), Size(1000, 800));
  }

  /** The selection after a redraw moves with the image's centre. */
  function Recentred(r: Option<Rect>, from: Option<Bounds>, to: Bounds): Option<Rect>
    requires r.Some? ==> from.Some?
  {
    if r.None? then None
    else Some(Shift(r.value, to.centerX - from.value.centerX, to.centerY - from.value.centerY))
  }

  /** `_save_rect_info`: the rectangle's corners relative to the image's
      centre, in image pixels, and its canvas width and height. */
  datatype RectInfo = RectInfo(relative: Rect, width: real, height: real)

  /** Every field of the session, for stating what a handler leaves alone. */
  datatype Session = Session(
    image: Option<Size>, currentFilePath: Option<string>, scale: real,
    rotationAngle: int, freeRotationAngle: real, isRotating: bool,
    rotationStartX: int, rotationStartAngle: real, isFlipped: bool,
    mode: CropMode, fixedSizeMode: bool, bounds: Option<Bounds>,
    rect: Option<Rect>, rectWidth: real, rectHeight: real, isMoving: bool,
    startX: real, startY: real, dragOffsetX: real, dragOffsetY: real)

  /** `create_fixed_rect`'s click, converted to image pixels. */
  function ClickInImage(click: Option<(real, real)>, b: Bounds, scale: real): Option<(int, int)>
    requires scale != 0.0
  {
    match click
    case None => None
    case Some(c) => Some((ClickToImage(c.0, b.x1, scale), ClickToImage(c.1, b.y1, scale)))
  }

  /** `create_fixed_rect` on a session: when an image is shown and fixed
      size is on, the selection becomes the fixed-size rectangle, centred
      or placed at the click, with the centred origin clamped at the
      image's corner as `Selection.FixedOriginClamped` corrects it;
      otherwise nothing changes. */
  function WithFixedRect(s: Session, click: Option<(real, real)>): Session
    requires s.scale > 0.0
  {
    if s.image.Some? && s.fixedSizeMode && s.bounds.Some? then
      var o := FixedOriginClamped(s.mode, s.image.value, ClickInImage(click, s.bounds.value, s.scale));
      var r := FixedRect(s.mode, o, s.bounds.value, s.scale);
      s.(rect := Some(r), rectWidth := Width(r), rectHeight := Height(r))
    else s
  }

  /** The fixed-size selection covers exactly the fixed size in image
      pixels, from an origin on the snapping grid that is never left of or
      above the image, and the size label
      (`_update_size_labels`) reads the fixed size. */
  lemma FixedSelectionCoversTarget(s: Session, click: Option<(real, real)>)
    requires s.scale > 0.0 && s.image.Some? && s.fixedSizeMode && s.bounds.Some?
    ensures var t := FixedDimensions(s.mode);
      var o := FixedOriginClamped(s.mode, s.image.value, ClickInImage(click, s.bounds.value, s.scale));
      var after := WithFixedRect(s, click);
      && after.rect.Some?
      && ToImageSpace(after.rect.value, s.bounds.value, s.scale) == Box(o.0, o.1, o.0 + t.width, o.1 + t.height)
      && Trunc(after.rectWidth / s.scale) == t.width && Trunc(after.rectHeight / s.scale) == t.height
      && o.0 % t.width == 0 && o.1 % t.height == 0 && 0 <= o.0 && 0 <= o.1
  {
    var t, b := FixedDimensions(s.mode), s.bounds.value;
    var o := FixedOriginClamped(s.mode, s.image.value, ClickInImage(click, b, s.scale));
    var r := FixedRect(s.mode, o, b, s.scale);
    assert WithFixedRect(s, click) == s.(rect := Some(r), rectWidth := Width(r), rectHeight := Height(r));
    assert o.0 + t.width >= 0 && o.1 + t.height >= 0;
    FixedRectToImageSpace(s.mode, o, b, s.scale);
    SpanOverScale(r.x1, r.x2, t.width, s.scale);
    SpanOverScale(r.y1, r.y2, t.height, s.scale);
  }

  /** The save path crops a fixed-size selection to exactly the mode's
      catalogue size in image pixels when the opened file was not shrunk
      for display (factor 1: the reopened original is as wide as the image
      shown). */
  lemma FixedSelectionSaved(s: Session, click: Option<(real, real)>)
    requires s.scale > 0.0 && s.image.Some? && s.fixedSizeMode && s.bounds.Some?
    ensures var t := FixedDimensions(s.mode);
      var o := FixedOriginClamped(s.mode, s.image.value, ClickInImage(click, s.bounds.value, s.scale));
      var after := WithFixedRect(s, click);
      && after.rect.Some?
      && SavedBox(after.rect.value, s.bounds.value, s.scale, 1.0) == Box(o.0, o.1, o.0 + t.width, o.1 + t.height)
  {
    var o := FixedOriginClamped(s.mode, s.image.value, ClickInImage(click, s.bounds.value, s.scale));
    FixedRectSaved(s.mode, o, s.bounds.value, s.scale);
  }

  /** A span of `w` image pixels drawn at `scale` reads back as `w`. */
  lemma SpanOverScale(v1: real, v2: real, w: nat, scale: real)
    requires scale > 0.0 && v2 == v1 + w as real * scale
    ensures Trunc((v2 - v1) / scale) == w
  {
    assert (v2 - v1) / scale == w as real;
  }

  class ImageCropper {
    var image: Option<Size>
    var currentFilePath: Option<string>
    var scale: real
    var rotationAngle: int
    var freeRotationAngle: real
    var isRotating: bool
    var rotationStartX: int
    var rotationStartAngle: real
    var isFlipped: bool
    var mode: CropMode
    var fixedSizeMode: bool
    var bounds: Option<Bounds>
    var rect: Option<Rect>
    var rectWidth: real
    var rectHeight: real
    var isMoving: bool
    var startX: real
    var startY: real
    var dragOffsetX: real
    var dragOffsetY: real

    ghost function State(): Session
      reads this
    {
      Session(image, currentFilePath, scale, rotationAngle, freeRotationAngle, isRotating,
        rotationStartX, rotationStartAngle, isFlipped, mode, fixedSizeMode, bounds,
        rect, rectWidth, rectHeight, isMoving, startX, startY, dragOffsetX, dragOffsetY)
    }

    /** The scale is positive, the angle a quarter turn, the free angle in
        [0, 360); bounds exist only once an image is shown, a selection only
        once bounds exist, and `rect_width`/`rect_height` are the
        selection's size. */
    ghost predicate Valid()
      reads this
    {
      && scale > 0.0
      && QuarterTurn(rotationAngle)
      && 0.0 <= freeRotationAngle < 360.0
      && 0.0 <= rotationStartAngle < 360.0
      && (image.Some? ==> Positive(image.value))
      && (bounds.Some? ==> image.Some?)
      && (rect.Some? ==> bounds.Some? && rectWidth == Width(rect.value) && rectHeight == Height(rect.value))
    }

    /** `_init_variables`. */
    constructor()
      ensures Valid()
      ensures State() == Session(None, None, 1.0, 0, 0.0, false, 0, 0.0, false, Square, false, None,
        None, 0.0, 0.0, false, 0.0, 0.0, 0.0, 0.0)
    {
      image, currentFilePath, scale := None, None, 1.0;
      rotationAngle, freeRotationAngle, isRotating := 0, 0.0, false;
      rotationStartX, rotationStartAngle, isFlipped := 0, 0.0, false;
      mode, fixedSizeMode, bounds := Square, false, None;
      rect, rectWidth, rectHeight, isMoving := None, 0.0, 0.0, false;
      startX, startY, dragOffsetX, dragOffsetY := 0.0, 0.0, 0.0, 0.0;
    }

    /** `_save_rect_info`: restored into the same centre and scale, the
        saved information gives the selection back. */
    function SaveRectInfo(): (info: Option<RectInfo>)
      reads this
      requires Valid()
      ensures info.Some? <==> rect.Some?
      ensures info.Some? ==> info.value.width == Width(rect.value) && info.value.height == Height(rect.value)
      ensures info.Some? ==>
        Absolute(info.value.relative, bounds.value.centerX, bounds.value.centerY, scale) == rect.value
    {
      if rect.None? then None
      else
        var b := bounds.value;
        RestoreRoundTrip(rect.value, b.centerX, b.centerY, scale);
        Some(RectInfo(Relative(rect.value, b.centerX, b.centerY, scale), rectWidth, rectHeight))
    }

    /** `_create_rect`: the selection becomes `r` and its size is recorded. */
    method CreateRect(r: Rect)
      requires Valid() && bounds.Some?
      modifies this
      ensures Valid()
      ensures State() == old(State()).(rect := Some(r), rectWidth := Width(r), rectHeight := Height(r))
    {
      rect := Some(r);
      rectWidth := Width(r);
      rectHeight := Height(r);
    }

    /** `_restore_rect_from_info`: the saved offsets from the centre, scaled
        back onto the canvas around the current centre. */
    method RestoreRectFromInfo(info: Option<RectInfo>)
      requires Valid() && (info.Some? ==> bounds.Some?)
      modifies this
      ensures Valid()
      ensures info.None? ==> State() == old(State())
      ensures info.Some? ==>
        var r := Absolute(info.value.relative, old(bounds).value.centerX, old(bounds).value.centerY, old(scale));
        State() == old(State()).(rect := Some(r), rectWidth := Width(r), rectHeight := Height(r))
    {
      if info.Some? {
        var b := bounds.value;
        CreateRect(Absolute(info.value.relative, b.centerX, b.centerY, scale));
      }
    }

    /** `display_image`: the image is redrawn centred in the viewport at the
        current scale, and the selection follows the image's centre keeping
        its size. When the scaled size has a zero side the resize raises
        first, and the bounds and the selection keep their old values. */
    method DisplayImage(viewport: Size)
      requires Valid()
      modifies this
      ensures Valid()
      ensures old(image).None? || !Drawable(old(image).value, old(scale)) ==> State() == old(State())
      ensures old(image).Some? && Drawable(old(image).value, old(scale)) ==>
        var b := CanvasBounds(old(image).value, old(scale), viewport);
        State() == old(State()).(bounds := Some(b), rect := Recentred(old(rect), old(bounds), b))
    {
      if image.None? || !Drawable(image.value, scale) {
        return;
      }
      var info := SaveRectInfo();
      ghost var before, from := rect, bounds;
      var b := CanvasBounds(image.value, scale, viewport);
      bounds := Some(b);
      RestoreRectFromInfo(info);
      if before.Some? {
        var c := from.value;
        RestoreRecentres(before.value, c.centerX, c.centerY, scale, b.centerX, b.centerY);
      }
    }

    /** The tail every transform handler shares: `display_image()` and then,
        when a selection was saved before the change, restoring it once
        more; the second restore puts it where the first did. A redraw that
        raises ends the handler: nothing here changes. */
    method DisplayAndRestore(viewport: Size, ghost from: Option<Bounds>, info: Option<RectInfo>)
      requires Valid() && image.Some? && bounds == from
      requires info == SaveRectInfo()
      modifies this
      ensures Valid()
      ensures !Drawable(old(image).value, old(scale)) ==> State() == old(State())
      ensures Drawable(old(image).value, old(scale)) ==>
        var b := CanvasBounds(old(image).value, old(scale), viewport);
        State() == old(State()).(bounds := Some(b), rect := Recentred(old(rect), from, b))
    {
      ghost var before := rect;
      if !Drawable(image.value, scale) {
        return;
      }
      DisplayImage(viewport);
      if info.Some? {
        RestoreRectFromInfo(info);
        var b := bounds.value;
        RestoreRecentres(before.value, from.value.centerX, from.value.centerY, scale, b.centerX, b.centerY);
      }
    }

    /** `load_image_from_path` and `_init_image_settings`, with `loaded` the
        size of the opened file (None when it cannot be loaded). The image
        is shrunk for display, the angle reset, the scale chosen to fit the
        viewport less the margin, the selection cleared and the image drawn.
        A file that cannot be loaded, or whose shrunk size has a zero side,
        changes nothing. When the image at the initial scale has a zero side
        the redraw raises after the settings were made, so the old bounds
        stay. The mirror flag and the free angle are kept. */
    method LoadImageFromPath(path: string, loaded: Option<Size>, viewport: Size)
      requires Valid()
      requires loaded.Some? ==> Positive(loaded.value)
      requires viewport.width > Margin && viewport.height > Margin
      modifies this
      ensures Valid()
      ensures loaded.None? || !Positive(DisplaySize(loaded.value)) ==> State() == old(State())
      ensures loaded.Some? && Positive(DisplaySize(loaded.value)) ==>
        var shown := DisplaySize(loaded.value);
        var s := InitialScale(shown, viewport);
        !Drawable(shown, s) ==>
        State() == old(State()).(image := Some(shown), currentFilePath := Some(path), rotationAngle := 0,
          scale := s, rect := None)
      ensures loaded.Some? && Positive(DisplaySize(loaded.value)) ==>
        var shown := DisplaySize(loaded.value);
        var s := InitialScale(shown, viewport);
        Drawable(shown, s) ==>
        State() == old(State()).(image := Some(shown), currentFilePath := Some(path), rotationAngle := 0,
          scale := s, bounds := Some(CanvasBounds(shown, s, viewport)), rect := None)
    {
      if loaded.None? {
        return;
      }
      var shown := DisplaySize(loaded.value);
      if !Positive(shown) {
        return;
      }
      image := Some(shown);
      currentFilePath := Some(path);
      InitImageSettings(viewport);
      DisplayImage(viewport);
    }

    /** `_init_image_settings`: the angle is reset, the scale chosen so that
        the image fits the viewport less the margin, and the selection
        cleared. */
    method InitImageSettings(viewport: Size)
      requires Valid() && image.Some?
      requires viewport.width > Margin && viewport.height > Margin
      modifies this
      ensures Valid()
      ensures State() == old(State()).(rotationAngle := 0, scale := InitialScale(old(image).value, viewport), rect := None)
    {
      rotationAngle := 0;
      scale := InitialScale(image.value, viewport);
      rect := None;
    }

    /** `on_drop`: the dropped path, unwrapped, is loaded when its extension
        is one the cropper opens; otherwise nothing changes. */
    method OnDrop(data: string, loaded: Option<Size>, viewport: Size)
      requires Valid()
      requires loaded.Some? ==> Positive(loaded.value)
      requires viewport.width > Margin && viewport.height > Margin
      modifies this
      ensures Valid()
      ensures !IsValidFilePath(DroppedFilePath(data)) ==> State() == old(State())
      ensures loaded.None? || !Positive(DisplaySize(loaded.value)) ==> State() == old(State())
      ensures IsValidFilePath(DroppedFilePath(data)) && loaded.Some? && Positive(DisplaySize(loaded.value)) ==>
        var shown := DisplaySize(loaded.value);
        var s := InitialScale(shown, viewport);
        !Drawable(shown, s) ==>
        State() == old(State()).(image := Some(shown), currentFilePath := Some(DroppedFilePath(data)), rotationAngle := 0,
          scale := s, rect := None)
      ensures IsValidFilePath(DroppedFilePath(data)) && loaded.Some? && Positive(DisplaySize(loaded.value)) ==>
        var shown := DisplaySize(loaded.value);
        var s := InitialScale(shown, viewport);
        Drawable(shown, s) ==>
        State() == old(State()).(image := Some(shown), currentFilePath := Some(DroppedFilePath(data)), rotationAngle := 0,
          scale := s, bounds := Some(CanvasBounds(shown, s, viewport)), rect := None)
    {
      var path := DroppedFilePath(data);
      if IsValidFilePath(path) {
        LoadImageFromPath(path, loaded, viewport);
      }
    }

    /** `rotate_image`: a quarter turn clockwise; the angle advances by 90
        modulo 360, the image's sides swap, and the selection follows the
        centre. */
    method RotateImage(viewport: Size)
      requires Valid()
      modifies this
      ensures Valid()
      ensures old(image).None? ==> State() == old(State())
      ensures old(image).Some? ==>
        var turned := Size(old(image).value.height, old(image).value.width);
        !Drawable(turned, old(scale)) ==>
        State() == old(State()).(rotationAngle := RotatedAngle(old(rotationAngle)), image := Some(turned))
      ensures old(image).Some? ==>
        var turned := Size(old(image).value.height, old(image).value.width);
        Drawable(turned, old(scale)) ==>
        var b := CanvasBounds(turned, old(scale), viewport);
        State() == old(State()).(rotationAngle := RotatedAngle(old(rotationAngle)), image := Some(turned),
          bounds := Some(b), rect := Recentred(old(rect), old(bounds), b))
    {
      if image.None? {
        return;
      }
      var info := SaveRectInfo();
      ghost var from := bounds;
      TurnQuarter();
      DisplayAndRestore(viewport, from, info);
    }

    /** The first half of `rotate_image`: the angle advances by 90 and the
        image's sides swap; the selection's saved information is kept. */
    method TurnQuarter()
      requires Valid() && image.Some?
      modifies this
      ensures Valid() && image.Some?
      ensures State() == old(State()).(rotationAngle := RotatedAngle(old(rotationAngle)),
        image := Some(Size(old(image).value.height, old(image).value.width)))
      ensures SaveRectInfo() == old(SaveRectInfo())
    {
      rotationAngle := RotatedAngle(rotationAngle);
      image := Some(Size(image.value.height, image.value.width));
    }

    /** `flip_horizontal`, corrected: the mirror flag toggles and the
        quarter-turn angle is negated, so that the saved file matches the
        canvas (see `Orientation.SaveMatchesDisplay`); the image keeps its
        size and the selection follows the centre. */
    method FlipHorizontal(viewport: Size)
      requires Valid()
      modifies this
      ensures Valid()
      ensures old(image).None? ==> State() == old(State())
      ensures old(image).Some? && !Drawable(old(image).value, old(scale)) ==>
        State() == old(State()).(rotationAngle := MirroredAngle(old(rotationAngle)), isFlipped := !old(isFlipped))
      ensures old(image).Some? && Drawable(old(image).value, old(scale)) ==>
        var b := CanvasBounds(old(image).value, old(scale), viewport);
        State() == old(State()).(rotationAngle := MirroredAngle(old(rotationAngle)), isFlipped := !old(isFlipped), bounds := Some(b), rect := Recentred(old(rect), old(bounds), b))
    {
      if image.None? {
        return;
      }
      var info := SaveRectInfo();
      ghost var from := bounds;
      rotationAngle := MirroredAngle(rotationAngle);
      isFlipped := !isFlipped;
      DisplayAndRestore(viewport, from, info);
    }

    /** The first half of `reset_rotation`: both angles return to 0 and
        the rotation and mirror flags to false; the selection is kept. */
    method ClearOrientation()
      requires Valid()
      modifies this
      ensures Valid()
      ensures State() == old(State()).(rotationAngle := 0, freeRotationAngle := 0.0, isRotating := false, isFlipped := false)
      ensures SaveRectInfo() == old(SaveRectInfo())
    {
      rotationAngle := 0;
      freeRotationAngle := 0.0;
      isRotating := false;
      isFlipped := false;
    }

    /** `reset_rotation`, with `reopened` the size of the file opened again
        (None when that fails): both angles return to 0 and the flags to
        false before the file is reopened; the reopened image is shown at the
        current scale, without the display shrink of loading. */
    method ResetRotation(reopened: Option<Size>, viewport: Size)
      requires Valid()
      requires reopened.Some? ==> Positive(reopened.value)
      modifies this
      ensures Valid()
      ensures old(image).None? ==> State() == old(State())
      ensures old(image).Some? && reopened.None? ==>
        State() == old(State()).(rotationAngle := 0, freeRotationAngle := 0.0, isRotating := false, isFlipped := false)
      ensures old(image).Some? && reopened.Some? && !Drawable(reopened.value, old(scale)) ==>
        State() == old(State()).(rotationAngle := 0, freeRotationAngle := 0.0, isRotating := false, isFlipped := false,
          image := reopened)
      ensures old(image).Some? && reopened.Some? && Drawable(reopened.value, old(scale)) ==>
        var b := CanvasBounds(reopened.value, old(scale), viewport);
        State() == old(State()).(rotationAngle := 0, freeRotationAngle := 0.0, isRotating := false, isFlipped := false,
          image := reopened, bounds := Some(b), rect := Recentred(old(rect), old(bounds), b))
    {
      if image.None? {
        return;
      }
      var info := SaveRectInfo();
      ghost var from := bounds;
      ClearOrientation();
      if reopened.None? {
        return;
      }
      image := reopened;
      DisplayAndRestore(viewport, from, info);
    }

    /** `start_free_rotation`: the drag's start and the angle it starts
        from are recorded. */
    method StartFreeRotation(x: int)
      requires Valid()
      modifies this
      ensures Valid()
      ensures State() == old(State()).(isRotating := true, rotationStartX := x, rotationStartAngle := old(freeRotationAngle))
    {
      isRotating := true;
      rotationStartX := x;
      rotationStartAngle := freeRotationAngle;
    }

    /** `do_free_rotation` with the delayed `_apply_rotation` run at once;
        `rotated` is the size of the rotated copy of the image. While a
        free rotation is under way the free angle becomes the start angle
        plus 0.3 degrees per pixel, modulo 360. */
    method DoFreeRotation(x: int, rotated: Size, viewport: Size)
      requires Valid() && Positive(rotated)
      modifies this
      ensures Valid()
      ensures !old(isRotating) || old(image).None? ==> State() == old(State())
      ensures old(isRotating) && old(image).Some? && !Drawable(rotated, old(scale)) ==>
        State() == old(State()).(freeRotationAngle := FreeAngle(old(rotationStartAngle), old(rotationStartX), x),
          image := Some(rotated))
      ensures old(isRotating) && old(image).Some? && Drawable(rotated, old(scale)) ==>
        var b := CanvasBounds(rotated, old(scale), viewport);
        State() == old(State()).(freeRotationAngle := FreeAngle(old(rotationStartAngle), old(rotationStartX), x),
          image := Some(rotated), bounds := Some(b), rect := Recentred(old(rect), old(bounds), b))
    {
      if !isRotating || image.None? {
        return;
      }
      var angle := FreeAngle(rotationStartAngle, rotationStartX, x);
      ApplyRotation(angle, rotated, viewport);
    }

    /** `_apply_rotation`: while a free rotation is under way, the angle is
        recorded and the rotated copy shown. */
    method ApplyRotation(angle: real, rotated: Size, viewport: Size)
      requires Valid() && Positive(rotated) && 0.0 <= angle < 360.0
      modifies this
      ensures Valid()
      ensures !old(isRotating) ==> State() == old(State())
      ensures old(isRotating) && !Drawable(rotated, old(scale)) ==>
        State() == old(State()).(freeRotationAngle := angle, image := Some(rotated))
      ensures old(isRotating) && Drawable(rotated, old(scale)) ==>
        var b := CanvasBounds(rotated, old(scale), viewport);
        State() == old(State()).(freeRotationAngle := angle, image := Some(rotated), bounds := Some(b),
          rect := Recentred(old(rect), old(bounds), b))
    {
      if !isRotating {
        return;
      }
      freeRotationAngle := angle;
      var info := SaveRectInfo();
      ghost var from := bounds;
      image := Some(rotated);
      DisplayAndRestore(viewport, from, info);
    }

    /** `end_free_rotation`. */
    method EndFreeRotation()
      requires Valid()
      modifies this
      ensures Valid()
      ensures State() == old(State()).(isRotating := false)
    {
      isRotating := false;
    }

    /** `zoom_with_key`: the scale is multiplied by the factor and the image
        redrawn; the selection keeps its canvas size and follows the centre,
        so it covers a different number of image pixels afterwards. */
    method ZoomWithKey(factor: real, viewport: Size)
      requires Valid() && factor > 0.0
      modifies this
      ensures Valid()
      ensures old(image).None? || factor == 1.0 ==> State() == old(State())
      ensures old(image).Some? && factor != 1.0 && !Drawable(old(image).value, old(scale) * factor) ==>
        State() == old(State()).(scale := old(scale) * factor)
      ensures old(image).Some? && factor != 1.0 && Drawable(old(image).value, old(scale) * factor) ==>
        var b := CanvasBounds(old(image).value, old(scale) * factor, viewport);
        State() == old(State()).(scale := old(scale) * factor, bounds := Some(b), rect := Recentred(old(rect), old(bounds), b))
    {
      if image.None? {
        return;
      }
      var before := scale;
      scale := scale * factor;
      Rescaled(before, factor, scale);
      if before != scale {
        DisplayImage(viewport);
      }
    }

    /** `zoom_with_mousewheel` and `_update_zoom_scale`: 1.1 for a wheel
        turned up, 0.9 otherwise. */
    method ZoomWithMousewheel(delta: int, viewport: Size)
      requires Valid()
      modifies this
      ensures Valid()
      ensures old(image).None? ==> State() == old(State())
      ensures old(image).Some? ==>
        var s := old(scale) * (if delta > 0 then 1.1 else 0.9);
        !Drawable(old(image).value, s) ==> State() == old(State()).(scale := s)
      ensures old(image).Some? ==>
        var s := old(scale) * (if delta > 0 then 1.1 else 0.9);
        Drawable(old(image).value, s) ==>
        var b := CanvasBounds(old(image).value, s, viewport);
        State() == old(State()).(scale := s, bounds := Some(b), rect := Recentred(old(rect), old(bounds), b))
    {
      if image.None? {
        return;
      }
      var before := scale;
      UpdateZoomScale(delta);
      if before != scale {
        DisplayImage(viewport);
      }
    }

    /** `_update_zoom_scale`: the scale grows by a tenth for a wheel turned
        up and shrinks by a tenth otherwise, so it always changes. */
    method UpdateZoomScale(delta: int)
      requires Valid()
      modifies this
      ensures Valid()
      ensures State() == old(State()).(scale := old(scale) * (if delta > 0 then 1.1 else 0.9))
      ensures scale != old(scale)
    {
      var factor := if delta > 0 then 1.1 else 0.9;
      var before := scale;
      scale := scale * factor;
      Rescaled(before, factor, scale);
    }

    /** `move_rect`: the selection moves one canvas pixel in the direction
        when it stays on the image, and keeps its size. */
    method MoveRect(d: Direction)
      requires Valid()
      modifies this
      ensures Valid()
      ensures old(rect).None? ==> State() == old(State())
      ensures old(rect).Some? ==> State() == old(State()).(rect := Some(Nudge(old(rect).value, d, old(bounds).value)))
    {
      if rect.None? {
        return;
      }
      rect := Some(Nudge(rect.value, d, bounds.value));
    }

    /** `is_inside_rect`. */
    predicate IsInsideRect(x: real, y: real)
      reads this
    {
      rect.Some? && Contains(rect.value, x, y)
    }

    /** `_start_rect_movement`: the cursor's offset from the selection's
        top-left corner is kept for the drag. */
    method StartRectMovement(ex: real, ey: real)
      requires Valid() && rect.Some?
      modifies this
      ensures Valid()
      ensures State() == old(State()).(isMoving := true, dragOffsetX := ex - old(rect).value.x1, dragOffsetY := ey - old(rect).value.y1)
    {
      isMoving := true;
      dragOffsetX := ex - rect.value.x1;
      dragOffsetY := ey - rect.value.y1;
    }

    /** `_move_rect_to_center`: the selection is centred on the cursor,
        clamped to the image, keeps its size, and a drag starts from it. */
    method MoveRectToCenter(ex: real, ey: real)
      requires Valid()
      modifies this
      ensures Valid()
      ensures old(rect).None? ==> State() == old(State())
      ensures old(rect).Some? ==>
        var m := CentreOn(old(rect).value, ex, ey, old(bounds).value);
        State() == old(State()).(rect := Some(m), isMoving := true, dragOffsetX := ex - m.x1, dragOffsetY := ey - m.y1)
    {
      if rect.None? {
        return;
      }
      var m := CentreOn(rect.value, ex, ey, bounds.value);
      CreateRect(m);
      StartRectMovement(ex, ey);
    }

    /** `create_fixed_rect`: see `WithFixedRect`. */
    method CreateFixedRect(click: Option<(real, real)>)
      requires Valid()
      modifies this
      ensures Valid()
      ensures State() == WithFixedRect(old(State()), click)
    {
      if !(image.Some? && fixedSizeMode && bounds.Some?) {
        return;
      }
      var b := bounds.value;
      var o := FixedOriginClamped(mode, image.value, ClickInImage(click, b, scale));
      CreateRect(FixedRect(mode, o, b, scale));
    }

    /** `_store_initial_position`: the press is where a new selection is
        drawn from. */
    method StoreInitialPosition(ex: real, ey: real)
      requires Valid()
      modifies this
      ensures Valid()
      ensures State() == old(State()).(startX := ex, startY := ey)
    {
      startX, startY := ex, ey;
    }

    /** `_handle_new_rect`: no drag of a selection is under way, and with
        fixed size on a fixed-size selection is placed at the press. */
    method HandleNewRect(ex: real, ey: real)
      requires Valid()
      modifies this
      ensures Valid()
      ensures State() == WithFixedRect(old(State()).(isMoving := false), Some((ex, ey)))
    {
      isMoving := false;
      if fixedSizeMode {
        CreateFixedRect(Some((ex, ey)));
      }
    }

    /** `on_press`: a press inside the selection starts moving it, a press
        outside centres it on the cursor, and with no selection a fixed-size
        one is placed at the press when fixed size is on. */
    method OnPress(ex: real, ey: real)
      requires Valid()
      modifies this
      ensures Valid()
      ensures startX == ex && startY == ey
      ensures old(rect).Some? && old(IsInsideRect(ex, ey)) ==>
        State() == old(State()).(startX := ex, startY := ey, isMoving := true,
          dragOffsetX := ex - old(rect).value.x1, dragOffsetY := ey - old(rect).value.y1)
      ensures old(rect).Some? && !old(IsInsideRect(ex, ey)) ==>
        var m := CentreOn(old(rect).value, ex, ey, old(bounds).value);
        State() == old(State()).(startX := ex, startY := ey, rect := Some(m), isMoving := true,
          dragOffsetX := ex - m.x1, dragOffsetY := ey - m.y1)
      ensures old(rect).None? ==>
        !isMoving && State() == WithFixedRect(old(State()).(startX := ex, startY := ey, isMoving := false), Some((ex, ey)))
    {
      StoreInitialPosition(ex, ey);
      if rect.Some? {
        if IsInsideRect(ex, ey) {
          StartRectMovement(ex, ey);
        } else {
          MoveRectToCenter(ex, ey);
        }
      } else {
        HandleNewRect(ex, ey);
      }
    }

    /** `_handle_rect_movement`: the selection follows the cursor at the
        offset the press recorded, clamped to the image, keeping its size;
        one that fits on the image stays on it. */
    method HandleRectMovement(ex: real, ey: real)
      requires Valid() && rect.Some?
      modifies this
      ensures Valid()
      ensures var w, h := Width(old(rect).value), Height(old(rect).value);
        var p := DragPosition(ex, ey, old(dragOffsetX), old(dragOffsetY), w, h, old(bounds).value);
        State() == old(State()).(rect := Some(Rect(p.0, p.1, p.0 + w, p.1 + h)))
      ensures rect.Some? && Width(rect.value) == Width(old(rect).value) && Height(rect.value) == Height(old(rect).value)
      ensures var b := old(bounds).value;
        Width(rect.value) <= b.x2 - b.x1 && Height(rect.value) <= b.y2 - b.y1 ==> Within(rect.value, b)
    {
      var w, h := Width(rect.value), Height(rect.value);
      var p := DragPosition(ex, ey, dragOffsetX, dragOffsetY, w, h, bounds.value);
      rect := Some(Rect(p.0, p.1, p.0 + w, p.1 + h));
    }

    /** `_handle_rect_creation`: the selection is redrawn from the press to
        the cursor, clamped to the image, in the mode's aspect ratio. */
    method HandleRectCreation(ex: real, ey: real)
      requires Valid() && bounds.Some?
      modifies this
      ensures Valid()
      ensures var c := ConstrainToImage(ex, ey, old(bounds).value);
        var r := DraggedRect(old(mode), old(startX), old(startY), c.0, c.1, old(bounds).value);
        State() == old(State()).(rect := Some(r), rectWidth := Width(r), rectHeight := Height(r))
      ensures InRatio(rectWidth, rectHeight, mode) && (mode == Square ==> rectWidth == rectHeight)
    {
      var c := ConstrainToImage(ex, ey, bounds.value);
      CreateRect(DraggedRect(mode, startX, startY, c.0, c.1, bounds.value));
    }

    /** `on_drag`: nothing before an image is drawn; otherwise a drag moves
        the selection after a press on it, and draws a new one when fixed
        size is off. */
    method OnDrag(ex: real, ey: real)
      requires Valid()
      modifies this
      ensures Valid()
      ensures old(bounds).None? ==> State() == old(State())
      ensures old(bounds).Some? && !(old(isMoving) && old(rect).Some?) && old(fixedSizeMode) ==> State() == old(State())
      ensures old(bounds).Some? && !(old(isMoving) && old(rect).Some?) && !old(fixedSizeMode) ==>
        var c := ConstrainToImage(ex, ey, old(bounds).value);
        var r := DraggedRect(old(mode), old(startX), old(startY), c.0, c.1, old(bounds).value);
        State() == old(State()).(rect := Some(r), rectWidth := Width(r), rectHeight := Height(r))
      ensures old(bounds).Some? && !(old(isMoving) && old(rect).Some?) && !old(fixedSizeMode) ==>
        rect.Some? && InRatio(rectWidth, rectHeight, mode)
      ensures old(bounds).Some? && old(isMoving) && old(rect).Some? ==>
        var w, h := Width(old(rect).value), Height(old(rect).value);
        var p := DragPosition(ex, ey, old(dragOffsetX), old(dragOffsetY), w, h, old(bounds).value);
        State() == old(State()).(rect := Some(Rect(p.0, p.1, p.0 + w, p.1 + h)))
      ensures old(isMoving) && old(rect).Some? ==>
        rect.Some? && Width(rect.value) == Width(old(rect).value) && Height(rect.value) == Height(old(rect).value)
    {
      if bounds.None? {
        return;
      }
      if isMoving && rect.Some? {
        HandleRectMovement(ex, ey);
      } else if !fixedSizeMode {
        HandleRectCreation(ex, ey);
      }
    }

    /** `on_release`. */
    method OnRelease()
      requires Valid()
      modifies this
      ensures Valid()
      ensures State() == old(State()).(isMoving := false)
    {
      isMoving := false;
    }

    /** `on_double_click`: a double click inside the selection removes it. */
    method OnDoubleClick(x: real, y: real)
      requires Valid()
      modifies this
      ensures Valid()
      ensures old(IsInsideRect(x, y)) ==> State() == old(State()).(rect := None)
      ensures !old(IsInsideRect(x, y)) ==> State() == old(State())
    {
      if rect.Some? && IsInsideRect(x, y) {
        rect := None;
      }
    }

    /** `change_mode` and `_handle_mode_change`: with fixed size on, the
        selection is replaced by the new mode's centred fixed-size one;
        otherwise it is removed. */
    method ChangeMode(m: CropMode)
      requires Valid()
      modifies this
      ensures Valid()
      ensures old(fixedSizeMode) ==> State() == WithFixedRect(old(State()).(mode := m), None)
      ensures !old(fixedSizeMode) ==> State() == old(State()).(mode := m, rect := None)
    {
      mode := m;
      if fixedSizeMode {
        CreateFixedRect(None);
      } else {
        rect := None;
      }
    }

    /** `toggle_fixed_size`: turning fixed size on places the centred
        fixed-size selection; turning it off removes the selection. */
    method ToggleFixedSize(on: bool)
      requires Valid()
      modifies this
      ensures Valid()
      ensures on ==> State() == WithFixedRect(old(State()).(fixedSizeMode := true), None)
      ensures !on ==> State() == old(State()).(fixedSizeMode := false, rect := None)
    {
      fixedSizeMode := on;
      if on {
        CreateFixedRect(None);
      } else {
        rect := None;
      }
    }
  }
}

/** The resize geometry shared by both batch tools: the nine alignment
    anchors, the cover-and-crop box (`calculate_crop_box`) and the
    contain-and-centre layout of the FIT mode. Only the sizes and boxes handed
    to the imaging library are modelled, never pixels. */
module Geometry {
  import opened Common
  import opened Resolutions

  datatype AlignMode =
    | TopLeft | TopCenter | TopRight
    | CenterLeft | Center | CenterRight
    | BottomLeft | BottomCenter | BottomRight

  datatype Row = Top | Middle | Bottom
  datatype Column = Left | Centre | Right

  function RowOf(a: AlignMode): Row
  {
    match a
    case TopLeft | TopCenter | TopRight => Top
    case CenterLeft | Center | CenterRight => Middle
    case BottomLeft | BottomCenter | BottomRight => Bottom
  }

  function ColumnOf(a: AlignMode): Column
  {
    match a
    case TopLeft | CenterLeft | BottomLeft => Left
    case TopCenter | Center | BottomCenter => Centre
    case TopRight | CenterRight | BottomRight => Right
  }

  /** The member name of the enumeration, as the radio buttons store it. */
  function AlignName(a: AlignMode): string
  {
    match a
    case TopLeft => "TOP_LEFT"
    case TopCenter => "TOP_CENTER"
    case TopRight => "TOP_RIGHT"
    case CenterLeft => "CENTER_LEFT"
    case Center => "CENTER"
    case CenterRight => "CENTER_RIGHT"
    case BottomLeft => "BOTTOM_LEFT"
    case BottomCenter => "BOTTOM_CENTER"
    case BottomRight => "BOTTOM_RIGHT"
  }

  /** `AlignMode[name]`: the member of that name, or a `KeyError` (None). */
  function ParseAlignMode(name: string): (r: Option<AlignMode>)
    ensures r.Some? ==> AlignName(r.value) == name
    ensures r.None? ==> forall a: AlignMode :: AlignName(a) != name
  {
    if name == "TOP_LEFT" then Some(TopLeft)
    else if name == "TOP_CENTER" then Some(TopCenter)
    else if name == "TOP_RIGHT" then Some(TopRight)
    else if name == "CENTER_LEFT" then Some(CenterLeft)
    else if name == "CENTER" then Some(Center)
    else if name == "CENTER_RIGHT" then Some(CenterRight)
    else if name == "BOTTOM_LEFT" then Some(BottomLeft)
    else if name == "BOTTOM_CENTER" then Some(BottomCenter)
    else if name == "BOTTOM_RIGHT" then Some(BottomRight)
    else None
  }

  /** Every anchor is found again under its own name. */
  lemma AlignNameRoundTrip(a: AlignMode)
    ensures ParseAlignMode(AlignName(a)) == Some(a)
  {
  }

  // ---------------------------------------------------------------- scaling

  /** Scaling a side of `n` pixels by a ratio at least `t / n` and truncating
      gives at least `t`. */
  lemma ScaledCovers(n: nat, t: nat, ratio: real)
    requires n > 0 && ratio >= t as real / n as real
    ensures Trunc(n as real * ratio) >= t
  {
    MulLe(n as real, t as real / n as real, ratio);
  }

  /** ... and by a ratio of at most `t / n` gives at most `t`. */
  lemma ScaledWithin(n: nat, t: nat, ratio: real)
    requires n > 0 && 0.0 <= ratio <= t as real / n as real
    ensures 0 <= Trunc(n as real * ratio) <= t
  {
    MulLe(n as real, ratio, t as real / n as real);
    MulLe(n as real, 0.0, ratio);
  }

  /** ... and by exactly `t / n` gives exactly `t`. */
  lemma ScaledExact(n: nat, t: nat)
    requires n > 0
    ensures Trunc(n as real * (t as real / n as real)) == t
  {
  }

  /** `int(img_size * ratio)` for both sides. */
  function ScaleSize(img: Size, ratio: real): Size
    requires ratio >= 0.0
  {
    MulNonneg(img.width as real, ratio);
    MulNonneg(img.height as real, ratio);
    Size(Trunc(img.width as real * ratio), Trunc(img.height as real * ratio))
  }

  // ---------------------------------------------------------------- crop

  /** `max(target_width / img_width, target_height / img_height)` */
  function CoverRatio(img: Size, target: Size): real
    requires Positive(img)
  {
    MaxR(target.width as real / img.width as real, target.height as real / img.height as real)
  }

  /** `min(target_width / img_width, target_height / img_height)` */
  function FitRatio(img: Size, target: Size): real
    requires Positive(img)
  {
    MinR(target.width as real / img.width as real, target.height as real / img.height as real)
  }

  /** A box in PIL's (left, upper, right, lower) order. */
  datatype Box = Box(left: int, top: int, right: int, bottom: int)

  /** `calculate_crop_box`: scale the image so that it covers the target,
      then place a target-sized window at the anchor. Returns the window and
      the scaled size. */
  function CropBox(img: Size, target: Size, align: AlignMode): (Box, Size)
    requires Positive(img)
  {
    var scaled := ScaleSize(img, CoverRatio(img, target));
    var y := match RowOf(align)
      case Top => 0
      case Middle => (scaled.height - target.height) / 2
      case Bottom => scaled.height - target.height;
    var x := match ColumnOf(align)
      case Left => 0
      case Centre => (scaled.width - target.width) / 2
      case Right => scaled.width - target.width;
    (Box(x, y, x + target.width, y + target.height), scaled)
  }

  /** The cover ratio is the larger of the two side ratios. */
  lemma CoverRatioIsMax(img: Size, target: Size)
    requires Positive(img)
    ensures var ratio := CoverRatio(img, target);
      var rw := target.width as real / img.width as real;
      var rh := target.height as real / img.height as real;
      ratio >= rw && ratio >= rh && (ratio == rw || ratio == rh)
  {
  }

  /** The cover scaling reaches the target on both sides, and the side whose
      ratio attains the maximum lands on its target exactly. */
  lemma CoverScaling(img: Size, target: Size)
    requires Positive(img)
    ensures var scaled := ScaleSize(img, CoverRatio(img, target));
      && target.width <= scaled.width && target.height <= scaled.height
      && (scaled.width == target.width || scaled.height == target.height)
  {
    CoverCovers(img, target);
    CoverExact(img, target);
  }

  /** The FIT branch resizes an image to a zero width when it is more than
      `target.height` times taller than wide: the fitting ratio is at most
      `target.height / img.height`, which brings the width below 1. */
  lemma ThinFitEmpty(img: Size, target: Size)
    requires Positive(img)
    requires img.width * target.height < img.height
    ensures Fit(img, target).scaled.width == 0
  {
    var ratio := FitRatio(img, target);
    FitRatioIsMin(img, target);
    var w, h, t := img.width as real, img.height as real, target.height as real;
    assert w * t == (img.width * target.height) as real;
    RatioBelowOne(w, h, t, ratio);
    var x := w * ratio;
    MulNonneg(w, ratio);
    assert Fit(img, target).scaled.width == Trunc(x);
  }

  /** Real arithmetic behind `ThinFitEmpty`: a ratio at most `t / h` brings
      a side `w` with `w * t < h` below 1. */
  lemma RatioBelowOne(w: real, h: real, t: real, ratio: real)
    requires 0.0 < w && 0.0 < h && 0.0 <= ratio <= t / h && w * t < h
    ensures w * ratio < 1.0
  {
    var q := t / h;
    var scaled, bound := w * ratio, w * q;
    MulNonneg(w, q - ratio);
    assert scaled <= bound;
    assert bound * h == w * t;
    if bound >= 1.0 {
      MulNonneg(bound - 1.0, h);
      assert false;
    }
  }

  /** The CROP branch never resizes to a zero side for a target with
      positive sides: the covering size is at least the target. */
  lemma CropResizeNonEmpty(img: Size, target: Size, align: AlignMode)
    requires Positive(img) && Positive(target)
    ensures Positive(CropBox(img, target, align).1)
  {
    CoverScaling(img, target);
  }

  /** Any ratio at least both side ratios scales the image to cover the
      target. */
  lemma ScaleCovers(img: Size, target: Size, ratio: real)
    requires Positive(img)
    requires ratio >= target.width as real / img.width as real
    requires ratio >= target.height as real / img.height as real
    ensures target.width <= ScaleSize(img, ratio).width
    ensures target.height <= ScaleSize(img, ratio).height
  {
    ScaledCovers(img.width, target.width, ratio);
    ScaledCovers(img.height, target.height, ratio);
  }

  lemma CoverCovers(img: Size, target: Size)
    requires Positive(img)
    ensures target.width <= ScaleSize(img, CoverRatio(img, target)).width
    ensures target.height <= ScaleSize(img, CoverRatio(img, target)).height
  {
    CoverRatioIsMax(img, target);
    ScaleCovers(img, target, CoverRatio(img, target));
  }

  lemma CoverExact(img: Size, target: Size)
    requires Positive(img)
    ensures var scaled := ScaleSize(img, CoverRatio(img, target));
      scaled.width == target.width || scaled.height == target.height
  {
    var ratio := CoverRatio(img, target);
    CoverRatioIsMax(img, target);
    if ratio == target.width as real / img.width as real {
      ScaledExact(img.width, target.width);
      assert ScaleSize(img, ratio).width == target.width;
    } else {
      ScaledExact(img.height, target.height);
      assert ScaleSize(img, ratio).height == target.height;
    }
  }

  /** For every anchor the window is exactly the target size and lies inside
      the scaled image; top anchors touch the top edge, bottom anchors the
      bottom edge, left and right anchors their edges, and centred anchors
      leave margins that differ by at most one pixel (floor division puts
      the odd pixel after the window). */
  lemma CropBoxSpec(img: Size, target: Size, align: AlignMode)
    requires Positive(img)
    ensures var (box, scaled) := CropBox(img, target, align);
      && box.right - box.left == target.width
      && box.bottom - box.top == target.height
      && 0 <= box.left && box.right <= scaled.width
      && 0 <= box.top && box.bottom <= scaled.height
      && (RowOf(align) == Top ==> box.top == 0)
      && (RowOf(align) == Bottom ==> box.bottom == scaled.height)
      && (RowOf(align) == Middle ==> box.top <= scaled.height - box.bottom <= box.top + 1)
      && (ColumnOf(align) == Left ==> box.left == 0)
      && (ColumnOf(align) == Right ==> box.right == scaled.width)
      && (ColumnOf(align) == Centre ==> box.left <= scaled.width - box.right <= box.left + 1)
  {
    CoverScaling(img, target);
  }

  // ---------------------------------------------------------------- fit

  /** The FIT layout: the image scaled to fit inside the target and the
      floor-divided offsets that centre it on the target-sized canvas. */
  datatype FitLayout = FitLayout(scaled: Size, pasteX: int, pasteY: int)

  function Fit(img: Size, target: Size): FitLayout
    requires Positive(img)
  {
    var scaled := ScaleSize(img, FitRatio(img, target));
    FitLayout(scaled, (target.width - scaled.width) / 2, (target.height - scaled.height) / 2)
  }

  /** Any non-negative ratio at most both side ratios scales the image to
      fit inside the target. */
  lemma ScaleWithin(img: Size, target: Size, ratio: real)
    requires Positive(img) && 0.0 <= ratio
    requires ratio <= target.width as real / img.width as real
    requires ratio <= target.height as real / img.height as real
    ensures ScaleSize(img, ratio).width <= target.width
    ensures ScaleSize(img, ratio).height <= target.height
  {
    ScaledWithin(img.width, target.width, ratio);
    ScaledWithin(img.height, target.height, ratio);
  }

  /** The fit ratio is the smaller of the two side ratios, and not
      negative. */
  lemma FitRatioIsMin(img: Size, target: Size)
    requires Positive(img)
    ensures var ratio := FitRatio(img, target);
      var rw := target.width as real / img.width as real;
      var rh := target.height as real / img.height as real;
      0.0 <= ratio && ratio <= rw && ratio <= rh && (ratio == rw || ratio == rh)
  {
    MulNonneg(target.width as real, 1.0 / img.width as real);
    MulNonneg(target.height as real, 1.0 / img.height as real);
  }

  /** The fit scaling stays within the target on both sides, and the side
      whose ratio attains the minimum lands on its target exactly. */
  lemma FitScaling(img: Size, target: Size)
    requires Positive(img)
    ensures FitRatio(img, target) >= 0.0
    ensures var scaled := ScaleSize(img, FitRatio(img, target));
      && scaled.width <= target.width && scaled.height <= target.height
      && (scaled.width == target.width || scaled.height == target.height)
  {
    FitRatioIsMin(img, target);
    FitWithin(img, target);
    FitExact(img, target);
  }

  lemma FitWithin(img: Size, target: Size)
    requires Positive(img)
    requires FitRatio(img, target) >= 0.0
    ensures ScaleSize(img, FitRatio(img, target)).width <= target.width
    ensures ScaleSize(img, FitRatio(img, target)).height <= target.height
  {
    FitRatioIsMin(img, target);
    ScaleWithin(img, target, FitRatio(img, target));
  }

  lemma FitExact(img: Size, target: Size)
    requires Positive(img)
    requires FitRatio(img, target) >= 0.0
    ensures var scaled := ScaleSize(img, FitRatio(img, target));
      scaled.width == target.width || scaled.height == target.height
  {
    var ratio := FitRatio(img, target);
    FitRatioIsMin(img, target);
    if ratio == target.width as real / img.width as real {
      ScaledExact(img.width, target.width);
      assert ScaleSize(img, ratio).width == target.width;
    } else {
      ScaledExact(img.height, target.height);
      assert ScaleSize(img, ratio).height == target.height;
    }
  }

  /** The scaled image fits in the canvas, one side fills it exactly, the
      offsets are non-negative, the pasted image stays on the canvas, and the
      margins on opposite sides differ by at most one pixel. */
  lemma FitSpec(img: Size, target: Size)
    requires Positive(img)
    ensures var f := Fit(img, target);
      && f.scaled.width <= target.width && f.scaled.height <= target.height
      && (f.scaled.width == target.width || f.scaled.height == target.height)
      && 0 <= f.pasteX && f.pasteX + f.scaled.width <= target.width
      && 0 <= f.pasteY && f.pasteY + f.scaled.height <= target.height
      && f.pasteX <= target.width - (f.pasteX + f.scaled.width) <= f.pasteX + 1
      && f.pasteY <= target.height - (f.pasteY + f.scaled.height) <= f.pasteY + 1
  {
    FitScaling(img, target);
  }

  /** A 2000x1000 image fitted into 1024x1024 becomes 1024x512 pasted 256
      pixels down. */
  lemma FitExample()
    ensures Fit(Size(2000, 1000), Size(1024, 1024)) == FitLayout(Size(1024, 512), 0, 256)
  {
    var ratio := FitRatio(Size(2000, 1000), Size(1024, 1024));
    assert ratio == 1024.0 / 2000.0;
    assert Trunc(2000.0 * ratio) == 1024;
    assert Trunc(1000.0 * ratio) == 512;
  }

  // ---------------------------------------------------------------- output

  /** A colour as the three integers handed to the imaging library. */
  datatype Rgb = Rgb(red: int, green: int, blue: int)

  datatype Background = Transparent | Solid(colour: Rgb)

  /** What one image becomes: the resize and the crop window handed to the
      imaging library, or the resize, the canvas and where it is pasted. */
  datatype Plan =
    | Cropped(resizeTo: Size, box: Box)
    | Fitted(resizeTo: Size, canvas: Size, background: Background, pasteX: int, pasteY: int)

  /** The plan saves an image of `size`: the crop window, or the canvas. */
  predicate Saves(p: Plan, size: Size)
  {
    match p
    case Cropped(_, box) => box.right - box.left == size.width && box.bottom - box.top == size.height
    case Fitted(_, canvas, _, _, _) => canvas == size
  }

  /** The CROP branch: resize to cover, then crop the window. */
  function CropPlan(img: Size, target: Size, align: AlignMode): Plan
    requires Positive(img)
  {
    var (box, scaled) := CropBox(img, target, align);
    Cropped(scaled, box)
  }

  /** The FIT branch: resize to fit, then paste onto a target-sized canvas. */
  function FitPlan(img: Size, target: Size, background: Background): Plan
    requires Positive(img)
  {
    var f := Fit(img, target);
    Fitted(f.scaled, target, background, f.pasteX, f.pasteY)
  }

  /** Both branches save an image of exactly the target size. */
  lemma PlansHaveTargetSize(img: Size, target: Size, align: AlignMode, background: Background)
    requires Positive(img)
    ensures Saves(CropPlan(img, target, align), target)
    ensures Saves(FitPlan(img, target, background), target)
  {
    CropBoxSpec(img, target, align);
  }
}

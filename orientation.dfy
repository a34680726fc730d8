/** How the interactive cropper orients an image: the quarter-turn angle
    and the mirror flag it keeps, the free-rotation angle a shift-drag
    sets, and where a pixel of the opened image ends up on screen and in
    the saved file after the rotate and flip buttons. */
module Orientation {
  import opened Common

  // ----------------------------------------------------------------- angles

  predicate QuarterTurn(a: int) { a == 0 || a == 90 || a == 180 || a == 270 }

  /** `rotate_image`: `(rotation_angle + 90) % 360`. */
  function RotatedAngle(a: int): (r: int)
    ensures 0 <= r < 360
    ensures QuarterTurn(a) ==> QuarterTurn(r)
    ensures 0 <= a < 270 ==> r == a + 90
  {
    (a + 90) % 360
  }

  /** The angle a flip leaves once the flip is recorded in the order it was
      pressed: mirroring after a turn by `a` is turning by `-a` after
      mirroring, so the stored angle is negated. */
  function MirroredAngle(a: int): (r: int)
    ensures 0 <= r < 360
    ensures QuarterTurn(a) ==> QuarterTurn(r) && (a + r) % 360 == 0
  {
    (360 - a) % 360
  }

  /** Four presses of the rotate button bring the angle back. */
  lemma FourRotations(a: int)
    requires 0 <= a < 360
    ensures RotatedAngle(RotatedAngle(RotatedAngle(RotatedAngle(a)))) == a
  {
  }

  /** `do_free_rotation`: the angle 0.3 degrees per pixel dragged to the
      right of where the drag started, added to the angle at the start,
      reduced with Python's float `%` into [0, 360). */
  function FreeAngle(startAngle: real, startX: int, x: int): (r: real)
    ensures 0.0 <= r < 360.0
  {
    FMod(startAngle + (x - startX) as real * 0.3, 360.0)
  }

  lemma FModInRange(x: real)
    requires 0.0 <= x < 360.0
    ensures FMod(x, 360.0) == x
  {
    assert (x / 360.0).Floor == 0;
  }

  lemma FModPeriod(x: real)
    ensures FMod(x + 360.0, 360.0) == FMod(x, 360.0)
  {
    assert (x + 360.0) / 360.0 == x / 360.0 + 1.0;
    assert ((x + 360.0) / 360.0).Floor == (x / 360.0).Floor + 1;
  }

  /** Before the cursor moves, the free angle is the one the drag started
      from. */
  lemma FreeAngleAtStart(startAngle: real, startX: int)
    requires 0.0 <= startAngle < 360.0
    ensures FreeAngle(startAngle, startX, startX) == startAngle
  {
    FModInRange(startAngle);
  }

  /** Dragging 1200 pixels further turns the image a full circle: the
      angle is the same. */
  lemma FreeAngleFullCircle(startAngle: real, startX: int, x: int)
    ensures FreeAngle(startAngle, startX, x + 1200) == FreeAngle(startAngle, startX, x)
  {
    var v := startAngle + (x - startX) as real * 0.3;
    assert startAngle + (x + 1200 - startX) as real * 0.3 == v + 360.0;
    FModPeriod(v);
  }

  // ----------------------------------------------------------------- pixels

  /** The pixel at column x, row y of a w x h image. */
  datatype Pixel = Pixel(x: int, y: int, w: int, h: int)

  predicate InImage(p: Pixel) { 0 <= p.x < p.w && 0 <= p.y < p.h }

  /** `rotate(-90, expand=True)`: a quarter turn clockwise; width and
      height swap. */
  function TurnCW(p: Pixel): (q: Pixel)
    ensures InImage(p) ==> InImage(q)
  {
    Pixel(p.h - 1 - p.y, p.x, p.h, p.w)
  }

  /** `transpose(FLIP_LEFT_RIGHT)`: the column is mirrored. */
  function Mirror(p: Pixel): (q: Pixel)
    ensures InImage(p) ==> InImage(q)
  {
    Pixel(p.w - 1 - p.x, p.y, p.w, p.h)
  }

  /** Flipping twice gives the image back. */
  lemma MirrorTwice(p: Pixel)
    ensures Mirror(Mirror(p)) == p
  {
  }

  /** `k` quarter turns clockwise. */
  function Turns(p: Pixel, k: nat): Pixel
  {
    if k == 0 then p else TurnCW(Turns(p, k - 1))
  }

  lemma TurnsUnfold(p: Pixel)
    ensures Turns(p, 1) == TurnCW(p)
    ensures Turns(p, 2) == TurnCW(TurnCW(p))
    ensures Turns(p, 3) == TurnCW(TurnCW(TurnCW(p)))
    ensures Turns(p, 4) == TurnCW(TurnCW(TurnCW(TurnCW(p))))
  {
    assert Turns(p, 0) == p;
  }

  /** Four quarter turns are no turn at all. */
  lemma FourTurns(p: Pixel)
    ensures Turns(p, 4) == p
  {
    TurnsUnfold(p);
  }

  /** Mirroring after k quarter turns is mirroring first and turning the
      other way round. */
  lemma MirrorTurns(p: Pixel, k: nat)
    requires k < 4
    ensures Mirror(Turns(p, k)) == Turns(Mirror(p), (4 - k) % 4)
  {
    TurnsUnfold(p);
    TurnsUnfold(Mirror(p));
    assert Turns(Mirror(p), 0) == Mirror(p);
  }

  // ------------------------------------------------------ the button presses

  datatype Press = RotatePress | FlipPress

  function Apply(q: Press, p: Pixel): Pixel
  {
    match q
    case RotatePress => TurnCW(p)
    case FlipPress => Mirror(p)
  }

  /** Where the canvas shows a pixel of the opened image after the presses:
      `rotate_image` and `flip_horizontal` each transform the displayed
      image in place, in the order they are pressed. */
  function Displayed(presses: seq<Press>, p: Pixel): Pixel
  {
    if presses == [] then p
    else Apply(presses[|presses| - 1], Displayed(presses[..|presses| - 1], p))
  }

  lemma DisplayedStep(presses: seq<Press>, q: Press, p: Pixel)
    ensures Displayed(presses + [q], p) == Apply(q, Displayed(presses, p))
  {
    assert (presses + [q])[..|presses|] == presses;
  }

  /** The canvas after rotate then flip. */
  lemma DisplayedRotateFlip(p: Pixel)
    ensures Displayed([RotatePress, FlipPress], p) == Mirror(TurnCW(p))
  {
    DisplayedStep([], RotatePress, p);
    assert [] + [RotatePress] == [RotatePress];
    DisplayedStep([RotatePress], FlipPress, p);
    assert [RotatePress] + [FlipPress] == [RotatePress, FlipPress];
  }

  /** `rotation_angle` and `is_flipped`. */
  datatype Flags = Flags(angle: int, flipped: bool)

  /** The flags after the presses, as `rotate_image` and `flip_horizontal`
      update them from their initial values. */
  function FlagsAfter(presses: seq<Press>): (f: Flags)
    ensures QuarterTurn(f.angle)
  {
    if presses == [] then Flags(0, false)
    else
      var f := FlagsAfter(presses[..|presses| - 1]);
      match presses[|presses| - 1]
      case RotatePress => f.(angle := RotatedAngle(f.angle))
      case FlipPress => f.(flipped := !f.flipped)
  }

  /** `_get_cropped_image` with no free rotation: the file is mirrored when
      `is_flipped`, then rotated by `-rotation_angle` with expansion, that
      is, turned clockwise a quarter turn per 90 degrees. */
  function Saved(f: Flags, p: Pixel): Pixel
    requires QuarterTurn(f.angle)
  {
    Turns(if f.flipped then Mirror(p) else p, f.angle / 90)
  }

  /** As written, rotating and then flipping saves every pixel half a turn
      away from where the canvas shows it. */
  lemma RotateThenFlipTurnsHalfway(p: Pixel)
    ensures Saved(FlagsAfter([RotatePress, FlipPress]), p) == Turns(Displayed([RotatePress, FlipPress], p), 2)
  {
    var ps := [RotatePress, FlipPress];
    assert ps[..1] == [RotatePress] && ps[..1][..0] == [];
    assert FlagsAfter(ps) == Flags(90, true);
    DisplayedRotateFlip(p);
    TurnsUnfold(Mirror(p));
    TurnsUnfold(Mirror(TurnCW(p)));
  }

  /** Hence, as written, after rotate then flip the saved pixel is the one
      shown on the canvas only for the centre pixel of an image with an odd
      width and an odd height. */
  lemma RotateThenFlipMisplaces(p: Pixel)
    ensures var d := Displayed([RotatePress, FlipPress], p);
      Saved(FlagsAfter([RotatePress, FlipPress]), p) == d <==> 2 * d.x == d.w - 1 && 2 * d.y == d.h - 1
  {
    RotateThenFlipTurnsHalfway(p);
    TurnsUnfold(Displayed([RotatePress, FlipPress], p));
  }

  /** In a 2 x 2 image, rotate then flip: the pixel the canvas shows at the
      top left is saved at the bottom right. */
  lemma RotateThenFlipExample()
    ensures Displayed([RotatePress, FlipPress], Pixel(0, 0, 2, 2)) == Pixel(0, 0, 2, 2)
    ensures Saved(FlagsAfter([RotatePress, FlipPress]), Pixel(0, 0, 2, 2)) == Pixel(1, 1, 2, 2)
  {
    var q := Pixel(0, 0, 2, 2);
    DisplayedRotateFlip(q);
    assert TurnCW(q) == Pixel(1, 0, 2, 2);
    assert Mirror(TurnCW(q)) == q;
    RotateThenFlipTurnsHalfway(q);
    TurnsUnfold(q);
    assert TurnCW(TurnCW(q)) == Pixel(1, 1, 2, 2);
  }

  /** The flags with a flip that records the order of the presses: a flip
      after a quarter-turn angle a equals a flip first followed by the
      angle turned back, so the flip negates the stored angle. */
  function FlagsCorrected(presses: seq<Press>): (f: Flags)
    ensures QuarterTurn(f.angle)
  {
    if presses == [] then Flags(0, false)
    else
      var f := FlagsCorrected(presses[..|presses| - 1]);
      match presses[|presses| - 1]
      case RotatePress => f.(angle := RotatedAngle(f.angle))
      case FlipPress => Flags(MirroredAngle(f.angle), !f.flipped)
  }

  /** With the corrected flags the saved file shows every pixel where the
      canvas showed it, for every sequence of presses. */
  lemma {:induction false} SaveMatchesDisplay(presses: seq<Press>, p: Pixel)
    ensures Saved(FlagsCorrected(presses), p) == Displayed(presses, p)
    decreases |presses|
  {
    if presses != [] {
      var init, last := presses[..|presses| - 1], presses[|presses| - 1];
      assert presses == init + [last];
      SaveMatchesDisplay(init, p);
      DisplayedStep(init, last, p);
      var f := FlagsCorrected(init);
      var b := if f.flipped then Mirror(p) else p;
      var k := f.angle / 90;
      assert 0 <= k < 4;
      if last == RotatePress {
        RotateStep(b, f.angle);
      } else {
        MirrorTurns(b, k);
        MirrorTwice(p);
        FlipAngle(f.angle);
      }
    }
  }

  /** One more quarter turn on top of a quarter-turn angle. */
  lemma RotateStep(b: Pixel, a: int)
    requires QuarterTurn(a)
    ensures TurnCW(Turns(b, a / 90)) == Turns(b, RotatedAngle(a) / 90)
  {
    TurnsUnfold(b);
    assert Turns(b, 0) == b;
  }

  /** Negating a quarter-turn angle turns the other way round. */
  lemma FlipAngle(a: int)
    requires QuarterTurn(a)
    ensures MirroredAngle(a) / 90 == (4 - a / 90) % 4
  {
  }

  /** Every flip in the presses comes while the angle is 0 or 180 degrees. */
  predicate FlipsAtHalfTurns(presses: seq<Press>)
  {
    presses != [] ==>
      var init := presses[..|presses| - 1];
      FlipsAtHalfTurns(init) && (presses[|presses| - 1] == FlipPress ==> FlagsAfter(init).angle % 180 == 0)
  }

  /** The two ways of keeping the flags agree as long as every flip is
      pressed while the angle is 0 or 180 degrees. */
  lemma {:induction false} FlagsAgreeAtHalfTurns(presses: seq<Press>)
    requires FlipsAtHalfTurns(presses)
    ensures FlagsCorrected(presses) == FlagsAfter(presses)
    decreases |presses|
  {
    if presses != [] {
      FlagsAgreeAtHalfTurns(presses[..|presses| - 1]);
    }
  }
}

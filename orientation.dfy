/** rotate_image: the angle chosen from the EXIF Orientation tag. */
module Orientation {
  import opened Wrappers

  /**
   * The counter-clockwise angle passed to Image.rotate for the Orientation
   * value read from the image; None when the image has no EXIF block or no
   * Orientation entry (the AttributeError and KeyError the code swallows).
   */
  function RotationAngle(orientation: Option<int>): (degrees: int)
    ensures degrees == 0 || degrees == 90 || degrees == 180 || degrees == 270
    ensures degrees == 180 <==> orientation == Some(3)
    ensures degrees == 270 <==> orientation == Some(6)
    ensures degrees == 90 <==> orientation == Some(8)
  {
    match orientation
    case None => 0
    case Some(v) =>
      if v == 3 then 180
      else if v == 6 then 270
      else if v == 8 then 90
      else 0
  }

  /**
   * The clockwise turn that brings an image upright, for the Orientation
   * values of the EXIF standard that involve no mirroring (1, 3, 6 and 8);
   * None for the mirrored values 2, 4, 5, 7 and for values outside 1..8.
   */
  function UprightTurn(v: int): Option<int>
  {
    if v == 1 then Some(0)
    else if v == 3 then Some(180)
    else if v == 6 then Some(90)
    else if v == 8 then Some(270)
    else None
  }

  /** For every unmirrored orientation the chosen counter-clockwise angle undoes the stored turn. */
  lemma RotationMakesUpright(v: int)
    requires UprightTurn(v).Some?
    ensures (RotationAngle(Some(v)) + UprightTurn(v).value) % 360 == 0
  {
  }

  /** Mirrored orientations are left as stored: the code neither flips nor turns them. */
  lemma MirroredLeftAlone(v: int)
    requires v == 2 || v == 4 || v == 5 || v == 7
    ensures RotationAngle(Some(v)) == 0
  {
  }
}

/**
 * Display-orientation arithmetic of MainView.updateView: the display
 * rotation code becomes degrees, and the sensor orientation of the camera is
 * combined with it, mirrored for a front-facing camera.
 */
module Orientation {

  /** android.view.Surface rotation codes. */
  const Rotation0: int := 0
  const Rotation90: int := 1
  const Rotation180: int := 2
  const Rotation270: int := 3

  /** Camera.CameraInfo facing values. */
  const CameraFacingBack: int := 0
  const CameraFacingFront: int := 1

  predicate IsRotationCode(rotation: int)
  {
    Rotation0 <= rotation <= Rotation270
  }

  predicate IsRightAngle(d: int)
  {
    d == 0 || d == 90 || d == 180 || d == 270
  }

  /**
   * Kotlin's `a % 360` on Int: the quotient is truncated toward zero, so the
   * remainder takes the sign of the dividend. Every `%` of updateView is by 360.
   */
  function Rem360(a: int): (r: int)
    ensures -360 < r < 360
    ensures a >= 0 ==> 0 <= r
    ensures a <= 0 ==> r <= 0
    ensures (a - r) % 360 == 0
  {
    if a >= 0 then a % 360 else -((-a) % 360)
  }

  /** The `when (rotation)` table: quarter turns of the display in degrees. */
  function Degrees(rotation: int): (d: int)
    ensures IsRightAngle(d)
    ensures IsRotationCode(rotation) ==> d == 90 * rotation
    ensures !IsRotationCode(rotation) ==> d == 0
  {
    if rotation == Rotation0 then 0
    else if rotation == Rotation90 then 90
    else if rotation == Rotation180 then 180
    else if rotation == Rotation270 then 270
    else 0
  }

  /**
   * The value updateView passes to setDisplayOrientation: for a front-facing
   * camera the angle that cancels sensor orientation plus display rotation
   * (the mirror image), otherwise the sensor orientation turned back by the
   * display rotation, in [0, 360) whenever both inputs are.
   */
  function DisplayOrientation(facing: int, orientation: int, degrees: int): (r: int)
    ensures facing == CameraFacingFront ==> (r + orientation + degrees) % 360 == 0
    ensures facing != CameraFacingFront ==> (r + degrees - orientation) % 360 == 0
    ensures 0 <= orientation < 360 && 0 <= degrees < 360 ==> 0 <= r < 360
  {
    if facing == CameraFacingFront then
      var raw := Rem360(orientation + degrees);
      Rem360(360 - raw)  // compensate the mirror
    else
      Rem360(orientation - degrees + 360)
  }

  /** For a sensor orientation in [0, 360) the result is an angle in [0, 360). */
  lemma DisplayOrientationInRange(facing: int, orientation: int, rotation: int)
    requires 0 <= orientation < 360
    ensures 0 <= DisplayOrientation(facing, orientation, Degrees(rotation)) < 360
  {
  }

  /** On these inputs no operand is negative, so Kotlin's `%` is the modulus. */
  lemma DisplayOrientationClosedForm(facing: int, orientation: int, rotation: int)
    requires 0 <= orientation < 360
    ensures var d := Degrees(rotation);
      DisplayOrientation(facing, orientation, d) ==
        if facing == CameraFacingFront then (360 - (orientation + d) % 360) % 360
        else (orientation - d + 360) % 360
  {
  }

  /**
   * Front-facing: the result is the one angle in [0, 360) that cancels the
   * sensor orientation plus the display rotation (the mirror image).
   */
  lemma FrontCancelsRotation(orientation: int, rotation: int, x: int)
    requires 0 <= orientation < 360
    requires 0 <= x < 360
    ensures var r := DisplayOrientation(CameraFacingFront, orientation, Degrees(rotation));
      (x + orientation + Degrees(rotation)) % 360 == 0 <==> x == r
  {
    var d := Degrees(rotation);
    var sum := orientation + d;
    var raw := if sum < 360 then sum else sum - 360;
    assert Rem360(sum) == raw;
    assert (x + sum) % 360 == (x + raw) % 360;
    assert (x + raw) % 360 == 0 <==> x + raw == 0 || x + raw == 360;
  }

  /**
   * Back-facing: the result is the one angle in [0, 360) that, turned by the
   * display rotation, gives back the sensor orientation.
   */
  lemma BackUndoesRotation(facing: int, orientation: int, rotation: int, x: int)
    requires facing != CameraFacingFront
    requires 0 <= orientation < 360
    requires 0 <= x < 360
    ensures var r := DisplayOrientation(facing, orientation, Degrees(rotation));
      (x + Degrees(rotation)) % 360 == orientation <==> x == r
  {
  }

  /** The mirror step `(360 - x) % 360` undoes itself on [0, 360). */
  lemma MirrorInvolution(x: int)
    requires 0 <= x < 360
    ensures Rem360(360 - Rem360(360 - x)) == x
  {
  }

  /** Back-facing camera at 90 degrees, display at ROTATION_0: 90. */
  lemma BackScenario()
    ensures DisplayOrientation(CameraFacingBack, 90, Degrees(Rotation0)) == 90
  {
  }

  /** Front-facing camera at 270 degrees, display at ROTATION_90: 0. */
  lemma FrontScenario()
    ensures DisplayOrientation(CameraFacingFront, 270, Degrees(Rotation90)) == 0
  {
  }
}

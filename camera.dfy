/**
 * The interactive camera controller behind a camera reference (scene/ref_entities.cpp,
 * RefCameraPrivate). It keeps Euler angles in degrees, an orthonormal frame, a position, and
 * an orbit pivot at distance `zoom` in front of the camera. The mouse updates the angles in
 * first-person mode (with a ring buffer of recent mouse deltas for smoothing), the wheel
 * changes the movement speed or the zoom, and a drag orbits the camera around the pivot.
 *
 * Turning angles into a frame (glm's quaternion, matrix and normalisation) is a parameter of
 * the operations that need it.
 */
module CameraControl {
  import opened Numeric

  /** The fixed tuning constants of FpsData and EditorData. */
  const MOUSE_SENSITIVITY: real := 5.0
  const YAW_SENSITIVITY: real := 0.022
  const PITCH_SENSITIVITY: real := 0.022
  const MOUSE_WHEEL_SENSITIVITY: real := 10.0
  const SMOOTH_HISTORY_USAGE: nat := 1
  const SMOOTH_HISTORY_SIZE: nat := 16
  const ZOOM_SPEED: real := 0.2
  const MIN_ZOOM: real := 0.1
  const MIN_SPEED: real := 20.0
  const MAX_PITCH_STEP: real := 90.0

  /** The camera's frame: axis[0], axis[1] and axis[2] (the last points backwards). */
  datatype Axes = Axes(right: Vec3, up: Vec3, back: Vec3)

  /** The frame of a (pitch, yaw, roll) triple in degrees. */
  type Orientation = (real, real, real) -> Axes

  function VAdd(a: Vec3, b: Vec3): Vec3 { Vec3(a.x + b.x, a.y + b.y, a.z + b.z) }
  function VSub(a: Vec3, b: Vec3): Vec3 { Vec3(a.x - b.x, a.y - b.y, a.z - b.z) }
  function VScale(a: Vec3, s: real): Vec3 { Vec3(a.x * s, a.y * s, a.z * s) }

  /** The pan of updateCenter: the delta along the camera's right and up axes, scaled by s. */
  function PanOffset(axes: Axes, delta: Vec2, s: real): Vec3
  {
    VAdd(VScale(axes.right, delta.x * s), VScale(axes.up, delta.y * s))
  }

  /** Pitch confined to [-90, 90]. */
  function ClampPitch(p: real): (r: real)
    ensures -90.0 <= r <= 90.0
    ensures -90.0 <= p <= 90.0 ==> r == p
  {
    if p < -90.0 then -90.0 else if p > 90.0 then 90.0 else p
  }

  /** A pitch change of more than 90 degrees is cut to 90, in either direction. */
  function LimitStep(previous: real, p: real): (r: real)
  {
    if p - previous > MAX_PITCH_STEP then previous + MAX_PITCH_STEP
    else if previous - p > MAX_PITCH_STEP then previous - MAX_PITCH_STEP
    else p
  }

  /** The new pitch of updateAngles: first clamped to [-90, 90], then limited to a 90-degree step. */
  function UpdatedPitch(previous: real, p: real): real
  {
    LimitStep(previous, ClampPitch(p))
  }

  /** The step limit never moves the pitch more than 90 degrees, and leaves a smaller step alone. */
  lemma LimitStepBounds(previous: real, p: real)
    ensures -MAX_PITCH_STEP <= LimitStep(previous, p) - previous <= MAX_PITCH_STEP
    ensures -MAX_PITCH_STEP <= p - previous <= MAX_PITCH_STEP ==> LimitStep(previous, p) == p
    ensures p >= previous ==> previous <= LimitStep(previous, p) <= p
    ensures p <= previous ==> p <= LimitStep(previous, p) <= previous
  {
  }

  /**
   * updateAngles keeps the pitch within [-90, 90] when it starts within [-180, 180], which
   * holds in particular when it starts within [-90, 90]; the pitch never moves by more than 90.
   */
  lemma UpdatedPitchRange(previous: real, p: real)
    ensures -MAX_PITCH_STEP <= UpdatedPitch(previous, p) - previous <= MAX_PITCH_STEP
    ensures -180.0 <= previous <= 180.0 ==> -90.0 <= UpdatedPitch(previous, p) <= 90.0
  {
    LimitStepBounds(previous, ClampPitch(p));
  }

  /**
   * The step limit is applied after the clamp, so a pitch that a drag has left beyond 180
   * degrees is brought back by at most 90 degrees and stays outside [-90, 90].
   */
  lemma UpdatedPitchAfterLongDrag()
    ensures UpdatedPitch(300.0, 0.0) == 210.0
  {
  }

  /** The sum of the k most recent entries of the ring buffer, newest first. */
  function SmoothSum(history: seq<Vec2>, count: nat, k: nat): (s: Vec2)
    requires |history| == SMOOTH_HISTORY_SIZE && k <= SMOOTH_HISTORY_SIZE
  {
    if k == 0 then Vec2(0.0, 0.0)
    else
      var e := history[(count - (k - 1) + SMOOTH_HISTORY_SIZE) % SMOOTH_HISTORY_SIZE];
      var s := SmoothSum(history, count, k - 1);
      Vec2(s.x + e.x, s.y + e.y)
  }

  /** With one entry of smoothing, the smoothed delta is the newest entry of the buffer. */
  lemma SmoothOne(history: seq<Vec2>, count: nat)
    requires |history| == SMOOTH_HISTORY_SIZE
    ensures SmoothSum(history, count, 1) == history[count % SMOOTH_HISTORY_SIZE]
  {
    assert (count - 0 + SMOOTH_HISTORY_SIZE) % SMOOTH_HISTORY_SIZE == count % SMOOTH_HISTORY_SIZE;
  }

  /** Zooming in (a positive wheel step) never moves away from the pivot, zooming out never closer. */
  lemma ZoomDirection(zoom: real, step: real)
    requires zoom >= MIN_ZOOM
    ensures var z := NewZoom(zoom, step);
            z >= MIN_ZOOM && (step > 0.0 ==> z <= zoom) && (step < 0.0 ==> z >= zoom)
  {
    var l := zoom * ZOOM_SPEED;
    assert l > 0.0;
    if step > 0.0 {
      assert step * l > 0.0;
    } else if step < 0.0 {
      assert step * l < 0.0;
    }
  }

  /** The zoom after one wheel step: shrunk by a fifth of itself per unit step, never below 0.1. */
  function NewZoom(zoom: real, step: real): real
  {
    var z := zoom - step * (zoom * ZOOM_SPEED);
    if z < MIN_ZOOM then MIN_ZOOM else z
  }

  class CameraController {
    var pitch: real
    var yaw: real
    var roll: real
    var axes: Axes
    var position: Vec3
    var pivot: Vec3
    var zoom: real
    var movementSpeed: real
    /** fps_data.smooth_history and its write counter. */
    const history: array<Vec2>
    var historyCount: nat

    /** The camera sits zoom units behind the pivot, along its own backward axis. */
    predicate Orbiting()
      reads this
    {
      position == VAdd(pivot, VScale(axes.back, zoom))
    }

    /** What every update keeps: the ring buffer's size, the speed and zoom floors, the orbit. */
    predicate Valid()
      reads this
    {
      history.Length == SMOOTH_HISTORY_SIZE && movementSpeed >= MIN_SPEED && zoom >= MIN_ZOOM && Orbiting()
    }

    /** RefCameraPrivate(): level, looking down -z from (0, 0, 40) at the origin. */
    constructor ()
      ensures Valid() && fresh(history)
      ensures pitch == 0.0 && yaw == 0.0 && roll == 0.0
      ensures position == Vec3(0.0, 0.0, 40.0) && pivot == Vec3(0.0, 0.0, 0.0) && zoom == 40.0
      ensures movementSpeed == 100.0 && historyCount == 0
      ensures forall k :: 0 <= k < history.Length ==> history[k] == Vec2(0.0, 0.0)
    {
      pitch, yaw, roll := 0.0, 0.0, 0.0;
      axes := Axes(Vec3(1.0, 0.0, 0.0), Vec3(0.0, 1.0, 0.0), Vec3(0.0, 0.0, 1.0));
      position := Vec3(0.0, 0.0, 40.0);
      pivot := Vec3(0.0, 0.0, 0.0);
      zoom := 40.0;
      movementSpeed := 100.0;
      history := new Vec2[SMOOTH_HISTORY_SIZE](_ => Vec2(0.0, 0.0));
      historyCount := 0;
    }

    /**
     * updateAngles: nothing for a zero mouse delta. Otherwise the delta is written to the ring
     * buffer, the newest SMOOTH_HISTORY_USAGE entries (one) are averaged, yaw and pitch turn by
     * the scaled average, the pitch is clamped and step-limited, the frame is recomputed and
     * the pivot moved in front of the unchanged position.
     */
    method UpdateAngles(mx: real, my: real, orient: Orientation) returns (moved: bool)
      requires Valid()
      modifies this`yaw, this`pitch, this`axes, this`pivot, this`historyCount, history
      ensures Valid()
      ensures moved <==> !(mx == 0.0 && my == 0.0)
      ensures !moved ==> unchanged(this) && unchanged(history)
      ensures moved ==> historyCount == old(historyCount) + 1
      ensures moved ==> forall k :: 0 <= k < SMOOTH_HISTORY_SIZE ==>
                history[k] == (if k == old(historyCount) % SMOOTH_HISTORY_SIZE then Vec2(mx, my) else old(history[k]))
      ensures moved ==> yaw == old(yaw) - YAW_SENSITIVITY * mx * MOUSE_SENSITIVITY
      ensures moved ==> pitch == UpdatedPitch(old(pitch), old(pitch) - PITCH_SENSITIVITY * my * MOUSE_SENSITIVITY)
      ensures moved ==> roll == old(roll) && axes == orient(pitch, yaw, roll)
      ensures moved ==> position == old(position) && zoom == old(zoom) && movementSpeed == old(movementSpeed)
    {
      if mx == 0.0 && my == 0.0 {
        return false;
      }
      var previousPitch := pitch;
      RecordDelta(Vec2(mx, my));
      var avg := SmoothedDelta();
      historyCount := historyCount + 1;
      yaw := yaw - YAW_SENSITIVITY * avg.x * MOUSE_SENSITIVITY;
      pitch := pitch - PITCH_SENSITIVITY * avg.y * MOUSE_SENSITIVITY;
      LimitPitch(previousPitch);
      axes := orient(pitch, yaw, roll);
      pivot := VSub(position, VScale(axes.back, zoom));
      return true;
    }

    /** The pitch limits of updateAngles: clamp to [-90, 90], then at most 90 degrees from `previous`. */
    method LimitPitch(previous: real)
      modifies this`pitch
      ensures pitch == UpdatedPitch(previous, old(pitch))
    {
      if pitch < -90.0 {
        pitch := -90.0;
      }
      if pitch > 90.0 {
        pitch := 90.0;
      }
      if pitch - previous > MAX_PITCH_STEP {
        pitch := previous + MAX_PITCH_STEP;
      } else if previous - pitch > MAX_PITCH_STEP {
        pitch := previous - MAX_PITCH_STEP;
      }
    }

    /** Writes a mouse delta to the ring buffer slot of the current count. */
    method RecordDelta(d: Vec2)
      requires history.Length == SMOOTH_HISTORY_SIZE
      modifies history
      ensures forall k :: 0 <= k < SMOOTH_HISTORY_SIZE ==>
                history[k] == (if k == historyCount % SMOOTH_HISTORY_SIZE then d else old(history[k]))
    {
      history[historyCount % SMOOTH_HISTORY_SIZE] := d;
    }

    /**
     * The average of the newest entries of the ring buffer, as many as the smoothing usage
     * clamped to [1, 16] asks for; with the usage of one it is the newest entry itself.
     */
    method SmoothedDelta() returns (avg: Vec2)
      requires history.Length == SMOOTH_HISTORY_SIZE
      ensures avg == history[historyCount % SMOOTH_HISTORY_SIZE]
    {
      var smooth := SMOOTH_HISTORY_USAGE;
      if smooth < 1 {
        smooth := 1;
      }
      if smooth > SMOOTH_HISTORY_SIZE {
        smooth := SMOOTH_HISTORY_SIZE;
      }
      var sum := Vec2(0.0, 0.0);
      for i := 0 to smooth
        invariant sum == SmoothSum(history[..], historyCount, i)
      {
        var e := history[(historyCount - i + SMOOTH_HISTORY_SIZE) % SMOOTH_HISTORY_SIZE];
        sum := Vec2(sum.x + e.x, sum.y + e.y);
      }
      SmoothOne(history[..], historyCount);
      avg := Vec2(sum.x / smooth as real, sum.y / smooth as real);
    }

    /**
     * updateSpeed: nothing for a zero wheel step; otherwise the speed grows by ten per unit
     * step and is held at 20 or more.
     */
    method UpdateSpeed(step: real) returns (changed: bool)
      requires Valid()
      modifies this`movementSpeed
      ensures Valid()
      ensures changed <==> step != 0.0
      ensures !changed ==> movementSpeed == old(movementSpeed)
      ensures changed ==> movementSpeed == (var s := old(movementSpeed) + step * MOUSE_WHEEL_SENSITIVITY;
                                            if s < MIN_SPEED then MIN_SPEED else s)
    {
      if step == 0.0 {
        return false;
      }
      var newSpeed := movementSpeed + step * MOUSE_WHEEL_SENSITIVITY;
      if newSpeed < MIN_SPEED {
        movementSpeed := MIN_SPEED;
      } else {
        movementSpeed := newSpeed;
      }
      return true;
    }

    /**
     * drag: nothing for a zero delta. Otherwise the pitch follows the vertical delta and the yaw
     * the horizontal one, the pitch step is limited to 90 degrees (no clamp to [-90, 90]), the
     * frame is recomputed and the camera placed on the orbit around the unchanged pivot.
     */
    method Drag(delta: Vec2, orient: Orientation) returns (moved: bool)
      requires Valid()
      modifies this`pitch, this`yaw, this`axes, this`position
      ensures Valid()
      ensures moved <==> delta != Vec2(0.0, 0.0)
      ensures !moved ==> pitch == old(pitch) && yaw == old(yaw) && axes == old(axes) && position == old(position)
      ensures moved ==> pitch == LimitStep(old(pitch), old(pitch) + delta.y) && yaw == old(yaw) - delta.x
      ensures moved ==> axes == orient(pitch, yaw, roll)
    {
      if delta == Vec2(0.0, 0.0) {
        return false;
      }
      var previousPitch := pitch;
      pitch := pitch + delta.y;
      yaw := yaw - delta.x;
      if pitch - previousPitch > MAX_PITCH_STEP {
        pitch := previousPitch + MAX_PITCH_STEP;
      } else if previousPitch - pitch > MAX_PITCH_STEP {
        pitch := previousPitch - MAX_PITCH_STEP;
      }
      axes := orient(pitch, yaw, roll);
      position := VAdd(VScale(axes.back, zoom), pivot);
      assert VAdd(VScale(axes.back, zoom), pivot) == VAdd(pivot, VScale(axes.back, zoom));
      return true;
    }

    /**
     * updateCenter: nothing for a zero delta; otherwise the pivot slides in the camera's plane
     * by the delta scaled with zoom / 1000, and the camera follows it.
     */
    method UpdateCenter(delta: Vec2) returns (moved: bool)
      requires Valid()
      modifies this`pivot, this`position
      ensures Valid()
      ensures moved <==> delta != Vec2(0.0, 0.0)
      ensures !moved ==> pivot == old(pivot) && position == old(position)
      ensures moved ==> pivot == VSub(old(pivot), PanOffset(axes, delta, zoom / 1000.0))
      ensures moved ==> VSub(position, pivot) == VSub(old(position), old(pivot))
    {
      if delta == Vec2(0.0, 0.0) {
        return false;
      }
      var sensitivity := zoom / 1000.0;
      pivot := VSub(pivot, PanOffset(axes, delta, sensitivity));
      position := VAdd(VScale(axes.back, zoom), pivot);
      assert VAdd(VScale(axes.back, zoom), pivot) == VAdd(pivot, VScale(axes.back, zoom));
      return true;
    }

    /**
     * updateZoom: nothing for a zero wheel step; otherwise the zoom becomes NewZoom (at least
     * 0.1) and the camera moves along its backward axis to that distance from the pivot.
     */
    method UpdateZoom(step: real) returns (changed: bool)
      requires Valid()
      modifies this`zoom, this`position
      ensures Valid()
      ensures changed <==> step != 0.0
      ensures !changed ==> zoom == old(zoom) && position == old(position)
      ensures changed ==> zoom == NewZoom(old(zoom), step)
    {
      if step == 0.0 {
        return false;
      }
      var l := zoom * ZOOM_SPEED;
      var z := zoom - step * l;
      zoom := if z < MIN_ZOOM then MIN_ZOOM else z;
      position := VAdd(VScale(axes.back, zoom), pivot);
      assert VAdd(VScale(axes.back, zoom), pivot) == VAdd(pivot, VScale(axes.back, zoom));
      return true;
    }
  }
}

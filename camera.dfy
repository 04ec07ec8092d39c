/** The camera controller of main.js: the follow / orbit / cinematic mode
    switch, the cinematic fly-to, the per-frame follow lerp and the bounce-back
    that pulls an orbit camera in from the zoom limit. OrbitControls, lookAt and
    the renderer stay outside; the camera position, the controls target and the
    two controls flags the code writes are state. */
module Camera {
  import opened Vectors

  const MAX_DISTANCE: real := 200.0
  const BOUNCE_DISTANCE: real := 150.0
  const BOUNCE_DURATION_MS: real := 2000.0
  /** A radius this close to MAX_DISTANCE starts the bounce-back. */
  const BOUNCE_TOLERANCE: real := 0.01

  const FOLLOW_DISTANCE: real := 30.0
  const FOLLOW_HEIGHT: real := 12.0
  const CAMERA_LAG_POSITION: real := 0.12
  const CAMERA_LAG_TARGET: real := 0.08

  const CINEMATIC_DURATION: real := 1500.0

  datatype CameraMode = Follow | Orbit | Cinematic

  /** A camera position together with the point the controls orbit around. */
  datatype Placement = Placement(position: Vec3, target: Vec3)

  function Min(a: real, b: real): (r: real)
    ensures r <= a && r <= b && (r == a || r == b)
  {
    if a <= b then a else b
  }

  /** Products of two numbers in [0, 1] stay in [0, 1]. */
  lemma MulUnit(a: real, b: real)
    requires 0.0 <= a <= 1.0 && 0.0 <= b <= 1.0
    ensures 0.0 <= a * b <= 1.0
  {
    MulNonNegative(a, b);
    MulNonNegative(a, 1.0 - b);
  }

  /** Multiplying by a number in [0, 1] does not increase a non-negative number. */
  lemma ProductBelow(a: real, b: real)
    requires 0.0 <= a && 0.0 <= b <= 1.0
    ensures a * b <= a
  {
    MulNonNegative(a, 1.0 - b);
    assert a * (1.0 - b) == a - a * b;
  }

  /** The cubic ease-out `1 - (1 - p)^3` of the cinematic transition. */
  function EaseOutCubic(p: real): (r: real)
    ensures 0.0 <= p <= 1.0 ==> 0.0 <= r <= 1.0
    ensures p == 0.0 ==> r == 0.0
    ensures p == 1.0 ==> r == 1.0
  {
    var q := 1.0 - p;
    if 0.0 <= p <= 1.0 then
      MulUnit(q, q);
      MulUnit(q * q, q);
      1.0 - q * q * q
    else
      1.0 - q * q * q
  }

  /** The smoothstep ease `t * t * (3 - 2t)` of the bounce-back. */
  function SmoothStep(t: real): (r: real)
    ensures 0.0 <= t <= 1.0 ==> 0.0 <= r <= 1.0
    ensures t == 0.0 ==> r == 0.0
    ensures t == 1.0 ==> r == 1.0
  {
    if 0.0 <= t <= 1.0 then
      MulNonNegative(t * t, 3.0 - 2.0 * t);
      assert 1.0 - t * t * (3.0 - 2.0 * t) == (1.0 - t) * (1.0 - t) * (1.0 + 2.0 * t);
      MulNonNegative((1.0 - t) * (1.0 - t), 1.0 + 2.0 * t);
      t * t * (3.0 - 2.0 * t)
    else
      t * t * (3.0 - 2.0 * t)
  }

  /** Cubing is monotone on non-negative numbers. */
  lemma CubeMonotone(u: real, v: real)
    requires 0.0 <= u <= v
    ensures u * u * u <= v * v * v
  {
    MulNonNegative(v - u, u * u + u * v + v * v);
    assert v * v * v - u * u * u == (v - u) * (u * u + u * v + v * v);
  }

  /** The slope of smoothstep between `a` and `b`, given the product bounds of
      numbers in [0, 1]; the argument is linear in the products. */
  lemma SlopeNonNegative(a: real, b: real, aa: real, ab: real, bb: real)
    requires aa <= a && bb <= b && ab <= a && ab <= b
    ensures 3.0 * a + 3.0 * b - 2.0 * aa - 2.0 * ab - 2.0 * bb >= 0.0
  {
  }

  /** Both eases only move forward on [0, 1]. */
  lemma EasesMonotone(a: real, b: real)
    requires 0.0 <= a <= b <= 1.0
    ensures EaseOutCubic(a) <= EaseOutCubic(b)
    ensures SmoothStep(a) <= SmoothStep(b)
  {
    CubeMonotone(1.0 - b, 1.0 - a);
    ProductBelow(a, a);
    ProductBelow(b, b);
    ProductBelow(a, b);
    ProductBelow(b, a);
    SlopeNonNegative(a, b, a * a, a * b, b * b);
    var slope := 3.0 * a + 3.0 * b - 2.0 * (a * a) - 2.0 * (a * b) - 2.0 * (b * b);
    assert SmoothStep(b) - SmoothStep(a) == (b - a) * slope;
    MulNonNegative(b - a, slope);
  }

  /** `min(elapsed / duration, 1)`: never past 1, and 1 exactly once the
      duration has elapsed. */
  function Progress(elapsed: real, duration: real): (r: real)
    requires duration > 0.0
    ensures r <= 1.0
    ensures elapsed >= 0.0 ==> r >= 0.0
    ensures r >= 1.0 <==> elapsed >= duration
  {
    Min(elapsed / duration, 1.0)
  }

  /** The camera's right-hand side for a heading: `heading x up` (up = +y). */
  function Right(heading: Vec3): (r: Vec3)
    ensures r.y == 0.0
    ensures Dot(r, heading) == 0.0
  {
    Cross(heading, Vec3(0.0, 1.0, 0.0))
  }

  predicate UnitHorizontal(v: Vec3) {
    v.y == 0.0 && NormSq(v) == 1.0
  }

  /** For the unit horizontal heading the boat direction is normalised to, the
      cross product with up is already a unit vector, so `normalize()` leaves it. */
  lemma RightIsUnit(heading: Vec3)
    requires UnitHorizontal(heading)
    ensures UnitHorizontal(Right(heading))
  {
  }

  /** Where the follow camera wants to be: FOLLOW_DISTANCE behind the boat, two
      units to its right and FOLLOW_HEIGHT up, looking at a point 8 ahead and
      3 up. */
  function FollowPlacement(boat: Vec3, heading: Vec3): (p: Placement)
    ensures p.position.y == boat.y - FOLLOW_DISTANCE * heading.y + FOLLOW_HEIGHT
    ensures p.target.y == boat.y + 8.0 * heading.y + 3.0
  {
    var position := Add(Add(Add(boat, Scale(heading, -FOLLOW_DISTANCE)), Scale(Right(heading), 2.0)),
                        Vec3(0.0, FOLLOW_HEIGHT, 0.0));
    var target := Add(Add(boat, Scale(heading, 8.0)), Vec3(0.0, 3.0, 0.0));
    Placement(position, target)
  }

  /** For a unit horizontal heading the follow camera sits 30 behind and 2 to
      the right (a horizontal distance whose square is 904) and 12 up, and its
      target lies 8 ahead and 3 up. */
  lemma FollowOffsets(boat: Vec3, heading: Vec3)
    requires UnitHorizontal(heading)
    ensures var p := FollowPlacement(boat, heading);
      var offset := Sub(p.position, boat);
      && Dot(offset, heading) == -FOLLOW_DISTANCE
      && Dot(offset, Right(heading)) == 2.0
      && offset.y == FOLLOW_HEIGHT
      && offset.x * offset.x + offset.z * offset.z == 904.0
      && Dot(Sub(p.target, boat), heading) == 8.0
      && p.target.y - boat.y == 3.0
  {
    var h := heading;
    var p := FollowPlacement(boat, heading);
    var offset := Sub(p.position, boat);
    assert offset == Vec3(-30.0 * h.x - 2.0 * h.z, 12.0, -30.0 * h.z + 2.0 * h.x);
    assert h.x * h.x + h.z * h.z == 1.0;
    assert offset.x * offset.x + offset.z * offset.z == 904.0 * (h.x * h.x + h.z * h.z);
  }

  /** The cinematic end placement for a buoy: offset (8, 12, 8), looking 5 above it. */
  function CinematicEnd(buoy: Vec3): (p: Placement)
    ensures Sub(p.position, buoy) == Vec3(8.0, 12.0, 8.0)
    ensures Sub(p.target, buoy) == Vec3(0.0, 5.0, 0.0)
  {
    Placement(Add(buoy, Vec3(8.0, 12.0, 8.0)), Add(buoy, Vec3(0.0, 5.0, 0.0)))
  }

  /** The cinematic placement `elapsed` milliseconds in: both points eased from
      their start to their end by the cubic ease-out of the progress. */
  function CinematicFrame(start: Placement, end: Placement, elapsed: real): (p: Placement)
    ensures elapsed == 0.0 ==> p == start
    ensures elapsed >= CINEMATIC_DURATION ==> p == end
  {
    var ease := EaseOutCubic(Progress(elapsed, CINEMATIC_DURATION));
    LerpVecEnds(start.position, end.position);
    LerpVecEnds(start.target, end.target);
    Placement(LerpVec(start.position, end.position, ease), LerpVec(start.target, end.target, ease))
  }

  /** The bounce-back starts only for a camera not already bouncing whose
      distance to the target has reached the zoom limit. */
  predicate StartsBounce(isBouncing: bool, radius: real) {
    !isBouncing && radius >= MAX_DISTANCE - BOUNCE_TOLERANCE
  }

  /** The bounce's eased radius at progress `t`: `lerp(from, BOUNCE_DISTANCE, smoothstep(t))`. */
  function BounceRadius(from: real, t: real): (r: real)
    ensures 0.0 <= t <= 1.0 && from >= BOUNCE_DISTANCE ==> BOUNCE_DISTANCE <= r <= from
    ensures 0.0 <= t <= 1.0 && from <= BOUNCE_DISTANCE ==> from <= r <= BOUNCE_DISTANCE
    ensures t == 0.0 ==> r == from
    ensures t == 1.0 ==> r == BOUNCE_DISTANCE
  {
    var ease := SmoothStep(t);
    if 0.0 <= t <= 1.0 then
      LerpBetween(from, BOUNCE_DISTANCE, ease);
      Lerp(from, BOUNCE_DISTANCE, ease)
    else
      Lerp(from, BOUNCE_DISTANCE, ease)
  }

  /** Over the bounce the radius only shrinks towards BOUNCE_DISTANCE. */
  lemma BounceRadiusShrinks(from: real, t1: real, t2: real)
    requires from >= BOUNCE_DISTANCE && 0.0 <= t1 <= t2 <= 1.0
    ensures BounceRadius(from, t2) <= BounceRadius(from, t1)
  {
    EasesMonotone(t1, t2);
    LerpTowardsLower(from, BOUNCE_DISTANCE, SmoothStep(t1), SmoothStep(t2));
  }

  /** A larger weight moves a lerp further from `x` towards a lower `y`. */
  lemma LerpTowardsLower(x: real, y: real, e1: real, e2: real)
    requires y <= x && e1 <= e2
    ensures Lerp(x, y, e2) <= Lerp(x, y, e1)
  {
    MulNonNegative(e2 - e1, x - y);
    assert Lerp(x, y, e1) - Lerp(x, y, e2) == (e2 - e1) * (x - y);
  }

  /** The camera's mode, cinematic flag and placement: what the per-frame
      dispatch reads and writes. */
  datatype View = View(mode: CameraMode, inCinematic: bool, placement: Placement)

  /** updateFollowCamera's two lerps: the camera 12% and the target 8% of the
      way to the follow placement, so every frame the camera's gap to its goal
      shrinks to 88% and the target's to 92%, in the same direction. */
  function FollowLerp(p: Placement, goal: Placement): (r: Placement)
    ensures Sub(goal.position, r.position) == Scale(Sub(goal.position, p.position), 1.0 - CAMERA_LAG_POSITION)
    ensures Sub(goal.target, r.target) == Scale(Sub(goal.target, p.target), 1.0 - CAMERA_LAG_TARGET)
    ensures p == goal ==> r == goal
  {
    Placement(LerpVec(p.position, goal.position, CAMERA_LAG_POSITION),
              LerpVec(p.target, goal.target, CAMERA_LAG_TARGET))
  }

  /** The mode dispatch at the top of animate(), on values: the follow lerp in
      follow mode outside a cinematic; the cinematic frame `now - startTime`
      into the fly-to during a cinematic, handing over to orbit at the end;
      nothing otherwise. */
  function CameraFrame(v: View, start: Placement, end: Placement, startTime: real, now: real,
                       boatReady: bool, boat: Vec3, heading: Vec3): View
  {
    if v.mode == Follow && !v.inCinematic then
      View(Follow, false, if boatReady then FollowLerp(v.placement, FollowPlacement(boat, heading)) else v.placement)
    else if v.inCinematic then
      var elapsed := now - startTime;
      var running := elapsed < CINEMATIC_DURATION;
      View(if running then v.mode else Orbit, running, CinematicFrame(start, end, elapsed))
    else
      v
  }

  /** What one dispatch does to each mode: outside a cinematic the mode is kept
      and an orbit or stale cinematic view is left alone; a cinematic starts at
      its start placement and, once its duration has run out, ends in orbit
      mode at its end placement. */
  lemma CameraFrameModes(v: View, start: Placement, end: Placement, startTime: real, now: real,
                         boatReady: bool, boat: Vec3, heading: Vec3)
    ensures var r := CameraFrame(v, start, end, startTime, now, boatReady, boat, heading);
      && (!v.inCinematic ==> r.mode == v.mode && !r.inCinematic)
      && (v.mode != Follow && !v.inCinematic ==> r == v)
      && (v.inCinematic && now == startTime ==> r.placement == start && r.inCinematic)
      && (v.inCinematic && now - startTime >= CINEMATIC_DURATION ==> r == View(Orbit, false, end))
      && (v.mode == Follow && !v.inCinematic && boatReady ==>
            r.placement == FollowLerp(v.placement, FollowPlacement(boat, heading)))
  {
    if v.inCinematic {
      var elapsed := now - startTime;
      assert elapsed == 0.0 ==> CinematicFrame(start, end, elapsed) == start;
      assert elapsed >= CINEMATIC_DURATION ==> CinematicFrame(start, end, elapsed) == end;
    }
  }

  /** The bounce-back globals: `isBouncing`, `bounceStartMs`, `bounceFromRadius`
      and the unit direction `bounceDir`. */
  datatype Bounce = Bounce(active: bool, startMs: real, fromRadius: real, dir: Vec3)

  /** The new bounce state and camera position after the bounce-back block,
      for a camera at `position` whose distance to `target` is `radius`. */
  function BounceFrame(b: Bounce, position: Vec3, target: Vec3, now: real, radius: real): (Bounce, Vec3)
  {
    var b1 := if StartsBounce(b.active, radius)
      then Bounce(true, now, radius, Scale(Sub(position, target), 1.0 / radius))
      else b;
    if b1.active then
      var t := Min(1.0, (now - b1.startMs) / BOUNCE_DURATION_MS);
      (Bounce(t < 1.0, b1.startMs, b1.fromRadius, b1.dir), Add(target, Scale(b1.dir, BounceRadius(b1.fromRadius, t))))
    else
      (b1, position)
  }

  /** The bounce-back on values. Nothing happens to a camera that is not
      bouncing and is inside the limit. A camera at the limit starts a bounce
      from its radius, along a unit direction when `radius` is its distance
      from the target, and lands at that radius on the first frame. While
      bouncing the camera stays between BOUNCE_DISTANCE and the start radius,
      and the bounce ends once its two seconds are over, at BOUNCE_DISTANCE. */
  lemma BounceFrameSpec(b: Bounce, position: Vec3, target: Vec3, now: real, radius: real)
    requires b.active ==> b.fromRadius >= MAX_DISTANCE - BOUNCE_TOLERANCE
    ensures var (b2, p2) := BounceFrame(b, position, target, now, radius);
      && (!b.active && !StartsBounce(b.active, radius) ==> b2 == b && p2 == position)
      && (StartsBounce(b.active, radius) ==>
            && b2.startMs == now && b2.fromRadius == radius && b2.active
            && (radius * radius == NormSq(Sub(position, target)) ==>
                  NormSq(b2.dir) == 1.0 && NormSq(Sub(p2, target)) == radius * radius))
      && (b.active ==> b2.startMs == b.startMs && b2.fromRadius == b.fromRadius && b2.dir == b.dir)
      && (b.active && now >= b.startMs ==>
            var r := BounceRadius(b.fromRadius, Min(1.0, (now - b.startMs) / BOUNCE_DURATION_MS));
            BOUNCE_DISTANCE <= r <= b.fromRadius && p2 == Add(target, Scale(b.dir, r)))
      && (b.active && now - b.startMs >= BOUNCE_DURATION_MS ==>
            !b2.active && p2 == Add(target, Scale(b.dir, BOUNCE_DISTANCE)))
  {
    if StartsBounce(b.active, radius) {
      NormalizedByLength(Sub(position, target), radius);
      var dir := Scale(Sub(position, target), 1.0 / radius);
      assert Min(1.0, (now - now) / BOUNCE_DURATION_MS) == 0.0;
      PlacedAtRadius(target, dir, radius);
    }
    if b.active && now >= b.startMs {
      var t := Min(1.0, (now - b.startMs) / BOUNCE_DURATION_MS);
      assert 0.0 <= t <= 1.0;
    }
  }

  /** The camera-related globals of main.js, the camera position and the
      OrbitControls target. */
  class CameraRig {
    var mode: CameraMode
    var inCinematic: bool
    var cinematicStartTime: real
    var cinematicStart: Placement
    var cinematicEnd: Placement
    var position: Vec3
    var target: Vec3
    /** `controls.enabled` */
    var controlsEnabled: bool
    /** `controls.enableZoom` */
    var zoomEnabled: bool
    var isBouncing: bool
    var bounceStartMs: real
    var bounceFromRadius: real
    /** The camera's direction from the target when the bounce started. */
    var bounceDir: Vec3

    /** Zoom is off exactly while bouncing, and a bounce in progress started at
        the zoom limit. */
    ghost predicate Valid()
      reads this
    {
      && zoomEnabled == !isBouncing
      && (isBouncing ==> bounceFromRadius >= MAX_DISTANCE - BOUNCE_TOLERANCE)
    }

    /** Orbit controls are live in orbit mode and off in follow mode. */
    ghost predicate ControlsMatchMode()
      reads this
    {
      (mode == Follow ==> !controlsEnabled) && (mode == Orbit ==> controlsEnabled)
    }

    /** The state once main.js has set up the camera looking at the origin,
        before the first switch to follow mode. The camera is first put at
        (18, 16, 24) and then moved, at the same distance, to the spherical
        angles 76.2 and 37.2 degrees; `start` is where that puts it. */
    constructor (start: Vec3)
      ensures Valid()
      ensures mode == Follow && !inCinematic && !isBouncing
      ensures controlsEnabled && zoomEnabled
      ensures position == start && target == Vec3(0.0, 0.0, 0.0)
      ensures bounceStartMs == 0.0 && bounceFromRadius == 0.0 && cinematicStartTime == 0.0
    {
      mode := Follow;
      inCinematic := false;
      cinematicStartTime := 0.0;
      cinematicStart := Placement(Vec3(0.0, 0.0, 0.0), Vec3(0.0, 0.0, 0.0));
      cinematicEnd := Placement(Vec3(0.0, 0.0, 0.0), Vec3(0.0, 0.0, 0.0));
      position := start;
      target := Vec3(0.0, 0.0, 0.0);
      controlsEnabled := true;
      zoomEnabled := true;
      isBouncing := false;
      bounceStartMs := 0.0;
      bounceFromRadius := 0.0;
      bounceDir := Vec3(0.0, 0.0, 0.0);
    }

    /** startCinematicTransition: ignored while a cinematic runs; otherwise
        remember where the camera is and fly towards the buoy from `now`. */
    method StartCinematic(buoy: Vec3, now: real)
      requires Valid()
      modifies this
      ensures Valid()
      ensures old(inCinematic) ==> unchanged(this)
      ensures !old(inCinematic) ==>
        && inCinematic && mode == Cinematic && cinematicStartTime == now
        && cinematicStart == Placement(old(position), old(target))
        && cinematicEnd == CinematicEnd(buoy)
        && position == old(position) && target == old(target)
        && controlsEnabled == old(controlsEnabled)
        && isBouncing == old(isBouncing) && zoomEnabled == old(zoomEnabled)
        && bounceStartMs == old(bounceStartMs) && bounceFromRadius == old(bounceFromRadius)
        && bounceDir == old(bounceDir)
    {
      if inCinematic {
        return;
      }
      inCinematic := true;
      mode := Cinematic;
      cinematicStartTime := now;
      cinematicStart := Placement(position, target);
      cinematicEnd := CinematicEnd(buoy);
    }

    /** updateCinematicCamera: nothing outside a cinematic; otherwise place the
        camera by the eased progress and hand over to orbit mode at the end. */
    method UpdateCinematic(now: real)
      requires Valid()
      modifies this`position, this`target, this`inCinematic, this`mode
      ensures Valid()
      ensures !old(inCinematic) ==>
        position == old(position) && target == old(target) && !inCinematic && mode == old(mode)
      ensures old(inCinematic) ==>
        && Placement(position, target) == CinematicFrame(cinematicStart, cinematicEnd, now - cinematicStartTime)
        && inCinematic == (now - cinematicStartTime < CINEMATIC_DURATION)
        && mode == if inCinematic then old(mode) else Orbit
      ensures old(inCinematic) && now - cinematicStartTime >= CINEMATIC_DURATION ==>
        position == cinematicEnd.position && target == cinematicEnd.target
    {
      if !inCinematic {
        return;
      }
      var elapsed := now - cinematicStartTime;
      var progress := Min(elapsed / CINEMATIC_DURATION, 1.0);
      var ease := EaseOutCubic(progress);
      position := LerpVec(cinematicStart.position, cinematicEnd.position, ease);
      target := LerpVec(cinematicStart.target, cinematicEnd.target, ease);
      if progress >= 1.0 {
        inCinematic := false;
        mode := Orbit;
      }
    }

    /** switchCameraMode. Follow: set the mode and disable the controls, then,
        if the boat exists, jump to the follow placement. Orbit: set the mode,
        enable the controls and cancel a cinematic. Cinematic: no branch. */
    method SwitchMode(m: CameraMode, boatReady: bool, boat: Vec3, heading: Vec3)
      requires Valid()
      modifies this`mode, this`controlsEnabled, this`inCinematic, this`position, this`target
      ensures Valid()
      ensures m == Follow ==>
        && mode == Follow && !controlsEnabled && inCinematic == old(inCinematic)
        && Placement(position, target) ==
             (if boatReady then FollowPlacement(boat, heading) else Placement(old(position), old(target)))
      ensures m == Orbit ==>
        && mode == Orbit && controlsEnabled && !inCinematic
        && position == old(position) && target == old(target)
      ensures m == Cinematic ==>
        && mode == old(mode) && controlsEnabled == old(controlsEnabled) && inCinematic == old(inCinematic)
        && position == old(position) && target == old(target)
      ensures m != Cinematic ==> ControlsMatchMode()
    {
      if m == Follow {
        mode := Follow;
        controlsEnabled := false;
        if !boatReady {
          return;
        }
        var placement := FollowPlacement(boat, heading);
        position := placement.position;
        target := placement.target;
      } else if m == Orbit {
        mode := Orbit;
        controlsEnabled := true;
        inCinematic := false;
      }
    }

    /** updateFollowCamera: nothing without a boat; otherwise move the camera
        12% and the target 8% of the way to the follow placement. */
    method FollowStep(boatReady: bool, boat: Vec3, heading: Vec3)
      modifies this`position, this`target
      ensures !boatReady ==> position == old(position) && target == old(target)
      ensures boatReady ==>
        var goal := FollowPlacement(boat, heading);
        && position == LerpVec(old(position), goal.position, CAMERA_LAG_POSITION)
        && target == LerpVec(old(target), goal.target, CAMERA_LAG_TARGET)
    {
      if !boatReady {
        return;
      }
      var goal := FollowPlacement(boat, heading);
      position := LerpVec(position, goal.position, CAMERA_LAG_POSITION);
      target := LerpVec(target, goal.target, CAMERA_LAG_TARGET);
    }

    /** The mode dispatch at the top of animate(): the follow lerp in follow mode
        outside a cinematic, the cinematic update in cinematic mode or during a
        cinematic, and nothing here otherwise (OrbitControls.update is foreign). */
    method CameraStep(now: real, boatReady: bool, boat: Vec3, heading: Vec3)
      requires Valid()
      modifies this`position, this`target, this`inCinematic, this`mode
      ensures Valid()
      ensures old(mode) == Follow && !old(inCinematic) ==>
        && mode == Follow && !inCinematic
        && (boatReady ==>
              && position == LerpVec(old(position), FollowPlacement(boat, heading).position, CAMERA_LAG_POSITION)
              && target == LerpVec(old(target), FollowPlacement(boat, heading).target, CAMERA_LAG_TARGET))
      ensures old(mode) == Orbit && !old(inCinematic) ==> unchanged(this)
      ensures old(mode) == Cinematic && !old(inCinematic) ==> unchanged(this)
      ensures !old(inCinematic) ==> mode == old(mode) && !inCinematic
      ensures old(inCinematic) ==>
        && Placement(position, target) == CinematicFrame(cinematicStart, cinematicEnd, now - cinematicStartTime)
        && inCinematic == (now - cinematicStartTime < CINEMATIC_DURATION)
        && mode == if inCinematic then old(mode) else Orbit
      ensures View(mode, inCinematic, Placement(position, target)) ==
        CameraFrame(View(old(mode), old(inCinematic), Placement(old(position), old(target))),
                    cinematicStart, cinematicEnd, cinematicStartTime, now, boatReady, boat, heading)
    {
      if mode == Follow && !inCinematic {
        FollowStep(boatReady, boat, heading);
      } else if mode == Cinematic || inCinematic {
        UpdateCinematic(now);
      }
    }

    /** The KeyC handler: follow goes to orbit; orbit outside a cinematic goes
        to follow; anything else is left alone. */
    method ToggleMode(boatReady: bool, boat: Vec3, heading: Vec3)
      requires Valid()
      modifies this`mode, this`controlsEnabled, this`inCinematic, this`position, this`target
      ensures Valid()
      ensures old(mode) == Follow ==> mode == Orbit && controlsEnabled && !inCinematic
      ensures old(mode) == Orbit && !old(inCinematic) ==> mode == Follow && !controlsEnabled && !inCinematic
      ensures !(old(mode) == Follow || (old(mode) == Orbit && !old(inCinematic))) ==> unchanged(this)
      ensures old(mode) == Follow || (old(mode) == Orbit && !old(inCinematic)) ==> ControlsMatchMode()
      ensures old(mode) == Follow ==> position == old(position) && target == old(target)
      ensures old(mode) == Orbit && !old(inCinematic) ==>
        Placement(position, target) ==
          (if boatReady then FollowPlacement(boat, heading) else Placement(old(position), old(target)))
    {
      if mode == Follow {
        SwitchMode(Orbit, boatReady, boat, heading);
      } else if mode == Orbit && !inCinematic {
        SwitchMode(Follow, boatReady, boat, heading);
      }
    }

    /** The bounce-back block of animate(). `radius` is the camera's distance to
        the target this frame (`distanceTo`), and `normalize()` divides the
        offset by it. A camera at the zoom limit starts bouncing from there;
        while bouncing, the camera is put on its starting direction at the
        eased radius, and once the two seconds are over the bounce ends and
        zoom is back. */
    method BounceStep(now: real, radius: real)
      requires Valid()
      modifies this`isBouncing, this`zoomEnabled, this`bounceStartMs, this`bounceFromRadius,
               this`bounceDir, this`position
      ensures Valid()
      ensures StartsBounce(old(isBouncing), radius) ==>
        && bounceStartMs == now && bounceFromRadius == radius
        && bounceDir == Scale(Sub(old(position), target), 1.0 / radius)
      ensures StartsBounce(old(isBouncing), radius) && radius * radius == NormSq(Sub(old(position), target)) ==>
        NormSq(bounceDir) == 1.0
      ensures !StartsBounce(old(isBouncing), radius) ==>
        && bounceStartMs == old(bounceStartMs) && bounceFromRadius == old(bounceFromRadius)
        && bounceDir == old(bounceDir)
      ensures !old(isBouncing) && !StartsBounce(old(isBouncing), radius) ==>
        !isBouncing && position == old(position)
      ensures old(isBouncing) || StartsBounce(old(isBouncing), radius) ==>
        var t := Min(1.0, (now - bounceStartMs) / BOUNCE_DURATION_MS);
        var r := BounceRadius(bounceFromRadius, t);
        && position == Add(target, Scale(bounceDir, r))
        && (NormSq(bounceDir) == 1.0 ==> NormSq(Sub(position, target)) == r * r)
        && (now >= bounceStartMs ==> BOUNCE_DISTANCE <= r <= bounceFromRadius)
        && isBouncing == (t < 1.0)
      ensures (Bounce(isBouncing, bounceStartMs, bounceFromRadius, bounceDir), position) ==
        BounceFrame(Bounce(old(isBouncing), old(bounceStartMs), old(bounceFromRadius), old(bounceDir)),
                    old(position), target, now, radius)
    {
      if !isBouncing && radius >= MAX_DISTANCE - BOUNCE_TOLERANCE {
        isBouncing := true;
        zoomEnabled := false;
        bounceStartMs := now;
        bounceFromRadius := radius;
        bounceDir := Scale(Sub(position, target), 1.0 / radius);
        NormalizedByLength(Sub(position, target), radius);
      }
      if isBouncing {
        var t := Min(1.0, (now - bounceStartMs) / BOUNCE_DURATION_MS);
        var newRadius := BounceRadius(bounceFromRadius, t);
        position := Add(target, Scale(bounceDir, newRadius));
        PlacedAtRadius(target, bounceDir, newRadius);
        if t >= 1.0 {
          isBouncing := false;
          zoomEnabled := true;
        }
      }
    }
  }

  /** Dividing a vector by its length gives a unit vector. */
  lemma NormalizedByLength(v: Vec3, length: real)
    requires length > 0.0
    ensures length * length == NormSq(v) ==> NormSq(Scale(v, 1.0 / length)) == 1.0
  {
    NormSqScale(v, 1.0 / length);
    assert (1.0 / length) * (1.0 / length) * (length * length) == 1.0;
  }

  /** A point `r` along a unit direction from the target is at distance `r`. */
  lemma PlacedAtRadius(target: Vec3, dir: Vec3, r: real)
    ensures NormSq(dir) == 1.0 ==> NormSq(Sub(Add(target, Scale(dir, r)), target)) == r * r
  {
    assert Sub(Add(target, Scale(dir, r)), target) == Scale(dir, r);
    NormSqScale(dir, r);
  }
}

/** main.js's wiring of the three systems: the set-up at load time, the
    keydown handler and the per-frame animate() callback. */
module Scene {
  import opened Vectors
  import Trails
  import Buoys
  import Camera

  /** `material.uniforms.uTime` advances by this much every frame. */
  const WAVE_TIME_STEP: real := 0.02

  /** The `event.code` values the keydown handler tells apart. */
  datatype Key = KeyE | KeyC | Escape | OtherKey

  /** What one animate() frame reads and writes, as a value: the camera's
      mode, cinematic flag and placement, its bounce state, the trail system,
      the buoys and the shader clock `uTime`. */
  datatype Frame = Frame(view: Camera.View, bounce: Camera.Bounce, trails: Trails.TrailState,
                         buoys: seq<Buoys.BuoyView>, waveTime: real)

  /** The mode dispatch from the boat position of the previous frame (the boat
      exists by the first frame), then `uTime += 0.02`. A cinematic runs from
      `start` to `end`, begun at `startTime`. */
  function AfterCamera(f: Frame, start: Camera.Placement, end: Camera.Placement, startTime: real,
                       now: real, cameraBoat: Vec3, heading: Vec3): Frame
  {
    f.(view := Camera.CameraFrame(f.view, start, end, startTime, now, true, cameraBoat, heading),
       waveTime := f.waveTime + WAVE_TIME_STEP)
  }

  /** updateTrails. */
  function AfterTrails(f: Frame, now: real, boat: Vec3, boatSpeed: real, boatDirection: Vec3, boost: bool,
                       rx: real, rz: real, id: int, decay: (real, real, real) -> real): Frame
    requires Trails.WellFormed(f.trails)
  {
    f.(trails := Trails.Next(f.trails, now, boat, boatSpeed, boatDirection, boost, rx, rz, id, decay))
  }

  /** updateBuoys, buoy `i` being `distances[i]` from the boat. */
  function AfterBuoys(f: Frame, distances: seq<real>, iconSettled: seq<bool>): Frame
    requires |f.buoys| == |distances| == |iconSettled|
  {
    f.(buoys := Buoys.StepViews(f.buoys, Buoys.RangeFlags(distances), iconSettled))
  }

  /** The bounce-back block, for a camera at distance `radius` from its target. */
  function AfterBounce(f: Frame, now: real, radius: real): Frame
  {
    var (b, p) := Camera.BounceFrame(f.bounce, f.view.placement.position, f.view.placement.target, now, radius);
    f.(view := f.view.(placement := Camera.Placement(p, f.view.placement.target)), bounce := b)
  }

  /** One animate() frame: the four steps in the source's order. */
  function AnimateFrame(f: Frame, start: Camera.Placement, end: Camera.Placement, startTime: real,
                        now: real, cameraBoat: Vec3, heading: Vec3,
                        boat: Vec3, boatSpeed: real, boatDirection: Vec3, boost: bool,
                        rx: real, rz: real, id: int, decay: (real, real, real) -> real,
                        distances: seq<real>, iconSettled: seq<bool>, radius: real): Frame
    requires Trails.WellFormed(f.trails) && |f.buoys| == |distances| == |iconSettled|
  {
    var f1 := AfterCamera(f, start, end, startTime, now, cameraBoat, heading);
    var f2 := AfterTrails(f1, now, boat, boatSpeed, boatDirection, boost, rx, rz, id, decay);
    var f3 := AfterBuoys(f2, distances, iconSettled);
    AfterBounce(f3, now, radius)
  }

  /** One frame, read off: outside a cinematic the mode is kept; the follow
      target moves 8% of the way to the boat's follow target and the orbit
      target stays put, whatever the bounce-back does to the position; a
      cinematic whose time is up ends in orbit mode looking at its end target;
      and a camera that is not bouncing and is inside the zoom limit ends where
      the camera step put it. */
  lemma AnimateFrameCamera(f: Frame, start: Camera.Placement, end: Camera.Placement, startTime: real,
                           now: real, cameraBoat: Vec3, heading: Vec3,
                           boat: Vec3, boatSpeed: real, boatDirection: Vec3, boost: bool,
                           rx: real, rz: real, id: int, decay: (real, real, real) -> real,
                           distances: seq<real>, iconSettled: seq<bool>, radius: real)
    requires Trails.WellFormed(f.trails) && |f.buoys| == |distances| == |iconSettled|
    ensures var g := AnimateFrame(f, start, end, startTime, now, cameraBoat, heading, boat, boatSpeed,
                                  boatDirection, boost, rx, rz, id, decay, distances, iconSettled, radius);
      && (!f.view.inCinematic ==> g.view.mode == f.view.mode && !g.view.inCinematic)
      && (f.view.mode == Camera.Follow && !f.view.inCinematic ==>
            g.view.placement.target ==
              LerpVec(f.view.placement.target, Camera.FollowPlacement(cameraBoat, heading).target,
                      Camera.CAMERA_LAG_TARGET))
      && (f.view.mode != Camera.Follow && !f.view.inCinematic ==> g.view.placement.target == f.view.placement.target)
      && (f.view.inCinematic && now - startTime >= Camera.CINEMATIC_DURATION ==>
            g.view.mode == Camera.Orbit && !g.view.inCinematic && g.view.placement.target == end.target)
      && (!f.bounce.active && !Camera.StartsBounce(false, radius) ==>
            g.bounce == f.bounce
            && g.view == Camera.CameraFrame(f.view, start, end, startTime, now, true, cameraBoat, heading))
  {
    Camera.CameraFrameModes(f.view, start, end, startTime, now, true, cameraBoat, heading);
  }

  /** The page's live state: the camera rig, the trail system, the buoy
      field and the shader clock `uTime`. */
  class World {
    const rig: Camera.CameraRig
    const trails: Trails.TrailSystem
    const field: Buoys.BuoyField
    var waveTime: real

    /** Every part keeps its own invariant, the trails are attached, and the
        camera is never in (or transitioning to) cinematic mode: the only caller
        that could start a cinematic is the KeyE handler, and interactWithBuoy
        drops the callback it is given. */
    ghost predicate Valid()
      reads this, rig, trails, field, field.buoys
    {
      && rig.Valid() && trails.Valid() && field.Valid()
      && trails.attached
      && rig.mode != Camera.Cinematic && !rig.inCinematic
      && rig.ControlsMatchMode()
    }

    /** Module load: initTrails on the ocean material, initBoat (the boat
        starts at the origin), the switch to follow mode, and the buoy field
        once its model has loaded. `cameraStart` is where the spherical set-up
        puts the camera before the switch to follow mode. */
    constructor (uniformsPresent: bool, buoyCount: nat, cameraStart: Vec3, heading: Vec3)
      ensures Valid()
      ensures rig.mode == Camera.Follow && !rig.controlsEnabled && !rig.isBouncing && rig.zoomEnabled
      ensures Camera.Placement(rig.position, rig.target) == Camera.FollowPlacement(Vec3(0.0, 0.0, 0.0), heading)
      ensures trails.segments == [] && trails.hasUniforms == uniformsPresent && trails.lastTrailTime == 0.0
      ensures |field.buoys| == buoyCount && field.highlighted == null
      ensures forall i :: 0 <= i < buoyCount ==>
        && field.buoys[i].id == i + 1 && field.buoys[i].state == Buoys.Idle
        && !field.buoys[i].glow && field.buoys[i].pulse == Buoys.NoPulse
      ensures waveTime == 0.0
    {
      var t := new Trails.TrailSystem();
      t.Init(uniformsPresent);
      var r := new Camera.CameraRig(cameraStart);
      r.SwitchMode(Camera.Follow, true, Vec3(0.0, 0.0, 0.0), heading);
      var f := new Buoys.BuoyField(buoyCount);
      rig, trails, field := r, t, f;
      waveTime := 0.0;
    }

    /** The keydown listener. KeyE is ignored while a modal is open and
        otherwise interacts with the highlighted buoy; the camera callbacks it
        passes along are never called. KeyC toggles follow and orbit: the
        switch to orbit leaves the camera where it is, the switch to follow
        puts it at the follow placement behind the boat. Escape and every
        other key change nothing. */
    method KeyDown(key: Key, modalOpen: bool, boat: Vec3, heading: Vec3) returns (interacted: bool)
      requires Valid()
      modifies rig, field.buoys
      ensures Valid()
      ensures interacted == (key == KeyE && !modalOpen && old(field.highlighted) != null)
      ensures key == KeyE && !modalOpen && field.highlighted != null ==> field.highlighted.state == Buoys.Visited
      ensures key != KeyC ==> unchanged(rig)
      ensures key == KeyC ==>
        rig.mode == (if old(rig.mode) == Camera.Follow then Camera.Orbit else Camera.Follow)
      ensures key == KeyC && old(rig.mode) == Camera.Follow ==>
        rig.position == old(rig.position) && rig.target == old(rig.target)
      ensures key == KeyC && old(rig.mode) == Camera.Orbit ==>
        Camera.Placement(rig.position, rig.target) == Camera.FollowPlacement(boat, heading)
      ensures key != KeyE || modalOpen ==>
        forall b :: b in field.buoys ==> b.state == old(b.state) && b.pulse == old(b.pulse)
      ensures forall b :: b in field.buoys ==> b.glow == old(b.glow) && b.pulse == old(b.pulse)
      ensures forall b :: b in field.buoys && (key != KeyE || modalOpen || b != old(field.highlighted)) ==>
        b.state == old(b.state)
      ensures field.highlighted == old(field.highlighted)
    {
      interacted := false;
      if key == KeyE {
        if !modalOpen {
          interacted := field.Interact();
        }
      } else if key == KeyC {
        rig.ToggleMode(true, boat, heading);
      }
    }

    /** The part of the page one animate() frame reads and writes. */
    ghost function Snapshot(): (f: Frame)
      reads this, rig, trails, trails.positions, trails.heights, trails.radii, trails.directions,
            field, field.buoys
      ensures f.trails == trails.State() && f.buoys == field.Views() && f.waveTime == waveTime
    {
      Frame(Camera.View(rig.mode, rig.inCinematic, Camera.Placement(rig.position, rig.target)),
            Camera.Bounce(rig.isBouncing, rig.bounceStartMs, rig.bounceFromRadius, rig.bounceDir),
            trails.State(), field.Views(), waveTime)
    }

    /** The camera step for the current mode, from the boat position of the
        previous frame, then the shader clock. */
    method CameraPhase(now: real, cameraBoat: Vec3, heading: Vec3)
      requires Valid()
      modifies rig`position, rig`target, rig`inCinematic, rig`mode, this`waveTime
      ensures Valid()
      ensures Snapshot() == AfterCamera(old(Snapshot()), old(rig.cinematicStart), old(rig.cinematicEnd),
                                        old(rig.cinematicStartTime), now, cameraBoat, heading)
    {
      rig.CameraStep(now, true, cameraBoat, heading);
      waveTime := waveTime + WAVE_TIME_STEP;
    }

    /** updateTrails, from the boat as updateBoat has just moved it. */
    method TrailPhase(now: real, boat: Vec3, boatSpeed: real, boatDirection: Vec3, boost: bool,
                      rx: real, rz: real, id: int, decay: (real, real, real) -> real)
      requires Valid()
      modifies trails`segments, trails`lastTrailTime, trails.positions, trails.heights, trails.radii, trails.directions
      ensures Valid()
      ensures Snapshot() == AfterTrails(old(Snapshot()), now, boat, boatSpeed, boatDirection, boost, rx, rz, id, decay)
    {
      trails.Update(now, boat, boatSpeed, boatDirection, boost, rx, rz, id, decay);
    }

    /** updateBuoys: every buoy steps on its distance to the boat, and the
        last one in range ends up highlighted. */
    method BuoyPhase(distances: seq<real>, iconSettled: seq<bool>)
      requires Valid()
      requires |distances| == |field.buoys| == |iconSettled|
      modifies field`highlighted, field.buoys
      ensures Valid()
      ensures Snapshot() == AfterBuoys(old(Snapshot()), distances, iconSettled)
      ensures field.highlighted ==
        var last := Buoys.LastInRange(Buoys.RangeFlags(distances));
        if last >= 0 then field.buoys[last] else null
    {
      field.UpdateBuoys(distances, iconSettled);
      assert unchanged(rig, trails, trails.positions, trails.heights, trails.radii, trails.directions);
    }

    /** The bounce-back at the zoom limit; it moves only the camera position
        and the bounce state. */
    method BouncePhase(now: real, radius: real)
      requires Valid()
      modifies rig`isBouncing, rig`zoomEnabled, rig`bounceStartMs, rig`bounceFromRadius, rig`bounceDir, rig`position
      ensures Valid()
      ensures Snapshot() == AfterBounce(old(Snapshot()), now, radius)
      ensures !rig.isBouncing ==> rig.zoomEnabled
    {
      rig.BounceStep(now, radius);
    }

    /** One animate() frame, in the source's order: the camera and the clock,
        the trails, the buoys, and the bounce-back. `now` is the frame's time
        in milliseconds, `radius` the camera's distance to the orbit target
        after the camera step, `distances` each buoy's distance to the boat and
        `iconSettled` whether its icon has already faded to grey. The
        cinematic's start, end and start time lie outside the frame: only
        startCinematicTransition writes them, and no frame calls it. */
    method Animate(now: real, cameraBoat: Vec3, heading: Vec3,
                   boat: Vec3, boatSpeed: real, boatDirection: Vec3, boost: bool,
                   rx: real, rz: real, id: int, decay: (real, real, real) -> real,
                   distances: seq<real>, iconSettled: seq<bool>, radius: real)
      requires Valid()
      requires |distances| == |field.buoys| == |iconSettled|
      modifies rig`position, rig`target, rig`inCinematic, rig`mode, rig`isBouncing, rig`zoomEnabled,
               rig`bounceStartMs, rig`bounceFromRadius, rig`bounceDir
      modifies trails`segments, trails`lastTrailTime, trails.positions, trails.heights, trails.radii,
               trails.directions, field`highlighted, field.buoys, this`waveTime
      ensures Valid()
      ensures Snapshot() ==
        AnimateFrame(old(Snapshot()), old(rig.cinematicStart), old(rig.cinematicEnd), old(rig.cinematicStartTime),
                     now, cameraBoat, heading, boat, boatSpeed, boatDirection, boost, rx, rz, id, decay,
                     distances, iconSettled, radius)
      ensures !rig.isBouncing ==> rig.zoomEnabled
      ensures field.highlighted ==
        var last := Buoys.LastInRange(Buoys.RangeFlags(distances));
        if last >= 0 then field.buoys[last] else null
    {
      CameraPhase(now, cameraBoat, heading);
      TrailPhase(now, boat, boatSpeed, boatDirection, boost, rx, rz, id, decay);
      BuoyPhase(distances, iconSettled);
      BouncePhase(now, radius);
    }
  }
}

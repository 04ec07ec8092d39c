/** The wake/spray trail buffer of trails.js: a bounded list of time-stamped
    segments behind the boat, rate-limited on emission, evicted oldest-first on
    overflow, expired by age, and uploaded every frame into four fixed 50-slot
    uniform arrays that the ocean shader reads. */
module Trails {
  import opened Vectors

  const TRAIL_DISTANCE: real := 6.0
  const SPRAY_HEIGHT: real := 5.0
  const SPRAY_RADIUS: real := 15.0
  /** Seconds a plain segment lives; turbo segments live 1.5 times as long. */
  const FADE_DURATION: real := 20.0
  const MAX_TRAIL_SEGMENTS: nat := 50
  /** Milliseconds between two emitted segments. */
  const TRAIL_UPDATE_INTERVAL: real := 200.0
  /** Boat speed (length of its velocity) above which the wake is emitted. */
  const MIN_TRAIL_SPEED: real := 0.05
  /** Floor of an active slot's uploaded height. */
  const MIN_ACTIVE_HEIGHT: real := 0.01

  /** One wake stamp. `id` is the wall-clock stamp `Date.now()` took at creation. */
  datatype Segment = Segment(
    position: Vec3,
    direction: Vec3,
    timestamp: real,
    height: real,
    isTurbo: bool,
    id: int)

  function FadeDuration(s: Segment): real {
    if s.isTurbo then FADE_DURATION * 1.5 else FADE_DURATION
  }

  function EffectiveHeight(s: Segment): real {
    if s.isTurbo then SPRAY_HEIGHT * 1.8 else SPRAY_HEIGHT
  }

  function EffectiveRadius(s: Segment): real {
    if s.isTurbo then SPRAY_RADIUS * 1.3 else SPRAY_RADIUS
  }

  /** Turbo changes the lifetime, the height and the radius by three separate
      factors; a plain segment uses the base constants unchanged. */
  lemma TurboMultipliers(s: Segment)
    ensures s.isTurbo ==> FadeDuration(s) == 30.0 && EffectiveHeight(s) == 9.0 && EffectiveRadius(s) == 19.5
    ensures !s.isTurbo ==> FadeDuration(s) == FADE_DURATION && EffectiveHeight(s) == SPRAY_HEIGHT && EffectiveRadius(s) == SPRAY_RADIUS
  {
  }

  /** Age in seconds of a segment at time `now` (milliseconds). */
  function Age(now: real, s: Segment): real {
    (now - s.timestamp) / 1000.0
  }

  /** Whether a segment is still younger than its fade duration plus `grace` seconds. */
  predicate Keeps(now: real, s: Segment, grace: real) {
    Age(now, s) < FadeDuration(s) + grace
  }

  /** The segments that are younger than their fade duration plus `grace`, in their order. */
  function Survivors(segs: seq<Segment>, now: real, grace: real): (r: seq<Segment>)
    ensures |r| <= |segs|
    decreases |segs|
  {
    if segs == [] then []
    else (if Keeps(now, segs[0], grace) then [segs[0]] else []) + Survivors(segs[1..], now, grace)
  }

  /** A survivor is an element of the original list that is kept, and every
      kept element survives. */
  lemma {:induction false} SurvivorsMembers(segs: seq<Segment>, now: real, grace: real)
    ensures forall s :: s in Survivors(segs, now, grace) ==> s in segs && Keeps(now, s, grace)
    ensures forall s :: s in segs && Keeps(now, s, grace) ==> s in Survivors(segs, now, grace)
    decreases |segs|
  {
    if segs != [] {
      SurvivorsMembers(segs[1..], now, grace);
      assert segs == [segs[0]] + segs[1..];
    }
  }

  /** Filtering distributes over concatenation: survivors keep their relative order. */
  lemma {:induction false} SurvivorsConcat(a: seq<Segment>, b: seq<Segment>, now: real, grace: real)
    ensures Survivors(a + b, now, grace) == Survivors(a, now, grace) + Survivors(b, now, grace)
    decreases |a|
  {
    if a == [] {
      assert a + b == b;
    } else {
      var head := if Keeps(now, a[0], grace) then [a[0]] else [];
      assert (a + b)[0] == a[0];
      assert (a + b)[1..] == a[1..] + b;
      SurvivorsConcat(a[1..], b, now, grace);
      calc {
        Survivors(a + b, now, grace);
        head + Survivors(a[1..] + b, now, grace);
        head + (Survivors(a[1..], now, grace) + Survivors(b, now, grace));
        (head + Survivors(a[1..], now, grace)) + Survivors(b, now, grace);
        Survivors(a, now, grace) + Survivors(b, now, grace);
      }
    }
  }

  /** A list every element of which is kept is its own survivors list. */
  lemma {:induction false} SurvivorsOfKept(segs: seq<Segment>, now: real, grace: real)
    requires forall s :: s in segs ==> Keeps(now, s, grace)
    ensures Survivors(segs, now, grace) == segs
    decreases |segs|
  {
    if segs != [] {
      assert forall s :: s in segs[1..] ==> s in segs;
      SurvivorsOfKept(segs[1..], now, grace);
      assert [segs[0]] + segs[1..] == segs;
    }
  }

  /** The closing `filter(age < fade + 1)` removes nothing that the expiry pass kept. */
  lemma ClosingFilterKeepsAll(segs: seq<Segment>, now: real)
    ensures Survivors(Survivors(segs, now, 0.0), now, 1.0) == Survivors(segs, now, 0.0)
  {
    var kept := Survivors(segs, now, 0.0);
    SurvivorsMembers(segs, now, 0.0);
    assert forall s :: s in kept ==> Keeps(now, s, 1.0);
    SurvivorsOfKept(kept, now, 1.0);
  }

  /** One step of the slot loop, on the list: the list is `done` (the survivors
      so far) followed by `rest` (the segments not yet examined), and the head of
      `rest` sits at index |done|. Keeping it moves it into `done`; splicing it
      out drops it. Either way the survivors still to come shrink to those of
      the tail. */
  lemma SlotStep(done: seq<Segment>, rest: seq<Segment>, now: real)
    requires rest != []
    ensures (done + rest)[|done|] == rest[0]
    ensures Keeps(now, rest[0], 0.0) ==>
      && done + Survivors(rest, now, 0.0) == (done + [rest[0]]) + Survivors(rest[1..], now, 0.0)
      && done + rest == (done + [rest[0]]) + rest[1..]
    ensures !Keeps(now, rest[0], 0.0) ==>
      && Survivors(rest, now, 0.0) == Survivors(rest[1..], now, 0.0)
      && (done + rest)[..|done|] + (done + rest)[|done| + 1..] == done + rest[1..]
  {
    assert (done + rest)[|done| + 1..] == rest[1..];
  }

  /** The emission gate: the boat is moving fast enough and the last segment is
      more than TRAIL_UPDATE_INTERVAL old. */
  predicate ShouldEmit(boatSpeed: real, now: real, lastTrailTime: real) {
    boatSpeed > MIN_TRAIL_SPEED && now - lastTrailTime > TRAIL_UPDATE_INTERVAL
  }

  /** The segment created at `now`: TRAIL_DISTANCE behind the boat along
      `-direction`, jittered by `(rx - 0.5) * 2` in x and `(rz - 0.5) * 3` in z,
      where rx and rz are the two Math.random() draws. */
  function NewSegment(boatPosition: Vec3, boatDirection: Vec3, now: real, boost: bool,
                      rx: real, rz: real, id: int): (s: Segment)
    ensures s.timestamp == now && s.height == SPRAY_HEIGHT && s.isTurbo == boost
    ensures s.direction == boatDirection && s.id == id
    ensures s.position.y == boatPosition.y - TRAIL_DISTANCE * boatDirection.y
    ensures 0.0 <= rx < 1.0 ==>
      -1.0 <= s.position.x - (boatPosition.x - TRAIL_DISTANCE * boatDirection.x) < 1.0
    ensures 0.0 <= rz < 1.0 ==>
      -1.5 <= s.position.z - (boatPosition.z - TRAIL_DISTANCE * boatDirection.z) < 1.5
  {
    var behindBoat := Scale(boatDirection, -TRAIL_DISTANCE);
    var p := Add(boatPosition, behindBoat);
    var trailPosition := Vec3(p.x + (rx - 0.5) * 2.0, p.y, p.z + (rz - 0.5) * 3.0);
    Segment(trailPosition, boatDirection, now, SPRAY_HEIGHT, boost, id)
  }

  /** `push` followed by one `shift` when the list outgrew its capacity. */
  function Pushed(segs: seq<Segment>, s: Segment): (r: seq<Segment>)
    ensures |r| == if |segs| + 1 > MAX_TRAIL_SEGMENTS then |segs| else |segs| + 1
    ensures |segs| <= MAX_TRAIL_SEGMENTS ==> |r| <= MAX_TRAIL_SEGMENTS
    ensures r[|r| - 1] == s
    ensures forall i :: 0 <= i < |r| - 1 ==> r[i] == segs[i + |segs| + 1 - |r|]
  {
    var pushed := segs + [s];
    if |pushed| > MAX_TRAIL_SEGMENTS then pushed[1..] else pushed
  }

  /** The list after the emission step of one update. */
  function AfterEmission(segs: seq<Segment>, lastTrailTime: real, now: real, boatSpeed: real,
                         boatPosition: Vec3, boatDirection: Vec3, boost: bool,
                         rx: real, rz: real, id: int): seq<Segment>
  {
    if ShouldEmit(boatSpeed, now, lastTrailTime)
    then Pushed(segs, NewSegment(boatPosition, boatDirection, now, boost, rx, rz, id))
    else segs
  }

  /** The height uploaded for an active segment: the decayed height, floored at 0.01.
      `decay(effectiveHeight, effectiveFade, age)` stands for the Math.pow curve. */
  function UploadHeight(s: Segment, now: real, decay: (real, real, real) -> real): (h: real)
    ensures h >= MIN_ACTIVE_HEIGHT
    ensures h >= decay(EffectiveHeight(s), FadeDuration(s), Age(now, s))
    ensures h == MIN_ACTIVE_HEIGHT || h == decay(EffectiveHeight(s), FadeDuration(s), Age(now, s))
  {
    var current := decay(EffectiveHeight(s), FadeDuration(s), Age(now, s));
    if current > MIN_ACTIVE_HEIGHT then current else MIN_ACTIVE_HEIGHT
  }

  /** A trail system as a value: whether uniforms exist, the segment list, the
      last emission time and the contents of the four uniform arrays. */
  datatype TrailState = TrailState(hasUniforms: bool, segments: seq<Segment>, lastTrailTime: real,
                                   positions: seq<Vec3>, heights: seq<real>, radii: seq<real>,
                                   directions: seq<Vec3>)

  /** The shape every trail system keeps: at most 50 segments and, once
      uniforms exist, four 50-slot arrays. */
  predicate WellFormed(t: TrailState) {
    && |t.segments| <= MAX_TRAIL_SEGMENTS
    && (t.hasUniforms ==>
          |t.positions| == |t.heights| == |t.radii| == |t.directions| == MAX_TRAIL_SEGMENTS)
  }

  /** updateTrails on an attached trail system in state `t0`: the emission
      step, then with uniforms the slot loop (the segments that have not
      expired, uploaded in order, and height 0 in every later slot) and
      without uniforms only the closing filter. A slot is active (positive
      height) exactly when it shows a live segment; the stale slots keep their
      position, radius and direction. */
  function Next(t0: TrailState, now: real, boat: Vec3, boatSpeed: real, boatDirection: Vec3, boost: bool,
                rx: real, rz: real, id: int, decay: (real, real, real) -> real): (t: TrailState)
    requires WellFormed(t0)
    ensures WellFormed(t) && t.hasUniforms == t0.hasUniforms
    ensures t.lastTrailTime == (if ShouldEmit(boatSpeed, now, t0.lastTrailTime) then now else t0.lastTrailTime)
    ensures forall s :: s in t.segments ==>
      && s in AfterEmission(t0.segments, t0.lastTrailTime, now, boatSpeed, boat, boatDirection, boost, rx, rz, id)
      && Keeps(now, s, if t0.hasUniforms then 0.0 else 1.0)
    ensures !t0.hasUniforms ==>
      t.positions == t0.positions && t.heights == t0.heights && t.radii == t0.radii && t.directions == t0.directions
    ensures t0.hasUniforms ==> forall j :: 0 <= j < MAX_TRAIL_SEGMENTS ==>
      && (t.heights[j] > 0.0 <==> j < |t.segments|)
      && (j < |t.segments| ==>
            && t.positions[j] == t.segments[j].position && t.heights[j] == UploadHeight(t.segments[j], now, decay)
            && t.radii[j] == EffectiveRadius(t.segments[j]) && t.directions[j] == t.segments[j].direction)
      && (|t.segments| <= j ==>
            t.positions[j] == t0.positions[j] && t.radii[j] == t0.radii[j] && t.directions[j] == t0.directions[j])
    ensures t0.segments == [] && boatSpeed <= MIN_TRAIL_SPEED ==> t.segments == []
  {
    var emitted := AfterEmission(t0.segments, t0.lastTrailTime, now, boatSpeed, boat, boatDirection,
                                 boost, rx, rz, id);
    var last := if ShouldEmit(boatSpeed, now, t0.lastTrailTime) then now else t0.lastTrailTime;
    var live := Survivors(emitted, now, if t0.hasUniforms then 0.0 else 1.0);
    SurvivorsMembers(emitted, now, if t0.hasUniforms then 0.0 else 1.0);
    if t0.hasUniforms then
      TrailState(true, live, last,
        seq(MAX_TRAIL_SEGMENTS, j requires 0 <= j < MAX_TRAIL_SEGMENTS =>
          if j < |live| then live[j].position else t0.positions[j]),
        seq(MAX_TRAIL_SEGMENTS, j requires 0 <= j < MAX_TRAIL_SEGMENTS =>
          if j < |live| then UploadHeight(live[j], now, decay) else 0.0),
        seq(MAX_TRAIL_SEGMENTS, j requires 0 <= j < MAX_TRAIL_SEGMENTS =>
          if j < |live| then EffectiveRadius(live[j]) else t0.radii[j]),
        seq(MAX_TRAIL_SEGMENTS, j requires 0 <= j < MAX_TRAIL_SEGMENTS =>
          if j < |live| then live[j].direction else t0.directions[j]))
    else
      TrailState(false, live, last, t0.positions, t0.heights, t0.radii, t0.directions)
  }

  /** The module-level state of trails.js together with the four uniform arrays
      (positions, heights, radii, directions) it uploads into. */
  class TrailSystem {
    /** `oceanDots` has been set by initTrails. */
    var attached: bool
    /** The ocean material had a `uniforms` object when initTrails ran. */
    var hasUniforms: bool
    var segments: seq<Segment>
    var lastTrailTime: real
    var positions: array<Vec3>
    var heights: array<real>
    var radii: array<real>
    var directions: array<Vec3>

    ghost predicate Valid()
      reads this
    {
      && |segments| <= MAX_TRAIL_SEGMENTS
      && (hasUniforms ==> attached)
      && (hasUniforms ==>
            && positions.Length == MAX_TRAIL_SEGMENTS && heights.Length == MAX_TRAIL_SEGMENTS
            && radii.Length == MAX_TRAIL_SEGMENTS && directions.Length == MAX_TRAIL_SEGMENTS)
      && positions != directions
      && heights != radii
    }

    /** The four uniform arrays are 50 slots long and distinct. */
    ghost predicate Slots()
      reads this
    {
      && positions.Length == MAX_TRAIL_SEGMENTS && heights.Length == MAX_TRAIL_SEGMENTS
      && radii.Length == MAX_TRAIL_SEGMENTS && directions.Length == MAX_TRAIL_SEGMENTS
      && positions != directions && heights != radii
    }

    /** Slot `j` shows segment `s`. */
    ghost predicate SlotShows(j: nat, s: Segment, now: real, decay: (real, real, real) -> real)
      reads this`positions, this`heights, this`radii, this`directions, positions, heights, radii, directions
    {
      && j < positions.Length && j < heights.Length && j < radii.Length && j < directions.Length
      && positions[j] == s.position
      && heights[j] == UploadHeight(s, now, decay)
      && radii[j] == EffectiveRadius(s)
      && directions[j] == s.direction
    }

    /** Every slot below the list length shows its segment; every slot at or
        beyond it carries the inactive height 0. */
    ghost predicate Uploaded(now: real, decay: (real, real, real) -> real)
      reads this, positions, heights, radii, directions
      requires Valid() && hasUniforms
    {
      && (forall j :: 0 <= j < |segments| ==> SlotShows(j, segments[j], now, decay))
      && (forall j :: |segments| <= j < MAX_TRAIL_SEGMENTS ==> heights[j] == 0.0)
    }

    /** The state when trails.js is loaded: no ocean reference, no segments,
        lastTrailTime 0, and no uniform arrays yet. */
    constructor ()
      ensures Valid() && !attached && !hasUniforms
      ensures segments == [] && lastTrailTime == 0.0
    {
      attached, hasUniforms := false, false;
      segments, lastTrailTime := [], 0.0;
      positions := new Vec3[0];
      heights := new real[0];
      radii := new real[0];
      directions := new Vec3[0];
    }

    /** initTrails: attach to the ocean, create fresh 50-slot uniform arrays when
        the material has uniforms, and empty the list. lastTrailTime is kept. */
    method Init(uniformsPresent: bool)
      requires Valid()
      modifies this
      ensures Valid() && attached && hasUniforms == uniformsPresent
      ensures segments == [] && lastTrailTime == old(lastTrailTime)
      ensures uniformsPresent ==>
        && fresh(positions) && fresh(heights) && fresh(radii) && fresh(directions)
        && forall j :: 0 <= j < MAX_TRAIL_SEGMENTS ==>
             && positions[j] == Vec3(0.0, 0.0, 0.0) && heights[j] == 0.0
             && radii[j] == SPRAY_RADIUS && directions[j] == Vec3(0.0, 0.0, -1.0)
      ensures !uniformsPresent ==>
        positions == old(positions) && heights == old(heights) &&
        radii == old(radii) && directions == old(directions)
    {
      if uniformsPresent {
        positions, heights, radii, directions := FreshSlots();
      }
      attached := true;
      hasUniforms := uniformsPresent;
      segments := [];
    }

    /** The initial slot arrays: position (0,0,0), height 0, radius SPRAY_RADIUS
        and direction (0,0,-1) in each of the 50 slots. */
    static method FreshSlots() returns (ps: array<Vec3>, hs: array<real>, rs: array<real>, ds: array<Vec3>)
      ensures fresh(ps) && fresh(hs) && fresh(rs) && fresh(ds) && ps != ds && hs != rs
      ensures ps.Length == hs.Length == rs.Length == ds.Length == MAX_TRAIL_SEGMENTS
      ensures forall j :: 0 <= j < MAX_TRAIL_SEGMENTS ==>
        && ps[j] == Vec3(0.0, 0.0, 0.0) && hs[j] == 0.0
        && rs[j] == SPRAY_RADIUS && ds[j] == Vec3(0.0, 0.0, -1.0)
    {
      ps := new Vec3[MAX_TRAIL_SEGMENTS];
      hs := new real[MAX_TRAIL_SEGMENTS];
      rs := new real[MAX_TRAIL_SEGMENTS];
      ds := new Vec3[MAX_TRAIL_SEGMENTS];
      for i := 0 to MAX_TRAIL_SEGMENTS
        invariant forall j :: 0 <= j < i ==>
          && ps[j] == Vec3(0.0, 0.0, 0.0) && hs[j] == 0.0
          && rs[j] == SPRAY_RADIUS && ds[j] == Vec3(0.0, 0.0, -1.0)
      {
        ps[i] := Vec3(0.0, 0.0, 0.0);
        hs[i] := 0.0;
        rs[i] := SPRAY_RADIUS;
        ds[i] := Vec3(0.0, 0.0, -1.0);
      }
    }

    /** The emission step: push a new segment (and shift out the oldest on
        overflow) when the gate is open, and then remember `now`. */
    method Emit(now: real, boatPosition: Vec3, boatSpeed: real, boatDirection: Vec3, boost: bool,
                rx: real, rz: real, id: int)
      requires Valid()
      modifies this`segments, this`lastTrailTime
      ensures Valid()
      ensures segments == AfterEmission(old(segments), old(lastTrailTime), now, boatSpeed,
                                        boatPosition, boatDirection, boost, rx, rz, id)
      ensures lastTrailTime == if ShouldEmit(boatSpeed, now, old(lastTrailTime)) then now else old(lastTrailTime)
    {
      if boatSpeed > MIN_TRAIL_SPEED {
        if now - lastTrailTime > TRAIL_UPDATE_INTERVAL {
          var segment := NewSegment(boatPosition, boatDirection, now, boost, rx, rz, id);
          segments := segments + [segment];
          if |segments| > MAX_TRAIL_SEGMENTS {
            segments := segments[1..];
          }
          lastTrailTime := now;
        }
      }
    }

    /** Write segment `s` into slot `i` of the four uniform arrays. */
    method WriteSlot(i: nat, s: Segment, now: real, decay: (real, real, real) -> real)
      requires Slots()
      requires i < MAX_TRAIL_SEGMENTS
      modifies positions, heights, radii, directions
      ensures SlotShows(i, s, now, decay)
      ensures forall j :: 0 <= j < MAX_TRAIL_SEGMENTS && j != i ==>
        && positions[j] == old(positions[j]) && heights[j] == old(heights[j])
        && radii[j] == old(radii[j]) && directions[j] == old(directions[j])
    {
      positions[i] := s.position;
      heights[i] := UploadHeight(s, now, decay);
      radii[i] := EffectiveRadius(s);
      directions[i] := s.direction;
    }

    /** Mark slot `i` inactive: height 0, everything else left as it was. */
    method ClearSlot(i: nat)
      requires Slots()
      requires i < MAX_TRAIL_SEGMENTS
      modifies heights
      ensures heights[i] == 0.0
      ensures forall j :: 0 <= j < MAX_TRAIL_SEGMENTS && j != i ==> heights[j] == old(heights[j])
    {
      heights[i] := 0.0;
    }

    /** The slot loop's invariant after `i` slots: the list is `done` (kept and
        uploaded) followed by `rest` (not yet examined), the survivors of the
        original list are `done` followed by the survivors of `rest`, the first
        |done| slots show `done`, the slots from |done| to `i` are inactive, and
        every other slot still holds its old position, radius and direction
        (`p0`, `r0`, `d0`). */
    ghost predicate SlotLoop(orig: seq<Segment>, done: seq<Segment>, rest: seq<Segment>, i: nat,
                             now: real, decay: (real, real, real) -> real,
                             p0: seq<Vec3>, r0: seq<real>, d0: seq<Vec3>)
      reads this, positions, heights, radii, directions
    {
      && Slots()
      && i <= MAX_TRAIL_SEGMENTS && |segments| <= MAX_TRAIL_SEGMENTS
      && |p0| == |r0| == |d0| == MAX_TRAIL_SEGMENTS
      && Survivors(orig, now, 0.0) == done + Survivors(rest, now, 0.0)
      && segments == done + rest
      && |done| <= i
      && (rest != [] ==> i == |done|)
      && (forall j :: 0 <= j < |done| ==> SlotShows(j, done[j], now, decay))
      && (forall j :: |done| <= j < i ==> heights[j] == 0.0)
      && (forall j :: (i <= j || |done| <= j) && j < MAX_TRAIL_SEGMENTS ==>
            positions[j] == p0[j] && radii[j] == r0[j] && directions[j] == d0[j])
    }

    /** Before the first slot: nothing examined, nothing kept, nothing written. */
    lemma SlotLoopStart(now: real, decay: (real, real, real) -> real)
      requires Valid() && hasUniforms
      ensures SlotLoop(segments, [], segments, 0, now, decay, positions[..], radii[..], directions[..])
    {
      assert [] + segments == segments;
    }

    /** Once all 50 slots are done, every original segment has been examined:
        the list is exactly the survivors and the slots show them. */
    lemma SlotLoopExit(orig: seq<Segment>, done: seq<Segment>, rest: seq<Segment>, now: real,
                       decay: (real, real, real) -> real,
                       p0: seq<Vec3>, r0: seq<real>, d0: seq<Vec3>)
      requires SlotLoop(orig, done, rest, MAX_TRAIL_SEGMENTS, now, decay, p0, r0, d0)
      ensures segments == done == Survivors(orig, now, 0.0)
      ensures forall j :: 0 <= j < |segments| ==> SlotShows(j, segments[j], now, decay)
      ensures forall j :: |segments| <= j < MAX_TRAIL_SEGMENTS ==>
        heights[j] == 0.0 && positions[j] == p0[j] && radii[j] == r0[j] && directions[j] == d0[j]
    {
      assert rest == [];
      assert done + [] == done;
    }

    /** Slot `i` holds a young segment: upload it and move to the next slot. */
    method KeepSlot(ghost orig: seq<Segment>, ghost done: seq<Segment>, ghost rest: seq<Segment>, i: nat,
                    now: real, decay: (real, real, real) -> real,
                    ghost p0: seq<Vec3>, ghost r0: seq<real>, ghost d0: seq<Vec3>)
      requires SlotLoop(orig, done, rest, i, now, decay, p0, r0, d0)
      requires i < |segments| && Keeps(now, segments[i], 0.0)
      modifies positions, heights, radii, directions
      ensures rest != [] && segments[i] == rest[0]
      ensures SlotLoop(orig, done + [rest[0]], rest[1..], i + 1, now, decay, p0, r0, d0)
    {
      SlotStep(done, rest, now);
      WriteSlot(i, segments[i], now, decay);
    }

    /** Slot `i` holds an expired segment: splice it out and look at slot `i` again. */
    method DropSegment(ghost orig: seq<Segment>, ghost done: seq<Segment>, ghost rest: seq<Segment>, i: nat,
                       now: real, ghost decay: (real, real, real) -> real,
                       ghost p0: seq<Vec3>, ghost r0: seq<real>, ghost d0: seq<Vec3>)
      requires SlotLoop(orig, done, rest, i, now, decay, p0, r0, d0)
      requires i < |segments| && !Keeps(now, segments[i], 0.0)
      modifies this`segments
      ensures rest != [] && |segments| == old(|segments|) - 1
      ensures SlotLoop(orig, done, rest[1..], i, now, decay, p0, r0, d0)
    {
      SlotStep(done, rest, now);
      segments := segments[..i] + segments[i + 1..];
    }

    /** Slot `i` has no segment: mark it inactive and move on. */
    method EmptySlot(ghost orig: seq<Segment>, ghost done: seq<Segment>, ghost rest: seq<Segment>, i: nat,
                     ghost now: real, ghost decay: (real, real, real) -> real,
                     ghost p0: seq<Vec3>, ghost r0: seq<real>, ghost d0: seq<Vec3>)
      requires SlotLoop(orig, done, rest, i, now, decay, p0, r0, d0)
      requires |segments| <= i < MAX_TRAIL_SEGMENTS
      modifies heights
      ensures SlotLoop(orig, done, rest, i + 1, now, decay, p0, r0, d0)
    {
      ClearSlot(i);
    }

    /** The slot loop: for each of the 50 slots, upload the segment at that index
        if it is still young, or splice it out and look at the same index again
        (the source's `i--` before the loop's `i++`); a slot with no segment gets
        height 0. */
    method UploadSlots(now: real, decay: (real, real, real) -> real)
      requires Valid() && hasUniforms
      modifies this`segments, positions, heights, radii, directions
      ensures Valid()
      ensures segments == Survivors(old(segments), now, 0.0)
      ensures Uploaded(now, decay)
      ensures forall j :: |segments| <= j < MAX_TRAIL_SEGMENTS ==>
        positions[j] == old(positions[j]) && radii[j] == old(radii[j]) && directions[j] == old(directions[j])
    {
      ghost var orig := segments;
      ghost var p0, r0, d0 := positions[..], radii[..], directions[..];
      ghost var done: seq<Segment> := [];
      ghost var rest := segments;
      var i := 0;
      SlotLoopStart(now, decay);
      while i < MAX_TRAIL_SEGMENTS
        invariant SlotLoop(orig, done, rest, i, now, decay, p0, r0, d0)
        decreases MAX_TRAIL_SEGMENTS - i + |segments|
      {
        if i < |segments| {
          if Age(now, segments[i]) < FadeDuration(segments[i]) {
            KeepSlot(orig, done, rest, i, now, decay, p0, r0, d0);
            done := done + [rest[0]];
            i := i + 1;
          } else {
            DropSegment(orig, done, rest, i, now, decay, p0, r0, d0);
          }
          rest := rest[1..];
        } else {
          EmptySlot(orig, done, rest, i, now, decay, p0, r0, d0);
          i := i + 1;
        }
      }
      SlotLoopExit(orig, done, rest, now, decay, p0, r0, d0);
    }

    /** The trail system's state as a value. */
    ghost function State(): (t: TrailState)
      reads this, positions, heights, radii, directions
      ensures t.segments == segments && t.hasUniforms == hasUniforms
    {
      TrailState(hasUniforms, segments, lastTrailTime, positions[..], heights[..], radii[..], directions[..])
    }

    /** After the slot loop and the closing filter, the arrays hold exactly
        what Next computes from the state `t0` before the update. */
    lemma UploadIsNext(t0: TrailState, now: real, boat: Vec3, boatSpeed: real, boatDirection: Vec3, boost: bool,
                       rx: real, rz: real, id: int, decay: (real, real, real) -> real)
      requires Valid() && hasUniforms && WellFormed(t0) && t0.hasUniforms
      requires lastTrailTime == (if ShouldEmit(boatSpeed, now, t0.lastTrailTime) then now else t0.lastTrailTime)
      requires segments == Survivors(AfterEmission(t0.segments, t0.lastTrailTime, now, boatSpeed, boat,
                                                   boatDirection, boost, rx, rz, id), now, 0.0)
      requires Uploaded(now, decay)
      requires forall j :: |segments| <= j < MAX_TRAIL_SEGMENTS ==>
        positions[j] == t0.positions[j] && radii[j] == t0.radii[j] && directions[j] == t0.directions[j]
      ensures State() == Next(t0, now, boat, boatSpeed, boatDirection, boost, rx, rz, id, decay)
    {
      var t := Next(t0, now, boat, boatSpeed, boatDirection, boost, rx, rz, id, decay);
      forall j | 0 <= j < |segments|
        ensures positions[j] == t.positions[j] && heights[j] == t.heights[j]
        ensures radii[j] == t.radii[j] && directions[j] == t.directions[j]
      {
        assert SlotShows(j, segments[j], now, decay);
      }
      assert positions[..] == t.positions;
      assert heights[..] == t.heights;
      assert radii[..] == t.radii;
      assert directions[..] == t.directions;
    }

    /** updateTrails: nothing before initTrails; otherwise emit, run the slot
        loop when uniforms exist, and finally keep only segments younger than
        their fade duration plus one second. */
    method Update(now: real, boatPosition: Vec3, boatSpeed: real, boatDirection: Vec3, boost: bool,
                  rx: real, rz: real, id: int, decay: (real, real, real) -> real)
      requires Valid()
      modifies this`segments, this`lastTrailTime, positions, heights, radii, directions
      ensures Valid()
      ensures !attached ==>
        && segments == old(segments) && lastTrailTime == old(lastTrailTime)
        && unchanged(positions) && unchanged(heights) && unchanged(radii) && unchanged(directions)
      ensures attached ==>
        && lastTrailTime == (if ShouldEmit(boatSpeed, now, old(lastTrailTime)) then now else old(lastTrailTime))
        && segments == Survivors(AfterEmission(old(segments), old(lastTrailTime), now, boatSpeed,
                                               boatPosition, boatDirection, boost, rx, rz, id),
                                 now, if hasUniforms then 0.0 else 1.0)
      ensures attached && !hasUniforms ==>
        unchanged(positions) && unchanged(heights) && unchanged(radii) && unchanged(directions)
      ensures hasUniforms ==> Uploaded(now, decay)
      ensures hasUniforms ==> forall j :: |segments| <= j < MAX_TRAIL_SEGMENTS ==>
        positions[j] == old(positions[j]) && radii[j] == old(radii[j]) && directions[j] == old(directions[j])
      ensures hasUniforms ==> forall s :: s in segments ==> Age(now, s) < FadeDuration(s)
      ensures old(segments) == [] && boatSpeed <= MIN_TRAIL_SPEED ==> segments == []
      ensures attached ==>
        State() == Next(old(State()), now, boatPosition, boatSpeed, boatDirection, boost, rx, rz, id, decay)
    {
      if !attached {
        return;
      }
      ghost var t0 := State();
      Emit(now, boatPosition, boatSpeed, boatDirection, boost, rx, rz, id);
      if hasUniforms {
        ghost var emitted := segments;
        UploadSlots(now, decay);
        ClosingFilterKeepsAll(emitted, now);
        SurvivorsMembers(emitted, now, 0.0);
      }
      segments := Survivors(segments, now, 1.0);
      if hasUniforms {
        UploadIsNext(t0, now, boatPosition, boatSpeed, boatDirection, boost, rx, rz, id, decay);
      } else {
        assert positions[..] == t0.positions && heights[..] == t0.heights;
        assert radii[..] == t0.radii && directions[..] == t0.directions;
      }
    }
  }
}

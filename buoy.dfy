/** The proximity state machine of buoy.js: each buoy is idle, highlighted or
    visited, may carry a glow mesh and a pulse tween on its icon, and the module
    remembers the buoy the boat was last found close to. Distances are inputs,
    meshes and tweens are presence flags and counts. */
module Buoys {

  /** Distance from the boat within which a buoy reacts. */
  const INTERACTION_DISTANCE: real := 40.0

  datatype BuoyState = Idle | Highlighted | Visited

  /** The icon's pulse bookkeeping: whether `icon.userData.pulseTween` holds a
      tween, and how many pulse tweens (each repeating forever) are running on
      the icon. */
  datatype Pulse = Pulse(handle: bool, running: nat)

  const NoPulse: Pulse := Pulse(false, 0)

  /** The stored handle is the one running pulse, or there is no handle and no pulse. */
  predicate PulseConsistent(p: Pulse) {
    p.running == if p.handle then 1 else 0
  }

  /** `pulseTween.stop()` when a handle is stored: its tween stops running. */
  function StopTween(p: Pulse): (r: Pulse)
    ensures r.handle == p.handle && r.running <= p.running
    ensures !p.handle ==> r == p
    ensures PulseConsistent(p) ==> r.running == 0
  {
    if p.handle && p.running > 0 then Pulse(p.handle, p.running - 1) else p
  }

  /** startPulseAnimation as written: the stored value is the result of calling
      `pulse`, whose arrow body ends without a `return`, so the handle is never
      set although a new endless tween has been started. */
  function StartPulseAsWritten(p: Pulse): (r: Pulse)
    ensures !r.handle && r.running >= 1
    ensures !p.handle ==> r.running == p.running + 1
    ensures PulseConsistent(p) ==> r == Pulse(false, 1)
  {
    Pulse(false, StopTween(p).running + 1)
  }

  /** startPulseAnimation as intended: stop the stored tween, start a new one
      and store it. */
  function StartPulse(p: Pulse): (r: Pulse)
    ensures r.handle && r.running >= 1
    ensures PulseConsistent(p) ==> PulseConsistent(r) && r.running == 1
    ensures PulseConsistent(p) ==> StopPulse(r) == NoPulse
  {
    Pulse(true, StopTween(p).running + 1)
  }

  /** stopPulseAnimation: with a stored handle, stop it and clear it; without
      one, nothing happens. */
  function StopPulse(p: Pulse): (r: Pulse)
    ensures !r.handle && r.running <= p.running
    ensures !p.handle ==> r == p
    ensures PulseConsistent(p) ==> r == NoPulse
  {
    if p.handle then Pulse(false, StopTween(p).running) else p
  }

  /** `n` calls of startPulseAnimation as written, from an icon without pulse. */
  function StartsAsWritten(n: nat): Pulse
  {
    if n == 0 then NoPulse else StartPulseAsWritten(StartsAsWritten(n - 1))
  }

  /** As written, every start adds an endless tween that no later start or stop
      can reach: after `n` starts and a stop, `n` pulses still run. */
  lemma {:induction false} PulsesAccumulateAsWritten(n: nat)
    ensures StartsAsWritten(n) == Pulse(false, n)
    ensures StopPulse(StartsAsWritten(n)) == Pulse(false, n)
  {
    if n > 0 {
      PulsesAccumulateAsWritten(n - 1);
    }
  }

  /** The smallest case: a buoy highlighted once and then left keeps pulsing. */
  lemma PulseLeakAsWritten()
    ensures StopPulse(StartPulseAsWritten(NoPulse)).running == 1
  {
    PulsesAccumulateAsWritten(1);
  }

  /** With the handle stored, starting keeps exactly one pulse running and
      stopping leaves none. */
  lemma PulseKeptSingle(p: Pulse)
    requires PulseConsistent(p)
    ensures PulseConsistent(StartPulse(p)) && StartPulse(p).running == 1
    ensures PulseConsistent(StopPulse(p)) && StopPulse(p).running == 0
  {
  }

  /** The state after updateBuoyState: visited is kept; otherwise highlighted
      in range and idle out of it. */
  function NextState(s: BuoyState, inRange: bool): (r: BuoyState)
    ensures r == Visited <==> s == Visited
    ensures s != Visited ==> (r == Highlighted <==> inRange) && (r == Idle <==> !inRange)
  {
    if s == Visited then Visited else if inRange then Highlighted else Idle
  }

  /** The pulse after updateBuoyState. In range, a visited icon whose colour has
      not yet settled on the visited grey restarts its pulse, and a buoy that is
      not yet highlighted starts one; out of range, a buoy that leaves the
      highlighted state stops it. `storesHandle` chooses the intended
      startPulseAnimation over the one as written. */
  function NextPulse(s: BuoyState, p: Pulse, inRange: bool, iconSettled: bool, storesHandle: bool): Pulse
  {
    var started := if storesHandle then StartPulse(p) else StartPulseAsWritten(p);
    if inRange then
      if s == Visited then (if iconSettled then p else started)
      else if s != Highlighted then started
      else p
    else
      if s == Visited || s == Idle then p else StopPulse(p)
  }

  /** A buoy pulses exactly when it is not idle, and updateBuoyState keeps it so. */
  predicate PulseMatches(s: BuoyState, p: Pulse) {
    PulseConsistent(p) && p.handle == (s != Idle)
  }

  lemma NextPulseMatches(s: BuoyState, p: Pulse, inRange: bool, iconSettled: bool)
    requires PulseMatches(s, p)
    ensures PulseMatches(NextState(s, inRange), NextPulse(s, p, inRange, iconSettled, true))
    ensures NextState(s, inRange) == Idle ==> NextPulse(s, p, inRange, iconSettled, true).running == 0
  {
    assert p == if s == Idle then NoPulse else Pulse(true, 1);
    var q := NextPulse(s, p, inRange, iconSettled, true);
    if inRange {
      if s == Idle || (s == Visited && !iconSettled) {
        assert q == StartPulse(p) == Pulse(true, 1);
      } else {
        assert q == p;
      }
    } else if s == Highlighted {
      assert q == StopPulse(p) == NoPulse;
    } else {
      assert q == p;
    }
  }

  /** What updateBuoyState reads and writes on one buoy: its state, whether a
      glow mesh is attached, and the pulse on its icon. */
  datatype BuoyView = BuoyView(state: BuoyState, glow: bool, pulse: Pulse)

  /** updateBuoyState on one buoy, as a function of its view: the state moved
      by NextState, a glow exactly when in range or visited, and the pulse
      moved by NextPulse. */
  function NextView(v: BuoyView, inRange: bool, iconSettled: bool): BuoyView
  {
    var s := NextState(v.state, inRange);
    BuoyView(s, inRange || s == Visited, NextPulse(v.state, v.pulse, inRange, iconSettled, true))
  }

  /** updateBuoyState on every buoy of a list, buoy `i` being in range when
      `flags[i]` holds. */
  function StepViews(vs: seq<BuoyView>, flags: seq<bool>, iconSettled: seq<bool>): (r: seq<BuoyView>)
    requires |vs| == |flags| == |iconSettled|
    ensures |r| == |vs|
    ensures forall i :: 0 <= i < |vs| ==> r[i] == NextView(vs[i], flags[i], iconSettled[i])
  {
    seq(|vs|, i requires 0 <= i < |vs| => NextView(vs[i], flags[i], iconSettled[i]))
  }

  /** As written, the same walk (idle, then in range, then out of range) ends
      idle with one pulse still running. */
  lemma IdleStillPulsesAsWritten()
    ensures NextState(NextState(Idle, true), false) == Idle
    ensures NextPulse(Highlighted, NextPulse(Idle, NoPulse, true, false, false),
                      false, false, false).running == 1
  {
    PulseLeakAsWritten();
  }

  /** One buoy group: its id, its state, whether a glow mesh is attached and
      the pulse on its icon. */
  class Buoy {
    const id: int
    var state: BuoyState
    var glow: bool
    var pulse: Pulse

    ghost predicate Valid()
      reads this
    {
      PulseMatches(state, pulse)
    }

    ghost function View(): (v: BuoyView)
      reads this
      ensures v.state == state && v.glow == glow && v.pulse == pulse
    {
      BuoyView(state, glow, pulse)
    }

    /** A freshly loaded buoy: idle, no glow, no pulse. */
    constructor (id: int)
      ensures Valid() && this.id == id
      ensures state == Idle && !glow && pulse == NoPulse
    {
      this.id := id;
      state := Idle;
      glow := false;
      pulse := NoPulse;
    }

    /** The per-buoy part of updateBuoyState. `iconSettled` says whether the
        icon's colour already reads as the visited grey 0x555555. */
    method Update(inRange: bool, iconSettled: bool)
      requires Valid()
      modifies this
      ensures Valid()
      ensures state == NextState(old(state), inRange)
      ensures glow == (inRange || state == Visited)
      ensures pulse == NextPulse(old(state), old(pulse), inRange, iconSettled, true)
      ensures View() == NextView(old(View()), inRange, iconSettled)
    {
      state, glow, pulse := Transition(state, pulse, inRange, iconSettled);
    }
  }

  /** The branches of updateBuoyState on a buoy's state, glow and pulse, from
      its state `s0` and pulse `p0`: in range the glow is attached, a visited
      buoy whose icon has not settled restarts its pulse and any other buoy
      that is not yet highlighted becomes so and starts one; out of range a
      visited buoy keeps its glow, any other loses it, and a highlighted one
      turns idle and stops its pulse. */
  method Transition(s0: BuoyState, p0: Pulse, inRange: bool, iconSettled: bool)
    returns (s: BuoyState, glow: bool, p: Pulse)
    requires PulseMatches(s0, p0)
    ensures PulseMatches(s, p)
    ensures s == NextState(s0, inRange)
    ensures glow == (inRange || s == Visited)
    ensures p == NextPulse(s0, p0, inRange, iconSettled, true)
  {
    s, p := s0, p0;
    if inRange {
      glow := true;
      if s == Visited {
        if !iconSettled {
          p := StartPulse(p);
        }
      } else if s != Highlighted {
        s := Highlighted;
        p := StartPulse(p);
      }
    } else if s == Visited {
      glow := true;
    } else {
      glow := false;
      if s != Idle {
        s := Idle;
        p := StopPulse(p);
      }
    }
    NextPulseMatches(s0, p0, inRange, iconSettled);
  }

  /** No buoy occurs twice in the list. */
  ghost predicate Distinct(bs: seq<Buoy>) {
    forall i, j :: 0 <= i < j < |bs| ==> bs[i] != bs[j]
  }

  /** Whether each buoy is within INTERACTION_DISTANCE (the test is `<=`). */
  function RangeFlags(distances: seq<real>): (r: seq<bool>)
    ensures |r| == |distances|
    ensures forall i :: 0 <= i < |r| ==> (r[i] <==> distances[i] <= INTERACTION_DISTANCE)
  {
    seq(|distances|, i requires 0 <= i < |distances| => distances[i] <= INTERACTION_DISTANCE)
  }

  /** The index of the last in-range buoy, or -1 when none is in range. */
  function LastInRange(flags: seq<bool>): (r: int)
    ensures -1 <= r < |flags|
    ensures r >= 0 ==> flags[r]
    ensures forall j :: r < j < |flags| ==> !flags[j]
    decreases |flags|
  {
    if flags == [] then -1
    else if flags[|flags| - 1] then |flags| - 1
    else LastInRange(flags[..|flags| - 1])
  }

  /** The effect of one updateBuoyState call on `currentHighlightedBuoy`. */
  function HighlightStep(h: Buoy?, b: Buoy, inRange: bool): Buoy?
  {
    if inRange then b else if h == b then null else h
  }

  /** `currentHighlightedBuoy` after the forEach over the buoys, in list order. */
  function ScanHighlight(bs: seq<Buoy>, flags: seq<bool>, h: Buoy?): Buoy?
    requires |flags| == |bs|
    decreases |bs|
  {
    if bs == [] then h
    else
      var n := |bs| - 1;
      HighlightStep(ScanHighlight(bs[..n], flags[..n], h), bs[n], flags[n])
  }

  /** After a scan the highlighted buoy is the last one in range; if none is in
      range, a previous value from the list is cleared and any other is left. */
  lemma {:induction false} ScanFindsLastInRange(bs: seq<Buoy>, flags: seq<bool>, h: Buoy?)
    requires |flags| == |bs| && Distinct(bs)
    ensures LastInRange(flags) >= 0 ==> ScanHighlight(bs, flags, h) == bs[LastInRange(flags)]
    ensures LastInRange(flags) < 0 ==> ScanHighlight(bs, flags, h) == if h in bs then null else h
    decreases |bs|
  {
    if bs != [] {
      var n := |bs| - 1;
      assert Distinct(bs[..n]);
      ScanFindsLastInRange(bs[..n], flags[..n], h);
      if !flags[n] {
        assert LastInRange(flags) == LastInRange(flags[..n]);
        var m := LastInRange(flags);
        if m >= 0 {
          assert bs[..n][m] == bs[m] != bs[n];
        }
        assert bs == bs[..n] + [bs[n]];
      }
    }
  }

  /** When nothing stale is highlighted, the scan leaves the last in-range buoy,
      or null. */
  lemma ScanHighlightsLast(bs: seq<Buoy>, flags: seq<bool>, h: Buoy?)
    requires |flags| == |bs| && Distinct(bs) && (h == null || h in bs)
    ensures ScanHighlight(bs, flags, h) == if LastInRange(flags) >= 0 then bs[LastInRange(flags)] else null
  {
    ScanFindsLastInRange(bs, flags, h);
  }

  /** The module-level state of buoy.js: the list of loaded buoys and
      `currentHighlightedBuoy`. */
  class BuoyField {
    var buoys: seq<Buoy>
    var highlighted: Buoy?

    ghost predicate Valid()
      reads this, buoys
    {
      && Distinct(buoys)
      && (forall b :: b in buoys ==> b.Valid())
      && (highlighted != null ==> highlighted in buoys && highlighted.state != Idle)
    }

    /** The field once the buoy model has loaded: `count` idle buoys with ids
        1 to `count`, and nothing highlighted. */
    constructor (count: nat)
      ensures Valid() && highlighted == null
      ensures |buoys| == count
      ensures forall i :: 0 <= i < count ==>
        buoys[i].id == i + 1 && buoys[i].state == Idle && !buoys[i].glow && buoys[i].pulse == NoPulse
      ensures forall b :: b in buoys ==> fresh(b)
    {
      var bs: seq<Buoy> := [];
      while |bs| < count
        invariant |bs| <= count && Distinct(bs)
        invariant forall i :: 0 <= i < |bs| ==>
          bs[i].id == i + 1 && bs[i].state == Idle && !bs[i].glow && bs[i].pulse == NoPulse
        invariant forall b :: b in bs ==> fresh(b) && b.Valid()
      {
        var b := new Buoy(|bs| + 1);
        bs := bs + [b];
      }
      buoys := bs;
      highlighted := null;
    }

    /** updateBuoyState for buoy `b` at `distance` from the boat. */
    method UpdateState(b: Buoy, distance: real, iconSettled: bool)
      requires Valid() && b in buoys
      modifies b, this`highlighted
      ensures Valid()
      ensures b.state == NextState(old(b.state), distance <= INTERACTION_DISTANCE)
      ensures b.glow == (distance <= INTERACTION_DISTANCE || b.state == Visited)
      ensures b.pulse == NextPulse(old(b.state), old(b.pulse), distance <= INTERACTION_DISTANCE,
                                   iconSettled, true)
      ensures b.View() == NextView(old(b.View()), distance <= INTERACTION_DISTANCE, iconSettled)
      ensures highlighted == HighlightStep(old(highlighted), b, distance <= INTERACTION_DISTANCE)
    {
      b.Update(distance <= INTERACTION_DISTANCE, iconSettled);
      if distance <= INTERACTION_DISTANCE {
        highlighted := b;
      } else if highlighted == b {
        highlighted := null;
      }
    }

    /** The views of the buoys, in list order. */
    ghost function Views(): (vs: seq<BuoyView>)
      reads this, buoys
      ensures |vs| == |buoys|
      ensures forall i :: 0 <= i < |buoys| ==> vs[i] == buoys[i].View()
    {
      var bs := buoys;
      seq(|bs|, i requires 0 <= i < |bs| reads bs => bs[i].View())
    }

    /** The scan's invariant after `i` buoys: the highlighted buoy is the scan
        of the first `i`, those `i` buoys have been stepped from their views
        `views0`, and the others still have theirs. */
    ghost predicate ScanLoop(i: nat, flags: seq<bool>, iconSettled: seq<bool>, views0: seq<BuoyView>, h0: Buoy?)
      reads this, buoys
    {
      && Valid()
      && i <= |buoys| == |flags| == |iconSettled| == |views0|
      && highlighted == ScanHighlight(buoys[..i], flags[..i], h0)
      && (forall j :: 0 <= j < i ==> buoys[j].View() == NextView(views0[j], flags[j], iconSettled[j]))
      && (forall j :: i <= j < |buoys| ==> buoys[j].View() == views0[j])
    }

    /** One forEach iteration: updateBuoyState for buoy `i`. */
    method ScanStep(i: nat, distances: seq<real>, ghost flags: seq<bool>, iconSettled: seq<bool>,
                    ghost views0: seq<BuoyView>, ghost h0: Buoy?)
      requires ScanLoop(i, flags, iconSettled, views0, h0)
      requires i < |buoys| == |distances| && flags == RangeFlags(distances)
      modifies buoys[i], this`highlighted
      ensures ScanLoop(i + 1, flags, iconSettled, views0, h0)
    {
      assert buoys[..i + 1][..i] == buoys[..i] && flags[..i + 1][..i] == flags[..i];
      assert forall j :: 0 <= j < |buoys| && j != i ==> buoys[j] != buoys[i];
      UpdateState(buoys[i], distances[i], iconSettled[i]);
    }

    /** The proximity part of updateBuoys: updateBuoyState for every buoy in
        list order, with `distances[i]` the boat's distance to buoy `i`. */
    method UpdateBuoys(distances: seq<real>, iconSettled: seq<bool>)
      requires Valid() && |distances| == |buoys| == |iconSettled|
      modifies buoys, this`highlighted
      ensures Valid()
      ensures Views() == StepViews(old(Views()), RangeFlags(distances), iconSettled)
      ensures highlighted == ScanHighlight(buoys, RangeFlags(distances), old(highlighted))
      ensures highlighted ==
        var last := LastInRange(RangeFlags(distances));
        if last >= 0 then buoys[last] else null
    {
      ghost var flags := RangeFlags(distances);
      ghost var views0 := Views();
      ghost var h0 := highlighted;
      assert buoys[..0] == [] && flags[..0] == [];
      for i := 0 to |buoys|
        invariant ScanLoop(i, flags, iconSettled, views0, h0)
      {
        ScanStep(i, distances, flags, iconSettled, views0, h0);
      }
      assert buoys[..|buoys|] == buoys && flags[..|buoys|] == flags;
      ScanHighlightsLast(buoys, flags, h0);
    }

    /** interactWithBuoy: a highlighted buoy becomes visited and the call
        reports true; with nothing highlighted it reports false and changes nothing. */
    method Interact() returns (ok: bool)
      requires Valid()
      modifies highlighted
      ensures Valid()
      ensures ok == (highlighted != null)
      ensures highlighted != null ==>
        && highlighted.state == Visited && highlighted.glow == old(highlighted.glow)
        && highlighted.pulse == old(highlighted.pulse)
      ensures forall b :: b in buoys && b != highlighted ==>
        b.state == old(b.state) && b.glow == old(b.glow) && b.pulse == old(b.pulse)
    {
      if highlighted != null {
        highlighted.state := Visited;
        return true;
      }
      return false;
    }

    /** getCurrentHighlightedBuoy: a buoy of the list that is not idle, or null. */
    function CurrentHighlighted(): (r: Buoy?)
      reads this, buoys
      requires Valid()
      ensures r != null ==> r in buoys && r.state != Idle
    {
      highlighted
    }
  }
}

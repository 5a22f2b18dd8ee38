/** `AgentState`: what one replayed agent perceives each recorded step (the
    agents it sees, where they are headed, whether it will meet them, the
    obstacles in view), the sentence it writes about them, its group text,
    and the step counter that decides when a CSV row is written.

    Physics queries come in as candidate lists: each candidate carries the
    angles Unity computes for it, and for an agent the outcome of the
    visibility ray cast. Lengths come from the `Geometry` of `Base`, the
    agent's world-to-local rotation from the parameter `toLocal`. */
module AgentState {
  import opened Base
  import opened Text

  // ----------------------------------------------------------------------
  // Collision prediction

  datatype Collision = NoPrediction | Collide | Pass

  /** The text the sentence prints, lower-cased as `ToLower` does. */
  function CollisionWord(c: Collision): string
  {
    match c
    case NoPrediction => "none"
    case Collide => "collide"
    case Pass => "pass"
  }

  /** The time at which two agents moving at constant velocities are closest:
      `-(p . v) / |v|^2`. */
  function ClosestTime(relP: Vec3, relV: Vec3): real
    requires SqrMagnitude(relV) != 0.0
  {
    -Dot(relP, relV) / SqrMagnitude(relV)
  }

  /** `PredictCollision`: `Pass` when the relative speed is almost zero, when
      the closest approach lies in the past or beyond `maxTime`, and
      otherwise `Collide` exactly when the agents then come closer than two
      radii. */
  function PredictCollision(g: Geometry, myPos: Vec3, myVel: Vec3, otherPos: Vec3, otherVel: Vec3,
                            radius: real, maxTime: real): (c: Collision)
    ensures c != NoPrediction
  {
    var relP := Sub(otherPos, myPos);
    var relV := Sub(otherVel, myVel);
    if SqrMagnitude(relV) < 0.001 then Pass
    else
      var t := ClosestTime(relP, relV);
      if t < 0.0 || t > maxTime then Pass
      else if g.mag(Add(relP, Scale(relV, t))) < radius * 2.0 then Collide
      else Pass
  }

  lemma SqrNonNeg(v: Vec3)
    ensures SqrMagnitude(v) >= 0.0
  {
    assert v.x * v.x >= 0.0 && v.y * v.y >= 0.0 && v.z * v.z >= 0.0;
  }

  /** Agents that are moving apart (`p . v > 0`), or side by side at the same
      velocity, are predicted to pass. */
  lemma MovingApartPasses(g: Geometry, myPos: Vec3, myVel: Vec3, otherPos: Vec3, otherVel: Vec3,
                          radius: real, maxTime: real)
    requires Dot(Sub(otherPos, myPos), Sub(otherVel, myVel)) > 0.0 || otherVel == myVel
    ensures PredictCollision(g, myPos, myVel, otherPos, otherVel, radius, maxTime) == Pass
  {
    var relP, relV := Sub(otherPos, myPos), Sub(otherVel, myVel);
    SqrNonNeg(relV);
    if otherVel == myVel {
      assert SqrMagnitude(relV) == 0.0;
    } else if SqrMagnitude(relV) >= 0.001 {
      var q := SqrMagnitude(relV);
      var t := ClosestTime(relP, relV);
      assert t * q == -Dot(relP, relV);
      assert t < 0.0;
    }
  }

  /** The squared distance at time `s`, as a polynomial in `s`. */
  lemma SqrAt(p: Vec3, v: Vec3, s: real)
    ensures SqrMagnitude(Add(p, Scale(v, s))) == SqrMagnitude(p) + 2.0 * s * Dot(p, v) + s * s * SqrMagnitude(v)
  {
    var w := Add(p, Scale(v, s));
    assert w.x * w.x == p.x * p.x + 2.0 * s * (p.x * v.x) + s * s * (v.x * v.x);
    assert w.y * w.y == p.y * p.y + 2.0 * s * (p.y * v.y) + s * s * (v.y * v.y);
    assert w.z * w.z == p.z * p.z + 2.0 * s * (p.z * v.z) + s * s * (v.z * v.z);
  }

  /** The closest-approach time is what its name says: no other time brings
      the agents nearer. */
  lemma ClosestTimeIsClosest(p: Vec3, v: Vec3, s: real)
    requires SqrMagnitude(v) != 0.0
    ensures SqrMagnitude(Add(p, Scale(v, s))) >= SqrMagnitude(Add(p, Scale(v, ClosestTime(p, v))))
  {
    var t := ClosestTime(p, v);
    var q := SqrMagnitude(v);
    var d := Dot(p, v);
    SqrNonNeg(v);
    assert t * q == -d;
    SqrAt(p, v, s);
    SqrAt(p, v, t);
    var diff := (2.0 * s * d + s * s * q) - (2.0 * t * d + t * t * q);
    assert diff == q * ((s - t) * (s - t)) by {
      assert 2.0 * s * d == -2.0 * s * (t * q);
      assert 2.0 * t * d == -2.0 * t * (t * q);
    }
    assert (s - t) * (s - t) >= 0.0;
  }

  // ----------------------------------------------------------------------
  // Classification of one seen agent

  /** How many positions the history of a seen agent keeps. */
  const HistoryLength: int := 5

  /** The history after one more sighting: the new position appended, the
      oldest dropped when there are more than five. */
  function Push(h: seq<Vec3>, p: Vec3): (r: seq<Vec3>)
    ensures |h| <= HistoryLength ==> |r| == MinI(|h| + 1, HistoryLength)
    ensures |r| >= 1 && r[|r| - 1] == p
  {
    var h' := h + [p];
    if |h'| > HistoryLength then h'[1..] else h'
  }

  /** A history fed position after position. */
  function PushAll(h: seq<Vec3>, ps: seq<Vec3>): seq<Vec3>
  {
    if ps == [] then h else Push(PushAll(h, ps[..|ps| - 1]), ps[|ps| - 1])
  }

  /** From no history, the window holds the last five positions seen (all of
      them while there are fewer). */
  lemma {:induction false} HistoryIsLastSeen(ps: seq<Vec3>)
    ensures PushAll([], ps) == ps[|ps| - MinI(|ps|, HistoryLength)..]
  {
    if ps != [] {
      var n := |ps| - 1;
      HistoryIsLastSeen(ps[..n]);
      var h := PushAll([], ps[..n]);
      var m := MinI(n, HistoryLength);
      var w := h + [ps[n]];
      assert w == ps[n - m..] by {
        assert h == ps[..n][n - m..];
      }
      assert PushAll([], ps) == Push(h, ps[n]);
      if n < HistoryLength {
        assert Push(h, ps[n]) == w;
      } else {
        assert Push(h, ps[n]) == w[1..];
        assert w[1..] == ps[n - m + 1..];
      }
    }
  }

  datatype Direction = DirectionUnknown | East | West | North | South

  function DirectionText(d: Direction): string
  {
    match d
    case DirectionUnknown => "Unknown"
    case East => "East"
    case West => "West"
    case North => "North"
    case South => "South"
  }

  /** Movement direction in the observer's frame: along X when the X part
      dominates, along Z otherwise. */
  function DirectionOf(rel: Vec3): (d: Direction)
    ensures d != DirectionUnknown
    ensures (d == East || d == West) <==> Abs(rel.x) > Abs(rel.z)
  {
    if Abs(rel.x) > Abs(rel.z) then (if rel.x > 0.0 then East else West)
    else (if rel.z > 0.0 then North else South)
  }

  lemma AbsScale(a: real, k: real)
    requires k > 0.0
    ensures Abs(a * k) == Abs(a) * k
  {
  }

  /** The direction depends only on which part dominates and on the signs. */
  lemma DirectionSame(a: Vec3, b: Vec3)
    requires (Abs(a.x) > Abs(a.z)) == (Abs(b.x) > Abs(b.z))
    requires (a.x > 0.0) == (b.x > 0.0) && (a.z > 0.0) == (b.z > 0.0)
    ensures DirectionOf(a) == DirectionOf(b)
  {
  }

  /** Normalising a movement vector (a positive scaling) does not change its
      direction. */
  lemma DirectionOfScaled(v: Vec3, k: real)
    requires k > 0.0
    ensures DirectionOf(Scale(v, k)) == DirectionOf(v)
  {
    var s := Scale(v, k);
    AbsOrderScale(v.x, v.z, k);
    SignScale(v.x, k);
    SignScale(v.z, k);
    DirectionSame(s, v);
  }

  lemma AbsOrderScale(a: real, b: real, k: real)
    requires k > 0.0
    ensures (Abs(a * k) > Abs(b * k)) == (Abs(a) > Abs(b))
  {
    AbsScale(a, k);
    AbsScale(b, k);
    ScaleKeepsOrder(Abs(a), Abs(b), k);
  }

  lemma SignScale(a: real, k: real)
    requires k > 0.0
    ensures a * k > 0.0 <==> a > 0.0
  {
    if a > 0.0 {
      assert a * k > 0.0;
    } else {
      assert (-a) * k >= 0.0;
    }
  }

  lemma ScaleKeepsOrder(a: real, b: real, k: real)
    requires k > 0.0
    ensures a > b <==> a * k > b * k
  {
    assert a * k - b * k == (a - b) * k;
    if a > b {
      assert (a - b) * k > 0.0;
    } else {
      assert (b - a) * k >= 0.0;
    }
  }

  datatype Motion = MotionUnknown | StopMoving | StartMoving | KeepMoving | Stopped

  const StopThreshold: real := 0.1

  /** The prediction of a full history, from the speed over the whole window
      and over the window without its newest position. */
  function FullMotion(speed: real, previousSpeed: real): (m: Motion)
    ensures m == StopMoving <==> speed < StopThreshold && previousSpeed >= StopThreshold
    ensures m == StartMoving <==> speed >= StopThreshold && previousSpeed < StopThreshold
    ensures m == KeepMoving <==> speed >= StopThreshold && previousSpeed >= StopThreshold
    ensures m == Stopped <==> speed < StopThreshold && previousSpeed < StopThreshold
  {
    if speed < StopThreshold && previousSpeed >= StopThreshold then StopMoving
    else if speed >= StopThreshold && previousSpeed < StopThreshold then StartMoving
    else if speed >= StopThreshold then KeepMoving
    else Stopped
  }

  /** The prediction of a partial history: only moving or not. */
  function PartialMotion(speed: real): (m: Motion)
    ensures m == KeepMoving <==> speed >= StopThreshold
    ensures m == KeepMoving || m == Stopped
  {
    if speed >= StopThreshold then KeepMoving else Stopped
  }

  function MotionText(m: Motion): string
  {
    match m
    case MotionUnknown => "Unknown"
    case StopMoving => "stop moving"
    case StartMoving => "start moving"
    case KeepMoving => "keep moving"
    case Stopped => "stopped"
  }

  /** What the observer knows of itself and its surroundings for one
      detection pass. */
  datatype Sensing = Sensing(
    myPos: Vec3,
    action: Vec2,
    /** `transform.InverseTransformDirection`. */
    toLocal: Vec3 -> Vec3,
    geometry: Geometry,
    fixedDeltaTime: real,
    fieldOfView: real)

  /** What is read off a seen agent's history. */
  datatype Reading = Reading(direction: Direction, motion: Motion, collision: Collision, velocity: Vec3)

  /** The observer's radius and look-ahead in the collision test. */
  const AgentRadius: real := 0.22
  const MaxPredictionTime: real := 5.0

  /** The reading of a history: with five positions, the movement over the
      window divided by five frame times, direction, full motion and
      collision; with two to four, the movement divided by the number of
      steps and the partial motion; with one, nothing known. */
  function ReadingOf(sn: Sensing, h: seq<Vec3>, otherPos: Vec3): (r: Reading)
    requires sn.fixedDeltaTime > 0.0
    ensures |h| <= 1 ==> r == Reading(DirectionUnknown, MotionUnknown, NoPrediction, Zero3)
    ensures 1 < |h| < HistoryLength ==> r.motion == KeepMoving || r.motion == Stopped
    ensures 1 < |h| <= HistoryLength ==> r.direction != DirectionUnknown && r.collision != NoPrediction
    ensures |h| == HistoryLength ==>
      r.velocity == Div(Sub(h[HistoryLength - 1], h[0]), HistoryLength as real * sn.fixedDeltaTime)
    ensures 1 < |h| < HistoryLength ==>
      r.velocity == Div(Sub(h[|h| - 1], h[0]), (|h| - 1) as real * sn.fixedDeltaTime)
    ensures |h| == HistoryLength ==>
      r.motion == FullMotion(sn.geometry.mag(r.velocity),
                             sn.geometry.mag(Div(Sub(h[HistoryLength - 2], h[0]), (HistoryLength - 1) as real * sn.fixedDeltaTime)))
    ensures 1 < |h| < HistoryLength ==> r.motion == PartialMotion(sn.geometry.mag(r.velocity))
  {
    if |h| <= 1 || |h| > HistoryLength then Reading(DirectionUnknown, MotionUnknown, NoPrediction, Zero3)
    else
      var g := sn.geometry;
      var movement := Sub(h[|h| - 1], h[0]);
      // The full window divides by its five positions, a partial one by its
      // number of steps.
      var steps := if |h| == HistoryLength then HistoryLength else |h| - 1;
      var velocity := Div(movement, steps as real * sn.fixedDeltaTime);
      var direction := DirectionOf(sn.toLocal(Normalized(g, movement)));
      var myVelocity := Vec3(sn.action.x, 0.0, sn.action.y);
      var collision := PredictCollision(g, sn.myPos, myVelocity, otherPos, velocity, AgentRadius, MaxPredictionTime);
      var motion :=
        if |h| == HistoryLength then
          FullMotion(g.mag(velocity), g.mag(Div(Sub(h[HistoryLength - 2], h[0]), (HistoryLength - 1) as real * sn.fixedDeltaTime)))
        else PartialMotion(g.mag(velocity));
      Reading(direction, motion, collision, velocity)
  }

  // ----------------------------------------------------------------------
  // Zones and distances

  datatype Zone = Center | Left | Right

  function ZoneText(z: Zone): string
  {
    match z
    case Center => "Center"
    case Left => "Left"
    case Right => "Right"
  }

  /** The third of the view a signed angle falls in: `Center` within a sixth
      of the field of view either side, `Left` below, `Right` above. */
  function ZoneOf(signedAngle: real, fov: real): Zone
  {
    var b := fov / 6.0;
    if -b <= signedAngle <= b then Center
    else if signedAngle < -b then Left
    else Right
  }

  /** The zones are mirror images: negating the angle swaps Left and
      Right and keeps Center. */
  lemma ZoneMirror(a: real, fov: real)
    requires fov >= 0.0
    ensures ZoneOf(-a, fov) == match ZoneOf(a, fov) { case Center => Center case Left => Right case Right => Left }
  {
  }

  /** `GetDistanceString`. */
  function DistanceWord(d: real): string
  {
    if d < 3.0 then "Very Close"
    else if d < 6.0 then "Close"
    else if d < 9.0 then "Far"
    else "Very Far"
  }

  /** The position of a word on the scale from near to far. */
  function DistanceRank(w: string): int
  {
    if w == "Very Close" then 0 else if w == "Close" then 1 else if w == "Far" then 2 else 3
  }

  /** The words never contradict the distances: a nearer agent never gets a
      farther word. */
  lemma DistanceWordMonotone(d1: real, d2: real)
    requires d1 <= d2
    ensures DistanceRank(DistanceWord(d1)) <= DistanceRank(DistanceWord(d2))
  {
  }

  // ----------------------------------------------------------------------
  // Detection over the candidates of the overlap query

  /** A collider that is an agent (`AgentState`): its id, position, distance
      and position in the observer's frame. */
  datatype Other = Other(id: int, position: Vec3, distance: real, relativePosition: Vec3)

  /** One collider of the overlap query: whether it is the observer itself,
      the agent behind it if any, its unsigned and signed angles from the
      camera's forward, and for an agent whether the ray to its eyes reached
      it. */
  datatype Candidate = Candidate(isSelf: bool, other: Option<Other>, angle: real, signedAngle: real, rayReaches: bool)

  datatype VisibleAgentInfo = VisibleAgentInfo(
    id: int, relativePosition: Vec3, distance: real, zone: Zone,
    direction: Direction, motion: Motion, collision: Collision, velocity: Vec3)

  /** The result of a detection pass. */
  datatype Scan = Scan(visible: seq<VisibleAgentInfo>, history: map<int, seq<Vec3>>,
                       obstacleLeft: bool, obstacleCenter: bool, obstacleRight: bool)

  predicate InView(sn: Sensing, c: Candidate)
  {
    !c.isSelf && c.angle < sn.fieldOfView / 2.0
  }

  /** A candidate that is an obstacle in view in zone `z`. */
  predicate ObstacleIn(sn: Sensing, c: Candidate, z: Zone)
  {
    InView(sn, c) && c.other.None? && ZoneOf(c.signedAngle, sn.fieldOfView) == z
  }

  /** A candidate that is a visible agent in view. */
  predicate SeenAgent(sn: Sensing, c: Candidate)
  {
    InView(sn, c) && c.other.Some? && c.rayReaches
  }

  function HistoryOf(hs: map<int, seq<Vec3>>, id: int): seq<Vec3>
  {
    if id in hs then hs[id] else []
  }

  /** One candidate: an obstacle in view raises its zone's flag; a visible
      agent gets its history extended and is added with its reading. */
  function StepScan(sn: Sensing, s: Scan, c: Candidate): (r: Scan)
    requires sn.fixedDeltaTime > 0.0
  {
    if !InView(sn, c) then s
    else
      var z := ZoneOf(c.signedAngle, sn.fieldOfView);
      if c.other.None? then
        s.(obstacleLeft := s.obstacleLeft || z == Left,
           obstacleCenter := s.obstacleCenter || z == Center,
           obstacleRight := s.obstacleRight || z == Right)
      else if !c.rayReaches then s
      else
        var o := c.other.value;
        var h := Push(HistoryOf(s.history, o.id), o.position);
        var rd := ReadingOf(sn, h, o.position);
        s.(visible := s.visible + [VisibleAgentInfo(o.id, o.relativePosition, o.distance, z,
                                                    rd.direction, rd.motion, rd.collision, rd.velocity)],
           history := s.history[o.id := h])
  }

  /** The candidates taken in order. */
  function ScanAll(sn: Sensing, s: Scan, cs: seq<Candidate>): Scan
    requires sn.fixedDeltaTime > 0.0
  {
    if cs == [] then s else StepScan(sn, ScanAll(sn, s, cs[..|cs| - 1]), cs[|cs| - 1])
  }

  predicate HistoriesBounded(hs: map<int, seq<Vec3>>)
  {
    forall id :: id in hs ==> |hs[id]| <= HistoryLength
  }

  /** No history ever holds more than five positions. */
  lemma {:induction false} ScanKeepsHistoriesBounded(sn: Sensing, s: Scan, cs: seq<Candidate>)
    requires sn.fixedDeltaTime > 0.0 && HistoriesBounded(s.history)
    ensures HistoriesBounded(ScanAll(sn, s, cs).history)
  {
    if cs != [] {
      ScanKeepsHistoriesBounded(sn, s, cs[..|cs| - 1]);
    }
  }

  /** Starting from lowered flags, each obstacle flag is raised exactly when
      some obstacle lies in view in its zone. */
  lemma {:induction false} ScanObstacleFlags(sn: Sensing, s: Scan, cs: seq<Candidate>)
    requires sn.fixedDeltaTime > 0.0
    requires !s.obstacleLeft && !s.obstacleCenter && !s.obstacleRight
    ensures ScanAll(sn, s, cs).obstacleLeft <==> exists i :: 0 <= i < |cs| && ObstacleIn(sn, cs[i], Left)
    ensures ScanAll(sn, s, cs).obstacleCenter <==> exists i :: 0 <= i < |cs| && ObstacleIn(sn, cs[i], Center)
    ensures ScanAll(sn, s, cs).obstacleRight <==> exists i :: 0 <= i < |cs| && ObstacleIn(sn, cs[i], Right)
  {
    if cs != [] {
      var n := |cs| - 1;
      ScanObstacleFlags(sn, s, cs[..n]);
      assert forall i :: 0 <= i < n ==> cs[..n][i] == cs[i];
    }
  }

  /** What a seen candidate contributes: the agent and the zone it is seen
      in. */
  function SightingOf(sn: Sensing, c: Candidate): (Other, Zone)
    requires c.other.Some?
  {
    (c.other.value, ZoneOf(c.signedAngle, sn.fieldOfView))
  }

  /** The seen agents among the candidates, in candidate order. */
  function Sightings(sn: Sensing, cs: seq<Candidate>): (r: seq<(Other, Zone)>)
    ensures |r| <= |cs|
  {
    if cs == [] then []
    else
      var c := cs[|cs| - 1];
      Sightings(sn, cs[..|cs| - 1]) + (if SeenAgent(sn, c) then [SightingOf(sn, c)] else [])
  }

  /** Sighting `g` comes from a seen candidate of `cs`. */
  predicate FromSeen(sn: Sensing, cs: seq<Candidate>, g: (Other, Zone))
  {
    exists i :: 0 <= i < |cs| && SeenAgent(sn, cs[i]) && g == SightingOf(sn, cs[i])
  }

  /** Every sighting comes from a seen candidate. */
  lemma {:induction false} SightingsFromSeen(sn: Sensing, cs: seq<Candidate>)
    ensures forall k :: 0 <= k < |Sightings(sn, cs)| ==> FromSeen(sn, cs, Sightings(sn, cs)[k])
  {
    if cs != [] {
      var n := |cs| - 1;
      var p := cs[..n];
      SightingsFromSeen(sn, p);
      var q := Sightings(sn, p);
      var r := Sightings(sn, cs);
      forall k | 0 <= k < |r|
        ensures FromSeen(sn, cs, r[k])
      {
        if k < |q| {
          assert r[k] == q[k];
          assert FromSeen(sn, p, q[k]);
          var i :| 0 <= i < |p| && SeenAgent(sn, p[i]) && q[k] == SightingOf(sn, p[i]);
          assert p[i] == cs[i];
        } else {
          assert SeenAgent(sn, cs[n]) && r[k] == SightingOf(sn, cs[n]);
        }
      }
    }
  }

  /** Every seen candidate gives a sighting: the one numbered by the
      sightings of the candidates before it. */
  lemma {:induction false} SeenGivesSighting(sn: Sensing, cs: seq<Candidate>, i: int)
    requires 0 <= i < |cs| && SeenAgent(sn, cs[i])
    ensures |Sightings(sn, cs[..i])| < |Sightings(sn, cs)|
    ensures Sightings(sn, cs)[|Sightings(sn, cs[..i])|] == SightingOf(sn, cs[i])
  {
    var n := |cs| - 1;
    var p := cs[..n];
    if i < n {
      SeenGivesSighting(sn, p, i);
      assert p[i] == cs[i];
      assert p[..i] == cs[..i];
    } else {
      assert cs[..i] == p;
    }
  }

  /** A visible entry made from a sighting: its id, position, distance and
      zone. */
  predicate SightedEntry(v: VisibleAgentInfo, g: (Other, Zone))
  {
    v.id == g.0.id && v.relativePosition == g.0.relativePosition && v.distance == g.0.distance && v.zone == g.1
  }

  /** Each seen agent adds exactly one entry, in candidate order, carrying its
      id, position, distance and zone; nothing else adds entries. */
  lemma {:induction false} ScanVisibleEntries(sn: Sensing, s: Scan, cs: seq<Candidate>)
    requires sn.fixedDeltaTime > 0.0
    ensures |ScanAll(sn, s, cs).visible| == |s.visible| + |Sightings(sn, cs)|
    ensures ScanAll(sn, s, cs).visible[..|s.visible|] == s.visible
    ensures forall k :: 0 <= k < |Sightings(sn, cs)| ==>
              SightedEntry(ScanAll(sn, s, cs).visible[|s.visible| + k], Sightings(sn, cs)[k])
  {
    if cs != [] {
      var n := |cs| - 1;
      ScanVisibleEntries(sn, s, cs[..n]);
      var p := ScanAll(sn, s, cs[..n]);
      var r := ScanAll(sn, s, cs);
      assert r == StepScan(sn, p, cs[n]);
      assert r.visible[..|p.visible|] == p.visible;
      assert r.visible[..|s.visible|] == p.visible[..|s.visible|];
      var q := Sightings(sn, cs[..n]);
      var t := Sightings(sn, cs);
      assert t[..|q|] == q;
      forall k | 0 <= k < |t|
        ensures SightedEntry(r.visible[|s.visible| + k], t[k])
      {
        if k < |q| {
          assert r.visible[|s.visible| + k] == p.visible[|s.visible| + k];
          assert t[k] == q[k];
        }
      }
    }
  }

  // ----------------------------------------------------------------------
  // The sentence

  const NothingAround: string := "There are no people or obstacles around."

  function DescribeAgent(a: VisibleAgentInfo): string
  {
    "- One at a " + DistanceWord(a.distance) + " distance, moving " + DirectionText(a.direction)
      + ", predicting " + CollisionWord(a.collision)
  }

  function Describe(vs: seq<VisibleAgentInfo>): (r: seq<string>)
    ensures |r| == |vs|
  {
    if vs == [] then [] else Describe(vs[..|vs| - 1]) + [DescribeAgent(vs[|vs| - 1])]
  }

  /** The seen agents of one zone, in the order they were seen. */
  function InZone(vs: seq<VisibleAgentInfo>, z: Zone): (r: seq<VisibleAgentInfo>)
    ensures |r| <= |vs|
    ensures forall k :: 0 <= k < |r| ==> r[k].zone == z
  {
    if vs == [] then []
    else InZone(vs[..|vs| - 1], z) + (if vs[|vs| - 1].zone == z then [vs[|vs| - 1]] else [])
  }

  /** Every seen agent is in exactly one zone's group. */
  lemma {:induction false} ZonesPartition(vs: seq<VisibleAgentInfo>)
    ensures |InZone(vs, Center)| + |InZone(vs, Left)| + |InZone(vs, Right)| == |vs|
  {
    if vs != [] {
      ZonesPartition(vs[..|vs| - 1]);
    }
  }

  /** The opening of a zone's part. */
  function ZoneIntro(z: Zone, several: bool): string
  {
    match z
    case Center =>
      if several then "There are several people ahead of me in the Center: "
      else "There is one person ahead of me in the Center: "
    case Left => if several then "To my Left, there are several people: " else "To my Left, there is one person: "
    case Right => if several then "To my Right, there are several people: " else "To my Right, there is one person: "
  }

  /** A zone's part of the sentence, or none when nobody is seen there. */
  function ZonePart(vs: seq<VisibleAgentInfo>, z: Zone): (r: seq<string>)
    ensures |r| == if InZone(vs, z) == [] then 0 else 1
  {
    var g := InZone(vs, z);
    if g == [] then [] else [ZoneIntro(z, |g| > 1) + Join(Describe(g), ", ") + "."]
  }

  /** The zones holding an obstacle, in the order Left, Center, Right. */
  function ObstacleZones(left: bool, center: bool, right: bool): (r: seq<string>)
    ensures "Left" in r <==> left
    ensures "Center" in r <==> center
    ensures "Right" in r <==> right
    ensures |r| == (if left then 1 else 0) + (if center then 1 else 0) + (if right then 1 else 0)
  {
    (if left then ["Left"] else []) + (if center then ["Center"] else []) + (if right then ["Right"] else [])
  }

  function ObstaclePart(left: bool, center: bool, right: bool): seq<string>
  {
    var zs := ObstacleZones(left, center, right);
    if zs == [] then [] else ["There is also an obstacle on the " + Join(zs, "/") + "."]
  }

  /** The parts of the sentence: the Center, Left and Right groups, then the
      obstacles. */
  function SentenceParts(vs: seq<VisibleAgentInfo>, left: bool, center: bool, right: bool): seq<string>
  {
    ZonePart(vs, Center) + ZonePart(vs, Left) + ZonePart(vs, Right) + ObstaclePart(left, center, right)
  }

  /** `GenerateVisibleAgentsSentence`. */
  function Sentence(vs: seq<VisibleAgentInfo>, left: bool, center: bool, right: bool): string
  {
    if vs == [] && !left && !center && !right then NothingAround
    else Join(SentenceParts(vs, left, center, right), " ")
  }

  /** The parts come one per occupied zone, and one more for obstacles. */
  lemma PartsCount(vs: seq<VisibleAgentInfo>, left: bool, center: bool, right: bool)
    ensures |SentenceParts(vs, left, center, right)|
            == (if InZone(vs, Center) == [] then 0 else 1) + (if InZone(vs, Left) == [] then 0 else 1)
               + (if InZone(vs, Right) == [] then 0 else 1) + (if left || center || right then 1 else 0)
  {
  }

  /** The characters of the fixed sentence that the zone openings miss. */
  lemma NothingAroundChars()
    ensures |NothingAround| > 10
    ensures NothingAround[1] == 'h' && NothingAround[6] == 'a' && NothingAround[10] == 'n'
  {
  }

  /** Each zone opening misses the fixed sentence at one of those
      characters. */
  lemma ZoneIntroChars(z: Zone, several: bool)
    ensures |ZoneIntro(z, several)| > 10
    ensures z == Center && several ==> ZoneIntro(z, several)[10] == 's'
    ensures z == Center && !several ==> ZoneIntro(z, several)[6] == 'i'
    ensures z != Center ==> ZoneIntro(z, several)[1] == 'o'
  {
  }

  lemma ConcatIndex(a: string, b: string, i: int)
    requires 0 <= i < |a|
    ensures (a + b)[i] == a[i]
  {
  }

  /** A zone's part differs from the fixed sentence within its first
      eleven characters. */
  lemma ZonePartDiffers(vs: seq<VisibleAgentInfo>, z: Zone)
    requires InZone(vs, z) != []
    ensures var p := ZonePart(vs, z)[0];
            exists i :: 0 <= i < 11 && i < |p| && p[i] != NothingAround[i]
  {
    var g := InZone(vs, z);
    var intro := ZoneIntro(z, |g| > 1);
    var rest := Join(Describe(g), ", ") + ".";
    var p := ZonePart(vs, z)[0];
    assert p == intro + rest;
    NothingAroundChars();
    ZoneIntroChars(z, |g| > 1);
    var i := if z == Center && |g| > 1 then 10 else if z == Center then 6 else 1;
    ConcatIndex(intro, rest, i);
    assert p[i] != NothingAround[i];
  }

  /** So does the obstacle part. */
  lemma ObstaclePartDiffers(left: bool, center: bool, right: bool)
    requires left || center || right
    ensures var p := ObstaclePart(left, center, right)[0];
            6 < |p| && p[6] != NothingAround[6]
  {
    var zs := ObstacleZones(left, center, right);
    assert zs != [];
    var intro := "There is also an obstacle on the ";
    var p := ObstaclePart(left, center, right)[0];
    assert p == intro + (Join(zs, "/") + ".");
    assert p[6] == intro[6];
  }

  /** The first part of a non-empty sentence is never the fixed one. */
  lemma PartDiffers(vs: seq<VisibleAgentInfo>, left: bool, center: bool, right: bool)
    requires SentenceParts(vs, left, center, right) != []
    ensures var p := SentenceParts(vs, left, center, right)[0];
            exists i :: 0 <= i < 11 && i < |p| && p[i] != NothingAround[i]
  {
    var cp, lp, rp, op := ZonePart(vs, Center), ZonePart(vs, Left), ZonePart(vs, Right), ObstaclePart(left, center, right);
    var parts := SentenceParts(vs, left, center, right);
    assert parts == cp + lp + rp + op;
    if cp != [] {
      assert parts[0] == cp[0];
      ZonePartDiffers(vs, Center);
    } else if lp != [] {
      assert parts[0] == lp[0];
      ZonePartDiffers(vs, Left);
    } else if rp != [] {
      assert parts[0] == rp[0];
      ZonePartDiffers(vs, Right);
    } else {
      assert parts[0] == op[0];
      assert left || center || right;
      ObstaclePartDiffers(left, center, right);
    }
  }

  lemma PrefixIndex(s: string, t: string, i: int)
    requires |t| <= |s| && s[..|t|] == t && 0 <= i < |t|
    ensures s[i] == t[i]
  {
    assert s[..|t|][i] == s[i];
  }

  /** The fixed sentence is written exactly when nobody and nothing is in
      view. */
  lemma SentenceNothingIff(vs: seq<VisibleAgentInfo>, left: bool, center: bool, right: bool)
    ensures Sentence(vs, left, center, right) == NothingAround <==> vs == [] && !left && !center && !right
  {
    if !(vs == [] && !left && !center && !right) {
      var parts := SentenceParts(vs, left, center, right);
      assert parts != [] by {
        ZonesPartition(vs);
        PartsCount(vs, left, center, right);
      }
      PartDiffers(vs, left, center, right);
      JoinDiffers(parts);
    }
  }

  /** Parts whose first one misses the fixed sentence within its first
      eleven characters never join into it. */
  lemma JoinDiffers(parts: seq<string>)
    requires parts != []
    requires exists i :: 0 <= i < 11 && i < |parts[0]| && parts[0][i] != NothingAround[i]
    ensures Join(parts, " ") != NothingAround
  {
    var i :| 0 <= i < 11 && i < |parts[0]| && parts[0][i] != NothingAround[i];
    JoinStartsWith(parts, " ");
    PrefixIndex(Join(parts, " "), parts[0], i);
  }

  // ----------------------------------------------------------------------
  // Group text

  /** The members of a group other than `me`, in order. */
  function Others(members: seq<int>, me: int): (r: seq<int>)
    ensures |r| <= |members| && me !in r
    ensures forall x :: x in r <==> x in members && x != me
  {
    if members == [] then []
    else Others(members[..|members| - 1], me) + (if members[|members| - 1] != me then [members[|members| - 1]] else [])
  }

  function IntTexts(xs: seq<int>): (r: seq<string>)
    ensures |r| == |xs|
    ensures forall k :: 0 <= k < |xs| ==> r[k] == IntToString(xs[k])
  {
    if xs == [] then [] else IntTexts(xs[..|xs| - 1]) + [IntToString(xs[|xs| - 1])]
  }

  /** `AssignGroupInfo`: the other members of the agent's group joined by
      ';', or "x" when there is no group data or the agent has no group. */
  function GroupInfoOf(groups: Option<map<int, seq<int>>>, me: int): string
  {
    if groups.Some? && me in groups.value then Join(IntTexts(Others(groups.value[me], me)), ";")
    else "x"
  }

  function ParseAll(ss: seq<string>): (r: seq<Option<int>>)
    ensures |r| == |ss|
  {
    if ss == [] then [] else ParseAll(ss[..|ss| - 1]) + [ParseInt32(ss[|ss| - 1])]
  }

  /** Reading the group text back, splitting on ';' and parsing each piece,
      recovers the other members, when there are any. */
  lemma GroupInfoRoundTrip(groups: map<int, seq<int>>, me: int)
    requires me in groups
    requires forall k :: 0 <= k < |groups[me]| ==> IsInt32(groups[me][k])
    requires Others(groups[me], me) != []
    ensures var pieces := Split(GroupInfoOf(Some(groups), me), {';'});
            |pieces| == |Others(groups[me], me)|
            && forall k :: 0 <= k < |pieces| ==> ParseInt32(pieces[k]) == Some(Others(groups[me], me)[k])
  {
    var os := Others(groups[me], me);
    var ts := IntTexts(os);
    forall k | 0 <= k < |ts| ensures Excludes(ts[k], ';') {
      IntToStringExcludes(os[k], ';');
    }
    SplitJoin(ts, ';');
    forall k | 0 <= k < |os| ensures ParseInt32(ts[k]) == Some(os[k]) {
      assert os[k] in groups[me];
      IntToStringParses(os[k]);
    }
  }

  // ----------------------------------------------------------------------
  // The component

  /** The loop of `DetectVisibleAgents` over the overlap query's colliders:
      an obstacle in view raises its zone's flag, a visible agent has its
      position queued into its history (the oldest dropped beyond five) and
      is added with its reading. */
  method DetectAll(sn: Sensing, start: Scan, cs: seq<Candidate>) returns (r: Scan)
    requires sn.fixedDeltaTime > 0.0
    ensures r == ScanAll(sn, start, cs)
  {
    var visible, history := start.visible, start.history;
    var left, center, right := start.obstacleLeft, start.obstacleCenter, start.obstacleRight;
    var k := 0;
    while k < |cs|
      invariant 0 <= k <= |cs|
      invariant Scan(visible, history, left, center, right) == ScanAll(sn, start, cs[..k])
    {
      var c := cs[k];
      assert cs[..k + 1][..k] == cs[..k];
      if InView(sn, c) {
        var z := ZoneOf(c.signedAngle, sn.fieldOfView);
        if c.other.None? {
          if z == Center { center := true; }
          else if z == Left { left := true; }
          else { right := true; }
        } else if c.rayReaches {
          var o := c.other.value;
          var h := HistoryOf(history, o.id) + [o.position];
          if |h| > HistoryLength {
            h := h[1..];
          }
          var rd := ReadingOf(sn, h, o.position);
          history := history[o.id := h];
          visible := visible + [VisibleAgentInfo(o.id, o.relativePosition, o.distance, z,
                                                 rd.direction, rd.motion, rd.collision, rd.velocity)];
        }
      }
      k := k + 1;
    }
    assert cs[..k] == cs;
    r := Scan(visible, history, left, center, right);
  }

  /** What `DetectVisibleAgents` finds given the histories `hs`: the seen
      list and the obstacle flags start empty; without a camera, or with no
      collider besides the observer's own, nothing more; otherwise the scan
      of the candidates in order. */
  function DetectionOf(sn: Sensing, hasCamera: bool, hs: map<int, seq<Vec3>>, cs: seq<Candidate>): Scan
    requires sn.fixedDeltaTime > 0.0
  {
    var start := Scan([], hs, false, false, false);
    if !hasCamera || |cs| <= 1 then start else ScanAll(sn, start, cs)
  }

  /** The fields a CSV row records; their float text is not modelled. */
  datatype StateRow = StateRow(timeStep: int, action: Vec2, position: Vec3, goal: Vec3, goalDistance: real,
                               groupInfo: string, fovImagePath: string, sentence: string)

  /** The path text a row records: "N/A" when there is none. */
  function PathText(p: Option<string>): string
  {
    if p.Some? then p.value else "N/A"
  }

  class Observer {
    const agentId: int
    const isSaveData: bool
    var goalPosition: Vec3
    var groupInfo: string
    var timeStep: int
    var internalTimeStep: int
    var lastSavedFrame: int
    var action: Vec2
    var goalDistance: real
    var visibleAgents: seq<VisibleAgentInfo>
    var history: map<int, seq<Vec3>>
    var obstacleLeft: bool
    var obstacleCenter: bool
    var obstacleRight: bool
    var fovImagePath: Option<string>
    /** Whether the CSV file has been created with its header. */
    var csvCreated: bool
    var rows: seq<StateRow>

    predicate Valid()
      reads this
    {
      HistoriesBounded(history) && IsInt32(internalTimeStep)
    }

    constructor (agentId: int, isSaveData: bool)
      ensures this.agentId == agentId && this.isSaveData == isSaveData
      ensures Valid() && internalTimeStep == 0 && lastSavedFrame == -1 && groupInfo == "x"
      ensures history == map[] && visibleAgents == [] && rows == [] && !csvCreated
    {
      this.agentId := agentId;
      this.isSaveData := isSaveData;
      goalPosition := Zero3;
      groupInfo := "x";
      timeStep := 0;
      internalTimeStep := 0;
      lastSavedFrame := -1;
      action := Vec2(0.0, 0.0);
      goalDistance := 0.0;
      visibleAgents := [];
      history := map[];
      obstacleLeft, obstacleCenter, obstacleRight := false, false, false;
      fovImagePath := None;
      csvCreated := false;
      rows := [];
    }

    /** `Start`: the goal is the last position of the agent's track, and the
        group text comes from the manager's group data. */
    method Start(track: seq<Vec3>, groups: Option<map<int, seq<int>>>)
      modifies this
      ensures goalPosition == (if track != [] then track[|track| - 1] else old(goalPosition))
      ensures groupInfo == GroupInfoOf(groups, agentId)
      ensures history == old(history) && internalTimeStep == old(internalTimeStep) && rows == old(rows)
    {
      if |track| > 0 {
        goalPosition := track[|track| - 1];
      }
      AssignGroupInfo(groups);
    }

    method AssignGroupInfo(groups: Option<map<int, seq<int>>>)
      modifies this
      ensures groupInfo == GroupInfoOf(groups, agentId)
      ensures goalPosition == old(goalPosition) && history == old(history)
      ensures internalTimeStep == old(internalTimeStep) && rows == old(rows)
    {
      if groups.Some? && agentId in groups.value {
        groupInfo := Join(IntTexts(Others(groups.value[agentId], agentId)), ";");
      } else {
        groupInfo := "x";
      }
    }

    /** `DetectVisibleAgents`: clears the seen list and the obstacle flags;
        without a camera, or with no collider besides the observer's own,
        stops there; otherwise scans the candidates in order. */
    method DetectVisibleAgents(sn: Sensing, hasCamera: bool, cs: seq<Candidate>)
      requires Valid() && sn.fixedDeltaTime > 0.0
      modifies this
      ensures Valid()
      ensures var r := DetectionOf(sn, hasCamera, old(history), cs);
              visibleAgents == r.visible && history == r.history
              && obstacleLeft == r.obstacleLeft && obstacleCenter == r.obstacleCenter && obstacleRight == r.obstacleRight
      ensures internalTimeStep == old(internalTimeStep) && timeStep == old(timeStep) && rows == old(rows)
      ensures csvCreated == old(csvCreated) && groupInfo == old(groupInfo) && action == old(action)
      ensures goalPosition == old(goalPosition) && goalDistance == old(goalDistance)
      ensures lastSavedFrame == old(lastSavedFrame) && fovImagePath == old(fovImagePath)
    {
      visibleAgents := [];
      obstacleLeft, obstacleCenter, obstacleRight := false, false, false;
      if !hasCamera || |cs| <= 1 {
        return;
      }
      var r := DetectAll(sn, Scan([], history, false, false, false), cs);
      ScanKeepsHistoriesBounded(sn, Scan([], history, false, false, false), cs);
      visibleAgents, history := r.visible, r.history;
      obstacleLeft, obstacleCenter, obstacleRight := r.obstacleLeft, r.obstacleCenter, r.obstacleRight;
    }

    /** `RecordState`: numbers the step with the internal counter and counts
        on; remembers the frame and the action; measures the distance to the
        goal; and, when saving is on and the step is not the first, creates
        the CSV file once, detects the visible agents, takes the view image
        path (or "N/A" without a capture component) and appends one row. */
    method RecordState(act: Vec2, currentFrame: int, position: Vec3, sn: Sensing, hasCamera: bool,
                       cs: seq<Candidate>, capture: Option<Option<string>>)
      requires Valid() && sn.fixedDeltaTime > 0.0
      modifies this
      ensures Valid()
      ensures timeStep == old(internalTimeStep) && internalTimeStep == Wrap32(old(internalTimeStep) + 1)
      ensures lastSavedFrame == currentFrame && action == act
      ensures goalDistance == Distance(sn.geometry, position, goalPosition) && goalPosition == old(goalPosition)
      ensures groupInfo == old(groupInfo)
      ensures !(isSaveData && timeStep > 0) ==>
                rows == old(rows) && csvCreated == old(csvCreated) && fovImagePath == old(fovImagePath)
                && visibleAgents == old(visibleAgents) && history == old(history)
                && obstacleLeft == old(obstacleLeft) && obstacleCenter == old(obstacleCenter)
                && obstacleRight == old(obstacleRight)
      ensures isSaveData && timeStep > 0 ==>
                var r := DetectionOf(sn, hasCamera, old(history), cs);
                && csvCreated
                && visibleAgents == r.visible && history == r.history
                && obstacleLeft == r.obstacleLeft && obstacleCenter == r.obstacleCenter && obstacleRight == r.obstacleRight
                && fovImagePath == (if capture.Some? then capture.value else Some("N/A"))
                && rows == old(rows) + [StateRow(old(internalTimeStep), act, position, old(goalPosition),
                                                 Distance(sn.geometry, position, old(goalPosition)), old(groupInfo),
                                                 PathText(fovImagePath),
                                                 Sentence(r.visible, r.obstacleLeft, r.obstacleCenter, r.obstacleRight))]
    {
      timeStep := internalTimeStep;
      internalTimeStep := Wrap32(internalTimeStep + 1);
      lastSavedFrame := currentFrame;
      action := act;
      goalDistance := Distance(sn.geometry, position, goalPosition);
      if isSaveData && timeStep > 0 {
        SaveRow(position, sn, hasCamera, cs, capture);
      }
    }

    /** The saving half of `RecordState`: creates the CSV file once, detects
        the visible agents, takes the view image path and appends the row. */
    method SaveRow(position: Vec3, sn: Sensing, hasCamera: bool, cs: seq<Candidate>, capture: Option<Option<string>>)
      requires Valid() && sn.fixedDeltaTime > 0.0
      modifies this
      ensures Valid() && csvCreated
      ensures var r := DetectionOf(sn, hasCamera, old(history), cs);
              visibleAgents == r.visible && history == r.history
              && obstacleLeft == r.obstacleLeft && obstacleCenter == r.obstacleCenter && obstacleRight == r.obstacleRight
      ensures fovImagePath == if capture.Some? then capture.value else Some("N/A")
      ensures var r := DetectionOf(sn, hasCamera, old(history), cs);
              rows == old(rows) + [StateRow(old(timeStep), old(action), position, old(goalPosition), old(goalDistance),
                                            old(groupInfo), PathText(fovImagePath),
                                            Sentence(r.visible, r.obstacleLeft, r.obstacleCenter, r.obstacleRight))]
      ensures timeStep == old(timeStep) && internalTimeStep == old(internalTimeStep)
      ensures lastSavedFrame == old(lastSavedFrame) && action == old(action) && goalDistance == old(goalDistance)
      ensures goalPosition == old(goalPosition) && groupInfo == old(groupInfo)
    {
      csvCreated := true;
      DetectVisibleAgents(sn, hasCamera, cs);
      fovImagePath := if capture.Some? then capture.value else Some("N/A");
      var sentence := Sentence(visibleAgents, obstacleLeft, obstacleCenter, obstacleRight);
      rows := rows + [StateRow(timeStep, action, position, goalPosition, goalDistance, groupInfo, PathText(fovImagePath), sentence)];
    }
  }
}

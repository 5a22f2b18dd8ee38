/** What the anchor tagger records about one agent on one global frame: the
    `FrameTag`, the kinematic state it carries from frame to frame, the
    nearest other agent and the group centre, and the tag's JSON form.

    The scene is an input: `poses` maps the id of every runtime agent whose
    transform still exists to its position, forward vector and
    `activeInHierarchy` flag on this frame. */
module TagFrames {
  import opened Base
  import opened Json
  import opened Sorting
  import opened TagSensing

  /** A transform as the recorder reads it on one frame. */
  datatype Pose = Pose(position: Vec3, forward: Vec3, active: bool)

  /** What the annotation file says about an agent on one frame. */
  datatype FrameMeta = FrameMeta(groupIds: seq<int>, goalWorld: Vec3, hasGoal: bool)

  /** The physics query results for one agent on one frame: the downward
      ray hits, the overlap query with the largest near radius and the one
      with the largest hit radius. Each candidate sequence stands for the
      `n` colliders `OverlapSphereNonAlloc` wrote into its 512-slot buffer,
      so it is the buffer's first `n` entries and never longer than 512. */
  datatype Senses = Senses(groundHits: seq<RayHit>, nearCands: seq<Candidate>, hitCands: seq<Candidate>)

  datatype GroupMemberRel = GroupMemberRel(id: int, relWorld: Vec3, dist: real)

  datatype Motion = Motion(speed: real, accel: real, turnDeg: real)

  const Still: Motion := Motion(0.0, 0.0, 0.0)

  /** The per-frame tag. Missing strings (C# `null`) are `None`. */
  datatype FrameTag = FrameTag(
    active: bool,
    ground: Option<string>,
    nearestAgentId: int, nearestAgentDist: real, nearAgent: bool, hitAgent: bool,
    env: EnvTags,
    groupDist: real, groupState: Option<string>, groupActiveCount: int,
    groupCenterWorld: Vec3, groupCenterRelWorld: Vec3, groupMemberRels: seq<GroupMemberRel>,
    goalDist: real, goalState: Option<string>,
    motion: Motion)

  const NoEnvTag: EnvTag := EnvTag(0.0, false, false)

  /** The tag stored for an inactive agent: every field at its C# default. */
  const InactiveTag: FrameTag :=
    FrameTag(false, None, 0, 0.0, false, false, EnvTags(NoEnvTag, NoEnvTag, NoEnvTag, NoEnvTag),
             0.0, None, 0, Zero3, Zero3, [], 0.0, None, Still)

  /** The previous-sample fields of `AgentRuntime`. */
  datatype KinState = KinState(hasPrev: bool, prevGf: int, prevPos: Vec3, prevVel: Vec3, prevForward: Vec3)

  /** The state a runtime agent starts with. */
  const InitialKin: KinState := KinState(false, IntMin, Zero3, Zero3, Zero3)

  /** One runtime agent: its id, whether a capture camera was found under
      it, its kinematic state and the tags stored so far, by global frame. */
  datatype AgentRuntime = AgentRuntime(id: int, hasCamera: bool, kin: KinState, tagByFrame: map<int, FrameTag>)

  // ----------------------------------------------------------------------
  // Kinematics

  /** Seconds between two samples, never below 1e-6; the frame difference
      is a C# `int` subtraction, so it wraps. */
  function Elapsed(c: Config, gf: int, prevGf: int): (dt: real)
    ensures dt >= 0.000001
    ensures IsInt32(gf - prevGf) ==> dt == MaxR(0.000001, (gf - prevGf) as real * c.timePerFrame)
  {
    MaxR(0.000001, Wrap32(gf - prevGf) as real * c.timePerFrame)
  }

  /** The state after an inactive frame: no previous sample, zero velocity. */
  function ResetKin(pose: Pose, gf: int): KinState
  {
    KinState(false, gf, pose.position, Zero3, pose.forward)
  }

  /** `UpdateKinematicsStateOnly`: the state update of a frame whose tag is
      not stored. Whatever the branch, the sample just taken becomes the
      previous one, and there is a previous sample exactly when the agent is
      active. */
  function StateOnly(c: Config, k: KinState, pose: Pose, gf: int): (r: KinState)
    ensures r.hasPrev == pose.active
    ensures r.prevGf == gf && r.prevPos == pose.position && r.prevForward == pose.forward
    ensures !(pose.active && k.hasPrev) ==> r.prevVel == Zero3
  {
    if !pose.active then ResetKin(pose, gf)
    else if !k.hasPrev then KinState(true, gf, pose.position, Zero3, pose.forward)
    else
      var vel := Div(Sub(pose.position, k.prevPos), Elapsed(c, gf, k.prevGf));
      KinState(true, gf, pose.position, vel, pose.forward)
  }

  /** `ComputeKinematics` for an active agent whose tag is stored: the new
      state and the speed, acceleration and turn of the tag. */
  function Kinematics(c: Config, k: KinState, pose: Pose, gf: int): (r: (KinState, Motion))
    requires pose.active
    ensures r.0 == StateOnly(c, k, pose, gf)
    ensures !k.hasPrev ==> r.1 == Still
  {
    if !k.hasPrev then (KinState(true, gf, pose.position, Zero3, pose.forward), Still)
    else
      var g := c.geometry;
      var dt := Elapsed(c, gf, k.prevGf);
      var vel := Div(Sub(pose.position, k.prevPos), dt);
      var acc := Div(Sub(vel, k.prevVel), dt);
      (KinState(true, gf, pose.position, vel, pose.forward),
       Motion(g.mag(vel), g.mag(acc), g.angle(k.prevForward, pose.forward)))
  }

  /** The first stored sample after a frame on which the agent was inactive
      has zero speed, acceleration and turn, whether or not that inactive
      frame was stored. */
  lemma FirstSampleAfterInactiveIsStill(c: Config, k: KinState, p1: Pose, gf1: int, p2: Pose, gf2: int)
    requires !p1.active && p2.active
    ensures Kinematics(c, StateOnly(c, k, p1, gf1), p2, gf2).1 == Still
    ensures Kinematics(c, ResetKin(p1, gf1), p2, gf2).1 == Still
  {
  }

  /** Two active samples in a row: the second one's speed is the length of
      the displacement divided by the elapsed time, the elapsed time being
      the frame difference times the frame duration, but at least 1e-6. */
  lemma SpeedOfSecondSample(c: Config, k: KinState, p1: Pose, gf1: int, p2: Pose, gf2: int)
    requires p1.active && p2.active
    ensures var k1 := StateOnly(c, k, p1, gf1);
      Kinematics(c, k1, p2, gf2).1.speed
        == c.geometry.mag(Div(Sub(p2.position, p1.position), MaxR(0.000001, Wrap32(gf2 - gf1) as real * c.timePerFrame)))
  {
    var k1 := StateOnly(c, k, p1, gf1);
    assert k1.hasPrev && k1.prevPos == p1.position && k1.prevGf == gf1;
    var dt := Elapsed(c, gf2, gf1);
    assert dt == MaxR(0.000001, Wrap32(gf2 - gf1) as real * c.timePerFrame);
    assert Kinematics(c, k1, p2, gf2).1.speed == c.geometry.mag(Div(Sub(p2.position, k1.prevPos), dt));
  }

  // ----------------------------------------------------------------------
  // Nearest agent

  /** Another agent whose transform exists and is active. */
  predicate Eligible(poses: map<int, Pose>, self: int, id: int)
  {
    id != self && id in poses && poses[id].active
  }

  function AgentDist(g: Geometry, poses: map<int, Pose>, pos: Vec3, id: int): real
    requires id in poses
  {
    Distance(g, pos, poses[id].position)
  }

  /** The scan of `FindNearestAgent` over the runtime agents in dictionary
      order: a later agent replaces the best one only if strictly nearer. */
  function NearestScan(g: Geometry, ids: seq<int>, poses: map<int, Pose>, self: int, pos: Vec3): Option<(int, real)>
  {
    if ids == [] then None
    else
      var best := NearestScan(g, ids[..|ids| - 1], poses, self, pos);
      var id := ids[|ids| - 1];
      if !Eligible(poses, self, id) then best
      else
        var d := AgentDist(g, poses, pos, id);
        if best.None? || d < best.value.1 then Some((id, d)) else best
  }

  /** The scan finds nothing exactly when no other agent is eligible, and
      otherwise the first eligible agent of least distance. */
  lemma {:induction false} NearestScanIsFirstMinimum(g: Geometry, ids: seq<int>, poses: map<int, Pose>, self: int, pos: Vec3)
    ensures NearestScan(g, ids, poses, self, pos).None? <==> forall j :: 0 <= j < |ids| ==> !Eligible(poses, self, ids[j])
    ensures NearestScan(g, ids, poses, self, pos).Some? ==>
      var (id, d) := NearestScan(g, ids, poses, self, pos).value;
      (exists k :: 0 <= k < |ids| && ids[k] == id && Eligible(poses, self, ids[k]) && AgentDist(g, poses, pos, ids[k]) == d
         && (forall j :: 0 <= j < k && Eligible(poses, self, ids[j]) ==> AgentDist(g, poses, pos, ids[j]) > d))
      && (forall j :: 0 <= j < |ids| && Eligible(poses, self, ids[j]) ==> d <= AgentDist(g, poses, pos, ids[j]))
  {
    if ids != [] {
      var p := ids[..|ids| - 1];
      NearestScanIsFirstMinimum(g, p, poses, self, pos);
      forall j | 0 <= j < |p| ensures p[j] == ids[j] { }
      var best := NearestScan(g, p, poses, self, pos);
      var r := NearestScan(g, ids, poses, self, pos);
      if r.Some? && r == best {
        var (id, d) := best.value;
        var k :| 0 <= k < |p| && p[k] == id && Eligible(poses, self, p[k]) && AgentDist(g, poses, pos, p[k]) == d
          && (forall j :: 0 <= j < k && Eligible(poses, self, p[j]) ==> AgentDist(g, poses, pos, p[j]) > d);
        assert ids[k] == id;
      } else if r.Some? {
        assert r.value.0 == ids[|ids| - 1];
      }
    }
  }

  /** `FindNearestAgent`'s answer: (-1, -1) when no agent qualifies. */
  function NearestAgentOf(g: Geometry, ids: seq<int>, poses: map<int, Pose>, self: int, pos: Vec3): (int, real)
  {
    var best := NearestScan(g, ids, poses, self, pos);
    if best.None? || best.value.0 < 0 then (-1, -1.0) else best.value
  }

  method FindNearestAgent(g: Geometry, ids: seq<int>, poses: map<int, Pose>, self: int, pos: Vec3)
    returns (id: int, dist: real)
    ensures (id, dist) == NearestAgentOf(g, ids, poses, self, pos)
  {
    var best: Option<(int, real)> := None;
    var i := 0;
    while i < |ids|
      invariant 0 <= i <= |ids|
      invariant best == NearestScan(g, ids[..i], poses, self, pos)
    {
      assert ids[..i + 1][..i] == ids[..i];
      var oid := ids[i];
      if oid != self && oid in poses && poses[oid].active {
        var d := Distance(g, pos, poses[oid].position);
        if best.None? || d < best.value.1 {
          best := Some((oid, d));
        }
      }
      i := i + 1;
    }
    assert ids[..i] == ids;
    if best.None? || best.value.0 < 0 {
      return -1, -1.0;
    }
    return best.value.0, best.value.1;
  }

  /** The agent-flag rule of `RecordFrame`: with lengths that are never
      negative and agent ids that are never negative, the agent is near
      (hit) exactly when some other active agent lies within the near (hit)
      radius. */
  lemma NearAgentIffSomeWithin(g: Geometry, ids: seq<int>, poses: map<int, Pose>, self: int, pos: Vec3, radius: real)
    requires forall v :: g.mag(v) >= 0.0
    requires forall j :: 0 <= j < |ids| ==> ids[j] >= 0
    ensures var (id, d) := NearestAgentOf(g, ids, poses, self, pos);
      (id >= 0 && d >= 0.0 && d <= radius)
        <==> exists j :: 0 <= j < |ids| && Eligible(poses, self, ids[j]) && AgentDist(g, poses, pos, ids[j]) <= radius
  {
    NearestScanIsFirstMinimum(g, ids, poses, self, pos);
    var best := NearestScan(g, ids, poses, self, pos);
    if best.Some? {
      var (id, d) := best.value;
      var k :| 0 <= k < |ids| && ids[k] == id && Eligible(poses, self, ids[k]) && AgentDist(g, poses, pos, ids[k]) == d
        && (forall j :: 0 <= j < k && Eligible(poses, self, ids[j]) ==> AgentDist(g, poses, pos, ids[j]) > d);
      assert id >= 0;
      assert d >= 0.0 by { assert d == g.mag(Sub(pos, poses[ids[k]].position)); }
    }
  }

  // ----------------------------------------------------------------------
  // Group

  /** The group members `TryComputeGroupInfo` takes into account, in the
      order of the annotation: not the agent itself, and active. */
  function Members(gids: seq<int>, self: int, poses: map<int, Pose>): (m: seq<int>)
    ensures forall j :: 0 <= j < |m| ==> Eligible(poses, self, m[j])
  {
    if gids == [] then []
    else
      var before := Members(gids[..|gids| - 1], self, poses);
      var id := gids[|gids| - 1];
      if Eligible(poses, self, id) then before + [id] else before
  }

  function RelOf(g: Geometry, poses: map<int, Pose>, pos: Vec3, id: int): GroupMemberRel
    requires id in poses
  {
    var d := Sub(poses[id].position, pos);
    GroupMemberRel(id, d, g.mag(d))
  }

  /** The loop of `TryComputeGroupInfo`: member vectors and the sum of
      member positions. */
  function GroupScan(g: Geometry, gids: seq<int>, self: int, poses: map<int, Pose>, pos: Vec3): (seq<GroupMemberRel>, Vec3)
  {
    if gids == [] then ([], Zero3)
    else
      var (rels, sum) := GroupScan(g, gids[..|gids| - 1], self, poses, pos);
      var id := gids[|gids| - 1];
      if Eligible(poses, self, id) then (rels + [RelOf(g, poses, pos, id)], Add(sum, poses[id].position))
      else (rels, sum)
  }

  datatype GroupInfo = GroupInfo(center: Vec3, rels: seq<GroupMemberRel>, count: int)

  /** `TryComputeGroupInfo`: nothing when no member counts, otherwise the
      mean member position, the member vectors and their number. */
  function GroupInfoOf(g: Geometry, gids: seq<int>, self: int, poses: map<int, Pose>, pos: Vec3): Option<GroupInfo>
  {
    var (rels, sum) := GroupScan(g, gids, self, poses, pos);
    if |rels| == 0 then None
    else Some(GroupInfo(Div(sum, |rels| as real), rels, |rels|))
  }

  function SumRel(rels: seq<GroupMemberRel>): Vec3
  {
    if rels == [] then Zero3 else Add(SumRel(rels[..|rels| - 1]), rels[|rels| - 1].relWorld)
  }

  function SumPos(ids: seq<int>, poses: map<int, Pose>): Vec3
    requires forall j :: 0 <= j < |ids| ==> ids[j] in poses
  {
    if ids == [] then Zero3 else Add(SumPos(ids[..|ids| - 1], poses), poses[ids[|ids| - 1]].position)
  }

  /** The scan keeps one vector per counted member, in annotation order,
      each from the agent to that member. */
  lemma {:induction false} GroupScanIsMembers(g: Geometry, gids: seq<int>, self: int, poses: map<int, Pose>, pos: Vec3)
    ensures var rels := GroupScan(g, gids, self, poses, pos).0;
      var m := Members(gids, self, poses);
      |rels| == |m| && forall j :: 0 <= j < |m| ==> rels[j] == RelOf(g, poses, pos, m[j])
  {
    if gids != [] {
      var p := gids[..|gids| - 1];
      GroupScanIsMembers(g, p, self, poses, pos);
    }
  }

  /** The member vectors add up to the sum of member positions minus the
      agent's position once per member. */
  lemma {:induction false} GroupScanSums(g: Geometry, gids: seq<int>, self: int, poses: map<int, Pose>, pos: Vec3)
    ensures var (rels, sum) := GroupScan(g, gids, self, poses, pos);
      SumRel(rels) == Sub(sum, Scale(pos, |rels| as real))
  {
    if gids != [] {
      var p := gids[..|gids| - 1];
      GroupScanSums(g, p, self, poses, pos);
      var (rels, sum) := GroupScan(g, p, self, poses, pos);
      var id := gids[|gids| - 1];
      if Eligible(poses, self, id) {
        var rels' := rels + [RelOf(g, poses, pos, id)];
        assert rels'[..|rels'| - 1] == rels;
        assert SumRel(rels') == Add(SumRel(rels), Sub(poses[id].position, pos));
      }
    }
  }

  /** An explicit loop over the group ids, as `TryComputeGroupInfo` has. */
  method TryComputeGroupInfo(g: Geometry, gids: seq<int>, self: int, poses: map<int, Pose>, pos: Vec3)
    returns (ok: bool, center: Vec3, rels: seq<GroupMemberRel>, count: int)
    ensures var r := GroupInfoOf(g, gids, self, poses, pos);
      && ok == r.Some?
      && (ok ==> center == r.value.center && rels == r.value.rels && count == r.value.count)
      && (!ok ==> center == Zero3 && rels == [] && count == 0)
  {
    center := Zero3;
    rels := [];
    count := 0;
    if |gids| == 0 {
      return false, center, rels, count;
    }
    var i := 0;
    while i < |gids|
      invariant 0 <= i <= |gids|
      invariant (rels, center) == GroupScan(g, gids[..i], self, poses, pos)
      invariant count == |rels|
    {
      assert gids[..i + 1][..i] == gids[..i];
      var gid := gids[i];
      if gid != self && gid in poses && poses[gid].active {
        var d := Sub(poses[gid].position, pos);
        rels := rels + [GroupMemberRel(gid, d, g.mag(d))];
        center := Add(center, poses[gid].position);
        count := count + 1;
      }
      i := i + 1;
    }
    assert gids[..i] == gids;
    if count == 0 {
      return false, Zero3, [], 0;
    }
    center := Div(center, count as real);
    ok := true;
  }

  /** The centre relative to the agent, `groupCenterRelWorld`, is the mean
      of the member vectors `groupMemberRels`. */
  lemma CenterRelIsMeanOfRels(g: Geometry, gids: seq<int>, self: int, poses: map<int, Pose>, pos: Vec3)
    requires GroupInfoOf(g, gids, self, poses, pos).Some?
    ensures var r := GroupInfoOf(g, gids, self, poses, pos).value;
      r.count > 0 && Sub(r.center, pos) == Div(SumRel(r.rels), r.count as real)
  {
    GroupScanSums(g, gids, self, poses, pos);
    var (rels, sum) := GroupScan(g, gids, self, poses, pos);
    var n := |rels| as real;
    assert SumRel(rels) == Sub(sum, Scale(pos, n));
    MeanShift(sum.x, pos.x, n);
    MeanShift(sum.y, pos.y, n);
    MeanShift(sum.z, pos.z, n);
  }

  lemma MeanShift(s: real, p: real, n: real)
    requires n > 0.0
    ensures s / n - p == (s - p * n) / n
  {
    assert (s - p * n) / n == s / n - (p * n) / n;
    assert (p * n) / n == p;
  }

  // ----------------------------------------------------------------------
  // The tag of one active agent

  /** The tag `RecordFrame` builds for an active agent whose frame is
      stored; `meta` is the annotation of this frame, if any. */
  function ActiveTag(c: Config, ids: seq<int>, poses: map<int, Pose>, s: Senses, self: int, pose: Pose,
                     meta: Option<FrameMeta>, motion: Motion): FrameTag
  {
    var g := c.geometry;
    var pos := pose.position;
    var (nid, nd) := NearestAgentOf(g, ids, poses, self, pos);
    var grp := if meta.Some? then GroupInfoOf(g, meta.value.groupIds, self, poses, pos) else None;
    var gd := if grp.Some? then Distance(g, pos, grp.value.center) else -1.0;
    var goal := meta.Some? && meta.value.hasGoal;
    var od := if goal then Distance(g, pos, meta.value.goalWorld) else -1.0;
    FrameTag(
      true,
      Some(FirstKnownGround(c, SortBy(s.groundHits, HitDistance))),
      nid, nd,
      nid >= 0 && nd >= 0.0 && nd <= c.agent.near,
      nid >= 0 && nd >= 0.0 && nd <= c.agent.hit,
      EnvTagsOf(c, s.nearCands, s.hitCands),
      gd,
      Some(if grp.Some? then DistToState(gd, c.groupCloseDist, c.groupFarDist) else "none"),
      if grp.Some? then grp.value.count else 0,
      if grp.Some? then grp.value.center else Zero3,
      if grp.Some? then Sub(grp.value.center, pos) else Zero3,
      if grp.Some? then grp.value.rels else [],
      od,
      Some(if goal then DistToState(od, c.goalCloseDist, c.goalFarDist) else "none"),
      motion)
  }

  /** With lengths that are never negative, the group state is "none"
      exactly when no other member of the annotated group is active, and
      otherwise grades the distance to the group centre; the goal state is
      "none" exactly when the annotation has no goal. */
  lemma ActiveTagStates(c: Config, ids: seq<int>, poses: map<int, Pose>, s: Senses, self: int, pose: Pose,
                        meta: Option<FrameMeta>, motion: Motion)
    requires forall v :: c.geometry.mag(v) >= 0.0
    ensures var t := ActiveTag(c, ids, poses, s, self, pose, meta, motion);
      && (t.groupState == Some("none") <==>
            (meta.None? || forall j :: 0 <= j < |meta.value.groupIds| ==> !Eligible(poses, self, meta.value.groupIds[j])))
      && (t.groupState != Some("none") ==> t.groupActiveCount == |t.groupMemberRels| > 0)
      && (t.goalState == Some("none") <==> !(meta.Some? && meta.value.hasGoal))
  {
    var g := c.geometry;
    var pos := pose.position;
    if meta.Some? {
      var gids := meta.value.groupIds;
      GroupScanIsMembers(g, gids, self, poses, pos);
      MembersEmptyIffNoneEligible(gids, self, poses);
      var grp := GroupInfoOf(g, gids, self, poses, pos);
      if grp.Some? {
        assert Distance(g, pos, grp.value.center) >= 0.0 by {
          assert Distance(g, pos, grp.value.center) == g.mag(Sub(pos, grp.value.center));
        }
      }
      if meta.value.hasGoal {
        assert Distance(g, pos, meta.value.goalWorld) >= 0.0 by {
          assert Distance(g, pos, meta.value.goalWorld) == g.mag(Sub(pos, meta.value.goalWorld));
        }
      }
    }
  }

  lemma {:induction false} MembersEmptyIffNoneEligible(gids: seq<int>, self: int, poses: map<int, Pose>)
    ensures |Members(gids, self, poses)| == 0 <==> forall j :: 0 <= j < |gids| ==> !Eligible(poses, self, gids[j])
  {
    if gids != [] {
      var p := gids[..|gids| - 1];
      MembersEmptyIffNoneEligible(p, self, poses);
      forall j | 0 <= j < |p| ensures p[j] == gids[j] { }
    }
  }

  // ----------------------------------------------------------------------
  // One agent's step of RecordFrame

  /** Whether `RecordFrame` stores a tag for an agent on this frame. */
  predicate NeedStore(c: Config, meta: Option<FrameMeta>)
  {
    !c.recordOnlyFramesInJsonl || meta.Some?
  }

  /** The body of `RecordFrame` for one runtime agent whose transform
      exists. */
  function RecordAgent(c: Config, ids: seq<int>, poses: map<int, Pose>, s: Senses, meta: Option<FrameMeta>,
                       gf: int, rt: AgentRuntime): (r: AgentRuntime)
    requires rt.id in poses
    ensures r.id == rt.id && r.hasCamera == rt.hasCamera
    ensures r.kin == StateOnly(c, rt.kin, poses[rt.id], gf)
    ensures NeedStore(c, meta) ==>
              r.tagByFrame.Keys == rt.tagByFrame.Keys + {gf} && r.tagByFrame[gf].active == poses[rt.id].active
    ensures !NeedStore(c, meta) ==> r.tagByFrame == rt.tagByFrame
    ensures forall f :: f in rt.tagByFrame && f != gf ==> r.tagByFrame[f] == rt.tagByFrame[f]
  {
    var pose := poses[rt.id];
    if !NeedStore(c, meta) then rt.(kin := StateOnly(c, rt.kin, pose, gf))
    else if !pose.active then rt.(kin := ResetKin(pose, gf), tagByFrame := rt.tagByFrame[gf := InactiveTag])
    else
      var (k, m) := Kinematics(c, rt.kin, pose, gf);
      rt.(kin := k, tagByFrame := rt.tagByFrame[gf := ActiveTag(c, ids, poses, s, rt.id, pose, meta, m)])
  }

  /** The scene restricted to the runtime agents. */
  function RuntimePoses(poses: map<int, Pose>, runtimes: map<int, AgentRuntime>): (r: map<int, Pose>)
    ensures r.Keys == poses.Keys * runtimes.Keys
  {
    map id | id in poses && id in runtimes :: poses[id]
  }

  /** The whole of `RecordFrame`: every runtime agent whose transform
      exists takes its own step, the others stay as they are. `metaOf(id)`
      is the annotation of agent `id` on this frame. */
  function RecordAll(c: Config, ids: seq<int>, poses: map<int, Pose>, sense: int -> Senses,
                     metaOf: int -> Option<FrameMeta>, gf: int, runtimes: map<int, AgentRuntime>): (r: map<int, AgentRuntime>)
    ensures r.Keys == runtimes.Keys
    ensures forall id :: id in runtimes && id in RuntimePoses(poses, runtimes) && runtimes[id].id == id ==>
              r[id] == RecordAgent(c, ids, RuntimePoses(poses, runtimes), sense(id), metaOf(id), gf, runtimes[id])
    ensures forall id :: id in runtimes && !(id in RuntimePoses(poses, runtimes) && runtimes[id].id == id) ==>
              r[id] == runtimes[id]
  {
    var live := RuntimePoses(poses, runtimes);
    map id | id in runtimes ::
      if id in live && runtimes[id].id == id
      then RecordAgent(c, ids, live, sense(id), metaOf(id), gf, runtimes[id])
      else runtimes[id]
  }

  // ----------------------------------------------------------------------
  // JSON form

  function RelToJson(r: GroupMemberRel): Json
  {
    JObj(map["id" := JInt(r.id), "relWorld" := V3(r.relWorld), "dist" := JNum(r.dist)])
  }

  function RelsToJson(rels: seq<GroupMemberRel>): (r: seq<Json>)
    ensures |r| == |rels|
    ensures forall i :: 0 <= i < |rels| ==> r[i] == RelToJson(rels[i])
  {
    if rels == [] then [] else [RelToJson(rels[0])] + RelsToJson(rels[1..])
  }

  function OrElse(s: Option<string>, d: string): string { if s.Some? then s.value else d }

  /** `FrameTagToJObject`: every field of the tag under its JSON name, a
      missing ground as "unknown" and a missing state as "none". None of the
      keys the record composition adds is among them. */
  function FrameTagToJObject(t: FrameTag): (o: JObject)
    ensures "active" in o && "ground" in o && "groupState" in o && "goalState" in o
  {
    map[
      "nearestAgentId" := JInt(t.nearestAgentId),
      "nearestAgentDist" := JNum(t.nearestAgentDist),
      "near_agent" := JBool(t.nearAgent),
      "hit_agent" := JBool(t.hitAgent),
      "nearestObstacleDist" := JNum(t.env.obstacle.nearestDist),
      "near_obstacle" := JBool(t.env.obstacle.near),
      "hit_obstacle" := JBool(t.env.obstacle.hit),
      "nearestBuildingDist" := JNum(t.env.building.nearestDist),
      "near_building" := JBool(t.env.building.near),
      "hit_building" := JBool(t.env.building.hit),
      "nearestEntaranceDist" := JNum(t.env.entarance.nearestDist),
      "near_entarance" := JBool(t.env.entarance.near),
      "hit_entarance" := JBool(t.env.entarance.hit),
      "nearestVehicleDist" := JNum(t.env.vehicle.nearestDist),
      "near_vehicle" := JBool(t.env.vehicle.near),
      "hit_vehicle" := JBool(t.env.vehicle.hit),
      "groupDist" := JNum(t.groupDist),
      "groupActiveCount" := JInt(t.groupActiveCount),
      "groupCenterWorld" := V3(t.groupCenterWorld),
      "groupCenterRelWorld" := V3(t.groupCenterRelWorld),
      "goalDist" := JNum(t.goalDist),
      "speed" := JNum(t.motion.speed),
      "accel" := JNum(t.motion.accel),
      "turnDeg" := JNum(t.motion.turnDeg),
      "groupMemberRels" := JArr(RelsToJson(t.groupMemberRels)),
      "groupState" := JStr(OrElse(t.groupState, "none")),
      "goalState" := JStr(OrElse(t.goalState, "none")),
      "ground" := JStr(OrElse(t.ground, "unknown")),
      "active" := JBool(t.active)]
  }

  /** A tag with a missing ground written as "unknown" and a missing state
      as "none", as its JSON form writes them. */
  function WithDefaults(t: FrameTag): FrameTag
  {
    t.(ground := Some(OrElse(t.ground, "unknown")),
       groupState := Some(OrElse(t.groupState, "none")),
       goalState := Some(OrElse(t.goalState, "none")))
  }

  lemma {:induction false} RelsToJsonInjective(a: seq<GroupMemberRel>, b: seq<GroupMemberRel>)
    requires RelsToJson(a) == RelsToJson(b)
    ensures a == b
  {
    assert |a| == |b|;
    forall i | 0 <= i < |a| ensures a[i] == b[i] {
      assert RelToJson(a[i]) == RelsToJson(a)[i] == RelsToJson(b)[i] == RelToJson(b[i]);
      assert RelToJson(a[i]).fields["relWorld"] == RelToJson(b[i]).fields["relWorld"];
      assert RelToJson(a[i]).fields["id"] == RelToJson(b[i]).fields["id"];
      assert RelToJson(a[i]).fields["dist"] == RelToJson(b[i]).fields["dist"];
    }
  }

  /** The nearest agent's id under its name. */
  lemma TagJsonNearestAgentId(t: FrameTag)
    ensures FrameTagToJObject(t)["nearestAgentId"] == JInt(t.nearestAgentId)
  {
  }

  /** The nearest agent's distance under its name. */
  lemma TagJsonNearestAgentDist(t: FrameTag)
    ensures FrameTagToJObject(t)["nearestAgentDist"] == JNum(t.nearestAgentDist)
  {
  }

  /** The agent flags under their names. */
  lemma TagJsonAgentFlags(t: FrameTag)
    ensures FrameTagToJObject(t)["near_agent"] == JBool(t.nearAgent)
    ensures FrameTagToJObject(t)["hit_agent"] == JBool(t.hitAgent)
  {
  }

  /** The obstacle category under its names. */
  lemma TagJsonObstacle(t: FrameTag)
    ensures FrameTagToJObject(t)["nearestObstacleDist"] == JNum(t.env.obstacle.nearestDist)
    ensures FrameTagToJObject(t)["near_obstacle"] == JBool(t.env.obstacle.near)
    ensures FrameTagToJObject(t)["hit_obstacle"] == JBool(t.env.obstacle.hit)
  {
  }

  /** The building category under its names. */
  lemma TagJsonBuilding(t: FrameTag)
    ensures FrameTagToJObject(t)["nearestBuildingDist"] == JNum(t.env.building.nearestDist)
    ensures FrameTagToJObject(t)["near_building"] == JBool(t.env.building.near)
    ensures FrameTagToJObject(t)["hit_building"] == JBool(t.env.building.hit)
  {
  }

  /** The entrance category under its names. */
  lemma TagJsonEntarance(t: FrameTag)
    ensures FrameTagToJObject(t)["nearestEntaranceDist"] == JNum(t.env.entarance.nearestDist)
    ensures FrameTagToJObject(t)["near_entarance"] == JBool(t.env.entarance.near)
    ensures FrameTagToJObject(t)["hit_entarance"] == JBool(t.env.entarance.hit)
  {
  }

  /** The vehicle category under its names. */
  lemma TagJsonVehicle(t: FrameTag)
    ensures FrameTagToJObject(t)["nearestVehicleDist"] == JNum(t.env.vehicle.nearestDist)
    ensures FrameTagToJObject(t)["near_vehicle"] == JBool(t.env.vehicle.near)
    ensures FrameTagToJObject(t)["hit_vehicle"] == JBool(t.env.vehicle.hit)
  {
  }

  /** The group fields under their names, the member relations one object
      each in order. */
  lemma TagJsonGroup(t: FrameTag)
    ensures FrameTagToJObject(t)["groupDist"] == JNum(t.groupDist)
    ensures FrameTagToJObject(t)["groupActiveCount"] == JInt(t.groupActiveCount)
    ensures FrameTagToJObject(t)["groupCenterWorld"] == V3(t.groupCenterWorld)
    ensures FrameTagToJObject(t)["groupCenterRelWorld"] == V3(t.groupCenterRelWorld)
    ensures FrameTagToJObject(t)["groupMemberRels"] == JArr(RelsToJson(t.groupMemberRels))
  {
  }

  /** The goal distance and the kinematics under their names. */
  lemma TagJsonMotion(t: FrameTag)
    ensures FrameTagToJObject(t)["goalDist"] == JNum(t.goalDist)
    ensures FrameTagToJObject(t)["speed"] == JNum(t.motion.speed)
    ensures FrameTagToJObject(t)["accel"] == JNum(t.motion.accel)
    ensures FrameTagToJObject(t)["turnDeg"] == JNum(t.motion.turnDeg)
  {
  }

  /** Equal JSON forms carry the same agent and category fields. */
  lemma TagJsonSameSensing(t1: FrameTag, t2: FrameTag)
    requires FrameTagToJObject(t1) == FrameTagToJObject(t2)
    ensures t1.nearestAgentId == t2.nearestAgentId && t1.nearestAgentDist == t2.nearestAgentDist
    ensures t1.nearAgent == t2.nearAgent && t1.hitAgent == t2.hitAgent && t1.env == t2.env
  {
    TagJsonNearestAgentId(t1); TagJsonNearestAgentId(t2);
    TagJsonNearestAgentDist(t1); TagJsonNearestAgentDist(t2);
    TagJsonAgentFlags(t1); TagJsonAgentFlags(t2);
    TagJsonObstacle(t1); TagJsonObstacle(t2);
    TagJsonBuilding(t1); TagJsonBuilding(t2);
    TagJsonEntarance(t1); TagJsonEntarance(t2);
    TagJsonVehicle(t1); TagJsonVehicle(t2);
  }

  /** Equal JSON forms carry the same group, goal and motion fields. */
  lemma TagJsonSameGroupMotion(t1: FrameTag, t2: FrameTag)
    requires FrameTagToJObject(t1) == FrameTagToJObject(t2)
    ensures t1.groupDist == t2.groupDist && t1.groupActiveCount == t2.groupActiveCount
    ensures t1.groupCenterWorld == t2.groupCenterWorld && t1.groupCenterRelWorld == t2.groupCenterRelWorld
    ensures t1.groupMemberRels == t2.groupMemberRels && t1.goalDist == t2.goalDist && t1.motion == t2.motion
  {
    TagJsonGroup(t1); TagJsonGroup(t2);
    TagJsonMotion(t1); TagJsonMotion(t2);
    RelsToJsonInjective(t1.groupMemberRels, t2.groupMemberRels);
  }

  /** The JSON form loses no field: two tags with the same JSON object are
      the same tag, up to a missing ground or state and its default text. */
  lemma TagJsonKeepsFields(t1: FrameTag, t2: FrameTag)
    requires FrameTagToJObject(t1) == FrameTagToJObject(t2)
    ensures WithDefaults(t1) == WithDefaults(t2)
  {
    TagJsonSameSensing(t1, t2);
    TagJsonSameGroupMotion(t1, t2);
    TagJsonActiveAndGround(t1); TagJsonActiveAndGround(t2);
    TagJsonStates(t1); TagJsonStates(t2);
  }

  lemma TagJsonActiveAndGround(t: FrameTag)
    ensures FrameTagToJObject(t)["active"] == JBool(t.active)
    ensures FrameTagToJObject(t)["ground"] == JStr(OrElse(t.ground, "unknown"))
  {
  }

  lemma TagJsonStates(t: FrameTag)
    ensures FrameTagToJObject(t)["groupState"] == JStr(OrElse(t.groupState, "none"))
    ensures FrameTagToJObject(t)["goalState"] == JStr(OrElse(t.goalState, "none"))
  {
  }

  /** The keys the record composition adds to a tag object. */
  const ExtraKeys: set<string> := {"imagePath", "imageGf", "trajEndGf", "remainingTrajSec"}

  lemma TagJsonLacksExtras(t: FrameTag)
    ensures forall k :: k in ExtraKeys ==> k !in FrameTagToJObject(t)
  {
    LacksImagePath(t);
    LacksImageGf(t);
    LacksTrajEndGf(t);
    LacksRemaining(t);
  }

  lemma LacksImagePath(t: FrameTag) ensures "imagePath" !in FrameTagToJObject(t) { }
  lemma LacksImageGf(t: FrameTag) ensures "imageGf" !in FrameTagToJObject(t) { }
  lemma LacksTrajEndGf(t: FrameTag) ensures "trajEndGf" !in FrameTagToJObject(t) { }
  lemma LacksRemaining(t: FrameTag) ensures "remainingTrajSec" !in FrameTagToJObject(t) { }
}

// The per-agent recorder of the crowd replay: a CSV writer that closes at
// most once, the ground and collision checks over physics results given as
// inputs, the group-distance classification and the eight-field row.

module RecorderCounter {
  import opened Base
  import opened Text

  /** The CSV header, in field order. */
  const Header: string := "Frame,Ground,ObsCol,AgentCol,GroupStat,GroupDist,LeftTime,ImagePath"

  datatype GroupStatus = NoGroup | AllFar | AllClose | Mixed | Alone

  function StatusText(g: GroupStatus): (r: string)
    ensures Excludes(r, ',')
  {
    match g
    case NoGroup => "No Group"
    case AllFar => "All Far"
    case AllClose => "All Close"
    case Mixed => "Mixed"
    case Alone => "Alone"
  }

  /** A collider within the collision radius: whether it is the agent's own
      object, and its tag. */
  datatype Hit = Hit(isSelf: bool, tag: string)

  /** The recorder's settings. */
  datatype Settings = Settings(groupDistanceThreshold: real, saveImage: bool, hasCamera: bool,
                               imagesDir: string, geometry: Geometry)

  /** What one `AnalyzeFrame` call sees: the replayer's frame, the ground ray
      (the tag of what it hit, if anything), the overlap hits, the group
      member ids (absent for a null list), the positions the replayer
      reports for active known agents, the agent's own position and the
      remaining seconds. */
  datatype FrameInput = FrameInput(frame: int, groundHit: Option<string>, hits: seq<Hit>,
                                   members: Option<seq<int>>, known: map<int, Vec3>,
                                   position: Vec3, remainingSeconds: real)

  // ----------------------------------------------------------------------
  // Collisions

  /** `CheckCollisions`: the flags after scanning `hits`, both reset first;
      an "Obstacle" tag sets the obstacle flag, else an "Agent" tag the
      agent flag; the agent's own object is skipped. */
  function Collisions(hits: seq<Hit>): (bool, bool)
  {
    if hits == [] then (false, false)
    else
      var (o, a) := Collisions(hits[..|hits| - 1]);
      var h := hits[|hits| - 1];
      if h.isSelf then (o, a)
      else if h.tag == "Obstacle" then (true, a)
      else if h.tag == "Agent" then (o, true)
      else (o, a)
  }

  /** The obstacle flag is set iff some other collider is tagged "Obstacle",
      the agent flag iff some other collider is tagged "Agent". */
  lemma {:induction false} CollisionsMeaning(hits: seq<Hit>)
    ensures Collisions(hits).0 <==> exists k :: 0 <= k < |hits| && !hits[k].isSelf && hits[k].tag == "Obstacle"
    ensures Collisions(hits).1 <==> exists k :: 0 <= k < |hits| && !hits[k].isSelf && hits[k].tag == "Agent"
  {
    if hits != [] {
      var n := |hits| - 1;
      CollisionsMeaning(hits[..n]);
      assert forall k :: 0 <= k < n ==> hits[..n][k] == hits[k];
    }
  }

  // ----------------------------------------------------------------------
  // Group distance

  /** The running state of the member loop. */
  datatype GroupAcc = GroupAcc(anyFar: bool, anyClose: bool, total: real, count: nat)

  predicate Counted(myId: int, known: map<int, Vec3>, m: int)
  {
    m != myId && m in known
  }

  /** The members counted towards the mean: the others whose position the
      replayer reports, in list order. */
  function CountedMembers(myId: int, known: map<int, Vec3>, ms: seq<int>): (r: seq<int>)
    ensures |r| <= |ms|
    ensures forall k :: 0 <= k < |r| ==> Counted(myId, known, r[k])
  {
    if ms == [] then []
    else
      var r := CountedMembers(myId, known, ms[..|ms| - 1]);
      if Counted(myId, known, ms[|ms| - 1]) then r + [ms[|ms| - 1]] else r
  }

  function GroupScan(s: Settings, myId: int, known: map<int, Vec3>, me: Vec3, ms: seq<int>): GroupAcc
  {
    if ms == [] then GroupAcc(false, false, 0.0, 0)
    else
      var g := GroupScan(s, myId, known, me, ms[..|ms| - 1]);
      var m := ms[|ms| - 1];
      if !Counted(myId, known, m) then g
      else
        var d := Distance(s.geometry, me, known[m]);
        GroupAcc(g.anyFar || d > s.groupDistanceThreshold, g.anyClose || d <= s.groupDistanceThreshold,
                 g.total + d, g.count + 1)
  }

  /** The member loop counts exactly the counted members, and a member is
      close when within the threshold, far otherwise. */
  lemma {:induction false} GroupScanMeaning(s: Settings, myId: int, known: map<int, Vec3>, me: Vec3, ms: seq<int>)
    ensures var g := GroupScan(s, myId, known, me, ms);
      && g.count == |CountedMembers(myId, known, ms)|
      && (g.anyClose <==> exists k :: 0 <= k < |ms| && Counted(myId, known, ms[k])
                                       && Distance(s.geometry, me, known[ms[k]]) <= s.groupDistanceThreshold)
      && (g.anyFar <==> exists k :: 0 <= k < |ms| && Counted(myId, known, ms[k])
                                     && Distance(s.geometry, me, known[ms[k]]) > s.groupDistanceThreshold)
  {
    if ms != [] {
      var n := |ms| - 1;
      GroupScanMeaning(s, myId, known, me, ms[..n]);
      assert forall k :: 0 <= k < n ==> ms[..n][k] == ms[k];
    }
  }

  function StatusOf(g: GroupAcc): GroupStatus
  {
    if g.anyFar && !g.anyClose then AllFar
    else if !g.anyFar && g.anyClose then AllClose
    else if g.anyFar && g.anyClose then Mixed
    else Alone
  }

  /** `CheckGroupDistance`: the status and the mean distance. */
  function GroupCheck(s: Settings, myId: int, known: map<int, Vec3>, me: Vec3, members: Option<seq<int>>): (GroupStatus, real)
  {
    if members.None? || members.value == [] then (NoGroup, -1.0)
    else
      var g := GroupScan(s, myId, known, me, members.value);
      (StatusOf(g), if g.count > 0 then g.total / g.count as real else -1.0)
  }

  /** A missing or empty list gives "No Group" at -1; otherwise "Alone" at
      -1 exactly when no other member has a known position, "All Close"
      when every counted member is within the threshold, "All Far" when
      none is, "Mixed" otherwise. */
  lemma GroupCheckMeaning(s: Settings, myId: int, known: map<int, Vec3>, me: Vec3, members: Option<seq<int>>)
    ensures var (st, d) := GroupCheck(s, myId, known, me, members);
      && (members.None? || members.value == [] <==> st == NoGroup)
      && (st == NoGroup ==> d == -1.0)
      && (members.Some? && members.value != [] ==>
            var ms := members.value;
            var counted := CountedMembers(myId, known, ms);
            && (st == Alone <==> counted == [])
            && (st == Alone ==> d == -1.0)
            && (st == AllClose <==> counted != [] && forall k :: 0 <= k < |ms| && Counted(myId, known, ms[k]) ==>
                                       Distance(s.geometry, me, known[ms[k]]) <= s.groupDistanceThreshold)
            && (st == AllFar <==> counted != [] && forall k :: 0 <= k < |ms| && Counted(myId, known, ms[k]) ==>
                                     Distance(s.geometry, me, known[ms[k]]) > s.groupDistanceThreshold)
            && (counted != [] ==> d == GroupScan(s, myId, known, me, ms).total / |counted| as real))
  {
    if members.Some? && members.value != [] {
      var ms := members.value;
      GroupScanMeaning(s, myId, known, me, ms);
      CountedWitness(myId, known, ms);
    }
  }

  /** Some member is counted iff the counted list is non-empty. */
  lemma {:induction false} CountedWitness(myId: int, known: map<int, Vec3>, ms: seq<int>)
    ensures CountedMembers(myId, known, ms) != [] <==> exists k :: 0 <= k < |ms| && Counted(myId, known, ms[k])
  {
    if ms != [] {
      var n := |ms| - 1;
      CountedWitness(myId, known, ms[..n]);
      assert forall k :: 0 <= k < n ==> ms[..n][k] == ms[k];
    }
  }

  // ----------------------------------------------------------------------
  // The row

  /** `Path.Combine(imagesDir, "frame_{frame}.png")`, written with a "/"
      separator: the platform separator and `Path.Combine`'s rules for an
      empty or rooted part are not modelled. */
  function ImagePath(s: Settings, frame: int): string
  {
    s.imagesDir + "/" + "frame_" + IntToString(frame) + ".png"
  }

  /** The image field: "None" unless saving is on and the camera exists. */
  function ImageField(s: Settings, frame: int): string
  {
    if s.saveImage && s.hasCamera then ImagePath(s, frame) else "None"
  }

  function RowFields(frame: int, ground: string, obstacle: bool, agent: bool, st: GroupStatus, dist: real,
                     left: real, image: string): seq<string>
  {
    [IntToString(frame), ground, BoolText(obstacle), BoolText(agent), StatusText(st),
     FormatFixed(dist, 2), FormatFixed(left, 2), image]
  }

  /** The recorder state that the methods change. */
  datatype RecState = RecState(finished: bool, writerOpen: bool, rows: seq<string>, groundTag: string,
                               obstacle: bool, agent: bool, status: GroupStatus, groupDist: real)

  /** `FinishRecording`. */
  function FinishSpec(s: RecState): (r: RecState)
    ensures r.finished && r.rows == s.rows
    ensures !s.finished ==> !r.writerOpen
    ensures s.finished ==> r == s
    ensures r.(writerOpen := s.writerOpen, finished := s.finished) == s
  {
    if s.finished then s else s.(writerOpen := false, finished := true)
  }

  /** Finishing twice is finishing once. */
  lemma FinishIdempotent(s: RecState)
    ensures FinishSpec(FinishSpec(s)) == FinishSpec(s)
  {
    var r := FinishSpec(s);
    assert r.finished;
  }

  /** What the three checks of one frame find. */
  datatype Checks = Checks(ground: string, obstacle: bool, agent: bool, status: GroupStatus, dist: real)

  function ChecksOf(c: Settings, myId: int, f: FrameInput): Checks
  {
    var (o, a) := Collisions(f.hits);
    var (st, d) := GroupCheck(c, myId, f.known, f.position, f.members);
    Checks(if f.groundHit.Some? then f.groundHit.value else "None", o, a, st, d)
  }

  function RowOf(c: Settings, f: FrameInput, k: Checks): string
  {
    Join(RowFields(f.frame, k.ground, k.obstacle, k.agent, k.status, k.dist, f.remainingSeconds, ImageField(c, f.frame)), ",")
  }

  /** `AnalyzeFrame`: nothing once finished; otherwise the checks, then one
      row when the writer is open. */
  function AnalyzeSpec(c: Settings, myId: int, s: RecState, f: FrameInput): RecState
  {
    if s.finished then s
    else
      var k := ChecksOf(c, myId, f);
      RecState(false, s.writerOpen, if s.writerOpen then s.rows + [RowOf(c, f, k)] else s.rows,
               k.ground, k.obstacle, k.agent, k.status, k.dist)
  }

  lemma AnalyzeUnfold(c: Settings, myId: int, s: RecState, f: FrameInput, k: Checks, line: string)
    requires !s.finished && k == ChecksOf(c, myId, f) && line == RowOf(c, f, k)
    ensures AnalyzeSpec(c, myId, s, f) == RecState(false, s.writerOpen, if s.writerOpen then s.rows + [line] else s.rows,
                                                   k.ground, k.obstacle, k.agent, k.status, k.dist)
  {
  }

  /** Once finished, analysing changes nothing; otherwise earlier rows stay
      and exactly one row is added when the writer is open. */
  lemma AnalyzeRows(c: Settings, myId: int, s: RecState, f: FrameInput)
    ensures s.finished ==> AnalyzeSpec(c, myId, s, f) == s
    ensures var r := AnalyzeSpec(c, myId, s, f);
      && r.rows[..|s.rows|] == s.rows
      && |r.rows| == |s.rows| + (if !s.finished && s.writerOpen then 1 else 0)
  {
    var r := AnalyzeSpec(c, myId, s, f);
    if !s.finished && s.writerOpen {
      assert r.rows[..|s.rows|] == s.rows;
    }
  }

  /** The image path has no comma when the folder has none, is not "None",
      and ends in `frame_{frame}.png`. */
  lemma ImagePathShape(c: Settings, frame: int)
    requires Excludes(c.imagesDir, ',')
    ensures var p := ImagePath(c, frame);
      Excludes(p, ',') && p != "None" && EndsWith(p, "frame_" + IntToString(frame) + ".png")
  {
    var p := ImagePath(c, frame);
    var t := IntToString(frame);
    IntToStringNoComma(frame);
    assert p == c.imagesDir + "/frame_" + t + ".png";
    forall i | 0 <= i < |p| ensures p[i] != ',' {
      var a := |c.imagesDir|;
      var b := a + 7;
      var e := b + |t|;
      if i < a { assert p[i] == c.imagesDir[i]; }
      else if i < b { assert p[i] == "/frame_"[i - a]; }
      else if i < e { assert p[i] == t[i - b]; }
      else { assert p[i] == ".png"[i - e]; }
    }
    var suffix := "frame_" + t + ".png";
    assert p == c.imagesDir + "/" + suffix;
    assert p[|p| - |suffix|..] == suffix;
  }

  /** The row written holds eight fields in header order: the frame, the
      ground tag, the two collision flags, the group status, the mean
      distance and the remaining time to two decimals, and "None" or the
      path of `frame_{frame}.png`; given a ground tag and an image folder
      without commas. */
  lemma AnalyzeRowFields(c: Settings, myId: int, s: RecState, f: FrameInput)
    requires !s.finished && s.writerOpen
    requires f.groundHit.Some? ==> Excludes(f.groundHit.value, ',')
    requires Excludes(c.imagesDir, ',')
    ensures var r := AnalyzeSpec(c, myId, s, f);
      var fields := Split(r.rows[|r.rows| - 1], {','});
      && |fields| == 8
      && fields[0] == IntToString(f.frame)
      && fields[1] == r.groundTag
      && fields[2] == BoolText(r.obstacle) && fields[3] == BoolText(r.agent)
      && fields[4] == StatusText(r.status)
      && fields[5] == FormatFixed(r.groupDist, 2) && fields[6] == FormatFixed(f.remainingSeconds, 2)
      && (fields[7] == "None" <==> !(c.saveImage && c.hasCamera))
      && (c.saveImage && c.hasCamera ==> EndsWith(fields[7], "frame_" + IntToString(f.frame) + ".png"))
  {
    var k := ChecksOf(c, myId, f);
    var line := RowOf(c, f, k);
    AnalyzeUnfold(c, myId, s, f, k, line);
    RowSplits(c, f, k);
    var r := AnalyzeSpec(c, myId, s, f);
    assert r.rows[|r.rows| - 1] == line;
    assert r.groundTag == k.ground && r.obstacle == k.obstacle && r.agent == k.agent;
    assert r.status == k.status && r.groupDist == k.dist;
    if c.saveImage && c.hasCamera { ImagePathShape(c, f.frame); }
  }

  /** A row splits back into its eight fields. */
  lemma RowSplits(c: Settings, f: FrameInput, k: Checks)
    requires Excludes(k.ground, ',') && Excludes(c.imagesDir, ',')
    ensures Split(RowOf(c, f, k), {','}) == RowFields(f.frame, k.ground, k.obstacle, k.agent, k.status, k.dist,
                                                     f.remainingSeconds, ImageField(c, f.frame))
  {
    IntToStringNoComma(f.frame);
    ImagePathShape(c, f.frame);
    assert Excludes("None", ',');
    var fields := RowFields(f.frame, k.ground, k.obstacle, k.agent, k.status, k.dist,
                            f.remainingSeconds, ImageField(c, f.frame));
    assert forall j :: 0 <= j < |fields| ==> Excludes(fields[j], ',');
    SplitJoin(fields, ',');
  }

  // ----------------------------------------------------------------------
  // The component

  class Recorder {
    const settings: Settings
    const myId: int
    var finished: bool
    var writerOpen: bool
    var rows: seq<string>
    var groundTag: string
    var obstacle: bool
    var agent: bool
    var status: GroupStatus
    var groupDist: real

    function State(): RecState
      reads this
    {
      RecState(finished, writerOpen, rows, groundTag, obstacle, agent, status, groupDist)
    }

    /** `Initialize`: the writer open on a file holding only the header. */
    constructor Initialize(s: Settings, id: int)
      ensures settings == s && myId == id
      ensures State() == RecState(false, true, [Header], "None", false, false, NoGroup, -1.0)
    {
      settings := s;
      myId := id;
      finished := false;
      writerOpen := true;
      rows := [Header];
      groundTag := "None";
      obstacle := false;
      agent := false;
      status := NoGroup;
      groupDist := -1.0;
    }

    method FinishRecording()
      modifies this
      ensures State() == FinishSpec(old(State()))
    {
      if finished {
        return;
      }
      if writerOpen {
        writerOpen := false;
      }
      finished := true;
    }

    method AnalyzeFrame(f: FrameInput)
      modifies this
      ensures State() == AnalyzeSpec(settings, myId, old(State()), f)
    {
      if finished {
        return;
      }
      var ground := if f.groundHit.Some? then f.groundHit.value else "None";
      var o, a := CheckCollisions(f.hits);
      var st, d := CheckGroupDistance(f.members, f.known, f.position);
      var k := Checks(ground, o, a, st, d);
      assert k == ChecksOf(settings, myId, f);
      groundTag, obstacle, agent, status, groupDist := ground, o, a, st, d;
      var line := RowOf(settings, f, k);
      if writerOpen {
        rows := rows + [line];
      }
      AnalyzeUnfold(settings, myId, old(State()), f, k, line);
    }

    method CheckCollisions(hits: seq<Hit>) returns (o: bool, a: bool)
      ensures (o, a) == Collisions(hits)
    {
      o, a := false, false;
      var k := 0;
      while k < |hits|
        invariant 0 <= k <= |hits|
        invariant (o, a) == Collisions(hits[..k])
      {
        assert hits[..k + 1][..k] == hits[..k];
        var h := hits[k];
        if !h.isSelf {
          if h.tag == "Obstacle" { o := true; }
          else if h.tag == "Agent" { a := true; }
        }
        k := k + 1;
      }
      assert hits[..k] == hits;
    }

    method CheckGroupDistance(members: Option<seq<int>>, known: map<int, Vec3>, me: Vec3) returns (st: GroupStatus, d: real)
      ensures (st, d) == GroupCheck(settings, myId, known, me, members)
    {
      if members.None? || members.value == [] {
        return NoGroup, -1.0;
      }
      var ms := members.value;
      var anyFar, anyClose := false, false;
      var total := 0.0;
      var count := 0;
      var k := 0;
      while k < |ms|
        invariant 0 <= k <= |ms|
        invariant GroupAcc(anyFar, anyClose, total, count) == GroupScan(settings, myId, known, me, ms[..k])
      {
        assert ms[..k + 1][..k] == ms[..k];
        var m := ms[k];
        if m != myId && m in known {
          var dist := Distance(settings.geometry, me, known[m]);
          total := total + dist;
          count := count + 1;
          if dist <= settings.groupDistanceThreshold { anyClose := true; } else { anyFar := true; }
        }
        k := k + 1;
      }
      assert ms[..k] == ms;
      d := if count > 0 then total / count as real else -1.0;
      st := StatusOf(GroupAcc(anyFar, anyClose, total, count));
    }
  }
}

/** `AgentReplay`: reads a state CSV written by `AgentState` and moves one
    agent through it, each step adding the previous step's action, taken as
    a planar velocity, times the elapsed time. */
module AgentReplay {
  import opened Base
  import opened Text

  /** One parsed CSV row: the time step, the action `(x, z)` and the
      recorded position. */
  datatype ReplayStep = ReplayStep(timeStep: int, action: Vec2, groundTruth: Vec3)

  /** One line of the CSV: trimmed, skipped when empty, otherwise split on
      ',' and used only with more than six fields, the first six of which
      must parse. */
  function ParseStep(line: string): (r: Option<ReplayStep>)
    ensures r.Some? ==> Trim(line) != "" && |Split(Trim(line), {','})| > 6
  {
    var t := Trim(line);
    if t == "" then None
    else
      var v := Split(t, {','});
      if |v| <= 6 then None
      else
        var ts := ParseInt32(v[0]);
        var xs := ParseReals(v[1..6]);
        if ts.None? || xs.None? then None
        else Some(ReplayStep(ts.value, Vec2(xs.value[0], xs.value[1]), Vec3(xs.value[2], xs.value[3], xs.value[4])))
  }

  /** Every field parsed as a number, or nothing if any field fails. */
  function ParseReals(fields: seq<string>): (r: Option<seq<real>>)
    ensures r.Some? ==> |r.value| == |fields|
  {
    if fields == [] then Some([])
    else
      var x := ParseReal(fields[0]);
      var rest := ParseReals(fields[1..]);
      if x.None? || rest.None? then None else Some([x.value] + rest.value)
  }

  /** A line that does not parse is skipped and the load goes on: the lines
      after it are read as if it were absent; a line that parses contributes
      its step in its place. */
  lemma LoadSkipsBadLines(a: seq<string>, line: string, b: seq<string>)
    ensures ParseStep(line).None? ==>
              FilterMap(ParseStep, a + [line] + b) == FilterMap(ParseStep, a) + FilterMap(ParseStep, b)
    ensures ParseStep(line).Some? ==>
              FilterMap(ParseStep, a + [line] + b)
              == FilterMap(ParseStep, a) + [ParseStep(line).value] + FilterMap(ParseStep, b)
  {
    if ParseStep(line).None? {
      FilterMapSkip(ParseStep, a, line, b);
    } else {
      FilterMapKeep(ParseStep, a, line, b);
    }
  }

  /** The lines of the file after its header. */
  function DataLines(text: string): seq<string>
  {
    Split(text, {'\n'})[1..]
  }

  /** The time between two steps: the step difference, a 32-bit integer
      subtraction, times the frame duration. */
  function DeltaTime(prev: ReplayStep, cur: ReplayStep, frameDuration: real): real
  {
    Wrap32(cur.timeStep - prev.timeStep) as real * frameDuration
  }

  /** The move from `prev` to `cur`: `prev`'s action `(x, z)` as the velocity
      `(x, 0, z)`, over the time between them. */
  function Displacement(prev: ReplayStep, cur: ReplayStep, frameDuration: real): Vec3
  {
    Scale(Vec3(prev.action.x, 0.0, prev.action.y), DeltaTime(prev, cur, frameDuration))
  }

  /** The replayed positions: the first recorded position, then one position
      per later step. */
  function Trajectory(steps: seq<ReplayStep>, frameDuration: real): (r: seq<Vec3>)
    requires |steps| >= 1
    ensures |r| == |steps| && r[0] == steps[0].groundTruth
  {
    if |steps| == 1 then [steps[0].groundTruth]
    else
      var n := |steps| - 1;
      var p := Trajectory(steps[..n], frameDuration);
      p + [Add(p[n - 1], Displacement(steps[n - 1], steps[n], frameDuration))]
  }

  /** Each replayed position is the one before it plus the displacement of
      that step. */
  lemma {:induction false} TrajectoryStep(steps: seq<ReplayStep>, frameDuration: real, k: int)
    requires 1 <= k < |steps|
    ensures Trajectory(steps, frameDuration)[k]
            == Add(Trajectory(steps, frameDuration)[k - 1], Displacement(steps[k - 1], steps[k], frameDuration))
    decreases |steps|
  {
    var n := |steps| - 1;
    if k < n {
      TrajectoryStep(steps[..n], frameDuration, k);
      assert steps[..n][k - 1] == steps[k - 1] && steps[..n][k] == steps[k];
    }
  }

  /** The agent never leaves the height it starts at: every velocity has a
      zero `y`. */
  lemma {:induction false} TrajectoryKeepsHeight(steps: seq<ReplayStep>, frameDuration: real)
    requires |steps| >= 1
    ensures forall k :: 0 <= k < |steps| ==> Trajectory(steps, frameDuration)[k].y == steps[0].groundTruth.y
  {
    if |steps| > 1 {
      var n := |steps| - 1;
      TrajectoryKeepsHeight(steps[..n], frameDuration);
    }
  }

  /** An agent whose actions are all zero stays where it started. */
  lemma {:induction false} TrajectoryAtRest(steps: seq<ReplayStep>, frameDuration: real)
    requires |steps| >= 1
    requires forall k :: 0 <= k < |steps| ==> steps[k].action == Vec2(0.0, 0.0)
    ensures forall k :: 0 <= k < |steps| ==> Trajectory(steps, frameDuration)[k] == steps[0].groundTruth
  {
    if |steps| > 1 {
      var n := |steps| - 1;
      TrajectoryAtRest(steps[..n], frameDuration);
    }
  }

  /** The pause after the move from `prev` to `cur`: its time over the
      speed multiplier. */
  function Wait(prev: ReplayStep, cur: ReplayStep, frameDuration: real, speed: real): real
    requires speed > 0.0
  {
    DeltaTime(prev, cur, frameDuration) / speed
  }

  /** The speed multiplier that the wait uses: a non-positive one becomes 1. */
  function EffectiveSpeed(m: real): (r: real)
    ensures r > 0.0
    ensures m > 0.0 ==> r == m
  {
    if m <= 0.0 then 1.0 else m
  }

  /** The `AgentReplay` component. */
  class Replayer {
    const frameDuration: real
    var replaySpeedMultiplier: real
    var replayData: seq<ReplayStep>

    constructor (frameDuration: real, replaySpeedMultiplier: real)
      ensures this.frameDuration == frameDuration && this.replaySpeedMultiplier == replaySpeedMultiplier
      ensures replayData == []
    {
      this.frameDuration := frameDuration;
      this.replaySpeedMultiplier := replaySpeedMultiplier;
      replayData := [];
    }

    /** `LoadReplayData`: appends the steps of every line after the header. */
    method LoadReplayData(text: string)
      modifies this
      ensures replayData == old(replayData) + FilterMap(ParseStep, DataLines(text))
      ensures replaySpeedMultiplier == old(replaySpeedMultiplier)
    {
      var lines := Split(text, {'\n'});
      var i := 1;
      while i < |lines|
        invariant 1 <= i <= |lines|
        invariant replayData == old(replayData) + FilterMap(ParseStep, lines[1..i])
        invariant replaySpeedMultiplier == old(replaySpeedMultiplier)
      {
        SliceSnoc(lines, 1, i);
        FilterMapSnoc(ParseStep, lines[1..i], lines[i]);
        var p := ParseStep(lines[i]);
        ghost var added := if p.Some? then [p.value] else [];
        AppendAssoc(old(replayData), FilterMap(ParseStep, lines[1..i]), added);
        if p.Some? {
          replayData := replayData + [p.value];
        }
        assert replayData == old(replayData) + FilterMap(ParseStep, lines[1..i + 1]);
        i := i + 1;
      }
      assert lines[1..i] == DataLines(text);
    }

    /** `ReplayMovement`: the positions the agent takes, from the first
        recorded one on, and the wait after each move, the elapsed time over
        the speed multiplier. The multiplier becomes 1 on the first move if it
        is not positive. */
    method ReplayMovement() returns (positions: seq<Vec3>, waits: seq<real>)
      requires |replayData| >= 1
      modifies this
      ensures replayData == old(replayData)
      ensures positions == Trajectory(replayData, frameDuration)
      ensures |waits| == |replayData| - 1
      ensures |replayData| == 1 ==> replaySpeedMultiplier == old(replaySpeedMultiplier)
      ensures |replayData| > 1 ==> replaySpeedMultiplier == EffectiveSpeed(old(replaySpeedMultiplier))
      ensures |replayData| > 1 ==> forall k :: 0 <= k < |waits| ==>
                waits[k] == Wait(replayData[k], replayData[k + 1], frameDuration, replaySpeedMultiplier)
    {
      var pos := replayData[0].groundTruth;
      positions := [pos];
      waits := [];
      var i := 1;
      while i < |replayData|
        invariant 1 <= i <= |replayData|
        invariant replayData == old(replayData)
        invariant positions == Trajectory(replayData[..i], frameDuration) && pos == positions[i - 1]
        invariant |waits| == i - 1
        invariant i == 1 ==> replaySpeedMultiplier == old(replaySpeedMultiplier)
        invariant i > 1 ==> replaySpeedMultiplier == EffectiveSpeed(old(replaySpeedMultiplier))
        invariant i > 1 ==> forall k :: 0 <= k < i - 1 ==>
                    waits[k] == Wait(replayData[k], replayData[k + 1], frameDuration, replaySpeedMultiplier)
      {
        var prev, cur := replayData[i - 1], replayData[i];
        ghost var steps := replayData[..i + 1];
        assert steps[..i] == replayData[..i] && steps[i - 1] == prev && steps[i] == cur;
        pos := Add(pos, Displacement(prev, cur, frameDuration));
        positions := positions + [pos];
        assert positions == Trajectory(steps, frameDuration);
        if replaySpeedMultiplier <= 0.0 {
          replaySpeedMultiplier := 1.0;
        }
        waits := waits + [Wait(prev, cur, frameDuration, replaySpeedMultiplier)];
        i := i + 1;
      }
      assert replayData[..i] == replayData;
    }

    /** `StartReplay`: the replay when any step is loaded, nothing
        otherwise. */
    method StartReplay() returns (positions: seq<Vec3>, waits: seq<real>)
      modifies this
      ensures replayData == old(replayData)
      ensures old(replayData) == [] ==> positions == [] && waits == []
      ensures old(replayData) != [] ==> positions == Trajectory(replayData, frameDuration)
      ensures |replayData| <= 1 ==> replaySpeedMultiplier == old(replaySpeedMultiplier)
      ensures |replayData| > 1 ==> replaySpeedMultiplier == EffectiveSpeed(old(replaySpeedMultiplier))
      ensures |waits| == MaxI(0, |replayData| - 1)
      ensures forall k :: 0 <= k < |waits| && k + 1 < |replayData| && replaySpeedMultiplier > 0.0 ==>
                waits[k] == Wait(replayData[k], replayData[k + 1], frameDuration, replaySpeedMultiplier)
    {
      positions, waits := [], [];
      if |replayData| > 0 {
        positions, waits := ReplayMovement();
      }
    }

    /** `Start`: without a CSV file or a prefab nothing happens; otherwise the
        file is loaded and replayed. */
    method Start(csv: Option<string>, hasPrefab: bool) returns (positions: seq<Vec3>, waits: seq<real>)
      modifies this
      ensures csv.None? || !hasPrefab ==> replayData == old(replayData) && positions == []
      ensures csv.Some? && hasPrefab ==> replayData == old(replayData) + FilterMap(ParseStep, DataLines(csv.value))
      ensures csv.Some? && hasPrefab && replayData != [] ==> positions == Trajectory(replayData, frameDuration)
      ensures csv.None? || !hasPrefab ==> waits == [] && replaySpeedMultiplier == old(replaySpeedMultiplier)
      ensures csv.Some? && hasPrefab && |replayData| <= 1 ==> replaySpeedMultiplier == old(replaySpeedMultiplier)
      ensures csv.Some? && hasPrefab && |replayData| > 1 ==> replaySpeedMultiplier == EffectiveSpeed(old(replaySpeedMultiplier))
      ensures csv.Some? && hasPrefab ==> |waits| == MaxI(0, |replayData| - 1)
      ensures csv.Some? && hasPrefab ==> forall k :: 0 <= k < |waits| && k + 1 < |replayData| && replaySpeedMultiplier > 0.0 ==>
                waits[k] == Wait(replayData[k], replayData[k + 1], frameDuration, replaySpeedMultiplier)
    {
      positions, waits := [], [];
      if csv.None? || !hasPrefab {
        return;
      }
      LoadReplayData(csv.value);
      positions, waits := StartReplay();
    }
  }
}

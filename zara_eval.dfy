/** `Trajectory.TryEvaluate` of `ZaraPlaybackWithAnchor0`: a trajectory looked
    up at a fractional frame. */
module ZaraEval {
  import opened Base
  import opened ZaraTrajectories

  /** `Array.BinarySearch` as .NET runs it on `a[lo..hi]`: the index of a
      match, or the complement `-1 - k` of the insertion point `k`. */
  function BinarySearch(a: seq<int>, v: int, lo: int, hi: int): (r: int)
    requires 0 <= lo <= hi + 1 <= |a|
    ensures r >= 0 ==> lo <= r <= hi && a[r] == v
    ensures r < 0 ==> lo <= -1 - r <= hi + 1
    decreases hi - lo + 1
  {
    if lo > hi then -1 - lo
    else
      var i := lo + (hi - lo) / 2;
      if a[i] == v then i
      else if a[i] < v then BinarySearch(a, v, i + 1, hi)
      else BinarySearch(a, v, lo, i - 1)
  }

  /** On an ascending array a miss lands at the insertion point: every
      entry before it is smaller, every entry from it on is larger. */
  lemma {:induction false} BinarySearchMiss(a: seq<int>, v: int, lo: int, hi: int)
    requires 0 <= lo <= hi + 1 <= |a| && Ascending(a)
    requires forall k :: 0 <= k < lo ==> a[k] < v
    requires forall k :: hi < k < |a| ==> a[k] > v
    ensures var r := BinarySearch(a, v, lo, hi);
      r < 0 ==> (forall k :: 0 <= k < -1 - r ==> a[k] < v) && (forall k :: -1 - r <= k < |a| ==> a[k] > v)
    decreases hi - lo + 1
  {
    if lo <= hi {
      var i := lo + (hi - lo) / 2;
      if a[i] < v {
        BinarySearchMiss(a, v, i + 1, hi);
      } else if a[i] > v {
        BinarySearchMiss(a, v, lo, i - 1);
      }
    }
  }

  /** A miss means the value is absent. */
  lemma BinarySearchAbsent(a: seq<int>, v: int)
    requires Ascending(a)
    ensures BinarySearch(a, v, 0, |a| - 1) < 0 <==> v !in a
  {
    BinarySearchMiss(a, v, 0, |a| - 1);
  }

  /** `Vector2.LerpUnclamped`. */
  function Lerp2(a: Vec2, b: Vec2, t: real): Vec2
  {
    Vec2(a.x + (b.x - a.x) * t, a.y + (b.y - a.y) * t)
  }

  /** The interpolation weight between the bracketing frames. */
  function Weight(frameF: real, f0: int, f1: int): real
  {
    if Approximately(f1 as real, f0 as real) then 0.0 else (frameF - f0 as real) / (f1 as real - f0 as real)
  }

  /** `Trajectory.TryEvaluate`: nothing outside `[first, last]`; at an exact
      match of the floored frame that sample; otherwise interpolation
      between the neighbours of the insertion point. */
  function TryEvaluate(t: Trajectory, frameF: real): Option<(Vec2, real)>
    requires |t.xy| == |t.frames| && |t.angles| == |t.frames|
  {
    var n := |t.frames|;
    if n == 0 then None
    else if frameF < t.frames[0] as real || frameF > t.frames[n - 1] as real then None
    else
      var target := frameF.Floor;
      var idx := BinarySearch(t.frames, target, 0, n - 1);
      if idx >= 0 then Some((t.xy[idx], t.angles[idx]))
      else
        var hi := ClampI(-1 - idx, 0, n - 1);
        var lo := ClampI(hi - 1, 0, n - 1);
        if lo == hi then Some((t.xy[lo], t.angles[lo]))
        else
          var w := Weight(frameF, t.frames[lo], t.frames[hi]);
          Some((Lerp2(t.xy[lo], t.xy[hi], w), LerpAngle(t.angles[lo], t.angles[hi], w)))
  }

  /** Outside the covered frames there is no value. */
  lemma EvaluateOutside(t: Trajectory, frameF: real)
    requires TrajOk(t)
    ensures TryEvaluate(t, frameF).None? <==>
              frameF < t.frames[0] as real || frameF > t.frames[|t.frames| - 1] as real
  {
  }

  /** When the floored frame is one of the samples' frames, the value is a
      sample at that frame. */
  lemma EvaluateExact(t: Trajectory, frameF: real)
    requires TrajOk(t)
    requires t.frames[0] as real <= frameF <= t.frames[|t.frames| - 1] as real
    requires frameF.Floor in t.frames
    ensures exists k :: 0 <= k < |t.frames| && t.frames[k] == frameF.Floor
                        && TryEvaluate(t, frameF) == Some((t.xy[k], t.angles[k]))
  {
    BinarySearchAbsent(t.frames, frameF.Floor);
    var k := BinarySearch(t.frames, frameF.Floor, 0, |t.frames| - 1);
    assert TryEvaluate(t, frameF) == Some((t.xy[k], t.angles[k]));
  }

  lemma FloorFacts(frameF: real, f0: int)
    requires f0 as real <= frameF
    ensures f0 <= frameF.Floor && frameF < frameF.Floor as real + 1.0
  {
  }

  /** Otherwise the frame falls strictly between two consecutive samples,
      and the value is their interpolation with a weight in `[0, 1)`. */
  lemma EvaluateBetween(t: Trajectory, frameF: real)
    requires TrajOk(t)
    requires t.frames[0] as real <= frameF <= t.frames[|t.frames| - 1] as real
    requires frameF.Floor !in t.frames
    ensures var lo := -2 - BinarySearch(t.frames, frameF.Floor, 0, |t.frames| - 1);
              && 0 <= lo < |t.frames| - 1
              && t.frames[lo] as real < frameF < t.frames[lo + 1] as real
              && t.frames[lo] < frameF.Floor < t.frames[lo + 1]
              && var w := Weight(frameF, t.frames[lo], t.frames[lo + 1]);
                 && 0.0 <= w < 1.0
                 && TryEvaluate(t, frameF) == Some((Lerp2(t.xy[lo], t.xy[lo + 1], w), LerpAngle(t.angles[lo], t.angles[lo + 1], w)))
  {
    var ins := Bracket(t.frames, frameF);
    WeightRange(frameF, t.frames[ins - 1], t.frames[ins]);
    EvaluateMiss(t, frameF, ins);
  }

  /** A frame inside the covered frames whose floor is not a sample frame
      misses, with a sample on each side of the insertion point. */
  lemma Bracket(a: seq<int>, frameF: real) returns (ins: int)
    requires Ascending(a) && |a| >= 1
    requires a[0] as real <= frameF <= a[|a| - 1] as real
    requires frameF.Floor !in a
    ensures ins == -1 - BinarySearch(a, frameF.Floor, 0, |a| - 1)
    ensures 1 <= ins <= |a| - 1 && a[ins - 1] < frameF.Floor < a[ins]
  {
    var n := |a|;
    var target := frameF.Floor;
    assert a[0] <= target <= a[n - 1] by {
      FloorFacts(frameF, a[0]);
      assert frameF.Floor as real <= frameF;
    }
    BinarySearchAbsent(a, target);
    BinarySearchMiss(a, target, 0, n - 1);
    ins := -1 - BinarySearch(a, target, 0, n - 1);
  }

  /** A miss whose insertion point `ins` has a sample on each side
      interpolates between samples `ins - 1` and `ins`. */
  lemma EvaluateMiss(t: Trajectory, frameF: real, ins: int)
    requires |t.xy| == |t.frames| && |t.angles| == |t.frames|
    requires 1 <= ins <= |t.frames| - 1
    requires t.frames[0] as real <= frameF <= t.frames[|t.frames| - 1] as real
    requires BinarySearch(t.frames, frameF.Floor, 0, |t.frames| - 1) == -1 - ins
    ensures var w := Weight(frameF, t.frames[ins - 1], t.frames[ins]);
      TryEvaluate(t, frameF) == Some((Lerp2(t.xy[ins - 1], t.xy[ins], w), LerpAngle(t.angles[ins - 1], t.angles[ins], w)))
  {
    var n := |t.frames|;
    assert ClampI(ins, 0, n - 1) == ins;
    assert ClampI(ins - 1, 0, n - 1) == ins - 1;
  }

  lemma WeightRange(frameF: real, f0: int, f1: int)
    requires f0 < frameF.Floor < f1
    ensures f0 as real < frameF < f1 as real
    ensures 0.0 <= Weight(frameF, f0, f1) < 1.0
  {
    assert frameF.Floor as real <= frameF < frameF.Floor as real + 1.0;
    if !Approximately(f1 as real, f0 as real) {
      var d := f1 as real - f0 as real;
      assert d > 0.0;
      assert 0.0 < frameF - f0 as real < d;
      DivBelow(frameF - f0 as real, d);
    }
  }

  lemma DivBelow(x: real, d: real)
    requires 0.0 < x < d
    ensures 0.0 < x / d < 1.0
  {
    var q := x / d;
    assert q * d == x;
    if q >= 1.0 {
      assert false;
    }
  }
}

/** `MultiAgentGlobalFrameReplayManager`: one track per chunk file, each
    mapping global frames to positions, with the neighbouring frame of every
    frame; a frame-by-frame player that shows exactly the agents holding the
    current frame, and the per-category near filter of its debug query.

    Physics queries come in as candidate lists (`Collider`), the look-rotation
    of a local offset as the parameter `lookRotate`, and lengths as the
    `Geometry` of `Base`. */
module ChunkReplay {
  import opened Base
  import opened Text
  import opened Sorting

  /** The per-category near and hit radii of the debug query. */
  datatype Radii = Radii(nearAgent: real, hitAgent: real, nearBuilding: real, hitBuilding: real,
                         nearObstacle: real, hitObstacle: real, nearVehicle: real, hitVehicle: real)

  /** The debug mode switches. */
  datatype Modes = Modes(agentOnly: bool, buildingOnly: bool, obstacleOnly: bool, vehicleOnly: bool, distanceOnly: bool)

  datatype ReplayConfig = ReplayConfig(
    yOffset: real,
    rotateOffsetsByStartForward: bool,
    /** `Quaternion.LookRotation(forward) * offset`. */
    lookRotate: (Vec3, Vec3) -> Vec3,
    geometry: Geometry,
    radii: Radii,
    modes: Modes,
    debugEnabled: bool,
    playOnStart: bool,
    tagBuilding: string,
    tagObstacle: string,
    tagVehicle: string)

  // ----------------------------------------------------------------------
  // Radii

  function NonNeg(r: real): real { MaxR(0.0, r) }

  /** `OnValidate`: every radius clamped at zero. */
  function Validated(r: Radii): (v: Radii)
    ensures v.nearAgent >= 0.0 && v.hitAgent >= 0.0 && v.nearBuilding >= 0.0 && v.hitBuilding >= 0.0
    ensures v.nearObstacle >= 0.0 && v.hitObstacle >= 0.0 && v.nearVehicle >= 0.0 && v.hitVehicle >= 0.0
    ensures r.nearAgent >= 0.0 && r.hitAgent >= 0.0 && r.nearBuilding >= 0.0 && r.hitBuilding >= 0.0
            && r.nearObstacle >= 0.0 && r.hitObstacle >= 0.0 && r.nearVehicle >= 0.0 && r.hitVehicle >= 0.0
            ==> v == r
  {
    Radii(NonNeg(r.nearAgent), NonNeg(r.hitAgent), NonNeg(r.nearBuilding), NonNeg(r.hitBuilding),
          NonNeg(r.nearObstacle), NonNeg(r.hitObstacle), NonNeg(r.nearVehicle), NonNeg(r.hitVehicle))
  }

  const MinQueryRadius: real := 0.001

  /** `RecomputeQueryRadiusMaxNear`: the overlap radius covers every near
      radius, is never below 0.001, and is one of them or 0.001. */
  function QueryRadius(r: Radii): (q: real)
    ensures q >= MinQueryRadius
    ensures q >= r.nearAgent && q >= r.nearBuilding && q >= r.nearObstacle && q >= r.nearVehicle
    ensures q == MinQueryRadius || q == r.nearAgent || q == r.nearBuilding || q == r.nearObstacle || q == r.nearVehicle
  {
    MaxR(MinQueryRadius, MaxR(r.nearAgent, MaxR(r.nearBuilding, MaxR(r.nearObstacle, r.nearVehicle))))
  }

  // ----------------------------------------------------------------------
  // Chunk records

  /** One deserialized line; an absent field is `None`, and so is a null
      inner offset array. */
  datatype ChunkRecord = ChunkRecord(globalFrames: Option<seq<int>>, startWorldPosition: Option<seq<real>>,
                                     startForward: Option<seq<real>>, localCurrent: Option<seq<Option<seq<real>>>>)

  /** A line of a chunk file: its text and what deserializing it gives
      (`None` when it throws or yields null). */
  datatype ChunkLine = ChunkLine(text: string, record: Option<ChunkRecord>)

  /** A chunk file: its name without extension and the lines read from it.
      When reading throws, `readOk` is false and `lines` are those read
      before the exception. */
  datatype ChunkFile = ChunkFile(name: string, lines: seq<ChunkLine>, readOk: bool)

  /** A line the loader uses: not blank, deserialized, with both frame and
      offset arrays, of equal length. */
  predicate Loads(l: ChunkLine)
  {
    && !IsBlank(l.text) && l.record.Some?
    && l.record.value.globalFrames.Some? && l.record.value.localCurrent.Some?
    && |l.record.value.globalFrames.value| == |l.record.value.localCurrent.value|
  }

  /** The frames a line contributes. */
  function Frames(l: ChunkLine): seq<int>
  {
    if Loads(l) then l.record.value.globalFrames.value else []
  }

  /** World position of entry `i`: the start position lifted by `yOffset`
      plus the offset, turned by the start forward when that is asked for
      and the forward is not zero. */
  function WorldPos(c: ReplayConfig, r: ChunkRecord, i: nat): Vec3
    requires r.localCurrent.Some? && i < |r.localCurrent.value|
  {
    var anchor := ToV3(r.startWorldPosition);
    var fwd := ToV3(r.startForward);
    var offset := ToV3(r.localCurrent.value[i]);
    var turned := if c.rotateOffsetsByStartForward && fwd != Zero3 then c.lookRotate(fwd, offset) else offset;
    Add(anchor.(y := anchor.y + c.yOffset), turned)
  }

  // ----------------------------------------------------------------------
  // The frame-to-position dictionary

  /** A `Dictionary<int, Vector3>` with its keys in insertion order. */
  datatype FrameMap = FrameMap(pos: map<int, Vec3>, keys: seq<int>)

  predicate FrameMapOk(m: FrameMap)
  {
    && Distinct(m.keys) && (forall f :: f in m.pos ==> f in m.keys) && (forall j :: 0 <= j < |m.keys| ==> m.keys[j] in m.pos)
  }

  const EmptyFrames: FrameMap := FrameMap(map[], [])

  /** `posByFrame[f] = v`. */
  function Put(m: FrameMap, f: int, v: Vec3): (r: FrameMap)
    ensures FrameMapOk(m) ==> FrameMapOk(r)
  {
    FrameMap(m.pos[f := v], if f in m.pos then m.keys else m.keys + [f])
  }

  /** The first `n` entries of a loaded record stored in turn. */
  function PutRecord(c: ReplayConfig, m: FrameMap, l: ChunkLine, n: nat): (r: FrameMap)
    requires Loads(l) && n <= |Frames(l)|
    ensures FrameMapOk(m) ==> FrameMapOk(r)
  {
    if n == 0 then m
    else Put(PutRecord(c, m, l, n - 1), Frames(l)[n - 1], WorldPos(c, l.record.value, n - 1))
  }

  function PutLine(c: ReplayConfig, m: FrameMap, l: ChunkLine): (r: FrameMap)
    ensures FrameMapOk(m) ==> FrameMapOk(r)
  {
    if Loads(l) then PutRecord(c, m, l, |Frames(l)|) else m
  }

  /** The track of a file's lines. */
  function TrackOf(c: ReplayConfig, lines: seq<ChunkLine>): (r: FrameMap)
    ensures FrameMapOk(r)
  {
    if lines == [] then EmptyFrames
    else PutLine(c, TrackOf(c, lines[..|lines| - 1]), lines[|lines| - 1])
  }

  /** The last position, below `n`, of frame `f` in `fs`. */
  function LastBelow(fs: seq<int>, n: nat, f: int): (k: nat)
    requires n <= |fs| && f in fs[..n]
    ensures k < n && fs[k] == f && forall j :: k < j < n ==> fs[j] != f
  {
    if fs[n - 1] == f then n - 1
    else
      assert fs[..n] == fs[..n - 1] + [fs[n - 1]];
      LastBelow(fs, n - 1, f)
  }

  /** Storing a record's first `n` entries: a frame it lists takes the
      position of its LAST entry, every other frame keeps its value. */
  lemma {:induction false} PutRecordValue(c: ReplayConfig, m: FrameMap, l: ChunkLine, n: nat, f: int)
    requires Loads(l) && n <= |Frames(l)|
    ensures f in PutRecord(c, m, l, n).pos <==> f in m.pos || f in Frames(l)[..n]
    ensures f in Frames(l)[..n] ==> PutRecord(c, m, l, n).pos[f] == WorldPos(c, l.record.value, LastBelow(Frames(l), n, f))
    ensures f !in Frames(l)[..n] && f in m.pos ==> PutRecord(c, m, l, n).pos[f] == m.pos[f]
  {
    if n > 0 {
      var fs := Frames(l);
      assert fs[..n] == fs[..n - 1] + [fs[n - 1]];
      PutRecordValue(c, m, l, n - 1, f);
    }
  }

  /** The value a line gives frame `f`. */
  function LineValue(c: ReplayConfig, l: ChunkLine, f: int): Vec3
    requires f in Frames(l)
  {
    assert Frames(l)[..|Frames(l)|] == Frames(l);
    WorldPos(c, l.record.value, LastBelow(Frames(l), |Frames(l)|, f))
  }

  /** One more line: the frames it lists take its values, every other
      frame keeps the value it had. */
  lemma TrackStep(c: ReplayConfig, lines: seq<ChunkLine>, f: int)
    requires lines != []
    ensures var n := |lines| - 1;
      var prev := TrackOf(c, lines[..n]);
      && (f in TrackOf(c, lines).pos <==> f in prev.pos || f in Frames(lines[n]))
      && (f in Frames(lines[n]) ==> TrackOf(c, lines).pos[f] == LineValue(c, lines[n], f))
      && (f !in Frames(lines[n]) && f in prev.pos ==> TrackOf(c, lines).pos[f] == prev.pos[f])
  {
    var n := |lines| - 1;
    var l := lines[n];
    if Loads(l) {
      var fs := Frames(l);
      assert fs[..|fs|] == fs;
      PutRecordValue(c, TrackOf(c, lines[..n]), l, |fs|, f);
    }
  }

  /** A track holds exactly the frames of its loaded lines. */
  lemma {:induction false} TrackKeys(c: ReplayConfig, lines: seq<ChunkLine>, f: int)
    ensures f in TrackOf(c, lines).pos <==> exists j :: 0 <= j < |lines| && f in Frames(lines[j])
  {
    if lines != [] {
      var n := |lines| - 1;
      TrackStep(c, lines, f);
      TrackKeys(c, lines[..n], f);
      if exists j :: 0 <= j < |lines| && f in Frames(lines[j]) {
        var j :| 0 <= j < |lines| && f in Frames(lines[j]);
        if j < n { assert lines[..n][j] == lines[j]; }
      }
      if exists j :: 0 <= j < n && f in Frames(lines[..n][j]) {
        var j :| 0 <= j < n && f in Frames(lines[..n][j]);
        assert lines[..n][j] == lines[j];
      }
    }
  }

  /** The last line listing frame `f`, or -1 when none does. */
  function LastListing(lines: seq<ChunkLine>, f: int): (j: int)
    ensures -1 <= j < |lines|
    ensures j >= 0 ==> f in Frames(lines[j])
    ensures j < 0 ==> forall k :: 0 <= k < |lines| ==> f !in Frames(lines[k])
    ensures forall k :: j < k < |lines| ==> f !in Frames(lines[k])
  {
    if lines == [] then -1
    else if f in Frames(lines[|lines| - 1]) then |lines| - 1
    else
      var n := |lines| - 1;
      assert forall k :: 0 <= k < n ==> lines[..n][k] == lines[k];
      LastListing(lines[..n], f)
  }

  /** Each frame of a track holds the position given by the LAST line
      listing it: later records overwrite earlier ones. */
  lemma {:induction false} TrackValue(c: ReplayConfig, lines: seq<ChunkLine>, f: int)
    requires f in TrackOf(c, lines).pos
    ensures LastListing(lines, f) >= 0
    ensures TrackOf(c, lines).pos[f] == LineValue(c, lines[LastListing(lines, f)], f)
  {
    assert lines != [];
    var n := |lines| - 1;
    TrackStep(c, lines, f);
    if f !in Frames(lines[n]) {
      TrackValue(c, lines[..n], f);
      assert LastListing(lines, f) == LastListing(lines[..n], f);
      assert lines[..n][LastListing(lines, f)] == lines[LastListing(lines, f)];
    }
  }

  // ----------------------------------------------------------------------
  // Global frame range

  /** All frames that a file's lines contribute, in reading order. */
  function LineFrames(lines: seq<ChunkLine>): seq<int>
  {
    if lines == [] then [] else LineFrames(lines[..|lines| - 1]) + Frames(lines[|lines| - 1])
  }

  /** All frames read, in reading order, including those of a file whose
      reading threw later on. */
  function AllFrames(files: seq<ChunkFile>): seq<int>
  {
    if files == [] then [] else AllFrames(files[..|files| - 1]) + LineFrames(files[|files| - 1].lines)
  }


  /** The range after loading: the running bounds, with a bound still at its
      start value reset to 0 (low) or -1 (high). */
  function FinalRange(fs: seq<int>): (int, int)
  {
    (if Low(fs) == IntMax then 0 else Low(fs), if High(fs) == IntMin then -1 else High(fs))
  }

  /** With nothing loaded the range is [0, -1]; otherwise, for 32-bit frames
      away from the sentinels, it is exactly the smallest and the largest
      frame read. */
  lemma RangeMeaning(fs: seq<int>)
    ensures fs == [] ==> FinalRange(fs) == (0, -1)
    ensures (forall i :: 0 <= i < |fs| ==> IntMin < fs[i] < IntMax) && fs != [] ==>
      && FinalRange(fs).0 in fs && FinalRange(fs).1 in fs
      && forall i :: 0 <= i < |fs| ==> FinalRange(fs).0 <= fs[i] <= FinalRange(fs).1
  {
    LowBounds(fs);
    HighBounds(fs);
    if fs != [] && forall i :: 0 <= i < |fs| ==> IntMin < fs[i] < IntMax {
      assert Low(fs) <= fs[0] < IntMax;
      assert High(fs) >= fs[0] > IntMin;
    }
  }

  // ----------------------------------------------------------------------
  // Neighbour frames

  /** `p` is the frame before `f` among `ks`, or `int.MinValue` when `f` is
      the first. */
  predicate IsPrev(ks: set<int>, f: int, p: int)
  {
    || (p == IntMin && forall k :: k in ks ==> k >= f)
    || (p in ks && p < f && forall k :: k in ks && k < f ==> k <= p)
  }

  /** `n` is the frame after `f` among `ks`, or `int.MinValue` when `f` is
      the last. */
  predicate IsNext(ks: set<int>, f: int, n: int)
  {
    || (n == IntMin && forall k :: k in ks ==> k <= f)
    || (n in ks && n > f && forall k :: k in ks && k > f ==> k >= n)
  }

  predicate Ascending(fs: seq<int>)
  {
    forall i, j :: 0 <= i < j < |fs| ==> fs[i] < fs[j]
  }

  /** Sorting distinct keys gives them strictly ascending. */
  lemma SortedDistinct(keys: seq<int>, fs: seq<int>)
    requires Distinct(keys) && SortedBy(fs, (k: int) => k as real) && multiset(fs) == multiset(keys)
    ensures Ascending(fs) && |fs| == |keys|
    ensures forall f :: f in fs <==> f in keys
  {
    assert |fs| == |multiset(fs)| == |multiset(keys)| == |keys|;
    forall f ensures f in fs <==> f in keys {
      assert f in fs <==> f in multiset(fs);
      assert f in keys <==> f in multiset(keys);
    }
    forall i, j | 0 <= i < j < |fs| ensures fs[i] < fs[j] {
      if fs[i] == fs[j] {
        assert multiset(fs)[fs[i]] >= 2 by {
          var x := fs[i];
          assert fs == fs[..i] + [fs[i]] + fs[i + 1..j] + [fs[j]] + fs[j + 1..];
          assert multiset(fs) == multiset(fs[..i]) + multiset{x} + multiset(fs[i + 1..j]) + multiset{x} + multiset(fs[j + 1..]);
        }
        DistinctOnce(keys, fs[i]);
        assert false;
      }
    }
  }

  /** A distinct sequence holds each value at most once. */
  lemma {:induction false} DistinctOnce(s: seq<int>, x: int)
    requires Distinct(s)
    ensures multiset(s)[x] <= 1
  {
    if s != [] {
      var n := |s| - 1;
      assert s == s[..n] + [s[n]];
      assert Distinct(s[..n]);
      DistinctOnce(s[..n], x);
      if s[n] == x {
        assert x !in s[..n];
        assert multiset(s[..n])[x] == 0;
      }
    }
  }

  /** In an ascending list, the neighbours of entry `j` are the entries
      beside it. */
  lemma SortedNeighbors(fs: seq<int>, j: int)
    requires Ascending(fs) && 0 <= j < |fs|
    ensures IsPrev((set k | k in fs), fs[j], PrevAt(fs, j))
    ensures IsNext((set k | k in fs), fs[j], NextAt(fs, j))
  {
    var ks := set k | k in fs;
    forall k | k in ks ensures (j == 0 ==> k >= fs[j]) && (j > 0 && k < fs[j] ==> k <= fs[j - 1]) {
      var i :| 0 <= i < |fs| && fs[i] == k;
      if i > j { assert fs[j] < fs[i]; }
    }
    forall k | k in ks ensures (j + 1 == |fs| ==> k <= fs[j]) && (j + 1 < |fs| && k > fs[j] ==> k >= fs[j + 1]) {
      var i :| 0 <= i < |fs| && fs[i] == k;
      if i < j { assert fs[i] < fs[j]; }
    }
  }

  /** The neighbour maps of a track. */
  datatype Neighbors = Neighbors(prev: map<int, int>, next: map<int, int>)

  predicate NeighborsOf(m: FrameMap, nb: Neighbors)
  {
    && nb.prev.Keys == m.pos.Keys && nb.next.Keys == m.pos.Keys
    && (forall f :: f in nb.prev ==> IsPrev(m.pos.Keys, f, nb.prev[f]))
    && (forall f :: f in nb.next ==> IsNext(m.pos.Keys, f, nb.next[f]))
  }

  /** `BuildNeighborMaps`: over the frames in ascending order, each frame's
      predecessor and successor, `int.MinValue` at the ends. */
  method BuildNeighborMaps(m: FrameMap) returns (nb: Neighbors)
    requires FrameMapOk(m)
    ensures NeighborsOf(m, nb)
  {
    var frames := SortBy(m.keys, (k: int) => k as real);
    SortByPermutes(m.keys, (k: int) => k as real);
    SortedDistinct(m.keys, frames);
    nb := NeighborLoop(frames);
    NeighborsOfSorted(m, frames, nb);
  }

  /** The entries beside entry `j`, or `int.MinValue` at the ends. */
  function PrevAt(frames: seq<int>, j: int): int
    requires 0 <= j < |frames|
  {
    if j > 0 then frames[j - 1] else IntMin
  }

  function NextAt(frames: seq<int>, j: int): int
    requires 0 <= j < |frames|
  {
    if j + 1 < |frames| then frames[j + 1] else IntMin
  }

  /** Neighbour maps built over the sorted keys are the track's neighbours. */
  lemma NeighborsOfSorted(m: FrameMap, frames: seq<int>, nb: Neighbors)
    requires FrameMapOk(m) && Ascending(frames) && forall f :: f in frames <==> f in m.keys
    requires forall f :: f in nb.prev ==> f in frames
    requires forall f :: f in nb.next ==> f in frames
    requires forall j :: 0 <= j < |frames| ==> frames[j] in nb.prev && frames[j] in nb.next
    requires forall j {:trigger nb.prev[frames[j]]} :: 0 <= j < |frames| ==> nb.prev[frames[j]] == PrevAt(frames, j)
    requires forall j {:trigger nb.next[frames[j]]} :: 0 <= j < |frames| ==> nb.next[frames[j]] == NextAt(frames, j)
    ensures NeighborsOf(m, nb)
  {
    var ks := set k | k in frames;
    assert ks == m.pos.Keys by {
      forall f ensures f in frames <==> f in m.pos {
        assert f in m.keys <==> f in m.pos;
      }
    }
    NeighborKeys(ks, frames, nb);
    forall f | f in nb.prev ensures IsPrev(ks, f, nb.prev[f]) && IsNext(ks, f, nb.next[f]) {
      var j :| 0 <= j < |frames| && frames[j] == f;
      SortedNeighbors(frames, j);
      assert nb.prev[frames[j]] == PrevAt(frames, j) && nb.next[frames[j]] == NextAt(frames, j);
    }
  }

  lemma NeighborKeys(ks: set<int>, frames: seq<int>, nb: Neighbors)
    requires ks == set k | k in frames
    requires forall f :: f in nb.prev ==> f in frames
    requires forall f :: f in nb.next ==> f in frames
    requires forall j :: 0 <= j < |frames| ==> frames[j] in nb.prev && frames[j] in nb.next
    ensures nb.prev.Keys == ks && nb.next.Keys == ks
  {
    forall f | f in ks ensures f in nb.prev && f in nb.next {
      var j :| 0 <= j < |frames| && frames[j] == f;
    }
    forall f | f in nb.prev || f in nb.next ensures f in ks {
    }
  }

  /** The loop of `BuildNeighborMaps` over the ascending frames. */
  method NeighborLoop(frames: seq<int>) returns (nb: Neighbors)
    requires Ascending(frames)
    ensures forall f :: f in nb.prev ==> f in frames
    ensures forall f :: f in nb.next ==> f in frames
    ensures forall j :: 0 <= j < |frames| ==> frames[j] in nb.prev && frames[j] in nb.next
    ensures forall j {:trigger nb.prev[frames[j]]} :: 0 <= j < |frames| ==> nb.prev[frames[j]] == PrevAt(frames, j)
    ensures forall j {:trigger nb.next[frames[j]]} :: 0 <= j < |frames| ==> nb.next[frames[j]] == NextAt(frames, j)
  {
    var prev: map<int, int> := map[];
    var next: map<int, int> := map[];
    var i := 0;
    while i < |frames|
      invariant 0 <= i <= |frames|
      invariant prev.Keys == next.Keys
      invariant forall f :: f in prev ==> f in frames
      invariant i < |frames| ==> forall f :: f in prev ==> f < frames[i]
      invariant forall j :: 0 <= j < i ==> frames[j] in prev
      invariant forall j {:trigger prev[frames[j]]} :: 0 <= j < i ==> prev[frames[j]] == PrevAt(frames, j)
      invariant forall j {:trigger next[frames[j]]} :: 0 <= j < i ==> next[frames[j]] == NextAt(frames, j)
    {
      var gf := frames[i];
      assert i + 1 < |frames| ==> gf < frames[i + 1];
      prev := prev[gf := PrevAt(frames, i)];
      next := next[gf := NextAt(frames, i)];
      i := i + 1;
    }
    nb := Neighbors(prev, next);
  }

  /** `GetDirectionAtFrame`: toward the next frame's position if there is
      one, else away from the previous one, else zero. */
  function DirectionAt(c: ReplayConfig, m: FrameMap, nb: Neighbors, gf: int, p: Vec3): Vec3
  {
    if gf in nb.next && nb.next[gf] != IntMin && nb.next[gf] in m.pos then Normalized(c.geometry, Sub(m.pos[nb.next[gf]], p))
    else if gf in nb.prev && nb.prev[gf] != IntMin && nb.prev[gf] in m.pos then Normalized(c.geometry, Sub(p, m.pos[nb.prev[gf]]))
    else Zero3
  }

  /** With neighbour maps as built and no frame equal to the sentinel, the
      direction at a stored frame looks at the next stored frame when there
      is a later one, else at the previous one when there is an earlier one,
      else it is zero. */
  lemma DirectionRule(c: ReplayConfig, m: FrameMap, nb: Neighbors, gf: int)
    requires NeighborsOf(m, nb) && gf in m.pos && IntMin !in m.pos
    ensures var p := m.pos[gf];
      && ((exists k :: k in m.pos && k > gf) ==>
            nb.next[gf] > gf && DirectionAt(c, m, nb, gf, p) == Normalized(c.geometry, Sub(m.pos[nb.next[gf]], p)))
      && ((forall k :: k in m.pos ==> k <= gf) && (exists k :: k in m.pos && k < gf) ==>
            nb.prev[gf] < gf && DirectionAt(c, m, nb, gf, p) == Normalized(c.geometry, Sub(p, m.pos[nb.prev[gf]])))
      && ((forall k :: k in m.pos ==> k == gf) ==> DirectionAt(c, m, nb, gf, p) == Zero3)
  {
  }

  // ----------------------------------------------------------------------
  // Tracks

  /** The nearest object of one category: distance -1 and no name when
      there is none within its near radius. */
  datatype Nearest = Nearest(dist: real, name: string)

  const NoNearest: Nearest := Nearest(-1.0, "")

  datatype NearInfo = NearInfo(agent: Nearest, building: Nearest, obstacle: Nearest, vehicle: Nearest)

  const NoNear: NearInfo := NearInfo(NoNearest, NoNearest, NoNearest, NoNearest)

  datatype Category = AgentCat | BuildingCat | ObstacleCat | VehicleCat

  /** What the debug label shows: nothing, the list of categories with a
      near object (distance mode), or one category marked HIT or NEAR. The
      label's text, colour and number formatting are not modelled. */
  datatype DebugLabel = NoLabel | DistanceLines(cats: seq<Category>) | Mark(cat: Category, hit: bool)

  /** An `AgentTrack`. */
  datatype Track = Track(name: string, frames: FrameMap, neighbors: Neighbors, active: bool,
                         position: Vec3, near: NearInfo, debugLabel: DebugLabel)

  predicate TrackOk(t: Track)
  {
    FrameMapOk(t.frames) && NeighborsOf(t.frames, t.neighbors)
  }

  /** The tracks `LoadAll` keeps: those of the files read without an
      exception, each inactive at the origin. */
  ghost predicate LoadedTracks(c: ReplayConfig, files: seq<ChunkFile>, ts: seq<Track>)
  {
    exists ks: seq<nat> :: LoadedFrom(c, files, ts, ks)
  }

  /** `ts` are the tracks of the files at the ascending positions `ks`. */
  ghost predicate LoadedFrom(c: ReplayConfig, files: seq<ChunkFile>, ts: seq<Track>, ks: seq<nat>)
  {
      && |ks| == |ts|
      && (forall i, j :: 0 <= i < j < |ks| ==> ks[i] < ks[j])
      && (forall i :: 0 <= i < |ks| ==> ks[i] < |files| && files[ks[i]].readOk)
      && (forall k :: 0 <= k < |files| && files[k].readOk ==> k in ks)
      && forall i :: 0 <= i < |ks| ==> ts[i].name == files[ks[i]].name && ts[i].frames == TrackOf(c, files[ks[i]].lines)
                                       && TrackOk(ts[i]) && !ts[i].active && ts[i].position == Zero3
                                       && ts[i].near == NoNear && ts[i].debugLabel == NoLabel
  }

  /** After `k` files: the tracks of the readable ones among them. */
  ghost predicate LoadedUpTo(c: ReplayConfig, files: seq<ChunkFile>, k: nat, ts: seq<Track>, ks: seq<nat>)
  {
    && k <= |files|
    && |ks| == |ts|
    && (forall i, j :: 0 <= i < j < |ks| ==> ks[i] < ks[j])
    && (forall i :: 0 <= i < |ks| ==> ks[i] < k && files[ks[i]].readOk)
    && (forall j :: 0 <= j < k && files[j].readOk ==> j in ks)
    && forall i :: 0 <= i < |ks| ==> ts[i].name == files[ks[i]].name && ts[i].frames == TrackOf(c, files[ks[i]].lines)
                                     && TrackOk(ts[i]) && !ts[i].active && ts[i].position == Zero3
                                     && ts[i].near == NoNear && ts[i].debugLabel == NoLabel
  }

  /** The track `LoadAll` makes of file `k`. */
  predicate FreshTrack(c: ReplayConfig, f: ChunkFile, t: Track)
  {
    t.name == f.name && t.frames == TrackOf(c, f.lines) && TrackOk(t) && !t.active && t.position == Zero3
    && t.near == NoNear && t.debugLabel == NoLabel
  }

  lemma LoadedStep(c: ReplayConfig, files: seq<ChunkFile>, k: nat, ts: seq<Track>, ks: seq<nat>, t: Track)
    requires k < |files| && LoadedUpTo(c, files, k, ts, ks)
    ensures files[k].readOk && FreshTrack(c, files[k], t) ==> LoadedUpTo(c, files, k + 1, ts + [t], ks + [k])
    ensures !files[k].readOk ==> LoadedUpTo(c, files, k + 1, ts, ks)
  {
  }

  lemma LoadedAll(c: ReplayConfig, files: seq<ChunkFile>, ts: seq<Track>, ks: seq<nat>)
    requires LoadedUpTo(c, files, |files|, ts, ks)
    ensures LoadedTracks(c, files, ts)
  {
    assert LoadedFrom(c, files, ts, ks);
  }

  // ----------------------------------------------------------------------
  // A frame

  /** A collider returned by the overlap query: its name, whether it is the
      querying agent or one of its children, the agent owning it (an index
      into the tracks) if any, its chain of (name, tag) from itself to the
      root, and its closest-point distance. */
  datatype Node = Node(name: string, tag: string)
  datatype Collider = Collider(name: string, isSelf: bool, owner: Option<int>, chain: seq<Node>, closest: real)

  /** The overlap buffer holds 512 colliders. */
  const OverlapCapacity: nat := 512

  predicate HasTag(chain: seq<Node>, tag: string)
  {
    exists i :: 0 <= i < |chain| && chain[i].tag == tag
  }

  /** `GetTaggedRootName`: the name of the topmost node with the tag, or "". */
  function TaggedRootName(chain: seq<Node>, tag: string): (r: string)
    ensures (exists i :: 0 <= i < |chain| && chain[i].tag == tag && chain[i].name == r
                         && forall j :: i < j < |chain| ==> chain[j].tag != tag) || (r == "" && !HasTag(chain, tag))
  {
    if chain == [] then ""
    else if chain[|chain| - 1].tag == tag then chain[|chain| - 1].name
    else
      var r := TaggedRootName(chain[..|chain| - 1], tag);
      assert forall i :: 0 <= i < |chain| - 1 ==> chain[..|chain| - 1][i] == chain[i];
      r
  }

  function TagOf(c: ReplayConfig, cat: Category): string
  {
    match cat
    case AgentCat => ""
    case BuildingCat => c.tagBuilding
    case ObstacleCat => c.tagObstacle
    case VehicleCat => c.tagVehicle
  }

  function NearRadius(r: Radii, cat: Category): real
  {
    match cat
    case AgentCat => r.nearAgent
    case BuildingCat => r.nearBuilding
    case ObstacleCat => r.nearObstacle
    case VehicleCat => r.nearVehicle
  }

  function HitRadius(r: Radii, cat: Category): real
  {
    match cat
    case AgentCat => r.hitAgent
    case BuildingCat => r.hitBuilding
    case ObstacleCat => r.hitObstacle
    case VehicleCat => r.hitVehicle
  }

  function ModeOn(m: Modes, cat: Category): bool
  {
    match cat
    case AgentCat => m.agentOnly
    case BuildingCat => m.buildingOnly
    case ObstacleCat => m.obstacleOnly
    case VehicleCat => m.vehicleOnly
  }

  /** Distance mode computes every category; otherwise only the switched-on
      ones. */
  function Calc(m: Modes, cat: Category): bool { m.distanceOnly || ModeOn(m, cat) }

  /** What collider `col` offers as a candidate of `cat` to agent `i`:
      another agent at its centre distance, or a tagged object at its
      closest-point distance named after its topmost tagged node. The agent
      itself and its children are never candidates. */
  function Candidate(c: ReplayConfig, ts: seq<Track>, i: nat, col: Collider, cat: Category): Option<Nearest>
    requires i < |ts|
  {
    if col.isSelf then None
    else if cat == AgentCat then
      if col.owner.Some? && 0 <= col.owner.value < |ts| && col.owner.value != i
      then Some(Nearest(Distance(c.geometry, ts[i].position, ts[col.owner.value].position), ts[col.owner.value].name))
      else None
    else if HasTag(col.chain, TagOf(c, cat)) then
      var root := TaggedRootName(col.chain, TagOf(c, cat));
      Some(Nearest(col.closest, if root == "" then col.name else root))
    else None
  }

  /** The running best (strictly smaller wins, so the first minimum stays). */
  function Best(c: ReplayConfig, ts: seq<Track>, i: nat, cols: seq<Collider>, cat: Category): Option<Nearest>
    requires i < |ts|
  {
    if cols == [] then None
    else
      var b := Best(c, ts, i, cols[..|cols| - 1], cat);
      var d := Candidate(c, ts, i, cols[|cols| - 1], cat);
      if d.Some? && (b.None? || d.value.dist < b.value.dist) then d else b
  }

  /** The scan over the buffered colliders, the strictly closer candidate
      replacing the best. */
  method BestLoop(c: ReplayConfig, ts: seq<Track>, i: nat, buf: seq<Collider>, cat: Category) returns (best: Option<Nearest>)
    requires i < |ts|
    ensures best == Best(c, ts, i, buf, cat)
  {
    best := None;
    var k := 0;
    while k < |buf|
      invariant 0 <= k <= |buf|
      invariant best == Best(c, ts, i, buf[..k], cat)
    {
      ghost var next := buf[..k + 1];
      assert next[..k] == buf[..k] && next[k] == buf[k];
      var d := Candidate(c, ts, i, buf[k], cat);
      if d.Some? && (best.None? || d.value.dist < best.value.dist) {
        best := d;
      }
      assert best == Best(c, ts, i, next, cat);
      k := k + 1;
    }
    assert buf[..k] == buf;
  }

  /** There is a best candidate iff some collider is a candidate. */
  lemma {:induction false} BestNoneIff(c: ReplayConfig, ts: seq<Track>, i: nat, cols: seq<Collider>, cat: Category)
    requires i < |ts|
    ensures Best(c, ts, i, cols, cat).None? <==> forall k :: 0 <= k < |cols| ==> Candidate(c, ts, i, cols[k], cat).None?
  {
    if cols != [] {
      var n := |cols| - 1;
      BestNoneIff(c, ts, i, cols[..n], cat);
      assert forall k :: 0 <= k < n ==> cols[..n][k] == cols[k];
    }
  }

  /** No candidate is closer than the best one. */
  lemma {:induction false} BestIsMinimum(c: ReplayConfig, ts: seq<Track>, i: nat, cols: seq<Collider>, cat: Category)
    requires i < |ts|
    ensures var b := Best(c, ts, i, cols, cat);
      b.Some? ==> forall k :: 0 <= k < |cols| && Candidate(c, ts, i, cols[k], cat).Some? ==> b.value.dist <= Candidate(c, ts, i, cols[k], cat).value.dist
  {
    if cols != [] {
      var n := |cols| - 1;
      BestIsMinimum(c, ts, i, cols[..n], cat);
      BestNoneIff(c, ts, i, cols[..n], cat);
      assert forall k :: 0 <= k < n ==> cols[..n][k] == cols[k];
    }
  }

  /** The best candidate is one of the colliders', and every collider
      before it is farther. */
  lemma {:induction false} BestIsFirst(c: ReplayConfig, ts: seq<Track>, i: nat, cols: seq<Collider>, cat: Category)
    requires i < |ts|
    ensures var b := Best(c, ts, i, cols, cat);
      b.Some? ==> exists k :: 0 <= k < |cols| && Candidate(c, ts, i, cols[k], cat) == b
                    && (forall j :: 0 <= j < k && Candidate(c, ts, i, cols[j], cat).Some? ==> Candidate(c, ts, i, cols[j], cat).value.dist > b.value.dist)
  {
    if cols != [] {
      var n := |cols| - 1;
      var b0 := Best(c, ts, i, cols[..n], cat);
      var d := Candidate(c, ts, i, cols[n], cat);
      BestIsFirst(c, ts, i, cols[..n], cat);
      assert forall k :: 0 <= k < n ==> cols[..n][k] == cols[k];
      if d.Some? && (b0.None? || d.value.dist < b0.value.dist) {
        BestNoneIff(c, ts, i, cols[..n], cat);
        BestIsMinimum(c, ts, i, cols[..n], cat);
        assert Candidate(c, ts, i, cols[n], cat) == Best(c, ts, i, cols, cat);
      } else if b0.Some? {
        var k :| 0 <= k < n && Candidate(c, ts, i, cols[..n][k], cat) == b0
                 && (forall j :: 0 <= j < k && Candidate(c, ts, i, cols[..n][j], cat).Some? ==> Candidate(c, ts, i, cols[..n][j], cat).value.dist > b0.value.dist);
        assert Candidate(c, ts, i, cols[k], cat) == Best(c, ts, i, cols, cat);
      }
    }
  }

  /** The best candidate is the first one of least distance; there is one
      iff some collider is a candidate. */
  lemma BestIsFirstMinimum(c: ReplayConfig, ts: seq<Track>, i: nat, cols: seq<Collider>, cat: Category)
    requires i < |ts|
    ensures var b := Best(c, ts, i, cols, cat);
      && (b.None? <==> forall k :: 0 <= k < |cols| ==> Candidate(c, ts, i, cols[k], cat).None?)
      && (b.Some? ==> exists k :: 0 <= k < |cols| && Candidate(c, ts, i, cols[k], cat) == b
                        && (forall j :: 0 <= j < k && Candidate(c, ts, i, cols[j], cat).Some? ==> Candidate(c, ts, i, cols[j], cat).value.dist > b.value.dist))
      && (b.Some? ==> forall k :: 0 <= k < |cols| && Candidate(c, ts, i, cols[k], cat).Some? ==> b.value.dist <= Candidate(c, ts, i, cols[k], cat).value.dist)
  {
    BestNoneIff(c, ts, i, cols, cat);
    BestIsFirst(c, ts, i, cols, cat);
    BestIsMinimum(c, ts, i, cols, cat);
  }


  /** The near filter: the best candidate among the first 512 colliders,
      kept only within the category's near radius; -1 otherwise, and for a
      category the mode does not compute. */
  function NearOf(c: ReplayConfig, ts: seq<Track>, i: nat, cols: seq<Collider>, cat: Category): Nearest
    requires i < |ts|
  {
    var b := Best(c, ts, i, cols[..MinI(|cols|, OverlapCapacity)], cat);
    if Calc(c.modes, cat) && b.Some? && b.value.dist <= NearRadius(c.radii, cat) then b.value else NoNearest
  }

  /** A category's nearest distance is -1 unless the mode computes it and
      the best of the buffered candidates lies within its near radius; it
      is then that candidate's, and no buffered candidate is closer. */
  lemma NearFilter(c: ReplayConfig, ts: seq<Track>, i: nat, cols: seq<Collider>, cat: Category)
    requires i < |ts|
    ensures var n := NearOf(c, ts, i, cols, cat);
      var buf := cols[..MinI(|cols|, OverlapCapacity)];
      && (n != NoNearest ==> Calc(c.modes, cat))
      && (n.dist != -1.0 ==> exists k :: 0 <= k < |buf| && Candidate(c, ts, i, buf[k], cat) == Some(n) && n.dist <= NearRadius(c.radii, cat))
      && (n.dist != -1.0 ==> forall k :: 0 <= k < |buf| && Candidate(c, ts, i, buf[k], cat).Some? ==> n.dist <= Candidate(c, ts, i, buf[k], cat).value.dist)
      && ((forall k :: 0 <= k < |buf| ==> Candidate(c, ts, i, buf[k], cat).None?) ==> n == NoNearest)
  {
    BestIsFirstMinimum(c, ts, i, cols[..MinI(|cols|, OverlapCapacity)], cat);
  }

  function NearInfoOf(c: ReplayConfig, ts: seq<Track>, i: nat, cols: seq<Collider>): NearInfo
    requires i < |ts|
  {
    NearInfo(NearOf(c, ts, i, cols, AgentCat), NearOf(c, ts, i, cols, BuildingCat),
             NearOf(c, ts, i, cols, ObstacleCat), NearOf(c, ts, i, cols, VehicleCat))
  }

  function NearestOf(n: NearInfo, cat: Category): Nearest
  {
    match cat
    case AgentCat => n.agent
    case BuildingCat => n.building
    case ObstacleCat => n.obstacle
    case VehicleCat => n.vehicle
  }

  function Shown(n: NearInfo, cat: Category): seq<Category>
  {
    if NearestOf(n, cat).dist >= 0.0 then [cat] else []
  }

  /** The label: in distance mode the categories with a near object, in
      the fixed order agent, building, obstacle, vehicle; otherwise the
      switched-on categories are tried in that same order and the last with
      a near object sets the label. */
  function LabelOf(m: Modes, r: Radii, n: NearInfo): DebugLabel
  {
    if m.distanceOnly then
      var cats := Shown(n, AgentCat) + Shown(n, BuildingCat) + Shown(n, ObstacleCat) + Shown(n, VehicleCat);
      if cats == [] then NoLabel else DistanceLines(cats)
    else
      var l0 := NoLabel;
      var l1 := if ModeOn(m, AgentCat) && n.agent.dist >= 0.0 then Mark(AgentCat, n.agent.dist <= r.hitAgent) else l0;
      var l2 := if ModeOn(m, BuildingCat) && n.building.dist >= 0.0 then Mark(BuildingCat, n.building.dist <= r.hitBuilding) else l1;
      var l3 := if ModeOn(m, ObstacleCat) && n.obstacle.dist >= 0.0 then Mark(ObstacleCat, n.obstacle.dist <= r.hitObstacle) else l2;
      if ModeOn(m, VehicleCat) && n.vehicle.dist >= 0.0 then Mark(VehicleCat, n.vehicle.dist <= r.hitVehicle) else l3
  }

  /** Outside distance mode a label marks a switched-on category that has a
      near object, HIT exactly within its hit radius, and no later
      switched-on category has one; there is no label iff no switched-on
      category has a near object. */
  lemma LabelMeaning(m: Modes, r: Radii, n: NearInfo)
    requires !m.distanceOnly
    ensures var l := LabelOf(m, r, n);
      && (l == NoLabel <==> forall cat :: !(ModeOn(m, cat) && NearestOf(n, cat).dist >= 0.0))
      && (l.Mark? ==>
            ModeOn(m, l.cat) && NearestOf(n, l.cat).dist >= 0.0 && l.hit == (NearestOf(n, l.cat).dist <= HitRadius(r, l.cat)))
      && !l.DistanceLines?
  {
    var l := LabelOf(m, r, n);
    if forall cat :: !(ModeOn(m, cat) && NearestOf(n, cat).dist >= 0.0) {
      assert !(ModeOn(m, AgentCat) && n.agent.dist >= 0.0);
      assert !(ModeOn(m, BuildingCat) && n.building.dist >= 0.0);
      assert !(ModeOn(m, ObstacleCat) && n.obstacle.dist >= 0.0);
      assert !(ModeOn(m, VehicleCat) && n.vehicle.dist >= 0.0);
    }
  }

  /** The pose part of `ApplyGlobalFrame` for one track: shown at its
      stored position when it holds the frame, hidden with its label
      cleared otherwise. */
  function Posed(t: Track, gf: int): (r: Track)
  {
    if gf in t.frames.pos then t.(active := true, position := t.frames.pos[gf])
    else t.(active := false, debugLabel := NoLabel)
  }

  function PoseAll(ts: seq<Track>, gf: int): (r: seq<Track>)
    ensures |r| == |ts|
  {
    seq(|ts|, i requires 0 <= i < |ts| => Posed(ts[i], gf))
  }

  /** `UpdateDebugInfo` for one track: an active track gets its near
      objects from its overlap candidates and its label from them. */
  function Debugged(c: ReplayConfig, ts: seq<Track>, i: nat, cols: seq<Collider>): Track
    requires i < |ts|
  {
    if !ts[i].active then ts[i]
    else
      var n := NearInfoOf(c, ts, i, cols);
      ts[i].(near := n, debugLabel := LabelOf(c.modes, c.radii, n))
  }

  /** The overlap candidates of track `i` (none when not given). */
  function OverlapOf(overlaps: seq<seq<Collider>>, i: nat): seq<Collider>
  {
    if i < |overlaps| then overlaps[i] else []
  }

  function DebugAll(c: ReplayConfig, ts: seq<Track>, overlaps: seq<seq<Collider>>): (r: seq<Track>)
    ensures |r| == |ts|
  {
    seq(|ts|, i requires 0 <= i < |ts| => Debugged(c, ts, i, OverlapOf(overlaps, i)))
  }

  /** `ApplyGlobalFrame`. */
  function ApplyFrame(c: ReplayConfig, ts: seq<Track>, gf: int, overlaps: seq<seq<Collider>>): (r: seq<Track>)
    ensures |r| == |ts|
  {
    var posed := PoseAll(ts, gf);
    if c.debugEnabled then DebugAll(c, posed, overlaps) else posed
  }

  /** After a frame, a track is active iff it holds that frame, and then
      sits at its stored position; an inactive track shows no label; the
      loaded data and the neighbour maps never change. */
  lemma ApplyFrameActivation(c: ReplayConfig, ts: seq<Track>, gf: int, overlaps: seq<seq<Collider>>, i: nat)
    requires i < |ts|
    ensures var t := ApplyFrame(c, ts, gf, overlaps)[i];
      && (t.active <==> gf in ts[i].frames.pos)
      && (t.active ==> t.position == ts[i].frames.pos[gf])
      && (!t.active ==> t.debugLabel == NoLabel && t.position == ts[i].position)
      && t.frames == ts[i].frames && t.neighbors == ts[i].neighbors && t.name == ts[i].name
  {
  }

  /** With debugging on, an active track's near objects are exactly the near
      filter of its candidates against the posed tracks; with debugging off
      they are kept. */
  lemma ApplyFrameNear(c: ReplayConfig, ts: seq<Track>, gf: int, overlaps: seq<seq<Collider>>, i: nat)
    requires i < |ts|
    ensures var t := ApplyFrame(c, ts, gf, overlaps)[i];
      && (c.debugEnabled && t.active ==> t.near == NearInfoOf(c, PoseAll(ts, gf), i, OverlapOf(overlaps, i))
                                          && t.debugLabel == LabelOf(c.modes, c.radii, t.near))
      && (!c.debugEnabled || !t.active ==> t.near == ts[i].near)
  {
  }

  /** `CoPlayGlobalFrames` from `lo` to `hi`. */
  function PlayFrames(c: ReplayConfig, ts: seq<Track>, lo: int, hi: int, physics: int -> seq<seq<Collider>>): (r: seq<Track>)
    ensures |r| == |ts|
    decreases hi - lo + 1
  {
    if lo > hi then ts else ApplyFrame(c, PlayFrames(c, ts, lo, hi - 1, physics), hi, physics(hi))
  }


  /** The running range after one more file. */
  lemma RangeStep(files: seq<ChunkFile>, k: nat)
    requires k < |files|
    ensures Low(AllFrames(files[..k])) <= IntMax && High(AllFrames(files[..k])) >= IntMin
    ensures Low(AllFrames(files[..k + 1])) == MinI(Low(AllFrames(files[..k])), Low(LineFrames(files[k].lines)))
    ensures High(AllFrames(files[..k + 1])) == MaxI(High(AllFrames(files[..k])), High(LineFrames(files[k].lines)))
  {
    LowBounds(AllFrames(files[..k]));
    HighBounds(AllFrames(files[..k]));
    assert files[..k + 1][..k] == files[..k];
    assert AllFrames(files[..k + 1]) == AllFrames(files[..k]) + LineFrames(files[k].lines);
    LowAppend(AllFrames(files[..k]), LineFrames(files[k].lines));
    HighAppend(AllFrames(files[..k]), LineFrames(files[k].lines));
  }

  // ----------------------------------------------------------------------
  // The play loop's counter as written

  /** `gf++` on the C# `int` counter of `CoPlayGlobalFrames`. */
  function Step32(gf: int): (r: int)
    ensures IsInt32(r)
    ensures IsInt32(gf) && gf < IntMax ==> r == gf + 1
  {
    Wrap32(gf + 1)
  }

  /** The counter after `n` increments from `lo`. */
  function Stepped32(lo: int, n: nat): int
  {
    if n == 0 then lo else Step32(Stepped32(lo, n - 1))
  }

  /** As written, a maximum of `int.MaxValue` never ends the play loop:
      `int.MaxValue` steps on to `int.MinValue`, and every value the counter
      reaches still passes the test `gf <= _globalMax`. */
  lemma CoPlayEndlessAtIntMax(lo: int, n: nat)
    requires IsInt32(lo)
    ensures Step32(IntMax) == IntMin
    ensures IsInt32(Stepped32(lo, n)) && Stepped32(lo, n) <= IntMax
  {
  }

  // ----------------------------------------------------------------------
  // The component

  class ReplayManager {
    const cfg: ReplayConfig
    var radii: Radii
    var queryRadius: real
    var agents: seq<Track>
    var globalMin: int
    var globalMax: int
    var currentGlobalFrame: int

    /** The settings as the replay uses them: `radii` is the field, which
        `OnValidate` clamps, not the value the component was created with. */
    function Live(): ReplayConfig
      reads this
    {
      cfg.(radii := radii)
    }

    predicate Valid()
      reads this
    {
      forall i :: 0 <= i < |agents| ==> TrackOk(agents[i])
    }

    constructor(c: ReplayConfig)
      ensures cfg == c && radii == c.radii && agents == [] && globalMin == IntMax && globalMax == IntMin
      ensures currentGlobalFrame == 0 && Valid()
    {
      cfg := c;
      radii := c.radii;
      queryRadius := 6.0;
      agents := [];
      globalMin := IntMax;
      globalMax := IntMin;
      currentGlobalFrame := 0;
    }

    /** `OnValidate`. */
    method OnValidate()
      modifies this
      ensures radii == Validated(old(radii)) && queryRadius == QueryRadius(radii)
      ensures agents == old(agents) && globalMin == old(globalMin) && globalMax == old(globalMax)
      ensures currentGlobalFrame == old(currentGlobalFrame)
    {
      radii := Validated(radii);
      queryRadius := QueryRadius(radii);
    }

    /** `LoadAll`: a missing folder or an empty one leaves no tracks and the
        range at its start values; otherwise one track per file read
        without an exception, and the range of every frame read. */
    method LoadAll(folderExists: bool, files: seq<ChunkFile>)
      modifies this
      ensures !folderExists || files == [] ==> agents == [] && globalMin == IntMax && globalMax == IntMin
      ensures folderExists && files != [] ==> LoadedTracks(cfg, files, agents) && (globalMin, globalMax) == FinalRange(AllFrames(files))
      ensures radii == old(radii) && queryRadius == old(queryRadius) && currentGlobalFrame == old(currentGlobalFrame)
      ensures Valid()
    {
      agents := [];
      globalMin := IntMax;
      globalMax := IntMin;
      if !folderExists || files == [] {
        return;
      }
      var ts, lo, hi := LoadFiles(files);
      agents := ts;
      globalMin := if lo == IntMax then 0 else lo;
      globalMax := if hi == IntMin then -1 else hi;
    }

    /** The file loop: the tracks of the readable files, in order, and the
        running range of every frame listed. */
    method LoadFiles(files: seq<ChunkFile>) returns (ts: seq<Track>, lo: int, hi: int)
      ensures LoadedTracks(cfg, files, ts) && (forall i :: 0 <= i < |ts| ==> TrackOk(ts[i]))
      ensures lo == Low(AllFrames(files)) && hi == High(AllFrames(files))
    {
      ghost var ks: seq<nat> := [];
      ts := [];
      lo, hi := IntMax, IntMin;
      var k := 0;
      while k < |files|
        invariant 0 <= k <= |files|
        invariant lo == Low(AllFrames(files[..k])) && hi == High(AllFrames(files[..k]))
        invariant LoadedUpTo(cfg, files, k, ts, ks)
      {
        RangeStep(files, k);
        var t;
        t, lo, hi := LoadFile(files[k], lo, hi);
        LoadedStep(cfg, files, k, ts, ks, t);
        if files[k].readOk {
          ts := ts + [t];
          ks := ks + [k];
        }
        k := k + 1;
      }
      assert files[..k] == files;
      LoadedAll(cfg, files, ts, ks);
    }

    /** `ApplyGlobalFrame`: the pose loop, then, with debugging on, the
        debug loop, which reads the positions the pose loop set. */
    method ApplyGlobalFrame(gf: int, overlaps: seq<seq<Collider>>)
      requires Valid()
      modifies this
      ensures agents == ApplyFrame(Live(), old(agents), gf, overlaps) && Valid()
      ensures radii == old(radii) && queryRadius == old(queryRadius)
      ensures globalMin == old(globalMin) && globalMax == old(globalMax) && currentGlobalFrame == old(currentGlobalFrame)
    {
      var ts := agents;
      var posed := PoseLoop(ts, gf);
      if !cfg.debugEnabled {
        agents := posed;
        ApplyValid(Live(), ts, gf, overlaps);
        return;
      }
      var shown := DebugLoop(posed, overlaps);
      agents := shown;
      ApplyValid(Live(), ts, gf, overlaps);
    }

    /** The pose loop of `ApplyGlobalFrame`. */
    method PoseLoop(ts: seq<Track>, gf: int) returns (posed: seq<Track>)
      ensures posed == PoseAll(ts, gf)
    {
      posed := [];
      var i := 0;
      while i < |ts|
        invariant 0 <= i <= |ts| && |posed| == i
        invariant forall j :: 0 <= j < i ==> posed[j] == Posed(ts[j], gf)
      {
        posed := posed + [Posed(ts[i], gf)];
        i := i + 1;
      }
    }

    /** The debug loop of `ApplyGlobalFrame`: each shown agent gets its
        nearest objects and its label. */
    method DebugLoop(posed: seq<Track>, overlaps: seq<seq<Collider>>) returns (shown: seq<Track>)
      ensures shown == DebugAll(Live(), posed, overlaps)
    {
      shown := [];
      var i := 0;
      while i < |posed|
        invariant 0 <= i <= |posed| && |shown| == i
        invariant forall j :: 0 <= j < i ==> shown[j] == Debugged(Live(), posed, j, OverlapOf(overlaps, j))
      {
        var t := DebugOne(posed, i, OverlapOf(overlaps, i));
        shown := shown + [t];
        i := i + 1;
      }
    }

    /** `UpdateDebugInfo` for one track. */
    method DebugOne(posed: seq<Track>, i: nat, cols: seq<Collider>) returns (t: Track)
      requires i < |posed|
      ensures t == Debugged(Live(), posed, i, cols)
    {
      t := posed[i];
      if t.active {
        var a := FindNearest(posed, i, cols, AgentCat);
        var b := FindNearest(posed, i, cols, BuildingCat);
        var o := FindNearest(posed, i, cols, ObstacleCat);
        var v := FindNearest(posed, i, cols, VehicleCat);
        var n := NearInfo(a, b, o, v);
        t := t.(near := n, debugLabel := LabelOf(cfg.modes, radii, n));
      }
    }

    lemma ApplyValid(c: ReplayConfig, ts: seq<Track>, gf: int, overlaps: seq<seq<Collider>>)
      requires forall i :: 0 <= i < |ts| ==> TrackOk(ts[i])
      ensures var r := ApplyFrame(c, ts, gf, overlaps); forall i :: 0 <= i < |r| ==> TrackOk(r[i])
    {
      forall i | 0 <= i < |ts| {
        ApplyFrameActivation(c, ts, gf, overlaps, i);
      }
    }

    /** The scan of the overlap buffer for one category: the first 512
        colliders, the strictly closer candidate replacing the best, then
        the near-radius filter. */
    method FindNearest(ts: seq<Track>, i: nat, cols: seq<Collider>, cat: Category) returns (n: Nearest)
      requires i < |ts|
      ensures n == NearOf(Live(), ts, i, cols, cat)
    {
      var count := MinI(|cols|, OverlapCapacity);
      var best := BestLoop(Live(), ts, i, cols[..count], cat);
      if Calc(cfg.modes, cat) && best.Some? && best.value.dist <= NearRadius(radii, cat) {
        n := best.value;
      } else {
        n := NoNearest;
      }
    }

    /** `CoPlayGlobalFrames`: every frame from the minimum to the maximum,
        once, in ascending order; `physics` stands for the overlap queries
        at each frame. */
    method Play(physics: int -> seq<seq<Collider>>) returns (visited: seq<int>)
      requires Valid()
      modifies this
      ensures visited == FrameRange(old(globalMin), old(globalMax))
      ensures agents == PlayFrames(Live(), old(agents), old(globalMin), old(globalMax), physics) && Valid()
      ensures old(globalMin) <= old(globalMax) ==> currentGlobalFrame == old(globalMax)
      ensures old(globalMin) > old(globalMax) ==> currentGlobalFrame == old(currentGlobalFrame)
      ensures radii == old(radii) && queryRadius == old(queryRadius) && globalMin == old(globalMin) && globalMax == old(globalMax)
    {
      visited := [];
      var gf := globalMin;
      while gf <= globalMax
        invariant globalMin == old(globalMin) && globalMax == old(globalMax)
        invariant globalMin <= gf <= globalMax + 1 || (gf == globalMin && globalMin > globalMax)
        invariant visited == FrameRange(globalMin, gf - 1)
        invariant agents == PlayFrames(Live(), old(agents), globalMin, gf - 1, physics) && Valid()
        invariant gf > globalMin ==> currentGlobalFrame == gf - 1
        invariant gf == globalMin ==> currentGlobalFrame == old(currentGlobalFrame)
        invariant radii == old(radii) && queryRadius == old(queryRadius)
        decreases globalMax - gf
      {
        currentGlobalFrame := gf;
        ApplyGlobalFrame(gf, physics(gf));
        visited := visited + [gf];
        gf := gf + 1;
      }
    }

    /** `Start`: the query radius, the load, then the first frame and, when
        set to, the play-through, provided some agent and some frame were
        loaded. */
    method Start(folderExists: bool, files: seq<ChunkFile>, physics: int -> seq<seq<Collider>>) returns (visited: seq<int>)
      modifies this
      ensures queryRadius == QueryRadius(old(radii)) && radii == old(radii)
      ensures !folderExists || files == [] ==> agents == [] && visited == []
      ensures folderExists && files != [] ==> (globalMin, globalMax) == FinalRange(AllFrames(files))
      ensures var go := agents != [] && globalMin <= globalMax;
        && (go ==> currentGlobalFrame == (if cfg.playOnStart then globalMax else globalMin))
        && (go && cfg.playOnStart ==> visited == FrameRange(globalMin, globalMax))
        && (!(go && cfg.playOnStart) ==> visited == [])
      ensures folderExists && files != [] ==> exists ts0 :: (LoadedTracks(cfg, files, ts0) &&
        agents == (if ts0 != [] && globalMin <= globalMax
                   then (if cfg.playOnStart
                         then PlayFrames(Live(), ApplyFrame(Live(), ts0, globalMin, physics(globalMin)), globalMin, globalMax, physics)
                         else ApplyFrame(Live(), ts0, globalMin, physics(globalMin)))
                   else ts0))
      ensures Valid()
    {
      queryRadius := QueryRadius(radii);
      LoadAll(folderExists, files);
      ghost var ts0 := agents;
      visited := [];
      if |agents| > 0 && globalMax >= globalMin {
        currentGlobalFrame := globalMin;
        ApplyGlobalFrame(globalMin, physics(globalMin));
        if cfg.playOnStart {
          visited := Play(physics);
        }
      }
    }

    /** One file: its track (meaningful when the file was read) and the
        running range extended by every frame it lists. */
    method LoadFile(file: ChunkFile, lo0: int, hi0: int) returns (t: Track, lo: int, hi: int)
      requires lo0 <= IntMax && hi0 >= IntMin
      ensures file.readOk ==> FreshTrack(cfg, file, t)
      ensures lo == MinI(lo0, Low(LineFrames(file.lines))) && hi == MaxI(hi0, High(LineFrames(file.lines)))
    {
      var m;
      m, lo, hi := ReadTrack(file.lines, lo0, hi0);
      var nb := Neighbors(map[], map[]);
      if file.readOk {
        nb := BuildNeighborMaps(m);
      }
      t := Track(file.name, m, nb, false, Zero3, NoNear, NoLabel);
    }

    /** The line loop of one file, extending the running range. */
    method ReadTrack(lines: seq<ChunkLine>, lo0: int, hi0: int) returns (m: FrameMap, lo: int, hi: int)
      requires lo0 <= IntMax && hi0 >= IntMin
      ensures m == TrackOf(cfg, lines)
      ensures lo == MinI(lo0, Low(LineFrames(lines))) && hi == MaxI(hi0, High(LineFrames(lines)))
    {
      m := EmptyFrames;
      lo, hi := lo0, hi0;
      var j := 0;
      while j < |lines|
        invariant 0 <= j <= |lines|
        invariant m == TrackOf(cfg, lines[..j])
        invariant lo == MinI(lo0, Low(LineFrames(lines[..j]))) && hi == MaxI(hi0, High(LineFrames(lines[..j])))
      {
        assert lines[..j + 1][..j] == lines[..j];
        LowAppend(LineFrames(lines[..j]), Frames(lines[j]));
        HighAppend(LineFrames(lines[..j]), Frames(lines[j]));
        m, lo, hi := ReadLine(m, lines[j], lo, hi);
        j := j + 1;
      }
      assert lines[..j] == lines;
    }

    /** One line: skipped unless it loads; else every entry stored under its
        frame, in order. */
    method ReadLine(m0: FrameMap, l: ChunkLine, lo0: int, hi0: int) returns (m: FrameMap, lo: int, hi: int)
      requires lo0 <= IntMax && hi0 >= IntMin
      ensures m == PutLine(cfg, m0, l)
      ensures lo == MinI(lo0, Low(Frames(l))) && hi == MaxI(hi0, High(Frames(l)))
    {
      m, lo, hi := m0, lo0, hi0;
      if IsBlank(l.text) || l.record.None? {
        return;
      }
      var r := l.record.value;
      if r.globalFrames.None? || r.localCurrent.None? || |r.globalFrames.value| != |r.localCurrent.value| {
        return;
      }
      m, lo, hi := ReadEntries(m0, l, lo0, hi0);
    }

    /** The entry loop of a line that loads. */
    method ReadEntries(m0: FrameMap, l: ChunkLine, lo0: int, hi0: int) returns (m: FrameMap, lo: int, hi: int)
      requires Loads(l) && lo0 <= IntMax && hi0 >= IntMin
      ensures m == PutRecord(cfg, m0, l, |Frames(l)|)
      ensures lo == MinI(lo0, Low(Frames(l))) && hi == MaxI(hi0, High(Frames(l)))
    {
      var r := l.record.value;
      var fs := r.globalFrames.value;
      assert Frames(l) == fs;
      m, lo, hi := m0, lo0, hi0;
      var i := 0;
      while i < |fs|
        invariant 0 <= i <= |fs|
        invariant m == PutRecord(cfg, m0, l, i)
        invariant lo == MinI(lo0, Low(fs[..i])) && hi == MaxI(hi0, High(fs[..i]))
      {
        assert fs[..i + 1][..i] == fs[..i];
        assert Low(fs[..i + 1]) == MinI(Low(fs[..i]), fs[i]) && High(fs[..i + 1]) == MaxI(High(fs[..i]), fs[i]);
        m := Put(m, fs[i], WorldPos(cfg, r, i));
        lo := MinI(lo, fs[i]);
        hi := MaxI(hi, fs[i]);
        i := i + 1;
      }
      assert fs[..i] == fs;
    }
  }
}

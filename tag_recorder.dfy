/** The anchor tagger component as a whole (`CaseTagRecorder_NoAnchors`):
    what `Start` loads, which scene agents the deferred initialisation
    adopts, and what one `LateUpdate` does to the recorder's state.

    The tick is first given as a function on a `RecorderState` value,
    `Tick`, and its properties are proved as lemmas; the class below keeps
    the same state in fields and its `LateUpdate` is proved to perform
    exactly `Tick`. */
module TagRecorder {
  import opened Base
  import opened Text
  import opened Json
  import opened TagSensing
  import opened TagFrames
  import opened TagLoad
  import opened TagOutput

  // ----------------------------------------------------------------------
  // Runtime agents

  /** A scene transform the initialisation inspects: its name, and whether
      a camera is found under the camera's relative path. */
  datatype SceneObject = SceneObject(name: string, hasCamera: bool)

  /** The agent id a scene object stands for, or -1: the name must start
      with the agent prefix and carry a non-negative id. */
  function SceneId(c: Config, t: SceneObject): int
  {
    if StartsWith(t.name, c.agentNamePrefix) then ParseAgentId(c.agentNamePrefix, t.name) else -1
  }

  /** The ids and camera flags of the scene's objects, in scene order. */
  function SceneIds(c: Config, scene: seq<SceneObject>): (ids: seq<int>)
    ensures |ids| == |scene|
    ensures forall k :: 0 <= k < |scene| && StartsWith(scene[k].name, c.agentNamePrefix) ==>
              ids[k] == ParseAgentId(c.agentNamePrefix, scene[k].name)
    ensures forall k :: 0 <= k < |scene| && !StartsWith(scene[k].name, c.agentNamePrefix) ==> ids[k] == -1
  {
    seq(|scene|, i requires 0 <= i < |scene| => SceneId(c, scene[i]))
  }

  function Cameras(scene: seq<SceneObject>): (cams: seq<bool>)
    ensures |cams| == |scene|
  {
    seq(|scene|, i requires 0 <= i < |scene| => scene[i].hasCamera)
  }

  /** The runtime entry made for a scene object: the camera is looked up
      only when captures are on; no previous sample yet. */
  function NewRuntime(c: Config, id: int, hasCamera: bool): AgentRuntime
  {
    AgentRuntime(id, c.captureCameraImages && hasCamera, InitialKin, map[])
  }

  /** `CoInitRuntimeAgentsNextFrame` over the scene's ids and cameras, in
      order, starting from the given entries: an object without an id
      (`-1`), or whose id already has an entry, is skipped. */
  function Adopt(c: Config, ids: seq<int>, cams: seq<bool>, rs: map<int, AgentRuntime>, order: seq<int>)
    : (map<int, AgentRuntime>, seq<int>)
    requires |ids| == |cams|
  {
    if ids == [] then (rs, order)
    else
      var n := |ids| - 1;
      var p := Adopt(c, ids[..n], cams[..n], rs, order);
      if ids[n] < 0 || ids[n] in p.0 then p else (p.0[ids[n] := NewRuntime(c, ids[n], cams[n])], p.1 + [ids[n]])
  }

  /** One more scene object. */
  lemma AdoptStep(c: Config, ids: seq<int>, cams: seq<bool>, i: nat, rs: map<int, AgentRuntime>, order: seq<int>)
    requires |ids| == |cams| && i < |ids|
    ensures var p := Adopt(c, ids[..i], cams[..i], rs, order);
      Adopt(c, ids[..i + 1], cams[..i + 1], rs, order)
        == if ids[i] < 0 || ids[i] in p.0 then p else (p.0[ids[i] := NewRuntime(c, ids[i], cams[i])], p.1 + [ids[i]])
  {
    assert ids[..i + 1][..i] == ids[..i] && cams[..i + 1][..i] == cams[..i];
  }

  /** `i` is the first position carrying `id`. */
  predicate FirstWith(ids: seq<int>, i: int, id: int)
  {
    0 <= i < |ids| && ids[i] == id && forall j :: 0 <= j < i ==> ids[j] != id
  }

  /** Starting from no entries, every runtime agent is built from the FIRST
      scene object that carries its id. */
  lemma {:induction false} AdoptFirstWins(c: Config, ids: seq<int>, cams: seq<bool>)
    requires |ids| == |cams|
    ensures var rs := Adopt(c, ids, cams, map[], []).0;
      forall id :: id in rs ==> exists i :: FirstWith(ids, i, id) && rs[id] == NewRuntime(c, id, cams[i])
  {
    if ids != [] {
      var n := |ids| - 1;
      var q := ids[..n];
      AdoptFirstWins(c, q, cams[..n]);
      AdoptCover(c, q, cams[..n]);
      var p := Adopt(c, q, cams[..n], map[], []).0;
      var rs := Adopt(c, ids, cams, map[], []).0;
      forall k | k in rs ensures exists i :: FirstWith(ids, i, k) && rs[k] == NewRuntime(c, k, cams[i]) {
        if k in p {
          var i :| FirstWith(q, i, k) && p[k] == NewRuntime(c, k, cams[..n][i]);
          assert FirstWith(ids, i, k);
        } else {
          assert FirstWith(ids, n, k);
        }
      }
    }
  }

  /** Starting from no entries, the runtime agents are exactly the ids
      found in the scene, each keyed by its own id. */
  lemma {:induction false} AdoptCover(c: Config, ids: seq<int>, cams: seq<bool>)
    requires |ids| == |cams|
    ensures var rs := Adopt(c, ids, cams, map[], []).0;
      && (forall i :: 0 <= i < |ids| && ids[i] >= 0 ==> ids[i] in rs)
      && (forall id :: id in rs ==> id >= 0 && rs[id].id == id)
  {
    if ids != [] {
      var n := |ids| - 1;
      AdoptCover(c, ids[..n], cams[..n]);
      var p := Adopt(c, ids[..n], cams[..n], map[], []).0;
      assert forall id :: id in p ==> id >= 0 && p[id].id == id;
      var rs := Adopt(c, ids, cams, map[], []).0;
      forall i | 0 <= i < |ids| && ids[i] >= 0 ensures ids[i] in rs {
        if i < n { assert ids[..n][i] == ids[i]; }
      }
      forall id | id in rs ensures id >= 0 && rs[id].id == id {
        if id in p { assert id >= 0 && p[id].id == id; }
      }
    }
  }

  /** The discovery order lists every runtime agent once, and entries
      present before are kept. */
  lemma {:induction false} AdoptOrder(c: Config, ids: seq<int>, cams: seq<bool>, rs0: map<int, AgentRuntime>, order0: seq<int>)
    requires |ids| == |cams|
    requires Distinct(order0) && (forall id :: id in rs0 ==> id in order0) && (forall j :: 0 <= j < |order0| ==> order0[j] in rs0)
    ensures var (rs, order) := Adopt(c, ids, cams, rs0, order0);
      && Distinct(order)
      && (forall id :: id in rs ==> id in order)
      && (forall j :: 0 <= j < |order| ==> order[j] in rs)
      && (forall id :: id in rs0 ==> id in rs && rs[id] == rs0[id])
  {
    if ids != [] {
      var n := |ids| - 1;
      AdoptOrder(c, ids[..n], cams[..n], rs0, order0);
      var p := Adopt(c, ids[..n], cams[..n], rs0, order0);
      var (rs, order) := Adopt(c, ids, cams, rs0, order0);
      if ids[n] >= 0 && ids[n] !in p.0 {
        assert forall j :: 0 <= j < |p.1| ==> p.1[j] != ids[n];
        forall j | 0 <= j < |order| ensures order[j] in rs {
          if j < |p.1| { assert order[j] == p.1[j]; } else { assert order[j] == ids[n]; }
        }
      }
    }
  }

  /** Entries keyed by their own ids stay so. */
  lemma {:induction false} RuntimesKeyed(c: Config, ids: seq<int>, cams: seq<bool>, rs0: map<int, AgentRuntime>, order0: seq<int>)
    requires |ids| == |cams| && forall id :: id in rs0 ==> rs0[id].id == id
    ensures forall id :: id in Adopt(c, ids, cams, rs0, order0).0 ==> Adopt(c, ids, cams, rs0, order0).0[id].id == id
  {
    if ids != [] {
      var n := |ids| - 1;
      RuntimesKeyed(c, ids[..n], cams[..n], rs0, order0);
      var p := Adopt(c, ids[..n], cams[..n], rs0, order0);
      var rs := Adopt(c, ids, cams, rs0, order0).0;
      forall id | id in rs ensures rs[id].id == id {
        if id in p.0 && id != ids[n] { assert rs[id] == p.0[id]; }
      }
    }
  }

  // ----------------------------------------------------------------------
  // Loading at Start

  /** What `LoadMetaFromJsonlFolder` leaves: `None` when a load error aborts
      `Start`; otherwise the agents and the logged frame range. A missing
      folder or a folder without input files returns before the range is
      normalised. */
  function LoadFolder(c: Config, folderExists: bool, files: seq<JsonlFile>): Option<(LoadAcc, (int, int))>
  {
    var inputs := InputFiles(c, files);
    if !folderExists || inputs == [] then Some((EmptyAcc, (IntMax, IntMin)))
    else
      var r := LoadFiles(c, inputs);
      if r.None? then None else Some((r.value, FinalRange(r.value)))
  }

  /** `PrepareOutputPaths` over every agent. */
  function PrepareAll(c: Config, metas: map<int, AgentMeta>): (r: map<int, AgentMeta>)
    ensures r.Keys == metas.Keys
    ensures forall id :: id in metas ==> r[id] == PrepareOutput(c, metas[id])
  {
    map id | id in metas :: PrepareOutput(c, metas[id])
  }

  // ----------------------------------------------------------------------
  // The recorder's state and one tick

  datatype RecorderState = RecorderState(
    metas: map<int, AgentMeta>, metaOrder: seq<int>,
    runtimes: map<int, AgentRuntime>, runtimeOrder: seq<int>,
    lastRecordedFrame: int)

  /** What the scene offers on one `LateUpdate`: the current global frame,
      the runtime agents' transforms, the physics answers around each
      agent, the images on disk and the captures or appends that throw. */
  datatype TickInput = TickInput(
    gf: int, poses: map<int, Pose>, sense: int -> Senses,
    world: CaptureWorld, writeFails: set<(int, int)>)

  /** The annotation an agent has on frame `gf`, if any. */
  function MetaOfFrame(metas: map<int, AgentMeta>, gf: int): int -> Option<FrameMeta>
  {
    (id: int) => if id in metas && gf in metas[id].metaByFrame then Some(metas[id].metaByFrame[gf]) else None
  }

  /** Whether a tick does anything: the frame is real, runtime agents exist
      and the frame is new. */
  predicate TickRuns(st: RecorderState, gf: int)
  {
    gf != IntMin && |st.runtimes| != 0 && gf != st.lastRecordedFrame
  }

  /** The recorder after recording `In.gf`'s tags. */
  function Recorded(c: Config, st: RecorderState, inp: TickInput): map<int, AgentRuntime>
  {
    RecordAll(c, st.runtimeOrder, inp.poses, inp.sense, MetaOfFrame(st.metas, inp.gf), inp.gf, st.runtimes)
  }

  /** The agents after this frame's captures, which see the tags just
      recorded. */
  function Captured(c: Config, st: RecorderState, inp: TickInput): map<int, AgentMeta>
  {
    if c.captureCameraImages then CaptureAll(c, st.metas, Recorded(c, st, inp), inp.poses, inp.gf, inp.world)
    else st.metas
  }

  /** `LateUpdate`: nothing on an skipped frame; otherwise the frame is
      remembered, then tags are recorded, then images captured, then due
      anchors written. */
  function Tick(c: Config, st: RecorderState, inp: TickInput): RecorderState
  {
    if !TickRuns(st, inp.gf) then st
    else
      var rs := Recorded(c, st, inp);
      var ms := Captured(c, st, inp);
      st.(metas := FlushAll(c, ms, rs, inp.gf, inp.writeFails), runtimes := rs, lastRecordedFrame := inp.gf)
  }

  /** The recorder's invariant: both dictionaries are listed once each in
      their enumeration order, entries are keyed by their own ids, every
      agent keeps its loading shape, its cursor within its anchors and its
      output free of repeats. */
  predicate StateOk(st: RecorderState)
  {
    && Distinct(st.metaOrder)
    && (forall id :: id in st.metas ==> id in st.metaOrder)
    && (forall j :: 0 <= j < |st.metaOrder| ==> st.metaOrder[j] in st.metas)
    && (forall id :: id in st.metas ==> AgentOk(id, st.metas[id]))
    && Distinct(st.runtimeOrder)
    && (forall id :: id in st.runtimes ==> id in st.runtimeOrder)
    && (forall j :: 0 <= j < |st.runtimeOrder| ==> st.runtimeOrder[j] in st.runtimes)
    && (forall id :: id in st.runtimes ==> st.runtimes[id].id == id)
  }

  predicate AgentOk(id: int, am: AgentMeta)
  {
    am.agentId == id && MetaShape(am) && am.nextAnchorToWrite <= |am.anchors| && WrittenOk(am)
  }

  /** A tick on a skipped frame changes nothing: the `int.MinValue` frame,
      no runtime agents yet, or the frame just processed. */
  lemma TickSkips(c: Config, st: RecorderState, inp: TickInput)
    requires inp.gf == IntMin || |st.runtimes| == 0 || inp.gf == st.lastRecordedFrame
    ensures Tick(c, st, inp) == st
  {
  }

  /** Two ticks on the same frame do the work once. */
  lemma TickOncePerFrame(c: Config, st: RecorderState, inp: TickInput, inp2: TickInput)
    requires inp2.gf == inp.gf
    ensures Tick(c, Tick(c, st, inp), inp2) == Tick(c, st, inp)
  {
  }

  lemma SameIdentityIndex(d: map<int, seq<int>>, anchors: seq<AnchorInfo>, anchors': seq<AnchorInfo>, isStart: bool)
    requires IndexOk(d, anchors, isStart) && |anchors'| == |anchors|
    requires forall i :: 0 <= i < |anchors| ==> SameIdentity(anchors[i], anchors'[i])
    ensures IndexOk(d, anchors', isStart)
  {
    assert forall i :: 0 <= i < |anchors| ==> GfOf(anchors'[i], isStart) == GfOf(anchors[i], isStart);
  }

  /** Capture marking keeps the loading shape of an agent. */
  lemma SameIdentityShape(am: AgentMeta, am': AgentMeta)
    requires MetaShape(am) && am' == am.(anchors := am'.anchors) && |am'.anchors| == |am.anchors|
    requires forall i :: 0 <= i < |am.anchors| ==> SameIdentity(am.anchors[i], am'.anchors[i])
    ensures MetaShape(am')
  {
    SameIdentityIndex(am.startAnchorsByGf, am.anchors, am'.anchors, true);
    SameIdentityIndex(am.endAnchorsByGf, am.anchors, am'.anchors, false);
    assert forall i :: 0 <= i < |am.anchors| ==> am'.anchors[i].frames == am.anchors[i].frames && am'.anchors[i].endGf == am.anchors[i].endGf;
    if am.trajEndGf != IntMin {
      var i :| 0 <= i < |am.anchors| && am.anchors[i].frames != [] && am.anchors[i].endGf == am.trajEndGf;
      assert am'.anchors[i].frames != [] && am'.anchors[i].endGf == am'.trajEndGf;
    }
    forall gf | gf in am'.metaByFrame ensures exists i :: 0 <= i < |am'.anchors| && gf in am'.anchors[i].frames {
      var i :| 0 <= i < |am.anchors| && gf in am.anchors[i].frames;
      assert gf in am'.anchors[i].frames;
    }
  }

  /** One agent after a tick that runs: its anchors keep their identity,
      its cursor moves forward within them, and its output only grows. */
  predicate AgentStep(am: AgentMeta, r: AgentMeta)
  {
    && |r.anchors| == |am.anchors|
    && (forall i :: 0 <= i < |am.anchors| ==> SameIdentity(am.anchors[i], r.anchors[i]))
    && am.nextAnchorToWrite <= r.nextAnchorToWrite <= |r.anchors|
    && |am.written| <= |r.written| && r.written[..|am.written|] == am.written
  }

  lemma CapturedAgent(c: Config, st: RecorderState, inp: TickInput, id: int)
    requires StateOk(st) && TickRuns(st, inp.gf) && id in st.metas
    ensures var ms := Captured(c, st, inp);
      id in ms && ms[id] == st.metas[id].(anchors := ms[id].anchors) && |ms[id].anchors| == |st.metas[id].anchors|
      && (forall i :: 0 <= i < |st.metas[id].anchors| ==> SameIdentity(st.metas[id].anchors[i], ms[id].anchors[i]))
      && AgentOk(id, ms[id])
  {
    var am := st.metas[id];
    assert AgentOk(id, am);
    if c.captureCameraImages && am.agentId in Recorded(c, st, inp) {
      var rs := Recorded(c, st, inp);
      var cc := CanCapture(am.agentId, rs, inp.poses);
      var r := CaptureAgent(c, am, cc, inp.gf, inp.world);
      assert Captured(c, st, inp)[id] == r;
      CaptureKeepsShape(c, am, cc, inp.gf, inp.world);
      AnchorsOnlyChange(id, am, r);
    } else {
      assert Captured(c, st, inp)[id] == am;
    }
  }

  /** Changing only the anchors, keeping their number and the shape, keeps
      `AgentOk`. */
  lemma AnchorsOnlyChange(id: int, am: AgentMeta, r: AgentMeta)
    requires AgentOk(id, am) && r == am.(anchors := r.anchors) && |r.anchors| == |am.anchors| && MetaShape(r)
    ensures AgentOk(id, r)
  {
  }

  /** A capture pass keeps the shape of an agent and the identity of its
      anchors. */
  lemma CaptureKeepsShape(c: Config, am: AgentMeta, canCapture: bool, gf: int, w: CaptureWorld)
    requires MetaShape(am) && gf != IntMin
    ensures var r := CaptureAgent(c, am, canCapture, gf, w);
      && MetaShape(r)
      && forall i :: 0 <= i < |am.anchors| ==> SameIdentity(am.anchors[i], r.anchors[i])
  {
    var r := CaptureAgent(c, am, canCapture, gf, w);
    assert forall i :: 0 <= i < |am.anchors| ==> SameIdentity(am.anchors[i], r.anchors[i]) by {
      CaptureAgentEffect(c, am, canCapture, gf, w);
    }
    SameIdentityShape(am, r);
  }

  /** The shape of an agent does not depend on its cursor or output. */
  lemma MetaShapeIgnoresOutput(am: AgentMeta, r: AgentMeta)
    requires r == am.(nextAnchorToWrite := r.nextAnchorToWrite, written := r.written)
    ensures MetaShape(r) == MetaShape(am)
  {
  }

  /** One agent's flush is an `AgentStep` that keeps `AgentOk`. */
  lemma FlushAgentOk(c: Config, id: int, a: AgentMeta, rt: Option<AgentRuntime>, gf: int, fails: set<int>)
    requires AgentOk(id, a)
    ensures var f := Flush(c, a, rt, gf, fails);
      AgentOk(id, f) && f.anchors == a.anchors && a.nextAnchorToWrite <= f.nextAnchorToWrite <= |f.anchors|
      && |a.written| <= |f.written| && f.written[..|a.written|] == a.written
  {
    FlushWritten(c, a, rt, gf, fails);
    FlushCursor(c, a, rt, gf, fails);
    FlushKeepsWrittenOk(c, a, rt, gf, fails);
    var f := Flush(c, a, rt, gf, fails);
    MetaShapeIgnoresOutput(a, f);
    assert f.written[..|a.written|] == a.written;
  }

  /** An agent after a tick that runs is the flush of the agent after
      capture. */
  lemma TickMeta(c: Config, st: RecorderState, inp: TickInput, id: int)
    requires TickRuns(st, inp.gf) && id in st.metas
    ensures var a := Captured(c, st, inp)[id];
      id in Captured(c, st, inp)
      && Tick(c, st, inp).metas[id] == Flush(c, a, RuntimeOf(Recorded(c, st, inp), a.agentId), inp.gf, FailsOf(a, inp.writeFails))
  {
  }

  lemma TickAgent(c: Config, st: RecorderState, inp: TickInput, id: int)
    requires StateOk(st) && TickRuns(st, inp.gf) && id in st.metas
    ensures AgentOk(id, Tick(c, st, inp).metas[id]) && AgentStep(st.metas[id], Tick(c, st, inp).metas[id])
  {
    CapturedAgent(c, st, inp, id);
    TickMeta(c, st, inp, id);
    var a := Captured(c, st, inp)[id];
    FlushAgentOk(c, id, a, RuntimeOf(Recorded(c, st, inp), a.agentId), inp.gf, FailsOf(a, inp.writeFails));
  }

  /** A tick keeps the recorder's invariant, and takes every agent one
      `AgentStep`: no cursor moves back, no anchor changes identity, and
      nothing written is ever taken back. */
  lemma TickKeepsState(c: Config, st: RecorderState, inp: TickInput)
    requires StateOk(st)
    ensures StateOk(Tick(c, st, inp))
    ensures Tick(c, st, inp).metas.Keys == st.metas.Keys
    ensures forall id :: id in st.metas ==> AgentStep(st.metas[id], Tick(c, st, inp).metas[id])
  {
    if TickRuns(st, inp.gf) {
      var r := Tick(c, st, inp);
      forall id | id in st.metas ensures AgentOk(id, r.metas[id]) && AgentStep(st.metas[id], r.metas[id]) {
        TickAgent(c, st, inp, id);
      }
      RecordedKeepsIds(c, st, inp);
      assert r.runtimes == Recorded(c, st, inp);
    }
  }

  /** Recording keeps every runtime agent under its own id. */
  lemma RecordedKeepsIds(c: Config, st: RecorderState, inp: TickInput)
    requires forall id :: id in st.runtimes ==> st.runtimes[id].id == id
    ensures Recorded(c, st, inp).Keys == st.runtimes.Keys
    ensures forall id :: id in Recorded(c, st, inp) ==> Recorded(c, st, inp)[id].id == id
  {
    var rs := Recorded(c, st, inp);
    forall id | id in rs ensures rs[id].id == id {
      assert id in st.runtimes;
    }
  }

  /** A captured side stays captured with its path; a pending side is
      tried only on its own frame: when the frame differs, it stays
      pending. */
  lemma TickCaptureOneShot(c: Config, st: RecorderState, inp: TickInput, id: int, i: int, isStart: bool)
    requires StateOk(st) && id in st.metas && 0 <= i < |st.metas[id].anchors|
    ensures i < |Tick(c, st, inp).metas[id].anchors|
    ensures var a := st.metas[id].anchors[i];
      var b := Tick(c, st, inp).metas[id].anchors[i];
      && (SideOf(a, isStart).0 ==> SideOf(b, isStart) == SideOf(a, isStart))
      && (GfOf(a, isStart) != inp.gf ==> SideOf(b, isStart) == SideOf(a, isStart))
  {
    if TickRuns(st, inp.gf) {
      var am := st.metas[id];
      var rs := Recorded(c, st, inp);
      var ms := Captured(c, st, inp);
      var a := ms[id];
      assert AgentOk(id, am);
      if c.captureCameraImages && am.agentId in rs {
        assert a == CaptureAgent(c, am, CanCapture(am.agentId, rs, inp.poses), inp.gf, inp.world);
        CaptureOneShot(c, am, CanCapture(am.agentId, rs, inp.poses), inp.gf, inp.world, i, isStart);
      }
      TickMeta(c, st, inp, id);
      FlushCursor(c, a, RuntimeOf(rs, a.agentId), inp.gf, FailsOf(a, inp.writeFails));
    }
  }

  // The write that follows recording and capture in the same tick.

  /** The first line the flush of a due anchor under the cursor appends. */
  lemma FlushFirstLine(c: Config, am: AgentMeta, rt: Option<AgentRuntime>, gf: int, fails: set<int>)
    requires am.nextAnchorToWrite < |am.anchors| && am.anchors[am.nextAnchorToWrite].endGf <= gf
    requires am.nextAnchorToWrite !in fails
    ensures var r := Flush(c, am, rt, gf, fails);
      |r.written| > |am.written|
      && r.written[|am.written|] == Written(am.nextAnchorToWrite, AnchorLine(c, am.trajEndGf, rt, am.anchors[am.nextAnchorToWrite]))
  {
    var k := am.nextAnchorToWrite;
    FlushWritten(c, am, rt, gf, fails);
    FlushPassesDue(c, am, rt, gf, fails);
    var r := Flush(c, am, rt, gf, fails);
    assert LinesFor(c, am.anchors, am.trajEndGf, rt, k, r.nextAnchorToWrite, fails)
      == LineAt(c, am.anchors, am.trajEndGf, rt, k, fails) + LinesFor(c, am.anchors, am.trajEndGf, rt, k + 1, r.nextAnchorToWrite, fails);
  }

  lemma FlushPassesDue(c: Config, am: AgentMeta, rt: Option<AgentRuntime>, gf: int, fails: set<int>)
    requires am.nextAnchorToWrite < |am.anchors| && am.anchors[am.nextAnchorToWrite].endGf <= gf
    ensures Flush(c, am, rt, gf, fails).nextAnchorToWrite > am.nextAnchorToWrite
  {
    FlushUnfold(c, am, rt, gf, fails);
    FlushCursor(c, FlushStep(c, am, rt, fails), rt, gf, fails);
  }

  /** Facts about one agent in a tick that runs, before the flush. */
  lemma TickAgentParts(c: Config, st: RecorderState, inp: TickInput, id: int)
    requires StateOk(st) && TickRuns(st, inp.gf) && id in st.metas && id in st.runtimes && id in inp.poses
    ensures var rs := Recorded(c, st, inp);
      && id in rs && rs[id].hasCamera == st.runtimes[id].hasCamera
      && (NeedStore(c, MetaOfFrame(st.metas, inp.gf)(id)) ==>
            inp.gf in rs[id].tagByFrame && rs[id].tagByFrame[inp.gf].active == inp.poses[id].active)
      && Tick(c, st, inp).metas[id]
         == Flush(c, Captured(c, st, inp)[id], Some(rs[id]), inp.gf, FailsOf(Captured(c, st, inp)[id], inp.writeFails))
  {
    var live := RuntimePoses(inp.poses, st.runtimes);
    assert id in live && live[id] == inp.poses[id];
    CapturedAgent(c, st, inp, id);
  }

  /** Recording comes before writing: an anchor flushed on its own end
      frame carries, as its end tag, the tag recorded on that very frame
      (its `active` flag is the agent's activity now), provided the frame
      stores a tag for the agent. */
  lemma EndTagIsRecordedThisTick(c: Config, st: RecorderState, inp: TickInput, id: int)
    requires StateOk(st) && TickRuns(st, inp.gf) && id in st.metas && id in st.runtimes && id in inp.poses
    requires var am := st.metas[id];
      am.nextAnchorToWrite < |am.anchors| && am.anchors[am.nextAnchorToWrite].endGf == inp.gf
      && am.anchors[am.nextAnchorToWrite].original.Parsed? && (id, am.nextAnchorToWrite) !in inp.writeFails
    requires NeedStore(c, MetaOfFrame(st.metas, inp.gf)(id))
    ensures var am := st.metas[id];
      var r := Tick(c, st, inp).metas[id];
      |r.written| > |am.written| && r.written[|am.written|].anchorIndex == am.nextAnchorToWrite
      && r.written[|am.written|].line.Record?
      && "endFrameTag" in r.written[|am.written|].line.obj
      && r.written[|am.written|].line.obj["endFrameTag"].JObj?
      && "active" in r.written[|am.written|].line.obj["endFrameTag"].fields
      && r.written[|am.written|].line.obj["endFrameTag"].fields["active"] == JBool(inp.poses[id].active)
  {
    var am := st.metas[id];
    var k := am.nextAnchorToWrite;
    TickAgentParts(c, st, inp, id);
    CapturedAgent(c, st, inp, id);
    var rs := Recorded(c, st, inp);
    var a := Captured(c, st, inp)[id];
    assert SameIdentity(am.anchors[k], a.anchors[k]);
    FlushFirstLine(c, a, Some(rs[id]), inp.gf, FailsOf(a, inp.writeFails));
    AnchorLineShape(c, a.trajEndGf, Some(rs[id]), a.anchors[k]);
    TagObjectFields(c, a.trajEndGf, Some(rs[id]), a.anchors[k].endGf, a.anchors[k].endImageRel);
  }

  /** The end tag of the first line the flush of a due, parsed anchor
      under the cursor appends. */
  lemma FlushEndTag(c: Config, am: AgentMeta, rt: Option<AgentRuntime>, gf: int, fails: set<int>)
    requires am.nextAnchorToWrite < |am.anchors| && am.anchors[am.nextAnchorToWrite].endGf <= gf
    requires am.nextAnchorToWrite !in fails && am.anchors[am.nextAnchorToWrite].original.Parsed?
    ensures var r := Flush(c, am, rt, gf, fails);
      var a := am.anchors[am.nextAnchorToWrite];
      |r.written| > |am.written|
      && r.written[|am.written|].line.Record?
      && "endFrameTag" in r.written[|am.written|].line.obj
      && r.written[|am.written|].line.obj["endFrameTag"] == JObj(TagObject(c, am.trajEndGf, rt, a.endGf, a.endImageRel))
  {
    FlushFirstLine(c, am, rt, gf, fails);
    AnchorLineShape(c, am.trajEndGf, rt, am.anchors[am.nextAnchorToWrite]);
  }

  /** Capturing comes before writing: an anchor flushed on its own end
      frame, whose end image was still pending, carries the image taken on
      that frame exactly when the attempt gave a path. */
  lemma EndImageIsCapturedThisTick(c: Config, st: RecorderState, inp: TickInput, id: int)
    requires StateOk(st) && TickRuns(st, inp.gf) && id in st.metas && id in st.runtimes && id in inp.poses
    requires c.captureCameraImages
    requires var am := st.metas[id];
      am.nextAnchorToWrite < |am.anchors| && am.anchors[am.nextAnchorToWrite].endGf == inp.gf
      && !am.anchors[am.nextAnchorToWrite].endCaptured
      && am.anchors[am.nextAnchorToWrite].original.Parsed? && (id, am.nextAnchorToWrite) !in inp.writeFails
    ensures var am := st.metas[id];
      var r := Tick(c, st, inp).metas[id];
      var path := AttemptPath(c, id, am.anchors[am.nextAnchorToWrite], false, inp.gf, CanCapture(id, st.runtimes, inp.poses), inp.world);
      |r.written| > |am.written|
      && r.written[|am.written|].line.Record?
      && "endFrameTag" in r.written[|am.written|].line.obj
      && r.written[|am.written|].line.obj["endFrameTag"].JObj?
      && ("imagePath" in r.written[|am.written|].line.obj["endFrameTag"].fields <==> path != "")
      && (path != "" ==> r.written[|am.written|].line.obj["endFrameTag"].fields["imagePath"] == JStr(path))
  {
    var am := st.metas[id];
    var k := am.nextAnchorToWrite;
    var rs := Recorded(c, st, inp);
    TickAgentParts(c, st, inp, id);
    assert AgentOk(id, am);
    assert CanCapture(id, rs, inp.poses) == CanCapture(id, st.runtimes, inp.poses);
    var a := Captured(c, st, inp)[id];
    assert a == CaptureAgent(c, am, CanCapture(id, rs, inp.poses), inp.gf, inp.world);
    CaptureEndPending(c, am, CanCapture(id, rs, inp.poses), inp.gf, inp.world, k);
    var fails := FailsOf(a, inp.writeFails);
    assert k !in fails;
    FlushEndTag(c, a, Some(rs[id]), inp.gf, fails);
    TagObjectFields(c, a.trajEndGf, Some(rs[id]), a.anchors[k].endGf, a.anchors[k].endImageRel);
  }

  lemma PreparedAgentOk(c: Config, id: int, am: AgentMeta)
    requires am.agentId == id && am.written == [] && Loaded(am)
    ensures AgentOk(id, PrepareOutput(c, am))
  {
  }

  /** A `Start` that does not throw leaves a recorder in its invariant: the
      loaded agents keyed by their ids in load order, each in its loading
      shape, with its cursor at the first anchor and nothing written. */
  lemma StartOk(c: Config, folderExists: bool, files: seq<JsonlFile>, rs: map<int, AgentRuntime>, ro: seq<int>, last: int)
    requires StateOk(RecorderState(map[], [], rs, ro, last))
    requires LoadFolder(c, folderExists, files).Some?
    ensures var acc := LoadFolder(c, folderExists, files).value.0;
      && StateOk(RecorderState(PrepareAll(c, acc.metas), acc.order, rs, ro, last))
      && forall id :: id in acc.metas ==> PrepareAll(c, acc.metas)[id].nextAnchorToWrite == 0
  {
    var inputs := InputFiles(c, files);
    var acc := LoadFolder(c, folderExists, files).value.0;
    if folderExists && inputs != [] {
      LoadFilesOk(c, inputs);
      assert AccOk(acc);
      forall id | id in acc.metas ensures AgentOk(id, PrepareAll(c, acc.metas)[id]) {
        PreparedAgentOk(c, id, acc.metas[id]);
      }
    }
  }

  /** A `Start` whose load throws leaves the recorder in its invariant too:
      the agents stored before the file that throws, each in its loading
      shape with its cursor at the first anchor. */
  lemma StartAbortOk(c: Config, folderExists: bool, files: seq<JsonlFile>, rs: map<int, AgentRuntime>, ro: seq<int>, last: int)
    requires StateOk(RecorderState(map[], [], rs, ro, last))
    requires LoadFolder(c, folderExists, files).None?
    ensures var acc := LoadFilesPartial(c, InputFiles(c, files));
      StateOk(RecorderState(acc.metas, acc.order, rs, ro, last))
  {
    var inputs := InputFiles(c, files);
    assert LoadFiles(c, inputs).None?;
    LoadFilesPartialOk(c, inputs);
    var acc := LoadFilesPartial(c, inputs);
    forall id | id in acc.metas ensures AgentOk(id, acc.metas[id]) {
      LoadedAgentOk(id, acc.metas[id]);
    }
  }

  /** An agent as the loader stores it, with nothing written yet. */
  lemma LoadedAgentOk(id: int, am: AgentMeta)
    requires am.agentId == id && am.written == [] && am.nextAnchorToWrite == 0 && Loaded(am)
    ensures AgentOk(id, am)
  {
  }

  // ----------------------------------------------------------------------
  // The component

  /** The recorder component: the loaded agents and the runtime agents as
      dictionaries with their enumeration order, the last frame processed
      and the logged global frame range. */
  class CaseTagRecorder {
    const cfg: Config
    var metas: map<int, AgentMeta>
    var metaOrder: seq<int>
    var runtimes: map<int, AgentRuntime>
    var runtimeOrder: seq<int>
    var lastRecordedFrame: int
    var globalMin: int
    var globalMax: int
    /** Whether `Start` got as far as scheduling the deferred
        initialisation; a load error aborts it before. */
    var started: bool

    function State(): RecorderState
      reads this
    {
      RecorderState(metas, metaOrder, runtimes, runtimeOrder, lastRecordedFrame)
    }

    predicate Valid()
      reads this
    {
      StateOk(State())
    }

    constructor(c: Config)
      ensures cfg == c && metas == map[] && metaOrder == [] && runtimes == map[] && runtimeOrder == []
      ensures lastRecordedFrame == IntMin && globalMin == IntMax && globalMax == IntMin && !started
      ensures Valid()
    {
      cfg := c;
      metas := map[];
      metaOrder := [];
      runtimes := map[];
      runtimeOrder := [];
      lastRecordedFrame := IntMin;
      globalMin := IntMax;
      globalMax := IntMin;
      started := false;
    }

    /** `Start`: load the folder, prepare the output paths, and schedule the
        runtime initialisation unless loading threw. */
    method Start(folderExists: bool, files: seq<JsonlFile>)
      requires Valid()
      modifies this
      ensures var r := LoadFolder(cfg, folderExists, files);
        && started == r.Some?
        && (r.Some? ==> metas == PrepareAll(cfg, r.value.0.metas) && metaOrder == r.value.0.order
                        && globalMin == r.value.1.0 && globalMax == r.value.1.1)
        && (r.None? ==> LoadAcc(metas, metaOrder, globalMin, globalMax) == LoadFilesPartial(cfg, InputFiles(cfg, files)))
      ensures runtimes == old(runtimes) && runtimeOrder == old(runtimeOrder) && lastRecordedFrame == old(lastRecordedFrame)
      ensures Valid()
    {
      var ok := LoadMetaFromJsonlFolder(folderExists, files);
      if !ok {
        StartAbortOk(cfg, folderExists, files, runtimes, runtimeOrder, lastRecordedFrame);
        started := false;
        return;
      }
      StartOk(cfg, folderExists, files, runtimes, runtimeOrder, lastRecordedFrame);
      PrepareOutputPaths();
      started := true;
    }

    /** `LoadMetaFromJsonlFolder`: every input file, line by line. A load
        error leaves the agents of the files before and the range as far as
        it was widened. */
    method LoadMetaFromJsonlFolder(folderExists: bool, files: seq<JsonlFile>) returns (ok: bool)
      modifies this
      ensures var r := LoadFolder(cfg, folderExists, files);
        && ok == r.Some?
        && (ok ==> metas == r.value.0.metas && metaOrder == r.value.0.order
                   && globalMin == r.value.1.0 && globalMax == r.value.1.1)
        && (!ok ==> LoadAcc(metas, metaOrder, globalMin, globalMax) == LoadFilesPartial(cfg, InputFiles(cfg, files)))
      ensures runtimes == old(runtimes) && runtimeOrder == old(runtimeOrder)
      ensures lastRecordedFrame == old(lastRecordedFrame) && started == old(started)
    {
      metas := map[];
      metaOrder := [];
      globalMin := IntMax;
      globalMax := IntMin;
      var inputs := InputFiles(cfg, files);
      if !folderExists || inputs == [] {
        return true;
      }
      var i := 0;
      while i < |inputs|
        invariant 0 <= i <= |inputs|
        invariant LoadFiles(cfg, inputs[..i]) == Some(LoadAcc(metas, metaOrder, globalMin, globalMax))
        invariant runtimes == old(runtimes) && runtimeOrder == old(runtimeOrder)
        invariant lastRecordedFrame == old(lastRecordedFrame) && started == old(started)
      {
        assert inputs[..i + 1][..i] == inputs[..i];
        var r, stop := LoadOneFile(LoadAcc(metas, metaOrder, globalMin, globalMax), inputs[i]);
        if r.None? {
          LoadFilesAbortIsFinal(cfg, inputs, i + 1);
          LoadFilesPartialAbort(cfg, inputs, i + 1);
          globalMin := stop.gmin;
          globalMax := stop.gmax;
          return false;
        }
        metas := r.value.metas;
        metaOrder := r.value.order;
        globalMin := r.value.gmin;
        globalMax := r.value.gmax;
        i := i + 1;
      }
      assert inputs[..i] == inputs;
      if globalMin == IntMax { globalMin := 0; }
      if globalMax == IntMin { globalMax := -1; }
      return true;
    }

    /** The body of the file loop: a file without an agent id is skipped;
        otherwise its lines are read into a fresh agent, which is stored
        under its id. When a line throws, `stop` is the loader's state as
        the throw leaves it. */
    method LoadOneFile(acc: LoadAcc, f: JsonlFile) returns (r: Option<LoadAcc>, stop: LoadAcc)
      ensures r == LoadFile(cfg, acc, f)
      ensures r.None? ==> stop == AbortedFile(cfg, acc, f)
    {
      stop := acc;
      var id := ParseAgentId(cfg.agentNamePrefix, f.baseName);
      if id < 0 {
        return Some(acc), stop;
      }
      var st, range := LoadAgentLines(LoadState(NewMeta(f.baseName, id), acc.gmin, acc.gmax), f.lines);
      if st.None? {
        return None, acc.(gmin := range.0, gmax := range.1);
      }
      var order := if id in acc.metas then acc.order else acc.order + [id];
      return Some(LoadAcc(acc.metas[id := st.value.am], order, st.value.gmin, st.value.gmax)), stop;
    }

    /** The line loop of one file, with the global range as the loop
        leaves it, also when a line throws. */
    method LoadAgentLines(st0: LoadState, lines: seq<InputLine>) returns (r: Option<LoadState>, range: (int, int))
      ensures r == LoadLines(st0, lines)
      ensures range == LoadLinesRange(st0, lines)
    {
      var st := st0;
      var j := 0;
      while j < |lines|
        invariant 0 <= j <= |lines|
        invariant LoadLines(st0, lines[..j]) == Some(st)
      {
        assert lines[..j + 1][..j] == lines[..j];
        var next := LoadLine(st, lines[j]);
        if next.None? {
          LoadLinesAbortIsFinal(st0, lines, j + 1);
          LoadLinesRangeAbort(st0, lines, j + 1);
          return None, (st.gmin, st.gmax);
        }
        st := next.value;
        j := j + 1;
      }
      assert lines[..j] == lines;
      LoadLinesRangeDone(st0, lines);
      return Some(st), (st.gmin, st.gmax);
    }

    /** `PrepareOutputPaths`: every agent gets its output path and a cursor
        at the first anchor. */
    method PrepareOutputPaths()
      requires Distinct(metaOrder) && (forall id :: id in metas ==> id in metaOrder)
      requires forall j :: 0 <= j < |metaOrder| ==> metaOrder[j] in metas
      modifies this
      ensures metas == PrepareAll(cfg, old(metas))
      ensures metaOrder == old(metaOrder) && runtimes == old(runtimes) && runtimeOrder == old(runtimeOrder)
      ensures lastRecordedFrame == old(lastRecordedFrame) && globalMin == old(globalMin) && globalMax == old(globalMax)
      ensures started == old(started)
    {
      ghost var target := PrepareAll(cfg, metas);
      var ms := metas;
      var i := 0;
      while i < |metaOrder|
        modifies {}
        invariant 0 <= i <= |metaOrder|
        invariant UpdatedUpTo(ms, metas, target, metaOrder, i)
      {
        var id := metaOrder[i];
        UpdateNext(ms, metas, target, metaOrder, i, PrepareOutput(cfg, metas[id]));
        ms := ms[id := PrepareOutput(cfg, metas[id])];
        i := i + 1;
      }
      UpdateDone(ms, metas, target, metaOrder);
      metas := ms;
    }

    /** `CoInitRuntimeAgentsNextFrame`, which runs only once `Start` has
        scheduled it: adopt the scene's agents, then forget the last
        processed frame. */
    method InitRuntimeAgents(scene: seq<SceneObject>)
      requires Valid()
      modifies this
      ensures started ==> (runtimes, runtimeOrder) == Adopt(cfg, SceneIds(cfg, scene), Cameras(scene), old(runtimes), old(runtimeOrder))
                          && lastRecordedFrame == IntMin
      ensures !started ==> runtimes == old(runtimes) && runtimeOrder == old(runtimeOrder) && lastRecordedFrame == old(lastRecordedFrame)
      ensures metas == old(metas) && metaOrder == old(metaOrder) && started == old(started)
      ensures globalMin == old(globalMin) && globalMax == old(globalMax)
      ensures Valid()
    {
      if !started {
        return;
      }
      var rs, order := AdoptScene(scene);
      AdoptOrder(cfg, SceneIds(cfg, scene), Cameras(scene), runtimes, runtimeOrder);
      RuntimesKeyed(cfg, SceneIds(cfg, scene), Cameras(scene), runtimes, runtimeOrder);
      runtimes := rs;
      runtimeOrder := order;
      lastRecordedFrame := IntMin;
    }

    /** The scene loop of `CoInitRuntimeAgentsNextFrame`. */
    method AdoptScene(scene: seq<SceneObject>) returns (rs: map<int, AgentRuntime>, order: seq<int>)
      ensures (rs, order) == Adopt(cfg, SceneIds(cfg, scene), Cameras(scene), runtimes, runtimeOrder)
    {
      var ids := SceneIds(cfg, scene);
      var cams := Cameras(scene);
      rs := runtimes;
      order := runtimeOrder;
      var i := 0;
      while i < |ids|
        invariant 0 <= i <= |ids|
        invariant (rs, order) == Adopt(cfg, ids[..i], cams[..i], runtimes, runtimeOrder)
      {
        AdoptStep(cfg, ids, cams, i, runtimes, runtimeOrder);
        var id := ids[i];
        if id >= 0 && id !in rs {
          rs := rs[id := NewRuntime(cfg, id, cams[i])];
          order := order + [id];
        }
        i := i + 1;
      }
      assert ids[..i] == ids && cams[..i] == cams;
    }

    /** `LateUpdate`: one tick of the recorder. */
    method LateUpdate(inp: TickInput)
      requires Valid()
      modifies this
      ensures State() == Tick(cfg, old(State()), inp)
      ensures globalMin == old(globalMin) && globalMax == old(globalMax) && started == old(started)
      ensures Valid()
    {
      TickKeepsState(cfg, State(), inp);
      if inp.gf == IntMin { return; }
      if |runtimes| == 0 { return; }
      if inp.gf == lastRecordedFrame { return; }
      lastRecordedFrame := inp.gf;
      RecordFrame(inp.gf, inp.poses, inp.sense);
      if cfg.captureCameraImages {
        CaptureAnchorImagesAtFrame(inp.gf, inp.poses, inp.world);
      }
      WriteAnchorsUpToFrame(inp.gf, inp.writeFails);
    }

    /** `RecordFrame`: every runtime agent, in enumeration order. */
    method RecordFrame(gf: int, poses: map<int, Pose>, sense: int -> Senses)
      requires Distinct(runtimeOrder) && (forall id :: id in runtimes ==> id in runtimeOrder)
      requires forall j :: 0 <= j < |runtimeOrder| ==> runtimeOrder[j] in runtimes
      modifies this
      ensures runtimes == RecordAll(cfg, runtimeOrder, poses, sense, MetaOfFrame(metas, gf), gf, old(runtimes))
      ensures metas == old(metas) && metaOrder == old(metaOrder) && runtimeOrder == old(runtimeOrder)
      ensures lastRecordedFrame == old(lastRecordedFrame) && globalMin == old(globalMin) && globalMax == old(globalMax)
      ensures started == old(started)
    {
      ghost var target := RecordAll(cfg, runtimeOrder, poses, sense, MetaOfFrame(metas, gf), gf, runtimes);
      var live := RuntimePoses(poses, runtimes);
      var metaOf := MetaOfFrame(metas, gf);
      var rs := runtimes;
      var i := 0;
      while i < |runtimeOrder|
        modifies {}
        invariant 0 <= i <= |runtimeOrder|
        invariant UpdatedUpTo(rs, runtimes, target, runtimeOrder, i)
      {
        var id := runtimeOrder[i];
        var rt := runtimes[id];
        if id in live && rt.id == id {
          rt := RecordAgent(cfg, runtimeOrder, live, sense(id), metaOf(id), gf, rt);
        }
        UpdateNext(rs, runtimes, target, runtimeOrder, i, rt);
        rs := rs[id := rt];
        i := i + 1;
      }
      UpdateDone(rs, runtimes, target, runtimeOrder);
      runtimes := rs;
    }

    /** `CaptureAnchorImagesAtFrame`: every loaded agent with a runtime
        entry, its start list at `gf` and then its end list. */
    method CaptureAnchorImagesAtFrame(gf: int, poses: map<int, Pose>, world: CaptureWorld)
      requires Distinct(metaOrder) && (forall id :: id in metas ==> id in metaOrder)
      requires forall j :: 0 <= j < |metaOrder| ==> metaOrder[j] in metas
      modifies this
      ensures metas == CaptureAll(cfg, old(metas), runtimes, poses, gf, world)
      ensures metaOrder == old(metaOrder) && runtimes == old(runtimes) && runtimeOrder == old(runtimeOrder)
      ensures lastRecordedFrame == old(lastRecordedFrame) && globalMin == old(globalMin) && globalMax == old(globalMax)
      ensures started == old(started)
    {
      ghost var target := CaptureAll(cfg, metas, runtimes, poses, gf, world);
      var ms := metas;
      var i := 0;
      while i < |metaOrder|
        modifies {}
        invariant 0 <= i <= |metaOrder|
        invariant UpdatedUpTo(ms, metas, target, metaOrder, i)
      {
        var id := metaOrder[i];
        var am := metas[id];
        if am.agentId in runtimes {
          am := CaptureAgentAt(am, CanCapture(am.agentId, runtimes, poses), gf, world);
        }
        UpdateNext(ms, metas, target, metaOrder, i, am);
        ms := ms[id := am];
        i := i + 1;
      }
      UpdateDone(ms, metas, target, metaOrder);
      metas := ms;
    }

    /** The per-agent body of `CaptureAnchorImagesAtFrame`: the start list,
        then the end list. */
    method CaptureAgentAt(am: AgentMeta, canCapture: bool, gf: int, world: CaptureWorld) returns (r: AgentMeta)
      ensures r == CaptureAgent(cfg, am, canCapture, gf, world)
    {
      var anchors := CaptureSide(am.agentId, am.anchors, am.startAnchorsByGf, true, gf, canCapture, world);
      anchors := CaptureSide(am.agentId, anchors, am.endAnchorsByGf, false, gf, canCapture, world);
      r := am.(anchors := anchors);
    }

    /** One of the two loops of `CaptureAnchorImagesAtFrame`: the anchors
        listed under `gf`, skipping an index out of range or a side already
        captured. */
    method CaptureSide(agentId: int, anchors: seq<AnchorInfo>, byGf: map<int, seq<int>>, isStart: bool, gf: int,
                       canCapture: bool, world: CaptureWorld) returns (r: seq<AnchorInfo>)
      ensures gf in byGf ==> r == CaptureList(cfg, agentId, anchors, byGf[gf], isStart, gf, canCapture, world)
      ensures gf !in byGf ==> r == anchors
    {
      r := anchors;
      if gf !in byGf {
        return;
      }
      var list := byGf[gf];
      var j := 0;
      while j < |list|
        invariant 0 <= j <= |list|
        invariant r == CaptureList(cfg, agentId, anchors, list[..j], isStart, gf, canCapture, world)
      {
        assert list[..j + 1][..j] == list[..j];
        var a := list[j];
        if 0 <= a < |r| && !SideOf(r[a], isStart).0 {
          r := r[a := CaptureOne(cfg, agentId, r[a], isStart, gf, canCapture, world)];
        }
        j := j + 1;
      }
      assert list[..j] == list;
    }

    /** `WriteAnchorsUpToFrame`: every agent's cursor loop. */
    method WriteAnchorsUpToFrame(gf: int, writeFails: set<(int, int)>)
      requires Distinct(metaOrder) && (forall id :: id in metas ==> id in metaOrder)
      requires forall j :: 0 <= j < |metaOrder| ==> metaOrder[j] in metas
      modifies this
      ensures metas == FlushAll(cfg, old(metas), runtimes, gf, writeFails)
      ensures metaOrder == old(metaOrder) && runtimes == old(runtimes) && runtimeOrder == old(runtimeOrder)
      ensures lastRecordedFrame == old(lastRecordedFrame) && globalMin == old(globalMin) && globalMax == old(globalMax)
      ensures started == old(started)
    {
      ghost var target := FlushAll(cfg, metas, runtimes, gf, writeFails);
      var ms := metas;
      var i := 0;
      while i < |metaOrder|
        modifies {}
        invariant 0 <= i <= |metaOrder|
        invariant UpdatedUpTo(ms, metas, target, metaOrder, i)
      {
        var id := metaOrder[i];
        var am := metas[id];
        am := FlushAgent(am, RuntimeOf(runtimes, am.agentId), gf, FailsOf(am, writeFails));
        UpdateNext(ms, metas, target, metaOrder, i, am);
        ms := ms[id := am];
        i := i + 1;
      }
      UpdateDone(ms, metas, target, metaOrder);
      metas := ms;
    }

    /** The cursor loop of one agent: append the line of every anchor that
        has ended by `gf`, stopping at the first that has not. */
    method FlushAgent(am0: AgentMeta, rt: Option<AgentRuntime>, gf: int, fails: set<int>) returns (am: AgentMeta)
      ensures am == Flush(cfg, am0, rt, gf, fails)
    {
      am := am0;
      while am.nextAnchorToWrite < |am.anchors|
        invariant Flush(cfg, am, rt, gf, fails) == Flush(cfg, am0, rt, gf, fails)
        decreases |am.anchors| - am.nextAnchorToWrite
      {
        var k := am.nextAnchorToWrite;
        if gf < am.anchors[k].endGf {
          break;
        }
        am := am.(nextAnchorToWrite := k + 1, written := am.written + LineAt(cfg, am.anchors, am.trajEndGf, rt, k, fails));
      }
    }
  }
}

/** What the anchor tagger does with the loaded anchors while the replay
    runs: marks the one-shot start and end captures
    (`CaptureAnchorImagesAtFrame` / `CaptureOneAnchorImage`), composes the
    output record of an anchor (`AppendOneAnchorLine`) and flushes anchors
    in order behind a per-agent cursor (`WriteAnchorsUpToFrame`).

    Rendering and the file system are inputs: `existing` holds the image
    paths already on disk, `failing` those whose capture throws, and
    `writeFails` the anchors whose output append throws. */
module TagOutput {
  import opened Base
  import opened Text
  import opened Json
  import opened TagSensing
  import opened TagFrames
  import opened TagLoad

  // ----------------------------------------------------------------------
  // Capture

  /** `anchor_{index:D06}_{start|end}_gf_{gf:D06}.{jpg|png}`. */
  function ImageFileName(c: Config, idx: int, isStart: bool, gf: int): string
  {
    "anchor_" + FormatD(idx, 6) + "_" + (if isStart then "start" else "end") + "_gf_" + FormatD(gf, 6)
      + "." + (if c.saveAsJPG then "jpg" else "png")
  }

  /** The image path relative to the output folder, with `/` separators:
      the images folder, then the agent's folder, then the file. */
  function ImageRelPath(c: Config, agentId: int, fileName: string): string
  {
    c.imagesFolderName + "/" + c.agentNamePrefix + IntToString(agentId) + "/" + fileName
  }

  datatype CaptureWorld = CaptureWorld(existing: set<string>, failing: set<string>)

  /** The capture flag and image path of one side of an anchor. */
  function SideOf(a: AnchorInfo, isStart: bool): (bool, string)
  {
    if isStart then (a.startCaptured, a.startImageRel) else (a.endCaptured, a.endImageRel)
  }

  function SetSide(a: AnchorInfo, isStart: bool, rel: string): AnchorInfo
  {
    if isStart then a.(startCaptured := true, startImageRel := rel) else a.(endCaptured := true, endImageRel := rel)
  }

  /** The path an attempt records: empty when the agent is not active or
      has no camera (`canCapture` false), or when the image has to be
      written and the capture fails. An image already on disk is reused
      unless overwriting is on. */
  function AttemptPath(c: Config, agentId: int, a: AnchorInfo, isStart: bool, gf: int, canCapture: bool, w: CaptureWorld): string
  {
    if !canCapture then ""
    else
      var rel := ImageRelPath(c, agentId, ImageFileName(c, a.anchorIndex, isStart, gf));
      var needWrite := c.overwriteExistingImages || rel !in w.existing;
      if needWrite && rel in w.failing then "" else rel
  }

  /** `CaptureOneAnchorImage`. */
  function CaptureOne(c: Config, agentId: int, a: AnchorInfo, isStart: bool, gf: int, canCapture: bool, w: CaptureWorld): AnchorInfo
  {
    SetSide(a, isStart, AttemptPath(c, agentId, a, isStart, gf, canCapture, w))
  }

  /** The loop over one frame's start (or end) list: an index out of range
      or already captured is skipped. */
  function CaptureList(c: Config, agentId: int, anchors: seq<AnchorInfo>, list: seq<int>, isStart: bool, gf: int,
                       canCapture: bool, w: CaptureWorld): (r: seq<AnchorInfo>)
    ensures |r| == |anchors|
  {
    if list == [] then anchors
    else
      var p := CaptureList(c, agentId, anchors, list[..|list| - 1], isStart, gf, canCapture, w);
      var i := list[|list| - 1];
      if i < 0 || i >= |p| || SideOf(p[i], isStart).0 then p
      else p[i := CaptureOne(c, agentId, p[i], isStart, gf, canCapture, w)]
  }

  /** One agent's part of `CaptureAnchorImagesAtFrame`: its start list at
      `gf`, then its end list. */
  function CaptureAgent(c: Config, am: AgentMeta, canCapture: bool, gf: int, w: CaptureWorld): (r: AgentMeta)
    ensures r == am.(anchors := r.anchors) && |r.anchors| == |am.anchors|
  {
    var s := StartPass(c, am, canCapture, gf, w);
    var e := if gf in am.endAnchorsByGf
      then CaptureList(c, am.agentId, s, am.endAnchorsByGf[gf], false, gf, canCapture, w)
      else s;
    am.(anchors := e)
  }

  /** The start loop of a capture pass. */
  function StartPass(c: Config, am: AgentMeta, canCapture: bool, gf: int, w: CaptureWorld): (s: seq<AnchorInfo>)
  {
    if gf in am.startAnchorsByGf
    then CaptureList(c, am.agentId, am.anchors, am.startAnchorsByGf[gf], true, gf, canCapture, w)
    else am.anchors
  }

  /** The fields of an anchor that capture never touches. */
  predicate SameIdentity(a: AnchorInfo, b: AnchorInfo)
  {
    a.anchorIndex == b.anchorIndex && a.original == b.original && a.frames == b.frames
    && a.startGf == b.startGf && a.endGf == b.endGf
  }

  /** What one capture pass does to one side of one anchor: a side already
      captured keeps its flag and path; a pending side whose frame is
      `gf` is captured with the attempt's path; any other side stays. */
  predicate SideStep(c: Config, agentId: int, a: AnchorInfo, b: AnchorInfo, isStart: bool, gf: int, canCapture: bool, w: CaptureWorld)
  {
    if !SideOf(a, isStart).0 && GfOf(a, isStart) == gf
    then SideOf(b, isStart) == (true, AttemptPath(c, agentId, a, isStart, gf, canCapture, w))
    else SideOf(b, isStart) == SideOf(a, isStart)
  }

  lemma SetSideEffect(a: AnchorInfo, isStart: bool, rel: string)
    ensures var b := SetSide(a, isStart, rel);
      SameIdentity(a, b) && SideOf(b, isStart) == (true, rel) && SideOf(b, !isStart) == SideOf(a, !isStart)
  {
  }

  /** The attempt's path depends only on what a capture pass leaves alone. */
  lemma AttemptPathIdentity(c: Config, agentId: int, a: AnchorInfo, b: AnchorInfo, isStart: bool, gf: int, canCapture: bool, w: CaptureWorld)
    requires SameIdentity(a, b)
    ensures AttemptPath(c, agentId, a, isStart, gf, canCapture, w) == AttemptPath(c, agentId, b, isStart, gf, canCapture, w)
  {
  }

  /** The start (or end) loop changes exactly the pending sides of the
      listed anchors, each the way `CaptureOne` says, and nothing else. */
  lemma {:induction false} CaptureListEffect(c: Config, agentId: int, anchors: seq<AnchorInfo>, list: seq<int>, isStart: bool,
                                             gf: int, canCapture: bool, w: CaptureWorld)
    requires forall j :: 0 <= j < |list| ==> 0 <= list[j] < |anchors| && GfOf(anchors[list[j]], isStart) == gf
    ensures var r := CaptureList(c, agentId, anchors, list, isStart, gf, canCapture, w);
      forall i :: 0 <= i < |anchors| ==>
        && SameIdentity(anchors[i], r[i])
        && SideOf(r[i], !isStart) == SideOf(anchors[i], !isStart)
        && (i in list ==> SideStep(c, agentId, anchors[i], r[i], isStart, gf, canCapture, w))
        && (i !in list ==> r[i] == anchors[i])
  {
    if list != [] {
      var q := list[..|list| - 1];
      CaptureListEffect(c, agentId, anchors, q, isStart, gf, canCapture, w);
      var p := CaptureList(c, agentId, anchors, q, isStart, gf, canCapture, w);
      var k := list[|list| - 1];
      var r := CaptureList(c, agentId, anchors, list, isStart, gf, canCapture, w);
      assert forall i :: i in list <==> i in q || i == k;
      forall i | 0 <= i < |anchors|
        ensures SameIdentity(anchors[i], r[i])
        ensures SideOf(r[i], !isStart) == SideOf(anchors[i], !isStart)
        ensures i in list ==> SideStep(c, agentId, anchors[i], r[i], isStart, gf, canCapture, w)
        ensures i !in list ==> r[i] == anchors[i]
      {
        if i == k && !SideOf(p[i], isStart).0 {
          SetSideEffect(p[i], isStart, AttemptPath(c, agentId, p[i], isStart, gf, canCapture, w));
          assert i !in q;
          AttemptPathIdentity(c, agentId, p[i], anchors[i], isStart, gf, canCapture, w);
        }
      }
    }
  }

  /** With the indices of a loaded agent, a capture pass at a real frame
      `gf` takes each side of each anchor one `SideStep` and touches
      nothing else: one-shot flags, tried only on the exact frame. */
  lemma CaptureAgentEffect(c: Config, am: AgentMeta, canCapture: bool, gf: int, w: CaptureWorld)
    requires MetaShape(am) && gf != IntMin
    ensures var r := CaptureAgent(c, am, canCapture, gf, w);
      forall i :: 0 <= i < |am.anchors| ==>
        && SameIdentity(am.anchors[i], r.anchors[i])
        && SideStep(c, am.agentId, am.anchors[i], r.anchors[i], true, gf, canCapture, w)
        && SideStep(c, am.agentId, am.anchors[i], r.anchors[i], false, gf, canCapture, w)
  {
    var s := StartPass(c, am, canCapture, gf, w);
    StartPassEffect(c, am, canCapture, gf, w);
    if gf in am.endAnchorsByGf {
      var list := am.endAnchorsByGf[gf];
      forall j | 0 <= j < |list| ensures 0 <= list[j] < |s| && GfOf(s[list[j]], false) == gf {
        assert GfOf(am.anchors[list[j]], false) == gf;
      }
      CaptureListEffect(c, am.agentId, s, list, false, gf, canCapture, w);
    }
    var r := CaptureAgent(c, am, canCapture, gf, w);
    forall i | 0 <= i < |am.anchors|
      ensures SideStep(c, am.agentId, am.anchors[i], r.anchors[i], false, gf, canCapture, w)
    {
      if GfOf(am.anchors[i], false) == gf {
        assert gf in am.endAnchorsByGf && i in am.endAnchorsByGf[gf];
      }
      AttemptPathIdentity(c, am.agentId, s[i], am.anchors[i], false, gf, canCapture, w);
    }
  }

  /** The start loop takes each start side one `SideStep` and leaves the
      end sides and the identities alone. */
  lemma StartPassEffect(c: Config, am: AgentMeta, canCapture: bool, gf: int, w: CaptureWorld)
    requires MetaShape(am) && gf != IntMin
    ensures var s := StartPass(c, am, canCapture, gf, w);
      && |s| == |am.anchors|
      && forall i :: 0 <= i < |am.anchors| ==>
        && SameIdentity(am.anchors[i], s[i])
        && SideOf(s[i], false) == SideOf(am.anchors[i], false)
        && SideStep(c, am.agentId, am.anchors[i], s[i], true, gf, canCapture, w)
  {
    var s := StartPass(c, am, canCapture, gf, w);
    if gf in am.startAnchorsByGf {
      CaptureListEffect(c, am.agentId, am.anchors, am.startAnchorsByGf[gf], true, gf, canCapture, w);
    }
    forall i | 0 <= i < |am.anchors| ensures SideStep(c, am.agentId, am.anchors[i], s[i], true, gf, canCapture, w) {
      if GfOf(am.anchors[i], true) == gf {
        assert gf in am.startAnchorsByGf && i in am.startAnchorsByGf[gf];
      }
    }
  }

  /** A capture pass leaves a captured side alone, and a side whose frame
      is not the pass's frame too. */
  lemma CaptureOneShot(c: Config, am: AgentMeta, canCapture: bool, gf: int, w: CaptureWorld, i: int, isStart: bool)
    requires MetaShape(am) && gf != IntMin && 0 <= i < |am.anchors|
    ensures var a := am.anchors[i];
      var b := CaptureAgent(c, am, canCapture, gf, w).anchors[i];
      && (SideOf(a, isStart).0 ==> SideOf(b, isStart) == SideOf(a, isStart))
      && (GfOf(a, isStart) != gf ==> SideOf(b, isStart) == SideOf(a, isStart))
  {
    CaptureAgentEffect(c, am, canCapture, gf, w);
  }

  /** A pending end side on the pass's own frame is captured with the
      attempt's path; the anchor keeps its identity. */
  lemma CaptureEndPending(c: Config, am: AgentMeta, canCapture: bool, gf: int, w: CaptureWorld, k: int)
    requires MetaShape(am) && gf != IntMin && 0 <= k < |am.anchors|
    requires !am.anchors[k].endCaptured && am.anchors[k].endGf == gf
    ensures var b := CaptureAgent(c, am, canCapture, gf, w).anchors[k];
      SameIdentity(am.anchors[k], b) && b.endImageRel == AttemptPath(c, am.agentId, am.anchors[k], false, gf, canCapture, w)
  {
    CaptureAgentEffect(c, am, canCapture, gf, w);
  }

  /** The attempt's path is empty exactly when the agent cannot capture,
      or the image must be written and its capture fails; otherwise it is
      the image's relative path. */
  lemma AttemptPathMeaning(c: Config, agentId: int, a: AnchorInfo, isStart: bool, gf: int, canCapture: bool, w: CaptureWorld)
    ensures var rel := ImageRelPath(c, agentId, ImageFileName(c, a.anchorIndex, isStart, gf));
      var p := AttemptPath(c, agentId, a, isStart, gf, canCapture, w);
      && (p == "" <==> !canCapture || ((c.overwriteExistingImages || rel !in w.existing) && rel in w.failing))
      && (p != "" ==> p == rel)
  {
    var rel := ImageRelPath(c, agentId, ImageFileName(c, a.anchorIndex, isStart, gf));
    assert |rel| > 0;
  }

  /** Whether an agent can capture now: its transform exists and is
      active, and it has a camera. */
  predicate CanCapture(id: int, runtimes: map<int, AgentRuntime>, poses: map<int, Pose>)
  {
    id in runtimes && id in poses && poses[id].active && runtimes[id].hasCamera
  }

  /** `CaptureAnchorImagesAtFrame`: every agent with a runtime entry takes
      its capture pass; agents without one are skipped. */
  function CaptureAll(c: Config, metas: map<int, AgentMeta>, runtimes: map<int, AgentRuntime>, poses: map<int, Pose>,
                      gf: int, w: CaptureWorld): (r: map<int, AgentMeta>)
    ensures r.Keys == metas.Keys
    ensures forall id :: id in metas && metas[id].agentId in runtimes ==>
              r[id] == CaptureAgent(c, metas[id], CanCapture(metas[id].agentId, runtimes, poses), gf, w)
    ensures forall id :: id in metas && metas[id].agentId !in runtimes ==> r[id] == metas[id]
  {
    map id | id in metas ::
      if metas[id].agentId in runtimes
      then CaptureAgent(c, metas[id], CanCapture(metas[id].agentId, runtimes, poses), gf, w)
      else metas[id]
  }

  // ----------------------------------------------------------------------
  // Record composition

  /** The stored tag of a frame, or `{"active": false}`. */
  function BaseTag(rt: Option<AgentRuntime>, gf: int): JObject
  {
    if rt.Some? && gf != IntMin && gf in rt.value.tagByFrame
    then FrameTagToJObject(rt.value.tagByFrame[gf])
    else map["active" := JBool(false)]
  }

  /** The seconds left until the trajectory's end, never negative; the
      frame difference is a C# `int` subtraction, so it wraps. */
  function RemainingTrajSec(c: Config, trajEnd: int, gf: int): real
  {
    MaxR(0.0, Wrap32(trajEnd - gf) as real * c.timePerFrame)
  }

  /** `startFrameTag` / `endFrameTag` of a flushed record. */
  function TagObject(c: Config, trajEnd: int, rt: Option<AgentRuntime>, gf: int, path: string): JObject
  {
    var b := BaseTag(rt, gf);
    var withImage := if path != "" then b["imagePath" := JStr(path)]["imageGf" := JInt(gf)] else b;
    if trajEnd == IntMin then withImage
    else
      var t := withImage["trajEndGf" := JInt(trajEnd)];
      if gf != IntMin then t["remainingTrajSec" := JNum(RemainingTrajSec(c, trajEnd, gf))] else t
  }

  /** `AppendOneAnchorLine`'s line: the original text when it did not
      parse, otherwise the record with both tags set and `frameTags`
      removed. */
  function AnchorLine(c: Config, trajEnd: int, rt: Option<AgentRuntime>, a: AnchorInfo): OutLine
  {
    match a.original
    case Unparsed(text) => Verbatim(text)
    case Parsed(obj) =>
      var st := TagObject(c, trajEnd, rt, a.startGf, a.startImageRel);
      var et := TagObject(c, trajEnd, rt, a.endGf, a.endImageRel);
      Record(obj["startFrameTag" := JObj(st)]["endFrameTag" := JObj(et)] - {"frameTags"})
  }

  lemma BaseTagLacksExtras(rt: Option<AgentRuntime>, gf: int)
    ensures forall k :: k in ExtraKeys ==> k !in BaseTag(rt, gf)
  {
    if rt.Some? && gf != IntMin && gf in rt.value.tagByFrame {
      TagJsonLacksExtras(rt.value.tagByFrame[gf]);
    }
  }

  /** The tag object says whether the agent was active (false when no tag
      is stored); it carries an image exactly when the path is non-empty,
      the trajectory end exactly when it is known, and the remaining time
      exactly when, in addition, the frame is a real one. */
  lemma TagObjectFields(c: Config, trajEnd: int, rt: Option<AgentRuntime>, gf: int, path: string)
    ensures var o := TagObject(c, trajEnd, rt, gf, path);
      var stored := rt.Some? && gf != IntMin && gf in rt.value.tagByFrame;
      && "active" in o
      && o["active"] == JBool(stored && rt.value.tagByFrame[gf].active)
      && ("imagePath" in o <==> path != "")
      && (path != "" ==> o["imagePath"] == JStr(path) && "imageGf" in o && o["imageGf"] == JInt(gf))
      && ("trajEndGf" in o <==> trajEnd != IntMin)
      && (trajEnd != IntMin ==> o["trajEndGf"] == JInt(trajEnd))
      && ("remainingTrajSec" in o <==> trajEnd != IntMin && gf != IntMin)
      && ("remainingTrajSec" in o ==> o["remainingTrajSec"] == JNum(RemainingTrajSec(c, trajEnd, gf)))
  {
    BaseTagLacksExtras(rt, gf);
    var stored := rt.Some? && gf != IntMin && gf in rt.value.tagByFrame;
    if stored { TagJsonActiveAndGround(rt.value.tagByFrame[gf]); }
  }

  /** The remaining time is never negative and, before the end, is the
      number of frames left times the frame duration, as long as that
      number fits in an `int`; a larger one wraps negative and reads as no
      time left. */
  lemma RemainingTrajSecMeaning(c: Config, trajEnd: int, gf: int)
    requires c.timePerFrame >= 0.0
    ensures RemainingTrajSec(c, trajEnd, gf) >= 0.0
    ensures gf <= trajEnd <= gf + IntMax ==> RemainingTrajSec(c, trajEnd, gf) == (trajEnd - gf) as real * c.timePerFrame
    ensures IsInt32(trajEnd) && IsInt32(gf) && trajEnd - gf > IntMax ==> RemainingTrajSec(c, trajEnd, gf) == 0.0
  {
    var d := trajEnd - gf;
    if 0 <= d <= IntMax {
      assert Wrap32(d) == d;
      NonNegProduct(d as real, c.timePerFrame);
    } else if IsInt32(trajEnd) && IsInt32(gf) && d > IntMax {
      WrapNegative(d);
      NonPosProduct(Wrap32(d) as real, c.timePerFrame);
    }
  }

  /** A written line is the original text exactly when that text did not
      parse; a record keeps every other field of the original, gains both
      tags and loses `frameTags`. */
  lemma AnchorLineShape(c: Config, trajEnd: int, rt: Option<AgentRuntime>, a: AnchorInfo)
    ensures AnchorLine(c, trajEnd, rt, a).Verbatim? <==> a.original.Unparsed?
    ensures a.original.Unparsed? ==> AnchorLine(c, trajEnd, rt, a) == Verbatim(a.original.text)
    ensures a.original.Parsed? ==>
      var o := AnchorLine(c, trajEnd, rt, a).obj;
      && "frameTags" !in o
      && "startFrameTag" in o && o["startFrameTag"] == JObj(TagObject(c, trajEnd, rt, a.startGf, a.startImageRel))
      && "endFrameTag" in o && o["endFrameTag"] == JObj(TagObject(c, trajEnd, rt, a.endGf, a.endImageRel))
      && forall k :: k in a.original.obj && k !in {"frameTags", "startFrameTag", "endFrameTag"} ==> k in o && o[k] == a.original.obj[k]
  {
  }

  // ----------------------------------------------------------------------
  // Flushing

  /** `WriteAnchorsUpToFrame` for one agent: from the cursor on, every
      anchor whose end frame has been reached is appended (unless its
      append throws) and the cursor moves past it; the first anchor not yet
      due stops the loop. */
  function Flush(c: Config, am: AgentMeta, rt: Option<AgentRuntime>, gf: int, writeFails: set<int>): AgentMeta
    decreases |am.anchors| - am.nextAnchorToWrite
  {
    var k := am.nextAnchorToWrite;
    if k >= |am.anchors| then am
    else if gf < am.anchors[k].endGf then am
    else
      Flush(c, am.(nextAnchorToWrite := k + 1, written := am.written + LineAt(c, am.anchors, am.trajEndGf, rt, k, writeFails)), rt, gf, writeFails)
  }

  /** What appending anchor `k` adds to the output: its line, or nothing
      when the append throws. */
  function LineAt(c: Config, anchors: seq<AnchorInfo>, trajEnd: int, rt: Option<AgentRuntime>, k: nat, writeFails: set<int>): seq<Written>
    requires k < |anchors|
  {
    if k in writeFails then [] else [Written(k, AnchorLine(c, trajEnd, rt, anchors[k]))]
  }

  /** The lines appended for the anchors in [lo, hi), in order: the
      reference definition the flush is measured against. */
  function LinesFor(c: Config, anchors: seq<AnchorInfo>, trajEnd: int, rt: Option<AgentRuntime>, lo: nat, hi: nat,
                    writeFails: set<int>): seq<Written>
    requires lo <= hi <= |anchors|
    decreases hi - lo
  {
    if lo == hi then []
    else LineAt(c, anchors, trajEnd, rt, lo, writeFails) + LinesFor(c, anchors, trajEnd, rt, lo + 1, hi, writeFails)
  }

  /** The one step of the flush loop at the cursor. */
  function FlushStep(c: Config, am: AgentMeta, rt: Option<AgentRuntime>, writeFails: set<int>): AgentMeta
    requires am.nextAnchorToWrite < |am.anchors|
  {
    var k := am.nextAnchorToWrite;
    am.(nextAnchorToWrite := k + 1, written := am.written + LineAt(c, am.anchors, am.trajEndGf, rt, k, writeFails))
  }

  lemma FlushUnfold(c: Config, am: AgentMeta, rt: Option<AgentRuntime>, gf: int, writeFails: set<int>)
    requires am.nextAnchorToWrite < |am.anchors| && am.anchors[am.nextAnchorToWrite].endGf <= gf
    ensures Flush(c, am, rt, gf, writeFails) == Flush(c, FlushStep(c, am, rt, writeFails), rt, gf, writeFails)
  {
  }

  /** The cursor never moves back and never passes the last anchor; every
      anchor it passes was due; when it stops short of the end, the anchor
      under it is not due. Only the cursor and the output change. */
  lemma {:induction false} FlushCursor(c: Config, am: AgentMeta, rt: Option<AgentRuntime>, gf: int, writeFails: set<int>)
    requires am.nextAnchorToWrite <= |am.anchors|
    ensures var r := Flush(c, am, rt, gf, writeFails);
      && r == am.(nextAnchorToWrite := r.nextAnchorToWrite, written := r.written)
      && am.nextAnchorToWrite <= r.nextAnchorToWrite <= |am.anchors|
      && (forall i :: am.nextAnchorToWrite <= i < r.nextAnchorToWrite ==> am.anchors[i].endGf <= gf)
      && (r.nextAnchorToWrite < |am.anchors| ==> gf < am.anchors[r.nextAnchorToWrite].endGf)
    decreases |am.anchors| - am.nextAnchorToWrite
  {
    var k := am.nextAnchorToWrite;
    if k < |am.anchors| && am.anchors[k].endGf <= gf {
      var am1 := FlushStep(c, am, rt, writeFails);
      FlushUnfold(c, am, rt, gf, writeFails);
      FlushCursor(c, am1, rt, gf, writeFails);
    }
  }

  /** The output gains exactly the lines of the anchors the cursor passed,
      in order. */
  lemma {:induction false} FlushWritten(c: Config, am: AgentMeta, rt: Option<AgentRuntime>, gf: int, writeFails: set<int>)
    requires am.nextAnchorToWrite <= |am.anchors|
    ensures var r := Flush(c, am, rt, gf, writeFails);
      am.nextAnchorToWrite <= r.nextAnchorToWrite <= |am.anchors|
      && r.written == am.written + LinesFor(c, am.anchors, am.trajEndGf, rt, am.nextAnchorToWrite, r.nextAnchorToWrite, writeFails)
    decreases |am.anchors| - am.nextAnchorToWrite
  {
    var k := am.nextAnchorToWrite;
    if k < |am.anchors| && am.anchors[k].endGf <= gf {
      var am1 := FlushStep(c, am, rt, writeFails);
      FlushUnfold(c, am, rt, gf, writeFails);
      FlushWritten(c, am1, rt, gf, writeFails);
      var r := Flush(c, am1, rt, gf, writeFails);
      var rest := LinesFor(c, am.anchors, am.trajEndGf, rt, k + 1, r.nextAnchorToWrite, writeFails);
      var line := LineAt(c, am.anchors, am.trajEndGf, rt, k, writeFails);
      assert r.written == (am.written + line) + rest;
      assert LinesFor(c, am.anchors, am.trajEndGf, rt, k, r.nextAnchorToWrite, writeFails) == line + rest;
      assert (am.written + line) + rest == am.written + (line + rest);
    }
  }

  /** The output holds each anchor at most once, in index order, and only
      anchors behind the cursor. */
  predicate WrittenOk(am: AgentMeta)
  {
    && (forall j :: 0 <= j < |am.written| ==> am.written[j].anchorIndex < am.nextAnchorToWrite)
    && (forall j, k :: 0 <= j < k < |am.written| ==> am.written[j].anchorIndex < am.written[k].anchorIndex)
  }

  lemma LinesForIndices(c: Config, anchors: seq<AnchorInfo>, trajEnd: int, rt: Option<AgentRuntime>, lo: nat, hi: nat, writeFails: set<int>)
    requires lo <= hi <= |anchors|
    ensures var s := LinesFor(c, anchors, trajEnd, rt, lo, hi, writeFails);
      (forall j :: 0 <= j < |s| ==> lo <= s[j].anchorIndex < hi)
      && (forall j, k :: 0 <= j < k < |s| ==> s[j].anchorIndex < s[k].anchorIndex)
    decreases hi - lo
  {
    if lo < hi { LinesForIndices(c, anchors, trajEnd, rt, lo + 1, hi, writeFails); }
  }

  /** Flushing keeps the output free of repeats: since the cursor only
      moves forward and every new line is for an anchor it just passed, no
      anchor is ever written twice. */
  lemma FlushKeepsWrittenOk(c: Config, am: AgentMeta, rt: Option<AgentRuntime>, gf: int, writeFails: set<int>)
    requires am.nextAnchorToWrite <= |am.anchors| && WrittenOk(am)
    ensures WrittenOk(Flush(c, am, rt, gf, writeFails))
  {
    FlushWritten(c, am, rt, gf, writeFails);
    var r := Flush(c, am, rt, gf, writeFails);
    var s := LinesFor(c, am.anchors, am.trajEndGf, rt, am.nextAnchorToWrite, r.nextAnchorToWrite, writeFails);
    LinesForIndices(c, am.anchors, am.trajEndGf, rt, am.nextAnchorToWrite, r.nextAnchorToWrite, writeFails);
    assert r.written == am.written + s;
    forall j, k | 0 <= j < k < |r.written| ensures r.written[j].anchorIndex < r.written[k].anchorIndex {
      if k < |am.written| {
      } else if j < |am.written| {
        assert r.written[k] == s[k - |am.written|];
      } else {
        assert r.written[j] == s[j - |am.written|] && r.written[k] == s[k - |am.written|];
      }
    }
    forall j | 0 <= j < |r.written| ensures r.written[j].anchorIndex < r.nextAnchorToWrite {
      if j >= |am.written| { assert r.written[j] == s[j - |am.written|]; }
    }
  }

  /** A placeholder under the cursor (end frame `int.MinValue`) is flushed
      on any real frame. */
  lemma FlushPassesPlaceholder(c: Config, am: AgentMeta, rt: Option<AgentRuntime>, gf: int, writeFails: set<int>)
    requires am.nextAnchorToWrite < |am.anchors| && am.anchors[am.nextAnchorToWrite].endGf == IntMin && IsInt32(gf)
    ensures Flush(c, am, rt, gf, writeFails).nextAnchorToWrite > am.nextAnchorToWrite
  {
    FlushUnfold(c, am, rt, gf, writeFails);
    FlushCursor(c, FlushStep(c, am, rt, writeFails), rt, gf, writeFails);
  }

  /** A failing append loses its line but moves the cursor all the same. */
  lemma {:induction false} FlushCursorIgnoresFailures(c: Config, am: AgentMeta, rt: Option<AgentRuntime>, gf: int, writeFails: set<int>)
    ensures Flush(c, am, rt, gf, writeFails).nextAnchorToWrite == Flush(c, am, rt, gf, {}).nextAnchorToWrite
    decreases |am.anchors| - am.nextAnchorToWrite
  {
    var k := am.nextAnchorToWrite;
    if k < |am.anchors| && am.anchors[k].endGf <= gf {
      var am1 := am.(nextAnchorToWrite := k + 1, written := am.written + LineAt(c, am.anchors, am.trajEndGf, rt, k, writeFails));
      var am0 := am.(nextAnchorToWrite := k + 1, written := am.written + LineAt(c, am.anchors, am.trajEndGf, rt, k, {}));
      FlushCursorIgnoresFailures(c, am1, rt, gf, writeFails);
      FlushCursorIgnoresFailures(c, am0, rt, gf, {});
      FlushCursorIgnoresWritten(c, am1, am0, rt, gf);
    }
  }

  lemma {:induction false} FlushCursorIgnoresWritten(c: Config, a: AgentMeta, b: AgentMeta, rt: Option<AgentRuntime>, gf: int)
    requires b == a.(written := b.written)
    ensures Flush(c, a, rt, gf, {}).nextAnchorToWrite == Flush(c, b, rt, gf, {}).nextAnchorToWrite
    decreases |a.anchors| - a.nextAnchorToWrite
  {
    var k := a.nextAnchorToWrite;
    if k < |a.anchors| && a.anchors[k].endGf <= gf {
      var a1 := a.(nextAnchorToWrite := k + 1, written := a.written + LineAt(c, a.anchors, a.trajEndGf, rt, k, {}));
      var b1 := b.(nextAnchorToWrite := k + 1, written := b.written + LineAt(c, b.anchors, b.trajEndGf, rt, k, {}));
      FlushCursorIgnoresWritten(c, a1, b1, rt, gf);
    }
  }

  /** The anchors of one agent whose append throws. */
  function FailsOf(am: AgentMeta, writeFails: set<(int, int)>): set<int>
  {
    set k | 0 <= k < |am.anchors| && (am.agentId, k) in writeFails
  }

  /** The runtime entry of an agent, if any. */
  function RuntimeOf(runtimes: map<int, AgentRuntime>, id: int): Option<AgentRuntime>
  {
    if id in runtimes then Some(runtimes[id]) else None
  }

  /** `WriteAnchorsUpToFrame` over every agent. */
  function FlushAll(c: Config, metas: map<int, AgentMeta>, runtimes: map<int, AgentRuntime>, gf: int,
                    writeFails: set<(int, int)>): (r: map<int, AgentMeta>)
    ensures r.Keys == metas.Keys
    ensures forall id :: id in metas ==>
              r[id] == Flush(c, metas[id], RuntimeOf(runtimes, metas[id].agentId), gf, FailsOf(metas[id], writeFails))
  {
    map id | id in metas ::
      Flush(c, metas[id], RuntimeOf(runtimes, metas[id].agentId), gf, FailsOf(metas[id], writeFails))
  }
}

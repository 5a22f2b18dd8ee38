/** The anchor tagger's annotation state and how `LoadMetaFromJsonlFolder`
    builds it from the per-agent JSONL files: one `AnchorInfo` per non-blank
    line, in file order, with start and end frames and the frame-to-anchor
    indices used by capture and flushing.

    A file is given as its base name and its lines; each line comes with
    the object Newtonsoft's `JObject.Parse` makes of it, or `None` where
    that throws. */
module TagLoad {
  import opened Base
  import opened Text
  import opened Json
  import opened TagSensing
  import opened TagFrames

  /** What an anchor writes back: the line itself when it did not parse,
      otherwise the parsed object (to which the flush adds the tags). */
  datatype Original = Unparsed(text: string) | Parsed(obj: JObject)

  datatype AnchorInfo = AnchorInfo(
    anchorIndex: int,
    original: Original,
    frames: seq<int>,
    startGf: int, endGf: int,
    startCaptured: bool, endCaptured: bool,
    startImageRel: string, endImageRel: string)

  /** A line appended to an agent's output file. */
  datatype OutLine = Verbatim(text: string) | Record(obj: JObject)

  /** An appended line, with the anchor it was written for. */
  datatype Written = Written(anchorIndex: int, line: OutLine)

  /** `AgentMeta`; `written` stands for the agent's output file. */
  datatype AgentMeta = AgentMeta(
    baseName: string,
    agentId: int,
    metaByFrame: map<int, FrameMeta>,
    anchors: seq<AnchorInfo>,
    startAnchorsByGf: map<int, seq<int>>,
    endAnchorsByGf: map<int, seq<int>>,
    nextAnchorToWrite: nat,
    trajEndGf: int,
    outPath: string,
    written: seq<Written>)

  datatype InputLine = InputLine(text: string, parsed: Option<JObject>)

  datatype JsonlFile = JsonlFile(baseName: string, lines: seq<InputLine>)

  function NewMeta(baseName: string, id: int): AgentMeta
  {
    AgentMeta(baseName, id, map[], [], map[], map[], 0, IntMin, "", [])
  }

  /** The start (`isStart`) or end frame of an anchor. */
  function GfOf(a: AnchorInfo, isStart: bool): int { if isStart then a.startGf else a.endGf }

  /** The anchor made for a line that does not parse or has no frames: no
      frames, both frames `int.MinValue`, both captures already done. */
  function Placeholder(idx: int, o: Original): AnchorInfo
  {
    AnchorInfo(idx, o, [], IntMin, IntMin, true, true, "", "")
  }

  function SeqMin(s: seq<int>): (m: int)
    requires |s| > 0
    ensures (exists i :: 0 <= i < |s| && s[i] == m) && forall i :: 0 <= i < |s| ==> m <= s[i]
  {
    if |s| == 1 then s[0]
    else
      var r := SeqMin(s[1..]);
      assert forall i :: 1 <= i < |s| ==> s[1..][i - 1] == s[i];
      if s[0] <= r then s[0] else r
  }

  function SeqMax(s: seq<int>): (m: int)
    requires |s| > 0
    ensures (exists i :: 0 <= i < |s| && s[i] == m) && forall i :: 0 <= i < |s| ==> m >= s[i]
  {
    if |s| == 1 then s[0]
    else
      var r := SeqMax(s[1..]);
      assert forall i :: 1 <= i < |s| ==> s[1..][i - 1] == s[i];
      if s[0] >= r then s[0] else r
  }

  /** The running minimum of `Mathf.Min(_globalMin, gf)` over `frames`. */
  function FoldMin(g: int, frames: seq<int>): (m: int)
    ensures m <= g && forall i :: 0 <= i < |frames| ==> m <= frames[i]
    ensures m == g || exists i :: 0 <= i < |frames| && frames[i] == m
  {
    if frames == [] then g
    else
      var p := FoldMin(g, frames[..|frames| - 1]);
      assert forall i :: 0 <= i < |frames| - 1 ==> frames[..|frames| - 1][i] == frames[i];
      MinI(p, frames[|frames| - 1])
  }

  function FoldMax(g: int, frames: seq<int>): (m: int)
    ensures m >= g && forall i :: 0 <= i < |frames| ==> m >= frames[i]
    ensures m == g || exists i :: 0 <= i < |frames| && frames[i] == m
  {
    if frames == [] then g
    else
      var p := FoldMax(g, frames[..|frames| - 1]);
      assert forall i :: 0 <= i < |frames| - 1 ==> frames[..|frames| - 1][i] == frames[i];
      MaxI(p, frames[|frames| - 1])
  }

  /** `metaByFrame[gf] = fm` for every frame of a record, in order. */
  function PutFrames(mbf: map<int, FrameMeta>, frames: seq<int>, fm: FrameMeta): (r: map<int, FrameMeta>)
    ensures forall gf :: gf in r <==> gf in mbf || gf in frames
    ensures forall gf :: gf in frames ==> r[gf] == fm
    ensures forall gf :: gf in mbf && gf !in frames ==> r[gf] == mbf[gf]
  {
    if frames == [] then mbf
    else
      var p := frames[..|frames| - 1];
      assert forall gf :: gf in frames <==> gf in p || gf == frames[|frames| - 1];
      PutFrames(mbf, p, fm)[frames[|frames| - 1] := fm]
  }

  /** `RegisterAnchorIndex`: appends `idx` to the list of frame `gf`, unless
      `gf` is the `int.MinValue` sentinel. */
  function RegisterAnchorIndex(d: map<int, seq<int>>, gf: int, idx: int): map<int, seq<int>>
  {
    if gf == IntMin then d else d[gf := (if gf in d then d[gf] else []) + [idx]]
  }

  /** Whether the `groups` array casts; a missing one gives no ids. */
  function GroupIdsOf(obj: JObject): Option<seq<int>>
  {
    var groups := ArrayField(obj, "groups");
    if groups.None? then Some([]) else CastInts(groups.value)
  }

  /** `hasGoal` and `goalWorld`: the goal needs at least three items, and
      `None` stands for an item that does not cast. */
  function GoalOf(obj: JObject): Option<(bool, Vec3)>
  {
    var goal := ArrayField(obj, "goalWorldPosition");
    if goal.None? || |goal.value| < 3 then Some((false, Zero3))
    else
      var x := CastReal(goal.value[0]);
      var y := CastReal(goal.value[1]);
      var z := CastReal(goal.value[2]);
      if x.None? || y.None? || z.None? then None else Some((true, Vec3(x.value, y.value, z.value)))
  }

  /** The record has a non-empty `globalFrames` array. */
  predicate HasFrames(obj: JObject)
  {
    var gfs := ArrayField(obj, "globalFrames");
    gfs.Some? && |gfs.value| > 0
  }

  /** The state of one file's loop plus the global frame range so far. */
  datatype LoadState = LoadState(am: AgentMeta, gmin: int, gmax: int)

  function AddPlaceholder(am: AgentMeta, o: Original): AgentMeta
  {
    am.(anchors := am.anchors + [Placeholder(|am.anchors|, o)])
  }

  /** A record with frames: the anchor, its two index entries, the
      trajectory end, the annotation of each frame and the global range. */
  function AddRecord(st: LoadState, obj: JObject, frames: seq<int>, fm: FrameMeta): LoadState
    requires |frames| > 0
  {
    var am := st.am;
    var idx := |am.anchors|;
    var s := SeqMin(frames);
    var e := SeqMax(frames);
    var a := AnchorInfo(idx, Parsed(obj), frames, s, e, false, false, "", "");
    LoadState(
      am.(anchors := am.anchors + [a],
          trajEndGf := if am.trajEndGf == IntMin then e else MaxI(am.trajEndGf, e),
          startAnchorsByGf := RegisterAnchorIndex(am.startAnchorsByGf, s, idx),
          endAnchorsByGf := RegisterAnchorIndex(am.endAnchorsByGf, e, idx),
          metaByFrame := PutFrames(am.metaByFrame, frames, fm)),
      FoldMin(st.gmin, frames), FoldMax(st.gmax, frames))
  }

  /** One line of a file. `None` is an exception that ends the load: a
      frame, group id or goal coordinate that does not cast. */
  function LoadLine(st: LoadState, line: InputLine): Option<LoadState>
  {
    if IsBlank(line.text) then Some(st)
    else if line.parsed.None? then Some(st.(am := AddPlaceholder(st.am, Unparsed(line.text))))
    else
      var obj := line.parsed.value;
      if !HasFrames(obj) then Some(st.(am := AddPlaceholder(st.am, Parsed(obj))))
      else
        var frames := CastInts(ArrayField(obj, "globalFrames").value);
        var gids := GroupIdsOf(obj);
        var goal := GoalOf(obj);
        if frames.None? || gids.None? || goal.None? then None
        else Some(AddRecord(st, obj, frames.value, FrameMeta(gids.value, goal.value.1, goal.value.0)))
  }

  function LoadLines(st: LoadState, lines: seq<InputLine>): Option<LoadState>
  {
    if lines == [] then Some(st)
    else
      var p := LoadLines(st, lines[..|lines| - 1]);
      if p.None? then None else LoadLine(p.value, lines[|lines| - 1])
  }

  // ----------------------------------------------------------------------
  // What a loaded agent satisfies

  /** The fields of anchor `i` that loading fixes for good. */
  predicate AnchorShape(a: AnchorInfo, i: int)
  {
    && a.anchorIndex == i
    && (a.original.Unparsed? ==> a.frames == [])
    && (a.frames == [] ==> a.startGf == IntMin && a.endGf == IntMin)
    && (a.frames != [] ==> a.startGf == SeqMin(a.frames) && a.endGf == SeqMax(a.frames)
                           && forall j :: 0 <= j < |a.frames| ==> IsInt32(a.frames[j]))
  }

  /** Captures as loading leaves them: done for placeholders, pending for
      records, no image yet. */
  predicate AnchorFresh(a: AnchorInfo)
  {
    && a.startImageRel == "" && a.endImageRel == ""
    && a.startCaptured == (a.frames == []) && a.endCaptured == (a.frames == [])
  }

  predicate Increasing(s: seq<int>)
  {
    forall j, k :: 0 <= j < k < |s| ==> s[j] < s[k]
  }

  /** The start (or end) index: frame `g` lists, in increasing order, exactly
      the anchors whose start (end) frame is `g`; the sentinel is never a
      key. */
  predicate IndexOk(d: map<int, seq<int>>, anchors: seq<AnchorInfo>, isStart: bool)
  {
    && IntMin !in d
    && (forall g :: g in d ==> Increasing(d[g]))
    && (forall g, j :: g in d && 0 <= j < |d[g]| ==> 0 <= d[g][j] < |anchors| && GfOf(anchors[d[g][j]], isStart) == g)
    && (forall i :: 0 <= i < |anchors| && GfOf(anchors[i], isStart) != IntMin ==>
          GfOf(anchors[i], isStart) in d && i in d[GfOf(anchors[i], isStart)])
  }

  /** `trajEndGf` is the largest end frame of a record, or the sentinel
      when there is none. */
  predicate TrajOk(am: AgentMeta)
  {
    && (forall i :: 0 <= i < |am.anchors| && am.anchors[i].frames != [] ==> am.anchors[i].endGf <= am.trajEndGf)
    && (am.trajEndGf == IntMin || exists i :: 0 <= i < |am.anchors| && am.anchors[i].frames != [] && am.anchors[i].endGf == am.trajEndGf)
  }

  /** The frames with an annotation are exactly the frames of the records. */
  predicate FramesOk(am: AgentMeta)
  {
    && (forall gf :: gf in am.metaByFrame ==> exists i :: 0 <= i < |am.anchors| && gf in am.anchors[i].frames)
    && (forall i, gf :: 0 <= i < |am.anchors| && gf in am.anchors[i].frames ==> gf in am.metaByFrame)
  }

  predicate MetaShape(am: AgentMeta)
  {
    && (forall i :: 0 <= i < |am.anchors| ==> AnchorShape(am.anchors[i], i))
    && IndexOk(am.startAnchorsByGf, am.anchors, true)
    && IndexOk(am.endAnchorsByGf, am.anchors, false)
    && TrajOk(am)
    && FramesOk(am)
  }

  /** A meta as loading leaves it. */
  predicate Loaded(am: AgentMeta)
  {
    MetaShape(am) && forall i :: 0 <= i < |am.anchors| ==> AnchorFresh(am.anchors[i])
  }

  /** Every frame of a record lies in the global range. */
  predicate InRange(am: AgentMeta, gmin: int, gmax: int)
  {
    forall i, j :: 0 <= i < |am.anchors| && 0 <= j < |am.anchors[i].frames| ==>
      gmin <= am.anchors[i].frames[j] <= gmax
  }

  predicate LoadInv(st: LoadState)
  {
    Loaded(st.am) && InRange(st.am, st.gmin, st.gmax)
  }

  lemma RegisterKeepsIndex(d: map<int, seq<int>>, anchors: seq<AnchorInfo>, a: AnchorInfo, isStart: bool)
    requires IndexOk(d, anchors, isStart)
    ensures IndexOk(RegisterAnchorIndex(d, GfOf(a, isStart), |anchors|), anchors + [a], isStart)
  {
    var n := |anchors|;
    var anchors' := anchors + [a];
    var g0 := GfOf(a, isStart);
    var d' := RegisterAnchorIndex(d, g0, n);
    forall g, j | g in d' && 0 <= j < |d'[g]|
      ensures 0 <= d'[g][j] < |anchors'| && GfOf(anchors'[d'[g][j]], isStart) == g
    {
      if g0 != IntMin && g == g0 && j == |d'[g]| - 1 {
      } else {
        assert g in d && d'[g][j] == d[g][j];
      }
    }
    forall g | g in d' ensures Increasing(d'[g]) {
      if g0 != IntMin && g == g0 {
        var old_ := if g in d then d[g] else [];
        assert d'[g] == old_ + [n];
        forall j | 0 <= j < |old_| ensures old_[j] < n { }
      }
    }
    forall i | 0 <= i < |anchors'| && GfOf(anchors'[i], isStart) != IntMin
      ensures GfOf(anchors'[i], isStart) in d' && i in d'[GfOf(anchors'[i], isStart)]
    {
      if i < n {
        assert anchors'[i] == anchors[i];
        var g := GfOf(anchors[i], isStart);
        assert i in d[g];
        if g == g0 { assert d'[g] == d[g] + [n]; }
      } else {
        assert d'[g0] == (if g0 in d then d[g0] else []) + [n];
      }
    }
  }

  lemma PlaceholderKeepsIndex(d: map<int, seq<int>>, anchors: seq<AnchorInfo>, o: Original, isStart: bool)
    requires IndexOk(d, anchors, isStart)
    ensures IndexOk(d, anchors + [Placeholder(|anchors|, o)], isStart)
  {
    var anchors' := anchors + [Placeholder(|anchors|, o)];
    forall g, j | g in d && 0 <= j < |d[g]|
      ensures 0 <= d[g][j] < |anchors'| && GfOf(anchors'[d[g][j]], isStart) == g
    {
      assert anchors'[d[g][j]] == anchors[d[g][j]];
    }
    forall i | 0 <= i < |anchors'| && GfOf(anchors'[i], isStart) != IntMin
      ensures GfOf(anchors'[i], isStart) in d && i in d[GfOf(anchors'[i], isStart)]
    {
      assert i < |anchors|;
      assert anchors'[i] == anchors[i];
    }
  }

  lemma PlaceholderTraj(am: AgentMeta, o: Original)
    requires TrajOk(am)
    ensures TrajOk(AddPlaceholder(am, o))
  {
    var am' := AddPlaceholder(am, o);
    var n := |am.anchors|;
    assert forall i :: 0 <= i < n ==> am'.anchors[i] == am.anchors[i];
    if am.trajEndGf != IntMin {
      var i :| 0 <= i < n && am.anchors[i].frames != [] && am.anchors[i].endGf == am.trajEndGf;
      assert am'.anchors[i] == am.anchors[i];
    }
  }

  lemma PlaceholderRange(am: AgentMeta, o: Original, gmin: int, gmax: int)
    requires InRange(am, gmin, gmax)
    ensures InRange(AddPlaceholder(am, o), gmin, gmax)
  {
    var am' := AddPlaceholder(am, o);
    assert forall i :: 0 <= i < |am.anchors| ==> am'.anchors[i] == am.anchors[i];
  }

  /** A placeholder keeps every loading invariant. */
  lemma AddPlaceholderOk(st: LoadState, o: Original)
    requires LoadInv(st)
    ensures LoadInv(st.(am := AddPlaceholder(st.am, o)))
  {
    var am := st.am;
    var n := |am.anchors|;
    PlaceholderKeepsIndex(am.startAnchorsByGf, am.anchors, o, true);
    PlaceholderKeepsIndex(am.endAnchorsByGf, am.anchors, o, false);
    PlaceholderTraj(am, o);
    PlaceholderRange(am, o, st.gmin, st.gmax);
    AppendRecordAnchors(am.anchors, Placeholder(n, o));
    RecordFrames(am, Placeholder(n, o), am.metaByFrame);
    assert AddPlaceholder(am, o) == am.(anchors := am.anchors + [Placeholder(n, o)], metaByFrame := am.metaByFrame);
  }

  lemma AddRecordTraj(am: AgentMeta, a: AnchorInfo)
    requires TrajOk(am) && a.frames != []
    requires forall i :: 0 <= i < |am.anchors| && am.anchors[i].frames != [] ==> am.anchors[i].endGf >= IntMin
    requires a.endGf >= IntMin
    ensures TrajOk(am.(anchors := am.anchors + [a],
                       trajEndGf := if am.trajEndGf == IntMin then a.endGf else MaxI(am.trajEndGf, a.endGf)))
  {
    var am' := am.(anchors := am.anchors + [a],
                   trajEndGf := if am.trajEndGf == IntMin then a.endGf else MaxI(am.trajEndGf, a.endGf));
    var n := |am.anchors|;
    assert am'.anchors[n] == a;
    assert forall i :: 0 <= i < n ==> am'.anchors[i] == am.anchors[i];
    if am'.trajEndGf != a.endGf {
      var i :| 0 <= i < n && am.anchors[i].frames != [] && am.anchors[i].endGf == am.trajEndGf;
      assert am'.anchors[i] == am.anchors[i];
    }
  }

  lemma AppendRecordAnchors(anchors: seq<AnchorInfo>, a: AnchorInfo)
    requires forall i :: 0 <= i < |anchors| ==> AnchorShape(anchors[i], i) && AnchorFresh(anchors[i])
    requires AnchorShape(a, |anchors|) && AnchorFresh(a)
    ensures var s := anchors + [a]; forall i :: 0 <= i < |s| ==> AnchorShape(s[i], i) && AnchorFresh(s[i])
  {
    var s := anchors + [a];
    forall i | 0 <= i < |s| ensures AnchorShape(s[i], i) && AnchorFresh(s[i]) {
      if i < |anchors| { assert s[i] == anchors[i]; }
    }
  }

  lemma EndsAreInt32(anchors: seq<AnchorInfo>)
    requires forall i :: 0 <= i < |anchors| ==> AnchorShape(anchors[i], i)
    ensures forall i :: 0 <= i < |anchors| && anchors[i].frames != [] ==> anchors[i].endGf >= IntMin
  {
    forall i | 0 <= i < |anchors| && anchors[i].frames != [] ensures anchors[i].endGf >= IntMin {
      assert AnchorShape(anchors[i], i);
      assert IsInt32(anchors[i].frames[0]);
    }
  }

  lemma RecordFrames(am: AgentMeta, a: AnchorInfo, mbf': map<int, FrameMeta>)
    requires FramesOk(am)
    requires forall gf :: gf in mbf' <==> gf in am.metaByFrame || gf in a.frames
    ensures FramesOk(am.(anchors := am.anchors + [a], metaByFrame := mbf'))
  {
    var am' := am.(anchors := am.anchors + [a], metaByFrame := mbf');
    var n := |am.anchors|;
    assert am'.anchors[n] == a;
    forall gf | gf in am'.metaByFrame ensures exists i :: 0 <= i < |am'.anchors| && gf in am'.anchors[i].frames {
      if gf in am.metaByFrame {
        var i :| 0 <= i < n && gf in am.anchors[i].frames;
        assert am'.anchors[i] == am.anchors[i];
      }
    }
    forall i, gf | 0 <= i < |am'.anchors| && gf in am'.anchors[i].frames ensures gf in am'.metaByFrame {
      if i < n { assert am'.anchors[i] == am.anchors[i]; }
    }
  }

  lemma RecordRange(anchors: seq<AnchorInfo>, a: AnchorInfo, gmin: int, gmax: int, gmin': int, gmax': int)
    requires forall i, j :: 0 <= i < |anchors| && 0 <= j < |anchors[i].frames| ==> gmin <= anchors[i].frames[j] <= gmax
    requires gmin' <= gmin && gmax <= gmax'
    requires forall j :: 0 <= j < |a.frames| ==> gmin' <= a.frames[j] <= gmax'
    ensures var s := anchors + [a];
      forall i, j :: 0 <= i < |s| && 0 <= j < |s[i].frames| ==> gmin' <= s[i].frames[j] <= gmax'
  {
    var s := anchors + [a];
    forall i, j | 0 <= i < |s| && 0 <= j < |s[i].frames| ensures gmin' <= s[i].frames[j] <= gmax' {
      if i < |anchors| { assert s[i] == anchors[i]; }
    }
  }

  /** A record keeps every loading invariant. */
  lemma AddRecordOk(st: LoadState, obj: JObject, frames: seq<int>, fm: FrameMeta)
    requires LoadInv(st) && |frames| > 0
    requires forall j :: 0 <= j < |frames| ==> IsInt32(frames[j])
    ensures LoadInv(AddRecord(st, obj, frames, fm))
  {
    var am := st.am;
    var n := |am.anchors|;
    var a := AnchorInfo(n, Parsed(obj), frames, SeqMin(frames), SeqMax(frames), false, false, "", "");
    var st' := AddRecord(st, obj, frames, fm);
    var am' := st'.am;
    assert am'.anchors == am.anchors + [a];
    assert forall i :: 0 <= i < |am'.anchors| ==> AnchorShape(am'.anchors[i], i) && AnchorFresh(am'.anchors[i]) by {
      AppendRecordAnchors(am.anchors, a);
    }
    RegisterKeepsIndex(am.startAnchorsByGf, am.anchors, a, true);
    RegisterKeepsIndex(am.endAnchorsByGf, am.anchors, a, false);
    assert TrajOk(am') by {
      assert a.endGf >= IntMin by { assert IsInt32(frames[0]); }
      EndsAreInt32(am.anchors);
      AddRecordTraj(am, a);
    }
    assert FramesOk(am') by {
      RecordFrames(am, a, PutFrames(am.metaByFrame, frames, fm));
    }
    assert InRange(am', st'.gmin, st'.gmax) by {
      RecordRange(am.anchors, a, st.gmin, st.gmax, st'.gmin, st'.gmax);
    }
  }

  /** One line keeps every loading invariant. */
  lemma LoadLineOk(st: LoadState, line: InputLine)
    requires LoadInv(st) && LoadLine(st, line).Some?
    ensures LoadInv(LoadLine(st, line).value)
  {
    if IsBlank(line.text) {
    } else if line.parsed.None? {
      AddPlaceholderOk(st, Unparsed(line.text));
    } else {
      var obj := line.parsed.value;
      if !HasFrames(obj) {
        AddPlaceholderOk(st, Parsed(obj));
      } else {
        var frames := CastInts(ArrayField(obj, "globalFrames").value).value;
        var goal := GoalOf(obj).value;
        AddRecordOk(st, obj, frames, FrameMeta(GroupIdsOf(obj).value, goal.1, goal.0));
      }
    }
  }

  /** A whole file keeps every loading invariant: anchors sit at their own
      index, placeholders are done and unindexed, each record is indexed
      under its first and last frame, `trajEndGf` is the last frame of the
      trajectory, and the global range covers every frame. */
  lemma {:induction false} LoadLinesOk(st: LoadState, lines: seq<InputLine>)
    requires LoadInv(st) && LoadLines(st, lines).Some?
    ensures LoadInv(LoadLines(st, lines).value)
    ensures LoadLines(st, lines).value.gmin <= st.gmin && LoadLines(st, lines).value.gmax >= st.gmax
  {
    if lines != [] {
      var p := lines[..|lines| - 1];
      LoadLinesOk(st, p);
      var mid := LoadLines(st, p).value;
      LoadLineOk(mid, lines[|lines| - 1]);
      LoadLineRange(mid, lines[|lines| - 1]);
    }
  }

  lemma LoadLineRange(st: LoadState, line: InputLine)
    requires LoadLine(st, line).Some?
    ensures LoadLine(st, line).value.gmin <= st.gmin && LoadLine(st, line).value.gmax >= st.gmax
  {
  }

  /** Every non-blank line makes exactly one anchor, blank lines none. */
  lemma {:induction false} OneAnchorPerLine(st: LoadState, lines: seq<InputLine>)
    requires LoadLines(st, lines).Some?
    ensures |LoadLines(st, lines).value.am.anchors| == |st.am.anchors| + NonBlankCount(lines)
  {
    if lines != [] {
      OneAnchorPerLine(st, lines[..|lines| - 1]);
    }
  }

  function NonBlankCount(lines: seq<InputLine>): nat
  {
    if lines == [] then 0
    else NonBlankCount(lines[..|lines| - 1]) + (if IsBlank(lines[|lines| - 1].text) then 0 else 1)
  }

  /** A line that does not parse, or parses without frames, becomes a
      placeholder at the next index; a record with frames becomes an anchor
      spanning its least and greatest frame. */
  lemma LoadLineAnchor(st: LoadState, line: InputLine)
    requires LoadLine(st, line).Some? && !IsBlank(line.text)
    ensures var am' := LoadLine(st, line).value.am;
      var n := |st.am.anchors|;
      && am'.anchors[..n] == st.am.anchors && |am'.anchors| == n + 1
      && (line.parsed.None? ==> am'.anchors[n] == Placeholder(n, Unparsed(line.text)))
      && (line.parsed.Some? && HasFrames(line.parsed.value) ==>
            var frames := CastInts(ArrayField(line.parsed.value, "globalFrames").value).value;
            && am'.anchors[n].frames == frames
            && am'.anchors[n].startGf == SeqMin(frames) && am'.anchors[n].endGf == SeqMax(frames))
      && (line.parsed.Some? && !HasFrames(line.parsed.value) ==>
            am'.anchors[n] == Placeholder(n, Parsed(line.parsed.value)))
  {
  }

  // ----------------------------------------------------------------------
  // The folder

  /** The loader's result: the agents by id, their first-insertion order,
      and the running global frame range. */
  datatype LoadAcc = LoadAcc(metas: map<int, AgentMeta>, order: seq<int>, gmin: int, gmax: int)

  const EmptyAcc: LoadAcc := LoadAcc(map[], [], IntMax, IntMin)

  /** One file: skipped when its name has no agent id; otherwise loaded,
      and stored under its id, replacing an earlier file of the same id. */
  function LoadFile(c: Config, acc: LoadAcc, f: JsonlFile): Option<LoadAcc>
  {
    var id := ParseAgentId(c.agentNamePrefix, f.baseName);
    if id < 0 then Some(acc)
    else
      var r := LoadLines(LoadState(NewMeta(f.baseName, id), acc.gmin, acc.gmax), f.lines);
      if r.None? then None
      else Some(LoadAcc(acc.metas[id := r.value.am],
                        if id in acc.metas then acc.order else acc.order + [id],
                        r.value.gmin, r.value.gmax))
  }

  function LoadFiles(c: Config, files: seq<JsonlFile>): Option<LoadAcc>
  {
    if files == [] then Some(EmptyAcc)
    else
      var p := LoadFiles(c, files[..|files| - 1]);
      if p.None? then None else LoadFile(c, p.value, files[|files| - 1])
  }

  /** The files the loader reads: those whose name does not end with the
      output suffix, compared without regard to case. */
  function InputFiles(c: Config, files: seq<JsonlFile>): (r: seq<JsonlFile>)
    ensures forall i :: 0 <= i < |r| ==> !EndsWith(ToLower(r[i].baseName), ToLower(c.outputSuffix))
  {
    if files == [] then []
    else
      var rest := InputFiles(c, files[1..]);
      if EndsWith(ToLower(files[0].baseName), ToLower(c.outputSuffix)) then rest else [files[0]] + rest
  }

  predicate AccOk(acc: LoadAcc)
  {
    && Distinct(acc.order)
    && (forall id :: id in acc.metas ==> id in acc.order)
    && (forall j :: 0 <= j < |acc.order| ==> acc.order[j] in acc.metas)
    && (forall id :: id in acc.metas ==> acc.metas[id].agentId == id && id >= 0 && acc.metas[id].written == [])
    && (forall id :: id in acc.metas ==> acc.metas[id].nextAnchorToWrite == 0)
    && (forall id :: id in acc.metas ==> Loaded(acc.metas[id]) && InRange(acc.metas[id], acc.gmin, acc.gmax))
  }

  lemma InRangeWiden(am: AgentMeta, a: int, b: int, a': int, b': int)
    requires InRange(am, a, b) && a' <= a && b <= b'
    ensures InRange(am, a', b')
  {
  }

  lemma InsertMetaOk(acc: LoadAcc, id: int, am: AgentMeta, gmin: int, gmax: int)
    requires AccOk(acc) && id >= 0 && am.agentId == id && am.written == [] && am.nextAnchorToWrite == 0
    requires Loaded(am) && InRange(am, gmin, gmax)
    requires gmin <= acc.gmin && acc.gmax <= gmax
    ensures AccOk(LoadAcc(acc.metas[id := am], if id in acc.metas then acc.order else acc.order + [id], gmin, gmax))
  {
    var order' := if id in acc.metas then acc.order else acc.order + [id];
    var metas' := acc.metas[id := am];
    forall k | k in metas' ensures InRange(metas'[k], gmin, gmax) {
      if k != id { InRangeWiden(acc.metas[k], acc.gmin, acc.gmax, gmin, gmax); }
    }
    if id !in acc.metas {
      assert forall j :: 0 <= j < |acc.order| ==> acc.order[j] != id;
      assert forall j :: 0 <= j < |order'| ==> order'[j] in metas' by {
        forall j | 0 <= j < |order'| ensures order'[j] in metas' {
          if j < |acc.order| { assert order'[j] == acc.order[j]; }
        }
      }
      assert Distinct(order');
    }
  }

  lemma LoadFileOk(c: Config, acc: LoadAcc, f: JsonlFile)
    requires AccOk(acc) && LoadFile(c, acc, f).Some?
    ensures AccOk(LoadFile(c, acc, f).value)
  {
    var id := ParseAgentId(c.agentNamePrefix, f.baseName);
    if id >= 0 {
      var st := LoadState(NewMeta(f.baseName, id), acc.gmin, acc.gmax);
      assert LoadInv(st);
      LoadLinesOk(st, f.lines);
      AgentIdKept(st, f.lines);
      var r := LoadLines(st, f.lines).value;
      InsertMetaOk(acc, id, r.am, r.gmin, r.gmax);
    }
  }

  lemma {:induction false} AgentIdKept(st: LoadState, lines: seq<InputLine>)
    requires LoadLines(st, lines).Some?
    ensures LoadLines(st, lines).value.am.agentId == st.am.agentId
    ensures LoadLines(st, lines).value.am.baseName == st.am.baseName
    ensures LoadLines(st, lines).value.am.nextAnchorToWrite == st.am.nextAnchorToWrite
    ensures LoadLines(st, lines).value.am.written == st.am.written
  {
    if lines != [] { AgentIdKept(st, lines[..|lines| - 1]); }
  }

  /** The loaded agents are keyed by their own non-negative ids, listed
      once each in first-load order, and each satisfies the loading
      invariants within the global range. */
  lemma {:induction false} LoadFilesOk(c: Config, files: seq<JsonlFile>)
    requires LoadFiles(c, files).Some?
    ensures AccOk(LoadFiles(c, files).value)
  {
    if files != [] {
      LoadFilesOk(c, files[..|files| - 1]);
      LoadFileOk(c, LoadFiles(c, files[..|files| - 1]).value, files[|files| - 1]);
    }
  }

  /** A line that aborts the load aborts it for good: no later line
      undoes it. */
  lemma {:induction false} LoadLinesAbortIsFinal(st: LoadState, lines: seq<InputLine>, k: nat)
    requires k <= |lines| && LoadLines(st, lines[..k]).None?
    ensures LoadLines(st, lines).None?
    decreases |lines|
  {
    if k < |lines| {
      var q := lines[..|lines| - 1];
      assert q[..k] == lines[..k];
      LoadLinesAbortIsFinal(st, q, k);
    } else {
      assert lines[..k] == lines;
    }
  }

  /** Likewise, a file that aborts the load aborts the whole folder. */
  lemma {:induction false} LoadFilesAbortIsFinal(c: Config, files: seq<JsonlFile>, k: nat)
    requires k <= |files| && LoadFiles(c, files[..k]).None?
    ensures LoadFiles(c, files).None?
    decreases |files|
  {
    if k < |files| {
      var q := files[..|files| - 1];
      assert q[..k] == files[..k];
      LoadFilesAbortIsFinal(c, q, k);
    } else {
      assert files[..k] == files;
    }
  }

  // ----------------------------------------------------------------------
  // What a load that throws leaves behind

  /** The global range when a file's line loop stops: after its last line,
      or, when a line throws, as the lines before that one left it (a line
      that throws does so before its frames widen the range). */
  function LoadLinesRange(st: LoadState, lines: seq<InputLine>): (int, int)
  {
    if lines == [] then (st.gmin, st.gmax)
    else
      var pre := lines[..|lines| - 1];
      var p := LoadLines(st, pre);
      if p.None? then LoadLinesRange(st, pre)
      else
        var q := LoadLine(p.value, lines[|lines| - 1]);
        if q.None? then (p.value.gmin, p.value.gmax) else (q.value.gmin, q.value.gmax)
  }

  /** A file that loads leaves the range of its loaded state. */
  lemma LoadLinesRangeDone(st: LoadState, lines: seq<InputLine>)
    requires LoadLines(st, lines).Some?
    ensures LoadLinesRange(st, lines) == (LoadLines(st, lines).value.gmin, LoadLines(st, lines).value.gmax)
  {
  }

  /** Once a line throws, the range stays as it was before that line. */
  lemma {:induction false} LoadLinesRangeAbort(st: LoadState, lines: seq<InputLine>, k: nat)
    requires k <= |lines| && LoadLines(st, lines[..k]).None?
    ensures LoadLinesRange(st, lines) == LoadLinesRange(st, lines[..k])
    decreases |lines|
  {
    if k < |lines| {
      var q := lines[..|lines| - 1];
      assert q[..k] == lines[..k];
      LoadLinesAbortIsFinal(st, q, k);
      LoadLinesRangeAbort(st, q, k);
    } else {
      assert lines[..k] == lines;
    }
  }

  /** Whether or not a line throws, the lines only widen the range. */
  lemma {:induction false} LoadLinesRangeWidens(st: LoadState, lines: seq<InputLine>)
    ensures LoadLinesRange(st, lines).0 <= st.gmin && LoadLinesRange(st, lines).1 >= st.gmax
  {
    if lines != [] {
      var pre := lines[..|lines| - 1];
      var p := LoadLines(st, pre);
      if p.None? {
        LoadLinesRangeWidens(st, pre);
      } else {
        LoadLinesRangeWidens(st, pre);
        LoadLinesRangeDone(st, pre);
        if LoadLine(p.value, lines[|lines| - 1]).Some? {
          LoadLineRange(p.value, lines[|lines| - 1]);
        }
      }
    }
  }

  /** The loader's state when a file's line throws: the agents stored
      before that file, and the range as its earlier lines left it. */
  function AbortedFile(c: Config, acc: LoadAcc, f: JsonlFile): LoadAcc
  {
    var id := ParseAgentId(c.agentNamePrefix, f.baseName);
    var g := LoadLinesRange(LoadState(NewMeta(f.baseName, id), acc.gmin, acc.gmax), f.lines);
    acc.(gmin := g.0, gmax := g.1)
  }

  /** The loader's state when the folder loop stops: after the last file,
      or at the file that throws. */
  function LoadFilesPartial(c: Config, files: seq<JsonlFile>): LoadAcc
  {
    if files == [] then EmptyAcc
    else
      var pre := files[..|files| - 1];
      var p := LoadFiles(c, pre);
      if p.None? then LoadFilesPartial(c, pre)
      else
        var r := LoadFile(c, p.value, files[|files| - 1]);
        if r.Some? then r.value else AbortedFile(c, p.value, files[|files| - 1])
  }

  /** A folder that loads stops in its loaded state. */
  lemma LoadFilesPartialDone(c: Config, files: seq<JsonlFile>)
    requires LoadFiles(c, files).Some?
    ensures LoadFilesPartial(c, files) == LoadFiles(c, files).value
  {
  }

  /** Once a file throws, no later file is read. */
  lemma {:induction false} LoadFilesPartialAbort(c: Config, files: seq<JsonlFile>, k: nat)
    requires k <= |files| && LoadFiles(c, files[..k]).None?
    ensures LoadFilesPartial(c, files) == LoadFilesPartial(c, files[..k])
    decreases |files|
  {
    if k < |files| {
      var q := files[..|files| - 1];
      assert q[..k] == files[..k];
      LoadFilesAbortIsFinal(c, q, k);
      LoadFilesPartialAbort(c, q, k);
    } else {
      assert files[..k] == files;
    }
  }

  /** The file at which a load throws: every file before it loads. */
  predicate ThrowsAt(c: Config, files: seq<JsonlFile>, k: int)
  {
    0 <= k < |files| && LoadFiles(c, files[..k]).Some?
    && LoadFile(c, LoadFiles(c, files[..k]).value, files[k]).None?
  }

  /** The load stopped at file `k`, which throws, keeping exactly the
      agents, and their order, of the files before it, and only widening
      their range. */
  predicate KeptAt(c: Config, files: seq<JsonlFile>, k: int)
  {
    ThrowsAt(c, files, k)
    && var p := LoadFilesPartial(c, files);
       var a := LoadFiles(c, files[..k]).value;
       p.metas == a.metas && p.order == a.order && p.gmin <= a.gmin && p.gmax >= a.gmax
  }

  /** A load that throws keeps exactly the agents, and their order, of the
      files before the one that throws, and only widens their range. */
  lemma {:induction false} LoadFilesPartialKeeps(c: Config, files: seq<JsonlFile>)
    requires LoadFiles(c, files).None?
    ensures exists k :: KeptAt(c, files, k)
  {
    var n := |files| - 1;
    var pre := files[..n];
    if LoadFiles(c, pre).None? {
      LoadFilesPartialKeeps(c, pre);
      var k :| KeptAt(c, pre, k);
      KeptAtLift(c, files, k);
    } else {
      KeptAtLast(c, files);
    }
  }

  /** A throw found among the earlier files is still the one the whole
      load stops at. */
  lemma KeptAtLift(c: Config, files: seq<JsonlFile>, k: int)
    requires files != [] && LoadFiles(c, files[..|files| - 1]).None?
    requires KeptAt(c, files[..|files| - 1], k)
    ensures KeptAt(c, files, k)
  {
    var pre := files[..|files| - 1];
    assert pre[..k] == files[..k] && pre[k] == files[k];
    assert LoadFilesPartial(c, files) == LoadFilesPartial(c, pre);
  }

  /** The last file throws after every earlier one loaded. */
  lemma KeptAtLast(c: Config, files: seq<JsonlFile>)
    requires files != [] && LoadFiles(c, files[..|files| - 1]).Some? && LoadFiles(c, files).None?
    ensures KeptAt(c, files, |files| - 1)
  {
    var n := |files| - 1;
    var acc := LoadFiles(c, files[..n]).value;
    var f := files[n];
    var id := ParseAgentId(c.agentNamePrefix, f.baseName);
    LoadLinesRangeWidens(LoadState(NewMeta(f.baseName, id), acc.gmin, acc.gmax), f.lines);
  }

  /** A load that throws leaves a table that keeps the loading invariant. */
  lemma LoadFilesPartialOk(c: Config, files: seq<JsonlFile>)
    requires LoadFiles(c, files).None?
    ensures AccOk(LoadFilesPartial(c, files))
  {
    LoadFilesPartialKeeps(c, files);
    var k :| KeptAt(c, files, k);
    var acc := LoadFiles(c, files[..k]).value;
    LoadFilesOk(c, files[..k]);
    var r := LoadFilesPartial(c, files);
    forall i | i in r.metas ensures InRange(r.metas[i], r.gmin, r.gmax) {
      InRangeWiden(acc.metas[i], acc.gmin, acc.gmax, r.gmin, r.gmax);
    }
  }

  /** The range reported after loading: `[0, -1]` stands for no frames. */
  function FinalRange(acc: LoadAcc): (int, int)
  {
    (if acc.gmin == IntMax then 0 else acc.gmin, if acc.gmax == IntMin then -1 else acc.gmax)
  }

  /** `PrepareOutputPaths` for one agent. */
  function PrepareOutput(c: Config, am: AgentMeta): (r: AgentMeta)
    ensures r.nextAnchorToWrite == 0 && r.anchors == am.anchors
  {
    am.(outPath := am.baseName + c.outputSuffix + ".jsonl", nextAnchorToWrite := 0)
  }
}

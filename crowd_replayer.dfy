// The crowd replayer: one timeline per agent file, then one global frame
// per tick, each agent shown exactly on its frames and told either to
// finish its recording or to analyse the frame.

module CrowdReplayer {
  import opened Base
  import opened Text

  /** A deserialized line: each array may be missing. */
  datatype CrowdChunk = CrowdChunk(globalFrames: Option<seq<int>>, startWorldPosition: Option<seq<real>>,
                                   localCurrent: Option<seq<Option<seq<real>>>>, groups: Option<seq<int>>)

  /** A line of an agent file: its text and, when deserialization gives an
      object, that object. */
  datatype CrowdLine = CrowdLine(text: string, record: Option<CrowdChunk>)

  /** An agent file: its name without the extension, and its lines. */
  datatype CrowdFile = CrowdFile(name: string, lines: seq<CrowdLine>)

  /** A timeline entry: the position and the group ids of its record. */
  datatype FrameData = FrameData(position: Vec3, groupIds: seq<int>)

  // ----------------------------------------------------------------------
  // The agent id

  /** The agent id: the integer in the second `_`-separated token of the
      file name, or -1. */
  function ParseAgentId(name: string): int
  {
    var parts := Split(name, {'_'});
    if |parts| >= 2 && ParseInt32(parts[1]).Some? then ParseInt32(parts[1]).value else -1
  }

  /** A name `prefix_<n>` or `prefix_<n>_rest` gives back `n`. */
  lemma ParseAgentIdOf(prefix: string, n: int, rest: string)
    requires Excludes(prefix, '_') && IsInt32(n)
    requires rest == "" || rest[0] == '_'
    ensures ParseAgentId(prefix + "_" + IntToString(n) + rest) == n
  {
    var t := IntToString(n);
    var name := prefix + "_" + t + rest;
    assert name == prefix + ['_'] + (t + rest);
    SplitAtSeparator(prefix, '_', t + rest, {'_'});
    IntToStringNoSeparator(n, '_');
    FirstPiece(t, rest);
    assert Split(name, {'_'})[1] == t;
    IntToStringParses(n);
  }

  lemma FirstPiece(t: string, rest: string)
    requires Excludes(t, '_')
    requires rest == "" || rest[0] == '_'
    ensures Split(t + rest, {'_'})[0] == t
  {
    if rest == "" {
      assert t + rest == t;
      SplitWithoutSeparator(t, {'_'});
    } else {
      assert t + rest == t + ['_'] + rest[1..];
      SplitAtSeparator(t, '_', rest[1..], {'_'});
    }
  }

  lemma IntToStringNoSeparator(i: int, c: char)
    requires !IsDigit(c) && c != '-'
    ensures Excludes(IntToString(i), c)
  {
    if i < 0 { DigitsExclude(NatToString(-i), c); } else { DigitsExclude(NatToString(i), c); }
  }

  // ----------------------------------------------------------------------
  // Timelines

  /** A record is used when its line is not blank and it has both frame and
      offset arrays. */
  predicate Used(l: CrowdLine)
  {
    !IsBlank(l.text) && l.record.Some? && l.record.value.globalFrames.Some? && l.record.value.localCurrent.Some?
  }

  /** The number of entries a used record contributes. */
  function EntryCount(r: CrowdChunk): nat
    requires r.globalFrames.Some? && r.localCurrent.Some?
  {
    MinI(|r.globalFrames.value|, |r.localCurrent.value|)
  }

  /** The frames a line contributes, in order. */
  function UsedFrames(l: CrowdLine): (fs: seq<int>)
  {
    if Used(l) then l.record.value.globalFrames.value[..EntryCount(l.record.value)] else []
  }

  function Entry(r: CrowdChunk, i: nat): FrameData
    requires r.localCurrent.Some? && i < |r.localCurrent.value|
  {
    FrameData(Add(ToV3(r.startWorldPosition), ToV3(r.localCurrent.value[i])),
              if r.groups.Some? then r.groups.value else [])
  }

  /** The first `n` entries of a used record written into the timeline. */
  function PutEntries(tl: map<int, FrameData>, r: CrowdChunk, n: nat): map<int, FrameData>
    requires r.globalFrames.Some? && r.localCurrent.Some? && n <= EntryCount(r)
  {
    if n == 0 then tl else PutEntries(tl, r, n - 1)[r.globalFrames.value[n - 1] := Entry(r, n - 1)]
  }

  function PutLine(tl: map<int, FrameData>, l: CrowdLine): map<int, FrameData>
  {
    if Used(l) then PutEntries(tl, l.record.value, EntryCount(l.record.value)) else tl
  }

  /** The timeline of an agent file. */
  function TimelineOf(lines: seq<CrowdLine>): map<int, FrameData>
  {
    if lines == [] then map[] else PutLine(TimelineOf(lines[..|lines| - 1]), lines[|lines| - 1])
  }

  /** Every frame a file contributes, in reading order. */
  function LinesFrames(lines: seq<CrowdLine>): seq<int>
  {
    if lines == [] then [] else LinesFrames(lines[..|lines| - 1]) + UsedFrames(lines[|lines| - 1])
  }

  lemma {:induction false} PutEntriesKeys(tl: map<int, FrameData>, r: CrowdChunk, n: nat)
    requires r.globalFrames.Some? && r.localCurrent.Some? && n <= EntryCount(r)
    ensures PutEntries(tl, r, n).Keys == tl.Keys + set j | 0 <= j < n :: r.globalFrames.value[j]
  {
    if n > 0 {
      PutEntriesKeys(tl, r, n - 1);
    }
  }

  /** A frame is on an agent's timeline iff some used record lists it among
      its first min(frames, offsets) entries. */
  lemma {:induction false} TimelineKeys(lines: seq<CrowdLine>)
    ensures forall f :: f in TimelineOf(lines) <==> f in LinesFrames(lines)
  {
    if lines != [] {
      var n := |lines| - 1;
      TimelineKeys(lines[..n]);
      var l := lines[n];
      if Used(l) {
        var r := l.record.value;
        PutEntriesKeys(TimelineOf(lines[..n]), r, EntryCount(r));
        forall f ensures f in UsedFrames(l) <==> exists j :: 0 <= j < EntryCount(r) && r.globalFrames.value[j] == f {
          if f in UsedFrames(l) {
            var j :| 0 <= j < |UsedFrames(l)| && UsedFrames(l)[j] == f;
            assert r.globalFrames.value[j] == f;
          }
        }
      }
    }
  }

  /** A loaded agent: its file name, its id, its timeline and its first and
      last frame (the running minimum and maximum of its frames). */
  datatype AgentRt = AgentRt(agentId: int, name: string, timeline: map<int, FrameData>,
                             myStartFrame: int, myEndFrame: int, active: bool, position: Vec3)

  /** The agent `CoLoadSingleAgent` makes of a file; the new instance is
      active at the origin. */
  function LoadedAgent(f: CrowdFile): AgentRt
  {
    AgentRt(ParseAgentId(f.name), f.name, TimelineOf(f.lines), Low(LinesFrames(f.lines)),
            High(LinesFrames(f.lines)), true, Zero3)
  }

  function AllFrames(files: seq<CrowdFile>): seq<int>
  {
    if files == [] then [] else AllFrames(files[..|files| - 1]) + LinesFrames(files[|files| - 1].lines)
  }

  /** One agent per file, in file order. */
  function LoadedAgents(files: seq<CrowdFile>): (r: seq<AgentRt>)
    ensures |r| == |files|
  {
    MapSeq(LoadedAgent, files)
  }

  /** The agent at each position is the one made of the file there; so
      every file yields an agent, whatever its lines hold. */
  lemma LoadedAgentsAt(files: seq<CrowdFile>)
    ensures forall i :: 0 <= i < |files| ==> LoadedAgents(files)[i] == LoadedAgent(files[i])
  {
    MapSeqAt(LoadedAgent, files);
  }

  /** The id lookup: the first agent with each id other than -1. */
  function LookupOf(agents: seq<AgentRt>): map<int, nat>
  {
    if agents == [] then map[]
    else
      var m := LookupOf(agents[..|agents| - 1]);
      var id := agents[|agents| - 1].agentId;
      if id != -1 && id !in m then m[id := |agents| - 1] else m
  }

  /** An id is looked up iff it is not -1 and some agent has it, and it then
      names the first agent with that id. */
  lemma {:induction false} LookupMeaning(agents: seq<AgentRt>)
    ensures forall id :: id in LookupOf(agents) <==> id != -1 && exists i :: 0 <= i < |agents| && agents[i].agentId == id
    ensures forall id :: id in LookupOf(agents) ==>
      var i := LookupOf(agents)[id];
      i < |agents| && agents[i].agentId == id && forall j :: 0 <= j < i ==> agents[j].agentId != id
  {
    if agents != [] {
      var n := |agents| - 1;
      LookupMeaning(agents[..n]);
      assert forall i :: 0 <= i < n ==> agents[..n][i] == agents[i];
    }
  }

  // ----------------------------------------------------------------------
  // A tick

  /** The pose loop: an agent is shown, at its timeline position, exactly
      when its timeline holds the frame, and hidden otherwise. */
  function Posed(a: AgentRt, f: int): AgentRt
  {
    if f in a.timeline then a.(active := true, position := a.timeline[f].position) else a.(active := false)
  }

  function PoseAll(agents: seq<AgentRt>, f: int): (r: seq<AgentRt>)
    ensures |r| == |agents|
  {
    seq(|agents|, i requires 0 <= i < |agents| => Posed(agents[i], f))
  }

  /** What an active agent's recorder is told: to finish, or to analyse the
      frame with its group ids and the seconds left. */
  datatype Decision = Finish(agent: nat) | Analyze(agent: nat, groupIds: seq<int>, timeLeft: real)

  function TimeLeft(a: AgentRt, f: int, fps: int): real
    requires fps > 0
  {
    MaxI(0, Wrap32(a.myEndFrame - f)) as real / fps as real
  }

  function DecisionFor(agents: seq<AgentRt>, i: nat, f: int, fps: int): Decision
    requires i < |agents| && fps > 0 && f in agents[i].timeline
  {
    if f >= agents[i].myEndFrame then Finish(i)
    else Analyze(i, agents[i].timeline[f].groupIds, TimeLeft(agents[i], f, fps))
  }

  /** The analysis loop over the posed agents, in order. */
  function Decisions(agents: seq<AgentRt>, f: int, fps: int): seq<Decision>
    requires fps > 0
    requires forall i :: 0 <= i < |agents| && agents[i].active ==> f in agents[i].timeline
  {
    if agents == [] then []
    else
      var n := |agents| - 1;
      var ds := Decisions(agents[..n], f, fps);
      if agents[n].active then ds + [DecisionFor(agents, n, f, fps)] else ds
  }

  /** A decision depends only on its own agent. */
  lemma DecisionForPrefix(agents: seq<AgentRt>, n: nat, i: nat, f: int, fps: int)
    requires i < n <= |agents| && fps > 0 && f in agents[i].timeline
    ensures DecisionFor(agents[..n], i, f, fps) == DecisionFor(agents, i, f, fps)
  {
    assert agents[..n][i] == agents[i];
  }

  /** Each decision is that of a shown agent. */
  lemma {:induction false} DecisionsEntries(agents: seq<AgentRt>, f: int, fps: int)
    requires fps > 0
    requires forall i :: 0 <= i < |agents| && agents[i].active ==> f in agents[i].timeline
    ensures forall k :: 0 <= k < |Decisions(agents, f, fps)| ==>
      Decisions(agents, f, fps)[k].agent < |agents| && agents[Decisions(agents, f, fps)[k].agent].active
      && Decisions(agents, f, fps)[k] == DecisionFor(agents, Decisions(agents, f, fps)[k].agent, f, fps)
  {
    if agents != [] {
      var n := |agents| - 1;
      var prefix := agents[..n];
      assert forall i :: 0 <= i < n ==> prefix[i] == agents[i];
      DecisionsEntries(prefix, f, fps);
      var ds0 := Decisions(prefix, f, fps);
      var ds := Decisions(agents, f, fps);
      forall k | 0 <= k < |ds|
        ensures ds[k].agent < |agents| && agents[ds[k].agent].active && ds[k] == DecisionFor(agents, ds[k].agent, f, fps)
      {
        if k < |ds0| {
          assert ds[k] == ds0[k];
          DecisionForPrefix(agents, n, ds0[k].agent, f, fps);
        }
      }
    }
  }

  /** The decisions come in agent order. */
  lemma {:induction false} DecisionsOrdered(agents: seq<AgentRt>, f: int, fps: int)
    requires fps > 0
    requires forall i :: 0 <= i < |agents| && agents[i].active ==> f in agents[i].timeline
    ensures forall k, k' :: 0 <= k < k' < |Decisions(agents, f, fps)| ==>
      Decisions(agents, f, fps)[k].agent < Decisions(agents, f, fps)[k'].agent
  {
    if agents != [] {
      var n := |agents| - 1;
      var prefix := agents[..n];
      assert forall i :: 0 <= i < n ==> prefix[i] == agents[i];
      DecisionsOrdered(prefix, f, fps);
      DecisionsEntries(prefix, f, fps);
      var ds0 := Decisions(prefix, f, fps);
      var ds := Decisions(agents, f, fps);
      assert forall k :: 0 <= k < |ds0| ==> ds[k] == ds0[k];
    }
  }

  /** Every shown agent has a decision. */
  lemma {:induction false} DecisionsCover(agents: seq<AgentRt>, f: int, fps: int)
    requires fps > 0
    requires forall i :: 0 <= i < |agents| && agents[i].active ==> f in agents[i].timeline
    ensures forall i :: 0 <= i < |agents| && agents[i].active ==>
      exists k :: 0 <= k < |Decisions(agents, f, fps)| && Decisions(agents, f, fps)[k].agent == i
  {
    if agents != [] {
      var n := |agents| - 1;
      var prefix := agents[..n];
      assert forall i :: 0 <= i < n ==> prefix[i] == agents[i];
      DecisionsCover(prefix, f, fps);
      var ds0 := Decisions(prefix, f, fps);
      var ds := Decisions(agents, f, fps);
      assert ds == ds0 + (if agents[n].active then [DecisionFor(agents, n, f, fps)] else []);
      forall i | 0 <= i < |agents| && agents[i].active ensures exists k :: 0 <= k < |ds| && ds[k].agent == i {
        if i < n {
          var k :| 0 <= k < |ds0| && ds0[k].agent == i;
          assert ds[k] == ds0[k];
        } else {
          assert ds[|ds0|].agent == i;
        }
      }
      assert ds == Decisions(agents, f, fps);
      assert forall i :: 0 <= i < |agents| && agents[i].active ==>
        exists k :: 0 <= k < |Decisions(agents, f, fps)| && Decisions(agents, f, fps)[k].agent == i;
    }
  }

  /** One decision per shown agent, in agent order: "finish" from its last
      frame on, otherwise "analyse" with its record's group ids and a
      non-negative remaining time. */
  lemma DecisionsMeaning(agents: seq<AgentRt>, f: int, fps: int)
    requires fps > 0
    requires forall i :: 0 <= i < |agents| && agents[i].active ==> f in agents[i].timeline
    ensures forall k :: 0 <= k < |Decisions(agents, f, fps)| ==>
      var d := Decisions(agents, f, fps)[k];
      d.agent < |agents| && agents[d.agent].active && d == DecisionFor(agents, d.agent, f, fps)
      && (d.Finish? <==> f >= agents[d.agent].myEndFrame) && (d.Analyze? ==> d.timeLeft >= 0.0)
    ensures forall k, k' :: 0 <= k < k' < |Decisions(agents, f, fps)| ==>
      Decisions(agents, f, fps)[k].agent < Decisions(agents, f, fps)[k'].agent
    ensures forall i :: 0 <= i < |agents| && agents[i].active ==>
      exists k :: 0 <= k < |Decisions(agents, f, fps)| && Decisions(agents, f, fps)[k].agent == i
  {
    DecisionsEntries(agents, f, fps);
    DecisionsOrdered(agents, f, fps);
    DecisionsCover(agents, f, fps);
  }

  /** After the pose loop each shown agent holds the frame. */
  lemma PosedActive(agents: seq<AgentRt>, f: int)
    ensures var p := PoseAll(agents, f);
      && (forall i :: 0 <= i < |p| ==> (p[i].active <==> f in agents[i].timeline))
      && (forall i :: 0 <= i < |p| && p[i].active ==> f in p[i].timeline && p[i].position == agents[i].timeline[f].position)
      && (forall i :: 0 <= i < |p| ==> p[i].timeline == agents[i].timeline && p[i].agentId == agents[i].agentId
                                       && p[i].myEndFrame == agents[i].myEndFrame)
  {
  }

  lemma LookupStep(ts: seq<AgentRt>, a: AgentRt)
    ensures LookupOf(ts + [a]) == if a.agentId != -1 && a.agentId !in LookupOf(ts) then LookupOf(ts)[a.agentId := |ts|] else LookupOf(ts)
  {
    assert (ts + [a])[..|ts|] == ts;
  }

  lemma AllFramesStep(files: seq<CrowdFile>, k: nat)
    requires k < |files|
    ensures Low(AllFrames(files[..k])) <= IntMax && High(AllFrames(files[..k])) >= IntMin
    ensures Low(AllFrames(files[..k + 1])) == MinI(Low(AllFrames(files[..k])), Low(LinesFrames(files[k].lines)))
    ensures High(AllFrames(files[..k + 1])) == MaxI(High(AllFrames(files[..k])), High(LinesFrames(files[k].lines)))
  {
    assert files[..k + 1][..k] == files[..k];
    LowBounds(AllFrames(files[..k]));
    HighBounds(AllFrames(files[..k]));
    LowAppend(AllFrames(files[..k]), LinesFrames(files[k].lines));
    HighAppend(AllFrames(files[..k]), LinesFrames(files[k].lines));
  }

  lemma LinesFramesStep(lines: seq<CrowdLine>, j: nat)
    requires j < |lines|
    ensures Low(LinesFrames(lines[..j])) <= IntMax && High(LinesFrames(lines[..j])) >= IntMin
    ensures TimelineOf(lines[..j + 1]) == PutLine(TimelineOf(lines[..j]), lines[j])
    ensures Low(LinesFrames(lines[..j + 1])) == MinI(Low(LinesFrames(lines[..j])), Low(UsedFrames(lines[j])))
    ensures High(LinesFrames(lines[..j + 1])) == MaxI(High(LinesFrames(lines[..j])), High(UsedFrames(lines[j])))
  {
    assert lines[..j + 1][..j] == lines[..j];
    LowBounds(LinesFrames(lines[..j]));
    HighBounds(LinesFrames(lines[..j]));
    LowAppend(LinesFrames(lines[..j]), UsedFrames(lines[j]));
    HighAppend(LinesFrames(lines[..j]), UsedFrames(lines[j]));
  }

  // ----------------------------------------------------------------------
  // The component

  class Replayer {
    const targetFPS: int
    var agents: seq<AgentRt>
    var lookup: map<int, nat>
    var isReady: bool
    var isPlaying: bool
    var currentGlobalFrame: int
    var minFrameFound: int
    var maxFrameFound: int

    /** The frame range lives in C# `int`s. */
    predicate Valid()
      reads this
    {
      minFrameFound <= IntMax && maxFrameFound >= IntMin
    }

    constructor(fps: int)
      requires fps > 0
      ensures targetFPS == fps && agents == [] && lookup == map[] && !isReady && !isPlaying
      ensures minFrameFound == IntMax && maxFrameFound == IntMin && currentGlobalFrame == 0 && Valid()
    {
      targetFPS := fps;
      agents := [];
      lookup := map[];
      isReady := false;
      isPlaying := false;
      currentGlobalFrame := 0;
      minFrameFound := IntMax;
      maxFrameFound := IntMin;
    }

    /** `GetAgentPosition`: a position only for a known agent that is shown. */
    function GetAgentPosition(id: int): (r: Option<Vec3>)
      reads this
      ensures r.Some? <==> id in lookup && lookup[id] < |agents| && agents[lookup[id]].active
      ensures r.Some? ==> r.value == agents[lookup[id]].position
    {
      if id in lookup && lookup[id] < |agents| && agents[lookup[id]].active then Some(agents[lookup[id]].position) else None
    }

    /** `CoLoadAllFiles`: a missing folder leaves nothing loaded and nothing
        ready; otherwise one agent per file and the lookup of first ids; the
        frame range keeps growing from its previous values (it is never
        reset), and with some agent loaded playback is ready at its start. */
    method LoadAllFiles(folderExists: bool, files: seq<CrowdFile>)
      requires Valid()
      modifies this
      ensures Valid()
      ensures agents == (if folderExists then LoadedAgents(files) else [])
      ensures lookup == LookupOf(agents)
      ensures minFrameFound == (if folderExists then MinI(old(minFrameFound), Low(AllFrames(files))) else old(minFrameFound))
      ensures maxFrameFound == (if folderExists then MaxI(old(maxFrameFound), High(AllFrames(files))) else old(maxFrameFound))
      ensures isReady == isPlaying == (agents != [])
      ensures currentGlobalFrame == if agents != [] then minFrameFound else old(currentGlobalFrame)
    {
      isReady, isPlaying := false, false;
      agents := [];
      lookup := map[];
      if !folderExists {
        return;
      }
      var ts, ids, lo, hi := LoadFiles(files, minFrameFound, maxFrameFound);
      agents, lookup, minFrameFound, maxFrameFound := ts, ids, lo, hi;
      if |agents| > 0 {
        currentGlobalFrame := minFrameFound;
        isReady, isPlaying := true, true;
      }
    }

    /** The file loop of `CoLoadAllFiles`. */
    method LoadFiles(files: seq<CrowdFile>, lo0: int, hi0: int) returns (ts: seq<AgentRt>, ids: map<int, nat>, lo: int, hi: int)
      requires lo0 <= IntMax && hi0 >= IntMin
      ensures ts == LoadedAgents(files)
      ensures ids == LookupOf(ts)
      ensures lo == MinI(lo0, Low(AllFrames(files))) && hi == MaxI(hi0, High(AllFrames(files)))
      ensures lo <= IntMax && hi >= IntMin
    {
      ts, ids := [], map[];
      lo, hi := lo0, hi0;
      var k := 0;
      while k < |files|
        invariant 0 <= k <= |files|
        invariant ts == LoadedAgents(files[..k])
        invariant ids == LookupOf(ts)
        invariant lo == MinI(lo0, Low(AllFrames(files[..k])))
        invariant hi == MaxI(hi0, High(AllFrames(files[..k])))
      {
        AllFramesStep(files, k);
        ghost var before, here, after := Low(AllFrames(files[..k])), Low(LinesFrames(files[k].lines)), Low(AllFrames(files[..k + 1]));
        ghost var before', here', after' := High(AllFrames(files[..k])), High(LinesFrames(files[k].lines)), High(AllFrames(files[..k + 1]));
        var a, lo', hi' := LoadSingleAgent(files[k], lo, hi);
        assert lo' == MinI(MinI(lo0, before), here) && after == MinI(before, here);
        assert hi' == MaxI(MaxI(hi0, before'), here') && after' == MaxI(before', here');
        lo, hi := lo', hi';
        assert lo == MinI(lo0, after) && hi == MaxI(hi0, after');
        LookupStep(ts, a);
        if a.agentId != -1 && a.agentId !in ids {
          ids := ids[a.agentId := k];
        }
        assert files[..k + 1][..k] == files[..k];
        ts := ts + [a];
        k := k + 1;
      }
      assert files[..k] == files;
    }

    /** `CoLoadSingleAgent`: the line loop, then the global range. */
    method LoadSingleAgent(file: CrowdFile, lo0: int, hi0: int) returns (a: AgentRt, lo: int, hi: int)
      requires lo0 <= IntMax && hi0 >= IntMin
      ensures a == LoadedAgent(file)
      ensures lo == MinI(lo0, Low(LinesFrames(file.lines))) && hi == MaxI(hi0, High(LinesFrames(file.lines)))
    {
      var tl: map<int, FrameData> := map[];
      var myStart, myEnd := IntMax, IntMin;
      var j := 0;
      while j < |file.lines|
        invariant 0 <= j <= |file.lines|
        invariant tl == TimelineOf(file.lines[..j])
        invariant myStart == Low(LinesFrames(file.lines[..j])) && myEnd == High(LinesFrames(file.lines[..j]))
      {
        var l := file.lines[j];
        LinesFramesStep(file.lines, j);
        ghost var tlNext := PutLine(tl, l);
        ghost var startNext, endNext := MinI(myStart, Low(UsedFrames(l))), MaxI(myEnd, High(UsedFrames(l)));
        if Used(l) {
          tl, myStart, myEnd := ReadEntries(tl, l.record.value, myStart, myEnd);
          assert l.record.value.globalFrames.value[..EntryCount(l.record.value)] == UsedFrames(l);
        }
        assert tl == tlNext && myStart == startNext && myEnd == endNext;
        j := j + 1;
      }
      assert file.lines[..j] == file.lines;
      a := AgentRt(ParseAgentId(file.name), file.name, tl, myStart, myEnd, true, Zero3);
      lo, hi := MinI(lo0, myStart), MaxI(hi0, myEnd);
    }

    /** The entry loop of one record. */
    method ReadEntries(tl0: map<int, FrameData>, r: CrowdChunk, s0: int, e0: int) returns (tl: map<int, FrameData>, s: int, e: int)
      requires r.globalFrames.Some? && r.localCurrent.Some?
      requires s0 <= IntMax && e0 >= IntMin
      ensures tl == PutEntries(tl0, r, EntryCount(r))
      ensures s == MinI(s0, Low(r.globalFrames.value[..EntryCount(r)])) && e == MaxI(e0, High(r.globalFrames.value[..EntryCount(r)]))
    {
      var fs := r.globalFrames.value;
      var count := EntryCount(r);
      tl, s, e := tl0, s0, e0;
      var i := 0;
      while i < count
        invariant 0 <= i <= count
        invariant tl == PutEntries(tl0, r, i)
        invariant s == MinI(s0, Low(fs[..i])) && e == MaxI(e0, High(fs[..i]))
      {
        assert fs[..i + 1][..i] == fs[..i];
        var g := fs[i];
        tl := tl[g := Entry(r, i)];
        if g < s { s := g; }
        if g > e { e := g; }
        i := i + 1;
      }
    }

    /** `Update`: when playing, the pose loop, then one decision per shown
        agent, then the frame advances by one (a C# `int` increment) and
        playback stops once it passes the last frame found plus five. */
    method Update() returns (ds: seq<Decision>)
      requires targetFPS > 0
      modifies this
      ensures !old(isReady && isPlaying) ==>
        ds == [] && agents == old(agents) && isPlaying == old(isPlaying) && currentGlobalFrame == old(currentGlobalFrame)
      ensures old(isReady && isPlaying) ==>
        && agents == PoseAll(old(agents), old(currentGlobalFrame))
        && ds == Decisions(agents, old(currentGlobalFrame), targetFPS)
        && currentGlobalFrame == Wrap32(old(currentGlobalFrame) + 1)
        && isPlaying == (currentGlobalFrame <= Wrap32(maxFrameFound + 5))
      ensures lookup == old(lookup) && isReady == old(isReady)
      ensures minFrameFound == old(minFrameFound) && maxFrameFound == old(maxFrameFound)
    {
      ds := [];
      if !isReady || !isPlaying {
        return;
      }
      var f := currentGlobalFrame;
      var posed: seq<AgentRt> := [];
      var i := 0;
      while i < |agents|
        modifies {}
        invariant 0 <= i <= |agents| && |posed| == i
        invariant forall j :: 0 <= j < i ==> posed[j] == Posed(agents[j], f)
      {
        var a := agents[i];
        if f in a.timeline {
          a := a.(active := true, position := a.timeline[f].position);
        } else {
          a := a.(active := false);
        }
        posed := posed + [a];
        i := i + 1;
      }
      assert posed == PoseAll(agents, f);
      agents := posed;
      i := 0;
      while i < |posed|
        modifies {}
        invariant 0 <= i <= |posed|
        invariant ds == Decisions(posed[..i], f, targetFPS)
      {
        assert posed[..i + 1][..i] == posed[..i];
        var a := posed[i];
        if a.active {
          if f >= a.myEndFrame {
            ds := ds + [Finish(i)];
          } else {
            var framesLeft := MaxI(0, Wrap32(a.myEndFrame - f));
            ds := ds + [Analyze(i, a.timeline[f].groupIds, framesLeft as real / targetFPS as real)];
          }
        }
        i := i + 1;
      }
      assert posed[..i] == posed;
      currentGlobalFrame := Wrap32(currentGlobalFrame + 1);
      if currentGlobalFrame > Wrap32(maxFrameFound + 5) {
        isPlaying := false;
      }
    }

    /** Ticks until playback stops: from a start at or below the last frame
        found, every frame up to that frame plus five is visited once, in
        ascending order. */
    method Run() returns (visited: seq<int>)
      requires targetFPS > 0 && isReady && isPlaying
      requires IsInt32(currentGlobalFrame) && currentGlobalFrame <= maxFrameFound + 5 && maxFrameFound <= IntMax - 6
      modifies this
      ensures visited == FrameRange(old(currentGlobalFrame), old(maxFrameFound) + 5)
      ensures !isPlaying && currentGlobalFrame == old(maxFrameFound) + 6
    {
      visited := [];
      var start := currentGlobalFrame;
      while isPlaying
        invariant isReady && maxFrameFound == old(maxFrameFound)
        invariant start <= currentGlobalFrame <= maxFrameFound + 6
        invariant isPlaying <==> currentGlobalFrame <= maxFrameFound + 5
        invariant visited == FrameRange(start, currentGlobalFrame - 1)
        decreases maxFrameFound + 6 - currentGlobalFrame
      {
        visited := visited + [currentGlobalFrame];
        var _ := Update();
      }
    }
  }
}

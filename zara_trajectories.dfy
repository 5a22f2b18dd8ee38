/** The trajectory text of `ZaraPlaybackWithAnchor0`: "id,x,y,frame,angle"
    lines grouped per id into trajectories sorted by frame. */
module ZaraTrajectories {
  import opened Base
  import opened Text
  import opened Sorting

  datatype Sample = Sample(frame: int, xy: Vec2, angleDeg: real)

  /** One parsed trajectory line: the agent id and its sample. */
  datatype Row = Row(id: int, sample: Sample)

  /** One line of the trajectory text: blank lines, lines of fewer than five
      comma-separated fields and lines whose id, x, y, frame or angle does
      not parse are skipped (the parse exception is caught per line). */
  function ParseRow(line: string): (r: Option<Row>)
    ensures r.Some? ==> !IsBlank(line) && |Split(line, {','})| >= 5
  {
    if IsBlank(line) then None
    else
      var p := Split(line, {','});
      if |p| < 5 then None
      else
        var id := ParseInt32(p[0]);
        var x := ParseReal(p[1]);
        var y := ParseReal(p[2]);
        var frame := ParseInt32(p[3]);
        var ang := ParseReal(p[4]);
        if id.None? || x.None? || y.None? || frame.None? || ang.None? then None
        else Some(Row(id.value, Sample(frame.value, Vec2(x.value, y.value), ang.value)))
  }

  /** The per-id lists the parse loop fills: each sample appended to its
      id's list, in reading order. */
  function Group(rows: seq<Row>): map<int, seq<Sample>>
  {
    if rows == [] then map[]
    else
      var n := |rows| - 1;
      var g := Group(rows[..n]);
      var r := rows[n];
      g[r.id := (if r.id in g then g[r.id] else []) + [r.sample]]
  }

  /** The samples of agent `id`, in reading order. */
  function Pick(id: int): Row -> Option<Sample>
  {
    (r: Row) => if r.id == id then Some(r.sample) else None
  }

  function SamplesOf(rows: seq<Row>, id: int): seq<Sample>
  {
    FilterMap(Pick(id), rows)
  }

  /** An id has a list iff one of its lines parsed, and the list holds
      exactly its samples, in reading order. */
  lemma {:induction false} GroupAt(rows: seq<Row>, id: int)
    ensures id in Group(rows) <==> SamplesOf(rows, id) != []
    ensures id in Group(rows) ==> Group(rows)[id] == SamplesOf(rows, id)
  {
    if rows != [] {
      var n := |rows| - 1;
      GroupAt(rows[..n], id);
      assert rows == rows[..n] + [rows[n]];
      FilterMapSnoc(Pick(id), rows[..n], rows[n]);
    }
  }

  /** The frames of the parsed lines, in reading order. */
  function RowFrame(r: Row): int { r.sample.frame }

  datatype Trajectory = Trajectory(id: int, frames: seq<int>, xy: seq<Vec2>, angles: seq<real>)

  /** A trajectory as the loader leaves it: at least one sample, parallel
      arrays of one length, frames ascending. */
  predicate TrajOk(t: Trajectory)
  {
    && |t.frames| >= 1 && |t.xy| == |t.frames| && |t.angles| == |t.frames|
    && Ascending(t.frames)
  }

  predicate Ascending(a: seq<int>)
  {
    forall i, j :: 0 <= i < j < |a| ==> a[i] <= a[j]
  }

  function FrameKey(s: Sample): real { s.frame as real }

  /** The trajectory of one id: its samples sorted by frame, laid out in
      parallel arrays. */
  function TrajectoryOf(id: int, samples: seq<Sample>): Trajectory
  {
    var s := SortBy(samples, FrameKey);
    Trajectory(id, seq(|s|, i requires 0 <= i < |s| => s[i].frame),
               seq(|s|, i requires 0 <= i < |s| => s[i].xy),
               seq(|s|, i requires 0 <= i < |s| => s[i].angleDeg))
  }

  /** The samples a trajectory's parallel arrays hold. */
  function SamplesIn(t: Trajectory): seq<Sample>
    requires |t.xy| == |t.frames| && |t.angles| == |t.frames|
  {
    seq(|t.frames|, i requires 0 <= i < |t.frames| => Sample(t.frames[i], t.xy[i], t.angles[i]))
  }

  /** A loaded trajectory holds exactly the samples of its id, in frame
      order, in arrays of one length. */
  lemma TrajectoryOfSamples(id: int, samples: seq<Sample>)
    requires samples != []
    ensures var t := TrajectoryOf(id, samples);
      && TrajOk(t) && t.id == id
      && SortedBy(SamplesIn(t), FrameKey)
      && multiset(SamplesIn(t)) == multiset(samples)
  {
    var s := SortBy(samples, FrameKey);
    var t := TrajectoryOf(id, samples);
    SortByPermutes(samples, FrameKey);
    assert SamplesIn(t) == s;
  }

  /** The trajectories built from the per-id lists; an empty list would be
      skipped. */
  function TrajectoriesOf(g: map<int, seq<Sample>>): map<int, Trajectory>
  {
    map id | id in g && g[id] != [] :: TrajectoryOf(id, g[id])
  }

  predicate HasSamples(list: seq<Sample>) { list != [] }

  /** One id's arrays, filled index by index from its sorted list. */
  method BuildTrajectory(id: int, list: seq<Sample>) returns (t: Trajectory)
    ensures t == TrajectoryOf(id, list)
  {
    var s := SortBy(list, FrameKey);
    var frames, xy, ang := FillArrays(s);
    t := Trajectory(id, frames, xy, ang);
  }

  /** The loop that copies a sorted list into the three parallel arrays. */
  method FillArrays(s: seq<Sample>) returns (frames: seq<int>, xy: seq<Vec2>, ang: seq<real>)
    ensures frames == seq(|s|, i requires 0 <= i < |s| => s[i].frame)
    ensures xy == seq(|s|, i requires 0 <= i < |s| => s[i].xy)
    ensures ang == seq(|s|, i requires 0 <= i < |s| => s[i].angleDeg)
  {
    var n := |s|;
    var fa := new int[n];
    var xa := new Vec2[n](_ => Vec2(0.0, 0.0));
    var aa := new real[n];
    for i := 0 to n
      invariant forall k :: 0 <= k < i ==> fa[k] == s[k].frame && xa[k] == s[k].xy && aa[k] == s[k].angleDeg
    {
      fa[i] := s[i].frame;
      xa[i] := s[i].xy;
      aa[i] := s[i].angleDeg;
    }
    frames, xy, ang := fa[..], xa[..], aa[..];
  }

  /** The `foreach` over the per-id lists, in the dictionary's order (the
      order in which the ids first appear): one trajectory per non-empty
      list. */
  method BuildAll(g: map<int, seq<Sample>>, order: seq<int>) returns (m: map<int, Trajectory>)
    requires forall id :: id in g <==> id in order
    ensures m == TrajectoriesOf(g)
  {
    m := map[];
    for i := 0 to |order|
      invariant m == MapWhere(TrajectoryOf, HasSamples, g, order[..i])
    {
      var id := order[i];
      MapWhereNext(TrajectoryOf, HasSamples, g, order, i);
      if |g[id]| > 0 {
        var t := BuildTrajectory(id, g[id]);
        m := m[id := t];
      }
    }
    assert order[..|order|] == order;
    assert MapWhere(TrajectoryOf, HasSamples, g, order) == TrajectoriesOf(g);
  }

  /** The line loop of `ParseTrajectories`: the per-id lists and the running
      frame bounds. */
  method CollectRows(lines: seq<string>) returns (tmp: map<int, seq<Sample>>, order: seq<int>, lo: int, hi: int)
    ensures var rows := FilterMap(ParseRow, lines);
      tmp == Group(rows) && lo == Low(MapSeq(RowFrame, rows)) && hi == High(MapSeq(RowFrame, rows))
    ensures forall id :: id in tmp <==> id in order
  {
    tmp, order, lo, hi := map[], [], IntMax, IntMin;
    ghost var rows: seq<Row> := [];
    var i := 0;
    while i < |lines|
      invariant 0 <= i <= |lines|
      invariant rows == FilterMap(ParseRow, lines[..i]) && tmp == Group(rows)
      invariant lo == Low(MapSeq(RowFrame, rows)) && hi == High(MapSeq(RowFrame, rows))
      invariant forall id :: id in tmp <==> id in order
    {
      assert lines[..i + 1] == lines[..i] + [lines[i]];
      FilterMapSnoc(ParseRow, lines[..i], lines[i]);
      var p := ParseRow(lines[i]);
      if p.Some? {
        var r := p.value;
        ghost var next := rows + [r];
        RowSnoc(rows, r);
        if r.id !in tmp {
          order := order + [r.id];
        }
        var list := if r.id in tmp then tmp[r.id] else [];
        tmp := tmp[r.id := list + [r.sample]];
        lo := MinI(lo, r.sample.frame);
        hi := MaxI(hi, r.sample.frame);
        rows := next;
      }
      i := i + 1;
    }
    assert lines[..i] == lines;
  }

  /** One more parsed line: its sample joins its id's list, and its frame
      the running bounds. */
  lemma RowSnoc(rows: seq<Row>, r: Row)
    ensures var g := Group(rows);
      Group(rows + [r]) == g[r.id := (if r.id in g then g[r.id] else []) + [r.sample]]
    ensures Low(MapSeq(RowFrame, rows + [r])) == MinI(Low(MapSeq(RowFrame, rows)), r.sample.frame)
    ensures High(MapSeq(RowFrame, rows + [r])) == MaxI(High(MapSeq(RowFrame, rows)), r.sample.frame)
  {
    var next := rows + [r];
    assert next[..|rows|] == rows;
    var fs := MapSeq(RowFrame, next);
    assert fs == MapSeq(RowFrame, rows) + [r.sample.frame];
    assert fs[..|rows|] == MapSeq(RowFrame, rows);
  }

  /** Every parsed frame lies within the running bounds; with no parsed
      line the bounds keep their start values, and otherwise each bound is
      one of the frames. */
  lemma FrameBounds(rows: seq<Row>)
    ensures var fs := MapSeq(RowFrame, rows);
      && (rows == [] ==> Low(fs) == IntMax && High(fs) == IntMin)
      && (forall k :: 0 <= k < |rows| ==> Low(fs) <= rows[k].sample.frame <= High(fs))
      && (rows != [] && (forall k :: 0 <= k < |rows| ==> IsInt32(rows[k].sample.frame)) ==> Low(fs) in fs && High(fs) in fs)
  {
    var fs := MapSeq(RowFrame, rows);
    MapSeqAt(RowFrame, rows);
    LowBounds(fs);
    HighBounds(fs);
  }

  /** The running bounds never pass their start values. */
  lemma LowHighStart(rows: seq<Row>)
    ensures MinI(IntMax, Low(MapSeq(RowFrame, rows))) == Low(MapSeq(RowFrame, rows))
    ensures MaxI(IntMin, High(MapSeq(RowFrame, rows))) == High(MapSeq(RowFrame, rows))
  {
    LowBounds(MapSeq(RowFrame, rows));
    HighBounds(MapSeq(RowFrame, rows));
  }
}

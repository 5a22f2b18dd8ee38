/** `AgentManager`: reads the group file, the homography and the dataset,
    spawns one agent per trajectory of at least two samples, and plays the
    trajectories back frame by frame, asking each shown agent's state to
    record its action. */
module AgentManager {
  import opened Base
  import opened Text
  import opened Sorting
  import opened DatasetParser
  import ZaraAnchor

  // ----------------------------------------------------------------------
  // Groups (`LoadGroupData`)

  /** The ids of a group line, split on spaces; nothing when one of them is
      not a 32-bit integer, where `int.Parse` throws and the line is
      skipped. */
  function GroupIds(line: string): Option<seq<int>>
  {
    MapAll(ParseInt32, SplitNonEmpty(line, {' '}))
  }

  /** A line that forms a group: all its ids parse and there are at least
      two of them. */
  function GroupOf(line: string): Option<seq<int>>
  {
    var ids := GroupIds(line);
    if ids.Some? && |ids.value| > 1 then ids else None
  }

  /** The members of `g` that have no group yet join `g`. */
  function Enrol(m: map<int, seq<int>>, g: seq<int>): map<int, seq<int>>
  {
    m + map id | id in g && id !in m :: g
  }

  /** The group table after the groups `gs`, in file order. */
  function Memberships(gs: seq<seq<int>>): map<int, seq<int>>
  {
    if gs == [] then map[] else Enrol(Memberships(gs[..|gs| - 1]), gs[|gs| - 1])
  }

  /** `gs[k]` is the first of the groups that lists `id`. */
  predicate FirstGroupOf(gs: seq<seq<int>>, id: int, k: int)
  {
    0 <= k < |gs| && id in gs[k] && forall j :: 0 <= j < k ==> id !in gs[j]
  }

  /** An id has a group exactly when some group lists it. */
  lemma {:induction false} MembershipDomain(gs: seq<seq<int>>)
    ensures forall id :: id in Memberships(gs) <==> exists k :: 0 <= k < |gs| && id in gs[k]
  {
    if gs != [] {
      var n := |gs| - 1;
      var prev := gs[..n];
      MembershipDomain(prev);
      var m := Memberships(prev);
      forall id | id in Memberships(gs)
        ensures exists k :: 0 <= k < |gs| && id in gs[k]
      {
        if id in m {
          var j :| 0 <= j < n && id in prev[j];
          assert id in gs[j];
        } else {
          assert id in gs[n];
        }
      }
      forall id | exists k :: 0 <= k < |gs| && id in gs[k]
        ensures id in Memberships(gs)
      {
        var k :| 0 <= k < |gs| && id in gs[k];
        if k < n {
          assert id in prev[k];
        }
      }
    }
  }

  /** The first membership wins: an id's group is the first group that
      lists it. */
  lemma {:induction false} FirstMembershipWins(gs: seq<seq<int>>)
    ensures forall id, k :: FirstGroupOf(gs, id, k) ==> id in Memberships(gs) && Memberships(gs)[id] == gs[k]
  {
    if gs != [] {
      var n := |gs| - 1;
      var prev := gs[..n];
      FirstMembershipWins(prev);
      MembershipDomain(prev);
      var m := Memberships(prev);
      forall id, k | FirstGroupOf(gs, id, k)
        ensures id in Memberships(gs) && Memberships(gs)[id] == gs[k]
      {
        if k < n {
          assert FirstGroupOf(prev, id, k);
        } else {
          forall j | 0 <= j < n ensures id !in prev[j] {
            assert prev[j] == gs[j];
          }
          assert id !in m;
        }
      }
    }
  }

  /** Every id is a member of its own group, which is one of the groups
      read. */
  lemma {:induction false} MembershipOwnGroup(gs: seq<seq<int>>)
    ensures forall id :: id in Memberships(gs) ==> id in Memberships(gs)[id] && Memberships(gs)[id] in gs
  {
    if gs != [] {
      var n := |gs| - 1;
      var prev := gs[..n];
      MembershipOwnGroup(prev);
      var m := Memberships(prev);
      forall id | id in Memberships(gs)
        ensures id in Memberships(gs)[id] && Memberships(gs)[id] in gs
      {
        if id in m {
          assert m[id] in prev;
        }
      }
    }
  }

  /** The group table of the group file; none without a file. */
  function GroupData(text: Option<string>): Option<map<int, seq<int>>>
  {
    if text.None? then None
    else Some(Memberships(FilterMap(GroupOf, SplitNonEmpty(text.value, {'\n', '\r'}))))
  }

  /** Every entry of the table is a group of at least two ids that holds the
      entry's own id and comes from a line of the file. */
  lemma GroupTableEntries(text: string)
    ensures var t := GroupData(Some(text)).value;
            forall id :: id in t ==>
              id in t[id] && |t[id]| >= 2
              && exists line :: line in SplitNonEmpty(text, {'\n', '\r'}) && GroupOf(line) == Some(t[id])
  {
    var lines := SplitNonEmpty(text, {'\n', '\r'});
    var gs := FilterMap(GroupOf, lines);
    MembershipOwnGroup(gs);
    FilterMapFrom(GroupOf, lines);
    forall id | id in Memberships(gs)
      ensures |Memberships(gs)[id]| >= 2
      ensures exists line :: line in lines && GroupOf(line) == Some(Memberships(gs)[id])
    {
      var i :| 0 <= i < |lines| && GroupOf(lines[i]) == Some(Memberships(gs)[id]);
      assert lines[i] in lines;
    }
  }

  // ----------------------------------------------------------------------
  // Placement in the scene (`TransformPosition`)

  /** The scene parameters of the manager: the vector length and angle that
      Unity computes, the XZ scale, the scene offset, the seconds per frame
      and the agent states' recording interval. */
  datatype Config = Config(geometry: Geometry, scale: real, offset: Vec3, frameDuration: real, interval: int)

  /** `TransformPosition`: x and z scaled, y as it is, then the offset. */
  function TransformPosition(c: Config, p: Vec3): Vec3
  {
    Add(Vec3(p.x * c.scale, p.y, p.z * c.scale), c.offset)
  }

  /** The dataset position of a scene position, for a non-zero scale. */
  function Untransform(c: Config, q: Vec3): Vec3
    requires c.scale != 0.0
  {
    Vec3((q.x - c.offset.x) / c.scale, q.y - c.offset.y, (q.z - c.offset.z) / c.scale)
  }

  /** With a non-zero scale no two dataset positions share a scene
      position: the transform is undone by `Untransform`. */
  lemma TransformRoundTrip(c: Config, p: Vec3)
    requires c.scale != 0.0
    ensures Untransform(c, TransformPosition(c, p)) == p
  {
    var q := TransformPosition(c, p);
    assert q.x - c.offset.x == p.x * c.scale;
    assert q.z - c.offset.z == p.z * c.scale;
  }

  /** `Vector3.Lerp`: from `a` towards `b` by `t` clamped to [0, 1]. */
  function Lerp(a: Vec3, b: Vec3, t: real): Vec3
  {
    Add(a, Scale(Sub(b, a), Clamp01(t)))
  }

  /** The transform is affine, so placing a point between two samples gives
      the point between the two placed samples. */
  lemma TransformLerp(c: Config, a: Vec3, b: Vec3, t: real)
    ensures TransformPosition(c, Lerp(a, b, t)) == Lerp(TransformPosition(c, a), TransformPosition(c, b), t)
  {
    var k := Clamp01(t);
    assert (a.x + (b.x - a.x) * k) * c.scale == a.x * c.scale + (b.x * c.scale - a.x * c.scale) * k;
    assert (a.z + (b.z - a.z) * k) * c.scale == a.z * c.scale + (b.z * c.scale - a.z * c.scale) * k;
  }

  /** The positions list a spawned agent gets: each sample placed in the
      scene, in sample order. */
  function Positions(c: Config, data: seq<AgentData>): (r: seq<Vec3>)
    ensures |r| == |data|
  {
    if data == [] then [] else Positions(c, data[..|data| - 1]) + [TransformPosition(c, data[|data| - 1].position)]
  }

  lemma {:induction false} PositionsAt(c: Config, data: seq<AgentData>)
    ensures forall k :: 0 <= k < |data| ==> Positions(c, data)[k] == TransformPosition(c, data[k].position)
  {
    if data != [] {
      var n := |data| - 1;
      PositionsAt(c, data[..n]);
      assert forall k :: 0 <= k < n ==> data[..n][k] == data[k];
    }
  }

  // ----------------------------------------------------------------------
  // The homography file (`LoadHomographyMatrix`)

  /** The three numbers of a row of the file. */
  datatype Row = Row(a: real, b: real, c: real)

  function RowSeq(r: Row): seq<real> { [r.a, r.b, r.c] }

  /** A row from its tokens: exactly three, all read by `parse`. */
  function RowOf(parse: string -> Option<real>, parts: seq<string>): Option<Row>
  {
    if |parts| != 3 then None
    else
      var v := MapAll(parse, parts);
      if v.None? then None else Some(Row(v.value[0], v.value[1], v.value[2]))
  }

  /** The values of the lines, each split by `tokens` and read as a row, or
      nothing if one of them is not a row. */
  function Values(tokens: string -> seq<string>, parse: string -> Option<real>, lines: seq<string>): (r: Option<seq<real>>)
    ensures r.Some? ==> |r.value| == 3 * |lines|
  {
    if lines == [] then Some([])
    else
      var n := |lines| - 1;
      var a := Values(tokens, parse, lines[..n]);
      var b := RowOf(parse, tokens(lines[n]));
      if a.None? || b.None? then None else Some(a.value + RowSeq(b.value))
  }

  /** The matrix of the first three lines, or nothing when there are fewer
      or one of them is not a row. */
  function StrictMatrix(tokens: string -> seq<string>, parse: string -> Option<real>, lines: seq<string>): Option<Matrix3>
  {
    if |lines| < 3 then None
    else
      var v := Values(tokens, parse, lines[..3]);
      if v.None? then None else Some(MatrixOf(v.value))
  }

  /** The homography of the file's lines: rows split on blanks and tabs,
      numbers read as `float.TryParse` does. */
  function StrictHomography(lines: seq<string>): Option<Matrix3>
  {
    StrictMatrix(ZaraAnchor.Tokens, ParseReal, lines)
  }

  /** One bad row spoils the values of all lines around it. */
  lemma {:induction false} ValuesBadRow(tokens: string -> seq<string>, parse: string -> Option<real>, lines: seq<string>, i: int)
    requires 0 <= i < |lines| && RowOf(parse, tokens(lines[i])).None?
    ensures Values(tokens, parse, lines).None?
  {
    var n := |lines| - 1;
    if i < n {
      assert lines[..n][i] == lines[i];
      ValuesBadRow(tokens, parse, lines[..n], i);
    }
  }

  lemma ValuesSnoc(tokens: string -> seq<string>, parse: string -> Option<real>, lines: seq<string>, i: int)
    requires 0 <= i < |lines| && Values(tokens, parse, lines[..i]).Some? && RowOf(parse, tokens(lines[i])).Some?
    ensures Values(tokens, parse, lines[..i + 1])
            == Some(Values(tokens, parse, lines[..i]).value + RowSeq(RowOf(parse, tokens(lines[i])).value))
  {
    assert lines[..i + 1][..i] == lines[..i];
  }

  /** A row holds exactly the numbers its tokens parse to. */
  lemma RowFloats(parse: string -> Option<real>, parts: seq<string>)
    requires RowOf(parse, parts).Some?
    ensures FilterMap(parse, parts) == RowSeq(RowOf(parse, parts).value)
  {
    MapAllFilterMap(parse, parts);
    var v := MapAll(parse, parts).value;
    assert v == [v[0], v[1], v[2]];
  }

  /** When every line is a row, the values of the lines are the numbers a
      lenient reader, which skips what does not parse, finds in them. */
  lemma {:induction false} ValuesAreFloats(tokens: string -> seq<string>, parse: string -> Option<real>, lines: seq<string>)
    requires Values(tokens, parse, lines).Some?
    ensures ZaraAnchor.AllFloats(tokens, parse, lines) == Values(tokens, parse, lines).value
  {
    if lines != [] {
      var n := |lines| - 1;
      ValuesAreFloats(tokens, parse, lines[..n]);
      RowFloats(parse, tokens(lines[n]));
    }
  }

  /** When every element passes, skipping failures drops nothing. */
  lemma {:induction false} MapAllFilterMap<A, B>(f: A -> Option<B>, xs: seq<A>)
    requires MapAll(f, xs).Some?
    ensures FilterMap(f, xs) == MapAll(f, xs).value
  {
    if xs != [] {
      MapAllFilterMap(f, xs[..|xs| - 1]);
    }
  }

  /** The strict reader of this component and the lenient one of the
      anchor controller agree on every file the strict one accepts. */
  lemma StrictAgreesWithLenient(text: string)
    requires StrictHomography(ReadLines(text)).Some?
    ensures ZaraAnchor.FloatHomography(text) == StrictHomography(ReadLines(text)).value
  {
    StrictMatrixIsFirstNine(ZaraAnchor.Tokens, ParseReal, ReadLines(text));
  }

  /** A matrix the strict reader accepts is that of the first nine numbers
      of the lines. */
  lemma StrictMatrixIsFirstNine(tokens: string -> seq<string>, parse: string -> Option<real>, lines: seq<string>)
    requires StrictMatrix(tokens, parse, lines).Some?
    ensures var v := ZaraAnchor.AllFloats(tokens, parse, lines);
            |v| >= 9 && MatrixOf(v[..9]) == StrictMatrix(tokens, parse, lines).value
  {
    var head, tail := lines[..3], lines[3..];
    var v := Values(tokens, parse, head).value;
    ValuesAreFloats(tokens, parse, head);
    ZaraAnchor.FloatHomographyStops(tokens, parse, head, tail);
    assert head + tail == lines;
    assert v[..9] == v;
  }

  /** The token loop of `LoadHomographyMatrix`: three numbers, or nothing at
      the first token that `parse` rejects. */
  method ReadRow(parse: string -> Option<real>, parts: seq<string>) returns (r: Option<Row>)
    requires |parts| == 3
    ensures r == RowOf(parse, parts)
  {
    var vals: seq<real> := [];
    for j := 0 to 3
      invariant MapAll(parse, parts[..j]) == Some(vals)
    {
      assert parts[..j + 1][..j] == parts[..j];
      var v := parse(parts[j]);
      if v.None? {
        MapAllSome(parse, parts);
        return None;
      }
      vals := vals + [v.value];
    }
    assert parts[..3] == parts;
    r := Some(Row(vals[0], vals[1], vals[2]));
  }

  /** The line loop of `LoadHomographyMatrix`: the numbers go into `h` in
      reading order; a missing line or a bad row stops the load. */
  method ReadRows(tokens: string -> seq<string>, parse: string -> Option<real>, lines: seq<string>) returns (r: Option<Matrix3>)
    ensures r == StrictMatrix(tokens, parse, lines)
  {
    var h := new real[9];
    for i := 0 to 3
      invariant i <= |lines| && Values(tokens, parse, lines[..i]) == Some(h[..3 * i])
    {
      if i >= |lines| {
        return None;
      }
      var parts := tokens(lines[i]);
      if |parts| != 3 {
        if |lines| >= 3 {
          ValuesBadRow(tokens, parse, lines[..3], i);
        }
        return None;
      }
      var row := ReadRow(parse, parts);
      if row.None? {
        if |lines| >= 3 {
          ValuesBadRow(tokens, parse, lines[..3], i);
        }
        return None;
      }
      ValuesSnoc(tokens, parse, lines, i);
      ghost var done := h[..3 * i];
      h[3 * i], h[3 * i + 1], h[3 * i + 2] := row.value.a, row.value.b, row.value.c;
      assert h[..3 * (i + 1)] == done + RowSeq(row.value);
    }
    assert lines[..3] == lines[..3][..3];
    r := Some(MatrixOf(h[..]));
  }

  // ----------------------------------------------------------------------
  // Playback of one agent (the body of the loop in `UpdateAgents`)

  /** The sort key of the samples. */
  function FrameKey(d: AgentData): real { d.frame as real }

  /** Samples in frame order. */
  predicate FrameOrdered(data: seq<AgentData>)
  {
    forall i, j :: 0 <= i < j < |data| ==> data[i].frame <= data[j].frame
  }

  /** Sorting by the frame key puts the samples in frame order. */
  lemma SortedIsOrdered(data: seq<AgentData>)
    requires SortedBy(data, FrameKey)
    ensures FrameOrdered(data)
  {
    forall i, j | 0 <= i < j < |data|
      ensures data[i].frame <= data[j].frame
    {
      assert FrameKey(data[i]) <= FrameKey(data[j]);
    }
  }

  /** The data of a spawned agent: at least two samples, in frame order. */
  predicate Playable(data: seq<AgentData>)
  {
    |data| >= 2 && FrameOrdered(data)
  }

  /** Every agent of `ids` has playable data. */
  predicate AllPlayable(ids: set<int>, data: map<int, seq<AgentData>>)
  {
    forall id :: id in ids ==> id in data && Playable(data[id])
  }

  /** The index loop: from `index`, step on while a next sample exists and
      its frame has been reached. */
  function Advance(data: seq<AgentData>, index: int, frame: int): (r: int)
    requires 0 <= index < |data|
    ensures index <= r < |data|
    decreases |data| - index
  {
    if index < |data| - 1 && data[index + 1].frame <= frame then Advance(data, index + 1, frame) else index
  }

  /** The index only moves forward, over samples whose frame has been
      reached, and stops at the last sample or before the first one ahead
      of the frame. */
  lemma {:induction false} AdvanceStops(data: seq<AgentData>, index: int, frame: int)
    requires 0 <= index < |data|
    ensures var r := Advance(data, index, frame);
            && (forall k :: index < k <= r ==> data[k].frame <= frame)
            && (r == |data| - 1 || data[r + 1].frame > frame)
    decreases |data| - index
  {
    if index < |data| - 1 && data[index + 1].frame <= frame {
      AdvanceStops(data, index + 1, frame);
    }
  }

  /** On sorted samples the index lands on the last sample whose frame has
      been reached, when the one it starts at has been. */
  lemma AdvanceFindsLast(data: seq<AgentData>, index: int, frame: int)
    requires 0 <= index < |data| && FrameOrdered(data) && data[index].frame <= frame
    ensures var r := Advance(data, index, frame);
            data[r].frame <= frame && forall k :: r < k < |data| ==> data[k].frame > frame
  {
    var r := Advance(data, index, frame);
    AdvanceStops(data, index, frame);
    forall k | r < k < |data|
      ensures data[k].frame > frame
    {
      assert data[r + 1].frame <= data[k].frame;
    }
  }

  /** Advancing to one frame and then on to a later one lands where
      advancing straight to the later frame does: a run that advances frame
      by frame ends at `Advance(data, 0, last frame)`. */
  lemma {:induction false} AdvanceIncremental(data: seq<AgentData>, index: int, f1: int, f2: int)
    requires 0 <= index < |data| && f1 <= f2
    ensures Advance(data, Advance(data, index, f1), f2) == Advance(data, index, f2)
    decreases |data| - index
  {
    if index < |data| - 1 && data[index + 1].frame <= f1 {
      AdvanceIncremental(data, index + 1, f1, f2);
    }
  }

  /** The loop of `UpdateAgents` that moves the index. */
  method AdvanceIndex(data: seq<AgentData>, index: int, frame: int) returns (r: int)
    requires 0 <= index < |data|
    ensures r == Advance(data, index, frame)
  {
    r := index;
    while r < |data| - 1 && data[r + 1].frame <= frame
      invariant index <= r < |data|
      invariant Advance(data, r, frame) == Advance(data, index, frame)
      decreases |data| - r
    {
      r := r + 1;
    }
  }

  /** The agent is shown at `frame` from sample `i`: a next sample exists and
      the frame lies between the two. */
  predicate Active(data: seq<AgentData>, i: int, frame: int)
    requires 0 <= i < |data|
  {
    i + 1 < |data| && data[i].frame <= frame && data[i + 1].frame > frame
  }

  /** The frames a trajectory spans: from its first sample up to, and not
      including, its last. */
  predicate Covers(data: seq<AgentData>, frame: int)
    requires |data| >= 1
  {
    data[0].frame <= frame < data[|data| - 1].frame
  }

  /** Playing sorted samples from the start, the agent is shown at a frame
      exactly when its trajectory spans that frame. */
  lemma ActiveIffCovers(data: seq<AgentData>, frame: int)
    requires Playable(data)
    ensures Active(data, Advance(data, 0, frame), frame) <==> Covers(data, frame)
  {
    var r := Advance(data, 0, frame);
    var n := |data| - 1;
    AdvanceStops(data, 0, frame);
    assert data[0].frame <= data[r].frame <= data[n].frame;
    if data[0].frame <= frame {
      AdvanceFindsLast(data, 0, frame);
      if frame < data[n].frame {
        assert r < n;
      }
    } else {
      assert data[1].frame >= data[0].frame;
    }
  }

  /** How far the frame lies between the two samples; 0 when they share a
      frame. */
  function Fraction(data: seq<AgentData>, i: int, frame: int): real
    requires 0 <= i && i + 1 < |data|
  {
    var d := data[i + 1].frame - data[i].frame;
    if d > 0 then (frame - data[i].frame) as real / d as real else 0.0
  }

  /** While the agent is shown, it is part of the way from one sample to the
      next: never past the next one. */
  lemma FractionInRange(data: seq<AgentData>, i: int, frame: int)
    requires 0 <= i < |data| && Active(data, i, frame)
    ensures 0.0 <= Fraction(data, i, frame) < 1.0
  {
    var d := (data[i + 1].frame - data[i].frame) as real;
    var e := (frame - data[i].frame) as real;
    assert 0.0 <= e < d;
    assert e / d < 1.0 by {
      assert e < d;
    }
  }

  /** `n` whole turns, in degrees. */
  function Turns(n: int): real { n as real * 360.0 }

  /** A whole number of turns. */
  ghost predicate WholeTurns(x: real)
  {
    exists n: int :: x == Turns(n)
  }

  /** The heading turns the short way: at most half a turn, and the full
      turn reaches `b` up to whole turns. */
  lemma TurnIsShortest(a: real, b: real)
    ensures -180.0 < ShortTurn(a, b) <= 180.0
    ensures WholeTurns(b - a - ShortTurn(a, b))
    ensures LerpAngle(a, b, 0.0) == a && LerpAngle(a, b, 1.0) == a + ShortTurn(a, b)
  {
    var x := b - a;
    var f := (x / 360.0).Floor;
    assert f as real <= x / 360.0 < f as real + 1.0;
    assert f as real * 360.0 <= x < f as real * 360.0 + 360.0;
    var d := Repeat(x, 360.0);
    assert d == x - f as real * 360.0;
    assert 0.0 <= d < 360.0;
    if d > 180.0 {
      assert x - ShortTurn(a, b) == Turns(f + 1);
    } else {
      assert x - ShortTurn(a, b) == Turns(f);
    }
  }

  /** The pose the controller is given: the interpolated scene position,
      the velocity (the unit direction between the samples times their
      speed, in dataset units) and the interpolated heading. */
  datatype Pose = Pose(position: Vec3, velocity: Vec3, heading: real)

  /** The speed between samples `i` and `i + 1`: their distance over the
      time between them; 0 when they share a frame. */
  function Speed(c: Config, data: seq<AgentData>, i: int): real
    requires 0 <= i && i + 1 < |data| && c.frameDuration != 0.0
  {
    var d := data[i + 1].frame - data[i].frame;
    if d > 0 then c.geometry.mag(Sub(data[i + 1].position, data[i].position)) / (d as real * c.frameDuration) else 0.0
  }

  function PoseAt(c: Config, data: seq<AgentData>, i: int, frame: int): Pose
    requires 0 <= i && i + 1 < |data| && c.frameDuration != 0.0
  {
    var a, b := data[i], data[i + 1];
    var t := Fraction(data, i, frame);
    Pose(TransformPosition(c, Lerp(a.position, b.position, t)),
         Scale(Normalized(c.geometry, Sub(b.position, a.position)), Speed(c, data, i)),
         LerpAngle(a.headOrientation, b.headOrientation, t))
  }

  /** The shown position lies on the segment between the agent's placed
      samples `i` and `i + 1`, the ones in its positions list. */
  lemma PoseOnPath(c: Config, data: seq<AgentData>, i: int, frame: int)
    requires 0 <= i && i + 1 < |data| && c.frameDuration != 0.0
    ensures var ps := Positions(c, data);
            PoseAt(c, data, i, frame).position == Lerp(ps[i], ps[i + 1], Fraction(data, i, frame))
  {
    PositionsAt(c, data);
    TransformLerp(c, data[i].position, data[i + 1].position, Fraction(data, i, frame));
  }

  /** C#'s `%` on `int`: the remainder takes the sign of the dividend;
      written from Dafny's Euclidean one, which is never negative. */
  function Remainder(a: int, b: int): int
    requires b != 0
  {
    var r := a % b;
    if a < 0 && r != 0 then r - (if b < 0 then -b else b) else r
  }

  /** The truncated remainder has the dividend's sign, is smaller than the
      divisor in size, and is zero exactly when the Euclidean one is: the
      frames that are due are the multiples of the interval, negative ones
      included. */
  lemma RemainderSign(a: int, b: int)
    requires b != 0
    ensures a >= 0 ==> 0 <= Remainder(a, b) < (if b < 0 then -b else b)
    ensures a < 0 ==> -(if b < 0 then -b else b) < Remainder(a, b) <= 0
    ensures Remainder(a, b) == 0 <==> a % b == 0
  {
  }

  /** What one frame does to one agent: the new index, whether it is shown,
      its pose when shown, the action recorded (the velocity's x and z) when
      the frame is due, and the agent state's last saved frame after it. */
  datatype Step = Step(index: int, shown: bool, pose: Option<Pose>, action: Option<Vec2>, saved: int)

  function Tick(c: Config, data: seq<AgentData>, index: int, saved: int, frame: int): (s: Step)
    requires 0 <= index < |data| && c.frameDuration != 0.0 && c.interval != 0
    ensures 0 <= s.index < |data|
  {
    var i := Advance(data, index, frame);
    if !Active(data, i, frame) then Step(i, false, None, None, saved)
    else
      var pose := PoseAt(c, data, i, frame);
      if frame > saved && Remainder(frame, c.interval) == 0
      then Step(i, true, Some(pose), Some(Vec2(pose.velocity.x, pose.velocity.z)), frame)
      else Step(i, true, Some(pose), None, saved)
  }

  /** An agent is shown exactly when its new sample window holds the
      frame; it records exactly when it is shown, the frame is past the
      last saved one and is a multiple of the interval; and recording moves
      the last saved frame to this frame, so the same frame is never
      recorded twice. */
  lemma TickRecordsOnce(c: Config, data: seq<AgentData>, index: int, saved: int, frame: int)
    requires 0 <= index < |data| && c.frameDuration != 0.0 && c.interval != 0
    ensures var s := Tick(c, data, index, saved, frame);
            && s.index == Advance(data, index, frame)
            && (s.shown <==> Active(data, s.index, frame))
            && (s.action.Some? <==> s.shown && frame > saved && frame % c.interval == 0)
            && s.saved == (if s.action.Some? then frame else saved)
            && saved <= s.saved
            && Tick(c, data, s.index, s.saved, frame).action.None?
  {
    RemainderSign(frame, c.interval);
    var s := Tick(c, data, index, saved, frame);
    AdvanceIncremental(data, index, frame, frame);
  }

  /** The records of one frame, in the listed order of the agents. */
  datatype Record = Record(id: int, frame: int, action: Vec2)

  function FrameRecords(steps: map<int, Step>, keys: seq<int>, frame: int): seq<Record>
  {
    if keys == [] then []
    else
      var k := keys[|keys| - 1];
      FrameRecords(steps, keys[..|keys| - 1], frame)
      + if k in steps && steps[k].action.Some? then [Record(k, frame, steps[k].action.value)] else []
  }

  /** A frame records one entry for each listed agent that is due, of this
      frame, and no other. */
  lemma {:induction false} FrameRecordsDue(steps: map<int, Step>, keys: seq<int>, frame: int)
    ensures forall r :: r in FrameRecords(steps, keys, frame) ==>
              r.frame == frame && r.id in keys && r.id in steps && steps[r.id].action == Some(r.action)
  {
    if keys != [] {
      FrameRecordsDue(steps, keys[..|keys| - 1], frame);
    }
  }

  // ----------------------------------------------------------------------
  // Sorting and spawning (`Start`)

  /** Each agent's samples in frame order: a permutation of them. */
  function SortAll(m: map<int, seq<AgentData>>): (r: map<int, seq<AgentData>>)
    ensures r.Keys == m.Keys
  {
    map id | id in m :: SortBy(m[id], FrameKey)
  }

  /** Each agent's sorted samples are in frame order and are a permutation
      of its samples. */
  lemma SortAllSorts(m: map<int, seq<AgentData>>)
    ensures forall id :: id in m ==>
              && SortedBy(SortAll(m)[id], FrameKey)
              && multiset(SortAll(m)[id]) == multiset(m[id]) && |SortAll(m)[id]| == |m[id]|
  {
    forall id | id in m
      ensures SortedBy(SortAll(m)[id], FrameKey)
      ensures multiset(SortAll(m)[id]) == multiset(m[id]) && |SortAll(m)[id]| == |m[id]|
    {
      assert SortAll(m)[id] == SortBy(m[id], FrameKey);
      SortByPermutes(m[id], FrameKey);
    }
  }

  /** The agents `Start` spawns, each with its positions list: those with at
      least two samples. */
  function Spawned(c: Config, data: map<int, seq<AgentData>>): (r: map<int, seq<Vec3>>)
    ensures forall id :: id in r <==> id in data && |data[id]| >= 2
    ensures forall id :: id in r ==> r[id] == Positions(c, data[id])
  {
    map id | id in data && |data[id]| >= 2 :: Positions(c, data[id])
  }

  /** Every spawned agent stands at the offset's height at each of its
      positions: the parsed samples are all on the ground. */
  lemma SpawnedAtOffsetHeight(c: Config, t: ParserType, p: Placement, text: string)
    ensures var r := Spawned(c, SortAll(ParsedData(t, p, text)));
            forall id, k :: id in r && 0 <= k < |r[id]| ==> r[id][k].y == c.offset.y
  {
    var m := ParsedData(t, p, text);
    var data := SortAll(m);
    SortAllSorts(m);
    ParsedOnGround(t, p, text);
    forall id, k | id in Spawned(c, data) && 0 <= k < |Spawned(c, data)[id]|
      ensures Spawned(c, data)[id][k].y == c.offset.y
    {
      PositionsAt(c, data[id]);
      var d := data[id][k];
      assert d in multiset(m[id]) by {
        assert d in multiset(data[id]);
      }
      var j :| 0 <= j < |m[id]| && m[id][j] == d;
    }
  }

  // ----------------------------------------------------------------------
  // The manager

  /** Each agent records its frames in increasing order, none beyond its
      last saved frame. */
  ghost predicate Chronological(records: seq<Record>, lastSaved: map<int, int>)
  {
    && (forall i, j :: 0 <= i < j < |records| && records[i].id == records[j].id ==> records[i].frame < records[j].frame)
    && (forall i :: 0 <= i < |records| && records[i].id in lastSaved ==> records[i].frame <= lastSaved[records[i].id])
  }

  /** The manager's tables agree: every spawned agent has a state, a shown
      flag and playable samples, and the frame duration and the time step
      interval are usable. */
  predicate Consistent(c: Config, data: map<int, seq<AgentData>>, controllers: map<int, seq<Vec3>>,
                       saved: map<int, int>, shown: map<int, bool>)
  {
    && controllers.Keys == saved.Keys && controllers.Keys <= shown.Keys
    && AllPlayable(controllers.Keys, data)
    && c.frameDuration != 0.0 && c.interval != 0
  }

  class Manager {
    const parserType: ParserType
    const config: Config
    const maxFrame: int
    /** `groupData`: the group table; none without a group file. */
    var groupData: Option<map<int, seq<int>>>
    var homography: Matrix3
    var useHomography: bool
    /** `agentData`: the samples of each agent. */
    var agentData: map<int, seq<AgentData>>
    /** `agentControllers`: each spawned agent, by its positions list. */
    var controllers: map<int, seq<Vec3>>
    /** `agentStates`: each spawned agent's state, by its last saved frame. */
    var lastSaved: map<int, int>
    /** Whether each agent's object is active. */
    var shown: map<int, bool>
    /** `agentDataIndices`: the sample index of each agent in the running
        playback. */
    var indices: map<int, int>
    /** The frame counter. */
    var currentFrame: int
    /** The `RecordState` calls made so far. */
    var records: seq<Record>
    var isMoving: bool
    var isInitialized: bool

    predicate Valid()
      reads this
    {
      Consistent(config, agentData, controllers, lastSaved, shown)
    }

    /** Every spawned agent has a sample index in the playback. */
    predicate Running()
      reads this
      requires Valid()
    {
      forall id :: id in controllers ==> id in indices && 0 <= indices[id] < |agentData[id]|
    }

    constructor (parserType: ParserType, config: Config, maxFrame: int)
      requires config.frameDuration != 0.0 && config.interval != 0
      ensures this.parserType == parserType && this.config == config && this.maxFrame == maxFrame
      ensures Valid()
      ensures groupData == None && homography == Identity3 && !useHomography
      ensures agentData == map[] && controllers == map[] && lastSaved == map[] && shown == map[] && indices == map[]
      ensures currentFrame == 0 && records == [] && !isMoving && !isInitialized
    {
      this.parserType := parserType;
      this.config := config;
      this.maxFrame := maxFrame;
      groupData := None;
      homography := Identity3;
      useHomography := false;
      agentData := map[];
      controllers := map[];
      lastSaved := map[];
      shown := map[];
      indices := map[];
      currentFrame := 0;
      records := [];
      isMoving := false;
      isInitialized := false;
    }

    /** `LoadGroupData`: the group table of the file, each id joining the
        first group that lists it. */
    method LoadGroupData(text: Option<string>)
      modifies this`groupData
      ensures groupData == GroupData(text)
    {
      groupData := ReadGroupData(text);
    }

    /** `LoadHomographyMatrix`: the matrix of the first three lines when
        each is a row of three numbers; otherwise the matrix stays as it
        was. */
    method LoadHomographyMatrix(text: string)
      modifies this`homography
      ensures var s := StrictHomography(ReadLines(text));
              homography == if s.Some? then s.value else old(homography)
    {
      homography := ReadHomography(text, homography);
    }

    /** `Start`: loads the groups, the homography when a file is given
        (which also turns placement through it on), and the dataset; sorts
        each agent's samples by frame; and spawns, hidden, every agent with
        at least two samples, its positions list being its placed samples
        and its state fresh. The loads are those of `LoadGroupData`,
        `LoadHomographyMatrix` and `LoadDataFromFile`, done on local values
        and stored at the end. */
    method Start(groupText: Option<string>, homText: Option<string>, dataText: string)
      requires config.frameDuration != 0.0 && config.interval != 0 && controllers == map[]
      modifies this`groupData, this`homography, this`useHomography, this`agentData
      modifies this`controllers, this`lastSaved, this`shown, this`isInitialized
      ensures Valid() && isInitialized
      ensures groupData == GroupData(groupText)
      ensures useHomography == (old(useHomography) || homText.Some?)
      ensures homography == if homText.Some? && StrictHomography(ReadLines(homText.value)).Some?
                            then StrictHomography(ReadLines(homText.value)).value else old(homography)
      ensures agentData == SortAll(ParsedData(parserType, Placement(useHomography, homography), dataText))
      ensures controllers == Spawned(config, agentData)
      ensures lastSaved == FreshStates(controllers.Keys) && shown == Hidden(old(shown), controllers.Keys)
    {
      var groups := ReadGroupData(groupText);
      var h, use := homography, useHomography;
      if homText.Some? {
        h := ReadHomography(homText.value, h);
        use := true;
      }
      var parsed := Parse(parserType, dataText, h, use);
      var sorted, spawned, states, flags := SortAndSpawn(config, parsed, shown);
      groupData, homography, useHomography, agentData := groups, h, use, sorted;
      controllers, lastSaved, shown, isInitialized := spawned, states, flags, true;
      assert Valid() by {
        assert agentData == sorted && controllers == spawned && lastSaved == states && shown == flags;
      }
    }

    /** `LoadDataFromFile`: the samples of every agent, placed through the
        homography when it is on. */
    method LoadDataFromFile(text: string)
      modifies this`agentData
      ensures agentData == ParsedData(parserType, Placement(useHomography, homography), text)
    {
      agentData := Parse(parserType, text, homography, useHomography);
    }

    /** `IsInitialized`. */
    predicate IsInitialized()
      reads this
    {
      isInitialized
    }

    /** `GetAgentGameObject`: the spawned agent of the id, if any. */
    function AgentOf(id: int): (r: Option<seq<Vec3>>)
      reads this
      ensures r.Some? <==> id in controllers
      ensures r.Some? ==> r.value == controllers[id]
    {
      if id in controllers then Some(controllers[id]) else None
    }

    /** `RemoveAgent`: a spawned agent leaves the manager with its state and
        its samples; an unknown id changes nothing. */
    method RemoveAgent(id: int)
      requires Valid()
      modifies this`controllers, this`lastSaved, this`agentData
      ensures Valid() && AgentOf(id).None?
      ensures id in old(controllers) ==>
                controllers == old(controllers) - {id} && lastSaved == old(lastSaved) - {id}
                && agentData == old(agentData) - {id}
      ensures id !in old(controllers) ==>
                controllers == old(controllers) && lastSaved == old(lastSaved) && agentData == old(agentData)
    {
      if id in controllers {
        controllers := controllers - {id};
        lastSaved := lastSaved - {id};
        if id in agentData {
          agentData := agentData - {id};
        }
      }
    }

    /** `UpdateAgents`: every agent's index starts at the first sample, and
        the frames from the current one up to `maxFrame` are played in turn,
        the agents being visited in the order `keys` of the controller
        table. At the end each agent's index is the one reached by advancing
        straight to `maxFrame`, and an agent is shown exactly when its
        trajectory spans `maxFrame`. */
    method UpdateAgents(keys: seq<int>)
      requires Valid() && Chronological(records, lastSaved)
      requires Distinct(keys) && forall id :: id in controllers <==> id in keys
      modifies this`indices, this`shown, this`lastSaved, this`records, this`currentFrame
      ensures Valid() && Running() && Chronological(records, lastSaved)
      ensures currentFrame == MaxI(old(currentFrame), maxFrame + 1)
      ensures forall id :: id in controllers ==>
                indices[id] == if old(currentFrame) <= maxFrame then Advance(agentData[id], 0, maxFrame) else 0
      ensures old(currentFrame) <= maxFrame ==>
                forall id :: id in controllers ==> (shown[id] <==> Covers(agentData[id], maxFrame))
    {
      var frame;
      frame, indices, shown, lastSaved, records :=
        PlayFrames(config, agentData, keys, currentFrame, maxFrame, FirstSamples(lastSaved.Keys), shown, lastSaved, records);
      currentFrame := frame;
    }

    /** `StartMovingAgents`: starts the playback once; later calls do
        nothing. */
    method StartMovingAgents(keys: seq<int>)
      requires Valid() && Chronological(records, lastSaved)
      requires Distinct(keys) && forall id :: id in controllers <==> id in keys
      modifies this`isMoving, this`indices, this`shown, this`lastSaved, this`records, this`currentFrame
      ensures Valid() && isMoving && Chronological(records, lastSaved)
      ensures old(isMoving) ==> currentFrame == old(currentFrame) && indices == old(indices) && records == old(records)
      ensures !old(isMoving) ==>
                && Running()
                && currentFrame == MaxI(old(currentFrame), maxFrame + 1)
                && forall id :: id in controllers ==>
                     indices[id] == if old(currentFrame) <= maxFrame then Advance(agentData[id], 0, maxFrame) else 0
    {
      if !isMoving {
        isMoving := true;
        UpdateAgents(keys);
      }
    }
  }

  /** The fresh agent states of `Start`: no frame saved yet. */
  function FreshStates(ids: set<int>): (r: map<int, int>)
    ensures r.Keys == ids
  {
    map id | id in ids :: -1
  }

  /** The shown flags after `Start`: the spawned agents hidden. */
  function Hidden(shown: map<int, bool>, ids: set<int>): (r: map<int, bool>)
    ensures r.Keys == shown.Keys + ids
  {
    shown + map id | id in ids :: false
  }

  /** The indices `UpdateAgents` starts from: the first sample of each. */
  function FirstSamples(ids: set<int>): (r: map<int, int>)
    ensures r.Keys == ids && forall id :: id in r ==> r[id] == 0
  {
    map id | id in ids :: 0
  }

  /** The rest of `Start`: each agent's samples sorted by frame, then every
      agent with at least two samples spawned with a fresh state; every
      spawned agent then has sorted samples, at least two. The
      `Random.Range` choice of a prefab is not part of this model. */
  method SortAndSpawn(c: Config, m: map<int, seq<AgentData>>, shown: map<int, bool>)
    returns (data: map<int, seq<AgentData>>, spawned: map<int, seq<Vec3>>, states: map<int, int>, shown': map<int, bool>)
    requires c.frameDuration != 0.0 && c.interval != 0
    ensures data == SortAll(m) && spawned == Spawned(c, data)
    ensures states == FreshStates(spawned.Keys) && shown' == Hidden(shown, spawned.Keys)
    ensures Consistent(c, data, spawned, states, shown')
  {
    data := SortAll(m);
    SortAllSorts(m);
    spawned := Spawned(c, data);
    states := FreshStates(spawned.Keys);
    shown' := Hidden(shown, spawned.Keys);
    forall id | id in spawned
      ensures id in data && Playable(data[id])
    {
      SortedIsOrdered(data[id]);
    }
  }

  // ----------------------------------------------------------------------
  // The frames of `UpdateAgents`, over the maps the manager keeps

  /** The playback state of the spawned agents, the keys of `saved`: each
      has samples, a sample index among them, and a shown flag. */
  predicate Tracked(data: map<int, seq<AgentData>>, indices: map<int, int>, shown: map<int, bool>, saved: map<int, int>)
  {
    forall id :: id in saved ==> id in data && id in indices && id in shown && 0 <= indices[id] < |data[id]|
  }

  /** A spawned agent that the agent loop moves: one with at least two
      samples; the loop skips any other. */
  predicate Moves(data: map<int, seq<AgentData>>, saved: map<int, int>, id: int)
  {
    id in saved && id in data && |data[id]| >= 2
  }

  /** What this frame does to each spawned agent that moves. */
  function StepsOf(c: Config, data: map<int, seq<AgentData>>, indices: map<int, int>, saved: map<int, int>, frame: int): (r: map<int, Step>)
    requires forall id :: id in saved ==> id in data && id in indices && 0 <= indices[id] < |data[id]|
    requires c.frameDuration != 0.0 && c.interval != 0
    ensures forall id :: id in r <==> Moves(data, saved, id)
    ensures forall id :: Moves(data, saved, id) ==> r[id] == Tick(c, data[id], indices[id], saved[id], frame)
  {
    map id | id in saved && |data[id]| >= 2 :: Tick(c, data[id], indices[id], saved[id], frame)
  }

  /** A record of a frame past an agent's last saved frame keeps the records
      in order once that frame is saved. */
  lemma ChronologicalSnoc(records: seq<Record>, saved: map<int, int>, k: int, frame: int, a: Vec2)
    requires Chronological(records, saved) && k in saved && frame > saved[k]
    ensures Chronological(records + [Record(k, frame, a)], saved[k := frame])
  {
  }

  /** The playback state `UpdateAgents` moves from agent to agent: the
      sample indices, the shown flags, the last saved frames and the records
      made so far. */
  datatype Playback = Playback(indices: map<int, int>, shown: map<int, bool>, saved: map<int, int>, records: seq<Record>)

  /** One agent's visit in the agent loop: a spawned agent with at least two
      samples takes its step and records when the step is due; any other id
      changes nothing. */
  function Visit(c: Config, data: map<int, seq<AgentData>>, frame: int, p: Playback, k: int): (r: Playback)
    requires Tracked(data, p.indices, p.shown, p.saved) && c.frameDuration != 0.0 && c.interval != 0
    ensures Tracked(data, r.indices, r.shown, r.saved)
    ensures r.indices.Keys == p.indices.Keys && r.shown.Keys == p.shown.Keys && r.saved.Keys == p.saved.Keys
  {
    if !Moves(data, p.saved, k) then p
    else
      var t := Tick(c, data[k], p.indices[k], p.saved[k], frame);
      Playback(p.indices[k := t.index], p.shown[k := t.shown], p.saved[k := t.saved],
               p.records + if t.action.Some? then [Record(k, frame, t.action.value)] else [])
  }

  /** The visits of the listed ids, in order. */
  function VisitAll(c: Config, data: map<int, seq<AgentData>>, frame: int, p: Playback, keys: seq<int>): (r: Playback)
    requires Tracked(data, p.indices, p.shown, p.saved) && c.frameDuration != 0.0 && c.interval != 0
    ensures Tracked(data, r.indices, r.shown, r.saved)
    ensures r.indices.Keys == p.indices.Keys && r.shown.Keys == p.shown.Keys && r.saved.Keys == p.saved.Keys
  {
    if keys == [] then p
    else Visit(c, data, frame, VisitAll(c, data, frame, p, keys[..|keys| - 1]), keys[|keys| - 1])
  }

  /** Visiting distinct ids in turn gives a listed spawned agent its step,
      taken from the state before the loop, and leaves every other entry
      as it was. */
  lemma {:induction false} VisitAllAt(c: Config, data: map<int, seq<AgentData>>, frame: int, p: Playback, keys: seq<int>,
                                      r: Playback, id: int)
    requires Tracked(data, p.indices, p.shown, p.saved) && c.frameDuration != 0.0 && c.interval != 0
    requires Distinct(keys) && r == VisitAll(c, data, frame, p, keys)
    ensures id in p.indices && (id !in keys || !Moves(data, p.saved, id)) ==> r.indices[id] == p.indices[id]
    ensures id in p.shown && (id !in keys || !Moves(data, p.saved, id)) ==> r.shown[id] == p.shown[id]
    ensures id in p.saved && (id !in keys || !Moves(data, p.saved, id)) ==> r.saved[id] == p.saved[id]
    ensures Moves(data, p.saved, id) && id in keys ==>
              && r.indices[id] == Tick(c, data[id], p.indices[id], p.saved[id], frame).index
              && r.shown[id] == Tick(c, data[id], p.indices[id], p.saved[id], frame).shown
              && r.saved[id] == Tick(c, data[id], p.indices[id], p.saved[id], frame).saved
  {
    if keys != [] {
      var n := |keys| - 1;
      var k := keys[n];
      assert keys == keys[..n] + [k];
      assert Distinct(keys[..n]) && k !in keys[..n];
      VisitAllAt(c, data, frame, p, keys[..n], VisitAll(c, data, frame, p, keys[..n]), id);
    }
  }

  /** The agent loop appends the frame's records in the listed order. */
  lemma {:induction false} VisitAllRecords(c: Config, data: map<int, seq<AgentData>>, frame: int, p: Playback, keys: seq<int>, s: map<int, Step>)
    requires Tracked(data, p.indices, p.shown, p.saved) && c.frameDuration != 0.0 && c.interval != 0
    requires Distinct(keys) && s == StepsOf(c, data, p.indices, p.saved, frame)
    ensures VisitAll(c, data, frame, p, keys).records == p.records + FrameRecords(s, keys, frame)
  {
    if keys != [] {
      var n := |keys| - 1;
      var k := keys[n];
      assert keys == keys[..n] + [k];
      assert Distinct(keys[..n]) && k !in keys[..n];
      VisitAllRecords(c, data, frame, p, keys[..n], s);
      var q := VisitAll(c, data, frame, p, keys[..n]);
      if k in s {
        VisitAllAt(c, data, frame, p, keys[..n], q, k);
        var t := Tick(c, data[k], q.indices[k], q.saved[k], frame);
        assert t == s[k];
        AppendAssoc(p.records, FrameRecords(s, keys[..n], frame),
                    if t.action.Some? then [Record(k, frame, t.action.value)] else []);
      }
    }
  }

  /** A visit keeps each agent's records in frame order and within its last
      saved frame. */
  lemma VisitChronological(c: Config, data: map<int, seq<AgentData>>, frame: int, p: Playback, k: int)
    requires Tracked(data, p.indices, p.shown, p.saved) && c.frameDuration != 0.0 && c.interval != 0
    requires Chronological(p.records, p.saved)
    ensures var r := Visit(c, data, frame, p, k); Chronological(r.records, r.saved)
  {
    if Moves(data, p.saved, k) {
      var t := Tick(c, data[k], p.indices[k], p.saved[k], frame);
      TickRecordsOnce(c, data[k], p.indices[k], p.saved[k], frame);
      if t.action.Some? {
        ChronologicalSnoc(p.records, p.saved, k, frame, t.action.value);
      } else {
        assert p.saved[k := t.saved] == p.saved;
      }
    }
  }

  /** The agent loop keeps the records chronological. */
  lemma {:induction false} VisitAllChronological(c: Config, data: map<int, seq<AgentData>>, frame: int, p: Playback, keys: seq<int>)
    requires Tracked(data, p.indices, p.shown, p.saved) && c.frameDuration != 0.0 && c.interval != 0
    requires Chronological(p.records, p.saved)
    ensures var r := VisitAll(c, data, frame, p, keys); Chronological(r.records, r.saved)
  {
    if keys != [] {
      var n := |keys| - 1;
      VisitAllChronological(c, data, frame, p, keys[..n]);
      VisitChronological(c, data, frame, VisitAll(c, data, frame, p, keys[..n]), keys[n]);
    }
  }

  /** The agent loop of `UpdateAgents` for one frame: every spawned agent
      with at least two samples takes its step, in the listed order; one
      that is no longer spawned, or has fewer samples, is skipped. */
  method PlayFrame(c: Config, data: map<int, seq<AgentData>>, keys: seq<int>, frame: int,
                   indices: map<int, int>, shown: map<int, bool>, saved: map<int, int>, records: seq<Record>)
    returns (indices': map<int, int>, shown': map<int, bool>, saved': map<int, int>, records': seq<Record>)
    requires Tracked(data, indices, shown, saved) && c.frameDuration != 0.0 && c.interval != 0
    requires Distinct(keys) && (forall id :: id in saved ==> id in keys) && Chronological(records, saved)
    ensures indices'.Keys == indices.Keys && shown'.Keys == shown.Keys && saved'.Keys == saved.Keys
    ensures forall id :: id in indices && !Moves(data, saved, id) ==> indices'[id] == indices[id]
    ensures forall id :: id in shown && !Moves(data, saved, id) ==> shown'[id] == shown[id]
    ensures forall id :: id in saved && !Moves(data, saved, id) ==> saved'[id] == saved[id]
    ensures forall id :: Moves(data, saved, id) ==>
              && indices'[id] == Tick(c, data[id], indices[id], saved[id], frame).index
              && shown'[id] == Tick(c, data[id], indices[id], saved[id], frame).shown
              && saved'[id] == Tick(c, data[id], indices[id], saved[id], frame).saved
    ensures records' == records + FrameRecords(StepsOf(c, data, indices, saved, frame), keys, frame)
    ensures Tracked(data, indices', shown', saved') && Chronological(records', saved')
  {
    ghost var p := Playback(indices, shown, saved, records);
    indices', shown', saved', records' := indices, shown, saved, records;
    for i := 0 to |keys|
      invariant Playback(indices', shown', saved', records') == VisitAll(c, data, frame, p, keys[..i])
    {
      var k := keys[i];
      assert keys[..i + 1][..i] == keys[..i];
      if k in saved' {
        var list := data[k];
        if |list| >= 2 {
          var st := StepAgent(c, list, indices'[k], saved'[k], frame);
          indices', shown', saved' := indices'[k := st.index], shown'[k := st.shown], saved'[k := st.saved];
          records' := records' + if st.action.Some? then [Record(k, frame, st.action.value)] else [];
        }
      }
    }
    assert keys[..|keys|] == keys;
    forall id | id in indices
      ensures !Moves(data, saved, id) ==> indices'[id] == indices[id]
      ensures id in saved && !Moves(data, saved, id) ==> saved'[id] == saved[id]
      ensures Moves(data, saved, id) ==>
                && indices'[id] == Tick(c, data[id], indices[id], saved[id], frame).index
                && shown'[id] == Tick(c, data[id], indices[id], saved[id], frame).shown
                && saved'[id] == Tick(c, data[id], indices[id], saved[id], frame).saved
    {
      VisitAllAt(c, data, frame, p, keys, VisitAll(c, data, frame, p, keys), id);
    }
    forall id | id in shown && !Moves(data, saved, id) ensures shown'[id] == shown[id] {
      VisitAllAt(c, data, frame, p, keys, VisitAll(c, data, frame, p, keys), id);
    }
    VisitAllRecords(c, data, frame, p, keys, StepsOf(c, data, indices, saved, frame));
    VisitAllChronological(c, data, frame, p, keys);
  }

  /** The frame loop of `UpdateAgents`: the frames from `start` up to
      `last` in turn, the indices starting at the first samples. It ends one
      past `last` (or at `start` when that is later), each index where
      advancing straight to `last` lands and each agent shown exactly when
      its trajectory spans `last`. */
  method PlayFrames(c: Config, data: map<int, seq<AgentData>>, keys: seq<int>, start: int, last: int,
                    indices: map<int, int>, shown: map<int, bool>, saved: map<int, int>, records: seq<Record>)
    returns (frame: int, indices': map<int, int>, shown': map<int, bool>, saved': map<int, int>, records': seq<Record>)
    requires c.frameDuration != 0.0 && c.interval != 0
    requires AllPlayable(saved.Keys, data)
    requires indices.Keys == saved.Keys && (forall id :: id in indices ==> indices[id] == 0)
    requires saved.Keys <= shown.Keys
    requires Distinct(keys) && (forall id :: id in saved ==> id in keys) && Chronological(records, saved)
    ensures frame == MaxI(start, last + 1)
    ensures indices'.Keys == saved.Keys && shown'.Keys == shown.Keys && saved'.Keys == saved.Keys
    ensures Tracked(data, indices', shown', saved') && Chronological(records', saved')
    ensures forall id :: id in saved ==> indices'[id] == if start <= last then Advance(data[id], 0, last) else 0
    ensures start <= last ==> forall id :: id in saved ==> (shown'[id] <==> Covers(data[id], last))
  {
    frame, indices', shown', saved', records' := start, indices, shown, saved, records;
    while frame <= last
      invariant start <= frame && (start <= last ==> frame <= last + 1) && (start > last ==> frame == start)
      invariant indices'.Keys == saved.Keys && shown'.Keys == shown.Keys && saved'.Keys == saved.Keys
      invariant Tracked(data, indices', shown', saved') && Chronological(records', saved')
      invariant forall id :: id in saved ==> indices'[id] == if frame > start then Advance(data[id], 0, frame - 1) else 0
      invariant frame > start ==> forall id :: id in saved ==> (shown'[id] <==> Covers(data[id], frame - 1))
      decreases last - frame
    {
      ghost var before, savedBefore := indices', saved';
      indices', shown', saved', records' := PlayFrame(c, data, keys, frame, indices', shown', saved', records');
      forall id | id in saved
        ensures indices'[id] == Advance(data[id], 0, frame)
        ensures shown'[id] <==> Covers(data[id], frame)
      {
        TickRecordsOnce(c, data[id], before[id], savedBefore[id], frame);
        if frame > start {
          AdvanceIncremental(data[id], 0, frame - 1, frame);
        }
        ActiveIffCovers(data[id], frame);
      }
      frame := frame + 1;
    }
  }

  /** The loop body of `UpdateAgents` for one agent: the index loop, the
      window test, the pose, and the record guard. */
  method StepAgent(c: Config, data: seq<AgentData>, index: int, saved: int, frame: int) returns (s: Step)
    requires 0 <= index < |data| && c.frameDuration != 0.0 && c.interval != 0
    ensures s == Tick(c, data, index, saved, frame)
  {
    var cur := AdvanceIndex(data, index, frame);
    if cur + 1 < |data| && data[cur].frame <= frame && data[cur + 1].frame > frame {
      var pose := PoseAt(c, data, cur, frame);
      if frame > saved && Remainder(frame, c.interval) == 0 {
        s := Step(cur, true, Some(pose), Some(Vec2(pose.velocity.x, pose.velocity.z)), frame);
      } else {
        s := Step(cur, true, Some(pose), None, saved);
      }
    } else {
      s := Step(cur, false, None, None, saved);
    }
  }

  /** The body of `LoadGroupData`: no table without a file. */
  method ReadGroupData(text: Option<string>) returns (r: Option<map<int, seq<int>>>)
    ensures r == GroupData(text)
  {
    if text.None? {
      return None;
    }
    var table := ReadGroups(SplitNonEmpty(text.value, {'\n', '\r'}));
    r := Some(table);
  }

  /** The body of `LoadHomographyMatrix`: the matrix read, or `current` when
      the rows do not parse. */
  method ReadHomography(text: string, current: Matrix3) returns (h: Matrix3)
    ensures var s := StrictHomography(ReadLines(text));
            h == if s.Some? then s.value else current
  {
    var r := ReadRows(ZaraAnchor.Tokens, ParseReal, ReadLines(text));
    h := if r.Some? then r.value else current;
  }

  /** The line loop of `LoadGroupData`: a line that forms a group enrols
      its members. */
  method ReadGroups(lines: seq<string>) returns (table: map<int, seq<int>>)
    ensures table == Memberships(FilterMap(GroupOf, lines))
  {
    table := map[];
    ghost var gs: seq<seq<int>> := [];
    for i := 0 to |lines|
      invariant gs == FilterMap(GroupOf, lines[..i]) && table == Memberships(gs)
    {
      FilterMapPrefix(GroupOf, lines, i);
      var ids := GroupIds(lines[i]);
      if ids.Some? && |ids.value| > 1 {
        var g := ids.value;
        table := EnrolAll(table, g);
        gs := gs + [g];
      }
    }
    assert lines[..|lines|] == lines;
  }

  /** The inner loop of `LoadGroupData`: each member of `g` without a group
      joins `g`. */
  method EnrolAll(table: map<int, seq<int>>, g: seq<int>) returns (r: map<int, seq<int>>)
    ensures r == Enrol(table, g)
  {
    r := table;
    for j := 0 to |g|
      invariant r == table + map id | id in g[..j] && id !in table :: g
    {
      assert g[..j + 1] == g[..j] + [g[j]];
      if g[j] !in r {
        r := r[g[j] := g];
      }
    }
    assert g[..|g|] == g;
  }
}

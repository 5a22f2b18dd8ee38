/** `DatasetParser`: reads the samples of every agent from a trajectory
    file in one of three formats and places each sample on the ground plane,
    directly or through a homography. */
module DatasetParser {
  import opened Base
  import opened Text

  /** The three formats; `Unnamed` stands for any other value of the enum. */
  datatype ParserType = Output | Annotation | Obsmat | Unnamed

  /** `AgentData`: one sample of one agent. */
  datatype AgentData = AgentData(position: Vec3, frame: int, headOrientation: real)

  /** How the pixel point of a sample becomes a ground position. */
  datatype Placement = Placement(useHomography: bool, h: Matrix3)

  /** A parsed line before placement: the frame, the homogeneous pixel point
      `(px, py, 1)` and the heading. */
  datatype Sample = Sample(frame: int, px: real, py: real, heading: real)

  /** A parsed line of the formats that name the agent on every line. */
  datatype Raw = Raw(id: int, sample: Sample)

  // ----------------------------------------------------------------------
  // Placement

  /** The threshold below which the projective weight counts as zero. */
  const MinWeight: real := 0.000001

  /** The third row of the homography applied to `(px, py, 1)`. */
  function Weight(h: Matrix3, px: real, py: real): real
  {
    h.m20 * px + h.m21 * py + h.m22
  }

  /** The homography applied to `(px, py, 1)` and divided by the weight,
      laid on the ground as `(x, 0, z)`; the zero vector when the weight is
      below the threshold in magnitude. */
  function Project(h: Matrix3, px: real, py: real): (r: Vec3)
    ensures r.y == 0.0
    ensures Abs(Weight(h, px, py)) < MinWeight ==> r == Zero3
    ensures Abs(Weight(h, px, py)) >= MinWeight ==>
              && r.x * Weight(h, px, py) == h.m00 * px + h.m01 * py + h.m02
              && r.z * Weight(h, px, py) == h.m10 * px + h.m11 * py + h.m12
  {
    var w := Weight(h, px, py);
    if Abs(w) < MinWeight then Zero3
    else Vec3((h.m00 * px + h.m01 * py + h.m02) / w, 0.0, (h.m10 * px + h.m11 * py + h.m12) / w)
  }

  /** The ground position of a pixel point. */
  function Place(p: Placement, px: real, py: real): (r: Vec3)
    ensures r.y == 0.0
  {
    if p.useHomography then Project(p.h, px, py) else Vec3(px, 0.0, py)
  }

  /** The identity homography places every point where the direct placement
      does. */
  lemma PlaceIdentity(px: real, py: real, h: Matrix3)
    ensures Place(Placement(true, Identity3), px, py) == Place(Placement(false, h), px, py)
  {
    assert Weight(Identity3, px, py) == 1.0;
  }

  function DataOf(p: Placement, s: Sample): AgentData
  {
    AgentData(Place(p, s.px, s.py), s.frame, s.heading)
  }

  /** The placed samples, in order. */
  function Samples(p: Placement, ss: seq<Sample>): (r: seq<AgentData>)
    ensures |r| == |ss|
  {
    if ss == [] then [] else var k := |ss| - 1; Samples(p, ss[..k]) + [DataOf(p, ss[k])]
  }

  lemma SamplesSnoc(p: Placement, ss: seq<Sample>, s: Sample)
    ensures Samples(p, ss + [s]) == Samples(p, ss) + [DataOf(p, s)]
  {
    assert (ss + [s])[..|ss|] == ss;
  }

  /** Each placed sample keeps the frame and heading of its line and lies
      on the ground. */
  lemma {:induction false} SamplesAt(p: Placement, ss: seq<Sample>)
    ensures forall k :: 0 <= k < |ss| ==>
              && Samples(p, ss)[k].frame == ss[k].frame
              && Samples(p, ss)[k].headOrientation == ss[k].heading
              && Samples(p, ss)[k].position.y == 0.0
  {
    if ss != [] {
      var k := |ss| - 1;
      SamplesAt(p, ss[..k]);
      assert forall i :: 0 <= i < k ==> ss[..k][i] == ss[i];
    }
  }

  // ----------------------------------------------------------------------
  // Grouping by agent

  /** `agentData[id].Add(data)` for each row in order, creating the list on
      an id's first row. */
  function Collect(p: Placement, rows: seq<Raw>): map<int, seq<AgentData>>
  {
    if rows == [] then map[]
    else
      var k := |rows| - 1;
      var m := Collect(p, rows[..k]);
      var id := rows[k].id;
      m[id := (if id in m then m[id] else []) + [DataOf(p, rows[k].sample)]]
  }

  /** The samples of one agent, in reading order. */
  function SamplesOf(p: Placement, rows: seq<Raw>, id: int): seq<AgentData>
  {
    if rows == [] then []
    else
      var k := |rows| - 1;
      SamplesOf(p, rows[..k], id) + if rows[k].id == id then [DataOf(p, rows[k].sample)] else []
  }

  lemma CollectSnoc(p: Placement, rows: seq<Raw>, r: Raw)
    ensures Collect(p, rows + [r])
            == Collect(p, rows)[r.id := (if r.id in Collect(p, rows) then Collect(p, rows)[r.id] else []) + [DataOf(p, r.sample)]]
    ensures forall id :: SamplesOf(p, rows + [r], id) == SamplesOf(p, rows, id) + if r.id == id then [DataOf(p, r.sample)] else []
  {
    assert (rows + [r])[..|rows|] == rows;
  }

  /** The table holds exactly the agents with a row, and each agent's list
      is its samples in reading order. */
  lemma {:induction false} CollectIsFilter(p: Placement, rows: seq<Raw>)
    ensures forall id :: id in Collect(p, rows) <==> exists k :: 0 <= k < |rows| && rows[k].id == id
    ensures forall id :: id in Collect(p, rows) ==> Collect(p, rows)[id] == SamplesOf(p, rows, id)
    ensures forall id :: id !in Collect(p, rows) ==> SamplesOf(p, rows, id) == []
  {
    if rows != [] {
      var k := |rows| - 1;
      CollectIsFilter(p, rows[..k]);
      CollectSnoc(p, rows[..k], rows[k]);
      assert rows[..k] + [rows[k]] == rows;
      forall id ensures id in Collect(p, rows) <==> exists j :: 0 <= j < |rows| && rows[j].id == id {
        if id in Collect(p, rows[..k]) {
          var j :| 0 <= j < k && rows[..k][j].id == id;
          assert rows[j].id == id;
        }
        if exists j :: 0 <= j < |rows| && rows[j].id == id {
          var j :| 0 <= j < |rows| && rows[j].id == id;
          if j < k {
            assert rows[..k][j].id == id;
          }
        }
      }
    }
  }

  /** Gathers the rows that `parse` accepts from the lines, in order. */
  method CollectLines(parse: string -> Option<Raw>, p: Placement, lines: seq<string>)
    returns (m: map<int, seq<AgentData>>)
    ensures m == Collect(p, FilterMap(parse, lines))
  {
    m := map[];
    ghost var rows: seq<Raw> := [];
    var i := 0;
    while i < |lines|
      invariant 0 <= i <= |lines|
      invariant rows == FilterMap(parse, lines[..i]) && m == Collect(p, rows)
    {
      var r := parse(lines[i]);
      FilterMapPrefix(parse, lines, i);
      if r.Some? {
        CollectSnoc(p, rows, r.value);
        var id := r.value.id;
        var list := if id in m then m[id] else [];
        m := m[id := list + [DataOf(p, r.value.sample)]];
        rows := rows + [r.value];
      }
      i := i + 1;
    }
    assert lines[..i] == lines;
  }

  /** One more line adds its result, if it is accepted. */
  lemma FilterMapPrefix<B>(f: string -> Option<B>, lines: seq<string>, i: int)
    requires 0 <= i < |lines|
    ensures FilterMap(f, lines[..i + 1]) == FilterMap(f, lines[..i]) + if f(lines[i]).Some? then [f(lines[i]).value] else []
  {
    assert lines[..i + 1] == lines[..i] + [lines[i]];
    FilterMapSnoc(f, lines[..i], lines[i]);
  }

  // ----------------------------------------------------------------------
  // The output format: `id, x, y, frame, heading` per line

  /** The mirrored pixel `x` of the output format. */
  function Mirror(x: real): real { -x }

  /** The output format's heading turned by 90 degrees. */
  function Turn(heading: real): real { heading + 90.0 }

  /** One line of the output format: skipped when blank or with fewer than
      five comma-separated fields, otherwise read by `OutputRow`. */
  function ParseOutputLine(line: string): (r: Option<Raw>)
    ensures r.Some? ==> IsInt32(r.value.id) && IsInt32(r.value.sample.frame)
  {
    if IsBlank(line) then None
    else
      var parts := Split(line, {','});
      if |parts| < 5 then None else OutputRow(parts)
  }

  /** The first five fields of an output line: skipped when one does not
      parse; the pixel point is `(-x, y)` and the heading is turned by 90
      degrees. */
  function OutputRow(parts: seq<string>): (r: Option<Raw>)
    requires |parts| >= 5
    ensures r.Some? ==> IsInt32(r.value.id) && IsInt32(r.value.sample.frame)
  {
    var id := ParseInt32(parts[0]);
    var x := ParseReal(parts[1]);
    var y := ParseReal(parts[2]);
    var frame := ParseInt32(parts[3]);
    var heading := ParseReal(parts[4]);
    if id.None? || x.None? || y.None? || frame.None? || heading.None? then None
    else Some(Raw(id.value, Sample(frame.value, Mirror(x.value), y.value, Turn(heading.value))))
  }

  lemma JoinHasSeparator(parts: seq<string>, c: char)
    requires |parts| >= 2
    ensures |Join(parts, [c])| > |parts[0]| && Join(parts, [c])[|parts[0]|] == c
  {
  }

  /** A line with a character that is not white space is not blank. */
  lemma NotBlank(s: string, k: int)
    requires 0 <= k < |s| && !IsWhite(s[k])
    ensures !IsBlank(s)
  {
  }

  /** A line written as comma-separated fields reads back as those fields:
      the first five give the row, any further ones are ignored. */
  lemma OutputLineFields(parts: seq<string>, id: int, x: real, y: real, frame: int, heading: real)
    requires |parts| >= 5 && forall k :: 0 <= k < |parts| ==> Excludes(parts[k], ',')
    requires ParseInt32(parts[0]) == Some(id) && ParseReal(parts[1]) == Some(x) && ParseReal(parts[2]) == Some(y)
    requires ParseInt32(parts[3]) == Some(frame) && ParseReal(parts[4]) == Some(heading)
    ensures ParseOutputLine(Join(parts, ",")) == Some(Raw(id, Sample(frame, Mirror(x), y, Turn(heading))))
  {
    CommaJoined(parts);
    OutputRowOf(parts, id, x, y, frame, heading);
  }

  /** Fields without commas, joined by commas, make a non-blank line that
      splits back into them. */
  lemma CommaJoined(parts: seq<string>)
    requires |parts| >= 2 && forall k :: 0 <= k < |parts| ==> Excludes(parts[k], ',')
    ensures Split(Join(parts, ","), {','}) == parts && !IsBlank(Join(parts, ","))
  {
    SplitJoin(parts, ',');
    JoinHasSeparator(parts, ',');
    NotBlank(Join(parts, ","), |parts[0]|);
  }

  lemma OutputRowOf(parts: seq<string>, id: int, x: real, y: real, frame: int, heading: real)
    requires |parts| >= 5
    requires ParseInt32(parts[0]) == Some(id) && ParseReal(parts[1]) == Some(x) && ParseReal(parts[2]) == Some(y)
    requires ParseInt32(parts[3]) == Some(frame) && ParseReal(parts[4]) == Some(heading)
    ensures OutputRow(parts) == Some(Raw(id, Sample(frame, Mirror(x), y, Turn(heading))))
  {
  }

  /** The table of the output format. */
  function OutputData(p: Placement, text: string): map<int, seq<AgentData>>
  {
    Collect(p, FilterMap(ParseOutputLine, ReadLines(text)))
  }

  /** `LoadOutputData`. */
  method LoadOutputData(text: string, p: Placement) returns (m: map<int, seq<AgentData>>)
    ensures m == OutputData(p, text)
  {
    m := CollectLines(ParseOutputLine, p, ReadLines(text));
  }

  // ----------------------------------------------------------------------
  // The obsmat format: blank-separated columns, frame, id, x, _, y, ...

  /** One line of the obsmat format: skipped when blank, with fewer than
      eight columns, or when column 0, 1, 2 or 4 does not parse. The frame
      and the id are the first two columns truncated toward zero; the pixel
      point is `(x, y)` from columns 2 and 4; the heading is 0. */
  function ParseObsmatLine(line: string): (r: Option<Raw>)
    ensures r.Some? ==> r.value.sample.heading == 0.0
  {
    if IsBlank(line) then None
    else
      var parts := SplitNonEmpty(line, {' ', '\t'});
      if |parts| < 8 then None else ObsmatRow(parts)
  }

  /** Columns 0, 1, 2 and 4 of an obsmat line. */
  function ObsmatRow(parts: seq<string>): (r: Option<Raw>)
    requires |parts| >= 8
    ensures r.Some? ==> r.value.sample.heading == 0.0
  {
    var f := ParseReal(parts[0]);
    var a := ParseReal(parts[1]);
    var x := ParseReal(parts[2]);
    var y := ParseReal(parts[4]);
    if f.None? || a.None? || x.None? || y.None? then None
    else Some(Raw(Truncate(a.value), Sample(Truncate(f.value), x.value, y.value, 0.0)))
  }

  /** Parts without blanks or tabs, joined by single blanks, split back into
      themselves. */
  lemma {:induction false} SplitJoinBlank(parts: seq<string>)
    requires |parts| >= 1
    requires forall k :: 0 <= k < |parts| ==> Excludes(parts[k], ' ') && Excludes(parts[k], '\t')
    ensures Split(Join(parts, " "), {' ', '\t'}) == parts
  {
    if |parts| == 1 {
      SplitWithoutSeparator(parts[0], {' ', '\t'});
    } else {
      SplitJoinBlank(parts[1..]);
      assert parts[0] + [' '] + Join(parts[1..], " ") == Join(parts, " ");
      SplitAtSeparator(parts[0], ' ', Join(parts[1..], " "), {' ', '\t'});
      assert [parts[0]] + parts[1..] == parts;
    }
  }

  lemma {:induction false} NonEmptyKeeps(parts: seq<string>)
    requires forall k :: 0 <= k < |parts| ==> parts[k] != ""
    ensures NonEmpty(parts) == parts
  {
    if parts != [] {
      NonEmptyKeeps(parts[1..]);
      assert [parts[0]] + parts[1..] == parts;
    }
  }

  /** Non-empty, blank-free columns joined by blanks give back their parts. */
  lemma ColumnsRoundTrip(parts: seq<string>)
    requires |parts| >= 1
    requires forall k :: 0 <= k < |parts| ==> parts[k] != "" && Excludes(parts[k], ' ') && Excludes(parts[k], '\t')
    ensures SplitNonEmpty(Join(parts, " "), {' ', '\t'}) == parts
  {
    SplitJoinBlank(parts);
    NonEmptyKeeps(parts);
  }

  /** A column of the obsmat format: non-empty and free of white space. */
  predicate Column(s: string)
  {
    s != "" && forall i :: 0 <= i < |s| ==> !IsWhite(s[i])
  }

  /** A line of at least eight columns reads back as its columns 0, 1, 2
      and 4, with the frame and id truncated. */
  lemma ObsmatLineFields(parts: seq<string>, f: real, a: real, x: real, y: real)
    requires |parts| >= 8 && forall k :: 0 <= k < |parts| ==> Column(parts[k])
    requires ParseReal(parts[0]) == Some(f) && ParseReal(parts[1]) == Some(a)
    requires ParseReal(parts[2]) == Some(x) && ParseReal(parts[4]) == Some(y)
    ensures ParseObsmatLine(Join(parts, " ")) == Some(Raw(Truncate(a), Sample(Truncate(f), x, y, 0.0)))
  {
    forall k | 0 <= k < |parts| ensures parts[k] != "" && Excludes(parts[k], ' ') && Excludes(parts[k], '\t') {
      assert Column(parts[k]);
    }
    ColumnsRoundTrip(parts);
    JoinStarts(parts, " ");
    NotBlank(Join(parts, " "), 0);
    ObsmatRowOf(parts, f, a, x, y);
  }

  lemma ObsmatRowOf(parts: seq<string>, f: real, a: real, x: real, y: real)
    requires |parts| >= 8
    requires ParseReal(parts[0]) == Some(f) && ParseReal(parts[1]) == Some(a)
    requires ParseReal(parts[2]) == Some(x) && ParseReal(parts[4]) == Some(y)
    ensures ObsmatRow(parts) == Some(Raw(Truncate(a), Sample(Truncate(f), x, y, 0.0)))
  {
  }

  lemma JoinStarts(parts: seq<string>, sep: string)
    requires |parts| >= 1 && parts[0] != ""
    ensures |Join(parts, sep)| > 0 && Join(parts, sep)[0] == parts[0][0]
  {
  }

  /** The table of the obsmat format. */
  function ObsmatData(p: Placement, text: string): map<int, seq<AgentData>>
  {
    Collect(p, FilterMap(ParseObsmatLine, ReadLines(text)))
  }

  /** `LoadObsmatData`. */
  method LoadObsmatData(text: string, p: Placement) returns (m: map<int, seq<AgentData>>)
    ensures m == ObsmatData(p, text)
  {
    m := CollectLines(ParseObsmatLine, p, ReadLines(text));
  }

  // ----------------------------------------------------------------------
  // The annotation format: a spline count, then per spline a point count
  // and that many point lines

  /** `GetCleanLine` on a line that was read: cut before the first " - ",
      then trimmed. */
  function CleanLine(line: string): string
  {
    match IndexOf(line, " - ")
    case Some(k) => Trim(line[..k])
    case None => Trim(line)
  }

  /** A text without dashes followed by a " - " comment reads as the text
      alone. */
  lemma CleanLineCutsComment(a: string, b: string)
    requires Excludes(a, '-')
    ensures CleanLine(a + " - " + b) == Trim(a)
  {
    var s := a + " - " + b;
    assert OccursAt(s, " - ", |a|) by {
      assert s[|a|..|a| + 3] == " - ";
    }
    forall j | 0 <= j < |a| ensures !OccursAt(s, " - ", j) {
      if j + 1 < |a| {
        assert s[j + 1] == a[j + 1];
      } else {
        assert s[j + 1] == ' ';
      }
      assert s[j..j + 3][1] == s[j + 1];
    }
    assert IndexOf(s, " - ") == Some(|a|);
    assert s[..|a|] == a;
  }

  /** A point line: after cleaning, exactly four blank-separated fields. */
  function ParsePoint(line: string): Option<Sample>
  {
    var parts := SplitNonEmpty(CleanLine(line), {' ', '\t'});
    if |parts| != 4 then None else PointOf(parts)
  }

  /** The four fields `x y frame heading` of a point line; the pixel point
      is `(x, y)` and the heading is kept as written. */
  function PointOf(parts: seq<string>): Option<Sample>
    requires |parts| == 4
  {
    var x := ParseReal(parts[0]);
    var y := ParseReal(parts[1]);
    var frame := ParseInt32(parts[2]);
    var heading := ParseReal(parts[3]);
    if x.None? || y.None? || frame.None? || heading.None? then None
    else Some(Sample(frame.value, x.value, y.value, heading.value))
  }

  lemma PointOfFields(parts: seq<string>, x: real, y: real, frame: int, heading: real)
    requires |parts| == 4
    requires ParseReal(parts[0]) == Some(x) && ParseReal(parts[1]) == Some(y)
    requires ParseInt32(parts[2]) == Some(frame) && ParseReal(parts[3]) == Some(heading)
    ensures PointOf(parts) == Some(Sample(frame, x, y, heading))
  {
  }

  /** A point line whose cleaned text is four columns reads back as them. */
  lemma PointLineFields(line: string, parts: seq<string>, x: real, y: real, frame: int, heading: real)
    requires |parts| == 4 && forall k :: 0 <= k < |parts| ==> Column(parts[k])
    requires CleanLine(line) == Join(parts, " ")
    requires ParseReal(parts[0]) == Some(x) && ParseReal(parts[1]) == Some(y)
    requires ParseInt32(parts[2]) == Some(frame) && ParseReal(parts[3]) == Some(heading)
    ensures ParsePoint(line) == Some(Sample(frame, x, y, heading))
  {
    forall k | 0 <= k < |parts| ensures parts[k] != "" && Excludes(parts[k], ' ') && Excludes(parts[k], '\t') {
      assert Column(parts[k]);
    }
    ColumnsRoundTrip(parts);
    PointOfFields(parts, x, y, frame, heading);
  }

  /** The splines from number `i` on, read from line `pos`: spline `i`
      gets the empty list as agent `i + 1`; a missing or non-numeric count
      line stops the load with the table as it is; otherwise the next
      `count` lines (fewer at the end of the text) are its point lines, and
      the load goes on after them. */
  function SplinesFrom(r: Reader, p: Placement, lines: seq<string>, pos: nat, i: int, n: int, acc: map<int, seq<AgentData>>)
    : map<int, seq<AgentData>>
    requires pos <= |lines|
    decreases n - i
  {
    if i >= n then acc
    else
      var acc' := acc[i + 1 := []];
      if pos == |lines| then acc'
      else
        var count := r.count(lines[pos]);
        if count.None? then acc'
        else
          var end := MinI(pos + 1 + MaxI(count.value, 0), |lines|);
          SplinesFrom(r, p, lines, end, i + 1, n, acc'[i + 1 := Samples(p, FilterMap(r.point, lines[pos + 1..end]))])
  }

  /** The line readers of the annotation format: a count line and a point
      line. */
  datatype Reader = Reader(count: string -> Option<int>, point: string -> Option<Sample>)

  /** A count line: cleaned, then read as an integer. */
  function ParseCount(line: string): Option<int>
  {
    ParseInt32(CleanLine(line))
  }

  const Annotations: Reader := Reader(ParseCount, ParsePoint)

  /** The spline count of the first line, 0 when it is missing or not a
      number. */
  function SplineCount(lines: seq<string>): int
  {
    if lines == [] then 0
    else var n := ParseCount(lines[0]); if n.None? then 0 else n.value
  }

  /** The table of the annotation format: empty when the first line is
      missing or not a number. */
  function AnnotationData(p: Placement, text: string): map<int, seq<AgentData>>
  {
    var lines := ReadLines(text);
    if lines == [] then map[]
    else
      var n := ParseCount(lines[0]);
      if n.None? then map[] else SplinesFrom(Annotations, p, lines, 1, 0, n.value, map[])
  }

  /** The agents of a table are numbered 1 to `k`. */
  ghost predicate KeysUpTo(m: map<int, seq<AgentData>>, k: int)
  {
    forall id :: id in m <==> 1 <= id <= k
  }

  /** Reading on from spline `i` numbers the agents on from `i`: at the end
      they are 1 to some `k` between `i` and `n`, and the agents before
      `i + 1` keep their lists. */
  lemma {:induction false} SplinesKeys(r: Reader, p: Placement, lines: seq<string>, pos: nat, i: int, n: int,
                                       acc: map<int, seq<AgentData>>)
    requires pos <= |lines| && 0 <= i && KeysUpTo(acc, i)
    ensures exists k :: i <= k <= MaxI(n, i) && KeysUpTo(SplinesFrom(r, p, lines, pos, i, n, acc), k)
    ensures forall id :: id in acc ==> SplinesFrom(r, p, lines, pos, i, n, acc)[id] == acc[id]
    decreases n - i
  {
    var res := SplinesFrom(r, p, lines, pos, i, n, acc);
    if i >= n {
      assert KeysUpTo(res, i);
    } else {
      var acc' := acc[i + 1 := []];
      assert KeysUpTo(acc', i + 1);
      if pos == |lines| || r.count(lines[pos]).None? {
        assert res == acc';
      } else {
        var count := r.count(lines[pos]).value;
        var end := MinI(pos + 1 + MaxI(count, 0), |lines|);
        var next := acc'[i + 1 := Samples(p, FilterMap(r.point, lines[pos + 1..end]))];
        assert KeysUpTo(next, i + 1);
        SplinesKeys(r, p, lines, end, i + 1, n, next);
        assert res == SplinesFrom(r, p, lines, end, i + 1, n, next);
      }
    }
  }

  /** The agents of the annotation format are numbered 1 to `k`, at most
      the spline count. */
  lemma AnnotationKeys(p: Placement, text: string)
    ensures exists k :: 0 <= k <= MaxI(SplineCount(ReadLines(text)), 0) && KeysUpTo(AnnotationData(p, text), k)
  {
    var lines := ReadLines(text);
    var d := AnnotationData(p, text);
    if lines == [] || ParseCount(lines[0]).None? {
      assert d == map[];
      assert KeysUpTo(d, 0);
    } else {
      var n := ParseCount(lines[0]).value;
      assert SplineCount(lines) == n;
      assert d == SplinesFrom(Annotations, p, lines, 1, 0, n, map[]);
      assert KeysUpTo(map[], 0);
      SplinesKeys(Annotations, p, lines, 1, 0, n, map[]);
      var k :| 0 <= k <= MaxI(n, 0) && KeysUpTo(d, k);
    }
  }

  /** The inner loop of `LoadAnnotationData`: `count` reads, each taking the
      next line if there is one and adding its point when it parses. */
  method ReadPoints(point: string -> Option<Sample>, p: Placement, lines: seq<string>, pos: nat, count: int)
    returns (pts: seq<AgentData>, end: nat)
    requires pos <= |lines|
    ensures end == MinI(pos + MaxI(count, 0), |lines|)
    ensures pts == Samples(p, FilterMap(point, lines[pos..end]))
  {
    pts := [];
    end := pos;
    var j := 0;
    while j < count
      invariant 0 <= j <= MaxI(count, 0)
      invariant end == MinI(pos + j, |lines|)
      invariant pts == Samples(p, FilterMap(point, lines[pos..end]))
      decreases count - j
    {
      if end < |lines| {
        var s := point(lines[end]);
        ghost var ss := FilterMap(point, lines[pos..end]);
        assert lines[pos..end + 1] == lines[pos..end] + [lines[end]];
        FilterMapSnoc(point, lines[pos..end], lines[end]);
        if s.Some? {
          assert FilterMap(point, lines[pos..end + 1]) == ss + [s.value];
          SamplesSnoc(p, ss, s.value);
          pts := pts + [DataOf(p, s.value)];
        } else {
          assert FilterMap(point, lines[pos..end + 1]) == ss;
        }
        end := end + 1;
      }
      j := j + 1;
    }
  }

  /** `LoadAnnotationData`. */
  method LoadAnnotationData(text: string, p: Placement) returns (m: map<int, seq<AgentData>>)
    ensures m == AnnotationData(p, text)
  {
    var lines := ReadLines(text);
    m := map[];
    if |lines| == 0 {
      return;
    }
    var header := ParseCount(lines[0]);
    if header.None? {
      return;
    }
    m := ReadSplines(Annotations, p, lines, header.value);
  }

  /** The outer loop of `LoadAnnotationData`, from the second line on. */
  method ReadSplines(r: Reader, p: Placement, lines: seq<string>, n: int) returns (m: map<int, seq<AgentData>>)
    requires |lines| >= 1
    ensures m == SplinesFrom(r, p, lines, 1, 0, n, map[])
  {
    m := map[];
    var pos: nat := 1;
    var i := 0;
    while i < n
      invariant 0 <= i && pos <= |lines|
      invariant SplinesFrom(r, p, lines, pos, i, n, m) == SplinesFrom(r, p, lines, 1, 0, n, map[])
      decreases n - i
    {
      m := m[i + 1 := []];
      if pos == |lines| {
        return;
      }
      var count := r.count(lines[pos]);
      if count.None? {
        return;
      }
      var pts, end := ReadPoints(r.point, p, lines, pos + 1, count.value);
      m := m[i + 1 := pts];
      pos := end;
      i := i + 1;
    }
  }

  // ----------------------------------------------------------------------
  // Dispatch

  /** The table a file gives in a format; empty for any other value. */
  function ParsedData(t: ParserType, p: Placement, text: string): map<int, seq<AgentData>>
  {
    match t
    case Output => OutputData(p, text)
    case Annotation => AnnotationData(p, text)
    case Obsmat => ObsmatData(p, text)
    case Unnamed => map[]
  }

  /** `Parse`. */
  method Parse(t: ParserType, text: string, h: Matrix3, useHomography: bool) returns (m: map<int, seq<AgentData>>)
    ensures m == ParsedData(t, Placement(useHomography, h), text)
  {
    var p := Placement(useHomography, h);
    match t {
      case Output => m := LoadOutputData(text, p);
      case Annotation => m := LoadAnnotationData(text, p);
      case Obsmat => m := LoadObsmatData(text, p);
      case Unnamed => m := map[];
    }
  }

  /** Every sample in a table lies on the ground plane. */
  predicate OnGround(m: map<int, seq<AgentData>>)
  {
    forall id, k :: id in m && 0 <= k < |m[id]| ==> m[id][k].position.y == 0.0
  }

  lemma {:induction false} CollectOnGround(p: Placement, rows: seq<Raw>)
    ensures OnGround(Collect(p, rows))
  {
    if rows != [] {
      var k := |rows| - 1;
      CollectOnGround(p, rows[..k]);
    }
  }

  lemma {:induction false} SplinesOnGround(r: Reader, p: Placement, lines: seq<string>, pos: nat, i: int, n: int,
                                          acc: map<int, seq<AgentData>>)
    requires pos <= |lines| && OnGround(acc)
    ensures OnGround(SplinesFrom(r, p, lines, pos, i, n, acc))
    decreases n - i
  {
    if i < n && pos < |lines| && r.count(lines[pos]).Some? {
      var count := r.count(lines[pos]).value;
      var end := MinI(pos + 1 + MaxI(count, 0), |lines|);
      var ss := FilterMap(r.point, lines[pos + 1..end]);
      SamplesAt(p, ss);
      SplinesOnGround(r, p, lines, end, i + 1, n, acc[i + 1 := []][i + 1 := Samples(p, ss)]);
    }
  }

  /** In every format, every sample the parser returns lies on the ground
      plane. */
  lemma ParsedOnGround(t: ParserType, p: Placement, text: string)
    ensures OnGround(ParsedData(t, p, text))
  {
    match t {
      case Output => CollectOnGround(p, FilterMap(ParseOutputLine, ReadLines(text)));
      case Obsmat => CollectOnGround(p, FilterMap(ParseObsmatLine, ReadLines(text)));
      case Annotation =>
        var lines := ReadLines(text);
        if lines != [] && ParseCount(lines[0]).Some? {
          SplinesOnGround(Annotations, p, lines, 1, 0, ParseCount(lines[0]).value, map[]);
        }
      case Unnamed =>
    }
  }
}

/** `ZaraAnchorId0Controller`: the component that takes one Zara agent over.
    It reads the agent's first and last sample from the trajectory text,
    reads its own homography, picks the time budget it reports to the
    server, and enables itself only on the agent whose name ends in its
    id. */
module ZaraAnchor {
  import opened Base
  import opened Text

  // ----------------------------------------------------------------------
  // Start and end of one id

  /** A sample of the controlled id: its frame and plane position. */
  datatype Fix = Fix(frame: int, xy: Vec2)

  /** One line as `TryGetStartEndForId` reads it: a non-blank line of at
      least five comma-separated fields whose id is `id` and whose x, y and
      frame parse. The angle field is not read. */
  function FixOf(id: int, line: string): (r: Option<Fix>)
    ensures r.Some? ==> IsInt32(r.value.frame)
  {
    if IsBlank(line) then None
    else
      var p := Split(line, {','});
      if |p| < 5 then None
      else
        var pid := ParseInt32(p[0]);
        if pid.None? || pid.value != id then None
        else
          var x := ParseReal(p[1]);
          var y := ParseReal(p[2]);
          var frame := ParseInt32(p[3]);
          if x.None? || y.None? || frame.None? then None
          else Some(Fix(frame.value, Vec2(x.value, y.value)))
  }

  /** The samples of `id` in reading order. */
  function Fixes(id: int, lines: seq<string>): (r: seq<Fix>)
    ensures forall k :: 0 <= k < |r| ==> IsInt32(r[k].frame)
  {
    if lines == [] then []
    else
      var n := |lines| - 1;
      var f := FixOf(id, lines[n]);
      Fixes(id, lines[..n]) + (if f.Some? then [f.value] else [])
  }

  /** The running start sample: a sample replaces it only with a strictly
      smaller frame, from `int.MaxValue` and the zero position. */
  function Earliest(fs: seq<Fix>): Fix
  {
    if fs == [] then Fix(IntMax, Vec2(0.0, 0.0))
    else
      var e := Earliest(fs[..|fs| - 1]);
      if fs[|fs| - 1].frame < e.frame then fs[|fs| - 1] else e
  }

  /** The running end sample: a sample replaces it only with a strictly
      larger frame, from `int.MinValue` and the zero position. */
  function Latest(fs: seq<Fix>): Fix
  {
    if fs == [] then Fix(IntMin, Vec2(0.0, 0.0))
    else
      var e := Latest(fs[..|fs| - 1]);
      if fs[|fs| - 1].frame > e.frame then fs[|fs| - 1] else e
  }

  /** The result the method reports: an end not before the start, and a
      start that moved. */
  predicate Found(fs: seq<Fix>)
  {
    Latest(fs).frame >= Earliest(fs).frame && Earliest(fs).frame != IntMax
  }

  /** The start sample is the first sample of least frame; it stays at its
      start value exactly when no sample has a frame below `int.MaxValue`. */
  lemma {:induction false} EarliestFirstMinimum(fs: seq<Fix>)
    requires forall k :: 0 <= k < |fs| ==> IsInt32(fs[k].frame)
    ensures forall k :: 0 <= k < |fs| ==> Earliest(fs).frame <= fs[k].frame
    ensures Earliest(fs).frame < IntMax ==>
              exists i :: 0 <= i < |fs| && fs[i] == Earliest(fs) && forall j :: 0 <= j < i ==> fs[j].frame > fs[i].frame
    ensures Earliest(fs).frame >= IntMax ==> Earliest(fs) == Fix(IntMax, Vec2(0.0, 0.0))
  {
    if fs != [] {
      var n := |fs| - 1;
      var pre := fs[..n];
      EarliestFirstMinimum(pre);
      assert forall k :: 0 <= k < n ==> pre[k] == fs[k];
      var e := Earliest(pre);
      if fs[n].frame < e.frame {
        assert forall j :: 0 <= j < n ==> fs[j].frame > fs[n].frame;
      } else if e.frame < IntMax {
        var i :| 0 <= i < n && pre[i] == e && forall j :: 0 <= j < i ==> pre[j].frame > pre[i].frame;
        assert fs[i] == e && forall j :: 0 <= j < i ==> fs[j].frame > fs[i].frame;
      }
    }
  }

  /** The end sample is the first sample of greatest frame; it stays at its
      start value exactly when no sample has a frame above `int.MinValue`. */
  lemma {:induction false} LatestFirstMaximum(fs: seq<Fix>)
    requires forall k :: 0 <= k < |fs| ==> IsInt32(fs[k].frame)
    ensures forall k :: 0 <= k < |fs| ==> Latest(fs).frame >= fs[k].frame
    ensures Latest(fs).frame > IntMin ==>
              exists i :: 0 <= i < |fs| && fs[i] == Latest(fs) && forall j :: 0 <= j < i ==> fs[j].frame < fs[i].frame
    ensures Latest(fs).frame <= IntMin ==> Latest(fs) == Fix(IntMin, Vec2(0.0, 0.0))
  {
    if fs != [] {
      var n := |fs| - 1;
      var pre := fs[..n];
      LatestFirstMaximum(pre);
      assert forall k :: 0 <= k < n ==> pre[k] == fs[k];
      var e := Latest(pre);
      if fs[n].frame > e.frame {
        assert forall j :: 0 <= j < n ==> fs[j].frame < fs[n].frame;
      } else if e.frame > IntMin {
        var i :| 0 <= i < n && pre[i] == e && forall j :: 0 <= j < i ==> pre[j].frame < pre[i].frame;
        assert fs[i] == e && forall j :: 0 <= j < i ==> fs[j].frame < fs[i].frame;
      }
    }
  }

  /** The method reports success exactly when some sample of the id has a
      frame below `int.MaxValue`: a sample at `int.MaxValue` never moves the
      start. */
  lemma FoundIff(fs: seq<Fix>)
    requires forall k :: 0 <= k < |fs| ==> IsInt32(fs[k].frame)
    ensures Found(fs) <==> exists k :: 0 <= k < |fs| && fs[k].frame < IntMax
  {
    EarliestFirstMinimum(fs);
    LatestFirstMaximum(fs);
    if Earliest(fs).frame < IntMax {
      var i :| 0 <= i < |fs| && fs[i] == Earliest(fs) && forall j :: 0 <= j < i ==> fs[j].frame > fs[i].frame;
      assert Latest(fs).frame >= fs[i].frame;
    }
  }

  lemma FixesSnoc(id: int, lines: seq<string>, i: int)
    requires 0 <= i < |lines|
    ensures Fixes(id, lines[..i + 1])
            == Fixes(id, lines[..i]) + (if FixOf(id, lines[i]).Some? then [FixOf(id, lines[i]).value] else [])
  {
    assert lines[..i + 1][..i] == lines[..i];
  }

  lemma RunningSnoc(fs: seq<Fix>, f: Fix)
    ensures Earliest(fs + [f]) == if f.frame < Earliest(fs).frame then f else Earliest(fs)
    ensures Latest(fs + [f]) == if f.frame > Latest(fs).frame then f else Latest(fs)
  {
    assert (fs + [f])[..|fs|] == fs;
  }

  /** `TryGetStartEndForId`: the start and end samples of `id` in the
      trajectory text, and whether they were found. A missing or empty text
      reports nothing found. */
  method TryGetStartEndForId(text: Option<string>, id: int)
      returns (ok: bool, startFrame: int, startXY: Vec2, endFrame: int, endXY: Vec2)
    ensures var fs := if text.Some? then Fixes(id, ReadLines(text.value)) else [];
      && Fix(startFrame, startXY) == Earliest(fs)
      && Fix(endFrame, endXY) == Latest(fs)
      && ok == Found(fs)
  {
    startFrame, endFrame := IntMax, IntMin;
    startXY, endXY := Vec2(0.0, 0.0), Vec2(0.0, 0.0);
    if text.None? || text.value == "" {
      return false, startFrame, startXY, endFrame, endXY;
    }
    var lines := ReadLines(text.value);
    for i := 0 to |lines|
      invariant Fix(startFrame, startXY) == Earliest(Fixes(id, lines[..i]))
      invariant Fix(endFrame, endXY) == Latest(Fixes(id, lines[..i]))
    {
      ghost var fs := Fixes(id, lines[..i]);
      FixesSnoc(id, lines, i);
      var f := FixOf(id, lines[i]);
      if f.Some? {
        RunningSnoc(fs, f.value);
        assert Fixes(id, lines[..i + 1]) == fs + [f.value];
        if f.value.frame < startFrame {
          startFrame, startXY := f.value.frame, f.value.xy;
        }
        if f.value.frame > endFrame {
          endFrame, endXY := f.value.frame, f.value.xy;
        }
      } else {
        assert Fixes(id, lines[..i + 1]) == fs;
      }
    }
    assert lines[..|lines|] == lines;
    ok := endFrame >= startFrame && startFrame != IntMax;
  }

  // ----------------------------------------------------------------------
  // Homography from the first nine numbers

  /** The tokens of one line: its trimmed text split on blanks and tabs,
      empty pieces dropped (an empty line has none). */
  function Tokens(line: string): seq<string>
  {
    SplitNonEmpty(Trim(line), {' ', '\t'})
  }

  /** The numbers of the lines, in reading order: the tokens that `parse`
      accepts; the other tokens are skipped. */
  function AllFloats(tokens: string -> seq<string>, parse: string -> Option<real>, lines: seq<string>): seq<real>
  {
    if lines == [] then []
    else AllFloats(tokens, parse, lines[..|lines| - 1]) + FilterMap(parse, tokens(lines[|lines| - 1]))
  }

  /** The homography of the component: the first nine numbers of the text in
      row-major order, identity when it holds fewer. */
  function FloatHomography(text: string): Matrix3
  {
    var v := AllFloats(Tokens, ParseReal, ReadLines(text));
    if |v| < 9 then Identity3 else MatrixOf(v[..9])
  }

  lemma {:induction false} AllFloatsAppend(tokens: string -> seq<string>, parse: string -> Option<real>, a: seq<string>, b: seq<string>)
    ensures AllFloats(tokens, parse, a + b) == AllFloats(tokens, parse, a) + AllFloats(tokens, parse, b)
    decreases |b|
  {
    if b == [] {
      assert a + b == a;
    } else {
      var n := |b| - 1;
      AllFloatsAppend(tokens, parse, a, b[..n]);
      DropLast(a, b);
      var last := FilterMap(parse, tokens(b[n]));
      assert AllFloats(tokens, parse, a + b) == AllFloats(tokens, parse, a + b[..n]) + last;
      AppendAssoc(AllFloats(tokens, parse, a), AllFloats(tokens, parse, b[..n]), last);
    }
  }

  lemma DropLast<T>(a: seq<T>, b: seq<T>)
    requires b != []
    ensures (a + b)[..|a + b| - 1] == a + b[..|b| - 1] && (a + b)[|a + b| - 1] == b[|b| - 1]
  {
  }

  lemma AllFloatsSnoc(tokens: string -> seq<string>, parse: string -> Option<real>, lines: seq<string>, i: int)
    requires 0 <= i < |lines|
    ensures AllFloats(tokens, parse, lines[..i + 1]) == AllFloats(tokens, parse, lines[..i]) + FilterMap(parse, tokens(lines[i]))
  {
    assert lines[..i + 1][..i] == lines[..i];
  }

  /** Once the first lines hold nine numbers, the lines after them do not
      change the matrix. */
  lemma FloatHomographyStops(tokens: string -> seq<string>, parse: string -> Option<real>, a: seq<string>, b: seq<string>)
    requires |AllFloats(tokens, parse, a)| >= 9
    ensures var v := AllFloats(tokens, parse, a + b); |v| >= 9 && MatrixOf(v[..9]) == MatrixOf(AllFloats(tokens, parse, a)[..9])
  {
    AllFloatsAppend(tokens, parse, a, b);
    assert AllFloats(tokens, parse, a + b)[..9] == AllFloats(tokens, parse, a)[..9];
  }

  /** A line without a number (blank, or only tokens that do not parse)
      leaves the numbers read as if it were absent. */
  lemma LineWithoutNumbers(tokens: string -> seq<string>, parse: string -> Option<real>, a: seq<string>, line: string, b: seq<string>)
    requires FilterMap(parse, tokens(line)) == []
    ensures AllFloats(tokens, parse, a + [line] + b) == AllFloats(tokens, parse, a + b)
  {
    AllFloatsAppend(tokens, parse, a + [line], b);
    AllFloatsAppend(tokens, parse, a, [line]);
    AllFloatsAppend(tokens, parse, a, b);
    assert [line][..0] == [];
  }

  /** The numbers taken after the first `j` tokens: those before the call
      and the accepted ones among the `j` tokens, at most nine. */
  function Taken(parse: string -> Option<real>, before: seq<real>, toks: seq<string>, j: int): seq<real>
    requires 0 <= j <= |toks|
  {
    before + FilterMap(parse, toks[..j])
  }

  /** One more token adds its number, if it has one. */
  lemma TakenSnoc(parse: string -> Option<real>, before: seq<real>, toks: seq<string>, j: int)
    requires 0 <= j < |toks|
    ensures Taken(parse, before, toks, j + 1)
            == Taken(parse, before, toks, j) + (if parse(toks[j]).Some? then [parse(toks[j]).value] else [])
  {
    FilterMapSnoc(parse, toks[..j], toks[j]);
    assert toks[..j + 1] == toks[..j] + [toks[j]];
  }

  /** Stopping at the end of the tokens or with nine numbers loses nothing
      of the first nine. */
  lemma TakenStop(parse: string -> Option<real>, before: seq<real>, toks: seq<string>, j: int, c: int)
    requires 0 <= j <= |toks| && c == MinI(9, |Taken(parse, before, toks, j)|)
    requires j == |toks| || c == 9
    ensures c == MinI(9, |before| + |FilterMap(parse, toks)|)
    ensures (before + FilterMap(parse, toks))[..c] == Taken(parse, before, toks, j)[..c]
  {
    var t := Taken(parse, before, toks, j);
    var whole := before + FilterMap(parse, toks);
    if j == |toks| {
      assert toks[..j] == toks;
    } else {
      var rest := FilterMap(parse, toks[j..]);
      assert whole == t + rest by {
        FilterMapAppend(parse, toks[..j], toks[j..]);
        assert toks[..j] + toks[j..] == toks;
        AppendAssoc(before, FilterMap(parse, toks[..j]), rest);
      }
      PrefixOfLonger(t, rest, c);
    }
  }

  lemma PrefixOfLonger<T>(x: seq<T>, y: seq<T>, c: int)
    requires 0 <= c <= |x|
    ensures (x + y)[..c] == x[..c] && |x + y| >= |x|
  {
  }

  /** The token loop: each token that `parse` accepts goes into the next
      free entry, until all nine are filled. */
  method TakeFloats(parse: string -> Option<real>, toks: seq<string>, vals: array<real>, count: int) returns (c: int)
    requires vals.Length == 9 && 0 <= count <= 9
    modifies vals
    ensures c == MinI(9, count + |FilterMap(parse, toks)|)
    ensures vals[..c] == (old(vals[..count]) + FilterMap(parse, toks))[..c]
  {
    ghost var before := vals[..count];
    c := count;
    var j := 0;
    while j < |toks| && c < 9
      invariant 0 <= j <= |toks| && count <= c <= 9
      invariant c == MinI(9, |Taken(parse, before, toks, j)|)
      invariant vals[..c] == Taken(parse, before, toks, j)[..c]
    {
      TakenSnoc(parse, before, toks, j);
      var f := parse(toks[j]);
      if f.Some? {
        vals[c] := f.value;
        assert vals[..c + 1] == Taken(parse, before, toks, j + 1);
        c := c + 1;
      }
      j := j + 1;
    }
    TakenStop(parse, before, toks, j, c);
  }

  /** `ParseHomography3x3`: stops reading at the ninth number. */
  method ParseHomography3x3(text: string) returns (h: Matrix3)
    ensures h == FloatHomography(text)
  {
    h := ReadNine(Tokens, ParseReal, ReadLines(text));
  }

  /** The line loop of `ParseHomography3x3`, for lines split by `tokens`
      and tokens read by `parse`. */
  method ReadNine(tokens: string -> seq<string>, parse: string -> Option<real>, lines: seq<string>) returns (h: Matrix3)
    ensures var v := AllFloats(tokens, parse, lines); h == if |v| < 9 then Identity3 else MatrixOf(v[..9])
  {
    var vals := new real[9];
    var count := 0;
    var i := 0;
    while i < |lines| && count < 9
      invariant 0 <= i <= |lines| && 0 <= count <= 9
      invariant count == MinI(9, |AllFloats(tokens, parse, lines[..i])|)
      invariant vals[..count] == AllFloats(tokens, parse, lines[..i])[..count]
    {
      ghost var done := AllFloats(tokens, parse, lines[..i]);
      AllFloatsSnoc(tokens, parse, lines, i);
      assert vals[..count] == done;
      count := TakeFloats(parse, tokens(lines[i]), vals, count);
      i := i + 1;
    }
    assert lines[..i] + lines[i..] == lines;
    if count < 9 {
      assert lines[..i] == lines;
      h := Identity3;
    } else {
      FloatHomographyStops(tokens, parse, lines[..i], lines[i..]);
      h := MatrixOf(vals[..9]);
    }
  }

  // ----------------------------------------------------------------------
  // Remaining time, the id gate and the goal text

  /** The time budget `Start` picks: a positive override as it is; else,
      when the trajectory was found, its length in frames (a 32-bit
      subtraction) over the frame rate, at least 1, and never negative;
      else 30 seconds. */
  function RemainingTime(timeOverride: real, found: bool, startFrame: int, endFrame: int, fps: real): (r: real)
    ensures r >= 0.0
    ensures timeOverride > 0.0 ==> r == timeOverride
    ensures timeOverride <= 0.0 && !found ==> r == 30.0
    ensures timeOverride <= 0.0 && found ==> r * MaxR(1.0, fps) == MaxR(0.0, Wrap32(endFrame - startFrame) as real)
  {
    if timeOverride > 0.0 then timeOverride
    else if found then MaxR(0.0, Wrap32(endFrame - startFrame) as real / MaxR(1.0, fps))
    else 30.0
  }

  /** `ParseIdFromName`: the decimal digits at the end of the name, or -1
      when there are none or they do not fit an `int`. */
  function ParseIdFromName(name: string): (r: int)
    ensures r >= -1
    ensures TrailingDigits(name) == "" ==> r == -1
  {
    var d := TrailingDigits(name);
    if d == "" then -1
    else
      var v := ParseInt32(d);
      if v.None? || v.value < 0 then -1 else v.value
  }

  lemma {:induction false} TrailingDigitsOf(prefix: string, d: string)
    requires AllDigits(d)
    requires prefix == "" || !IsDigit(prefix[|prefix| - 1])
    ensures TrailingDigits(prefix + d) == d
    decreases |d|
  {
    if d == "" {
      assert prefix + d == prefix;
    } else {
      TrailingDigitsOf(prefix, d[..|d| - 1]);
      TrailingDigitsStep(prefix, d);
    }
  }

  /** One more digit at the end joins the trailing digits. */
  lemma TrailingDigitsStep(prefix: string, d: string)
    requires d != "" && IsDigit(d[|d| - 1])
    requires TrailingDigits(prefix + d[..|d| - 1]) == d[..|d| - 1]
    ensures TrailingDigits(prefix + d) == d
  {
    var n := |d| - 1;
    TrailingDigitsSnoc(prefix + d[..n], d[n]);
    SplitLast(prefix, d);
    SplitLast("", d);
    assert "" + d[..n] == d[..n];
  }

  lemma TrailingDigitsSnoc(s: string, c: char)
    requires IsDigit(c)
    ensures TrailingDigits(s + [c]) == TrailingDigits(s) + [c]
  {
    assert (s + [c])[..|s|] == s;
  }

  lemma SplitLast<T>(a: seq<T>, d: seq<T>)
    requires d != []
    ensures a + d[..|d| - 1] + [d[|d| - 1]] == a + d
  {
  }

  /** A name that is a prefix ending in a non-digit, followed by the printed
      id, gives the id back. */
  lemma NameIdRoundTrip(prefix: string, n: nat)
    requires n <= IntMax
    requires prefix == "" || !IsDigit(prefix[|prefix| - 1])
    ensures ParseIdFromName(prefix + NatToString(n)) == n
  {
    var d := NatToString(n);
    TrailingDigitsOf(prefix, d);
    NatParses(n);
    IdOfDigits(prefix + d, n);
  }

  lemma NatParses(n: nat)
    requires n <= IntMax
    ensures ParseInt32(NatToString(n)) == Some(n)
  {
    IntToStringParses(n);
    assert IntToString(n) == NatToString(n);
  }

  lemma IdOfDigits(name: string, n: nat)
    requires TrailingDigits(name) != "" && ParseInt32(TrailingDigits(name)) == Some(n)
    ensures ParseIdFromName(name) == n
  {
  }

  /** `Awake`: with the name check on, the component stays enabled only when
      the id parsed from its name is `anchorId`. */
  function AwakeEnabled(onlyRunWhenNameMatchesId: bool, name: string, anchorId: int): bool
  {
    !onlyRunWhenNameMatchesId || ParseIdFromName(name) == anchorId
  }

  /** On an agent named with its id, the gate lets through exactly the
      component whose `anchorId` is that id. */
  lemma AwakeGate(prefix: string, n: nat, anchorId: int)
    requires n <= IntMax
    requires prefix == "" || !IsDigit(prefix[|prefix| - 1])
    ensures AwakeEnabled(true, prefix + NatToString(n), anchorId) <==> anchorId == n
  {
    NameIdRoundTrip(prefix, n);
  }

  /** A name without trailing digits parses as -1, so the gate lets it
      through only for `anchorId` -1. */
  lemma AwakeWithoutDigits(name: string, anchorId: int)
    requires name == "" || !IsDigit(name[|name| - 1])
    ensures AwakeEnabled(true, name, anchorId) <==> anchorId == -1
  {
  }

  /** One coordinate of the goal offset, negated when flipped. */
  function Flip(flip: bool, v: real): real { if flip then -v else v }

  /** `GetGoalLocalPositionJson`: the planar offset from the agent to the
      goal (rotation ignored), with optional sign flips, as "[gx,gz]" with
      four decimals. */
  function GoalLocalJson(goal: Vec3, position: Vec3, flipGoalX: bool, flipGoalZ: bool): string
  {
    var offset := Sub(goal, position);
    Bracketed(FormatFixed(Flip(flipGoalX, offset.x), 4), FormatFixed(Flip(flipGoalZ, offset.z), 4))
  }

  /** Two fields as "[a,b]". */
  function Bracketed(a: string, b: string): string
  {
    "[" + a + "," + b + "]"
  }

  /** The goal text is a bracketed pair whose two comma-separated fields are
      the formatted offsets along X and Z. */
  lemma GoalLocalJsonFields(goal: Vec3, position: Vec3, flipGoalX: bool, flipGoalZ: bool)
    ensures var s := GoalLocalJson(goal, position, flipGoalX, flipGoalZ);
      && |s| >= 2 && s[0] == '[' && s[|s| - 1] == ']'
      && Split(s[1..|s| - 1], {','})
         == [FormatFixed(Flip(flipGoalX, goal.x - position.x), 4), FormatFixed(Flip(flipGoalZ, goal.z - position.z), 4)]
  {
    var a := FormatFixed(Flip(flipGoalX, goal.x - position.x), 4);
    var b := FormatFixed(Flip(flipGoalZ, goal.z - position.z), 4);
    assert Sub(goal, position).x == goal.x - position.x && Sub(goal, position).z == goal.z - position.z;
    assert GoalLocalJson(goal, position, flipGoalX, flipGoalZ) == Bracketed(a, b);
    BracketedPair(a, b);
  }

  lemma BracketedPair(a: string, b: string)
    requires Excludes(a, ',') && Excludes(b, ',')
    ensures var s := Bracketed(a, b);
      |s| >= 2 && s[0] == '[' && s[|s| - 1] == ']' && Split(s[1..|s| - 1], {','}) == [a, b]
  {
    var s := "[" + a + "," + b + "]";
    assert s[1..|s| - 1] == a + "," + b;
    assert Join([a, b], ",") == a + "," + b;
    SplitJoin([a, b], ',');
  }
}

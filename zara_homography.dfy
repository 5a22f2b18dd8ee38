/** The optional 3x3 homography of `ZaraPlaybackWithAnchor0` and the map from
    the dataset plane to world positions. */
module ZaraHomography {
  import opened Base
  import opened Text

  /** The first three tokens of a line with at least three, split on blanks
      and tabs after trimming. */
  function RowTokens(line: string): Option<(string, string, string)>
  {
    var t := Trim(line);
    if |t| == 0 then None
    else
      var toks := SplitNonEmpty(t, {' ', '\t'});
      if |toks| < 3 then None else Some((toks[0], toks[1], toks[2]))
  }

  /** `float.Parse` of three tokens; `None` where one of them throws. */
  function ParseTriple(q: (string, string, string)): Option<(real, real, real)>
  {
    var a := ParseReal(q.0);
    var b := ParseReal(q.1);
    var c := ParseReal(q.2);
    if a.None? || b.None? || c.None? then None else Some((a.value, b.value, c.value))
  }

  function MatrixOfRows(r0: (real, real, real), r1: (real, real, real), r2: (real, real, real)): Matrix3
  {
    Matrix3(r0.0, r0.1, r0.2, r1.0, r1.1, r1.2, r2.0, r2.1, r2.2)
  }

  /** The homography from the qualifying lines `q`, each read by `parse`:
      the first three make the matrix, identity when there are fewer;
      `None` (the parse throws) when one of those used does not parse.
      Lines after the third qualifying one are never read. */
  function HomographyOf<T>(parse: T -> Option<(real, real, real)>, q: seq<T>): Option<Matrix3>
  {
    if |q| == 0 then Some(Identity3)
    else if parse(q[0]).None? then None
    else if |q| == 1 then Some(Identity3)
    else if parse(q[1]).None? then None
    else if |q| == 2 then Some(Identity3)
    else if parse(q[2]).None? then None
    else Some(MatrixOfRows(parse(q[0]).value, parse(q[1]).value, parse(q[2]).value))
  }

  /** The homography a text gives: its lines of at least three tokens, read
      with `float.Parse`. */
  function HomographyOfText(text: string): Option<Matrix3>
  {
    HomographyOf(ParseTriple, FilterMap(RowTokens, ReadLines(text)))
  }

  /** `ParseHomography3x3`. */
  method ParseHomography3x3(text: string) returns (r: Option<Matrix3>)
    ensures r == HomographyOfText(text)
  {
    r := ReadRows(RowTokens, ParseTriple, ReadLines(text));
  }

  /** The line loop of `ParseHomography3x3`: lines that `tokens` rejects are
      skipped, each other line is parsed (a failure throws), and the loop
      stops at the third row. */
  method ReadRows<T>(tokens: string -> Option<T>, parse: T -> Option<(real, real, real)>, lines: seq<string>)
    returns (r: Option<Matrix3>)
    ensures r == HomographyOf(parse, FilterMap(tokens, lines))
  {
    var rows: seq<(real, real, real)> := [];
    ghost var q: seq<T> := [];
    var i := 0;
    while i < |lines|
      invariant 0 <= i <= |lines|
      invariant q == FilterMap(tokens, lines[..i]) && |q| < 3 && |rows| == |q|
      invariant forall j :: 0 <= j < |q| ==> parse(q[j]) == Some(rows[j])
    {
      var tk := tokens(lines[i]);
      ghost var q' := q + if tk.Some? then [tk.value] else [];
      assert q' == FilterMap(tokens, lines[..i + 1]) by {
        assert lines[..i + 1] == lines[..i] + [lines[i]];
        FilterMapSnoc(tokens, lines[..i], lines[i]);
      }
      if tk.Some? {
        var p := parse(tk.value);
        ghost var all := FilterMap(tokens, lines);
        assert |q'| <= |all| && forall j :: 0 <= j < |q'| ==> all[j] == q'[j] by {
          PrefixOfAll(tokens, lines, i + 1);
          assert all[..|q'|] == q';
        }
        if p.None? {
          HomographyStops(parse, all, |q|);
          r := None;
          return;
        }
        rows := rows + [p.value];
        if |rows| == 3 {
          assert parse(all[0]) == Some(rows[0]) && parse(all[1]) == Some(rows[1]) && parse(all[2]) == Some(rows[2]);
          r := Some(MatrixOfRows(rows[0], rows[1], rows[2]));
          return;
        }
      }
      q := q';
      i := i + 1;
    }
    assert lines[..i] == lines;
    HomographyShort(parse, q);
    r := Some(Identity3);
  }

  /** The first qualifying line that does not parse, among the first three,
      makes the parse throw. */
  lemma HomographyStops<T>(parse: T -> Option<(real, real, real)>, q: seq<T>, n: nat)
    requires n < 3 && n < |q|
    requires forall j :: 0 <= j < n ==> parse(q[j]).Some?
    requires parse(q[n]).None?
    ensures HomographyOf(parse, q) == None
  {
    if n == 0 {
      assert parse(q[0]).None?;
    } else if n == 1 {
      assert parse(q[0]).Some? && parse(q[1]).None?;
    } else {
      assert parse(q[0]).Some? && parse(q[1]).Some? && parse(q[2]).None?;
    }
  }

  /** Fewer than three qualifying lines, all parsing, leave the identity. */
  lemma HomographyShort<T>(parse: T -> Option<(real, real, real)>, q: seq<T>)
    requires |q| < 3
    requires forall j :: 0 <= j < |q| ==> parse(q[j]).Some?
    ensures HomographyOf(parse, q) == Some(Identity3)
  {
    if |q| > 0 {
      assert parse(q[0]).Some?;
    }
    if |q| > 1 {
      assert parse(q[1]).Some?;
    }
  }

  /** The qualifying lines among a prefix lead those of the whole text. */
  lemma PrefixOfAll<T>(tokens: string -> Option<T>, lines: seq<string>, i: int)
    requires 0 <= i <= |lines|
    ensures var p := FilterMap(tokens, lines[..i]);
      |p| <= |FilterMap(tokens, lines)| && FilterMap(tokens, lines)[..|p|] == p
  {
    assert lines == lines[..i] + lines[i..];
    FilterMapAppend(tokens, lines[..i], lines[i..]);
  }

  /** Lines after the third qualifying one are never read: the result is
      fixed by the first three qualifying lines. */
  lemma HomographyFirstThree<T>(parse: T -> Option<(real, real, real)>, q: seq<T>, rest: seq<T>)
    requires |q| >= 3
    ensures HomographyOf(parse, q + rest) == HomographyOf(parse, q[..3])
  {
    assert (q + rest)[0] == q[..3][0] && (q + rest)[1] == q[..3][1] && (q + rest)[2] == q[..3][2];
  }

  /** `ApplyHomography`: the projective map, divided by `w` unless `w` is
      approximately zero. */
  function ApplyHomography(h: Matrix3, uv: Vec2): Vec2
  {
    var x := h.m00 * uv.x + h.m01 * uv.y + h.m02;
    var y := h.m10 * uv.x + h.m11 * uv.y + h.m12;
    var w := h.m20 * uv.x + h.m21 * uv.y + h.m22;
    if !Approximately(w, 0.0) then Vec2(x / w, y / w) else Vec2(x, y)
  }

  /** The identity homography leaves every point where it is. */
  lemma ApplyIdentity(uv: Vec2)
    ensures ApplyHomography(Identity3, uv) == uv
  {
    assert !Approximately(1.0, 0.0);
  }

  /** `ToUnityXZ` and `MapToWorld`: the plane point on the ground, with
      optional sign flips, scaled and offset. */
  datatype Mapping = Mapping(useHomography: bool, flipX: bool, flipZ: bool, worldScale: real, worldOffset: Vec3)

  function ToUnityXZ(m: Mapping, xy: Vec2): (r: Vec3)
    ensures r.y == 0.0 && Abs(r.x) == Abs(xy.x) && Abs(r.z) == Abs(xy.y)
    ensures r.x == (if m.flipX then -xy.x else xy.x)
    ensures r.z == (if m.flipZ then -xy.y else xy.y)
  {
    Vec3(if m.flipX then -xy.x else xy.x, 0.0, if m.flipZ then -xy.y else xy.y)
  }

  function MapToWorld(m: Mapping, h: Matrix3, raw: Vec2): Vec3
  {
    var w2 := if m.useHomography then ApplyHomography(h, raw) else raw;
    Add(Scale(ToUnityXZ(m, w2), m.worldScale), m.worldOffset)
  }

  /** Every mapped point lies at the height of the offset. */
  lemma MapToWorldHeight(m: Mapping, h: Matrix3, raw: Vec2)
    ensures MapToWorld(m, h, raw).y == m.worldOffset.y
  {
  }
}

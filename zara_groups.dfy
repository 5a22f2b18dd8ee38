/** The groups text of `ZaraPlaybackWithAnchor0` (lines of blank-separated
    ids) and the edges that link the members of each group. */
module ZaraGroups {
  import opened Base
  import opened Text

  /** The ids of one line of the groups text, split on blanks and tabs; a
      line of fewer than two tokens, or with a token that is not an
      integer, gives no group. */
  function GroupLine(line: string): (r: Option<seq<int>>)
    ensures r.Some? ==> |r.value| >= 2
  {
    var t := Trim(line);
    if |t| == 0 then None
    else
      var toks := SplitNonEmpty(t, {' ', '\t'});
      if |toks| < 2 then None else MapAll(ParseInt32, toks)
  }

  /** The token loop of `ParseGroups`: the ids, or `false` at the first
      token that `parse` (`int.TryParse`) rejects. */
  method ParseIds(parse: string -> Option<int>, toks: seq<string>) returns (ok: bool, ids: seq<int>)
    ensures ok <==> MapAll(parse, toks).Some?
    ensures ok ==> ids == MapAll(parse, toks).value
  {
    MapAllSome(parse, toks);
    var a := new int[|toks|];
    ok := true;
    var i := 0;
    while i < |toks|
      invariant 0 <= i <= |toks|
      invariant forall k :: 0 <= k < i ==> parse(toks[k]).Some? && a[k] == parse(toks[k]).value
    {
      var v := parse(toks[i]);
      if v.None? {
        ok := false;
        break;
      }
      a[i] := v.value;
      i := i + 1;
    }
    ids := a[..];
    if ok {
      assert ids == MapAll(parse, toks).value;
    }
  }

  /** The body of the line loop of `ParseGroups`: trimmed, skipped when
      empty or of fewer than two tokens, kept when every token parses. */
  method ReadGroupLine(line: string) returns (g: Option<seq<int>>)
    ensures g == GroupLine(line)
  {
    g := None;
    var t := Trim(line);
    if |t| == 0 {
      return;
    }
    var toks := SplitNonEmpty(t, {' ', '\t'});
    if |toks| < 2 {
      return;
    }
    var ok, ids := ParseIds(ParseInt32, toks);
    if ok {
      g := Some(ids);
    }
  }

  /** The line loop of `ParseGroups`: the kept groups, in line order. */
  method ReadGroups(lines: seq<string>) returns (gs: seq<seq<int>>)
    ensures gs == FilterMap(GroupLine, lines)
  {
    gs := [];
    var i := 0;
    while i < |lines|
      invariant 0 <= i <= |lines|
      invariant gs == FilterMap(GroupLine, lines[..i])
    {
      assert lines[..i + 1] == lines[..i] + [lines[i]];
      FilterMapSnoc(GroupLine, lines[..i], lines[i]);
      var r := ReadGroupLine(lines[i]);
      if r.Some? {
        gs := gs + [r.value];
      }
      i := i + 1;
    }
    assert lines[..i] == lines;
  }

  /** A kept group has at least two members. */
  lemma GroupsHaveTwo(lines: seq<string>)
    ensures forall g :: g in FilterMap(GroupLine, lines) ==> |g| >= 2
  {
    FilterMapFrom(GroupLine, lines);
  }

  // ----------------------------------------------------------------------
  // Group edges

  datatype Edge = Edge(a: int, b: int, groupIndex: int)

  datatype LinkMode = AllPairs | Chain

  /** Consecutive members. */
  function ChainEdges(g: seq<int>, gi: int): seq<Edge>
    requires |g| >= 1
  {
    seq(|g| - 1, i requires 0 <= i < |g| - 1 => Edge(g[i], g[i + 1], gi))
  }

  /** Member `i` with every later member, in order. */
  function RowEdges(g: seq<int>, gi: int, i: int): (r: seq<Edge>)
    requires 0 <= i < |g|
    ensures |r| == |g| - i - 1
  {
    seq(|g| - i - 1, k requires 0 <= k < |g| - i - 1 => Edge(g[i], g[i + 1 + k], gi))
  }

  /** The rows of the first `m` members. */
  function PairEdges(g: seq<int>, gi: int, m: nat): seq<Edge>
    requires m <= |g|
  {
    if m == 0 then [] else PairEdges(g, gi, m - 1) + RowEdges(g, gi, m - 1)
  }

  /** The edges of one group: none below two members. */
  function GroupEdges(g: seq<int>, gi: int, mode: LinkMode): seq<Edge>
  {
    if |g| < 2 then []
    else if mode == Chain then ChainEdges(g, gi)
    else PairEdges(g, gi, |g|)
  }

  /** `BuildGroupEdges`: the edges of each group in turn. */
  function AllEdges(gs: seq<seq<int>>, mode: LinkMode): seq<Edge>
  {
    if gs == [] then []
    else
      var n := |gs| - 1;
      AllEdges(gs[..n], mode) + GroupEdges(gs[n], n, mode)
  }

  /** Where row `i` starts among the pairs of `n` members. */
  function RowStart(n: nat, i: nat): (r: nat)
    requires i <= n
  {
    if i == 0 then 0 else RowStart(n, i - 1) + (n - i)
  }

  lemma {:induction false} RowStartClosed(n: nat, i: nat)
    requires i <= n
    ensures 2 * RowStart(n, i) == i * (2 * n - i - 1)
  {
    if i > 0 {
      RowStartClosed(n, i - 1);
      assert (i - 1) * (2 * n - (i - 1) - 1) + 2 * (n - i) == i * (2 * n - i - 1);
    }
  }

  /** Pair `(i, j)` sits at position `RowStart(n, i) + j - i - 1`. */
  lemma {:induction false} PairAt(g: seq<int>, gi: int, m: nat, i: int, j: int)
    requires m <= |g| && 0 <= i < m && i < j < |g|
    ensures |PairEdges(g, gi, m)| == RowStart(|g|, m)
    ensures PairIndex(|g|, i, j) < RowStart(|g|, m)
    ensures PairEdges(g, gi, m)[PairIndex(|g|, i, j)] == Edge(g[i], g[j], gi)
  {
    PairLength(g, gi, m);
    if i < m - 1 {
      PairAt(g, gi, m - 1, i, j);
      RowStartGrows(|g|, m - 1, m - 1);
    } else {
      PairLength(g, gi, m - 1);
    }
  }

  lemma {:induction false} PairLength(g: seq<int>, gi: int, m: nat)
    requires m <= |g|
    ensures |PairEdges(g, gi, m)| == RowStart(|g|, m)
  {
    if m > 0 {
      PairLength(g, gi, m - 1);
    }
  }

  /** `e` joins members `i < j` of group `gi`, with `i < m`. */
  ghost predicate JoinsPair(g: seq<int>, gi: int, m: int, e: Edge)
  {
    exists i, j :: 0 <= i < j < |g| && i < m && e == Edge(g[i], g[j], gi)
  }

  /** Every edge of the pairs is a pair `i < j` of members. */
  lemma {:induction false} PairFrom(g: seq<int>, gi: int, m: nat)
    requires m <= |g|
    ensures forall k :: 0 <= k < |PairEdges(g, gi, m)| ==> JoinsPair(g, gi, m, PairEdges(g, gi, m)[k])
  {
    if m > 0 {
      PairFrom(g, gi, m - 1);
      var p := PairEdges(g, gi, m - 1);
      var row := RowEdges(g, gi, m - 1);
      forall k | 0 <= k < |PairEdges(g, gi, m)|
        ensures JoinsPair(g, gi, m, PairEdges(g, gi, m)[k])
      {
        if k < |p| {
          assert JoinsPair(g, gi, m - 1, p[k]);
          var i, j :| 0 <= i < j < |g| && i < m - 1 && p[k] == Edge(g[i], g[j], gi);
          assert PairEdges(g, gi, m)[k] == p[k];
        } else {
          var i, j := m - 1, m + k - |p|;
          assert 0 <= i < j < |g| && i < m && PairEdges(g, gi, m)[k] == row[k - |p|] == Edge(g[i], g[j], gi);
        }
      }
    }
  }

  /** Chain mode: n - 1 edges, member `i` to member `i + 1`. */
  lemma ChainCount(g: seq<int>, gi: int)
    requires |g| >= 2
    ensures |GroupEdges(g, gi, Chain)| == |g| - 1
    ensures forall i :: 0 <= i < |g| - 1 ==> GroupEdges(g, gi, Chain)[i] == Edge(g[i], g[i + 1], gi)
  {
  }

  /** All-pairs mode: n (n - 1) / 2 edges, every pair `i < j` once, in
      lexicographic order of `(i, j)`, and nothing else. */
  lemma PairsCount(g: seq<int>, gi: int)
    requires |g| >= 2
    ensures |GroupEdges(g, gi, AllPairs)| == RowStart(|g|, |g|)
    ensures 2 * |GroupEdges(g, gi, AllPairs)| == |g| * (|g| - 1)
    ensures forall i, j :: 0 <= i < j < |g| ==> GroupEdges(g, gi, AllPairs)[PairIndex(|g|, i, j)] == Edge(g[i], g[j], gi)
    ensures forall k :: 0 <= k < |GroupEdges(g, gi, AllPairs)| ==>
              JoinsPair(g, gi, |g|, GroupEdges(g, gi, AllPairs)[k])
  {
    var n := |g|;
    PairLength(g, gi, n);
    RowStartClosed(n, n);
    forall i, j | 0 <= i < j < n ensures GroupEdges(g, gi, AllPairs)[PairIndex(n, i, j)] == Edge(g[i], g[j], gi) {
      PairAt(g, gi, n, i, j);
    }
    PairFrom(g, gi, n);
  }

  /** The position of pair `(i, j)` among the pairs of `n` members: within
      row `i`, before row `i + 1`. */
  function PairIndex(n: nat, i: nat, j: nat): (r: nat)
    requires i < j < n
    ensures r < RowStart(n, i + 1) <= RowStart(n, n)
  {
    RowStartGrows(n, i, n - 1);
    RowStart(n, i) + j - i - 1
  }

  /** Row `i` ends where row `i + 1` starts, and rows only grow. */
  lemma {:induction false} RowStartGrows(n: nat, i: nat, i': nat)
    requires i <= i' < n
    ensures RowStart(n, i) + (n - i - 1) == RowStart(n, i + 1) <= RowStart(n, i' + 1)
    decreases i' - i
  {
    if i < i' {
      RowStartGrows(n, i + 1, i');
    }
  }

  /** The pairs come in lexicographic order: `(i, j)` before `(i', j')`
      whenever `i < i'`, or `i == i'` and `j < j'`. */
  lemma PairOrder(n: nat, i: nat, j: nat, i': nat, j': nat)
    requires i < j < n && i' < j' < n
    requires i < i' || (i == i' && j < j')
    ensures PairIndex(n, i, j) < PairIndex(n, i', j')
  {
    if i < i' {
      RowStartGrows(n, i, i' - 1);
    }
  }

  /** Every edge carries the index of a group of at least two members,
      and joins two of its members. */
  lemma {:induction false} EdgesCarryGroup(gs: seq<seq<int>>, mode: LinkMode)
    ensures forall e :: e in AllEdges(gs, mode) ==>
              0 <= e.groupIndex < |gs| && |gs[e.groupIndex]| >= 2
              && e.a in gs[e.groupIndex] && e.b in gs[e.groupIndex]
  {
    if gs != [] {
      var n := |gs| - 1;
      EdgesCarryGroup(gs[..n], mode);
      var g := gs[n];
      if |g| >= 2 && mode == AllPairs {
        PairFrom(g, n, |g|);
      }
      var prev := AllEdges(gs[..n], mode);
      var mine := GroupEdges(g, n, mode);
      forall e | e in AllEdges(gs, mode)
        ensures 0 <= e.groupIndex < |gs| && |gs[e.groupIndex]| >= 2 && e.a in gs[e.groupIndex] && e.b in gs[e.groupIndex]
      {
        if e in prev {
          assert gs[..n][e.groupIndex] == gs[e.groupIndex];
        } else {
          assert e in mine;
          var k :| 0 <= k < |mine| && mine[k] == e;
          if mode == Chain {
            assert e == Edge(g[k], g[k + 1], n);
          } else {
            assert JoinsPair(g, n, |g|, mine[k]);
            var i, j :| 0 <= i < j < |g| && i < |g| && e == Edge(g[i], g[j], n);
          }
        }
      }
    }
  }

  /** The group loop of `BuildGroupEdges`. */
  method BuildEdges(gs: seq<seq<int>>, mode: LinkMode) returns (es: seq<Edge>)
    ensures es == AllEdges(gs, mode)
  {
    es := [];
    var gi := 0;
    while gi < |gs|
      invariant 0 <= gi <= |gs|
      invariant es == AllEdges(gs[..gi], mode)
    {
      assert gs[..gi + 1][..gi] == gs[..gi];
      var more := GroupEdgesLoop(gs[gi], gi, mode);
      es := es + more;
      gi := gi + 1;
    }
    assert gs[..gi] == gs;
  }

  /** The inner loops for one group. */
  method GroupEdgesLoop(g: seq<int>, gi: int, mode: LinkMode) returns (es: seq<Edge>)
    ensures es == GroupEdges(g, gi, mode)
  {
    es := [];
    if |g| < 2 {
      return;
    }
    if mode == Chain {
      for i := 0 to |g| - 1
        invariant es == seq(i, k requires 0 <= k < i => Edge(g[k], g[k + 1], gi))
      {
        es := es + [Edge(g[i], g[i + 1], gi)];
      }
    } else {
      for i := 0 to |g|
        invariant es == PairEdges(g, gi, i)
      {
        var row := RowLoop(g, gi, i);
        es := es + row;
      }
    }
  }

  method RowLoop(g: seq<int>, gi: int, i: int) returns (row: seq<Edge>)
    requires 0 <= i < |g|
    ensures row == RowEdges(g, gi, i)
  {
    row := [];
    for j := i + 1 to |g|
      invariant row == seq(j - i - 1, k requires 0 <= k < j - i - 1 => Edge(g[i], g[i + 1 + k], gi))
    {
      row := row + [Edge(g[i], g[j], gi)];
    }
  }
}

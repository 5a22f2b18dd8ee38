/** `ZaraPlaybackWithAnchor0`: the loaded state of the component and
    `LoadAll`, which fills it from the homography, trajectory and groups
    texts. */
module ZaraPlayback {
  import opened Base
  import opened Text
  import opened ZaraTrajectories
  import opened ZaraGroups
  import opened ZaraHomography

  /** The loaded state of the component. */
  class Playback {
    const useHomography: bool
    const linkMode: LinkMode
    var H: Matrix3
    var trajById: map<int, Trajectory>
    var groups: seq<seq<int>>
    var groupEdges: seq<Edge>
    var globalMinFrame: int
    var globalMaxFrame: int

    constructor (useHomography: bool, linkMode: LinkMode)
      ensures this.useHomography == useHomography && this.linkMode == linkMode
      ensures H == Identity3 && trajById == map[] && groups == [] && groupEdges == []
      ensures globalMinFrame == IntMax && globalMaxFrame == IntMin
    {
      this.useHomography := useHomography;
      this.linkMode := linkMode;
      H := Identity3;
      trajById := map[];
      groups := [];
      groupEdges := [];
      globalMinFrame := IntMax;
      globalMaxFrame := IntMin;
    }

    /** `ParseTrajectories`: one trajectory per id with a parsed line, added
        over the present ones, and the running frame bounds. */
    method ParseTrajectories(text: string)
      modifies this
      ensures var rows := FilterMap(ParseRow, ReadLines(text));
        && trajById == old(trajById) + TrajectoriesOf(Group(rows))
        && globalMinFrame == MinI(old(globalMinFrame), Low(MapSeq(RowFrame, rows)))
        && globalMaxFrame == MaxI(old(globalMaxFrame), High(MapSeq(RowFrame, rows)))
      ensures H == old(H) && groups == old(groups) && groupEdges == old(groupEdges)
    {
      var tmp, order, lo, hi := CollectRows(ReadLines(text));
      globalMinFrame, globalMaxFrame := MinI(globalMinFrame, lo), MaxI(globalMaxFrame, hi);
      var built := BuildAll(tmp, order);
      trajById := trajById + built;
    }

    /** `ParseGroups`: one group per kept line, appended in order. */
    method ParseGroups(text: string)
      modifies this
      ensures groups == old(groups) + FilterMap(GroupLine, ReadLines(text))
      ensures H == old(H) && trajById == old(trajById) && groupEdges == old(groupEdges)
      ensures globalMinFrame == old(globalMinFrame) && globalMaxFrame == old(globalMaxFrame)
    {
      var gs := ReadGroups(ReadLines(text));
      groups := groups + gs;
    }

    /** `BuildGroupEdges`: the edges of every group, in group order. */
    method BuildGroupEdges()
      modifies this
      ensures groupEdges == AllEdges(groups, linkMode)
      ensures H == old(H) && trajById == old(trajById) && groups == old(groups)
      ensures globalMinFrame == old(globalMinFrame) && globalMaxFrame == old(globalMaxFrame)
    {
      groupEdges := BuildEdges(groups, linkMode);
    }

    /** `LoadAll`: clears the tables and loads the texts. A homography whose
        rows do not parse throws out of the load (`threw`), leaving the
        tables empty and the bounds at their start values; without
        trajectories the load stops with the bounds at their start values;
        otherwise a bound no frame moved becomes 0. */
    method LoadAll(homText: Option<string>, trajText: Option<string>, groupsText: Option<string>) returns (threw: bool)
      modifies this
      ensures threw <==> useHomography && homText.Some? && HomographyOfText(homText.value).None?
      ensures threw ==> H == old(H)
      ensures !threw ==> H == (if useHomography && homText.Some? then HomographyOfText(homText.value).value else Identity3)
      ensures threw || trajText.None? ==>
                trajById == map[] && groups == [] && groupEdges == [] && globalMinFrame == IntMax && globalMaxFrame == IntMin
      ensures !threw && trajText.Some? ==>
                var rows := FilterMap(ParseRow, ReadLines(trajText.value));
                var gs := if groupsText.Some? then FilterMap(GroupLine, ReadLines(groupsText.value)) else [];
                && trajById == TrajectoriesOf(Group(rows))
                && groups == gs && groupEdges == AllEdges(gs, linkMode)
                && globalMinFrame == (if Low(MapSeq(RowFrame, rows)) == IntMax then 0 else Low(MapSeq(RowFrame, rows)))
                && globalMaxFrame == (if High(MapSeq(RowFrame, rows)) == IntMin then 0 else High(MapSeq(RowFrame, rows)))
    {
      trajById := map[];
      groups := [];
      groupEdges := [];
      globalMinFrame := IntMax;
      globalMaxFrame := IntMin;
      threw := false;
      if useHomography && homText.Some? {
        var h := ParseHomography3x3(homText.value);
        if h.None? {
          threw := true;
          return;
        }
        H := h.value;
      } else {
        H := Identity3;
      }
      if trajText.None? {
        return;
      }
      ghost var rows := FilterMap(ParseRow, ReadLines(trajText.value));
      ghost var gs := if groupsText.Some? then FilterMap(GroupLine, ReadLines(groupsText.value)) else [];
      ghost var lo, hi := Low(MapSeq(RowFrame, rows)), High(MapSeq(RowFrame, rows));
      ParseTrajectories(trajText.value);
      assert trajById == TrajectoriesOf(Group(rows)) && globalMinFrame == lo && globalMaxFrame == hi by {
        MergeEmpty(TrajectoriesOf(Group(rows)));
        LowHighStart(rows);
      }
      if groupsText.Some? {
        ParseGroups(groupsText.value);
      }
      assert groups == gs;
      BuildGroupEdges();
      if globalMinFrame == IntMax {
        globalMinFrame := 0;
      }
      if globalMaxFrame == IntMin {
        globalMaxFrame := 0;
      }
    }
  }
}

# CCP crowd-replay core in Dafny

This project models the data-handling core of the CCP Unity project. That core is
the code that replays pedestrian datasets, tags every agent on every frame and
writes the per-agent records. The engine around it is left out: physics
queries, transforms, cameras, the file system and coroutines. What the engine
would return is taken as an input, and what the core writes is returned as an
appended sequence.

Modules, in the order of the program's components:

- `TagSensing`, `TagFrames`, `TagLoad`, `TagOutput` and `TagRecorder` model the
  frame-driven anchor tagger `CaseTagRecorder_NoAnchors`.
  - **Loading.** Per-agent JSONL records are loaded into anchors with start
    and end frames and a frame-to-anchor index for starts and for ends.
    Records that do not parse, or have no frames, become placeholders.
  - **Frame guard.** `LateUpdate` runs once per new global frame.
  - **Recording.** It builds one `FrameTag` per agent. The tag holds the
    ground class, the nearest agent, the per-category near and hit flags, the
    group centre, the goal state and the kinematics.
  - **Capture.** Start and end image captures are one-shot.
  - **Writing.** A per-agent cursor writes the anchors in order once their end
    frame is reached.
  - **Invariant.** The recorder's invariant (`StateOk`) is proved to hold
    across every tick.
- `ChunkReplay` covers the chunk replay manager of
  `MultiAgentChunkReplayManager`. That includes the record filter, the
  per-frame position map, the neighbour maps, the direction rule, activation,
  the near filter and the frame order of playback.
- `CrowdReplayer` covers `GlobalCrowdReplayer`. It parses agent ids from file
  names, builds per-agent timelines, and handles activation, the finish and
  analyse decisions, and the frame advance.
- `RecorderCounter` covers the recorder that finishes at most once, the
  collision flags, the group status, and the eight-field CSV row.
- `ZaraHomography`, `ZaraEval`, `ZaraTrajectories`, `ZaraGroups` and
  `ZaraPlayback` cover `ZaraPlaybackWithAnchor0`: the trajectory, group and
  homography parsers, the group edges and the bracket lookup `TryEvaluate`.
- `ZaraAnchor` covers `ZaraAnchorId0Controller`: the start and end frame for
  an id, the trailing-digit id, the nine-token homography, the remaining-time
  choice, the id gate and the goal text.
- `AgentManager` covers the group map, the sort and spawn filter, agent
  removal, the sample-index advance, the activation window and the save gate.
- `DatasetParser` covers the three dataset formats and comment stripping.
- `AgentState` covers the bounded position history, movement, direction, zone
  and distance words, the collision prediction, the sentence and the record
  counter.
- `AgentReplay` covers the replay CSV and the step-displacement rule.
- `GizmoGrid` covers the clamped grid cell indexing into an `n*n` buffer.
- `Base`, `Text`, `Json` and `Sorting` hold the shared vocabulary:
  - options, vectors and 32-bit bounds;
  - string splitting, trimming and integer text;
  - abstract JSON values and their casts;
  - a key sort proved to give an ordering of the same elements, with keys
    non-decreasing.

Components whose fields the source updates in place are classes with
`modifies` clauses. Among them are `TagRecorder.CaseTagRecorder`,
`RecorderCounter.Recorder`, `ChunkReplay.ReplayManager`,
`CrowdReplayer.Replayer`, `AgentManager.Manager`, `AgentState.Observer`,
`AgentReplay.Replayer`, `ZaraPlayback.Playback` and `GizmoGrid.Grid`. Each of
their methods is proved against a function of the old state, and the
properties are proved about those functions. Pure code is modelled with
functions and lemmas.

## Model

| member | source | states |
|---|---|---|
| TagSensing.OnValidate | Source/Assets/NEWQA/Anchor/CaseTagRecorder_TagBased.cs:234-253 | every agent and environment radius ends non-negative, a radius already non-negative is kept, and settings already valid are left unchanged |
| TagSensing.EnvMaxRadii | Source/Assets/NEWQA/Anchor/CaseTagRecorder_TagBased.cs:255-269 | the overlap query radii are the largest environment near and hit radii (the agent radii take no part), floored at 0.0001 |
| TagSensing.DistToState | Source/Assets/NEWQA/Anchor/CaseTagRecorder_TagBased.cs:1305-1311 | a negative distance is "none"; otherwise "close" iff within the close threshold, "far" iff beyond it and at least the far threshold, "mid" iff strictly between |
| TagSensing.DistToStateMonotone | Source/Assets/NEWQA/Anchor/CaseTagRecorder_TagBased.cs:1305-1311 | a larger distance never gives a closer state |
| TagSensing.GetEnvKindFromHierarchy | Source/Assets/NEWQA/Anchor/CaseTagRecorder_TagBased.cs:1125-1147 | the loop's kind equals EnvKindOf: none iff no node of the parent chain carries one of the four environment tags, with Vehicle over Entarance over Building over Obstacle |
| TagSensing.ChainGroundIsFirstGroundNode | Source/Assets/NEWQA/Anchor/CaseTagRecorder_TagBased.cs:1264-1277 | the ground of a collider's parent chain is the tag of the first node carrying a ground tag, and none iff no node does |
| TagSensing.NodeGroundIsMember | Source/Assets/NEWQA/Anchor/CaseTagRecorder_TagBased.cs:1268-1273 | a node has a ground class iff its tag is one of the ground tags, and the class is that tag |
| TagSensing.GetGroundTagFromHierarchy | Source/Assets/NEWQA/Anchor/CaseTagRecorder_TagBased.cs:1264-1277 | the loop returns the first ground tag up the parent chain, "unknown" when there is none |
| TagSensing.DetectGroundType | Source/Assets/NEWQA/Anchor/CaseTagRecorder_TagBased.cs:1246-1262 | the ground is the first known ground class of the ray hits sorted by distance |
| TagSensing.FirstKnownGroundWitness | Source/Assets/NEWQA/Anchor/CaseTagRecorder_TagBased.cs:1255-1261 | the result is "unknown" iff no hit has a known ground; otherwise it is the ground of the first hit that has one |
| TagSensing.GroundIsNearestKnown | Source/Assets/NEWQA/Anchor/CaseTagRecorder_TagBased.cs:1246-1262 | a known ground belongs to a hit no closer hit of which has a known ground |
| TagSensing.NearestKnownInSorted | Source/Assets/NEWQA/Anchor/CaseTagRecorder_TagBased.cs:1253-1261 | for any distance order of the hits, the first known ground belongs to a hit no closer hit of which has a known ground |
| TagSensing.GroundUnknownIffNoneKnown | Source/Assets/NEWQA/Anchor/CaseTagRecorder_TagBased.cs:1246-1262 | the ground is "unknown" iff no ray hit has a known ground |
| TagSensing.NearestOfIsMinimum | Source/Assets/NEWQA/Anchor/CaseTagRecorder_TagBased.cs:1168-1199 | a category has no nearest distance iff no considered candidate of its kind came back; otherwise it is the distance of one of them and no such candidate is closer |
| TagSensing.EnvTagOf | Source/Assets/NEWQA/Anchor/CaseTagRecorder_TagBased.cs:1196-1205 | a category can be near only when it has a nearest candidate |
| TagSensing.EnvTagMeaning | Source/Assets/NEWQA/Anchor/CaseTagRecorder_TagBased.cs:1168-1205 | the distance is -1 iff no considered candidate of that kind is in the near query, otherwise the least such distance; near iff some such candidate lies within the category's near radius |
| TagSensing.ComputeTaggedDistances | Source/Assets/NEWQA/Anchor/CaseTagRecorder_TagBased.cs:1155-1237 | the two loops' twelve outputs equal EnvTagsOf of the two query results |
| TagSensing.NearestPass | Source/Assets/NEWQA/Anchor/CaseTagRecorder_TagBased.cs:1169-1194 | the near loop's four minima equal NearestOf for each category |
| TagSensing.HitPass | Source/Assets/NEWQA/Anchor/CaseTagRecorder_TagBased.cs:1209-1236 | the hit loop's four flags equal HitOf for each category, although it stops once all four are set |
| TagSensing.ParseAgentId | Source/Assets/NEWQA/Anchor/CaseTagRecorder_TagBased.cs:1331-1344 | the id is -1 or a non-negative 32-bit integer, and -1 when the prefix is absent |
| TagSensing.ParseAgentIdOfName | Source/Assets/NEWQA/Anchor/CaseTagRecorder_TagBased.cs:1331-1344 | a name holding the prefix, the decimal id and a non-digit suffix parses back to that id |
| TagFrames.Elapsed | Source/Assets/NEWQA/Anchor/CaseTagRecorder_TagBased.cs:540-565 | the time between two samples is never below 1e-6 seconds, so the velocity division is always defined; the frame difference is a wrapping `int` subtraction, which for a difference that fits is the exact one |
| TagFrames.StateOnly | Source/Assets/NEWQA/Anchor/CaseTagRecorder_TagBased.cs:402-547 | after any sample the agent has a previous sample iff it is active, and that sample is this frame's position, frame and forward; an inactive agent or a first active sample carries zero velocity |
| TagFrames.Kinematics | Source/Assets/NEWQA/Anchor/CaseTagRecorder_TagBased.cs:549-580 | the tagged update leaves the same carried state as the untagged one, and the first sample of a run reports zero speed, acceleration and turn |
| TagFrames.FirstSampleAfterInactiveIsStill | Source/Assets/NEWQA/Anchor/CaseTagRecorder_TagBased.cs:402-563 | the first active frame after an inactive one reports zero motion, whether the inactive frame was stored or not |
| TagFrames.SpeedOfSecondSample | Source/Assets/NEWQA/Anchor/CaseTagRecorder_TagBased.cs:565-568 | the speed of the second of two active frames is the magnitude of the displacement over the clamped elapsed time (of the wrapped frame difference) |
| TagFrames.NearestScanIsFirstMinimum | Source/Assets/NEWQA/Anchor/CaseTagRecorder_TagBased.cs:1280-1299 | the scan finds nothing iff no other active agent exists; otherwise it returns the first agent in order at the least distance: no eligible agent is closer and none before it is as close |
| TagFrames.FindNearestAgent | Source/Assets/NEWQA/Anchor/CaseTagRecorder_TagBased.cs:1280-1303 | the loop's id and distance equal NearestAgentOf, (-1, -1) when no other agent is active |
| TagFrames.NearAgentIffSomeWithin | Source/Assets/NEWQA/Anchor/CaseTagRecorder_TagBased.cs:417-419 | the near/hit agent flag is set iff some other active agent lies within the radius |
| TagFrames.Members | Source/Assets/NEWQA/Anchor/CaseTagRecorder_TagBased.cs:492-499 | every group member kept is not the agent itself and is an active runtime agent |
| TagFrames.GroupScanIsMembers | Source/Assets/NEWQA/Anchor/CaseTagRecorder_TagBased.cs:492-511 | the member relations are exactly one per kept member, in group order, each its offset from the agent and that offset's length |
| TagFrames.GroupScanSums | Source/Assets/NEWQA/Anchor/CaseTagRecorder_TagBased.cs:500-508 | the offsets sum to the summed member positions minus the agent's position once per member |
| TagFrames.TryComputeGroupInfo | Source/Assets/NEWQA/Anchor/CaseTagRecorder_TagBased.cs:482-516 | the loop succeeds iff GroupInfoOf exists and then returns its centre, relations and count; on failure the outputs are zero, empty and 0 |
| TagFrames.CenterRelIsMeanOfRels | Source/Assets/NEWQA/Anchor/CaseTagRecorder_TagBased.cs:436-514 | a computed group has at least one member, and its centre relative to the agent is the mean of the member offsets |
| TagFrames.ActiveTagStates | Source/Assets/NEWQA/Anchor/CaseTagRecorder_TagBased.cs:415-474 | the group state is "none" iff there is no frame record or no group member is active; otherwise the active count is the number of member relations and positive; the goal state is "none" iff the frame has no goal |
| TagFrames.MembersEmptyIffNoneEligible | Source/Assets/NEWQA/Anchor/CaseTagRecorder_TagBased.cs:492-513 | no member is kept iff no listed id is another active agent |
| TagFrames.RecordAgent | Source/Assets/NEWQA/Anchor/CaseTagRecorder_TagBased.cs:369-478 | recording one agent keeps its id and camera, carries the kinematic state as the untagged update would, adds a tag for this frame (with the agent's active flag) iff the frame must be stored, and leaves every other frame's tag unchanged |
| TagFrames.RuntimePoses | Source/Assets/NEWQA/Anchor/CaseTagRecorder_TagBased.cs:369-375 | the poses seen are those of the runtime agents whose transform exists |
| TagFrames.RecordAll | Source/Assets/NEWQA/Anchor/CaseTagRecorder_TagBased.cs:367-479 | recording a frame keeps the set of runtime agents; each one whose transform is there (keyed by its own id) becomes its recorded state for the frame, every other one is left as it was |
| TagFrames.RelsToJson | Source/Assets/NEWQA/Anchor/CaseTagRecorder_TagBased.cs:785-847 | one JSON object per member relation, in order |
| TagFrames.FrameTagToJObject | Source/Assets/NEWQA/Anchor/CaseTagRecorder_TagBased.cs:795-850 | the JSON form of a tag always holds its active flag, ground, group and goal states (the value under each key is stated by the TagJson lemmas below) |
| TagFrames.TagJsonNearestAgentId | Source/Assets/NEWQA/Anchor/CaseTagRecorder_TagBased.cs:805 | "nearestAgentId" is the tag's nearest agent id |
| TagFrames.TagJsonNearestAgentDist | Source/Assets/NEWQA/Anchor/CaseTagRecorder_TagBased.cs:806 | "nearestAgentDist" is the tag's nearest agent distance |
| TagFrames.TagJsonAgentFlags | Source/Assets/NEWQA/Anchor/CaseTagRecorder_TagBased.cs:807-808 | "near_agent" and "hit_agent" are the tag's agent flags |
| TagFrames.TagJsonObstacle | Source/Assets/NEWQA/Anchor/CaseTagRecorder_TagBased.cs:810-812 | the three obstacle keys are the tag's obstacle distance and flags |
| TagFrames.TagJsonBuilding | Source/Assets/NEWQA/Anchor/CaseTagRecorder_TagBased.cs:814-816 | the three building keys are the tag's building distance and flags |
| TagFrames.TagJsonEntarance | Source/Assets/NEWQA/Anchor/CaseTagRecorder_TagBased.cs:818-820 | the three entrance keys are the tag's entrance distance and flags |
| TagFrames.TagJsonVehicle | Source/Assets/NEWQA/Anchor/CaseTagRecorder_TagBased.cs:822-824 | the three vehicle keys are the tag's vehicle distance and flags |
| TagFrames.TagJsonGroup | Source/Assets/NEWQA/Anchor/CaseTagRecorder_TagBased.cs:826-847 | the group keys are the tag's group distance, count, centres and member relations, one object per relation in order |
| TagFrames.TagJsonMotion | Source/Assets/NEWQA/Anchor/CaseTagRecorder_TagBased.cs:833-838 | "goalDist", "speed", "accel" and "turnDeg" are the tag's values |
| TagFrames.RelsToJsonInjective | Source/Assets/NEWQA/Anchor/CaseTagRecorder_TagBased.cs:841-847 | two member-relation lists with equal JSON are equal |
| TagFrames.TagJsonSameSensing | Source/Assets/NEWQA/Anchor/CaseTagRecorder_TagBased.cs:799-824 | two tags with equal JSON agree on every sensing field |
| TagFrames.TagJsonSameGroupMotion | Source/Assets/NEWQA/Anchor/CaseTagRecorder_TagBased.cs:826-847 | two tags with equal JSON agree on every group and motion field |
| TagFrames.TagJsonKeepsFields | Source/Assets/NEWQA/Anchor/CaseTagRecorder_TagBased.cs:795-850 | the JSON form loses nothing but the difference between a missing ground or state and its default text: equal JSON means equal tags once the defaults are filled in |
| TagFrames.TagJsonActiveAndGround | Source/Assets/NEWQA/Anchor/CaseTagRecorder_TagBased.cs:801-803 | "active" is the tag's flag and "ground" its ground, "unknown" when missing |
| TagFrames.TagJsonStates | Source/Assets/NEWQA/Anchor/CaseTagRecorder_TagBased.cs:827-834 | "groupState" and "goalState" are the tag's states, "none" when missing |
| TagFrames.TagJsonLacksExtras | Source/Assets/NEWQA/Anchor/CaseTagRecorder_TagBased.cs:795-905 | the tag's JSON holds none of the keys the anchor line adds beside it, so adding them loses no tag field |
| TagLoad.SeqMin | Source/Assets/NEWQA/Anchor/CaseTagRecorder_TagBased.cs:1010 | the start frame is one of the frames and no frame is below it |
| TagLoad.SeqMax | Source/Assets/NEWQA/Anchor/CaseTagRecorder_TagBased.cs:1011 | the end frame is one of the frames and no frame is above it |
| TagLoad.FoldMin | Source/Assets/NEWQA/Anchor/CaseTagRecorder_TagBased.cs:1044-1055 | the running global minimum is at most its old value and every frame of the record, and is one of them |
| TagLoad.FoldMax | Source/Assets/NEWQA/Anchor/CaseTagRecorder_TagBased.cs:1044-1055 | the running global maximum is at least its old value and every frame of the record, and is one of them |
| TagLoad.PutFrames | Source/Assets/NEWQA/Anchor/CaseTagRecorder_TagBased.cs:1044-1052 | the annotated frames become the old ones plus the record's frames; each of the record's frames holds the record's annotation, every other frame keeps its own |
| TagLoad.RegisterKeepsIndex | Source/Assets/NEWQA/Anchor/CaseTagRecorder_TagBased.cs:1031-1076 | registering an anchor keeps the start/end index exact: each frame lists, in increasing order, exactly the anchors that start/end there, and the int.MinValue sentinel is never registered |
| TagLoad.PlaceholderKeepsIndex | Source/Assets/NEWQA/Anchor/CaseTagRecorder_TagBased.cs:970-1006 | a placeholder anchor, having no frames, leaves both indexes exact |
| TagLoad.PlaceholderTraj | Source/Assets/NEWQA/Anchor/CaseTagRecorder_TagBased.cs:970-1006 | a placeholder leaves the trajectory end the largest end frame of a record |
| TagLoad.PlaceholderRange | Source/Assets/NEWQA/Anchor/CaseTagRecorder_TagBased.cs:970-1006 | a placeholder keeps every record frame within the global range |
| TagLoad.AddPlaceholderOk | Source/Assets/NEWQA/Anchor/CaseTagRecorder_TagBased.cs:966-1006 | a blank, unparsable or frameless line keeps the loading invariant |
| TagLoad.AddRecordTraj | Source/Assets/NEWQA/Anchor/CaseTagRecorder_TagBased.cs:1014 | after a record the trajectory end is the largest end frame of all records |
| TagLoad.AppendRecordAnchors | Source/Assets/NEWQA/Anchor/CaseTagRecorder_TagBased.cs:1016-1029 | each anchor sits at its own index with fresh captures and no image |
| TagLoad.EndsAreInt32 | Source/Assets/NEWQA/Anchor/CaseTagRecorder_TagBased.cs:1009-1011 | the end frame of every record is a 32-bit integer, so never below int.MinValue |
| TagLoad.RecordFrames | Source/Assets/NEWQA/Anchor/CaseTagRecorder_TagBased.cs:1044-1052 | the annotated frames are exactly the frames of the records |
| TagLoad.RecordRange | Source/Assets/NEWQA/Anchor/CaseTagRecorder_TagBased.cs:1053-1054 | widening the global range keeps every record frame within it |
| TagLoad.AddRecordOk | Source/Assets/NEWQA/Anchor/CaseTagRecorder_TagBased.cs:1009-1055 | a record with frames keeps the loading invariant: anchor shape, both indexes, the trajectory end, the annotated frames and the global range |
| TagLoad.LoadLineOk | Source/Assets/NEWQA/Anchor/CaseTagRecorder_TagBased.cs:964-1056 | every line that does not throw keeps the loading invariant |
| TagLoad.LoadLinesOk | Source/Assets/NEWQA/Anchor/CaseTagRecorder_TagBased.cs:964-1056 | a file that loads keeps the invariant and only widens the global range |
| TagLoad.LoadLineRange | Source/Assets/NEWQA/Anchor/CaseTagRecorder_TagBased.cs:1053-1054 | one line only widens the global range |
| TagLoad.OneAnchorPerLine | Source/Assets/NEWQA/Anchor/CaseTagRecorder_TagBased.cs:964-1029 | the file adds exactly one anchor per non-blank line |
| TagLoad.LoadLineAnchor | Source/Assets/NEWQA/Anchor/CaseTagRecorder_TagBased.cs:966-1029 | a non-blank line appends one anchor after the earlier ones: a placeholder holding the raw line when it does not parse, a placeholder holding the record when it has no frames, else an anchor with the line's frames and their minimum and maximum as start and end |
| TagLoad.InputFiles | Source/Assets/NEWQA/Anchor/CaseTagRecorder_TagBased.cs:933-939 | no file whose name ends with the output suffix, ignoring case, is read |
| TagLoad.InsertMetaOk | Source/Assets/NEWQA/Anchor/CaseTagRecorder_TagBased.cs:1058 | storing an agent under its id keeps the table keyed by own ids, each listed once in first-load order |
| TagLoad.LoadFileOk | Source/Assets/NEWQA/Anchor/CaseTagRecorder_TagBased.cs:947-1059 | one file keeps the table invariant; a file without an agent id is skipped |
| TagLoad.AgentIdKept | Source/Assets/NEWQA/Anchor/CaseTagRecorder_TagBased.cs:957-1056 | loading the lines never changes the agent's id, base name, write cursor or written list |
| TagLoad.LoadFilesOk | Source/Assets/NEWQA/Anchor/CaseTagRecorder_TagBased.cs:921-1059 | the loaded agents are keyed by their own non-negative ids, listed once each, each with exact anchors, indexes, trajectory end and annotations, and all frames inside the global range |
| TagLoad.LoadLinesAbortIsFinal | Source/Assets/NEWQA/Anchor/CaseTagRecorder_TagBased.cs:1009-1041 | a cast that throws ends the load: no later line undoes it |
| TagLoad.LoadFilesAbortIsFinal | Source/Assets/NEWQA/Anchor/CaseTagRecorder_TagBased.cs:947-1059 | a file that throws ends the whole load |
| TagLoad.LoadLinesRangeDone | Source/Assets/NEWQA/Anchor/CaseTagRecorder_TagBased.cs:1044-1055 | a file whose lines all load leaves the global range of its loaded state |
| TagLoad.LoadLinesRangeAbort | Source/Assets/NEWQA/Anchor/CaseTagRecorder_TagBased.cs:964-1056 | once a line throws, the global range stays as the lines before it left it |
| TagLoad.LoadLinesRangeWidens | Source/Assets/NEWQA/Anchor/CaseTagRecorder_TagBased.cs:1044-1055 | whether or not a line throws, a file's lines only widen the global range |
| TagLoad.LoadFilesPartialDone | Source/Assets/NEWQA/Anchor/CaseTagRecorder_TagBased.cs:947-1059 | a folder that loads stops in its loaded state |
| TagLoad.LoadFilesPartialAbort | Source/Assets/NEWQA/Anchor/CaseTagRecorder_TagBased.cs:947-1059 | once a file throws, no later file changes what the load leaves |
| TagLoad.LoadFilesPartialKeeps | Source/Assets/NEWQA/Anchor/CaseTagRecorder_TagBased.cs:947-1059 | a load that throws keeps exactly the agents, in order, of the files before the one that throws (an agent is stored only after its whole file), and only widens their range |
| TagLoad.LoadFilesPartialOk | Source/Assets/NEWQA/Anchor/CaseTagRecorder_TagBased.cs:947-1059 | a load that throws leaves a table keyed by own ids, listed once each, every agent in its loading shape |
| TagLoad.PrepareOutput | Source/Assets/NEWQA/Anchor/CaseTagRecorder_TagBased.cs:1078-1088 | preparing the output path rewinds the write cursor to 0 and keeps the anchors |
| TagLoad.InRangeWiden | Source/Assets/NEWQA/Anchor/CaseTagRecorder_TagBased.cs:1053-1054 | an agent inside a global range stays inside any wider one |
| TagOutput.CaptureList | Source/Assets/NEWQA/Anchor/CaseTagRecorder_TagBased.cs:595-616 | a capture loop over an index list keeps the number of anchors |
| TagOutput.CaptureAgent | Source/Assets/NEWQA/Anchor/CaseTagRecorder_TagBased.cs:585-618 | a capture pass changes only the agent's anchors and keeps their number |
| TagOutput.SetSideEffect | Source/Assets/NEWQA/Anchor/CaseTagRecorder_TagBased.cs:628-680 | marking one side captured with a path touches neither the anchor's identity nor its other side |
| TagOutput.AttemptPathIdentity | Source/Assets/NEWQA/Anchor/CaseTagRecorder_TagBased.cs:641-669 | the image path tried depends only on the anchor's identity, not on its capture flags |
| TagOutput.CaptureListEffect | Source/Assets/NEWQA/Anchor/CaseTagRecorder_TagBased.cs:595-616 | a loop over anchors due on this frame takes each listed anchor one capture step on that side, keeps the other side and identity, and leaves unlisted anchors as they are |
| TagOutput.CaptureAgentEffect | Source/Assets/NEWQA/Anchor/CaseTagRecorder_TagBased.cs:583-619 | on a real frame every side of every anchor takes one step: a side already captured keeps its flag and path, a pending side whose frame is this one is captured with the attempt's path, any other side stays |
| TagOutput.StartPassEffect | Source/Assets/NEWQA/Anchor/CaseTagRecorder_TagBased.cs:593-604 | the start loop takes each start side one step and leaves the end sides and identities alone |
| TagOutput.CaptureOneShot | Source/Assets/NEWQA/Anchor/CaseTagRecorder_TagBased.cs:600-613 | a captured side never changes again, and a side whose frame is not the current one is untouched |
| TagOutput.CaptureEndPending | Source/Assets/NEWQA/Anchor/CaseTagRecorder_TagBased.cs:606-616 | a pending end whose frame is reached gets the attempt's path |
| TagOutput.AttemptPathMeaning | Source/Assets/NEWQA/Anchor/CaseTagRecorder_TagBased.cs:621-681 | the path recorded is empty iff the agent cannot capture (inactive or no camera) or a needed write fails; otherwise it is the relative path of anchor_<index>_<start/end>_gf_<frame>, and an existing image is kept unless overwriting is set |
| TagOutput.CaptureAll | Source/Assets/NEWQA/Anchor/CaseTagRecorder_TagBased.cs:583-619 | a capture pass keeps the set of loaded agents; each one with a runtime agent becomes its capture at the frame, every other one is left as it was |
| TagOutput.BaseTagLacksExtras | Source/Assets/NEWQA/Anchor/CaseTagRecorder_TagBased.cs:873-879 | the base tag object holds none of the keys the anchor line adds |
| TagOutput.TagObjectFields | Source/Assets/NEWQA/Anchor/CaseTagRecorder_TagBased.cs:870-904 | the start/end tag is the stored frame tag ("active" false if none), with imagePath and imageGf iff an image was saved, trajEndGf iff the agent has a trajectory end, and remainingTrajSec iff both that end and the frame are set |
| TagOutput.RemainingTrajSecMeaning | Source/Assets/NEWQA/Anchor/CaseTagRecorder_TagBased.cs:901-903 | the remaining time is never negative; before the end it is the frames left times the frame duration when that count fits an `int`, and 0 when the `int` subtraction wraps negative |
| TagOutput.AnchorLineShape | Source/Assets/NEWQA/Anchor/CaseTagRecorder_TagBased.cs:853-912 | a line that did not parse is written verbatim; a record keeps every other field of the original, gains startFrameTag and endFrameTag and loses frameTags |
| TagOutput.FlushUnfold | Source/Assets/NEWQA/Anchor/CaseTagRecorder_TagBased.cs:765-778 | one iteration of the write loop on an anchor whose end has been reached: write it and advance the cursor |
| TagOutput.FlushCursor | Source/Assets/NEWQA/Anchor/CaseTagRecorder_TagBased.cs:758-780 | the write loop changes only the cursor and the output; the cursor never moves back, passes only anchors whose end frame has been reached and stops at the first one not yet due |
| TagOutput.FlushWritten | Source/Assets/NEWQA/Anchor/CaseTagRecorder_TagBased.cs:765-778 | the output gains exactly the lines of the anchors the cursor passed, in order |
| TagOutput.LinesForIndices | Source/Assets/NEWQA/Anchor/CaseTagRecorder_TagBased.cs:765-778 | the lines written hold anchor indices inside the passed range, strictly increasing |
| TagOutput.FlushKeepsWrittenOk | Source/Assets/NEWQA/Anchor/CaseTagRecorder_TagBased.cs:758-780 | the output holds each anchor at most once, in index order, and only anchors behind the cursor |
| TagOutput.FlushPassesPlaceholder | Source/Assets/NEWQA/Anchor/CaseTagRecorder_TagBased.cs:765-777 | a placeholder at the cursor (end int.MinValue) is always passed, so it never blocks the records after it |
| TagOutput.FlushCursorIgnoresFailures | Source/Assets/NEWQA/Anchor/CaseTagRecorder_TagBased.cs:853-918 | an append that throws is logged and the cursor still moves past that anchor |
| TagOutput.FlushCursorIgnoresWritten | Source/Assets/NEWQA/Anchor/CaseTagRecorder_TagBased.cs:765-778 | how far the cursor moves does not depend on what was written before |
| TagOutput.FlushAll | Source/Assets/NEWQA/Anchor/CaseTagRecorder_TagBased.cs:758-780 | the write pass keeps the set of loaded agents and flushes each one, with its runtime agent and its failing writes |
| TagRecorder.SceneIds | Source/Assets/NEWQA/Anchor/CaseTagRecorder_TagBased.cs:313-320 | one parsed agent id per scene object, -1 for a name without the prefix or digits (the name parser is at lines 1331-1344) |
| TagRecorder.Cameras | Source/Assets/NEWQA/Anchor/CaseTagRecorder_TagBased.cs:323-329 | one camera flag per scene object |
| TagRecorder.AdoptStep | Source/Assets/NEWQA/Anchor/CaseTagRecorder_TagBased.cs:314-339 | one scene object is skipped when its id is negative or already known, and otherwise adds a fresh runtime agent at the end of the order |
| TagRecorder.AdoptFirstWins | Source/Assets/NEWQA/Anchor/CaseTagRecorder_TagBased.cs:314-339 | every adopted agent comes from the first scene object with its id, with that object's camera |
| TagRecorder.AdoptCover | Source/Assets/NEWQA/Anchor/CaseTagRecorder_TagBased.cs:314-339 | every scene object with a non-negative id is adopted, and only those, each keyed by its own id |
| TagRecorder.AdoptOrder | Source/Assets/NEWQA/Anchor/CaseTagRecorder_TagBased.cs:314-339 | the runtime order lists every runtime agent exactly once, and agents known before keep their entries |
| TagRecorder.RuntimesKeyed | Source/Assets/NEWQA/Anchor/CaseTagRecorder_TagBased.cs:331-338 | runtime agents stay keyed by their own ids |
| TagRecorder.PrepareAll | Source/Assets/NEWQA/Anchor/CaseTagRecorder_TagBased.cs:1078-1088 | preparing the outputs keeps the set of agents and gives each its prepared output |
| TagRecorder.TickSkips | Source/Assets/NEWQA/Anchor/CaseTagRecorder_TagBased.cs:347-356 | a LateUpdate on the int.MinValue frame, before any runtime agent exists or on the frame just processed changes nothing |
| TagRecorder.TickOncePerFrame | Source/Assets/NEWQA/Anchor/CaseTagRecorder_TagBased.cs:355-356 | a second LateUpdate on the same frame changes nothing |
| TagRecorder.SameIdentityIndex | Source/Assets/NEWQA/Anchor/CaseTagRecorder_TagBased.cs:593-616 | captures, which keep anchor identities, keep the start and end indexes exact |
| TagRecorder.SameIdentityShape | Source/Assets/NEWQA/Anchor/CaseTagRecorder_TagBased.cs:583-619 | captures keep an agent's loading shape |
| TagRecorder.CapturedAgent | Source/Assets/NEWQA/Anchor/CaseTagRecorder_TagBased.cs:360-619 | a capture pass changes only an agent's anchors, keeping their number and identity and the agent invariant |
| TagRecorder.AnchorsOnlyChange | Source/Assets/NEWQA/Anchor/CaseTagRecorder_TagBased.cs:583-619 | changing only the anchors while keeping their shape keeps the agent invariant |
| TagRecorder.CaptureKeepsShape | Source/Assets/NEWQA/Anchor/CaseTagRecorder_TagBased.cs:583-619 | a capture pass keeps the loading shape and every anchor's identity |
| TagRecorder.MetaShapeIgnoresOutput | Source/Assets/NEWQA/Anchor/CaseTagRecorder_TagBased.cs:758-780 | the write cursor and output do not affect the loading shape |
| TagRecorder.FlushAgentOk | Source/Assets/NEWQA/Anchor/CaseTagRecorder_TagBased.cs:758-780 | the write pass keeps the agent invariant and the anchors, moves the cursor forward within them and only appends to the output |
| TagRecorder.TickMeta | Source/Assets/NEWQA/Anchor/CaseTagRecorder_TagBased.cs:358-363 | an agent after a LateUpdate is its captured state flushed up to the frame |
| TagRecorder.TickAgent | Source/Assets/NEWQA/Anchor/CaseTagRecorder_TagBased.cs:347-364 | a LateUpdate keeps each agent's invariant and takes it one step: identities kept, cursor forward, output extended |
| TagRecorder.TickKeepsState | Source/Assets/NEWQA/Anchor/CaseTagRecorder_TagBased.cs:347-364 | every LateUpdate keeps the recorder invariant (both tables listed once each in order, keyed by own ids, agents in shape, cursors within bounds, no repeated output) and the set of loaded agents |
| TagRecorder.TickCaptureOneShot | Source/Assets/NEWQA/Anchor/CaseTagRecorder_TagBased.cs:583-619 | across a LateUpdate a captured side never changes, and a side is only touched on its own frame |
| TagRecorder.FlushFirstLine | Source/Assets/NEWQA/Anchor/CaseTagRecorder_TagBased.cs:765-777 | a due anchor under the cursor whose append succeeds is the next line written, composed by the anchor line |
| TagRecorder.FlushPassesDue | Source/Assets/NEWQA/Anchor/CaseTagRecorder_TagBased.cs:774-777 | an anchor whose end frame has been reached is always passed |
| TagRecorder.TickAgentParts | Source/Assets/NEWQA/Anchor/CaseTagRecorder_TagBased.cs:358-363 | in a LateUpdate a stored frame holds the agent's tag with its activity now, and the flush sees the tags just recorded |
| TagRecorder.EndTagIsRecordedThisTick | Source/Assets/NEWQA/Anchor/CaseTagRecorder_TagBased.cs:870-879 | an anchor ending on this frame is written in the same LateUpdate with the end tag recorded on that frame (the recording precedes the flush at lines 358-363) |
| TagRecorder.FlushEndTag | Source/Assets/NEWQA/Anchor/CaseTagRecorder_TagBased.cs:877-907 | the first written line's endFrameTag is the tag object for the anchor's end frame and image |
| TagRecorder.EndImageIsCapturedThisTick | Source/Assets/NEWQA/Anchor/CaseTagRecorder_TagBased.cs:887-891 | an anchor ending on this frame with a pending end image is written with the image taken on that frame exactly when the capture gave a path (the capture precedes the flush at lines 358-363) |
| TagRecorder.PreparedAgentOk | Source/Assets/NEWQA/Anchor/CaseTagRecorder_TagBased.cs:1078-1088 | a freshly loaded and prepared agent satisfies the agent invariant |
| TagRecorder.StartOk | Source/Assets/NEWQA/Anchor/CaseTagRecorder_TagBased.cs:271-283 | a Start that does not throw leaves the recorder in its invariant, each agent with its cursor at the first anchor |
| TagRecorder.StartAbortOk | Source/Assets/NEWQA/Anchor/CaseTagRecorder_TagBased.cs:271-283 | a Start whose load throws also leaves the recorder in its invariant, with the agents stored before the throw |
| TagRecorder.CaseTagRecorder.constructor | Source/Assets/NEWQA/Anchor/CaseTagRecorder_TagBased.cs:214-220 | a fresh recorder: no agents, no runtime agents, no frame processed, the global range at its start values |
| TagRecorder.CaseTagRecorder.Start | Source/Assets/NEWQA/Anchor/CaseTagRecorder_TagBased.cs:271-283 | the agents are the loaded and prepared ones with the logged range, and runtime initialisation follows; when loading throws, output preparation and runtime initialisation are skipped and the agents and range are as the throw left them |
| TagRecorder.CaseTagRecorder.LoadMetaFromJsonlFolder | Source/Assets/NEWQA/Anchor/CaseTagRecorder_TagBased.cs:921-1065 | the loop's result equals LoadFolder; on an error the agents are those of the files before the one that throws, and the range is as far as its earlier lines widened it (LoadFilesPartial) |
| TagRecorder.CaseTagRecorder.LoadOneFile | Source/Assets/NEWQA/Anchor/CaseTagRecorder_TagBased.cs:947-1059 | the file loop equals LoadFile, and when a line throws it reports the loader's state as the throw leaves it |
| TagRecorder.CaseTagRecorder.LoadAgentLines | Source/Assets/NEWQA/Anchor/CaseTagRecorder_TagBased.cs:964-1056 | the line loop equals LoadLines, and reports the global range as the loop leaves it, also when a line throws |
| TagRecorder.CaseTagRecorder.PrepareOutputPaths | Source/Assets/NEWQA/Anchor/CaseTagRecorder_TagBased.cs:1078-1088 | every agent becomes PrepareOutput of itself and nothing else changes |
| TagRecorder.CaseTagRecorder.InitRuntimeAgents | Source/Assets/NEWQA/Anchor/CaseTagRecorder_TagBased.cs:308-345 | after Start, the runtime agents are the old ones plus the scene's adopted ones and the last frame is forgotten |
| TagRecorder.CaseTagRecorder.AdoptScene | Source/Assets/NEWQA/Anchor/CaseTagRecorder_TagBased.cs:313-339 | the scene loop equals Adopt |
| TagRecorder.CaseTagRecorder.LateUpdate | Source/Assets/NEWQA/Anchor/CaseTagRecorder_TagBased.cs:347-364 | the new state is Tick of the old state and the frame's inputs, and the invariant holds |
| TagRecorder.CaseTagRecorder.RecordFrame | Source/Assets/NEWQA/Anchor/CaseTagRecorder_TagBased.cs:367-479 | the runtime agents become RecordAll of the old ones, in their order |
| TagRecorder.CaseTagRecorder.CaptureAnchorImagesAtFrame | Source/Assets/NEWQA/Anchor/CaseTagRecorder_TagBased.cs:583-619 | the agents become CaptureAll of the old ones and nothing else changes |
| TagRecorder.CaseTagRecorder.CaptureAgentAt | Source/Assets/NEWQA/Anchor/CaseTagRecorder_TagBased.cs:585-618 | one agent's capture loop equals CaptureAgent |
| TagRecorder.CaseTagRecorder.CaptureSide | Source/Assets/NEWQA/Anchor/CaseTagRecorder_TagBased.cs:593-617 | one side's loop equals CaptureList over the frame's list, and leaves the anchors as they are when the frame has none |
| TagRecorder.CaseTagRecorder.WriteAnchorsUpToFrame | Source/Assets/NEWQA/Anchor/CaseTagRecorder_TagBased.cs:758-780 | the agents become FlushAll of the old ones and nothing else changes |
| TagRecorder.CaseTagRecorder.FlushAgent | Source/Assets/NEWQA/Anchor/CaseTagRecorder_TagBased.cs:765-778 | one agent's write loop equals Flush |
| ChunkReplay.Validated | Source/Assets/NEWQA/Recon/MultiAgentChunkReplayManager.cs:159-172 | every radius is clamped at zero, and radii already non-negative are left as they are |
| ChunkReplay.QueryRadius | Source/Assets/NEWQA/Recon/MultiAgentChunkReplayManager.cs:176-183 | the query radius is at least 0.001 and every near radius, and is one of them |
| ChunkReplay.Put | Source/Assets/NEWQA/Recon/MultiAgentChunkReplayManager.cs:268 | writing a frame's position keeps the frame table well formed |
| ChunkReplay.PutRecord | Source/Assets/NEWQA/Recon/MultiAgentChunkReplayManager.cs:260-272 | writing a record's frames keeps the frame table well formed |
| ChunkReplay.PutLine | Source/Assets/NEWQA/Recon/MultiAgentChunkReplayManager.cs:243-273 | reading one line keeps the frame table well formed |
| ChunkReplay.TrackOf | Source/Assets/NEWQA/Recon/MultiAgentChunkReplayManager.cs:241-273 | the frame table of a file is well formed |
| ChunkReplay.LastBelow | Source/Assets/NEWQA/Recon/MultiAgentChunkReplayManager.cs:260-268 | a frame listed in a record has a last listing, and no later index lists it |
| ChunkReplay.PutRecordValue | Source/Assets/NEWQA/Recon/MultiAgentChunkReplayManager.cs:260-268 | after a record a frame has a position exactly when it had one or the record lists it, and a listed frame takes the record's position at its last listing |
| ChunkReplay.TrackStep | Source/Assets/NEWQA/Recon/MultiAgentChunkReplayManager.cs:241-273 | each line adds its frames, overwriting the positions of frames it lists and keeping the others |
| ChunkReplay.TrackKeys | Source/Assets/NEWQA/Recon/MultiAgentChunkReplayManager.cs:241-273 | a frame has a position exactly when some loaded line lists it |
| ChunkReplay.LastListing | Source/Assets/NEWQA/Recon/MultiAgentChunkReplayManager.cs:241-268 | the last line listing a frame is found, or no line lists it |
| ChunkReplay.TrackValue | Source/Assets/NEWQA/Recon/MultiAgentChunkReplayManager.cs:241-268 | a frame's position comes from the last line that lists it (later lines overwrite) |
| ChunkReplay.RangeMeaning | Source/Assets/NEWQA/Recon/MultiAgentChunkReplayManager.cs:205-292 | no frames give the range `[0, -1]`; otherwise the range is the least and greatest frame of the files |
| ChunkReplay.SortedDistinct | Source/Assets/NEWQA/Recon/MultiAgentChunkReplayManager.cs:304 | the ordered keys of the frame table are ascending and are exactly the keys |
| ChunkReplay.DistinctOnce | Source/Assets/NEWQA/Recon/MultiAgentChunkReplayManager.cs:304 | a key of the table occurs at most once |
| ChunkReplay.SortedNeighbors | Source/Assets/NEWQA/Recon/MultiAgentChunkReplayManager.cs:305-313 | in the ordered frames each frame's stored previous and next are the nearest frames before and after it, or `int.MinValue` |
| ChunkReplay.BuildNeighborMaps | Source/Assets/NEWQA/Recon/MultiAgentChunkReplayManager.cs:297-314 | every frame gets as previous and next the nearest loaded frames on each side, `int.MinValue` where there is none, and no other keys |
| ChunkReplay.NeighborsOfSorted | Source/Assets/NEWQA/Recon/MultiAgentChunkReplayManager.cs:304-313 | maps filled from the ordered frames give each frame its nearest neighbours |
| ChunkReplay.NeighborKeys | Source/Assets/NEWQA/Recon/MultiAgentChunkReplayManager.cs:305-313 | the neighbour maps have exactly the loaded frames as keys |
| ChunkReplay.NeighborLoop | Source/Assets/NEWQA/Recon/MultiAgentChunkReplayManager.cs:305-313 | the loop stores for each ordered frame the frames before and after it at index `i - 1` and `i + 1` |
| ChunkReplay.DirectionRule | Source/Assets/NEWQA/Recon/MultiAgentChunkReplayManager.cs:392-408 | the facing direction points to the next loaded frame when there is one, else from the previous one, else is zero |
| ChunkReplay.LoadedStep | Source/Assets/NEWQA/Recon/MultiAgentChunkReplayManager.cs:228-289 | a file that reads adds its track at the end; a file that fails to read adds nothing |
| ChunkReplay.LoadedAll | Source/Assets/NEWQA/Recon/MultiAgentChunkReplayManager.cs:228-289 | the loaded agents are exactly the tracks of the files that read, in file order |
| ChunkReplay.TaggedRootName | Source/Assets/NEWQA/Recon/MultiAgentChunkReplayManager.cs:632-646 | the name is that of the topmost node with the tag, or empty when none has it |
| ChunkReplay.BestLoop | Source/Assets/NEWQA/Recon/MultiAgentChunkReplayManager.cs:464-521 | the collider loop finds the same nearest candidate as its definition |
| ChunkReplay.BestNoneIff | Source/Assets/NEWQA/Recon/MultiAgentChunkReplayManager.cs:454-521 | no nearest candidate exactly when no collider offers one |
| ChunkReplay.BestIsMinimum | Source/Assets/NEWQA/Recon/MultiAgentChunkReplayManager.cs:479-520 | the nearest candidate is at most as far as every candidate |
| ChunkReplay.BestIsFirst | Source/Assets/NEWQA/Recon/MultiAgentChunkReplayManager.cs:479-520 | the nearest candidate is the first at its distance (a tie does not replace it) |
| ChunkReplay.BestIsFirstMinimum | Source/Assets/NEWQA/Recon/MultiAgentChunkReplayManager.cs:454-521 | the nearest of a category is none exactly when there is no candidate, and otherwise the first candidate at the least distance |
| ChunkReplay.NearFilter | Source/Assets/NEWQA/Recon/MultiAgentChunkReplayManager.cs:446-546 | a category is only reported when calculated; a reported one is a candidate among the first 512 overlaps within the near radius and the nearest of them; no candidate leaves -1 and "" |
| ChunkReplay.LabelMeaning | Source/Assets/NEWQA/Recon/MultiAgentChunkReplayManager.cs:548-602 | off distance mode, there is no label exactly when no wanted category has a nearest; a label names a wanted found category and says HIT exactly within its hit radius |
| ChunkReplay.PoseAll | Source/Assets/NEWQA/Recon/MultiAgentChunkReplayManager.cs:346-382 | posing keeps one track per agent |
| ChunkReplay.DebugAll | Source/Assets/NEWQA/Recon/MultiAgentChunkReplayManager.cs:429-603 | the debug pass keeps one track per agent |
| ChunkReplay.ApplyFrame | Source/Assets/NEWQA/Recon/MultiAgentChunkReplayManager.cs:343-390 | applying a frame keeps one track per agent |
| ChunkReplay.ApplyFrameActivation | Source/Assets/NEWQA/Recon/MultiAgentChunkReplayManager.cs:346-382 | an agent is active exactly when it has a position at the frame, and is then placed there; an inactive one loses its label and stays where it was |
| ChunkReplay.ApplyFrameNear | Source/Assets/NEWQA/Recon/MultiAgentChunkReplayManager.cs:384-603 | with debugging on, an active agent's nearest info and label are recomputed from its overlaps after all agents are posed; otherwise they are unchanged |
| ChunkReplay.PlayFrames | Source/Assets/NEWQA/Recon/MultiAgentChunkReplayManager.cs:335-340 | playing keeps one track per agent |
| ChunkReplay.RangeStep | Source/Assets/NEWQA/Recon/MultiAgentChunkReplayManager.cs:270-271 | each file moves the frame range by the least and greatest frames of its lines |
| ChunkReplay.ReplayManager.constructor | Source/Assets/NEWQA/Recon/MultiAgentChunkReplayManager.cs:147-151 | the manager starts with no agents and the bounds at `int.MaxValue`/`int.MinValue` |
| ChunkReplay.ReplayManager.OnValidate | Source/Assets/NEWQA/Recon/MultiAgentChunkReplayManager.cs:159-183 | the radii are clamped and the query radius recomputed; nothing else changes |
| ChunkReplay.ReplayManager.LoadAll | Source/Assets/NEWQA/Recon/MultiAgentChunkReplayManager.cs:201-295 | no folder or no files leave no agents and the start bounds; otherwise the agents are the tracks of the readable files and the range is the final range of all frames |
| ChunkReplay.ReplayManager.LoadFiles | Source/Assets/NEWQA/Recon/MultiAgentChunkReplayManager.cs:228-289 | the file loop loads the readable files' tracks in order and the least and greatest frame |
| ChunkReplay.ReplayManager.ApplyGlobalFrame | Source/Assets/NEWQA/Recon/MultiAgentChunkReplayManager.cs:343-390 | the agents become the frame applied to them, with the radii the component holds now (after any `OnValidate` clamp); nothing else changes |
| ChunkReplay.ReplayManager.PoseLoop | Source/Assets/NEWQA/Recon/MultiAgentChunkReplayManager.cs:346-382 | the pose loop poses every agent at the frame |
| ChunkReplay.ReplayManager.DebugLoop | Source/Assets/NEWQA/Recon/MultiAgentChunkReplayManager.cs:429-603 | the debug loop gives every agent its debug output, computed with the current (clamped) radii |
| ChunkReplay.ReplayManager.DebugOne | Source/Assets/NEWQA/Recon/MultiAgentChunkReplayManager.cs:431-602 | one agent's debug output as defined, its label reading the current (clamped) radii |
| ChunkReplay.ReplayManager.ApplyValid | Source/Assets/NEWQA/Recon/MultiAgentChunkReplayManager.cs:343-390 | applying a frame keeps every track well formed |
| ChunkReplay.ReplayManager.FindNearest | Source/Assets/NEWQA/Recon/MultiAgentChunkReplayManager.cs:446-546 | the nearest of one category as defined, filtered by the current (clamped) near radius |
| ChunkReplay.ReplayManager.Play | Source/Assets/NEWQA/Recon/MultiAgentChunkReplayManager.cs:331-341 | playback visits every frame from min to max once in ascending order and applies each with the current (clamped) radii |
| ChunkReplay.Step32 | Source/Assets/NEWQA/Recon/MultiAgentChunkReplayManager.cs:335 | the loop counter's increment stays a 32-bit value and is `gf + 1` below `int.MaxValue` |
| ChunkReplay.CoPlayEndlessAtIntMax | Source/Assets/NEWQA/Recon/MultiAgentChunkReplayManager.cs:335 | with the 32-bit counter, `int.MaxValue` steps to `int.MinValue` and no number of steps takes the counter past `int.MaxValue`, so that maximum never ends the loop |
| ChunkReplay.ReplayManager.Start | Source/Assets/NEWQA/Recon/MultiAgentChunkReplayManager.cs:185-199 | the query radius is computed and everything loaded; the agents are the loaded tracks, and with agents and a non-empty range they become ApplyFrame of the first frame and then, with play on start, PlayFrames over the whole range, with the clamped radii |
| ChunkReplay.ReplayManager.LoadFile | Source/Assets/NEWQA/Recon/MultiAgentChunkReplayManager.cs:230-289 | a readable file gives a fresh track named after it with its frame table and neighbours; the bounds take in its frames |
| ChunkReplay.ReplayManager.ReadTrack | Source/Assets/NEWQA/Recon/MultiAgentChunkReplayManager.cs:241-273 | the line loop builds the file's frame table and bounds |
| ChunkReplay.ReplayManager.ReadLine | Source/Assets/NEWQA/Recon/MultiAgentChunkReplayManager.cs:243-272 | one line updates the frame table and bounds |
| ChunkReplay.ReplayManager.ReadEntries | Source/Assets/NEWQA/Recon/MultiAgentChunkReplayManager.cs:260-271 | the entry loop of a line that loads stores every entry under its frame, in order, and widens the bounds by every frame |
| CrowdReplayer.ParseAgentIdOf | Source/Assets/NEWQA/Recon/GlobalCrowdReplayer.cs:130-132 | a file named `prefix_N` or `prefix_N_rest`, with no `_` in the prefix, gets agent id N |
| CrowdReplayer.FirstPiece | Source/Assets/NEWQA/Recon/GlobalCrowdReplayer.cs:131 | the text before the first `_` is the first piece of the split |
| CrowdReplayer.IntToStringNoSeparator | Source/Assets/NEWQA/Recon/GlobalCrowdReplayer.cs:131-132 | a written number contains no `_`, so the id stays one piece |
| CrowdReplayer.PutEntriesKeys | Source/Assets/NEWQA/Recon/GlobalCrowdReplayer.cs:162-187 | a record adds exactly its first `min(frames, offsets)` frames to the timeline |
| CrowdReplayer.TimelineKeys | Source/Assets/NEWQA/Recon/GlobalCrowdReplayer.cs:149-196 | the timeline has a frame exactly when some usable line lists it |
| CrowdReplayer.LoadedAgents | Source/Assets/NEWQA/Recon/GlobalCrowdReplayer.cs:114 | one agent per file |
| CrowdReplayer.LoadedAgentsAt | Source/Assets/NEWQA/Recon/GlobalCrowdReplayer.cs:114-200 | the agent at index `i` is the one loaded from file `i` |
| CrowdReplayer.LookupMeaning | Source/Assets/NEWQA/Recon/GlobalCrowdReplayer.cs:198 | an id is in the lookup exactly when it is not -1 and some agent has it, and it points to the first such agent |
| CrowdReplayer.PoseAll | Source/Assets/NEWQA/Recon/GlobalCrowdReplayer.cs:211-223 | posing keeps one entry per agent |
| CrowdReplayer.DecisionForPrefix | Source/Assets/NEWQA/Recon/GlobalCrowdReplayer.cs:226-241 | an agent's decision depends only on itself and the agents before it |
| CrowdReplayer.DecisionsEntries | Source/Assets/NEWQA/Recon/GlobalCrowdReplayer.cs:226-241 | every decision is for an active agent and is that agent's decision |
| CrowdReplayer.DecisionsOrdered | Source/Assets/NEWQA/Recon/GlobalCrowdReplayer.cs:226 | decisions come in agent order, one per agent at most |
| CrowdReplayer.DecisionsCover | Source/Assets/NEWQA/Recon/GlobalCrowdReplayer.cs:226-241 | every active agent gets a decision |
| CrowdReplayer.DecisionsMeaning | Source/Assets/NEWQA/Recon/GlobalCrowdReplayer.cs:226-241 | each active agent, in order, finishes exactly when the frame reached its end frame and is otherwise analysed with a non-negative time left |
| CrowdReplayer.PosedActive | Source/Assets/NEWQA/Recon/GlobalCrowdReplayer.cs:211-223 | an agent is active exactly when its timeline has the frame, and then sits at the pose of that frame; ids, timelines and end frames are unchanged |
| CrowdReplayer.LookupStep | Source/Assets/NEWQA/Recon/GlobalCrowdReplayer.cs:197-198 | a loaded agent enters the lookup only when its id is not -1 and not present yet |
| CrowdReplayer.AllFramesStep | Source/Assets/NEWQA/Recon/GlobalCrowdReplayer.cs:189-190 | each file moves the global bounds by its least and greatest frame |
| CrowdReplayer.LinesFramesStep | Source/Assets/NEWQA/Recon/GlobalCrowdReplayer.cs:149-193 | each line adds its entries to the timeline and moves the agent's bounds |
| CrowdReplayer.Replayer.constructor | Source/Assets/NEWQA/Recon/GlobalCrowdReplayer.cs:21-38 | the replayer starts not ready and not playing, with no agents and the bounds at `int.MaxValue`/`int.MinValue` |
| CrowdReplayer.Replayer.GetAgentPosition | Source/Assets/NEWQA/Recon/GlobalCrowdReplayer.cs:85-93 | a position comes back exactly for an id in the lookup whose agent is active, and it is that agent's position |
| CrowdReplayer.Replayer.LoadAllFiles | Source/Assets/NEWQA/Recon/GlobalCrowdReplayer.cs:96-124 | without the folder there are no agents; otherwise one agent per file, the lookup of their ids and the bounds over all frames; play starts at the least frame exactly when some agent was loaded |
| CrowdReplayer.Replayer.LoadFiles | Source/Assets/NEWQA/Recon/GlobalCrowdReplayer.cs:114 | the file loop loads every file's agent, its lookup and the bounds |
| CrowdReplayer.Replayer.LoadSingleAgent | Source/Assets/NEWQA/Recon/GlobalCrowdReplayer.cs:126-200 | one file gives its agent, with the id from its name and the timeline of its lines, and the bounds take in its frames |
| CrowdReplayer.Replayer.ReadEntries | Source/Assets/NEWQA/Recon/GlobalCrowdReplayer.cs:162-193 | the entry loop adds the record's entries and moves the bounds |
| CrowdReplayer.Replayer.Update | Source/Assets/NEWQA/Recon/GlobalCrowdReplayer.cs:203-258 | when not ready or not playing nothing happens; otherwise the agents are posed at the frame, the decisions are made, the frame advances by one (32-bit) and play stops once it passes the last frame plus 5 |
| CrowdReplayer.Replayer.Run | Source/Assets/NEWQA/Recon/GlobalCrowdReplayer.cs:203-258 | repeated updates visit every frame from the current one to the last plus 5, once each in order, and then stop |
| RecorderCounter.StatusText | Source/Assets/NEWQA/Recon/RecorderCounter.cs:154-225 | the five group status texts, none of which holds the CSV separator ',' |
| RecorderCounter.CollisionsMeaning | Source/Assets/NEWQA/Recon/RecorderCounter.cs:164-175 | the obstacle flag is set iff some collider other than the agent's own is tagged "Obstacle", the agent flag iff some other collider is tagged "Agent" |
| RecorderCounter.CountedMembers | Source/Assets/NEWQA/Recon/RecorderCounter.cs:192-198 | the members that enter the average: never more than listed, each one not the agent itself and with a position the replayer reports |
| RecorderCounter.GroupScanMeaning | Source/Assets/NEWQA/Recon/RecorderCounter.cs:188-209 | the scan counts exactly the counted members; "any close" iff some counted member is within the threshold, "any far" iff some is beyond it |
| RecorderCounter.GroupCheckMeaning | Source/Assets/NEWQA/Recon/RecorderCounter.cs:177-226 | "No Group" exactly for a null or empty list, with distance -1; "Alone" iff no member is counted, with distance -1; "All Close" / "All Far" iff every counted member is within / beyond the threshold; otherwise the distance is the mean over the counted members |
| RecorderCounter.CountedWitness | Source/Assets/NEWQA/Recon/RecorderCounter.cs:192-198 | some member is counted iff the counted list is non-empty |
| RecorderCounter.FinishSpec | Source/Assets/NEWQA/Recon/RecorderCounter.cs:63-74 | finishing marks the recorder finished, keeps every written row, closes an open writer and does nothing to an already finished recorder |
| RecorderCounter.FinishIdempotent | Source/Assets/NEWQA/Recon/RecorderCounter.cs:63-148 | a second FinishRecording (as from OnDestroy) changes nothing |
| RecorderCounter.AnalyzeUnfold | Source/Assets/NEWQA/Recon/RecorderCounter.cs:76-108 | an unfinished recorder stores the ground, collision and group results of the frame and appends the formatted row iff the writer is open |
| RecorderCounter.AnalyzeRows | Source/Assets/NEWQA/Recon/RecorderCounter.cs:76-108 | a finished recorder is left as it is; otherwise the earlier rows are kept and exactly one row is added when the writer is open, none when it is closed |
| RecorderCounter.ImagePathShape | Source/Assets/NEWQA/Recon/RecorderCounter.cs:111-134 | a captured image's path holds no ',', is never "None" and ends in frame_<frame>.png |
| RecorderCounter.AnalyzeRowFields | Source/Assets/NEWQA/Recon/RecorderCounter.cs:86-106 | the row appended splits back into exactly the eight header fields: the frame, the ground tag, both flags, the status text, the distance and remaining time to two decimals, and the image path, "None" iff no image is saved |
| RecorderCounter.RowSplits | Source/Assets/NEWQA/Recon/RecorderCounter.cs:96-105 | splitting a formatted row on ',' gives back its eight fields when the ground tag and image folder hold no ',' |
| RecorderCounter.Recorder.Initialize | Source/Assets/NEWQA/Recon/RecorderCounter.cs:35-61 | a fresh recorder: unfinished, writer open, the header as the only row, the checks at their initial values |
| RecorderCounter.Recorder.FinishRecording | Source/Assets/NEWQA/Recon/RecorderCounter.cs:63-74 | the new state is FinishSpec of the old |
| RecorderCounter.Recorder.AnalyzeFrame | Source/Assets/NEWQA/Recon/RecorderCounter.cs:76-108 | the new state is AnalyzeSpec of the old state and the frame's inputs |
| RecorderCounter.Recorder.CheckCollisions | Source/Assets/NEWQA/Recon/RecorderCounter.cs:164-175 | the loop's flags equal Collisions of the hits |
| RecorderCounter.Recorder.CheckGroupDistance | Source/Assets/NEWQA/Recon/RecorderCounter.cs:177-226 | the loop's status and mean distance equal GroupCheck of the members |
| ZaraHomography.ParseHomography3x3 | Source/Assets/NEWQA/Anchor/ZaraPlaybackWithAnchor0.cs:960-994 | the parse gives exactly the homography of the text: the first three lines of at least three tokens make the matrix, fewer give the identity, and a bad number among them throws |
| ZaraHomography.ReadRows | Source/Assets/NEWQA/Anchor/ZaraPlaybackWithAnchor0.cs:965-987 | the line loop skips blank and short lines, throws at the first used row that does not parse and stops after the third row, agreeing with the whole-text definition |
| ZaraHomography.HomographyStops | Source/Assets/NEWQA/Anchor/ZaraPlaybackWithAnchor0.cs:976-981 | a row among the first three that does not parse makes the whole parse throw, whatever follows |
| ZaraHomography.HomographyShort | Source/Assets/NEWQA/Anchor/ZaraPlaybackWithAnchor0.cs:987 | fewer than three usable rows, all parsing, leave the identity matrix |
| ZaraHomography.PrefixOfAll | Source/Assets/NEWQA/Anchor/ZaraPlaybackWithAnchor0.cs:968-983 | the rows found in a prefix of the text are the first rows of the whole text, so stopping early reads the right rows |
| ZaraHomography.HomographyFirstThree | Source/Assets/NEWQA/Anchor/ZaraPlaybackWithAnchor0.cs:983 | lines after the third usable row never affect the matrix |
| ZaraHomography.ApplyIdentity | Source/Assets/NEWQA/Anchor/ZaraPlaybackWithAnchor0.cs:944-958 | the identity homography leaves every plane point where it is |
| ZaraHomography.ToUnityXZ | Source/Assets/NEWQA/Anchor/ZaraPlaybackWithAnchor0.cs:931-936 | the plane point goes to the ground (`y` zero); `x` is negated exactly when `flipX` is set and `z` (the plane's `y`) exactly when `flipZ` is set |
| ZaraHomography.MapToWorldHeight | Source/Assets/NEWQA/Anchor/ZaraPlaybackWithAnchor0.cs:938-942 | every mapped world position lies at the height of the world offset |
| ZaraEval.BinarySearch | Source/Assets/NEWQA/Anchor/ZaraPlaybackWithAnchor0.cs:164 | a non-negative result indexes a sample with the target frame; a negative one is the complement of a position inside the searched range |
| ZaraEval.BinarySearchMiss | Source/Assets/NEWQA/Anchor/ZaraPlaybackWithAnchor0.cs:164-172 | on ascending frames a miss gives the insertion point: every frame before it is smaller and every frame from it on is larger |
| ZaraEval.BinarySearchAbsent | Source/Assets/NEWQA/Anchor/ZaraPlaybackWithAnchor0.cs:164-165 | on ascending frames the search misses exactly when the target frame is absent |
| ZaraEval.EvaluateOutside | Source/Assets/NEWQA/Anchor/ZaraPlaybackWithAnchor0.cs:160-161 | a trajectory has no value exactly at frames before its first or after its last sample |
| ZaraEval.EvaluateExact | Source/Assets/NEWQA/Anchor/ZaraPlaybackWithAnchor0.cs:163-170 | when the floored frame is a sample frame, the value is that sample's position and angle |
| ZaraEval.EvaluateBetween | Source/Assets/NEWQA/Anchor/ZaraPlaybackWithAnchor0.cs:172-189 | otherwise the frame lies strictly between two consecutive samples and the value interpolates them with a weight in `[0, 1)` |
| ZaraEval.Bracket | Source/Assets/NEWQA/Anchor/ZaraPlaybackWithAnchor0.cs:172-174 | a covered frame whose floor is no sample frame has a sample on each side of its insertion point |
| ZaraEval.EvaluateMiss | Source/Assets/NEWQA/Anchor/ZaraPlaybackWithAnchor0.cs:172-189 | at such an insertion point the clamps keep both neighbours and the value is their interpolation |
| ZaraEval.WeightRange | Source/Assets/NEWQA/Anchor/ZaraPlaybackWithAnchor0.cs:183-185 | between two samples the interpolation weight lies in `[0, 1)` |
| ZaraTrajectories.ParseRow | Source/Assets/NEWQA/Anchor/ZaraPlaybackWithAnchor0.cs:404-415 | a row comes only from a non-blank line with at least five comma fields |
| ZaraTrajectories.GroupAt | Source/Assets/NEWQA/Anchor/ZaraPlaybackWithAnchor0.cs:417-422 | an id has a sample list exactly when some parsed row carries it, and the list is that id's samples in file order |
| ZaraTrajectories.TrajectoryOfSamples | Source/Assets/NEWQA/Anchor/ZaraPlaybackWithAnchor0.cs:434-460 | each built trajectory has the id, parallel arrays of one length, frames in ascending order and exactly the id's samples |
| ZaraTrajectories.BuildTrajectory | Source/Assets/NEWQA/Anchor/ZaraPlaybackWithAnchor0.cs:436-459 | one id's trajectory is its sorted sample list laid out in arrays |
| ZaraTrajectories.FillArrays | Source/Assets/NEWQA/Anchor/ZaraPlaybackWithAnchor0.cs:442-451 | the index loop copies each sample's frame, position and angle into the same index of the three arrays |
| ZaraTrajectories.BuildAll | Source/Assets/NEWQA/Anchor/ZaraPlaybackWithAnchor0.cs:434-460 | the loop over the ids builds one trajectory per id with samples |
| ZaraTrajectories.CollectRows | Source/Assets/NEWQA/Anchor/ZaraPlaybackWithAnchor0.cs:397-432 | the line loop groups the parsed rows by id in file order and tracks the least and greatest frame |
| ZaraTrajectories.RowSnoc | Source/Assets/NEWQA/Anchor/ZaraPlaybackWithAnchor0.cs:417-425 | a parsed row appends its sample to its id's list and moves the frame bounds by `Mathf.Min`/`Mathf.Max` |
| ZaraTrajectories.FrameBounds | Source/Assets/NEWQA/Anchor/ZaraPlaybackWithAnchor0.cs:370-425 | without rows the bounds stay at their start values; with rows every frame lies between them and both bounds are frames of some row |
| ZaraTrajectories.LowHighStart | Source/Assets/NEWQA/Anchor/ZaraPlaybackWithAnchor0.cs:370-425 | starting from `int.MaxValue` and `int.MinValue` the running bounds are those of the rows |
| ZaraGroups.GroupLine | Source/Assets/NEWQA/Anchor/ZaraPlaybackWithAnchor0.cs:472-493 | a kept group line has at least two ids (shorter lines are skipped) |
| ZaraGroups.ParseIds | Source/Assets/NEWQA/Anchor/ZaraPlaybackWithAnchor0.cs:478-487 | the token loop succeeds exactly when every token is an integer, and then gives them in order |
| ZaraGroups.ReadGroupLine | Source/Assets/NEWQA/Anchor/ZaraPlaybackWithAnchor0.cs:472-493 | one line gives its group exactly as the line reading defines it, or is skipped |
| ZaraGroups.ReadGroups | Source/Assets/NEWQA/Anchor/ZaraPlaybackWithAnchor0.cs:463-496 | the line loop appends exactly the kept groups of the text in order |
| ZaraGroups.GroupsHaveTwo | Source/Assets/NEWQA/Anchor/ZaraPlaybackWithAnchor0.cs:476-493 | every group read has at least two members |
| ZaraGroups.RowEdges | Source/Assets/NEWQA/Anchor/ZaraPlaybackWithAnchor0.cs:514-515 | member `i` of a group is joined to each later member, one edge each |
| ZaraGroups.RowStartClosed | Source/Assets/NEWQA/Anchor/ZaraPlaybackWithAnchor0.cs:513-515 | the edges before member `i` in pair mode number `i(2n-i-1)/2` |
| ZaraGroups.PairAt | Source/Assets/NEWQA/Anchor/ZaraPlaybackWithAnchor0.cs:513-515 | the edge between members `i` and `j` sits at its pair index and joins exactly those two members |
| ZaraGroups.PairLength | Source/Assets/NEWQA/Anchor/ZaraPlaybackWithAnchor0.cs:513-515 | the first `m` members contribute the edge count of their rows |
| ZaraGroups.PairFrom | Source/Assets/NEWQA/Anchor/ZaraPlaybackWithAnchor0.cs:513-515 | every pair-mode edge joins two distinct members `i < j` of its group |
| ZaraGroups.ChainCount | Source/Assets/NEWQA/Anchor/ZaraPlaybackWithAnchor0.cs:506-510 | chain mode joins each member to the next: `n - 1` edges, edge `i` between members `i` and `i + 1` |
| ZaraGroups.PairsCount | Source/Assets/NEWQA/Anchor/ZaraPlaybackWithAnchor0.cs:511-516 | pair mode gives `n(n-1)/2` edges, one per pair `i < j`, and no others |
| ZaraGroups.PairIndex | Source/Assets/NEWQA/Anchor/ZaraPlaybackWithAnchor0.cs:513-515 | the index of pair `(i, j)` lies within the edges of the rows up to `i` |
| ZaraGroups.RowStartGrows | Source/Assets/NEWQA/Anchor/ZaraPlaybackWithAnchor0.cs:513-515 | each row adds its count of edges and the edge counts grow with the row |
| ZaraGroups.PairOrder | Source/Assets/NEWQA/Anchor/ZaraPlaybackWithAnchor0.cs:513-515 | pairs come out in lexicographic order of `(i, j)` |
| ZaraGroups.EdgesCarryGroup | Source/Assets/NEWQA/Anchor/ZaraPlaybackWithAnchor0.cs:498-517 | every edge names a group of at least two members that contains both of its ends |
| ZaraGroups.BuildEdges | Source/Assets/NEWQA/Anchor/ZaraPlaybackWithAnchor0.cs:498-517 | the group loop gives exactly the edges of every group in group order |
| ZaraGroups.GroupEdgesLoop | Source/Assets/NEWQA/Anchor/ZaraPlaybackWithAnchor0.cs:503-516 | one group's loop gives its edges in the chosen link mode; a group of fewer than two gives none |
| ZaraGroups.RowLoop | Source/Assets/NEWQA/Anchor/ZaraPlaybackWithAnchor0.cs:514-515 | the inner loop gives the edges from member `i` to each later member |
| ZaraPlayback.Playback.constructor | Source/Assets/NEWQA/Anchor/ZaraPlaybackWithAnchor0.cs:233-237 | the component starts with the identity homography, empty tables and the bounds at `int.MaxValue`/`int.MinValue` |
| ZaraPlayback.Playback.ParseTrajectories | Source/Assets/NEWQA/Anchor/ZaraPlaybackWithAnchor0.cs:392-461 | the trajectories of the text are added over the present ones and the frame bounds take in every parsed frame; nothing else changes |
| ZaraPlayback.Playback.ParseGroups | Source/Assets/NEWQA/Anchor/ZaraPlaybackWithAnchor0.cs:463-496 | the kept groups of the text are appended in order; nothing else changes |
| ZaraPlayback.Playback.BuildGroupEdges | Source/Assets/NEWQA/Anchor/ZaraPlaybackWithAnchor0.cs:498-517 | the edge list is rebuilt as the edges of all groups; nothing else changes |
| ZaraPlayback.Playback.LoadAll | Source/Assets/NEWQA/Anchor/ZaraPlaybackWithAnchor0.cs:365-390 | a bad homography throws out of the load; without trajectories the tables stay empty; otherwise the tables hold the texts' trajectories, groups and edges, and a bound no frame moved is 0 |
| ZaraAnchor.FixOf | Source/Assets/NEWQA/Anchor/ZaraAnchorId0Controller.cs:400-411 | a line gives a fix only for the wanted id, and its frame is a 32-bit integer |
| ZaraAnchor.Fixes | Source/Assets/NEWQA/Anchor/ZaraAnchorId0Controller.cs:398-411 | every usable fix of the id carries a 32-bit frame |
| ZaraAnchor.EarliestFirstMinimum | Source/Assets/NEWQA/Anchor/ZaraAnchorId0Controller.cs:386-416 | the start frame is at most every fix's frame and, when any fix exists, is the first fix with the least frame (a later tie does not replace it); without fixes it keeps `int.MaxValue` and a default position |
| ZaraAnchor.LatestFirstMaximum | Source/Assets/NEWQA/Anchor/ZaraAnchorId0Controller.cs:387-421 | the end frame is at least every fix's frame and, when any fix exists, is the first fix with the greatest frame; without fixes it keeps `int.MinValue` and a default position |
| ZaraAnchor.FoundIff | Source/Assets/NEWQA/Anchor/ZaraAnchorId0Controller.cs:424 | the lookup succeeds exactly when some fix has a frame below `int.MaxValue` |
| ZaraAnchor.FixesSnoc | Source/Assets/NEWQA/Anchor/ZaraAnchorId0Controller.cs:398-411 | each line read adds its fix, if it has one, after those of the lines before |
| ZaraAnchor.RunningSnoc | Source/Assets/NEWQA/Anchor/ZaraAnchorId0Controller.cs:412-421 | a new fix replaces the start only with a strictly smaller frame and the end only with a strictly greater one |
| ZaraAnchor.TryGetStartEndForId | Source/Assets/NEWQA/Anchor/ZaraAnchorId0Controller.cs:382-425 | the line loop returns the first least-frame fix, the first greatest-frame fix, and success exactly when a fix was found; a missing text finds nothing |
| ZaraAnchor.AllFloatsAppend | Source/Assets/NEWQA/Anchor/ZaraAnchorId0Controller.cs:473-484 | the numbers of two texts read one after the other are those of the first followed by those of the second |
| ZaraAnchor.AllFloatsSnoc | Source/Assets/NEWQA/Anchor/ZaraAnchorId0Controller.cs:478-483 | each line contributes its parsable tokens, in order, after the numbers of the lines before |
| ZaraAnchor.FloatHomographyStops | Source/Assets/NEWQA/Anchor/ZaraAnchorId0Controller.cs:473-479 | once nine numbers are read, later lines never change the matrix |
| ZaraAnchor.LineWithoutNumbers | Source/Assets/NEWQA/Anchor/ZaraAnchorId0Controller.cs:476-483 | a blank line, or one without a parsable token, changes nothing |
| ZaraAnchor.TakenSnoc | Source/Assets/NEWQA/Anchor/ZaraAnchorId0Controller.cs:479-483 | each parsable token appends its number and any other token is skipped |
| ZaraAnchor.TakenStop | Source/Assets/NEWQA/Anchor/ZaraAnchorId0Controller.cs:479 | the token loop, stopping at the end of the line or at nine numbers, has taken exactly the first numbers the line offers |
| ZaraAnchor.TakeFloats | Source/Assets/NEWQA/Anchor/ZaraAnchorId0Controller.cs:479-483 | the token loop fills the array with the line's numbers after those already read, up to nine, and counts them |
| ZaraAnchor.ParseHomography3x3 | Source/Assets/NEWQA/Anchor/ZaraAnchorId0Controller.cs:465-493 | the parse gives the homography of the text: the first nine parsable numbers across the lines row by row, or the identity when there are fewer |
| ZaraAnchor.ReadNine | Source/Assets/NEWQA/Anchor/ZaraAnchorId0Controller.cs:471-492 | the line loop agrees with the whole-text definition and stops reading at nine numbers |
| ZaraAnchor.RemainingTime | Source/Assets/NEWQA/Anchor/ZaraAnchorId0Controller.cs:183-195 | a positive override wins; else a found trajectory gives its 32-bit frame span over the fps (at least 1), clamped at zero; else 30 seconds; never negative |
| ZaraAnchor.ParseIdFromName | Source/Assets/NEWQA/Anchor/ZaraAnchorId0Controller.cs:552-558 | the id is at least -1 and is -1 when the name does not end in a digit |
| ZaraAnchor.TrailingDigitsOf | Source/Assets/NEWQA/Anchor/ZaraAnchorId0Controller.cs:555 | the trailing digit run of a name is exactly the digits after its last non-digit |
| ZaraAnchor.TrailingDigitsStep | Source/Assets/NEWQA/Anchor/ZaraAnchorId0Controller.cs:555 | a digit added to a trailing run extends the run |
| ZaraAnchor.TrailingDigitsSnoc | Source/Assets/NEWQA/Anchor/ZaraAnchorId0Controller.cs:555 | appending a digit to any name appends it to the trailing run |
| ZaraAnchor.NameIdRoundTrip | Source/Assets/NEWQA/Anchor/ZaraAnchorId0Controller.cs:552-558 | a name made of a prefix not ending in a digit and a decimal number parses back to that number |
| ZaraAnchor.NatParses | Source/Assets/NEWQA/Anchor/ZaraAnchorId0Controller.cs:557 | the decimal digits of a 32-bit non-negative number parse back to it |
| ZaraAnchor.IdOfDigits | Source/Assets/NEWQA/Anchor/ZaraAnchorId0Controller.cs:555-557 | a name whose trailing digits parse as a number has that number as its id |
| ZaraAnchor.AwakeGate | Source/Assets/NEWQA/Anchor/ZaraAnchorId0Controller.cs:99-109 | with the name check on, the component stays enabled exactly when the number at the end of its name is the anchor id |
| ZaraAnchor.AwakeWithoutDigits | Source/Assets/NEWQA/Anchor/ZaraAnchorId0Controller.cs:101-108 | with the name check on, a name without trailing digits keeps the component only for anchor id -1 |
| ZaraAnchor.GoalLocalJsonFields | Source/Assets/NEWQA/Anchor/ZaraAnchorId0Controller.cs:338-347 | the goal string is bracketed and splits on its comma into the two offset components, each with four decimals and optional sign flip |
| ZaraAnchor.BracketedPair | Source/Assets/NEWQA/Anchor/ZaraAnchorId0Controller.cs:346 | two comma-free numbers written as `[a,b]` read back as exactly those two |
| AgentManager.MembershipDomain | Source/Assets/Scripts/AgentManager.cs:139-163 | an id is in the group table exactly when some kept group line lists it |
| AgentManager.FirstMembershipWins | Source/Assets/Scripts/AgentManager.cs:150-156 | an id that several groups list keeps the first of them (`ContainsKey` guard) |
| AgentManager.MembershipOwnGroup | Source/Assets/Scripts/AgentManager.cs:147-155 | every id in the table belongs to its own group, which is one of the groups read |
| AgentManager.GroupTableEntries | Source/Assets/Scripts/AgentManager.cs:139-163 | every table entry holds its own id, has at least two members and is the group of some line of the file |
| AgentManager.ReadGroups | Source/Assets/Scripts/AgentManager.cs:142-163 | the line loop builds exactly the table of the kept groups in file order; a line with a bad id is skipped |
| AgentManager.EnrolAll | Source/Assets/Scripts/AgentManager.cs:150-156 | the member loop adds the group for the members not yet in the table and keeps the others |
| AgentManager.ReadGroupData | Source/Assets/Scripts/AgentManager.cs:131-164 | no group file gives no table; otherwise the table of its lines split on CR and LF with empty pieces removed |
| AgentManager.Manager.LoadGroupData | Source/Assets/Scripts/AgentManager.cs:131-164 | sets the group table to that of the file, or none without a file, and changes nothing else |
| AgentManager.TransformRoundTrip | Source/Assets/Scripts/AgentManager.cs:166-173 | with a non-zero scale the placement is undone, so no two dataset positions share a scene position |
| AgentManager.TransformLerp | Source/Assets/Scripts/AgentManager.cs:166-173 | placing a point between two samples gives the point between the placed samples |
| AgentManager.Positions | Source/Assets/Scripts/AgentManager.cs:86-91 | the positions list has one entry per sample |
| AgentManager.PositionsAt | Source/Assets/Scripts/AgentManager.cs:86-91 | entry k of the positions list is sample k placed in the scene |
| AgentManager.Values | Source/Assets/Scripts/AgentManager.cs:180-191 | the numbers read from the lines, three per line, or none when a line is not a row |
| AgentManager.ValuesBadRow | Source/Assets/Scripts/AgentManager.cs:183-188 | one line that is not three parseable numbers makes the whole read fail |
| AgentManager.ValuesSnoc | Source/Assets/Scripts/AgentManager.cs:180-191 | a further good line appends its three numbers |
| AgentManager.RowFloats | Source/Assets/Scripts/AgentManager.cs:184-190 | a good row holds exactly the numbers its tokens parse to |
| AgentManager.ValuesAreFloats | Source/Assets/Scripts/AgentManager.cs:180-191 | when every line is a row, the strict numbers are those a reader skipping bad tokens finds |
| AgentManager.StrictMatrixIsFirstNine | Source/Assets/Scripts/AgentManager.cs:175-197 | a matrix the strict reader accepts is that of the first nine numbers of the lines |
| AgentManager.StrictAgreesWithLenient | Source/Assets/Scripts/AgentManager.cs:175-197 | this component's strict homography reader and the anchor controller's lenient one give the same matrix on every file the strict one accepts |
| AgentManager.ReadRow | Source/Assets/Scripts/AgentManager.cs:186-190 | the token loop yields the three numbers, or nothing at the first token that does not parse |
| AgentManager.ReadRows | Source/Assets/Scripts/AgentManager.cs:177-196 | the line loop yields the matrix of the first three lines, or nothing when a line is missing, has other than three tokens, or a token does not parse |
| AgentManager.ReadHomography | Source/Assets/Scripts/AgentManager.cs:175-197 | the matrix is replaced only when all three rows are read; on any error it is kept as it was |
| AgentManager.Manager.LoadHomographyMatrix | Source/Assets/Scripts/AgentManager.cs:175-197 | the homography becomes the file's matrix when it reads, and stays as it was otherwise |
| AgentManager.SortedIsOrdered | Source/Assets/Scripts/AgentManager.cs:57-60 | samples sorted by frame are in non-decreasing frame order |
| AgentManager.SortAll | Source/Assets/Scripts/AgentManager.cs:57-60 | sorting keeps the set of agent ids |
| AgentManager.SortAllSorts | Source/Assets/Scripts/AgentManager.cs:57-60 | each agent's list becomes sorted by frame, a permutation of its samples of the same length |
| AgentManager.Spawned | Source/Assets/Scripts/AgentManager.cs:63-95 | an agent is spawned exactly when it has at least two samples, with the positions list of its placed samples |
| AgentManager.SpawnedAtOffsetHeight | Source/Assets/Scripts/AgentManager.cs:63-95 | every spawned position lies at the offset's height, as the parsers put samples at height 0 |
| AgentManager.FreshStates | Source/Assets/Scripts/AgentManager.cs:71-78 | one agent state per spawned agent |
| AgentManager.Hidden | Source/Assets/Scripts/AgentManager.cs:94 | every spawned agent starts hidden; other flags keep their values |
| AgentManager.SortAndSpawn | Source/Assets/Scripts/AgentManager.cs:56-95 | sorts every list, spawns the agents with two or more samples, and leaves a consistent state: spawned agents have states, flags and playable sorted samples |
| AgentManager.Manager.constructor | Source/Assets/Scripts/AgentManager.cs:9-33 | the fields' initial values: no groups, identity homography, nothing loaded, frame 0, not moving, not initialised |
| AgentManager.Manager.Start | Source/Assets/Scripts/AgentManager.cs:35-98 | loads groups, then the homography when given (switching on its use), then the data; sorts and spawns; ends initialised and consistent |
| AgentManager.Manager.LoadDataFromFile | Source/Assets/Scripts/AgentManager.cs:220-223 | the agent data become the parse of the text with the current placement |
| AgentManager.Manager.AgentOf | Source/Assets/Scripts/AgentManager.cs:107-114 | a controller is returned exactly when the id has one, and it is that controller |
| AgentManager.Manager.RemoveAgent | Source/Assets/Scripts/AgentManager.cs:117-129 | a controlled id loses its controller, state and data; any other id changes nothing; the state stays consistent |
| AgentManager.Advance | Source/Assets/Scripts/AgentManager.cs:247-251 | the index never decreases and stays within the list |
| AgentManager.AdvanceStops | Source/Assets/Scripts/AgentManager.cs:247-251 | the index loop passes only samples at or before the frame and stops at the last sample or before one after the frame |
| AgentManager.AdvanceFindsLast | Source/Assets/Scripts/AgentManager.cs:247-251 | on sorted samples, from a sample at or before the frame, it reaches the last such sample |
| AgentManager.AdvanceIncremental | Source/Assets/Scripts/AgentManager.cs:247-251 | advancing frame by frame equals advancing straight to the later frame |
| AgentManager.AdvanceIndex | Source/Assets/Scripts/AgentManager.cs:246-252 | the while loop computes that index |
| AgentManager.ActiveIffCovers | Source/Assets/Scripts/AgentManager.cs:254-257 | from the first sample, an agent is shown at a frame exactly when its first sample is at or before it and its last is after it |
| AgentManager.FractionInRange | Source/Assets/Scripts/AgentManager.cs:264 | inside the window the interpolation fraction lies in [0, 1) |
| AgentManager.TurnIsShortest | Source/Assets/Scripts/AgentManager.cs:273 | `Mathf.LerpAngle` turns by the shortest way: by more than -180 and at most 180 degrees, a whole number of turns from the difference, from a at 0 to a plus that turn at 1 |
| AgentManager.PoseOnPath | Source/Assets/Scripts/AgentManager.cs:264-277 | the shown position lies on the segment between the agent's two placed samples |
| AgentManager.RemainderSign | Source/Assets/Scripts/AgentManager.cs:282 | C#'s truncating remainder has the dividend's sign, is smaller than the divisor, and is zero exactly when the Euclidean one is |
| AgentManager.Tick | Source/Assets/Scripts/AgentManager.cs:247-293 | the new index stays within the samples |
| AgentManager.TickRecordsOnce | Source/Assets/Scripts/AgentManager.cs:247-293 | the index is the advanced one; the agent is shown exactly in its window; it records exactly when shown, past its last saved frame and on a multiple of the interval; recording moves the last saved frame, so a second visit of the same frame records nothing |
| AgentManager.StepAgent | Source/Assets/Scripts/AgentManager.cs:247-293 | one agent's loop body computes that step |
| AgentManager.FrameRecordsDue | Source/Assets/Scripts/AgentManager.cs:280-284 | every record of a frame is of that frame, of a listed agent, and carries that agent's action |
| AgentManager.StepsOf | Source/Assets/Scripts/AgentManager.cs:238-245 | a step for each spawned agent with at least two samples, and only those |
| AgentManager.ChronologicalSnoc | Source/Assets/Scripts/AgentManager.cs:280-284 | a record past the agent's last saved frame keeps the records in order once saved |
| AgentManager.Visit | Source/Assets/Scripts/AgentManager.cs:238-293 | a visit keeps the playback state well formed and its key sets |
| AgentManager.VisitAll | Source/Assets/Scripts/AgentManager.cs:238-294 | the agent loop keeps the playback state well formed and its key sets |
| AgentManager.VisitAllAt | Source/Assets/Scripts/AgentManager.cs:236-294 | each listed spawned agent with two or more samples gets its own step from the state before the loop; every other entry is unchanged |
| AgentManager.VisitAllRecords | Source/Assets/Scripts/AgentManager.cs:236-294 | the loop appends the frame's records in the listed order of the agents |
| AgentManager.VisitChronological | Source/Assets/Scripts/AgentManager.cs:280-284 | a visit keeps each agent's records in frame order and within its last saved frame |
| AgentManager.VisitAllChronological | Source/Assets/Scripts/AgentManager.cs:236-294 | the agent loop keeps the records in order |
| AgentManager.PlayFrame | Source/Assets/Scripts/AgentManager.cs:236-294 | one frame: each spawned agent with two or more samples takes its step, skipped ids and other entries are unchanged, and the records gained are the frame's due records |
| AgentManager.FirstSamples | Source/Assets/Scripts/AgentManager.cs:227-231 | every spawned agent's index starts at 0 |
| AgentManager.PlayFrames | Source/Assets/Scripts/AgentManager.cs:225-299 | the frame loop ends one past the last frame, each index where advancing straight to the last frame lands, each agent shown exactly when its trajectory spans the last frame |
| AgentManager.Manager.UpdateAgents | Source/Assets/Scripts/AgentManager.cs:225-299 | the coroutine leaves the state consistent with records in order, the frame one past `maxFrame`, and each agent's index and visibility those of the last frame |
| AgentManager.Manager.StartMovingAgents | Source/Assets/Scripts/AgentManager.cs:199-206 | starts the playback only when not already moving; a second call changes nothing |
| DatasetParser.Project | Source/Assets/Scripts/DatasetParser.cs:56-68 | the homography maps to the ground: a near-zero weight gives the origin, otherwise `x` and `z` are the projective coordinates divided by the weight |
| DatasetParser.Place | Source/Assets/Scripts/DatasetParser.cs:54-73 | every parsed position lies on the ground (`y` zero) |
| DatasetParser.PlaceIdentity | Source/Assets/Scripts/DatasetParser.cs:55-73 | the identity homography places a point where the plain layout does |
| DatasetParser.Samples | Source/Assets/Scripts/DatasetParser.cs:75-80 | one data point per parsed sample |
| DatasetParser.SamplesSnoc | Source/Assets/Scripts/DatasetParser.cs:80 | a parsed sample appends its data point after those before it |
| DatasetParser.SamplesAt | Source/Assets/Scripts/DatasetParser.cs:75 | each data point keeps its sample's frame and heading and lies on the ground |
| DatasetParser.CollectSnoc | Source/Assets/Scripts/DatasetParser.cs:76-80 | a parsed row appends its data point to its id's list, creating the list on the id's first row |
| DatasetParser.CollectIsFilter | Source/Assets/Scripts/DatasetParser.cs:76-80 | an id has a list exactly when some parsed row carries it, and the list is that id's data points in file order |
| DatasetParser.CollectLines | Source/Assets/Scripts/DatasetParser.cs:29-87 | the line loop builds exactly the table of the parsed rows, skipping every line that fails |
| DatasetParser.FilterMapPrefix | Source/Assets/Scripts/DatasetParser.cs:32-35 | each line read adds its row, if it has one, after those of the lines before |
| DatasetParser.ParseOutputLine | Source/Assets/Scripts/DatasetParser.cs:34-50 | a row of the output format has a 32-bit id and frame |
| DatasetParser.OutputRow | Source/Assets/Scripts/DatasetParser.cs:42-52 | with five fields, the row carries 32-bit id and frame |
| DatasetParser.OutputLineFields | Source/Assets/Scripts/DatasetParser.cs:39-72 | a line of five comma-free valid fields reads back as its id and frame, the mirrored `x`, `y` and the heading turned by 90 degrees |
| DatasetParser.CommaJoined | Source/Assets/Scripts/DatasetParser.cs:39 | comma-free fields joined with commas split back into those fields and make a non-blank line |
| DatasetParser.OutputRowOf | Source/Assets/Scripts/DatasetParser.cs:42-52 | five valid fields give the row with mirrored `x` and the heading plus 90 |
| DatasetParser.LoadOutputData | Source/Assets/Scripts/DatasetParser.cs:27-88 | the output loader gives exactly the output table of the text |
| DatasetParser.ParseObsmatLine | Source/Assets/Scripts/DatasetParser.cs:171-213 | an obsmat row always has heading 0 |
| DatasetParser.ObsmatRow | Source/Assets/Scripts/DatasetParser.cs:177-213 | with eight fields the row has heading 0 |
| DatasetParser.SplitJoinBlank | Source/Assets/Scripts/DatasetParser.cs:176 | blank-free fields joined with single spaces split back into those fields |
| DatasetParser.NonEmptyKeeps | Source/Assets/Scripts/DatasetParser.cs:176 | dropping empty entries keeps a list of non-empty fields as it is |
| DatasetParser.ColumnsRoundTrip | Source/Assets/Scripts/DatasetParser.cs:119-176 | non-empty blank-free columns joined with spaces split back into those columns |
| DatasetParser.ObsmatLineFields | Source/Assets/Scripts/DatasetParser.cs:176-213 | a line of eight valid columns reads back as the id and frame truncated from columns 1 and 0, position from columns 2 and 4, heading 0 |
| DatasetParser.ObsmatRowOf | Source/Assets/Scripts/DatasetParser.cs:179-213 | the truncating casts give the id and frame of the row |
| DatasetParser.JoinStarts | Source/Assets/Scripts/DatasetParser.cs:171 | a joined line starting with a non-empty field starts with that field's first character |
| DatasetParser.LoadObsmatData | Source/Assets/Scripts/DatasetParser.cs:164-226 | the obsmat loader gives exactly the obsmat table of the text |
| DatasetParser.CleanLineCutsComment | Source/Assets/Scripts/DatasetParser.cs:233-236 | a line with the comment marker " - " is cut before it and trimmed |
| DatasetParser.PointOfFields | Source/Assets/Scripts/DatasetParser.cs:122-152 | four valid columns give the control point's position, frame and heading |
| DatasetParser.PointLineFields | Source/Assets/Scripts/DatasetParser.cs:115-152 | a line whose cleaned text is four valid space-joined columns gives that control point |
| DatasetParser.SplinesKeys | Source/Assets/Scripts/DatasetParser.cs:101-111 | the spline loop adds ids `1, 2, ...` in order, one per spline begun, and never changes the lists already made |
| DatasetParser.AnnotationKeys | Source/Assets/Scripts/DatasetParser.cs:94-111 | an annotation table has ids exactly `1..k` for some `k` up to the spline count (none when the count line fails) |
| DatasetParser.ReadPoints | Source/Assets/Scripts/DatasetParser.cs:113-159 | the control-point loop consumes up to the stated count of lines, stopping at the end of the text, and keeps the points of those that parse |
| DatasetParser.LoadAnnotationData | Source/Assets/Scripts/DatasetParser.cs:90-162 | the annotation loader gives exactly the annotation table of the text |
| DatasetParser.ReadSplines | Source/Assets/Scripts/DatasetParser.cs:101-161 | the spline loop agrees with the recursive definition of the splines |
| DatasetParser.Parse | Source/Assets/Scripts/DatasetParser.cs:15-25 | the dispatcher gives exactly the table of the chosen format |
| DatasetParser.CollectOnGround | Source/Assets/Scripts/DatasetParser.cs:54-80 | every point that the row formats produce lies on the ground |
| DatasetParser.SplinesOnGround | Source/Assets/Scripts/DatasetParser.cs:131-153 | every control point lies on the ground |
| DatasetParser.ParsedOnGround | Source/Assets/Scripts/DatasetParser.cs:15-25 | whatever the format, every parsed position lies on the ground |
| AgentState.PredictCollision | Source/Assets/Scripts/AgentState.cs:129-162 | the collision test always gives a verdict, "Collide" or "Pass" |
| AgentState.SqrNonNeg | Source/Assets/Scripts/AgentState.cs:134 | a squared magnitude is never negative |
| AgentState.MovingApartPasses | Source/Assets/Scripts/AgentState.cs:134-144 | agents moving apart, or at the same velocity, are always predicted to pass |
| AgentState.SqrAt | Source/Assets/Scripts/AgentState.cs:152 | the squared distance after time `s` is the quadratic in `s` of the relative position and velocity |
| AgentState.ClosestTimeIsClosest | Source/Assets/Scripts/AgentState.cs:139-152 | the time of closest approach gives the least distance over all times, so the test checks the true closest approach |
| AgentState.Push | Source/Assets/Scripts/AgentState.cs:250-255 | a sighting appends the position as the newest entry and keeps at most five, dropping the oldest |
| AgentState.HistoryIsLastSeen | Source/Assets/Scripts/AgentState.cs:246-255 | from no history, the window holds exactly the last five positions seen, or all of them while fewer |
| AgentState.DirectionOf | Source/Assets/Scripts/AgentState.cs:264-272 | the direction is always known, and is East or West exactly when the local sideways movement outweighs the forward one |
| AgentState.AbsScale | Source/Assets/Scripts/AgentState.cs:264-265 | scaling by a positive factor scales a magnitude by the same factor |
| AgentState.DirectionOfScaled | Source/Assets/Scripts/AgentState.cs:264-272 | the direction does not depend on the movement's length, so normalizing it first changes nothing |
| AgentState.ScaleKeepsOrder | Source/Assets/Scripts/AgentState.cs:265-271 | a positive scale keeps the order of two numbers |
| AgentState.FullMotion | Source/Assets/Scripts/AgentState.cs:274-295 | with a full window: "stop moving" exactly when the speed falls below 0.1 from at least 0.1, "start moving" for the reverse, "keep moving" when at least 0.1 throughout, "stopped" otherwise |
| AgentState.PartialMotion | Source/Assets/Scripts/AgentState.cs:319-328 | with a partial window the motion is "keep moving" exactly at speed at least 0.1, otherwise "stopped" |
| AgentState.ReadingOf | Source/Assets/Scripts/AgentState.cs:241-333 | a history of one position leaves direction, motion and collision unknown and the velocity zero; a full window of five gives the velocity as the movement over five frame times and the motion from that speed and the speed of the first four positions over four frame times; a partial window gives the movement over its number of steps and only "keep moving" or "stopped"; longer histories always give a direction and a collision verdict |
| AgentState.ZoneMirror | Source/Assets/Scripts/AgentState.cs:192-210 | mirroring the angle swaps Left and Right and keeps Center |
| AgentState.DistanceWordMonotone | Source/Assets/Scripts/AgentState.cs:431-443 | a farther agent never gets a nearer distance word |
| AgentState.ScanKeepsHistoriesBounded | Source/Assets/Scripts/AgentState.cs:246-255 | no history ever holds more than five positions over a detection pass |
| AgentState.ScanObstacleFlags | Source/Assets/Scripts/AgentState.cs:167-210 | after a pass a zone's obstacle flag is set exactly when some non-agent candidate in view lies in that zone |
| AgentState.ScanVisibleEntries | Source/Assets/Scripts/AgentState.cs:177-337 | a pass only appends to the visible list, exactly one entry per sighting, in candidate order, each with the sighted agent's id, relative position, distance and zone |
| AgentState.SightingsFromSeen | Source/Assets/Scripts/AgentState.cs:177-230 | every sighting is an agent candidate that is in view and reached by the ray |
| AgentState.SeenGivesSighting | Source/Assets/Scripts/AgentState.cs:177-230 | every candidate agent in view and reached by the ray gives a sighting, numbered by the sightings of the candidates before it |
| AgentState.Describe | Source/Assets/Scripts/AgentState.cs:465-469 | one description per agent of a zone |
| AgentState.InZone | Source/Assets/Scripts/AgentState.cs:454 | the agents grouped under a zone are among the visible agents and all in that zone |
| AgentState.ZonesPartition | Source/Assets/Scripts/AgentState.cs:454 | every visible agent falls in exactly one of the three zone groups |
| AgentState.ZonePart | Source/Assets/Scripts/AgentState.cs:457-509 | a zone contributes one sentence part exactly when it has an agent |
| AgentState.ObstacleZones | Source/Assets/Scripts/AgentState.cs:511-514 | the obstacle zone list names exactly the flagged zones, each once |
| AgentState.PartsCount | Source/Assets/Scripts/AgentState.cs:455-521 | the sentence has one part per zone with agents plus one when any obstacle flag is set |
| AgentState.ZonePartDiffers | Source/Assets/Scripts/AgentState.cs:459-499 | a zone part begins differently from the nothing-around sentence |
| AgentState.ObstaclePartDiffers | Source/Assets/Scripts/AgentState.cs:516-519 | the obstacle part begins differently from the nothing-around sentence |
| AgentState.PartDiffers | Source/Assets/Scripts/AgentState.cs:455-519 | the first sentence part, when there is one, differs from the nothing-around sentence within the first eleven characters |
| AgentState.SentenceNothingIff | Source/Assets/Scripts/AgentState.cs:447-522 | the sentence is "There are no people or obstacles around." exactly when no agent is visible and no obstacle flag is set |
| AgentState.JoinDiffers | Source/Assets/Scripts/AgentState.cs:521 | a space-joined sentence whose first part differs early from the nothing-around sentence is not that sentence |
| AgentState.Others | Source/Assets/Scripts/AgentState.cs:413 | the group text lists the members of the agent's group except the agent itself, and only those |
| AgentState.IntTexts | Source/Assets/Scripts/AgentState.cs:413 | each listed member is written as its decimal text |
| AgentState.ParseAll | Source/Assets/Scripts/AgentState.cs:413 | one parse per written member |
| AgentState.GroupInfoRoundTrip | Source/Assets/Scripts/AgentState.cs:409-419 | splitting the group text on ';' and parsing gives back the other members in order |
| AgentState.DetectAll | Source/Assets/Scripts/AgentState.cs:177-340 | the candidate loop gives exactly the scan of all candidates in order |
| AgentState.Observer.constructor | Source/Assets/Scripts/AgentState.cs:50-72 | the agent starts with group text "x", time step 0, last saved frame -1, no histories, no visible agents and no CSV |
| AgentState.Observer.Start | Source/Assets/Scripts/AgentState.cs:74-111 | the goal becomes the last position of the agent's track when it has one, and the group text is assigned; the rest is unchanged |
| AgentState.Observer.AssignGroupInfo | Source/Assets/Scripts/AgentState.cs:409-419 | the group text is the other members joined with ';' when the manager lists the agent, else "x"; nothing else changes |
| AgentState.Observer.DetectVisibleAgents | Source/Assets/Scripts/AgentState.cs:164-341 | the visible list and obstacle flags restart; without a camera or with at most one hit nothing is found, otherwise they are the scan of the hits, which also extends the histories; the rest is unchanged |
| AgentState.Observer.RecordState | Source/Assets/Scripts/AgentState.cs:343-386 | the time step is the old counter, which advances by one with 32-bit wrap; the action, last frame and goal distance are recorded and the group text kept; when saving is on and the step is positive, the detection of the old histories is stored and a row is appended whose sentence is that detection's; otherwise rows, detection state and image path are unchanged |
| AgentState.Observer.SaveRow | Source/Assets/Scripts/AgentState.cs:357-572 | the CSV is created if needed, the detection of the old histories is stored, and one row is appended with the old state, the captured image path or "N/A", and the sentence of that detection |
| AgentReplay.ParseStep | Source/Assets/Scripts/AgentReplay.cs:53-75 | a line yields a step only when, once trimmed, it is non-empty and has more than six comma fields; the step holds the time step, the action and the recorded position of the first six fields |
| AgentReplay.ParseReals | Source/Assets/Scripts/AgentReplay.cs:65-67 | the fields parse all together or the line fails (the `try` around the parses); a success has one number per field |
| AgentReplay.LoadSkipsBadLines | Source/Assets/Scripts/AgentReplay.cs:54-74 | a line that is empty, short or fails to parse is skipped and the lines after it load as if it were absent; a good line adds its step in place |
| AgentReplay.Trajectory | Source/Assets/Scripts/AgentReplay.cs:90-121 | the replay has one position per step and begins at the first step's recorded position |
| AgentReplay.TrajectoryStep | Source/Assets/Scripts/AgentReplay.cs:104-121 | each later position is the one before plus the previous step's action, as a planar velocity, times the step difference times the frame duration |
| AgentReplay.TrajectoryKeepsHeight | Source/Assets/Scripts/AgentReplay.cs:110-111 | the replayed agent stays at the height of the first recorded position, since the velocity has a zero `y` |
| AgentReplay.TrajectoryAtRest | Source/Assets/Scripts/AgentReplay.cs:110-121 | when every action is zero the agent never leaves its first recorded position |
| AgentReplay.EffectiveSpeed | Source/Assets/Scripts/AgentReplay.cs:137 | the multiplier used for the wait is always positive and is the configured one when that is positive |
| AgentReplay.Replayer.constructor | Source/Assets/Scripts/AgentReplay.cs:21-26 | the component starts with its frame duration and speed multiplier and no loaded steps |
| AgentReplay.Replayer.LoadReplayData | Source/Assets/Scripts/AgentReplay.cs:47-78 | the loop appends exactly the parsed steps of the lines after the header, in file order |
| AgentReplay.Replayer.ReplayMovement | Source/Assets/Scripts/AgentReplay.cs:99-139 | the coroutine visits the replayed trajectory and waits, after each move, the elapsed time over the speed multiplier, which it resets to 1 on the first move when not positive |
| AgentReplay.Replayer.StartReplay | Source/Assets/Scripts/AgentReplay.cs:80-97 | with no loaded steps nothing is replayed; otherwise the positions are the trajectory from the first recorded one, there is one wait per move, each the step's elapsed time over the speed multiplier, and the multiplier becomes 1 when it was not positive and the replay moves at all |
| AgentReplay.Replayer.Start | Source/Assets/Scripts/AgentReplay.cs:29-45 | without a CSV file or a prefab nothing is loaded or replayed and the multiplier is kept; otherwise the file's steps are appended and replayed, with the waits and the multiplier as StartReplay states them |
| GizmoGrid.CellSizeFacts | Source/Assets/Scripts/GizmoGridManager.cs:33-34 | `n` cells of the computed size span exactly the bounds, and the size is non-zero, or positive, when the bounds are |
| GizmoGrid.CellOf | Source/Assets/Scripts/GizmoGridManager.cs:35-38 | the rounded and clamped cell index always lies in `[0, n)` |
| GizmoGrid.WorldToIJ | Source/Assets/Scripts/GizmoGridManager.cs:31-40 | every world point maps to a cell of the grid |
| GizmoGrid.IJToIndex | Source/Assets/Scripts/GizmoGridManager.cs:42 | every cell's flat index lies in the colour array |
| GizmoGrid.MulMonotone | Source/Assets/Scripts/GizmoGridManager.cs:42 | multiplying by a non-negative count keeps the order |
| GizmoGrid.IndexBounds | Source/Assets/Scripts/GizmoGridManager.cs:42 | a cell's row-major index lies in `[0, n*n)` |
| GizmoGrid.IndexInjective | Source/Assets/Scripts/GizmoGridManager.cs:42 | two cells share a flat index exactly when they are the same cell |
| GizmoGrid.DivCancel | Source/Assets/Scripts/GizmoGridManager.cs:35-48 | dividing by a non-zero cell size undoes multiplying by it |
| GizmoGrid.ShiftCancel | Source/Assets/Scripts/GizmoGridManager.cs:35-48 | the index computation undoes the centre computation before rounding |
| GizmoGrid.CellOfCenter | Source/Assets/Scripts/GizmoGridManager.cs:35-48 | the centre of cell `k` maps back to cell `k` |
| GizmoGrid.CenterRoundTrip | Source/Assets/Scripts/GizmoGridManager.cs:31-50 | a cell's centre maps back to that cell |
| GizmoGrid.ClampedRoundNear | Source/Assets/Scripts/GizmoGridManager.cs:35-37 | for a point inside the bounds, rounding then clamping moves the cell coordinate by at most half a cell |
| GizmoGrid.CellOfNearest | Source/Assets/Scripts/GizmoGridManager.cs:35-38 | a point inside the bounds lies within half a cell of the centre of its cell |
| GizmoGrid.NearestCell | Source/Assets/Scripts/GizmoGridManager.cs:20-40 | a point inside the bounds is marked in the cell whose centre is nearest to it, within half a cell on each axis |
| GizmoGrid.Grid.constructor | Source/Assets/Scripts/GizmoGridManager.cs:7-12 | the grid starts with its bounds, size and plane height and no colour array |
| GizmoGrid.Grid.OnValidate | Source/Assets/Scripts/GizmoGridManager.cs:14-18 | the size becomes at least 1, and the colour array is kept when it holds `n*n` cells and is otherwise replaced by a new, clear one |
| GizmoGrid.Grid.MarkNearestCell | Source/Assets/Scripts/GizmoGridManager.cs:21-26 | exactly the colour of the point's cell changes, to the given colour |
| GizmoGrid.Grid.MarkNearestCellXZ | Source/Assets/Scripts/GizmoGridManager.cs:29 | a plane point is marked as the world point `(x, 0, z)` |
| Sorting.SortByPermutes | Source/Assets/NEWQA/Anchor/ZaraPlaybackWithAnchor0.cs:437 | sorting by a key gives an ordering of the same elements, with keys non-decreasing |
| Sorting.InsertBySorted | Source/Assets/NEWQA/Anchor/CaseTagRecorder_TagBased.cs:1253 | inserting into a sorted sequence keeps it sorted |
| Sorting.InsertByAdds | Source/Assets/NEWQA/Anchor/CaseTagRecorder_TagBased.cs:1253 | inserting adds exactly the one element |
| Text.Trim | Source/Assets/Scripts/AgentReplay.cs:53 | a trimmed string neither starts nor ends with white space |
| Text.TrimKeeps | Source/Assets/Scripts/AgentReplay.cs:53 | trimming a string without outer white space gives it back |
| Text.Split | Source/Assets/Scripts/AgentReplay.cs:49-56 | splitting gives at least one field and no field holds a separator |
| Text.SplitJoin | Source/Assets/Scripts/AgentReplay.cs:56 | splitting fields joined with a separator none of them holds gives the fields back |
| Text.ReadLines | Source/Assets/NEWQA/Anchor/ZaraPlaybackWithAnchor0.cs:396-401 | no line read holds a line break |
| Text.ParseInt32 | Source/Assets/Scripts/DatasetParser.cs:42-45 | a parsed integer fits 32 bits |
| Text.IntToStringParses | Source/Assets/Scripts/DatasetParser.cs:42-45 | every 32-bit integer's decimal text parses back to it |
| Text.FormatFixed | Source/Assets/NEWQA/Recon/RecorderCounter.cs:96 | a fixed-point number's text holds no ',' |
| Json.CastInts | Source/Assets/NEWQA/Anchor/CaseTagRecorder_TagBased.cs:1009 | casting an array succeeds iff every item casts, giving one 32-bit integer per item in order |
| Base.Wrap32 | Source/Assets/Scripts/AgentReplay.cs:116 | a 32-bit result, equal to the value when it already fits |
| Base.RoundHalfEven | Source/Assets/Scripts/GizmoGridManager.cs:35-36 | the rounded integer is within one half of the value |
| Base.FilterMapFrom | Source/Assets/Scripts/AgentReplay.cs:51-76 | every element kept comes from some input whose conversion gave it |

## Findings

| source | as written | input that shows it | evidently intended | confidence | as-written member | corrected member |
|---|---|---|---|---|---|---|
| Source/Assets/NEWQA/Recon/MultiAgentChunkReplayManager.cs:335 | the frame loop counts with a 32-bit `int` from `_globalMin` while the counter is at most `_globalMax` | a chunk file listing frame 2147483647, so `_globalMax == int.MaxValue`: `gf++` then wraps to `int.MinValue`, which passes the test again | play every frame from the minimum to the maximum once, then stop | medium, not executed | ChunkReplay.CoPlayEndlessAtIntMax | ChunkReplay.ReplayManager.Play |

## Left out

Preconditions narrower than the source (the source divides by these values and
goes on with an infinity or NaN; the model does not represent float
infinities):

- GizmoGrid.WorldToIJ: requires non-zero bounds width and depth. With a zero
  extent the source's division gives NaN, which it clamps to cell 0.
- GizmoGrid.CenterRoundTrip: requires non-zero bounds, for the same reason.
- GizmoGrid.NearestCell: requires positive bounds and a point inside them.
- GizmoGrid.Grid.MarkNearestCell: requires non-zero bounds, for the same reason.
- GizmoGrid.Grid.MarkNearestCellXZ: requires non-zero bounds, for the same reason.
- GizmoGrid.Grid: the overflow of `n*n` in the buffer size is not modelled.
- AgentManager.Speed: requires a non-zero frame duration (`1/frameRate`).
- AgentManager.PoseAt: requires a non-zero frame duration.
- AgentManager.PoseOnPath: requires a non-zero frame duration.
- AgentManager.Tick: requires a non-zero frame duration and a non-zero `TimeStepInterval`.
- AgentManager.TickRecordsOnce: requires the same two non-zero values.
- AgentManager.StepsOf: requires the same two non-zero values.
- AgentManager.SortAndSpawn: requires the same two non-zero values.
- AgentManager.PlayFrames: requires the same two non-zero values.
- AgentManager.StepAgent: requires the same two non-zero values.
- AgentManager.Manager.constructor: requires the same two non-zero values.
- AgentManager.Manager.Start: requires the same two non-zero values, and starts
  from no controllers, since the engine calls `Start` once.
- AgentManager.Untransform: requires a non-zero scale.
- AgentManager.TransformRoundTrip: requires a non-zero scale.
- CrowdReplayer.TimeLeft: requires a positive target frame rate. For 0 the
  source's float division gives infinity or NaN.
- CrowdReplayer.DecisionFor: requires a positive target frame rate.
- CrowdReplayer.Decisions: requires a positive target frame rate.
- CrowdReplayer.Replayer.constructor: requires a positive target frame rate.
- CrowdReplayer.Replayer.Update: requires a positive target frame rate.
- CrowdReplayer.Replayer.Run: requires a positive target frame rate. It also
  requires the maximum frame to be at most `int.MaxValue - 6`, so the frame
  counter stays in 32 bits while it runs past the end.
- AgentState.ReadingOf: requires a positive `fixedDeltaTime`, the divisor of
  the velocity estimate.
- AgentState.StepScan: requires a positive `fixedDeltaTime`.
- AgentState.ScanAll: requires a positive `fixedDeltaTime`.
- AgentState.DetectAll: requires a positive `fixedDeltaTime`.
- AgentState.Observer.DetectVisibleAgents: requires a positive `fixedDeltaTime`.
- AgentState.Observer.RecordState: requires a positive `fixedDeltaTime`.
- AgentState.Observer.SaveRow: requires a positive `fixedDeltaTime`.
- AgentReplay.Replayer.ReplayMovement: requires at least one replay row.
  `StartReplay`, its only caller, guards this.

Text handling narrowed to ASCII (the model has no Unicode tables):

- Text.Trim: strips only the ASCII white space characters (blank, tab, line
  feed, carriage return, vertical tab, form feed). .NET `Trim` also strips
  U+00A0 and the other Unicode white space.
- Text.IsBlank: the same ASCII set. A line holding only U+00A0 is skipped by
  `string.IsNullOrWhiteSpace` in the source and kept by the model.
- TagSensing.ParseAgentId: the digit run after the prefix is ASCII digits.
  The source's Regex `\d` also matches other Unicode digits, after which
  `int.TryParse` fails, so "agent_12" followed by a non-ASCII digit gives -1
  in the source and 12 in the model.
- ZaraAnchor.ParseIdFromName: the same narrowing of the trailing `\d+` run;
  a non-ASCII digit inside it gives -1 in the source and the ASCII digits
  after it in the model.
- Text.ParseReal: reads `NumberStyles.Float`. `NumberStyles.Any`, which
  `DatasetParser` passes, also accepts thousands separators, a currency
  symbol and a parenthesised negative; the model rejects those.
- Text.StartsWith: ordinal. The culture-sensitive `StartsWith` of the scene
  scan (`TagRecorder.SceneIds`) may also match text that differs only in
  ignorable or composed characters.
- Text.ToLower: folds ASCII letters only, so the `OrdinalIgnoreCase` suffix
  test of `TagLoad.InputFiles` does not fold other letters.

Integer conversions and file order:

- DatasetParser.ObsmatRow: the C# `(int)` cast of the frame and id floats is
  truncation without bound. For a float outside the 32-bit range the cast's
  result is unspecified in C#, and the model does not give it a value.
- ChunkReplay.ReplayManager.LoadAll: reads the files in the order given.
  `Directory.GetFiles` returns them in no specified order, and with
  `sortFilesByName` set (the default) the source orders them by file name
  with the culture's string comparer; the caller supplies the order, so the
  agent order and the first-minimum ties follow it.

Engine and runtime behaviour that is not modelled:

- Floating point: reals are exact. Float32 rounding, `float.Parse` culture and
  NaN are not modelled. `Vector3.magnitude`, `normalized` and `Vector3.Angle`
  are abstract functions in `Geometry`. `TagFrames.NearAgentIffSomeWithin`
  relies only on a magnitude being non-negative.
- Sorting: `List.Sort` and `Array.Sort` are unstable. The model's key sort is
  stable, so elements with equal keys keep their input order.
- JSON: Newtonsoft's parser and serializer are abstract (`Json`). A value
  either casts to the field type or not.
- Dictionary order: .NET `Dictionary` enumeration order is given as an explicit
  key sequence.
- Physics and rendering: `Physics.OverlapSphere`, `Raycast`, `ClosestPoint`,
  the camera and the renderer are inputs, as candidate sets and capture worlds.
  Gizmos, labels, colours and `OnGUI` are left out.
- File system: `Directory` and `File` calls are left out, as are
  `ClearExistingOutputs` and `ResolveFolders`. Written files are returned as
  appended rows. `MakeRelativePath`, which uses `Uri`, is modelled as path
  concatenation.
- Coroutines and waits: `WaitForSeconds` and the one-frame wait before the
  tagger's runtime agents are set up are modelled by calling the next step
  directly. Waits are returned as values.
- TagRecorder: the global frame, which the source reads by reflection, is the
  input of each tick. The early exit of the hit loop is modelled as the first
  hit (`HitOf`). The `Directory.CreateDirectory` call for an agent's image
  folder, which runs outside any `try` and would throw out of `LateUpdate`,
  is left out; a capture whose render or file write throws is modelled
  (`CaptureWorld.failing`), recording an empty path and marking the side
  captured.
- TagSensing.ComputeTaggedDistances: the candidate sequences are the filled
  prefix of the 512-slot overlap buffers; the cap itself belongs to the
  physics query and is not modelled.
- RecorderCounter.Recorder.AnalyzeFrame: `CaptureCamera` has a `finally` but
  no `catch`, so a failing render or `File.WriteAllBytes` throws out of
  `AnalyzeFrame` after the checks are stored and before the row is written.
  The model always takes the capture to succeed and writes the row with its
  path.
- ChunkReplay: `Slerp` and `LookRotation` are left out; the rotations are not
  modelled.
- CrowdReplayer: `captureFramerate`, the output folder timestamp and the
  per-entry rotation quaternion are left out. Recorder calls are returned as
  decisions.
- AgentManager: `currentFrame` is a float in the source and an integer here.
  The random prefab choice, `SetInitialPosition` and the propagation of
  `isSaveData` to the spawned agents are left out. `RemoveAgent` is not
  interleaved with a run. The per-agent `TimeStepInterval` is one manager
  constant. The key press in `Update` is modelled by `StartMovingAgents`.
- AgentState: the rows leave out the body and head rotation columns. The
  status text and the F4 and F2 key handling are left out.
- AgentReplay: the position-error logs and `LookRotation` are left out.
- ZaraPlayback: the frame advance and wrap in `Update`, `SpawnNPCs`,
  `SetupAnchor`, `EvaluateAndApplyNPCTransforms`, the animator, the anchor
  coroutines and the server request are left out.
- ZaraAnchor: `MapToWorld`, the camera and the server loop are left out. The
  .NET Regex rule that `$` also matches before a trailing newline is not
  modelled. An anchor sample at frame `int.MaxValue` never moves the start
  frame, as in the source, so the lookup then reports no start.

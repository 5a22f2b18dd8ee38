/** The per-frame classifiers of the anchor tagger
    (`CaseTagRecorder_NoAnchors`): its settings, the distance-to-state rule,
    environment-kind and ground-tag resolution over a collider's ancestor
    chain, per-category thresholding of proximity query results, and
    agent-id parsing from object names.

    Unity's physics queries are inputs here: an overlap query yields a list
    of `Candidate`s (trigger flag, tags of the collider's transform and its
    ancestors from the collider upwards, distance to the closest point), and
    the ground raycast yields a list of `RayHit`s. */
module TagSensing {
  import opened Base
  import opened Text
  import opened Sorting

  /** A near radius and a hit radius for one category. */
  datatype Radii = Radii(near: real, hit: real)

  /** The recorder's inspector settings. */
  datatype Config = Config(
    timePerFrame: real,
    tagObstacle: string, tagBuilding: string, tagEntarance: string, tagVehicle: string,
    /** The ground tags in the order they are tested at each node. */
    groundTags: seq<string>,
    agent: Radii, obstacle: Radii, building: Radii, entarance: Radii, vehicle: Radii,
    onlyUseTriggerColliders: bool,
    groupCloseDist: real, groupFarDist: real, goalCloseDist: real, goalFarDist: real,
    outputSuffix: string,
    recordOnlyFramesInJsonl: bool,
    agentNamePrefix: string,
    captureCameraImages: bool,
    imagesFolderName: string,
    saveAsJPG: bool,
    overwriteExistingImages: bool,
    geometry: Geometry)

  /** The defaults declared by the component. */
  function DefaultConfig(g: Geometry): Config
  {
    Config(
      0.05,
      "Obstacle", "Building", "Entarance", "Vehicle",
      ["sidewalk", "crosswalk", "road", "grass", "inside"],
      Radii(2.0, 0.7), Radii(2.0, 0.7), Radii(2.0, 0.7), Radii(2.0, 0.7), Radii(2.0, 0.7),
      true,
      2.0, 6.0, 2.0, 10.0,
      "_tagged",
      true,
      "agent_",
      true,
      "images",
      true,
      false,
      g)
  }

  function ClampRadii(r: Radii): Radii { Radii(MaxR(0.0, r.near), MaxR(0.0, r.hit)) }

  predicate RadiiNonNegative(r: Radii) { r.near >= 0.0 && r.hit >= 0.0 }

  /** `OnValidate`: every radius is clamped to be non-negative, and settings
      that already satisfy this are left as they are. */
  function OnValidate(c: Config): (r: Config)
    ensures RadiiNonNegative(r.agent) && RadiiNonNegative(r.obstacle) && RadiiNonNegative(r.building)
    ensures RadiiNonNegative(r.entarance) && RadiiNonNegative(r.vehicle)
    ensures (RadiiNonNegative(c.agent) && RadiiNonNegative(c.obstacle) && RadiiNonNegative(c.building)
             && RadiiNonNegative(c.entarance) && RadiiNonNegative(c.vehicle)) ==> r == c
    ensures r.agent.near == MaxR(0.0, c.agent.near) && r.vehicle.hit == MaxR(0.0, c.vehicle.hit)
  {
    c.(agent := ClampRadii(c.agent), obstacle := ClampRadii(c.obstacle), building := ClampRadii(c.building),
       entarance := ClampRadii(c.entarance), vehicle := ClampRadii(c.vehicle))
  }

  /** `RecomputeEnvMaxRadii`: the query radii for the environment overlap
      queries are the largest near (resp. hit) radius of the four environment
      categories — the agent radii do not take part — floored at 0.0001. */
  function EnvMaxRadii(c: Config): (r: Radii)
    ensures r.near >= 0.0001 && r.hit >= 0.0001
    ensures r.near >= c.obstacle.near && r.near >= c.building.near && r.near >= c.entarance.near && r.near >= c.vehicle.near
    ensures r.hit >= c.obstacle.hit && r.hit >= c.building.hit && r.hit >= c.entarance.hit && r.hit >= c.vehicle.hit
    ensures r.near in {0.0001, c.obstacle.near, c.building.near, c.entarance.near, c.vehicle.near}
    ensures r.hit in {0.0001, c.obstacle.hit, c.building.hit, c.entarance.hit, c.vehicle.hit}
  {
    var n := MaxR(c.obstacle.near, MaxR(c.building.near, MaxR(c.entarance.near, c.vehicle.near)));
    var h := MaxR(c.obstacle.hit, MaxR(c.building.hit, MaxR(c.entarance.hit, c.vehicle.hit)));
    Radii(MaxR(0.0001, n), MaxR(0.0001, h))
  }

  /** `DistToState`: a negative distance (the "unknown" marker) is "none";
      otherwise "close" up to the close threshold, "far" from the far
      threshold on, and "mid" in between. */
  function DistToState(d: real, closeTh: real, farTh: real): (s: string)
    ensures s == "none" <==> d < 0.0
    ensures s == "close" <==> 0.0 <= d <= closeTh
    ensures s == "far" <==> 0.0 <= d && closeTh < d && farTh <= d
    ensures s == "mid" <==> 0.0 <= d && closeTh < d < farTh
  {
    if d < 0.0 then "none"
    else if d <= closeTh then "close"
    else if d >= farTh then "far"
    else "mid"
  }

  function StateRank(s: string): int
  {
    if s == "close" then 0 else if s == "mid" then 1 else 2
  }

  /** Moving further away never makes the state closer. */
  lemma DistToStateMonotone(d1: real, d2: real, closeTh: real, farTh: real)
    requires 0.0 <= d1 <= d2
    ensures StateRank(DistToState(d1, closeTh, farTh)) <= StateRank(DistToState(d2, closeTh, farTh))
  {
  }

  /** The environment kinds, in increasing priority. */
  datatype EnvKind = NoEnv | Obstacle | Building | Entarance | Vehicle

  /** Which kind a collider belongs to: the highest-priority category whose
      tag appears anywhere on its ancestor chain. */
  function EnvKindOf(c: Config, chain: seq<string>): EnvKind
  {
    if c.tagVehicle in chain then Vehicle
    else if c.tagEntarance in chain then Entarance
    else if c.tagBuilding in chain then Building
    else if c.tagObstacle in chain then Obstacle
    else NoEnv
  }

  /** `GetEnvKindFromHierarchy`: walks the chain from the collider to the
      root collecting which category tags occur, then picks by priority
      Vehicle > Entarance > Building > Obstacle. */
  method GetEnvKindFromHierarchy(c: Config, chain: seq<string>) returns (k: EnvKind)
    ensures k == EnvKindOf(c, chain)
    ensures k == NoEnv <==> c.tagObstacle !in chain && c.tagBuilding !in chain && c.tagEntarance !in chain && c.tagVehicle !in chain
    ensures k == Obstacle ==> c.tagObstacle in chain
  {
    var hasObs, hasBld, hasEnt, hasVeh := false, false, false, false;
    var i := 0;
    while i < |chain|
      invariant 0 <= i <= |chain|
      invariant hasObs == (c.tagObstacle in chain[..i])
      invariant hasBld == (c.tagBuilding in chain[..i])
      invariant hasEnt == (c.tagEntarance in chain[..i])
      invariant hasVeh == (c.tagVehicle in chain[..i])
    {
      assert chain[..i + 1] == chain[..i] + [chain[i]];
      if chain[i] == c.tagObstacle { hasObs := true; }
      if chain[i] == c.tagBuilding { hasBld := true; }
      if chain[i] == c.tagEntarance { hasEnt := true; }
      if chain[i] == c.tagVehicle { hasVeh := true; }
      i := i + 1;
    }
    assert chain[..i] == chain;
    if hasVeh { k := Vehicle; }
    else if hasEnt { k := Entarance; }
    else if hasBld { k := Building; }
    else if hasObs { k := Obstacle; }
    else { k := NoEnv; }
  }

  /** The ground class of one node: the first ground tag (in test order)
      equal to the node's tag. */
  function NodeGround(tags: seq<string>, tag: string): Option<string>
  {
    if tags == [] then None
    else if tag == tags[0] then Some(tags[0])
    else NodeGround(tags[1..], tag)
  }

  /** The ground class of a chain: that of the nearest node that has one. */
  function ChainGround(c: Config, chain: seq<string>): Option<string>
  {
    if chain == [] then None
    else if NodeGround(c.groundTags, chain[0]).Some? then NodeGround(c.groundTags, chain[0])
    else ChainGround(c, chain[1..])
  }

  /** Reference reading of the ground class of a chain: the tag of the first
      node whose tag is a ground tag, or nothing. */
  lemma {:induction false} ChainGroundIsFirstGroundNode(c: Config, chain: seq<string>)
    ensures ChainGround(c, chain).None? <==> forall k :: 0 <= k < |chain| ==> chain[k] !in c.groundTags
    ensures ChainGround(c, chain).Some? ==>
      exists k :: 0 <= k < |chain| && chain[k] == ChainGround(c, chain).value && chain[k] in c.groundTags
        && forall j :: 0 <= j < k ==> chain[j] !in c.groundTags
  {
    if chain != [] {
      NodeGroundIsMember(c.groundTags, chain[0]);
      ChainGroundIsFirstGroundNode(c, chain[1..]);
      if ChainGround(c, chain).Some? && NodeGround(c.groundTags, chain[0]).None? {
        var k :| 0 <= k < |chain[1..]| && chain[1..][k] == ChainGround(c, chain[1..]).value && chain[1..][k] in c.groundTags
          && forall j :: 0 <= j < k ==> chain[1..][j] !in c.groundTags;
        assert chain[k + 1] == chain[1..][k];
        forall j | 0 <= j < k + 1 ensures chain[j] !in c.groundTags {
          if j > 0 { assert chain[j] == chain[1..][j - 1]; }
        }
      }
      if ChainGround(c, chain).None? {
        forall k | 0 <= k < |chain| ensures chain[k] !in c.groundTags {
          if k > 0 { assert chain[k] == chain[1..][k - 1]; }
        }
      }
    }
  }

  lemma {:induction false} NodeGroundIsMember(tags: seq<string>, tag: string)
    ensures NodeGround(tags, tag).Some? <==> tag in tags
    ensures NodeGround(tags, tag).Some? ==> NodeGround(tags, tag).value == tag
  {
    if tags != [] {
      NodeGroundIsMember(tags[1..], tag);
      assert tags == [tags[0]] + tags[1..];
    }
  }

  /** `GetGroundTagFromHierarchy`: walks up from the collider and returns the
      first ground tag found, or "unknown". */
  method GetGroundTagFromHierarchy(c: Config, chain: seq<string>) returns (g: string)
    ensures g == (if ChainGround(c, chain).Some? then ChainGround(c, chain).value else "unknown")
  {
    var i := 0;
    while i < |chain|
      invariant 0 <= i <= |chain|
      invariant ChainGround(c, chain) == ChainGround(c, chain[i..])
    {
      var t := 0;
      while t < |c.groundTags|
        invariant 0 <= t <= |c.groundTags|
        invariant NodeGround(c.groundTags, chain[i]) == NodeGround(c.groundTags[t..], chain[i])
      {
        if chain[i] == c.groundTags[t] { return c.groundTags[t]; }
        assert c.groundTags[t..][1..] == c.groundTags[t + 1..];
        t := t + 1;
      }
      assert chain[i..][1..] == chain[i + 1..];
      i := i + 1;
    }
    g := "unknown";
  }

  /** One hit of the downward ground raycast. */
  datatype RayHit = RayHit(distance: real, chain: seq<string>)

  function HitDistance(h: RayHit): real { h.distance }

  /** The hit's ground class, with "unknown" for none. */
  function HitGround(c: Config, h: RayHit): string
  {
    if ChainGround(c, h.chain).Some? then ChainGround(c, h.chain).value else "unknown"
  }

  /** The ground class of the first hit in `hits` whose class is known. */
  function FirstKnownGround(c: Config, hits: seq<RayHit>): string
  {
    if hits == [] then "unknown"
    else if HitGround(c, hits[0]) != "unknown" then HitGround(c, hits[0])
    else FirstKnownGround(c, hits[1..])
  }

  /** `DetectGroundType`: the hits sorted by distance, then the first one
      whose ancestor chain carries a ground tag; "unknown" without one. */
  method DetectGroundType(c: Config, hits: seq<RayHit>) returns (g: string)
    ensures g == FirstKnownGround(c, SortBy(hits, HitDistance))
  {
    if |hits| == 0 { return "unknown"; }
    var sorted := SortBy(hits, HitDistance);
    var i := 0;
    while i < |sorted|
      invariant 0 <= i <= |sorted|
      invariant FirstKnownGround(c, sorted) == FirstKnownGround(c, sorted[i..])
    {
      var r := GetGroundTagFromHierarchy(c, sorted[i].chain);
      if r != "unknown" { return r; }
      assert sorted[i..][1..] == sorted[i + 1..];
      i := i + 1;
    }
    g := "unknown";
  }

  lemma {:induction false} FirstKnownGroundWitness(c: Config, hits: seq<RayHit>)
    ensures FirstKnownGround(c, hits) == "unknown" <==> forall k :: 0 <= k < |hits| ==> HitGround(c, hits[k]) == "unknown"
    ensures FirstKnownGround(c, hits) != "unknown" ==>
      exists k :: 0 <= k < |hits| && HitGround(c, hits[k]) == FirstKnownGround(c, hits)
        && forall j :: 0 <= j < k ==> HitGround(c, hits[j]) == "unknown"
  {
    if hits != [] {
      FirstKnownGroundWitness(c, hits[1..]);
      if FirstKnownGround(c, hits) != "unknown" && HitGround(c, hits[0]) == "unknown" {
        var k :| 0 <= k < |hits[1..]| && HitGround(c, hits[1..][k]) == FirstKnownGround(c, hits[1..])
          && forall j :: 0 <= j < k ==> HitGround(c, hits[1..][j]) == "unknown";
        assert hits[k + 1] == hits[1..][k];
        forall j | 0 <= j < k + 1 ensures HitGround(c, hits[j]) == "unknown" {
          if j > 0 { assert hits[j] == hits[1..][j - 1]; }
        }
      }
      if FirstKnownGround(c, hits) == "unknown" {
        forall k | 0 <= k < |hits| ensures HitGround(c, hits[k]) == "unknown" {
          if k > 0 { assert hits[k] == hits[1..][k - 1]; }
        }
      }
    }
  }

  lemma SameMembers<T>(a: seq<T>, b: seq<T>, x: T)
    requires multiset(a) == multiset(b)
    ensures x in a <==> x in b
  {
    assert x in a <==> x in multiset(a);
    assert x in b <==> x in multiset(b);
  }

  /** Whatever order .NET gives to hits at equal distance, the ground class
      found is that of some hit and every strictly nearer hit has no ground
      tag. */
  lemma GroundIsNearestKnown(c: Config, hits: seq<RayHit>)
    requires FirstKnownGround(c, SortBy(hits, HitDistance)) != "unknown"
    ensures exists h :: (h in hits && HitGround(c, h) == FirstKnownGround(c, SortBy(hits, HitDistance))
      && forall o :: o in hits && o.distance < h.distance ==> HitGround(c, o) == "unknown")
  {
    SortByPermutes(hits, HitDistance);
    NearestKnownInSorted(c, hits, SortBy(hits, HitDistance));
  }

  lemma NearestKnownInSorted(c: Config, hits: seq<RayHit>, s: seq<RayHit>)
    requires SortedBy(s, HitDistance) && multiset(s) == multiset(hits)
    requires FirstKnownGround(c, s) != "unknown"
    ensures exists h :: (h in hits && HitGround(c, h) == FirstKnownGround(c, s)
      && forall o :: o in hits && o.distance < h.distance ==> HitGround(c, o) == "unknown")
  {
    FirstKnownGroundWitness(c, s);
    var g := FirstKnownGround(c, s);
    var k :| 0 <= k < |s| && HitGround(c, s[k]) == g && forall j :: 0 <= j < k ==> HitGround(c, s[j]) == "unknown";
    SameMembers(hits, s, s[k]);
    forall o | o in hits && o.distance < s[k].distance ensures HitGround(c, o) == "unknown" {
      SameMembers(hits, s, o);
      var j :| 0 <= j < |s| && s[j] == o;
      assert j < k;
    }
  }

  /** The ground class is "unknown" exactly when no hit has a ground tag. */
  lemma GroundUnknownIffNoneKnown(c: Config, hits: seq<RayHit>)
    ensures FirstKnownGround(c, SortBy(hits, HitDistance)) == "unknown"
      <==> forall h :: h in hits ==> HitGround(c, h) == "unknown"
  {
    var s := SortBy(hits, HitDistance);
    SortByPermutes(hits, HitDistance);
    FirstKnownGroundWitness(c, s);
    forall h ensures h in hits <==> h in s { SameMembers(hits, s, h); }
  }

  /** One collider returned by an overlap query. */
  datatype Candidate = Candidate(isTrigger: bool, chain: seq<string>, distance: real)

  /** `ShouldConsiderCollider`: with the trigger-only setting, solid
      colliders are ignored. */
  predicate ShouldConsider(c: Config, x: Candidate)
  {
    !(c.onlyUseTriggerColliders && !x.isTrigger)
  }

  /** A candidate that counts for category `k`. */
  predicate CountsFor(c: Config, x: Candidate, k: EnvKind)
  {
    ShouldConsider(c, x) && EnvKindOf(c, x.chain) == k
  }

  function RadiiOf(c: Config, k: EnvKind): Radii
  {
    match k
    case Obstacle => c.obstacle
    case Building => c.building
    case Entarance => c.entarance
    case Vehicle => c.vehicle
    case NoEnv => Radii(0.0, 0.0)
  }

  function MinOpt(a: Option<real>, d: real): Option<real>
  {
    if a.Some? && a.value <= d then a else Some(d)
  }

  /** The least distance of a candidate counting for `k`, scanned left to
      right with a strict comparison. */
  function NearestOf(c: Config, xs: seq<Candidate>, k: EnvKind): Option<real>
  {
    if xs == [] then None
    else
      var before := NearestOf(c, xs[..|xs| - 1], k);
      var x := xs[|xs| - 1];
      if CountsFor(c, x, k) then MinOpt(before, x.distance) else before
  }

  /** `NearestOf` is the minimum over the counting candidates: it is one of
      their distances and no larger than any of them, and it is missing
      exactly when none counts. */
  lemma {:induction false} NearestOfIsMinimum(c: Config, xs: seq<Candidate>, k: EnvKind)
    ensures NearestOf(c, xs, k).None? <==> forall i :: 0 <= i < |xs| ==> !CountsFor(c, xs[i], k)
    ensures NearestOf(c, xs, k).Some? ==>
      (exists i :: 0 <= i < |xs| && CountsFor(c, xs[i], k) && xs[i].distance == NearestOf(c, xs, k).value)
      && forall i :: 0 <= i < |xs| && CountsFor(c, xs[i], k) ==> NearestOf(c, xs, k).value <= xs[i].distance
  {
    if xs != [] {
      var p := xs[..|xs| - 1];
      NearestOfIsMinimum(c, p, k);
      forall i | 0 <= i < |p| ensures p[i] == xs[i] { }
      if NearestOf(c, xs, k).Some? && NearestOf(c, xs, k) == NearestOf(c, p, k) {
        var i :| 0 <= i < |p| && CountsFor(c, p[i], k) && p[i].distance == NearestOf(c, p, k).value;
        assert xs[i] == p[i];
      }
    }
  }

  /** Candidate `x` counts for `k` and lies within its hit radius. */
  predicate Hits(c: Config, x: Candidate, k: EnvKind)
  {
    CountsFor(c, x, k) && x.distance <= RadiiOf(c, k).hit
  }

  /** One of the first `n` candidates hits for category `k`. */
  predicate HitUpTo(c: Config, xs: seq<Candidate>, n: nat, k: EnvKind)
    requires n <= |xs|
  {
    exists i :: 0 <= i < n && Hits(c, xs[i], k)
  }

  /** Some candidate of category `k` lies within that category's hit
      radius. */
  predicate HitOf(c: Config, xs: seq<Candidate>, k: EnvKind)
  {
    HitUpTo(c, xs, |xs|, k)
  }

  lemma HitUpToMonotone(c: Config, xs: seq<Candidate>, n: nat, m: nat, k: EnvKind)
    requires n <= m <= |xs| && HitUpTo(c, xs, n, k)
    ensures HitUpTo(c, xs, m, k)
  {
  }

  lemma NearestOfNext(c: Config, xs: seq<Candidate>, i: nat, k: EnvKind)
    requires i < |xs|
    ensures NearestOf(c, xs[..i + 1], k)
      == if CountsFor(c, xs[i], k) then MinOpt(NearestOf(c, xs[..i], k), xs[i].distance) else NearestOf(c, xs[..i], k)
  {
    assert xs[..i + 1][..i] == xs[..i];
  }

  /** Nearest distance (-1 for none) and the near and hit flags of one
      category. */
  datatype EnvTag = EnvTag(nearestDist: real, near: bool, hit: bool)

  datatype EnvTags = EnvTags(obstacle: EnvTag, building: EnvTag, entarance: EnvTag, vehicle: EnvTag)

  /** What `ComputeTaggedDistances` gives for one category: the nearest
      distance from the near query (-1 for none), near when it lies in
      [0, near radius], and the hit flag from the hit query. */
  function EnvTagOf(c: Config, nearCands: seq<Candidate>, hitCands: seq<Candidate>, k: EnvKind): (t: EnvTag)
    ensures t.near ==> NearestOf(c, nearCands, k).Some?
  {
    TagFrom(NearestOf(c, nearCands, k), RadiiOf(c, k).near, HitOf(c, hitCands, k))
  }

  /** The tag of a category from its nearest distance, if any, its near
      radius and its hit flag. */
  function TagFrom(n: Option<real>, nearRadius: real, hit: bool): (t: EnvTag)
    ensures t.near ==> n.Some?
  {
    var d := if n.Some? then n.value else -1.0;
    EnvTag(d, 0.0 <= d <= nearRadius, hit)
  }

  function EnvTagsOf(c: Config, nearCands: seq<Candidate>, hitCands: seq<Candidate>): EnvTags
  {
    EnvTags(EnvTagOf(c, nearCands, hitCands, Obstacle), EnvTagOf(c, nearCands, hitCands, Building),
            EnvTagOf(c, nearCands, hitCands, Entarance), EnvTagOf(c, nearCands, hitCands, Vehicle))
  }

  /** A category's distance is -1 exactly when no considered candidate of
      that kind came back from the near query, and is otherwise the least
      such distance; near needs a candidate within the near radius. */
  lemma EnvTagMeaning(c: Config, nearCands: seq<Candidate>, hitCands: seq<Candidate>, k: EnvKind)
    requires forall i :: 0 <= i < |nearCands| ==> nearCands[i].distance >= 0.0
    ensures var t := EnvTagOf(c, nearCands, hitCands, k);
      && (t.nearestDist == -1.0 <==> forall i :: 0 <= i < |nearCands| ==> !CountsFor(c, nearCands[i], k))
      && (t.nearestDist != -1.0 ==> forall i :: 0 <= i < |nearCands| && CountsFor(c, nearCands[i], k) ==> t.nearestDist <= nearCands[i].distance)
      && (t.near <==> exists i :: 0 <= i < |nearCands| && CountsFor(c, nearCands[i], k) && nearCands[i].distance <= RadiiOf(c, k).near)
  {
    NearestOfIsMinimum(c, nearCands, k);
  }

  /** `ComputeTaggedDistances` after the two overlap queries: per category
      the nearest considered candidate of that kind from the near query (-1
      when there is none), near when 0 <= d <= the category's near radius,
      and hit when some candidate of that kind from the hit query lies within
      the category's hit radius. The hit scan stops early once all four
      flags are set. `nearCands` and `hitCands` are the first `n` entries of
      the 512-slot `_nearBuf` and `_hitBuf` that `OverlapSphereNonAlloc`
      filled; the physics engine does the capping, so the model takes the
      filled prefix as given. */
  method ComputeTaggedDistances(c: Config, nearCands: seq<Candidate>, hitCands: seq<Candidate>) returns (t: EnvTags)
    ensures t == EnvTagsOf(c, nearCands, hitCands)
  {
    var nObs, nBld, nEnt, nVeh := NearestPass(c, nearCands);
    var hObs, hBld, hEnt, hVeh := HitPass(c, hitCands);
    t := EnvTags(TagFrom(nObs, c.obstacle.near, hObs), TagFrom(nBld, c.building.near, hBld),
                 TagFrom(nEnt, c.entarance.near, hEnt), TagFrom(nVeh, c.vehicle.near, hVeh));
  }

  /** The near pass: per category, the least distance over the considered
      candidates of that kind. */
  method NearestPass(c: Config, xs: seq<Candidate>) returns (nObs: Option<real>, nBld: Option<real>, nEnt: Option<real>, nVeh: Option<real>)
    ensures nObs == NearestOf(c, xs, Obstacle) && nBld == NearestOf(c, xs, Building)
    ensures nEnt == NearestOf(c, xs, Entarance) && nVeh == NearestOf(c, xs, Vehicle)
  {
    nObs, nBld, nEnt, nVeh := None, None, None, None;
    var i := 0;
    while i < |xs|
      invariant 0 <= i <= |xs|
      invariant nObs == NearestOf(c, xs[..i], Obstacle)
      invariant nBld == NearestOf(c, xs[..i], Building)
      invariant nEnt == NearestOf(c, xs[..i], Entarance)
      invariant nVeh == NearestOf(c, xs[..i], Vehicle)
    {
      var x := xs[i];
      NearestOfNext(c, xs, i, Obstacle);
      NearestOfNext(c, xs, i, Building);
      NearestOfNext(c, xs, i, Entarance);
      NearestOfNext(c, xs, i, Vehicle);
      if ShouldConsider(c, x) {
        var kind := GetEnvKindFromHierarchy(c, x.chain);
        if kind == Obstacle { nObs := MinOpt(nObs, x.distance); }
        else if kind == Building { nBld := MinOpt(nBld, x.distance); }
        else if kind == Entarance { nEnt := MinOpt(nEnt, x.distance); }
        else if kind == Vehicle { nVeh := MinOpt(nVeh, x.distance); }
      }
      i := i + 1;
    }
    assert xs[..i] == xs;
  }

  /** The hit pass: per category, whether a considered candidate of that kind
      lies within the category's hit radius; the scan stops once all four
      are found. */
  method HitPass(c: Config, xs: seq<Candidate>) returns (hObs: bool, hBld: bool, hEnt: bool, hVeh: bool)
    ensures hObs == HitOf(c, xs, Obstacle) && hBld == HitOf(c, xs, Building)
    ensures hEnt == HitOf(c, xs, Entarance) && hVeh == HitOf(c, xs, Vehicle)
  {
    hObs, hBld, hEnt, hVeh := false, false, false, false;
    var j := 0;
    while j < |xs|
      invariant 0 <= j <= |xs|
      invariant hObs == HitUpTo(c, xs, j, Obstacle)
      invariant hBld == HitUpTo(c, xs, j, Building)
      invariant hEnt == HitUpTo(c, xs, j, Entarance)
      invariant hVeh == HitUpTo(c, xs, j, Vehicle)
    {
      var x := xs[j];
      if ShouldConsider(c, x) {
        var kind := GetEnvKindFromHierarchy(c, x.chain);
        if kind == Obstacle && x.distance <= c.obstacle.hit { hObs := true; }
        else if kind == Building && x.distance <= c.building.hit { hBld := true; }
        else if kind == Entarance && x.distance <= c.entarance.hit { hEnt := true; }
        else if kind == Vehicle && x.distance <= c.vehicle.hit { hVeh := true; }
      }
      j := j + 1;
      if hObs && hBld && hEnt && hVeh {
        HitUpToMonotone(c, xs, j, |xs|, Obstacle);
        HitUpToMonotone(c, xs, j, |xs|, Building);
        HitUpToMonotone(c, xs, j, |xs|, Entarance);
        HitUpToMonotone(c, xs, j, |xs|, Vehicle);
        return;
      }
    }
  }

  /** `ParseAgentId`: the decimal digits right after the first occurrence of
      the prefix, or -1 without the prefix, without digits, or when they do
      not fit a 32-bit integer. */
  function ParseAgentId(prefix: string, name: string): (id: int)
    ensures -1 <= id <= IntMax
    ensures IndexOf(name, prefix).None? ==> id == -1
  {
    var at := IndexOf(name, prefix);
    if at.None? then -1
    else
      var num := LeadingDigits(name[at.value + |prefix|..]);
      var v := ParseInt32(num);
      if v.Some? && v.value >= 0 then v.value else -1
  }

  lemma {:induction false} LeadingDigitsOfConcat(d: string, rest: string)
    requires AllDigits(d)
    requires |rest| == 0 || !IsDigit(rest[0])
    ensures LeadingDigits(d + rest) == d
  {
    if |d| > 0 {
      assert (d + rest)[1..] == d[1..] + rest;
      LeadingDigitsOfConcat(d[1..], rest);
      assert [d[0]] + d[1..] == d;
    } else {
      assert d + rest == rest;
    }
  }

  /** An object named prefix, id, and then anything not starting with a digit
      parses back to that id, provided the prefix occurs nowhere earlier. */
  lemma ParseAgentIdOfName(prefix: string, id: int, suffix: string)
    requires 0 <= id <= IntMax
    requires |suffix| == 0 || !IsDigit(suffix[0])
    ensures ParseAgentId(prefix, prefix + IntToString(id) + suffix) == id
  {
    var digits := IntToString(id);
    var name := prefix + digits + suffix;
    assert name == prefix + (digits + suffix);
    IndexOfPrefix(prefix, digits + suffix);
    assert name[|prefix|..] == digits + suffix;
    LeadingDigitsOfConcat(digits, suffix);
    IntToStringParses(id);
  }

  /** A name that starts with the prefix finds it at 0. */
  lemma IndexOfPrefix(prefix: string, rest: string)
    ensures IndexOf(prefix + rest, prefix) == Some(0)
  {
    var name := prefix + rest;
    assert name[0..|prefix|] == prefix;
    assert OccursAt(name, prefix, 0);
  }
}

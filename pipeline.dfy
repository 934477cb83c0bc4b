/** `compute_zones_for_relais` (zones_core_km.py:334-496): points are located
    in an IRIS, grouped by (IRIS, environment label), one zone is requested
    from the engine per group, every located point gets a row carrying its
    group's flattened statistics, and the zones are rolled up per IRIS. */
module Pipeline {
  import opened Common
  import opened Text
  import opened Ordering
  import opened IrisStats
  import opened Flatten
  import opened Zones
  import opened Rollup

  /** A relay point: its identity columns, its position and its raw
      environment label (column `Statut`). */
  datatype Point = Point(id: string, name: string, address: Option<string>, commune: Option<string>,
                         lat: real, lon: real, env: string)

  /** A point together with the IRIS code the spatial join gave it. */
  type Located = (Point, string)

  /** The spatial join `within`: the IRIS containing a point, if any. */
  type Locator = Point -> Option<string>

  /** A row of `zones_df`. */
  datatype ZoneRow = ZoneRow(id: string, name: string, address: Option<string>, commune: Option<string>,
                             lat: real, lon: real, status: string, centre: string, stats: Stats)

  /** The dictionary the run returns. */
  datatype Output = Output(zones: seq<ZoneRow>, cells: seq<CellRow>, global: Stats)

  /** The points that have an IRIS, in their order (`dropna`, line 390). */
  function Assigned(points: seq<Point>, locate: Locator): seq<Located> {
    if points == [] then []
    else
      var init, last := points[..|points| - 1], points[|points| - 1];
      Assigned(init, locate) + (match locate(last) case Some(code) => [(last, code)] case None => [])
  }

  /** The grouping key of a located point: (its IRIS, its raw label). */
  function GroupKey(a: Located): (string, string) {
    (a.1, a.0.env)
  }

  function KeysOf(xs: seq<Located>): seq<(string, string)> {
    seq(|xs|, i requires 0 <= i < |xs| => GroupKey(xs[i]))
  }

  /** The groups of `groupby([code, env])`, in sorted key order. */
  function Groups(xs: seq<Located>): seq<(string, string)> {
    SortedDistinct(KeysOf(xs), PairLess)
  }

  /** The points of one group, in their order. */
  function Members(xs: seq<Located>, key: (string, string)): seq<Located> {
    if xs == [] then []
    else
      var init, last := xs[..|xs| - 1], xs[|xs| - 1];
      Members(init, key) + (if GroupKey(last) == key then [last] else [])
  }

  /** The points whose key is one of `keys`. */
  function Within(xs: seq<Located>, keys: seq<(string, string)>): seq<Located> {
    if xs == [] then []
    else
      var init, last := xs[..|xs| - 1], xs[|xs| - 1];
      Within(init, keys) + (if GroupKey(last) in keys then [last] else [])
  }

  /** The points group after group. */
  function Grouped(xs: seq<Located>, keys: seq<(string, string)>): seq<Located> {
    if keys == [] then []
    else Grouped(xs, keys[..|keys| - 1]) + Members(xs, keys[|keys| - 1])
  }

  /** The flattened statistics that every row of a zone's group carries. */
  function Flat(z: Zone): Stats {
    PutAll([], FlattenPairs(z.stats, ""))
  }

  /** The row of a point of the group centred on its IRIS. */
  function RowOf(a: Located, flat: Stats): ZoneRow {
    ZoneRow(a.0.id, a.0.name, a.0.address, a.0.commune, a.0.lat, a.0.lon, a.0.env, a.1, flat)
  }

  /** The point and IRIS a row describes. */
  function RowPoint(row: ZoneRow): Located {
    (Point(row.id, row.name, row.address, row.commune, row.lat, row.lon, row.status), row.centre)
  }

  function RowPoints(rows: seq<ZoneRow>): seq<Located> {
    seq(|rows|, i requires 0 <= i < |rows| => RowPoint(rows[i]))
  }

  function GroupRows(members: seq<Located>, flat: Stats): seq<ZoneRow> {
    seq(|members|, i requires 0 <= i < |members| => RowOf(members[i], flat))
  }

  /** `zones_summary_rows`: the rows of every group, group after group. */
  function SummaryRows(xs: seq<Located>, keys: seq<(string, string)>, zones: seq<Zone>): seq<ZoneRow>
    requires |zones| == |keys|
  {
    if keys == [] then []
    else
      SummaryRows(xs, keys[..|keys| - 1], zones[..|zones| - 1])
        + GroupRows(Members(xs, keys[|keys| - 1]), Flat(zones[|zones| - 1]))
  }

  /** The rows a zone adds to `iris_zone_all`. */
  function ZoneCover(z: Zone, key: (string, string)): seq<Cover> {
    seq(|z.cells|, i requires 0 <= i < |z.cells| => Cover(z.cells[i].code, key.0, key.1))
  }

  /** `iris_zone_all`: the zones' rows, group after group. */
  function CoverOf(keys: seq<(string, string)>, zones: seq<Zone>): seq<Cover>
    requires |zones| == |keys|
  {
    if keys == [] then []
    else CoverOf(keys[..|keys| - 1], zones[..|zones| - 1]) + ZoneCover(zones[|zones| - 1], keys[|keys| - 1])
  }

  /** The result of a run once every group has its zone: `pd.concat` of no
      zone at all raises (line 436), then the roll-up and the global
      statistics follow. */
  function Assemble(layer: Frame, xs: seq<Located>, keys: seq<(string, string)>, zones: seq<Zone>)
    : Result<Output, Failure>
    requires |zones| == |keys|
  {
    if keys == [] then Err(NothingToConcatenate)
    else
      var cover := CoverOf(keys, zones);
      match GlobalStats(layer, cover)
      case Err(e) => Err(e)
      case Ok(g) => Ok(Output(SummaryRows(xs, keys, zones), CellRows(FirstRows(layer.rows), cover), g))
  }

  /** How a group (IRIS, raw label) gets its zone. */
  type ZoneSource = (string, string) -> Result<Zone, Failure>

  /** The zone of every group computed afresh, as with an empty cache. */
  function FreshZoneOf(prepared: Frame, index: SpatialIndex, dist: Distance, layer: Frame, envParams: EnvParams)
    : ZoneSource
  {
    (centre: string, env: string) => FreshZone(prepared, index, dist, layer, centre, env, envParams)
  }

  /** The zones of the groups, in group order; the first failing group
      aborts. */
  function ZonesOf(zoneOf: ZoneSource, keys: seq<(string, string)>): (r: Result<seq<Zone>, Failure>)
    ensures r.Ok? ==> |r.value| == |keys|
  {
    if keys == [] then Ok([])
    else
      var key := keys[|keys| - 1];
      match ZonesOf(zoneOf, keys[..|keys| - 1])
      case Err(e) => Err(e)
      case Ok(zs) =>
        match zoneOf(key.0, key.1)
        case Err(e) => Err(e)
        case Ok(z) => Ok(zs + [z])
  }

  /** Group `g` is the first whose zone fails, with error `e`. */
  predicate FirstFailure(zoneOf: ZoneSource, keys: seq<(string, string)>, g: int, e: Failure) {
    && 0 <= g < |keys| && zoneOf(keys[g].0, keys[g].1) == Err(e)
    && forall h :: 0 <= h < g ==> zoneOf(keys[h].0, keys[h].1).Ok?
  }

  /** The zones come out only when every group's zone does, each in its
      group's place; otherwise the error is that of the first failing group. */
  lemma {:induction false} ZonesOfSpec(zoneOf: ZoneSource, keys: seq<(string, string)>)
    ensures ZonesOf(zoneOf, keys).Ok? <==> forall g :: 0 <= g < |keys| ==> zoneOf(keys[g].0, keys[g].1).Ok?
    ensures ZonesOf(zoneOf, keys).Ok? ==>
      forall g :: 0 <= g < |keys| ==> zoneOf(keys[g].0, keys[g].1) == Ok(ZonesOf(zoneOf, keys).value[g])
    ensures ZonesOf(zoneOf, keys).Err? ==> exists g :: FirstFailure(zoneOf, keys, g, ZonesOf(zoneOf, keys).error)
  {
    if keys != [] {
      var n := |keys| - 1;
      var init := keys[..n];
      ZonesOfSpec(zoneOf, init);
      assert forall g :: 0 <= g < n ==> init[g] == keys[g];
      match ZonesOf(zoneOf, init)
      case Err(e) =>
        var g :| FirstFailure(zoneOf, init, g, e);
        assert FirstFailure(zoneOf, keys, g, e);
      case Ok(zs) =>
        match zoneOf(keys[n].0, keys[n].1)
        case Err(e) =>
          assert FirstFailure(zoneOf, keys, n, e);
        case Ok(z) =>
          assert ZonesOf(zoneOf, keys) == Ok(zs + [z]);
    }
  }

  /** A whole run, each group's zone taken from `zoneOf`. */
  function Run(zoneOf: ZoneSource, layer: Frame, points: seq<Point>, locate: Locator): Result<Output, Failure> {
    var xs := Assigned(points, locate);
    var keys := Groups(xs);
    match ZonesOf(zoneOf, keys)
    case Err(e) => Err(e)
    case Ok(zones) => Assemble(layer, xs, keys, zones)
  }

  /** The inner loop of `compute_zones_for_relais` (lines 415-430): one row
      per point of the group, each with the zone's statistics flattened. */
  method EmitRows(members: seq<Located>, stats: Stats) returns (out: seq<ZoneRow>)
    ensures out == GroupRows(members, PutAll([], FlattenPairs(stats, "")))
  {
    out := [];
    var j := 0;
    while j < |members|
      invariant 0 <= j <= |members|
      invariant out == GroupRows(members[..j], PutAll([], FlattenPairs(stats, "")))
    {
      var flat := FlattenStats(stats, "");
      assert GroupRows(members[..j + 1], flat) == GroupRows(members[..j], flat) + [RowOf(members[j], flat)];
      out := out + [RowOf(members[j], flat)];
      j := j + 1;
    }
    assert members[..j] == members;
  }

  /** One pass of the loop over the groups (lines 400-430): the zone of
      group `g` from the engine, its IRIS tagged with the group, and the
      rows of the group's points appended. */
  method GroupStep(engine: ZoneEngine, xs: seq<Located>, keys: seq<(string, string)>, g: nat, layer: Frame,
                   envParams: EnvParams, index: SpatialIndex, rows: seq<ZoneRow>, cover: seq<Cover>,
                   ghost zones: seq<Zone>, ghost consistent: bool,
                   ghost prepared: Frame, ghost idx: SpatialIndex, ghost zoneOf: ZoneSource,
                   ghost cache0: map<CacheKey, CacheEntry>, ghost origins0: map<CacheKey, Frame>)
    returns (r: Result<(seq<ZoneRow>, seq<Cover>), Failure>, ghost zones': seq<Zone>)
    requires engine.Valid()
    requires g < |keys| && |zones| == g
    requires rows == SummaryRows(xs, keys[..g], zones) && cover == CoverOf(keys[..g], zones)
    requires engine.projected.None? ==> prepared == layer && idx == index
    requires engine.projected.Some? ==> engine.projected == Some(prepared) && engine.spatialIndex == Some(idx)
    requires zoneOf == FreshZoneOf(prepared, idx, engine.distance, layer, envParams)
    requires consistent ==> Consistent(engine.origins, layer) && ZonesOf(zoneOf, keys[..g]) == Ok(zones)
    requires CacheGrows(cache0, origins0, engine.cache, engine.origins, KeyOfGroup(envParams), keys[..g], layer)
    modifies engine
    ensures engine.Valid()
    ensures engine.projected == Some(prepared) && engine.spatialIndex == Some(idx)
    ensures engine.centroids == Some(CentroidTable(prepared.rows))
    ensures CacheGrows(old(engine.cache), old(engine.origins), engine.cache, engine.origins, KeyOfGroup(envParams), [keys[g]], layer)
    ensures CacheGrows(cache0, origins0, engine.cache, engine.origins, KeyOfGroup(envParams), keys[..g + 1], layer)
    ensures r.Err? ==> CacheGrows(cache0, origins0, engine.cache, engine.origins, KeyOfGroup(envParams), keys, layer)
    ensures r.Ok? ==>
      && |zones'| == g + 1
      && r.value == (SummaryRows(xs, keys[..g + 1], zones'), CoverOf(keys[..g + 1], zones'))
    ensures consistent ==> Consistent(engine.origins, layer)
    ensures consistent && r.Ok? ==> ZonesOf(zoneOf, keys[..g + 1]) == Ok(zones')
    ensures consistent && r.Err? ==> ZonesOf(zoneOf, keys) == Err(r.error)
  {
    var key := keys[g];
    ghost var cache1, origins1 := engine.cache, engine.origins;
    var z := engine.GetZone(key.0, key.1, layer, index, envParams);
    GrowsStep(cache0, origins0, cache1, origins1, engine.cache, engine.origins, KeyOfGroup(envParams), keys, g, layer);
    if consistent {
      NextZone(zoneOf, keys, g, zones);
    }
    if z.Err? {
      if consistent {
        AbortPersists(zoneOf, keys, g + 1);
      }
      return Err(z.error), zones;
    }
    var groupRows := EmitRows(Members(xs, key), z.value.stats);
    AppendStep(xs, keys, g, zones, z.value);
    zones' := zones + [z.value];
    r := Ok((rows + groupRows, cover + ZoneCover(z.value, key)));
  }

  /** The loop over the groups (lines 400-430): a zone from the engine for
      each group in order, its IRIS tagged with the group, and the rows of
      the group's points. The first failing request aborts the loop. */
  method ZonesForGroups(engine: ZoneEngine, xs: seq<Located>, keys: seq<(string, string)>, layer: Frame,
                        envParams: EnvParams, index: SpatialIndex,
                        ghost prepared: Frame, ghost idx: SpatialIndex, ghost zoneOf: ZoneSource)
    returns (r: Result<(seq<ZoneRow>, seq<Cover>), Failure>, ghost zones: seq<Zone>)
    requires engine.Valid()
    requires engine.projected.None? ==> prepared == layer && idx == index
    requires engine.projected.Some? ==> engine.projected == Some(prepared) && engine.spatialIndex == Some(idx)
    requires zoneOf == FreshZoneOf(prepared, idx, engine.distance, layer, envParams)
    modifies engine
    ensures engine.Valid()
    ensures keys != [] ==>
      && engine.projected == Some(prepared) && engine.spatialIndex == Some(idx)
      && engine.centroids == Some(CentroidTable(prepared.rows))
    ensures keys == [] ==>
      && engine.projected == old(engine.projected) && engine.spatialIndex == old(engine.spatialIndex)
      && engine.centroids == old(engine.centroids)
    ensures CacheGrows(old(engine.cache), old(engine.origins), engine.cache, engine.origins, KeyOfGroup(envParams), keys, layer)
    ensures r.Ok? ==> |zones| == |keys| && r.value == (SummaryRows(xs, keys, zones), CoverOf(keys, zones))
    ensures Consistent(old(engine.origins), layer) ==>
      && Consistent(engine.origins, layer)
      && ZonesOf(zoneOf, keys) == (if r.Ok? then Ok(zones) else Err(r.error))
  {
    ghost var consistent := Consistent(engine.origins, layer);
    ghost var cache0, origins0 := engine.cache, engine.origins;
    GrowsNone(cache0, origins0, KeyOfGroup(envParams), keys[..0], layer);
    if keys == [] {
      return Ok(([], [])), [];
    }
    var rows: seq<ZoneRow> := [];
    var cover: seq<Cover> := [];
    zones := [];
    var g := 0;
    while g < |keys|
      invariant 0 <= g <= |keys|
      invariant engine.Valid()
      invariant |zones| == g
      invariant rows == SummaryRows(xs, keys[..g], zones) && cover == CoverOf(keys[..g], zones)
      invariant engine.projected.None? ==> prepared == layer && idx == index
      invariant engine.projected.Some? ==> engine.projected == Some(prepared) && engine.spatialIndex == Some(idx)
      invariant consistent ==> Consistent(engine.origins, layer) && ZonesOf(zoneOf, keys[..g]) == Ok(zones)
      invariant g > 0 ==> engine.projected == Some(prepared) && engine.spatialIndex == Some(idx)
      invariant CacheGrows(cache0, origins0, engine.cache, engine.origins, KeyOfGroup(envParams), keys[..g], layer)
    {
      var step;
      step, zones := GroupStep(engine, xs, keys, g, layer, envParams, index, rows, cover,
                               zones, consistent, prepared, idx, zoneOf, cache0, origins0);
      if step.Err? {
        r := Err(step.error);
        return;
      }
      rows, cover, g := step.value.0, step.value.1, g + 1;
    }
    assert keys[..g] == keys;
    r := Ok((rows, cover));
  }

  /** `compute_zones_for_relais`. Every run returns the rows assembled from
      the zones the engine handed out, one per group; when the cache holds
      nothing computed from another layer, the run is the one in which
      every zone is computed afresh. */
  method ComputeZonesForRelais(engine: ZoneEngine, points: seq<Point>, layer: Frame, envParams: EnvParams,
                               index: SpatialIndex, locate: Locator)
    returns (r: Result<Output, Failure>, ghost zones: seq<Zone>)
    requires engine.Valid()
    modifies engine
    ensures engine.Valid()
    ensures Groups(Assigned(points, locate)) != [] ==>
      && engine.projected == Some(if old(engine.projected).Some? then old(engine.projected).value else layer)
      && engine.spatialIndex == Some(if old(engine.spatialIndex).Some? then old(engine.spatialIndex).value else index)
      && engine.centroids == Some(CentroidTable(engine.projected.value.rows))
    ensures Groups(Assigned(points, locate)) == [] ==>
      && engine.projected == old(engine.projected) && engine.spatialIndex == old(engine.spatialIndex)
      && engine.centroids == old(engine.centroids)
    ensures CacheGrows(old(engine.cache), old(engine.origins), engine.cache, engine.origins,
                       KeyOfGroup(envParams), Groups(Assigned(points, locate)), layer)
    ensures r.Ok? ==>
      && |zones| == |Groups(Assigned(points, locate))|
      && r == Assemble(layer, Assigned(points, locate), Groups(Assigned(points, locate)), zones)
    ensures Consistent(old(engine.origins), layer) ==>
      && Consistent(engine.origins, layer)
      && r == Run(FreshZoneOf(if old(engine.projected).Some? then old(engine.projected).value else layer,
                              if old(engine.spatialIndex).Some? then old(engine.spatialIndex).value else index,
                              engine.distance, layer, envParams),
                  layer, points, locate)
  {
    var xs := Assigned(points, locate);
    var keys := Groups(xs);
    ghost var prepared := if engine.projected.Some? then engine.projected.value else layer;
    ghost var idx := if engine.spatialIndex.Some? then engine.spatialIndex.value else index;
    ghost var zoneOf := FreshZoneOf(prepared, idx, engine.distance, layer, envParams);
    var loop;
    loop, zones := ZonesForGroups(engine, xs, keys, layer, envParams, index, prepared, idx, zoneOf);
    if loop.Err? {
      r := Err(loop.error);
      return;
    }
    var (rows, cover) := loop.value;
    if keys == [] {
      r := Err(NothingToConcatenate);
      return;
    }
    var cells := CellRows(FirstRows(layer.rows), cover);
    match GlobalStats(layer, cover)
    case Err(e) => r := Err(e);
    case Ok(global) => r := Ok(Output(rows, cells, global));
  }

  // ---------------------------------------------------------------------
  // Properties
  // ---------------------------------------------------------------------

  /** One more group: one more zone, or the run's failure. */
  lemma NextZone(zoneOf: ZoneSource, keys: seq<(string, string)>, g: nat, zones: seq<Zone>)
    requires g < |keys|
    requires ZonesOf(zoneOf, keys[..g]) == Ok(zones)
    ensures ZonesOf(zoneOf, keys[..g + 1])
      == match zoneOf(keys[g].0, keys[g].1)
         case Err(e) => Err(e)
         case Ok(z) => Ok(zones + [z])
  {
    assert keys[..g + 1][..g] == keys[..g];
  }

  /** One more group: the cache has grown by the keys of the groups so far,
      and so by the keys of all the groups. */
  lemma GrowsStep(c0: map<CacheKey, CacheEntry>, o0: map<CacheKey, Frame>,
                  c1: map<CacheKey, CacheEntry>, o1: map<CacheKey, Frame>,
                  c2: map<CacheKey, CacheEntry>, o2: map<CacheKey, Frame>,
                  keyOf: ((string, string)) -> seq<CacheKey>, keys: seq<(string, string)>, g: nat, layer: Frame)
    requires g < |keys|
    requires CacheGrows(c0, o0, c1, o1, keyOf, keys[..g], layer)
    requires CacheGrows(c1, o1, c2, o2, keyOf, [keys[g]], layer)
    ensures CacheGrows(c0, o0, c2, o2, keyOf, keys[..g + 1], layer)
    ensures CacheGrows(c0, o0, c2, o2, keyOf, keys, layer)
  {
    GrowsTrans(c0, o0, c1, o1, c2, o2, keyOf, keys[..g], [keys[g]], layer);
    assert keys[..g] + [keys[g]] == keys[..g + 1];
    GrowsWiden(c0, o0, c2, o2, keyOf, keys[..g + 1], keys, layer);
  }

  /** One more group: its rows and its zone's IRIS come last. */
  lemma AppendStep(xs: seq<Located>, keys: seq<(string, string)>, g: nat, zones: seq<Zone>, z: Zone)
    requires g < |keys| && |zones| == g
    ensures SummaryRows(xs, keys[..g + 1], zones + [z])
      == SummaryRows(xs, keys[..g], zones) + GroupRows(Members(xs, keys[g]), Flat(z))
    ensures CoverOf(keys[..g + 1], zones + [z]) == CoverOf(keys[..g], zones) + ZoneCover(z, keys[g])
  {
    assert keys[..g + 1][..g] == keys[..g];
    assert (zones + [z])[..g] == zones;
  }

  /** Once a group fails, the groups after it change nothing. */
  lemma {:induction false} AbortPersists(zoneOf: ZoneSource, keys: seq<(string, string)>, g: nat)
    requires g <= |keys|
    requires ZonesOf(zoneOf, keys[..g]).Err?
    ensures ZonesOf(zoneOf, keys) == ZonesOf(zoneOf, keys[..g])
  {
    if g < |keys| {
      var init := keys[..|keys| - 1];
      assert init[..g] == keys[..g];
      AbortPersists(zoneOf, init, g);
    } else {
      assert keys[..g] == keys;
    }
  }

  /** Exactly the points the join places in an IRIS are kept, with that IRIS. */
  lemma {:induction false} AssignedSpec(points: seq<Point>, locate: Locator)
    ensures forall a :: a in Assigned(points, locate) <==> a.0 in points && locate(a.0) == Some(a.1)
  {
    if points != [] {
      var init := points[..|points| - 1];
      AssignedSpec(init, locate);
      assert points == init + [points[|points| - 1]];
    }
  }

  lemma KeysOfSpec(xs: seq<Located>)
    ensures forall k :: k in KeysOf(xs) <==> exists a :: a in xs && GroupKey(a) == k
  {
    forall k | k in KeysOf(xs) ensures exists a :: a in xs && GroupKey(a) == k {
      var i :| 0 <= i < |xs| && KeysOf(xs)[i] == k;
      assert xs[i] in xs;
    }
    forall k | exists a :: a in xs && GroupKey(a) == k ensures k in KeysOf(xs) {
      var a :| a in xs && GroupKey(a) == k;
      var i :| 0 <= i < |xs| && xs[i] == a;
      assert KeysOf(xs)[i] == k;
    }
  }

  /** The groups come in increasing order of (IRIS, label), each once, and
      are exactly the keys of the located points. */
  lemma GroupsSpec(xs: seq<Located>)
    ensures Sorted(Groups(xs), PairLess)
    ensures forall i, j :: 0 <= i < j < |Groups(xs)| ==> Groups(xs)[i] != Groups(xs)[j]
    ensures forall k :: k in Groups(xs) <==> exists a :: a in xs && GroupKey(a) == k
  {
    PairLessIsStrictTotal();
    SortedDistinctSpec(KeysOf(xs), PairLess);
    SortedHasNoDuplicates(Groups(xs), PairLess);
    KeysOfSpec(xs);
  }

  /** A group holds the points of its key and only those. */
  lemma {:induction false} MembersSpec(xs: seq<Located>, key: (string, string))
    ensures forall a :: a in Members(xs, key) <==> a in xs && GroupKey(a) == key
  {
    if xs != [] {
      var init := xs[..|xs| - 1];
      MembersSpec(init, key);
      assert xs == init + [xs[|xs| - 1]];
    }
  }

  /** Points whose keys are among `keys + [key]`, for a new `key`, are those
      among `keys` and the group of `key`. */
  lemma {:induction false} WithinSplit(xs: seq<Located>, keys: seq<(string, string)>, key: (string, string))
    requires key !in keys
    ensures multiset(Within(xs, keys + [key])) == multiset(Within(xs, keys)) + multiset(Members(xs, key))
  {
    if xs != [] {
      var init := xs[..|xs| - 1];
      WithinSplit(init, keys, key);
    }
  }

  lemma {:induction false} GroupedWithin(xs: seq<Located>, keys: seq<(string, string)>)
    requires forall i, j :: 0 <= i < j < |keys| ==> keys[i] != keys[j]
    ensures multiset(Grouped(xs, keys)) == multiset(Within(xs, keys))
  {
    if keys == [] {
      WithinNone(xs);
    } else {
      var init, last := keys[..|keys| - 1], keys[|keys| - 1];
      DistinctInit(keys, init);
      GroupedWithin(xs, init);
      WithinSplit(xs, init, last);
      assert init + [last] == keys;
    }
  }

  lemma {:induction false} WithinNone(xs: seq<Located>)
    ensures Within(xs, []) == []
  {
    if xs != [] {
      WithinNone(xs[..|xs| - 1]);
    }
  }

  lemma {:induction false} WithinAll(xs: seq<Located>, keys: seq<(string, string)>)
    requires forall a :: a in xs ==> GroupKey(a) in keys
    ensures Within(xs, keys) == xs
  {
    if xs != [] {
      var init, last := xs[..|xs| - 1], xs[|xs| - 1];
      assert xs == init + [last];
      forall a | a in init ensures GroupKey(a) in keys {
        assert a in xs;
      }
      WithinAll(init, keys);
      assert GroupKey(last) in keys;
    }
  }

  /** The rows describe the points group after group. */
  lemma {:induction false} SummaryPoints(xs: seq<Located>, keys: seq<(string, string)>, zones: seq<Zone>)
    requires |zones| == |keys|
    ensures RowPoints(SummaryRows(xs, keys, zones)) == Grouped(xs, keys)
  {
    if keys != [] {
      var init, zinit := keys[..|keys| - 1], zones[..|zones| - 1];
      SummaryPoints(xs, init, zinit);
      var a := SummaryRows(xs, init, zinit);
      var b := GroupRows(Members(xs, keys[|keys| - 1]), Flat(zones[|zones| - 1]));
      assert RowPoints(b) == Members(xs, keys[|keys| - 1]);
      assert RowPoints(a + b) == RowPoints(a) + RowPoints(b);
    }
  }

  /** Every located point yields exactly one row, which names it and its
      IRIS: the rows and the located points are the same multiset. */
  lemma OneRowPerPoint(xs: seq<Located>, zones: seq<Zone>)
    requires |zones| == |Groups(xs)|
    ensures multiset(RowPoints(SummaryRows(xs, Groups(xs), zones))) == multiset(xs)
  {
    var keys := Groups(xs);
    GroupsSpec(xs);
    SummaryPoints(xs, keys, zones);
    GroupedWithin(xs, keys);
    WithinAll(xs, keys);
  }

  /** The rows of a group name its key and carry the group's statistics. */
  lemma GroupRowsSpec(xs: seq<Located>, key: (string, string), flat: Stats)
    ensures forall row :: row in GroupRows(Members(xs, key), flat) ==>
      (row.centre, row.status) == key && row.stats == flat
  {
    var m := Members(xs, key);
    MembersSpec(xs, key);
    forall row | row in GroupRows(m, flat) ensures (row.centre, row.status) == key && row.stats == flat {
      var k :| 0 <= k < |m| && GroupRows(m, flat)[k] == row;
      assert m[k] in m;
    }
  }

  /** Distinct keys: dropping the last keeps them distinct, and the last is
      not among the others. */
  lemma DistinctInit(keys: seq<(string, string)>, init: seq<(string, string)>)
    requires keys != [] && init == keys[..|keys| - 1]
    requires forall i, j :: 0 <= i < j < |keys| ==> keys[i] != keys[j]
    ensures forall i, j :: 0 <= i < j < |init| ==> init[i] != init[j]
    ensures keys[|keys| - 1] !in init
  {
  }

  /** Every row names one of the groups. */
  lemma {:induction false} RowsNameGroups(xs: seq<Located>, keys: seq<(string, string)>, zones: seq<Zone>)
    requires |zones| == |keys|
    ensures forall row :: row in SummaryRows(xs, keys, zones) ==> (row.centre, row.status) in keys
  {
    if keys != [] {
      var init, zinit := keys[..|keys| - 1], zones[..|zones| - 1];
      RowsNameGroups(xs, init, zinit);
      GroupRowsSpec(xs, keys[|keys| - 1], Flat(zones[|zones| - 1]));
      assert keys == init + [keys[|keys| - 1]];
    }
  }

  /** Every row carries the flattened statistics of its own group's zone. */
  lemma {:induction false} RowsCarryGroupStats(xs: seq<Located>, keys: seq<(string, string)>, zones: seq<Zone>)
    requires |zones| == |keys|
    requires forall i, j :: 0 <= i < j < |keys| ==> keys[i] != keys[j]
    ensures forall row, g :: row in SummaryRows(xs, keys, zones) && 0 <= g < |keys| && (row.centre, row.status) == keys[g] ==>
      row.stats == Flat(zones[g])
  {
    if keys != [] {
      var n := |keys| - 1;
      var init, zinit := keys[..n], zones[..n];
      DistinctInit(keys, init);
      RowsCarryGroupStats(xs, init, zinit);
      RowsNameGroups(xs, init, zinit);
      GroupRowsSpec(xs, keys[n], Flat(zones[n]));
      var a := SummaryRows(xs, init, zinit);
      forall row, g | row in SummaryRows(xs, keys, zones) && 0 <= g < |keys| && (row.centre, row.status) == keys[g]
        ensures row.stats == Flat(zones[g])
      {
        if row in a {
          assert (row.centre, row.status) in init;
          assert g < n;
          assert init[g] == keys[g] && zinit[g] == zones[g];
        } else {
          assert g == n;
        }
      }
    }
  }

  /** A zone's rows are its IRIS, each tagged with the group. */
  lemma ZoneCoverSpec(z: Zone, key: (string, string))
    ensures forall c :: c in ZoneCover(z, key) <==> c.centre == key.0 && c.env == key.1 && c.code in Codes(z.cells)
  {
    var zc := ZoneCover(z, key);
    forall c ensures c in zc <==> c.centre == key.0 && c.env == key.1 && c.code in Codes(z.cells) {
      if c in zc {
        var k :| 0 <= k < |zc| && zc[k] == c;
        assert Codes(z.cells)[k] == c.code;
      }
      if c.centre == key.0 && c.env == key.1 && c.code in Codes(z.cells) {
        var k :| 0 <= k < |z.cells| && Codes(z.cells)[k] == c.code;
        assert zc[k] == c;
      }
    }
  }

  /** Group `g` covers `c`: its zone holds the IRIS of `c`, and `c` names the
      group's centre and label. */
  ghost predicate CoveredBy(c: Cover, keys: seq<(string, string)>, zones: seq<Zone>, g: int)
    requires |zones| == |keys|
  {
    0 <= g < |keys| && c.centre == keys[g].0 && c.env == keys[g].1 && c.code in Codes(zones[g].cells)
  }

  /** The zones' rows are the IRIS of each group's zone, tagged with the
      group's centre and raw label. */
  lemma {:induction false} CoverSpec(keys: seq<(string, string)>, zones: seq<Zone>)
    requires |zones| == |keys|
    ensures forall c :: c in CoverOf(keys, zones) <==> exists g :: CoveredBy(c, keys, zones, g)
  {
    if keys != [] {
      var n := |keys| - 1;
      var init, zinit := keys[..n], zones[..n];
      CoverSpec(init, zinit);
      ZoneCoverSpec(zones[n], keys[n]);
      forall c ensures c in CoverOf(keys, zones) <==> exists g :: CoveredBy(c, keys, zones, g) {
        if c in CoverOf(init, zinit) {
          var g :| CoveredBy(c, init, zinit, g);
          assert init[g] == keys[g] && zinit[g] == zones[g];
          assert CoveredBy(c, keys, zones, g);
        } else if c in ZoneCover(zones[n], keys[n]) {
          assert CoveredBy(c, keys, zones, n);
        }
        if exists g :: CoveredBy(c, keys, zones, g) {
          var g :| CoveredBy(c, keys, zones, g);
          if g < n {
            assert init[g] == keys[g] && zinit[g] == zones[g];
            assert CoveredBy(c, init, zinit, g);
          }
        }
      }
    }
  }

  /** The centres counted for an IRIS (`nb_zones_total`) are those of the
      groups whose zone holds it. */
  lemma CentresOfCover(keys: seq<(string, string)>, zones: seq<Zone>, code: string)
    requires |zones| == |keys|
    ensures CentresCovering(CoverOf(keys, zones), code)
         == set g | 0 <= g < |keys| && code in Codes(zones[g].cells) :: keys[g].0
  {
    var cover := CoverOf(keys, zones);
    CoverSpec(keys, zones);
    var lhs := CentresCovering(cover, code);
    var rhs := set g | 0 <= g < |keys| && code in Codes(zones[g].cells) :: keys[g].0;
    forall x | x in lhs ensures x in rhs {
      var i :| 0 <= i < |cover| && cover[i].code == code && cover[i].centre == x;
      assert cover[i] in cover;
      var g :| CoveredBy(cover[i], keys, zones, g);
    }
    forall x | x in rhs ensures x in lhs {
      var g :| 0 <= g < |keys| && code in Codes(zones[g].cells) && keys[g].0 == x;
      var c := Cover(code, keys[g].0, keys[g].1);
      assert CoveredBy(c, keys, zones, g);
      assert c in cover;
      var i :| 0 <= i < |cover| && cover[i] == c;
      assert cover[i].code == code && cover[i].centre == x;
    }
  }

  /** What a completed run returns: one row per located point, each with
      its own group's flattened statistics; one `iris_agg_df` row per IRIS
      of the layer that some group's zone holds, counting the distinct
      centres of those groups. */
  lemma AssembleSpec(layer: Frame, xs: seq<Located>, zones: seq<Zone>)
    requires |zones| == |Groups(xs)|
    requires Assemble(layer, xs, Groups(xs), zones).Ok?
    ensures var out := Assemble(layer, xs, Groups(xs), zones).value;
      && multiset(RowPoints(out.zones)) == multiset(xs)
      && (forall row :: row in out.zones ==> (row.centre, row.status) in Groups(xs))
      && (forall row, g :: row in out.zones && 0 <= g < |Groups(xs)| && (row.centre, row.status) == Groups(xs)[g] ==>
            row.stats == Flat(zones[g]))
      && (forall i, j :: 0 <= i < j < |out.cells| ==> out.cells[i].cell.code != out.cells[j].cell.code)
      && (forall code :: code in RowCodes(out.cells) <==>
            code in Codes(layer.rows) && exists g :: 0 <= g < |zones| && code in Codes(zones[g].cells))
      && (forall r :: r in out.cells ==>
            r.total == |set g | 0 <= g < |Groups(xs)| && r.cell.code in Codes(zones[g].cells) :: Groups(xs)[g].0|)
  {
    var keys := Groups(xs);
    var cover := CoverOf(keys, zones);
    var out := Assemble(layer, xs, keys, zones).value;
    GroupsSpec(xs);
    OneRowPerPoint(xs, zones);
    RowsNameGroups(xs, keys, zones);
    RowsCarryGroupStats(xs, keys, zones);
    AggregateSpec(layer, cover);
    CellRowsSpec(FirstRows(layer.rows), cover);
    CoverSpec(keys, zones);
    forall code ensures TotalCount(cover, code) > 0 <==> exists g :: 0 <= g < |zones| && code in Codes(zones[g].cells) {
      CoveredByZones(keys, zones, code);
    }
    forall r | r in out.cells
      ensures r.total == |set g | 0 <= g < |keys| && r.cell.code in Codes(zones[g].cells) :: keys[g].0|
    {
      CentresOfCover(keys, zones, r.cell.code);
    }
  }

  /** An IRIS counts as covered exactly when some group's zone holds it. */
  lemma CoveredByZones(keys: seq<(string, string)>, zones: seq<Zone>, code: string)
    requires |zones| == |keys|
    ensures TotalCount(CoverOf(keys, zones), code) > 0 <==> exists g :: 0 <= g < |zones| && code in Codes(zones[g].cells)
  {
    CentresOfCover(keys, zones, code);
    if exists g :: 0 <= g < |zones| && code in Codes(zones[g].cells) {
      var g :| 0 <= g < |zones| && code in Codes(zones[g].cells);
      assert keys[g].0 in CentresCovering(CoverOf(keys, zones), code);
    }
  }

  /** The rows the global statistics aggregate are the layer rows whose
      IRIS some group's zone holds, and only those. */
  lemma CoveredRowsByZones(layer: Frame, keys: seq<(string, string)>, zones: seq<Zone>)
    requires |zones| == |keys|
    ensures forall c :: c in CoveredRows(layer, CoverOf(keys, zones)) <==>
      c in layer.rows && exists g :: 0 <= g < |zones| && c.code in Codes(zones[g].cells)
  {
    var cover := CoverOf(keys, zones);
    CoveredRowsSpec(layer, cover);
    forall c: Cell ensures TotalCount(cover, c.code) > 0 <==> exists g :: 0 <= g < |zones| && c.code in Codes(zones[g].cells) {
      CoveredByZones(keys, zones, c.code);
    }
  }

  /** The global statistics of a completed run (lines 488-490) are those of
      the layer rows whose IRIS some group's zone holds. */
  lemma GlobalSpec(layer: Frame, xs: seq<Located>, keys: seq<(string, string)>, zones: seq<Zone>)
    requires |zones| == |keys|
    requires Assemble(layer, xs, keys, zones).Ok?
    ensures Assemble(layer, xs, keys, zones).value.global
      == ZoneStatistics(Frame(layer.columns, CoveredRows(layer, CoverOf(keys, zones)))).value
    ensures forall c :: c in CoveredRows(layer, CoverOf(keys, zones)) <==>
      c in layer.rows && exists g :: 0 <= g < |zones| && c.code in Codes(zones[g].cells)
  {
    CoveredRowsByZones(layer, keys, zones);
  }

  /** A run with no located point fails: there is nothing to concatenate. */
  lemma NoPointNoRun(zoneOf: ZoneSource, layer: Frame, points: seq<Point>, locate: Locator)
    requires forall p :: p in points ==> locate(p).None?
    ensures Run(zoneOf, layer, points, locate) == Err(NothingToConcatenate)
  {
    var xs := Assigned(points, locate);
    AssignedSpec(points, locate);
    GroupsSpec(xs);
  }
}

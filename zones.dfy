/** The zone of one group of relay points (`_get_zone_for_group_distance`,
    zones_core_km.py:232-310): the IRIS whose centroid lies within the
    environment's radius (plus 5 % slack) of the centre IRIS's centroid,
    found through a spatial index prepared once (`_prepare_iris_index`,
    zones_core_km.py:126-150) and memoised in a cache keyed by centre,
    normalised environment and radius. */
module Zones {
  import opened Common
  import opened Text
  import opened IrisStats

  /** The great-circle distance in km between two centroids (`haversine_km`). */
  type Distance = (LatLon, LatLon) -> real

  /** A query on the R-tree of the projected layer: the codes of the rows,
      in index order, whose bounding box meets the buffer of `radius` km
      around the centre IRIS with the given code. */
  type SpatialIndex = (string, real) -> seq<string>

  /** `env_params`: per normalised environment, its numeric parameters. */
  type EnvParams = map<string, map<string, real>>

  const RadiusParam := "rayon_km"
  const MaxKey := "rayon_max_km"
  const MeanKey := "rayon_moy_km"
  const TheoryKey := "rayon_theorique_km"

  /** Kept distances may exceed the radius by 5 %. */
  const Slack := 1.05

  /** The radius of an environment in km: its `rayon_km` entry, or 0 when
      the entry is absent (line 252). */
  function RadiusOf(params: map<string, real>): real {
    if RadiusParam in params then params[RadiusParam] else 0.0
  }

  // ---------------------------------------------------------------------
  // Layers
  // ---------------------------------------------------------------------

  function Codes(rows: seq<Cell>): seq<string> {
    seq(|rows|, i requires 0 <= i < |rows| => rows[i].code)
  }

  /** `_IRIS_CENTROIDS_4326`: the centroid of every code of the layer; when a
      code appears twice, its later row wins. */
  function CentroidTable(rows: seq<Cell>): (t: map<string, LatLon>)
    ensures forall c :: c in t <==> c in Codes(rows)
  {
    if rows == [] then map[]
    else
      var init, last := rows[..|rows| - 1], rows[|rows| - 1];
      assert Codes(rows) == Codes(init) + [last.code];
      CentroidTable(init)[last.code := last.centroid]
  }

  /** Row `i` is the last row of the layer with code `c`. */
  predicate LastOfCode(rows: seq<Cell>, i: int, c: string) {
    0 <= i < |rows| && rows[i].code == c && forall j :: i < j < |rows| ==> rows[j].code != c
  }

  /** Each code of the table maps to the centroid of the last row with that
      code. */
  lemma {:induction false} CentroidTableValue(rows: seq<Cell>, c: string)
    requires c in CentroidTable(rows)
    ensures exists i :: LastOfCode(rows, i, c) && CentroidTable(rows)[c] == rows[i].centroid
  {
    var n := |rows| - 1;
    if c == rows[n].code {
      assert LastOfCode(rows, n, c);
    } else {
      CentroidTableValue(rows[..n], c);
      var i :| LastOfCode(rows[..n], i, c) && CentroidTable(rows[..n])[c] == rows[..n][i].centroid;
      LastOfCodeExtend(rows, i, c);
    }
  }

  /** The last row of `c` before a final row with another code is still the
      last row of `c`. */
  lemma LastOfCodeExtend(rows: seq<Cell>, i: int, c: string)
    requires rows != [] && rows[|rows| - 1].code != c && LastOfCode(rows[..|rows| - 1], i, c)
    ensures LastOfCode(rows, i, c) && rows[i] == rows[..|rows| - 1][i]
  {
  }

  /** The rows of the layer whose code is listed, in the layer's own order
      (selection by membership of the code column). */
  function CellsOf(rows: seq<Cell>, codes: seq<string>): (r: seq<Cell>)
    ensures forall c :: c in r <==> c in rows && c.code in codes
    ensures |r| <= |rows|
  {
    if rows == [] then []
    else
      var init, last := rows[..|rows| - 1], rows[|rows| - 1];
      assert rows == init + [last];
      CellsOf(init, codes) + (if last.code in codes then [last] else [])
  }

  // ---------------------------------------------------------------------
  // Selecting the IRIS of a zone
  // ---------------------------------------------------------------------

  /** The candidates that `_IRIS_CENTROIDS_4326.loc[...]` cannot find, in order. */
  function Missing(cands: seq<string>, table: map<string, LatLon>): (r: seq<string>)
    ensures forall c :: c in r <==> c in cands && c !in table
  {
    if cands == [] then []
    else
      var init, last := cands[..|cands| - 1], cands[|cands| - 1];
      assert cands == init + [last];
      Missing(init, table) + (if last in table then [] else [last])
  }

  /** The codes and distances that the loop of lines 287-293 appends: the
      candidates whose centroid lies within `limit` of `origin`, in order. */
  function Kept(origin: LatLon, cands: seq<string>, table: map<string, LatLon>, dist: Distance, limit: real): (seq<string>, seq<real>)
    requires forall c :: c in cands ==> c in table
  {
    if cands == [] then ([], [])
    else
      var init, last := cands[..|cands| - 1], cands[|cands| - 1];
      var (codes, ds) := Kept(origin, init, table, dist, limit);
      var d := dist(origin, table[last]);
      if d <= limit then (codes + [last], ds + [d]) else (codes, ds)
  }

  /** The distance filter, run over the candidates as the source loops. */
  method FilterByDistance(origin: LatLon, cands: seq<string>, table: map<string, LatLon>, dist: Distance, limit: real)
    returns (keep: seq<string>, distances: seq<real>)
    requires forall c :: c in cands ==> c in table
    ensures (keep, distances) == Kept(origin, cands, table, dist, limit)
  {
    keep, distances := [], [];
    var i := 0;
    while i < |cands|
      invariant 0 <= i <= |cands|
      invariant (keep, distances) == Kept(origin, cands[..i], table, dist, limit)
    {
      var code := cands[i];
      assert cands[..i + 1][..i] == cands[..i];
      var d := dist(origin, table[code]);
      if d <= limit {
        keep := keep + [code];
        distances := distances + [d];
      }
      i := i + 1;
    }
    assert cands[..i] == cands;
  }

  /** A candidate is kept exactly when its centroid is within the limit;
      each kept code comes with its own distance, which is within the limit. */
  lemma {:induction false} KeptSpec(origin: LatLon, cands: seq<string>, table: map<string, LatLon>, dist: Distance, limit: real)
    requires forall c :: c in cands ==> c in table
    ensures var (codes, ds) := Kept(origin, cands, table, dist, limit);
      && |codes| == |ds|
      && (forall c :: c in codes <==> c in cands && dist(origin, table[c]) <= limit)
      && (forall j :: 0 <= j < |codes| ==> ds[j] == dist(origin, table[codes[j]]) && ds[j] <= limit)
  {
    if cands != [] {
      var init := cands[..|cands| - 1];
      assert cands == init + [cands[|cands| - 1]];
      KeptSpec(origin, init, table, dist, limit);
    }
  }

  /** The largest of the distances (`max(distances)`). */
  function MaxOf(ds: seq<real>): (m: real)
    requires ds != []
    ensures m in ds
    ensures forall j :: 0 <= j < |ds| ==> ds[j] <= m
  {
    if |ds| == 1 then ds[0]
    else
      var m0 := MaxOf(ds[..|ds| - 1]);
      assert forall j :: 0 <= j < |ds| - 1 ==> ds[j] == ds[..|ds| - 1][j];
      if ds[|ds| - 1] > m0 then ds[|ds| - 1] else m0
  }

  /** The arithmetic mean of the kept distances (line 300). */
  function Mean(ds: seq<real>): real
    requires ds != []
  {
    Sum(ds) / (|ds| as real)
  }

  /** The three radius figures added to the statistics; an empty zone has a
      largest and mean distance of 0. */
  function RadiusEntries(ds: seq<real>, radius: real): Stats {
    if ds == [] then [(MaxKey, Num(0.0)), (MeanKey, Num(0.0)), (TheoryKey, Num(radius))]
    else [(MaxKey, Num(MaxOf(ds))), (MeanKey, Num(Mean(ds))), (TheoryKey, Num(radius))]
  }

  /** `s` is at most `n` times `m`. */
  predicate AtMostTimes(s: real, n: real, m: real) {
    s <= n * m
  }

  lemma {:induction false} SumAtMost(ds: seq<real>, m: real)
    requires forall j :: 0 <= j < |ds| ==> ds[j] <= m
    ensures AtMostTimes(Sum(ds), |ds| as real, m)
  {
    if ds != [] {
      var init := ds[..|ds| - 1];
      SumAtMost(init, m);
      StepTimes(Sum(init), |init| as real, m, ds[|ds| - 1]);
    }
  }

  lemma StepTimes(s: real, n: real, m: real, d: real)
    requires AtMostTimes(s, n, m) && d <= m
    ensures AtMostTimes(s + d, n + 1.0, m)
  {
    assert (n + 1.0) * m == n * m + m;
  }

  lemma {:induction false} SumAtLeastZero(ds: seq<real>)
    requires forall j :: 0 <= j < |ds| ==> ds[j] >= 0.0
    ensures Sum(ds) >= 0.0
  {
    if ds != [] {
      SumAtLeastZero(ds[..|ds| - 1]);
    }
  }

  /** The mean distance never exceeds the largest one, which never exceeds
      the limit; with non-negative distances the mean is non-negative. */
  lemma MeanWithinMax(ds: seq<real>, limit: real)
    requires ds != []
    requires forall j :: 0 <= j < |ds| ==> 0.0 <= ds[j] <= limit
    ensures 0.0 <= Mean(ds) <= MaxOf(ds) <= limit
  {
    var m := MaxOf(ds);
    SumAtMost(ds, m);
    SumAtLeastZero(ds);
    DivideBounds(Sum(ds), |ds| as real, m);
  }

  lemma DivideBounds(s: real, n: real, m: real)
    requires n > 0.0 && 0.0 <= s && AtMostTimes(s, n, m)
    ensures 0.0 <= s / n <= m
  {
    assert s / n * n == s;
  }

  // ---------------------------------------------------------------------
  // One zone, computed afresh
  // ---------------------------------------------------------------------

  /** A cache key `(code_iris_centre, env_val_norm, rayon_km)`. */
  datatype CacheKey = CacheKey(centre: string, env: string, radius: real)

  /** A cache value `(keep_codes, stats_zone)`. */
  datatype CacheEntry = CacheEntry(codes: seq<string>, stats: Stats)

  /** What `_get_zone_for_group_distance` returns: the rows of the layer in
      the zone, and its statistics. */
  datatype Zone = Zone(cells: seq<Cell>, stats: Stats)

  /** The codes and distances of a zone, read from the prepared layer: the
      centre must be one of its codes (lines 265-267), every candidate of the
      index must have a centroid (line 285), and candidates are filtered by
      distance (lines 287-293). */
  function Select(prepared: Frame, index: SpatialIndex, dist: Distance, centre: string, radius: real)
    : Result<(seq<string>, seq<real>), Failure>
  {
    var table := CentroidTable(prepared.rows);
    if centre !in Codes(prepared.rows) then Err(CentreNotFound(centre))
    else
      var cands := index(centre, radius);
      var missing := Missing(cands, table);
      if missing != [] then Err(UnknownCandidates(missing))
      else Ok(Kept(table[centre], cands, table, dist, radius * Slack))
  }

  /** An R-tree built on the prepared layer only returns codes of that
      layer, whose centroids are all in the table; then the selection can
      only fail because the centre is unknown. */
  lemma SelectFailsOnlyOnUnknownCentre(prepared: Frame, index: SpatialIndex, dist: Distance, centre: string, radius: real)
    requires forall x :: x in index(centre, radius) ==> x in Codes(prepared.rows)
    ensures Select(prepared, index, dist, centre, radius).Err? <==> centre !in Codes(prepared.rows)
    ensures Select(prepared, index, dist, centre, radius).Err? ==>
      Select(prepared, index, dist, centre, radius).error == CentreNotFound(centre)
  {
    var table := CentroidTable(prepared.rows);
    MissingNone(index(centre, radius), table);
  }

  /** No candidate is missing when all of them are in the table. */
  lemma {:induction false} MissingNone(cands: seq<string>, table: map<string, LatLon>)
    requires forall x :: x in cands ==> x in table
    ensures Missing(cands, table) == []
  {
    if cands != [] {
      var init := cands[..|cands| - 1];
      assert forall x :: x in init ==> x in cands;
      MissingNone(init, table);
      assert cands[|cands| - 1] in cands;
    }
  }

  /** The cache entry computed on a miss: the statistics of the layer's rows
      in the zone, followed by the radius figures (lines 295-305). */
  function ComputeEntry(prepared: Frame, index: SpatialIndex, dist: Distance, layer: Frame, centre: string, radius: real)
    : Result<CacheEntry, Failure>
  {
    match Select(prepared, index, dist, centre, radius)
    case Err(e) => Err(e)
    case Ok(sel) =>
      match ZoneStatistics(Frame(layer.columns, CellsOf(layer.rows, sel.0)))
      case Err(e) => Err(e)
      case Ok(s) => Ok(CacheEntry(sel.0, s + RadiusEntries(sel.1, radius)))
  }

  /** The zone of a group as it would be computed with an empty cache:
      the environment must be known (lines 248-250) and have a positive
      radius (lines 252-256). */
  function FreshZone(prepared: Frame, index: SpatialIndex, dist: Distance, layer: Frame,
                     centre: string, env: string, envParams: EnvParams): Result<Zone, Failure>
  {
    var norm := Normalize(env);
    if norm !in envParams then Err(UnknownEnv(env))
    else
      var radius := RadiusOf(envParams[norm]);
      if radius <= 0.0 then Err(BadRadius(norm))
      else
        ZoneOf(ComputeEntry(prepared, index, dist, layer, centre, radius), layer)
  }

  /** The zone of a cache entry: its codes read back from the layer. */
  function ZoneOf(entry: Result<CacheEntry, Failure>, layer: Frame): Result<Zone, Failure> {
    match entry
    case Err(e) => Err(e)
    case Ok(en) => Ok(Zone(CellsOf(layer.rows, en.codes), en.stats))
  }

  /** Every code of a zone has its centroid within the radius plus slack of
      the centre's centroid, and every candidate that is that close is in the
      zone; the centre itself is in the zone when the index returns it and
      its distance to itself is 0. */
  lemma SelectSpec(prepared: Frame, index: SpatialIndex, dist: Distance, centre: string, radius: real)
    requires Select(prepared, index, dist, centre, radius).Ok?
    ensures var table := CentroidTable(prepared.rows);
      var (codes, ds) := Select(prepared, index, dist, centre, radius).value;
      && centre in table
      && (forall c :: c in codes <==>
            c in index(centre, radius) && dist(table[centre], table[c]) <= radius * Slack)
      && |ds| == |codes|
      && (forall j :: 0 <= j < |codes| ==> ds[j] == dist(table[centre], table[codes[j]]))
      && ((radius > 0.0 && centre in index(centre, radius) && dist(table[centre], table[centre]) == 0.0)
            ==> centre in codes)
  {
    var table := CentroidTable(prepared.rows);
    var cands := index(centre, radius);
    assert Missing(cands, table) == [];
    KeptSpec(table[centre], cands, table, dist, radius * Slack);
  }

  /** The radius figures: the largest and the mean kept distance (0 and 0
      when nothing is kept), then the theoretical radius, which is the
      environment's; with non-negative distances 0 <= mean <= max <= 1.05 * radius. */
  lemma RadiusFigures(prepared: Frame, index: SpatialIndex, dist: Distance, layer: Frame, centre: string, radius: real)
    requires radius > 0.0
    requires forall a, b :: dist(a, b) >= 0.0
    requires ComputeEntry(prepared, index, dist, layer, centre, radius).Ok?
    ensures var s := ComputeEntry(prepared, index, dist, layer, centre, radius).value.stats;
      && |s| >= 3
      && s[|s| - 1] == (TheoryKey, Num(radius))
      && s[|s| - 3].0 == MaxKey && s[|s| - 2].0 == MeanKey
      && s[|s| - 3].1.Num? && s[|s| - 2].1.Num?
      && 0.0 <= s[|s| - 2].1.x <= s[|s| - 3].1.x <= radius * Slack
    ensures var s := ComputeEntry(prepared, index, dist, layer, centre, radius).value.stats;
      var ds := Select(prepared, index, dist, centre, radius).value.1;
      && (ds == [] ==> s[|s| - 3].1 == Num(0.0) && s[|s| - 2].1 == Num(0.0))
      && (ds != [] ==> s[|s| - 3].1 == Num(MaxOf(ds)) && s[|s| - 2].1 == Num(Mean(ds)))
  {
    var sel := Select(prepared, index, dist, centre, radius).value;
    SelectSpec(prepared, index, dist, centre, radius);
    var table := CentroidTable(prepared.rows);
    var (codes, ds) := sel;
    forall j | 0 <= j < |ds|
      ensures 0.0 <= ds[j] <= radius * Slack
    {
      assert codes[j] in codes;
    }
    RadiusEntriesBounds(ds, radius, radius * Slack);
    var s := ZoneStatistics(Frame(layer.columns, CellsOf(layer.rows, codes))).value;
    LastThree(s, RadiusEntries(ds, radius));
  }

  /** The radius figures of non-negative distances bounded by `limit`. */
  lemma RadiusEntriesBounds(ds: seq<real>, radius: real, limit: real)
    requires 0.0 <= limit
    requires forall j :: 0 <= j < |ds| ==> 0.0 <= ds[j] <= limit
    ensures var r := RadiusEntries(ds, radius);
      && |r| == 3
      && r[2] == (TheoryKey, Num(radius))
      && r[0].0 == MaxKey && r[1].0 == MeanKey
      && r[0].1.Num? && r[1].1.Num?
      && 0.0 <= r[1].1.x <= r[0].1.x <= limit
    ensures ds == [] ==> RadiusEntries(ds, radius)[0].1 == Num(0.0) && RadiusEntries(ds, radius)[1].1 == Num(0.0)
    ensures ds != [] ==> RadiusEntries(ds, radius)[0].1 == Num(MaxOf(ds)) && RadiusEntries(ds, radius)[1].1 == Num(Mean(ds))
  {
    if ds != [] {
      MeanWithinMax(ds, limit);
    }
  }

  /** The last three entries of `s + r` are those of `r`. */
  lemma LastThree(s: Stats, r: Stats)
    requires |r| == 3
    ensures var t := s + r;
      |t| >= 3 && t[|t| - 1] == r[2] && t[|t| - 2] == r[1] && t[|t| - 3] == r[0]
  {
  }

  /** The computation of a cache entry from the prepared layer, its index
      and its centroid table (lines 264-305): the centre must be known, the
      index is then queried once, every candidate must have a centroid, and
      the statistics of the kept rows are followed by the radius figures.
      `queried` tells whether the index was queried. */
  method BuildEntry(prepared: Frame, query: SpatialIndex, table: map<string, LatLon>, dist: Distance,
                    layer: Frame, centre: string, radius: real)
    returns (r: Result<CacheEntry, Failure>, queried: bool)
    requires table == CentroidTable(prepared.rows)
    ensures r == ComputeEntry(prepared, query, dist, layer, centre, radius)
    ensures queried == (centre in Codes(prepared.rows))
  {
    if centre !in Codes(prepared.rows) {
      return Err(CentreNotFound(centre)), false;
    }
    queried := true;
    var origin := table[centre];
    var cands := query(centre, radius);
    var missing := Missing(cands, table);
    if missing != [] {
      return Err(UnknownCandidates(missing)), queried;
    }
    var keep, distances := FilterByDistance(origin, cands, table, dist, radius * Slack);
    assert Select(prepared, query, dist, centre, radius) == Ok((keep, distances));
    var stats := ZoneStatistics(Frame(layer.columns, CellsOf(layer.rows, keep)));
    if stats.Err? {
      return Err(stats.error), queried;
    }
    r := Ok(CacheEntry(keep, stats.value + RadiusEntries(distances, radius)));
  }

  /** How a cache entry is computed from a layer and a key. */
  type EntrySource = (Frame, CacheKey) -> Result<CacheEntry, Failure>

  /** The entry computed from the prepared globals for a layer and a key. */
  function EntryOf(prepared: Frame, index: SpatialIndex, dist: Distance): EntrySource {
    (layer: Frame, key: CacheKey) => ComputeEntry(prepared, index, dist, layer, key.centre, key.radius)
  }

  /** The entry cached under `key`. */
  ghost function Cached(cache: map<CacheKey, CacheEntry>, key: CacheKey): CacheEntry
    requires key in cache
  {
    cache[key]
  }

  /** Every cached entry is keyed by a normalised environment and a positive
      radius, has a recorded layer, and is what `entryOf` computes from it.
      The quantifier is triggered only by `Cached`, so that clients that do
      not look into the cache never unfold how entries are computed. */
  ghost predicate SoundCache(entryOf: EntrySource, origins: map<CacheKey, Frame>, cache: map<CacheKey, CacheEntry>) {
    forall key {:trigger Cached(cache, key)} | key in cache ::
      && key.radius > 0.0
      && IsNormal(key.env)
      && key in origins
      && entryOf(origins[key], key) == Ok(Cached(cache, key))
  }

  /** What a sound cache says about one of its keys. */
  lemma CachedSound(entryOf: EntrySource, origins: map<CacheKey, Frame>, cache: map<CacheKey, CacheEntry>,
                    key: CacheKey)
    requires SoundCache(entryOf, origins, cache) && key in cache
    ensures key.radius > 0.0 && IsNormal(key.env)
    ensures key in origins && entryOf(origins[key], key) == Ok(cache[key])
  {
    assert Cached(cache, key) == cache[key];
  }

  /** Storing a freshly computed entry keeps the cache sound. */
  lemma StoreKeepsSound(entryOf: EntrySource, origins: map<CacheKey, Frame>, cache: map<CacheKey, CacheEntry>,
                        key: CacheKey, layer: Frame, entry: CacheEntry)
    requires SoundCache(entryOf, origins, cache)
    requires key.radius > 0.0 && IsNormal(key.env)
    requires entryOf(layer, key) == Ok(entry)
    ensures SoundCache(entryOf, origins[key := layer], cache[key := entry])
  {
    forall k | k in cache[key := entry]
      ensures && k.radius > 0.0 && IsNormal(k.env) && k in origins[key := layer]
              && entryOf(origins[key := layer][k], k) == Ok(Cached(cache[key := entry], k))
    {
      if k != key {
        CachedSound(entryOf, origins, cache, k);
      }
    }
  }

  /** Every cache entry was computed from `layer`. */
  ghost predicate Consistent(origins: map<CacheKey, Frame>, layer: Frame) {
    forall key | key in origins :: origins[key] == layer
  }

  /** Recording one more entry computed from `layer` keeps every entry
      recorded from `layer`. */
  lemma ConsistentRecord(origins: map<CacheKey, Frame>, key: CacheKey, layer: Frame)
    requires Consistent(origins, layer)
    ensures Consistent(origins[key := layer], layer)
  {
  }

  /** The cache key of the group (centre, raw label): the centre, the
      normalised label and its radius; none when the label is not configured. */
  function CacheKeyOf(group: (string, string), envParams: EnvParams): (r: seq<CacheKey>)
    ensures |r| <= 1
    ensures r != [] <==> Normalize(group.1) in envParams
    ensures r != [] ==> r[0].centre == group.0 && r[0].env == Normalize(group.1)
  {
    var norm := Normalize(group.1);
    if norm in envParams then [CacheKey(group.0, norm, RadiusOf(envParams[norm]))] else []
  }

  /** `f` applied to each element of `xs`, the results concatenated. */
  function Concat<A, B>(f: A -> seq<B>, xs: seq<A>): seq<B> {
    if xs == [] then [] else Concat(f, xs[..|xs| - 1]) + f(xs[|xs| - 1])
  }

  /** The results of two sequences of elements, one after the other. */
  lemma {:induction false} ConcatAppend<A, B>(f: A -> seq<B>, xs: seq<A>, ys: seq<A>)
    ensures Concat(f, xs + ys) == Concat(f, xs) + Concat(f, ys)
  {
    if ys == [] {
      assert xs + ys == xs;
    } else {
      var init := ys[..|ys| - 1];
      ConcatAppend(f, xs, init);
      assert (xs + ys)[..|xs + ys| - 1] == xs + init;
      assert (xs + ys)[|xs + ys| - 1] == ys[|ys| - 1];
    }
  }

  /** A prefix of the elements gives a prefix of the results. */
  lemma {:induction false} ConcatPrefix<A, B>(f: A -> seq<B>, xs: seq<A>, i: nat)
    requires i <= |xs|
    ensures Concat(f, xs[..i]) <= Concat(f, xs)
  {
    if i == |xs| {
      assert xs[..i] == xs;
    } else {
      var init := xs[..|xs| - 1];
      ConcatPrefix(f, init, i);
      assert init[..i] == xs[..i];
    }
  }

  /** The cache key of a group under `envParams`, as a function. */
  function KeyOfGroup(envParams: EnvParams): ((string, string)) -> seq<CacheKey> {
    (group: (string, string)) => CacheKeyOf(group, envParams)
  }

  /** The entry held under `key`: `Cached` under another name, so that
      reasoning about growth does not set off reasoning about soundness. */
  ghost function Held(cache: map<CacheKey, CacheEntry>, key: CacheKey): CacheEntry
    requires key in cache
  {
    cache[key]
  }

  /** From `cache0` to `cache`, nothing cached is lost or changed, and every
      new entry is keyed by `keyOf` of one of `groups` and was computed from
      `layer`. The quantifiers are triggered by `Held` only, which nothing
      else mentions. */
  ghost predicate CacheGrows(cache0: map<CacheKey, CacheEntry>, origins0: map<CacheKey, Frame>,
                             cache: map<CacheKey, CacheEntry>, origins: map<CacheKey, Frame>,
                             keyOf: ((string, string)) -> seq<CacheKey>, groups: seq<(string, string)>, layer: Frame)
  {
    && origins0.Keys == cache0.Keys && origins.Keys == cache.Keys
    && (forall k {:trigger Held(cache0, k)} | k in cache0 ::
          k in cache && Held(cache, k) == Held(cache0, k) && origins[k] == origins0[k])
    && (forall k {:trigger Held(cache, k)} | k in cache && k !in cache0 ::
          origins[k] == layer && k in Concat(keyOf, groups))
  }

  /** An unchanged cache grows by nothing. */
  lemma GrowsNone(cache: map<CacheKey, CacheEntry>, origins: map<CacheKey, Frame>,
                  keyOf: ((string, string)) -> seq<CacheKey>, groups: seq<(string, string)>, layer: Frame)
    requires origins.Keys == cache.Keys
    ensures CacheGrows(cache, origins, cache, origins, keyOf, groups, layer)
  {
  }

  /** Storing a new entry under the key of one of the groups, computed from
      `layer`. */
  lemma GrowsOne(cache: map<CacheKey, CacheEntry>, origins: map<CacheKey, Frame>, key: CacheKey, entry: CacheEntry,
                 keyOf: ((string, string)) -> seq<CacheKey>, groups: seq<(string, string)>, layer: Frame)
    requires origins.Keys == cache.Keys && key !in cache && key in Concat(keyOf, groups)
    ensures CacheGrows(cache, origins, cache[key := entry], origins[key := layer], keyOf, groups, layer)
  {
    var cache1, origins1 := cache[key := entry], origins[key := layer];
    forall k | k in cache ensures k in cache1 && Held(cache1, k) == Held(cache, k) && origins1[k] == origins[k] {
      assert k != key;
    }
  }

  /** Growth composes, the groups of both steps together. */
  lemma GrowsTrans(c0: map<CacheKey, CacheEntry>, o0: map<CacheKey, Frame>,
                   c1: map<CacheKey, CacheEntry>, o1: map<CacheKey, Frame>,
                   c2: map<CacheKey, CacheEntry>, o2: map<CacheKey, Frame>,
                   keyOf: ((string, string)) -> seq<CacheKey>, a: seq<(string, string)>, b: seq<(string, string)>,
                   layer: Frame)
    requires CacheGrows(c0, o0, c1, o1, keyOf, a, layer)
    requires CacheGrows(c1, o1, c2, o2, keyOf, b, layer)
    ensures CacheGrows(c0, o0, c2, o2, keyOf, a + b, layer)
  {
    ConcatAppend(keyOf, a, b);
    forall k | k in c0 ensures k in c2 && Held(c2, k) == Held(c0, k) && o2[k] == o0[k] {
      assert Held(c0, k) == c0[k];
      assert k in c1 && Held(c1, k) == Held(c0, k);
      assert Held(c2, k) == Held(c1, k);
    }
    forall k | k in c2 && k !in c0 ensures o2[k] == layer && k in Concat(keyOf, a + b) {
      assert Held(c2, k) == c2[k];
      if k in c1 {
        assert Held(c1, k) == c1[k];
      }
    }
  }

  /** Growth over some groups is growth over any groups that extend them. */
  lemma GrowsWiden(c0: map<CacheKey, CacheEntry>, o0: map<CacheKey, Frame>,
                   c1: map<CacheKey, CacheEntry>, o1: map<CacheKey, Frame>,
                   keyOf: ((string, string)) -> seq<CacheKey>, a: seq<(string, string)>, b: seq<(string, string)>,
                   layer: Frame)
    requires CacheGrows(c0, o0, c1, o1, keyOf, a, layer)
    requires a <= b
    ensures CacheGrows(c0, o0, c1, o1, keyOf, b, layer)
  {
    var keysA, keysB := Concat(keyOf, a), Concat(keyOf, b);
    ConcatPrefix(keyOf, b, |a|);
    assert b[..|a|] == a;
    forall k | k in c0 ensures k in c1 && Held(c1, k) == Held(c0, k) && o1[k] == o0[k] {
      assert Held(c0, k) == c0[k];
    }
    forall k | k in c1 && k !in c0 ensures o1[k] == layer && k in keysB {
      assert Held(c1, k) == c1[k];
      var i :| 0 <= i < |keysA| && keysA[i] == k;
      assert keysB[i] == k;
    }
  }

  // ---------------------------------------------------------------------
  // The engine: the module-level globals and the cache
  // ---------------------------------------------------------------------

  /** The module-level state of the engine: the projected layer, its spatial
      index and centroid table (all None until the first zone is computed),
      and the zone cache, which outlives a run. */
  class ZoneEngine {
    const distance: Distance
    var projected: Option<Frame>                  // _IRIS_GDF_3857
    var spatialIndex: Option<SpatialIndex>        // _IRIS_SINDEX
    var centroids: Option<map<string, LatLon>>    // _IRIS_CENTROIDS_4326
    var cache: map<CacheKey, CacheEntry>          // _ZONE_CACHE_KM
    /** The layer each cache entry was computed from. */
    ghost var origins: map<CacheKey, Frame>
    /** How many times the spatial index has been queried. */
    ghost var indexQueries: nat

    /** The three prepared globals are set together; the centroid table is
        that of the prepared layer; every cached entry has a recorded layer
        and, once the globals are prepared, is sound for them. */
    ghost predicate Valid()
      reads this
    {
      && projected.Some? == spatialIndex.Some?
      && projected.Some? == centroids.Some?
      && (projected.Some? ==> centroids.value == CentroidTable(projected.value.rows))
      && origins.Keys == cache.Keys
      && (projected.None? ==> cache == map[])
      && (projected.Some? ==> SoundCache(EntryOf(projected.value, spatialIndex.value, distance), origins, cache))
    }

    constructor(distance: Distance)
      ensures Valid()
      ensures this.distance == distance
      ensures projected == None && spatialIndex == None && centroids == None
      ensures cache == map[] && indexQueries == 0
    {
      this.distance := distance;
      projected, spatialIndex, centroids := None, None, None;
      cache, origins := map[], map[];
      indexQueries := 0;
    }

    /** `_prepare_iris_index`: does nothing once prepared; otherwise keeps
        the layer, its index and its centroid table. */
    method PrepareIndex(layer: Frame, index: SpatialIndex)
      requires Valid()
      modifies this
      ensures Valid()
      ensures old(projected).Some? ==>
        projected == old(projected) && spatialIndex == old(spatialIndex) && centroids == old(centroids)
      ensures old(projected).None? ==>
        projected == Some(layer) && spatialIndex == Some(index) && centroids == Some(CentroidTable(layer.rows))
      ensures cache == old(cache) && origins == old(origins) && indexQueries == old(indexQueries)
    {
      if projected.Some? {
        return;
      }
      projected := Some(layer);
      spatialIndex := Some(index);
      centroids := Some(CentroidTable(layer.rows));
    }

    /** `_get_zone_for_group_distance`. The configuration is checked before
        the cache is consulted, and errors leave the cache as it was. On a
        hit the index is not queried and the cached codes are read back from
        the current layer with the cached statistics; on a miss the zone is
        computed and, when that succeeds, stored. The result is the fresh
        zone except on a hit whose entry was computed from another layer. */
    method GetZone(centre: string, env: string, layer: Frame, index: SpatialIndex, envParams: EnvParams)
      returns (r: Result<Zone, Failure>)
      requires Valid()
      modifies this
      ensures Valid()
      ensures old(projected).Some? ==>
        projected == old(projected) && spatialIndex == old(spatialIndex) && centroids == old(centroids)
      ensures old(projected).None? ==>
        projected == Some(layer) && spatialIndex == Some(index) && centroids == Some(CentroidTable(layer.rows))
      ensures var norm := Normalize(env);
        norm !in envParams || RadiusOf(envParams[norm]) <= 0.0 ==>
          r == FreshZone(projected.value, spatialIndex.value, distance, layer, centre, env, envParams)
          && cache == old(cache) && origins == old(origins) && indexQueries == old(indexQueries)
      ensures var norm := Normalize(env);
        norm in envParams && RadiusOf(envParams[norm]) > 0.0 ==>
          var key := CacheKey(centre, norm, RadiusOf(envParams[norm]));
          var anew := FreshZone(projected.value, spatialIndex.value, distance, layer, centre, env, envParams);
          if key in old(cache) then
            && r == Ok(Zone(CellsOf(layer.rows, old(cache)[key].codes), old(cache)[key].stats))
            && (old(origins)[key] == layer ==> r == anew)
            && cache == old(cache) && origins == old(origins) && indexQueries == old(indexQueries)
          else
            && r == anew
            && indexQueries == old(indexQueries) + (if centre in Codes(projected.value.rows) then 1 else 0)
            && (r.Ok? ==>
                  var entry := ComputeEntry(projected.value, spatialIndex.value, distance, layer, centre, key.radius);
                  && entry.Ok?
                  && cache == old(cache)[key := entry.value]
                  && origins == old(origins)[key := layer])
            && (r.Err? ==> cache == old(cache) && origins == old(origins))
      ensures Consistent(old(origins), layer) ==>
        && Consistent(origins, layer)
        && r == FreshZone(projected.value, spatialIndex.value, distance, layer, centre, env, envParams)
      ensures CacheGrows(old(cache), old(origins), cache, origins, KeyOfGroup(envParams), [(centre, env)], layer)
    {
      PrepareIndex(layer, index);
      var norm := Normalize(env);
      if norm !in envParams {
        GrowsNone(cache, origins, KeyOfGroup(envParams), [(centre, env)], layer);
        return Err(UnknownEnv(env));
      }
      var radius := RadiusOf(envParams[norm]);
      if radius <= 0.0 {
        GrowsNone(cache, origins, KeyOfGroup(envParams), [(centre, env)], layer);
        return Err(BadRadius(norm));
      }
      r := ZoneForKey(centre, env, norm, radius, layer, envParams);
    }

    /** The part of `_get_zone_for_group_distance` past the configuration
        checks (lines 258-310): a hit reads the cached codes back from the
        current layer, a miss computes the zone and stores it when that
        succeeds. */
    method ZoneForKey(centre: string, ghost env: string, norm: string, radius: real, layer: Frame,
                      ghost envParams: EnvParams)
      returns (r: Result<Zone, Failure>)
      requires Valid() && projected.Some?
      requires norm == Normalize(env) && norm in envParams && radius == RadiusOf(envParams[norm]) && radius > 0.0
      modifies this
      ensures Valid()
      ensures projected == old(projected) && spatialIndex == old(spatialIndex) && centroids == old(centroids)
      ensures var key := CacheKey(centre, norm, radius);
        var anew := FreshZone(projected.value, spatialIndex.value, distance, layer, centre, env, envParams);
        if key in old(cache) then
          && r == Ok(Zone(CellsOf(layer.rows, old(cache)[key].codes), old(cache)[key].stats))
          && (old(origins)[key] == layer ==> r == anew)
          && cache == old(cache) && origins == old(origins) && indexQueries == old(indexQueries)
        else
          && r == anew
          && indexQueries == old(indexQueries) + (if centre in Codes(projected.value.rows) then 1 else 0)
          && (r.Ok? ==>
                var entry := ComputeEntry(projected.value, spatialIndex.value, distance, layer, centre, radius);
                && entry.Ok?
                && cache == old(cache)[key := entry.value]
                && origins == old(origins)[key := layer])
          && (r.Err? ==> cache == old(cache) && origins == old(origins))
      ensures Consistent(old(origins), layer) ==>
        && Consistent(origins, layer)
        && r == FreshZone(projected.value, spatialIndex.value, distance, layer, centre, env, envParams)
      ensures CacheGrows(old(cache), old(origins), cache, origins, KeyOfGroup(envParams), [(centre, env)], layer)
    {
      ghost var groups := [(centre, env)];
      var key := CacheKey(centre, norm, radius);
      if key in cache {
        GrowsNone(cache, origins, KeyOfGroup(envParams), groups, layer);
        r := CacheHit(centre, env, norm, radius, layer, envParams);
        return;
      }
      r := CacheMiss(centre, env, norm, radius, layer, envParams);
    }

    /** The cache hit of `_get_zone_for_group_distance` (lines 258-262): the
        cached codes are read back from the current layer, with the cached
        statistics; when the entry was computed from that same layer, this
        is the fresh zone. */
    method CacheHit(centre: string, ghost env: string, norm: string, radius: real, layer: Frame,
                    ghost envParams: EnvParams)
      returns (r: Result<Zone, Failure>)
      requires Valid() && projected.Some?
      requires norm == Normalize(env) && norm in envParams && radius == RadiusOf(envParams[norm]) && radius > 0.0
      requires CacheKey(centre, norm, radius) in cache
      ensures var key := CacheKey(centre, norm, radius);
        && r == Ok(Zone(CellsOf(layer.rows, cache[key].codes), cache[key].stats))
        && (origins[key] == layer ==>
              r == FreshZone(projected.value, spatialIndex.value, distance, layer, centre, env, envParams))
    {
      var key := CacheKey(centre, norm, radius);
      CachedSound(EntryOf(projected.value, spatialIndex.value, distance), origins, cache, key);
      var entry := cache[key];
      return Ok(Zone(CellsOf(layer.rows, entry.codes), entry.stats));
    }

    /** The cache miss of `_get_zone_for_group_distance` (lines 264-310):
        the zone computed and stored by `ComputeZone` is the fresh zone, and
        the cache gains at most the entry under the group's key. */
    method CacheMiss(centre: string, ghost env: string, norm: string, radius: real, layer: Frame,
                     ghost envParams: EnvParams)
      returns (r: Result<Zone, Failure>)
      requires Valid() && projected.Some?
      requires norm == Normalize(env) && norm in envParams && radius == RadiusOf(envParams[norm]) && radius > 0.0
      requires CacheKey(centre, norm, radius) !in cache
      modifies this
      ensures Valid()
      ensures projected == old(projected) && spatialIndex == old(spatialIndex) && centroids == old(centroids)
      ensures var entry := ComputeEntry(projected.value, spatialIndex.value, distance, layer, centre, radius);
        && (entry.Ok? ==> cache == old(cache)[CacheKey(centre, norm, radius) := entry.value]
                          && origins == old(origins)[CacheKey(centre, norm, radius) := layer])
        && (entry.Err? ==> cache == old(cache) && origins == old(origins))
      ensures indexQueries == old(indexQueries) + (if centre in Codes(projected.value.rows) then 1 else 0)
      ensures r == FreshZone(projected.value, spatialIndex.value, distance, layer, centre, env, envParams)
      ensures Consistent(old(origins), layer) ==> Consistent(origins, layer)
      ensures CacheGrows(old(cache), old(origins), cache, origins, KeyOfGroup(envParams), [(centre, env)], layer)
    {
      NormalizeIsNormal(env);
      ghost var groups := [(centre, env)];
      ghost var cache0, origins0 := cache, origins;
      ghost var entry := ComputeEntry(projected.value, spatialIndex.value, distance, layer, centre, radius);
      var key := CacheKey(centre, norm, radius);
      r := ComputeZone(centre, norm, radius, layer);
      if entry.Ok? {
        assert groups[..0] == [];
        assert Concat(KeyOfGroup(envParams), groups) == [key];
        GrowsOne(cache0, origins0, key, entry.value, KeyOfGroup(envParams), groups, layer);
        if Consistent(origins0, layer) {
          ConsistentRecord(origins0, key, layer);
        }
      } else {
        GrowsNone(cache, origins, KeyOfGroup(envParams), groups, layer);
      }
    }

    /** The miss path of `_get_zone_for_group_distance` (lines 264-310): the
        zone is computed from the prepared globals and, when that succeeds,
        stored under its key. */
    method ComputeZone(centre: string, norm: string, radius: real, layer: Frame) returns (r: Result<Zone, Failure>)
      requires Valid() && projected.Some?
      requires radius > 0.0 && IsNormal(norm)
      requires CacheKey(centre, norm, radius) !in cache
      modifies this
      ensures Valid()
      ensures projected == old(projected) && spatialIndex == old(spatialIndex) && centroids == old(centroids)
      ensures var entry := ComputeEntry(projected.value, spatialIndex.value, distance, layer, centre, radius);
        && r == ZoneOf(entry, layer)
        && (entry.Ok? ==> cache == old(cache)[CacheKey(centre, norm, radius) := entry.value]
                          && origins == old(origins)[CacheKey(centre, norm, radius) := layer])
        && (entry.Err? ==> cache == old(cache) && origins == old(origins))
      ensures indexQueries == old(indexQueries) + (if centre in Codes(projected.value.rows) then 1 else 0)
    {
      var entry, queried := BuildEntry(projected.value, spatialIndex.value, centroids.value, distance, layer, centre, radius);
      if queried {
        indexQueries := indexQueries + 1;
      }
      if entry.Err? {
        return Err(entry.error);
      }
      Store(CacheKey(centre, norm, radius), layer, entry.value, EntryOf(projected.value, spatialIndex.value, distance));
      return Ok(Zone(CellsOf(layer.rows, entry.value.codes), entry.value.stats));
    }

    /** The cache write of line 308, for the kept codes and the zone
        statistics: storing an entry that `entryOf` computes from `layer` keeps a cache
        that is sound for `entryOf` sound. */
    method Store(key: CacheKey, layer: Frame, entry: CacheEntry, ghost entryOf: EntrySource)
      requires SoundCache(entryOf, origins, cache) && origins.Keys == cache.Keys
      requires key.radius > 0.0 && IsNormal(key.env)
      requires entryOf(layer, key) == Ok(entry)
      modifies this
      ensures SoundCache(entryOf, origins, cache) && origins.Keys == cache.Keys
      ensures cache == old(cache)[key := entry] && origins == old(origins)[key := layer]
      ensures projected == old(projected) && spatialIndex == old(spatialIndex) && centroids == old(centroids)
      ensures indexQueries == old(indexQueries)
    {
      StoreKeepsSound(entryOf, origins, cache, key, layer, entry);
      cache := cache[key := entry];
      origins := origins[key := layer];
    }
  }
}

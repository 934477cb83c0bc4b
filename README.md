# Catchment zones of relay points, by radius in km

This project models the engine of `zones_core_km.py` in Dafny and proves
properties of the model. The engine computes the catchment zone of every
group of relay points ("points relais").

- Each point is placed in the IRIS (a French census cell) that contains it.
- Points are grouped by (IRIS, environment label).
- For each group, the engine asks for the zone centred on that IRIS. The
  spatial index returns the candidates near the centre. The zone holds every
  candidate whose centroid lies within the environment's radius of the
  centre's centroid, plus 5 % slack.
- The zone comes with socio-demographic statistics (population, weighted
  median income, age, sex and socio-professional distributions) and three
  radius figures.
- Zones are memoised in a module-level cache keyed by (centre, normalised
  label, radius).
- Finally the zones are rolled up per IRIS: how many distinct centres cover
  each IRIS, per label and in total, which label dominates, and the
  statistics of all covered IRIS together.

Layout, one module per file:

- `common.dfy` (`Common`): options, results, the dynamically typed values
  of the statistics dictionaries (`Num`, `None`, `NaN`, infinities, nested
  dicts), and the six exceptions that abort a run.
- `text.dfy` (`Text`): `strip()`, `lower()`, `replace()`, the column-name
  sanitising of `flatten_stats`, and Python's order on `str`.
- `ordering.dfy` (`Ordering`): the sorted, de-duplicated keys that pandas
  `groupby` and `unstack` produce.
- `iris_stats.dfy` (`IrisStats`): `calculer_stats_zone_complet`.
- `flatten.dfy` (`Flatten`): `flatten_stats`, as an imperative loop over an
  insertion-ordered dict, proved against a specification function.
- `zones.dfy` (`Zones`): the selection of a zone's IRIS and the class
  `ZoneEngine`. Its fields are the module globals `_IRIS_GDF_3857`,
  `_IRIS_SINDEX`, `_IRIS_CENTROIDS_4326` and `_ZONE_CACHE_KM`. Its methods
  are `_prepare_iris_index` and `_get_zone_for_group_distance`.
- `rollup.dfy` (`Rollup`): the per-IRIS aggregation at the end of
  `compute_zones_for_relais`.
- `pipeline.dfy` (`Pipeline`): `compute_zones_for_relais`. Its loop over the
  groups calls the engine and is proved against a functional `Run`.

Geometry is a parameter, not computed:

- the spatial join is a `Locator`;
- the buffer query on the R-tree is a `SpatialIndex`;
- `haversine_km` is the engine's `distance` field;
- each IRIS row carries its centroid.

The source's `_get_zone_for_group_distance` is one function. The model
splits it into seven members:

- `GetZone`: the validation of the label and the radius;
- `ZoneForKey`: the choice between a cache hit and a miss;
- `CacheHit`: the cache hit;
- `CacheMiss`: the miss path, related to the fresh zone;
- `ComputeZone`: the computation and storage of the entry on a miss;
- `BuildEntry`: the computation of the entry;
- `Store`: the cache write.

Each part has its own contract, and `GetZone`'s contract states the whole
behaviour.

The central property concerns the cache. Every cached entry is what the
prepared globals compute from the layer it was computed from. Hence a run
whose cache holds nothing computed from another layer returns exactly the
run in which every zone is computed afresh (`ComputeZonesForRelais`,
`GetZone`).

## Model

| member | source | states |
|---|---|---|
| Common.LookupAppend | zones_core_km.py:298-305 | reading a dict extended with new entries: an old key keeps its value, and a new one is found among the additions |
| Text.LowerChar | zones_core_km.py:248 | a lower-cased character is never upper case, is whitespace exactly when the original is, and other characters are unchanged |
| Text.Lower | zones_core_km.py:248 | `lower()` keeps the length |
| Text.LowerSpec | zones_core_km.py:248 | `lower()` leaves no upper-case letter; whitespace stays whitespace in place, every character that is not upper case is kept, and a label without upper-case letters is returned unchanged |
| Text.TrimStart | zones_core_km.py:248 | the result is a suffix of the input, only whitespace is removed, and it does not start with whitespace |
| Text.TrimEnd | zones_core_km.py:248 | the result is a prefix of the input, only whitespace is removed, and it does not end with whitespace |
| Text.Strip | zones_core_km.py:248 | the stripped label neither starts nor ends with whitespace |
| Text.StripSpec | zones_core_km.py:248 | `strip()` keeps a slice of the label with only whitespace before and after it |
| Text.NormalizeIsNormal | zones_core_km.py:248 | a normalised label has no surrounding whitespace and no upper-case letter |
| Text.NormalIsFixed | zones_core_km.py:248 | normalising a label that is already normal changes nothing |
| Text.NormalizeIdempotent | zones_core_km.py:248 | normalising twice is normalising once, so cache keys are stable |
| Text.ReplaceAllAbsent | zones_core_km.py:479 | `replace` of a pattern that does not occur returns the string unchanged |
| Text.ReplaceAllAtStart | zones_core_km.py:479 | a string starting with the pattern has it replaced at the start, and the rest is replaced on its own |
| Text.ReplaceCharConcat | zones_core_km.py:321 | replacing one character distributes over concatenation |
| Text.ReplaceCharRemoves | zones_core_km.py:321 | after replacing `c`, a character absent from the replacement is absent from the result if it was `c` or absent before |
| Text.SanitizeIsCharwise | zones_core_km.py:321 | the three chained replaces equal an independent per-character rewrite: space to `_`, parentheses dropped |
| Text.SanitizeIsClean | zones_core_km.py:321 | a sanitised name has no space and no parenthesis |
| Text.SanitizeClean | zones_core_km.py:321 | a name with no space or parenthesis is left unchanged |
| Text.SanitizeIdempotent | zones_core_km.py:321 | sanitising twice is sanitising once |
| Text.SanitizeConcat | zones_core_km.py:321 | sanitising distributes over concatenation |
| Text.SanitizeJoin | zones_core_km.py:321-324 | a nested column name is the sanitised outer name, `_`, and the sanitised inner key |
| Text.StrLessIrreflexive | zones_core_km.py:393 | no label sorts before itself |
| Text.StrLessTransitive | zones_core_km.py:393 | the string order used to sort groups is transitive |
| Text.StrLessTotal | zones_core_km.py:393 | of two different labels, one sorts before the other |
| Ordering.InsertSpec | zones_core_km.py:393 | inserting into a sorted sequence keeps it sorted and adds exactly the new element |
| Ordering.SortedDistinctSpec | zones_core_km.py:393 | the sorted keys are sorted and hold exactly the elements of the input |
| Ordering.SortedHasNoDuplicates | zones_core_km.py:393 | a strictly sorted sequence has no element twice |
| Ordering.StrLessIsStrictTotal | zones_core_km.py:446-453 | the order of unstacked label columns is a strict total order |
| Ordering.PairLessIsStrictTotal | zones_core_km.py:393 | the lexicographic order on (IRIS, label) group keys is a strict total order |
| IrisStats.ZoneStatisticsSpec | zones_core_km.py:155-223 | fails exactly on a non-empty frame without POP_TOTAL; an empty frame gives population 0 alone; the population is the NaN-skipping sum; the income entry is present exactly when the frame is non-empty with an income column, and equals the population-weighted income; each distribution is present exactly when its columns exist and their total is positive, and is then a percent distribution over its labels |
| IrisStats.DistributionSumsTo100 | zones_core_km.py:187-221 | a distribution exists exactly when all its columns exist with a positive total, and its shares, before rounding, sum to 100 |
| IrisStats.FullStatsLookup | zones_core_km.py:170-221 | each statistic's key reads back the value computed for it, and no other key is present |
| IrisStats.WeightedIncomeBounds | zones_core_km.py:176-186 | when the incomes lie in [lo, hi] with non-negative populations and positive total weight, the weighted income is a number in [lo, hi] |
| IrisStats.RowWithoutIncome | zones_core_km.py:173-182 | a row with NaN income adds to the population but leaves the weighted income unchanged |
| Flatten.PutShape | zones_core_km.py:325-327 | assigning an existing key keeps the dict's length and key order; a new key is appended |
| Flatten.PutLookup | zones_core_km.py:325-327 | after `out[k] = v`, `k` reads `v` and every other key reads as before |
| Flatten.PutDistinct | zones_core_km.py:325-327 | assignment keeps the dict's keys distinct |
| Flatten.LastWrite | zones_core_km.py:319-328 | the last value written under a key was written under it, and a key never written is absent |
| Flatten.FlattenStats | zones_core_km.py:312-328 | the loop builds the dict obtained by writing every flattened pair in order into an empty dict |
| Flatten.FlattenEntry | zones_core_km.py:320-327 | one pass of the outer loop writes that entry's pairs after those of the earlier entries |
| Flatten.PutAllLookup | zones_core_km.py:319-328 | after a sequence of writes, a key reads its last written value, or its old value if it was never written |
| Flatten.PutAllDistinct | zones_core_km.py:319-328 | writing pairs with distinct keys into an empty dict produces exactly those pairs, in order |
| Flatten.PutAllHasDistinctKeys | zones_core_km.py:319-328 | the flattened dict never holds a key twice |
| Flatten.FlattenWithClean | zones_core_km.py:321-324 | when the name mapping always yields clean names, every flattened column name is clean |
| Flatten.FlattenPairsClean | zones_core_km.py:321-324 | every column name `flatten_stats` writes has no space or parenthesis |
| Flatten.FlattenStatsSpec | zones_core_km.py:312-328 | the flattened dict has distinct, clean keys, and each key holds the last value written under it |
| Flatten.FlattenScalarEntry | zones_core_km.py:321-327 | a non-dict entry becomes one column, the sanitised prefixed key, with its value |
| Flatten.FlattenDictEntry | zones_core_km.py:321-325 | a nested dict becomes one column per inner key, named outer `_` inner, sanitised, with the inner value |
| Flatten.FlattenWithConcat | zones_core_km.py:320-327 | flattening distributes over concatenating the entries |
| Zones.CentroidTable | zones_core_km.py:142-149 | the centroid table has exactly the codes of the prepared layer |
| Zones.CentroidTableValue | zones_core_km.py:142-149 | the centroid recorded for a code is that of the last layer row with that code |
| Zones.CellsOf | zones_core_km.py:261 | `isin` selects exactly the layer rows whose code is listed, never more rows than the layer has |
| Zones.Missing | zones_core_km.py:285 | the candidates `.loc` cannot find are exactly those absent from the centroid table |
| Zones.FilterByDistance | zones_core_km.py:287-293 | the loop keeps the codes and distances that the reference definition `Kept` selects |
| Zones.KeptSpec | zones_core_km.py:287-293 | one distance per kept code; a candidate is kept exactly when its centroid is within the limit; each recorded distance is its code's and is within the limit |
| Zones.MaxOf | zones_core_km.py:299 | the maximum is one of the distances and none exceeds it |
| Zones.MeanWithinMax | zones_core_km.py:298-300 | for distances in [0, limit], 0 <= mean <= max <= limit |
| Zones.SelectSpec | zones_core_km.py:264-293 | a successful selection has a known centre; a code is selected exactly when the index returns it and its centroid is within radius × 1.05; the distances are those of the codes; the centre is selected when the index returns it and it is at distance 0 from itself |
| Zones.SelectFailsOnlyOnUnknownCentre | zones_core_km.py:264-285 | with an index that returns only codes of the prepared layer, selection fails exactly when the centre is unknown, and then with `CentreNotFound`; no candidate lacks a centroid |
| Zones.RadiusFigures | zones_core_km.py:298-305 | a zone's statistics end with `rayon_max_km`, `rayon_moy_km` and `rayon_theorique_km`; the theoretical radius is the radius, and 0 <= mean <= max <= 1.05 × radius |
| Zones.RadiusEntriesBounds | zones_core_km.py:298-305 | the three radius figures come in that order and are bounded as above; with no kept IRIS the maximum and the mean are 0 and 0, otherwise they are the maximum and the mean of the distances |
| Zones.BuildEntry | zones_core_km.py:264-305 | the method computes the reference entry `ComputeEntry`, and queries the index exactly when the centre is known |
| Zones.CachedSound | zones_core_km.py:258-262 | a cache hit returns an entry with a positive radius and a normal label, equal to what the globals compute from the entry's recorded layer |
| Zones.StoreKeepsSound | zones_core_km.py:308 | storing an entry computed from a layer keeps every cached entry sound |
| Zones.CacheKeyOf | zones_core_km.py:248-258 | a group has at most one cache key, and has one exactly when its normalised label is known; the key holds the group's IRIS and normalised label |
| Zones.GrowsNone | zones_core_km.py:258-262 | a call that writes nothing leaves the cache as it was |
| Zones.GrowsOne | zones_core_km.py:308 | writing a new entry under a group's key, computed from the current layer, keeps every old entry and its layer |
| Zones.GrowsTrans | zones_core_km.py:400-407 | growth over two runs of groups composes into growth over both runs |
| Zones.GrowsWiden | zones_core_km.py:400-407 | growth by some groups is growth by any longer run of groups that starts with them |
| Zones.ConcatAppend | zones_core_km.py:400-407 | the cache keys of two runs of groups concatenated are the keys of the first run followed by those of the second |
| Zones.ConcatPrefix | zones_core_km.py:400-407 | the cache keys of the first groups are a prefix of the keys of all groups |
| Zones.ZoneEngine.constructor | zones_core_km.py:121-123 | the engine starts with no prepared globals and an empty cache (line 229) |
| Zones.ZoneEngine.PrepareIndex | zones_core_km.py:126-150 | does nothing once prepared; otherwise keeps the layer, its index and its centroid table; the cache is untouched |
| Zones.ZoneEngine.GetZone | zones_core_km.py:232-310 | an unknown label or non-positive radius fails without touching the cache; a hit returns the cached codes read from the current layer, with the cached statistics, and queries nothing; a miss returns the fresh zone, queries the index once if the centre is known, and stores the entry exactly when it succeeds; with no entry from another layer, the result is the fresh zone; old entries and their layers are kept, and any new entry sits under the group's key, computed from the current layer |
| Zones.ZoneEngine.ZoneForKey | zones_core_km.py:258-310 | for a configured label with a positive radius: a hit returns the cached codes read from the current layer and changes nothing; a miss returns the fresh zone and stores the entry exactly when it succeeds; old entries are kept and any new one sits under the group's key |
| Zones.ZoneEngine.CacheHit | zones_core_km.py:258-262 | a hit returns the cached codes read back from the current layer, with the cached statistics, and this is the fresh zone when the entry was computed from that layer |
| Zones.ZoneEngine.CacheMiss | zones_core_km.py:264-310 | a miss returns the fresh zone, queries the index once if the centre is known, stores the entry exactly when it succeeds, and adds only that entry, computed from the current layer |
| Zones.ZoneEngine.ComputeZone | zones_core_km.py:264-310 | the miss path returns the zone of the computed entry and stores that entry under its key exactly when it succeeds |
| Zones.ZoneEngine.Store | zones_core_km.py:308 | the cache gains the entry under its key, and stays sound |
| Rollup.FirstMax | zones_core_km.py:478 | `idxmax` is the first position of a largest count |
| Rollup.FirstRows | zones_core_km.py:456-461 | `drop_duplicates` keeps only layer rows and loses no code |
| Rollup.FirstRowsSpec | zones_core_km.py:459 | `drop_duplicates` keeps exactly the first row of each code, and keeps them in layer order |
| Rollup.CoveredIff | zones_core_km.py:439-443 | an IRIS has a positive `nb_zones_total` exactly when some zone contains it |
| Rollup.EnvCountAtMostTotal | zones_core_km.py:439-453 | no per-label count exceeds `nb_zones_total` |
| Rollup.SomeLabelCounts | zones_core_km.py:446-453 | a covered IRIS has a label column with a positive count |
| Rollup.DominantLabel | zones_core_km.py:477-479 | `_type_env` of a covered row is the dominant column name with `nb_zones_` removed, which is the label itself when it does not contain `nb_zones_` |
| Rollup.TypeEnvSpec | zones_core_km.py:471-481 | the dominant environment of a covered IRIS is the first label, in column order, with the largest and positive count |
| Rollup.EnvLabelsSpec | zones_core_km.py:446-453 | the label columns are sorted and are exactly the labels present in the zones |
| Rollup.CellRowsSpec | zones_core_km.py:463-484 | `iris_agg_df` holds exactly the covered deduplicated rows, each with its counts and dominant environment |
| Rollup.FirstRowsDistinct | zones_core_km.py:459 | the deduplicated layer has distinct codes |
| Rollup.CellRowsSub | zones_core_km.py:484 | keeping the covered rows of rows with distinct codes leaves distinct codes |
| Rollup.CoveredRowsSpec | zones_core_km.py:486-490 | the rows of the global statistics are exactly the layer rows whose code has a positive `nb_zones_total` |
| Rollup.AggregateSpec | zones_core_km.py:456-484 | `iris_agg_df` has one row per code, and its codes are exactly the layer's codes that some zone covers |
| Rollup.CellRowCodes | zones_core_km.py:463-484 | the codes of the summarised rows are exactly the covered codes among the rows summarised |
| Pipeline.ZonesOf | zones_core_km.py:400-407 | a run that gets through every group has one zone per group |
| Pipeline.ZonesOfSpec | zones_core_km.py:400-407 | the run gets through exactly when every group's zone does, then group `g` has its own zone; a failed run reports the error of a group whose zone fails, all earlier groups having succeeded |
| Pipeline.EmitRows | zones_core_km.py:415-430 | the inner loop emits one row per point of the group, in order, each carrying the flattened statistics |
| Pipeline.GroupStep | zones_core_km.py:400-430 | one group appends its rows and its zone's IRIS, or the run fails with the error the functional run reports; the layer is then prepared, old cache entries and their layers are kept, and new entries sit under the keys of the groups seen so far |
| Pipeline.GrowsStep | zones_core_km.py:400-407 | the cache's growth before a group and during it add up to growth over the groups seen so far, and over all the groups |
| Pipeline.ZonesForGroups | zones_core_km.py:400-430 | the loop's rows and IRIS are those of the zones handed out, one per group; with no entry from another layer, those zones, or the first failure, are the fresh ones; after at least one group the layer, its index and centroid table are prepared; the cache keeps its old entries and gains only entries under group keys, computed from the current layer |
| Pipeline.ComputeZonesForRelais | zones_core_km.py:334-496 | a completed run is the assembly of one zone per group; with no cache entry from another layer, the run equals the run with every zone computed afresh; once a point is located, the globals hold the first prepared layer and its centroid table; the cache keeps its old entries and gains only entries under group keys, computed from the current layer |
| Pipeline.AbortPersists | zones_core_km.py:400-407 | once a group fails, later groups do not change the outcome |
| Pipeline.AssignedSpec | zones_core_km.py:361-390 | exactly the points the join places in an IRIS are kept, each with that IRIS |
| Pipeline.GroupsSpec | zones_core_km.py:393 | the groups come in increasing (IRIS, label) order, each once, and are exactly the keys of the located points |
| Pipeline.MembersSpec | zones_core_km.py:393 | a group holds exactly the points with its key |
| Pipeline.GroupedWithin | zones_core_km.py:393-400 | taking the points group after group, for distinct keys, yields the points whose key is among them, as a multiset |
| Pipeline.SummaryPoints | zones_core_km.py:400-430 | the rows describe the points, group after group |
| Pipeline.OneRowPerPoint | zones_core_km.py:390-430 | every located point yields exactly one row, naming it and its IRIS |
| Pipeline.GroupRowsSpec | zones_core_km.py:415-430 | the rows of a group name its IRIS and label and carry the group's statistics |
| Pipeline.RowsNameGroups | zones_core_km.py:423-424 | every row names one of the groups |
| Pipeline.RowsCarryGroupStats | zones_core_km.py:427-429 | every row carries the flattened statistics of its own group's zone |
| Pipeline.ZoneCoverSpec | zones_core_km.py:409-412 | a zone's IRIS rows are its IRIS, each tagged with the group's centre and label |
| Pipeline.CoverSpec | zones_core_km.py:409-436 | `iris_zone_all` holds exactly the IRIS of each group's zone, tagged with that group |
| Pipeline.CentresOfCover | zones_core_km.py:439-443 | the centres counted for an IRIS are those of the groups whose zone holds it |
| Pipeline.CoveredByZones | zones_core_km.py:439-443 | an IRIS has a positive `nb_zones_total` exactly when some group's zone holds it |
| Pipeline.CoveredRowsByZones | zones_core_km.py:486-490 | the rows `stats_globales` aggregates are exactly the layer rows whose IRIS some group's zone holds |
| Pipeline.GlobalSpec | zones_core_km.py:486-490 | a completed run's `stats_globales` are the statistics of exactly the layer rows whose IRIS some group's zone holds |
| Pipeline.AssembleSpec | zones_core_km.py:432-496 | one row per located point with its own group's statistics; one `iris_agg_df` row per covered IRIS of the layer, whose `nb_zones_total` is the number of distinct centres whose zone holds it |
| Pipeline.NoPointNoRun | zones_core_km.py:436 | a run with no located point raises, because there is nothing to concatenate |

## Left out

- Geometry is given, not computed. CRS reprojection (lines 138, 142, 347-359), the spatial join (361-366), the buffer and R-tree query (277-281), polygon centroids (142) and `haversine_km` (28-37) are parameters. These are the `Locator`, the `SpatialIndex`, each row's centroid and the `distance` function, because they are floating-point geometry from foreign libraries.
- The loaders `load_iris_data` and `load_relais_excel` (43-115) are left out because they are file I/O. So are the export of points without an IRIS (370-387), the `print` calls and the `tqdm` progress bar.
- `app.py` and `test.py` are not part of this model.
- Rounding is left out. `round(..., 2)`, `.round(1)` and `int(round(...))` (174, 183, 193, 202-203, 299-300) are not applied, and ints and floats are both reals. IrisStats.DistributionSumsTo100 states the sum of 100 before rounding, because after rounding it need not hold.
- IrisStats.WeightedIncomeBounds: it assumes non-negative populations, because a negative population can push a weighted mean outside [lo, hi].
- Text.LowerChar: `str.lower()` is modelled for ASCII and Latin-1 letters only, because full Unicode case mapping is a table the model does not carry.
- Zones.CentroidTable: with a duplicated IRIS code, pandas `.loc` returns several rows, but the model keeps the later row. Duplicate codes also duplicate candidates in the distance loop, which the model does not capture. The layer is taken to have one row per code.
- The spatial join uses the predicate `within` (line 365). A point on the border between IRIS is within none of them, so it gets no IRIS and is dropped with the other points without one. A point gets several rows only when IRIS polygons overlap. The `Locator` returns at most one IRIS, so overlapping polygons are not modelled.
- Zones.Select can fail with `UnknownCandidates` when the `SpatialIndex` returns a code that the centroid table lacks. The source cannot reach that `KeyError` (line 285), because its R-tree is built over the prepared layer and line 281 takes the candidates from that layer. The model keeps the branch only because the `SpatialIndex` is an arbitrary function. Zones.SelectFailsOnlyOnUnknownCentre proves that an index over the prepared layer never reaches it.
- NaN environment labels are left out: `groupby` drops them, and `str(nan)` would differ. Labels are strings, and `str()` of non-string labels is not modelled.
- Collisions between names are left out: a label whose column name equals `nb_zones_total`, or a socio column already named `nb_zones_...`. The flattened statistics are put in their own field of a row, so a flattened key that equals one of the row's identity keys does not overwrite that key.
- Rollup.TypeEnvSpec: the label columns are those of `env_counts`, so a socio column already starting with `nb_zones_` is not considered.
- The source's zone cache and the cached statistics dict are shared objects. The model stores values, because nothing in the core mutates a cached dict after it is stored.

## Behaviour worth noting

- Every exception aborts the whole run: an unknown label, a non-positive radius, an unknown centre, or a missing column. The run returns the error of the first failing group, and no later group is tried (Pipeline.ZonesOfSpec, Pipeline.AbortPersists).
- The centre IRIS belongs to its own zone only when the spatial index returns it and its distance to itself is 0. Zones.SelectSpec states that conditional form; it does not take it for granted.
- A cache hit reads the cached codes back from the layer passed in (line 261), not from the layer the entry was computed from. Zones.ZoneEngine.GetZone states both cases.
- An IRIS with no zone gets `nb_zones_total` 0 and `type_env_iris` "Non couverte", then the filter at line 484 drops it. So `iris_agg_df` holds covered IRIS only.

/** The roll-up per IRIS at the end of `compute_zones_for_relais`
    (zones_core_km.py:436-490): for every IRIS of the layer, how many
    distinct zone centres cover it, in total and per environment label,
    its dominant environment, and the statistics of all covered IRIS. */
module Rollup {
  import opened Common
  import opened Text
  import opened Ordering
  import opened IrisStats
  import opened Zones

  /** One row of `iris_zone_all`: an IRIS of a zone, with the zone's centre
      and its environment label as found in the points (not normalised). */
  datatype Cover = Cover(code: string, centre: string, env: string)

  const TotalColumn := "nb_zones_total"
  const CountPrefix := "nb_zones_"
  const Uncovered := "Non couverte"

  /** The centres of the zones that contain `code` (`nunique` over them). */
  function CentresCovering(cover: seq<Cover>, code: string): set<string> {
    set i | 0 <= i < |cover| && cover[i].code == code :: cover[i].centre
  }

  /** The same, for the zones of one environment label. */
  function CentresCoveringEnv(cover: seq<Cover>, code: string, env: string): set<string> {
    set i | 0 <= i < |cover| && cover[i].code == code && cover[i].env == env :: cover[i].centre
  }

  /** `nb_zones_total`, zero for an IRIS in no zone (`fillna(0)`). */
  function TotalCount(cover: seq<Cover>, code: string): nat {
    |CentresCovering(cover, code)|
  }

  /** `nb_zones_<env>`, zero for an IRIS in no zone of that label. */
  function EnvCount(cover: seq<Cover>, code: string, env: string): nat {
    |CentresCoveringEnv(cover, code, env)|
  }

  function Envs(cover: seq<Cover>): seq<string> {
    seq(|cover|, i requires 0 <= i < |cover| => cover[i].env)
  }

  /** The columns that `unstack` creates: the labels present, sorted. */
  function EnvLabels(cover: seq<Cover>): seq<string> {
    SortedDistinct(Envs(cover), StrLess)
  }

  /** The per-label counts of an IRIS, in column order. */
  function EnvCounts(cover: seq<Cover>, code: string, labels: seq<string>): (r: seq<(string, nat)>)
    ensures |r| == |labels|
  {
    seq(|labels|, i requires 0 <= i < |labels| => (labels[i], EnvCount(cover, code, labels[i])))
  }

  /** `idxmax`: the position of the first largest count. */
  function FirstMax(counts: seq<(string, nat)>): (i: nat)
    requires counts != []
    ensures i < |counts|
    ensures forall j :: 0 <= j < |counts| ==> counts[j].1 <= counts[i].1
    ensures forall j :: 0 <= j < i ==> counts[j].1 < counts[i].1
  {
    if |counts| == 1 then 0
    else
      var init := counts[..|counts| - 1];
      var i0 := FirstMax(init);
      assert forall j :: 0 <= j < |init| ==> init[j] == counts[j];
      if counts[|counts| - 1].1 > counts[i0].1 then |counts| - 1 else i0
  }

  /** `_type_env`: the label of the dominant column, with every occurrence
      of "nb_zones_" removed from the column name. */
  function TypeEnv(total: nat, counts: seq<(string, nat)>): string {
    if total == 0 || counts == [] then Uncovered
    else ReplaceAll(CountPrefix + counts[FirstMax(counts)].0, CountPrefix, "")
  }

  /** A row of `iris_agg_df`. */
  datatype CellRow = CellRow(cell: Cell, total: nat, byEnv: seq<(string, nat)>, typeEnv: string)

  /** Dropping the rows whose code repeats an earlier one (line 459): the
      first row of every code, in order. */
  function FirstRows(rows: seq<Cell>): (r: seq<Cell>)
    ensures forall c :: c in r ==> c in rows
    ensures forall c :: c in Codes(r) <==> c in Codes(rows)
  {
    if rows == [] then []
    else
      var init, last := rows[..|rows| - 1], rows[|rows| - 1];
      assert Codes(rows) == Codes(init) + [last.code];
      var r0 := FirstRows(init);
      if last.code in Codes(init) then r0
      else
        assert Codes(r0 + [last]) == Codes(r0) + [last.code];
        r0 + [last]
  }

  /** Row `i` is the first row of the layer with its code. */
  predicate FirstOfCode(rows: seq<Cell>, i: int) {
    0 <= i < |rows| && forall j :: 0 <= j < i ==> rows[j].code != rows[i].code
  }

  /** The positions `drop_duplicates` keeps, as a reference. */
  ghost function FirstPositions(rows: seq<Cell>): seq<int> {
    if rows == [] then []
    else
      var n := |rows| - 1;
      FirstPositions(rows[..n]) + (if rows[n].code in Codes(rows[..n]) then [] else [n])
  }

  /** Deduplication by code keeps exactly the rows that are the
      first of their code, in the layer's order: the kept rows are those at
      increasing positions, and a position is kept exactly when its row is
      the first one with its code. */
  lemma {:induction false} FirstRowsSpec(rows: seq<Cell>)
    ensures var r, p := FirstRows(rows), FirstPositions(rows);
      && |r| == |p|
      && (forall k :: 0 <= k < |p| ==> 0 <= p[k] < |rows| && r[k] == rows[p[k]])
      && (forall a, b :: 0 <= a < b < |p| ==> p[a] < p[b])
      && (forall i :: i in p <==> FirstOfCode(rows, i))
  {
    if rows != [] {
      FirstRowsSpec(rows[..|rows| - 1]);
      FirstOfCodeExtend(rows);
    }
  }

  /** One more row: an earlier position is the first of its code exactly
      when it was, and the new row is the first of its code exactly when
      its code is new. */
  lemma FirstOfCodeExtend(rows: seq<Cell>)
    requires rows != []
    ensures var n := |rows| - 1;
      && (forall i :: 0 <= i < n ==> (FirstOfCode(rows[..n], i) <==> FirstOfCode(rows, i)))
      && (rows[n].code in Codes(rows[..n]) <==> !FirstOfCode(rows, n))
  {
    var n := |rows| - 1;
    var init := rows[..n];
    assert forall j :: 0 <= j < n ==> init[j] == rows[j];
    if rows[n].code in Codes(init) {
      var j :| 0 <= j < n && Codes(init)[j] == rows[n].code;
      assert rows[j].code == rows[n].code;
    } else {
      forall j | 0 <= j < n ensures rows[j].code != rows[n].code {
        assert Codes(init)[j] == rows[j].code;
      }
    }
  }

  function Summarise(cover: seq<Cover>, c: Cell): CellRow {
    var total := TotalCount(cover, c.code);
    var counts := EnvCounts(cover, c.code, EnvLabels(cover));
    CellRow(c, total, counts, TypeEnv(total, counts))
  }

  /** `iris_agg_df`: the first row of every code of the layer that lies in at
      least one zone, in the layer's order, with its counts. */
  function CellRows(rows: seq<Cell>, cover: seq<Cover>): seq<CellRow> {
    if rows == [] then []
    else
      var init, last := rows[..|rows| - 1], rows[|rows| - 1];
      CellRows(init, cover) + (if TotalCount(cover, last.code) > 0 then [Summarise(cover, last)] else [])
  }

  function RowCodes(rs: seq<CellRow>): seq<string> {
    seq(|rs|, i requires 0 <= i < |rs| => rs[i].cell.code)
  }

  /** `stats_globales`: the statistics of every layer row, duplicates
      included, whose code is covered. */
  function GlobalStats(layer: Frame, cover: seq<Cover>): Result<Stats, Failure> {
    ZoneStatistics(Frame(layer.columns, CoveredRows(layer, cover)))
  }

  /** The rows of the layer whose code is among those of `iris_agg_df`, in
      the layer's order and with their repetitions. */
  function CoveredRows(layer: Frame, cover: seq<Cover>): seq<Cell> {
    CellsOf(layer.rows, RowCodes(CellRows(FirstRows(layer.rows), cover)))
  }

  // ---------------------------------------------------------------------
  // Properties
  // ---------------------------------------------------------------------

  /** An IRIS is counted by a zone exactly when it occurs in one. */
  lemma CoveredIff(cover: seq<Cover>, code: string)
    ensures TotalCount(cover, code) > 0 <==> exists i :: 0 <= i < |cover| && cover[i].code == code
  {
    if exists i :: 0 <= i < |cover| && cover[i].code == code {
      var i :| 0 <= i < |cover| && cover[i].code == code;
      assert cover[i].centre in CentresCovering(cover, code);
    }
  }

  lemma {:induction false} SubsetSize<T>(a: set<T>, b: set<T>)
    requires a <= b
    ensures |a| <= |b|
  {
    if a != {} {
      var x :| x in a;
      SubsetSize(a - {x}, b - {x});
    }
  }

  /** The zones of one label are among all the zones. */
  lemma EnvCountAtMostTotal(cover: seq<Cover>, code: string, env: string)
    ensures EnvCount(cover, code, env) <= TotalCount(cover, code)
  {
    SubsetSize(CentresCoveringEnv(cover, code, env), CentresCovering(cover, code));
  }

  /** A covered IRIS has a label with at least one zone, and its dominant
      environment is the first label, in sorted order, with the largest
      count; the label comes back unchanged unless it contains "nb_zones_". */
  lemma TypeEnvSpec(cover: seq<Cover>, code: string)
    requires TotalCount(cover, code) > 0
    ensures var labels := EnvLabels(cover);
      var counts := EnvCounts(cover, code, labels);
      exists k :: 0 <= k < |labels|
        && counts[k].1 > 0
        && (forall j :: 0 <= j < |labels| ==> counts[j].1 <= counts[k].1)
        && (forall j :: 0 <= j < k ==> counts[j].1 < counts[k].1)
        && TypeEnv(TotalCount(cover, code), counts) == ReplaceAll(labels[k], CountPrefix, "")
        && (!Occurs(CountPrefix, labels[k]) ==> TypeEnv(TotalCount(cover, code), counts) == labels[k])
  {
    var labels := EnvLabels(cover);
    var counts := EnvCounts(cover, code, labels);
    var e := SomeLabelCounts(cover, code);
    assert counts[e].1 > 0;
    var k := FirstMax(counts);
    DominantLabel(TotalCount(cover, code), counts);
  }

  /** A covered IRIS has a counting column with a positive count. */
  lemma SomeLabelCounts(cover: seq<Cover>, code: string) returns (e: nat)
    requires TotalCount(cover, code) > 0
    ensures e < |EnvLabels(cover)| && EnvCount(cover, code, EnvLabels(cover)[e]) > 0
  {
    var labels := EnvLabels(cover);
    CoveredIff(cover, code);
    var i :| 0 <= i < |cover| && cover[i].code == code;
    StrLessIsStrictTotal();
    SortedDistinctSpec(Envs(cover), StrLess);
    assert Envs(cover)[i] in Envs(cover);
    e :| 0 <= e < |labels| && labels[e] == cover[i].env;
    assert cover[i].centre in CentresCoveringEnv(cover, code, labels[e]);
  }

  /** `_type_env` of a covered row is the dominant column's label with
      "nb_zones_" removed, which is the label itself when it does not
      contain "nb_zones_". */
  lemma DominantLabel(total: nat, counts: seq<(string, nat)>)
    requires total > 0 && counts != []
    ensures TypeEnv(total, counts) == ReplaceAll(counts[FirstMax(counts)].0, CountPrefix, "")
    ensures !Occurs(CountPrefix, counts[FirstMax(counts)].0) ==> TypeEnv(total, counts) == counts[FirstMax(counts)].0
  {
    var top := counts[FirstMax(counts)].0;
    ReplaceAllAtStart(CountPrefix, top, "");
    if !Occurs(CountPrefix, top) {
      ReplaceAllAbsent(top, CountPrefix, "");
    }
  }

  /** The counting columns are the labels present in the zones, each once,
      in increasing order. */
  lemma EnvLabelsSpec(cover: seq<Cover>)
    ensures Sorted(EnvLabels(cover), StrLess)
    ensures forall e :: e in EnvLabels(cover) <==> exists i :: 0 <= i < |cover| && cover[i].env == e
  {
    StrLessIsStrictTotal();
    SortedDistinctSpec(Envs(cover), StrLess);
    forall e | e in EnvLabels(cover) ensures exists i :: 0 <= i < |cover| && cover[i].env == e {
      var i :| 0 <= i < |Envs(cover)| && Envs(cover)[i] == e;
      assert cover[i].env == e;
    }
    forall e | exists i :: 0 <= i < |cover| && cover[i].env == e ensures e in EnvLabels(cover) {
      var i :| 0 <= i < |cover| && cover[i].env == e;
      assert Envs(cover)[i] == e;
    }
  }

  /** `iris_agg_df` holds the covered rows of the layer and only those, each
      with its counts and dominant environment. */
  lemma {:induction false} CellRowsSpec(rows: seq<Cell>, cover: seq<Cover>)
    ensures forall r :: r in CellRows(rows, cover) <==>
      r.cell in rows && TotalCount(cover, r.cell.code) > 0 && r == Summarise(cover, r.cell)
  {
    if rows != [] {
      var init, last := rows[..|rows| - 1], rows[|rows| - 1];
      CellRowsSpec(init, cover);
      assert rows == init + [last];
    }
  }

  /** Deduplicated rows have distinct codes. */
  lemma {:induction false} FirstRowsDistinct(rows: seq<Cell>)
    ensures forall i, j :: 0 <= i < j < |FirstRows(rows)| ==> FirstRows(rows)[i].code != FirstRows(rows)[j].code
  {
    if rows != [] {
      var init, last := rows[..|rows| - 1], rows[|rows| - 1];
      FirstRowsDistinct(init);
      var r0 := FirstRows(init);
      if last.code !in Codes(init) {
        assert last.code !in Codes(r0);
        forall i | 0 <= i < |r0| ensures r0[i].code != last.code {
          assert Codes(r0)[i] == r0[i].code;
        }
      }
    }
  }

  /** There is one row per covered code of the layer: the codes of
      `iris_agg_df` are distinct and are exactly the covered codes. */
  lemma AggregateSpec(layer: Frame, cover: seq<Cover>)
    ensures var rs := CellRows(FirstRows(layer.rows), cover);
      && (forall i, j :: 0 <= i < j < |rs| ==> rs[i].cell.code != rs[j].cell.code)
      && (forall c :: c in RowCodes(rs) <==> c in Codes(layer.rows) && TotalCount(cover, c) > 0)
  {
    var first := FirstRows(layer.rows);
    FirstRowsDistinct(layer.rows);
    CellRowsSub(first, cover);
    CellRowCodes(first, cover);
  }

  /** The codes of the summarised rows are the covered codes among the rows. */
  lemma CellRowCodes(rows: seq<Cell>, cover: seq<Cover>)
    ensures forall c :: c in RowCodes(CellRows(rows, cover)) <==> c in Codes(rows) && TotalCount(cover, c) > 0
  {
    var rs := CellRows(rows, cover);
    CellRowsSpec(rows, cover);
    forall c ensures c in RowCodes(rs) <==> c in Codes(rows) && TotalCount(cover, c) > 0 {
      if c in RowCodes(rs) {
        var i :| 0 <= i < |rs| && RowCodes(rs)[i] == c;
        assert rs[i] in rs;
        var k :| 0 <= k < |rows| && rows[k] == rs[i].cell;
        assert Codes(rows)[k] == c;
      }
      if c in Codes(rows) && TotalCount(cover, c) > 0 {
        var k :| 0 <= k < |rows| && Codes(rows)[k] == c;
        var r := Summarise(cover, rows[k]);
        assert r in rs;
        var i :| 0 <= i < |rs| && rs[i] == r;
        assert RowCodes(rs)[i] == c;
      }
    }
  }

  /** The global statistics are those of exactly the layer rows whose code
      some zone holds: every such row, repetitions included, and no other. */
  lemma CoveredRowsSpec(layer: Frame, cover: seq<Cover>)
    ensures forall c :: c in CoveredRows(layer, cover) <==> c in layer.rows && TotalCount(cover, c.code) > 0
  {
    AggregateSpec(layer, cover);
    forall c | c in layer.rows ensures c.code in Codes(layer.rows) {
      var i :| 0 <= i < |layer.rows| && layer.rows[i] == c;
      assert Codes(layer.rows)[i] == c.code;
    }
  }

  /** The rows of `iris_agg_df` are a subsequence of the deduplicated layer,
      so distinct codes stay distinct. */
  lemma {:induction false} CellRowsSub(rows: seq<Cell>, cover: seq<Cover>)
    requires forall i, j :: 0 <= i < j < |rows| ==> rows[i].code != rows[j].code
    ensures forall i, j :: 0 <= i < j < |CellRows(rows, cover)| ==>
      CellRows(rows, cover)[i].cell.code != CellRows(rows, cover)[j].cell.code
  {
    if rows != [] {
      var init, last := rows[..|rows| - 1], rows[|rows| - 1];
      assert forall k :: 0 <= k < |init| ==> init[k] == rows[k];
      CellRowsSub(init, cover);
      CellRowsFrom(init, cover);
      var r0 := CellRows(init, cover);
      var rs := CellRows(rows, cover);
      if TotalCount(cover, last.code) > 0 {
        assert rs == r0 + [Summarise(cover, last)];
        forall i, j | 0 <= i < j < |rs| ensures rs[i].cell.code != rs[j].cell.code {
          assert rs[i] == r0[i];
          if j < |r0| {
            assert rs[j] == r0[j];
          } else {
            var k :| 0 <= k < |init| && init[k] == r0[i].cell;
            assert rows[k].code != rows[|rows| - 1].code;
            assert rs[j].cell == last;
          }
        }
      } else {
        assert rs == r0;
      }
    }
  }

  lemma {:induction false} CellRowsFrom(rows: seq<Cell>, cover: seq<Cover>)
    ensures forall i :: 0 <= i < |CellRows(rows, cover)| ==>
      exists k :: 0 <= k < |rows| && rows[k] == CellRows(rows, cover)[i].cell
  {
    if rows != [] {
      var init, last := rows[..|rows| - 1], rows[|rows| - 1];
      CellRowsFrom(init, cover);
      var r0 := CellRows(init, cover);
      var rs := CellRows(rows, cover);
      assert rs == r0 + (if TotalCount(cover, last.code) > 0 then [Summarise(cover, last)] else []);
      forall i | 0 <= i < |rs| ensures exists k :: 0 <= k < |rows| && rows[k] == rs[i].cell {
        if i < |r0| {
          var k :| 0 <= k < |init| && init[k] == r0[i].cell;
          assert rows[k] == init[k] && rs[i] == r0[i];
        } else {
          assert rows[|rows| - 1] == rs[i].cell;
        }
      }
    } else {
      assert CellRows(rows, cover) == [];
    }
  }
}

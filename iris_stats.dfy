/** The socio-demographic statistics of a zone (`calculer_stats_zone_complet`,
    zones_core_km.py:155-223): total population, population-weighted median
    income, and the age, sex and socio-professional distributions in percent. */
module IrisStats {
  import opened Common

  datatype LatLon = LatLon(lat: real, lon: real)

  /** One IRIS row: its code, the centroid of its polygon (computed by the
      geometry library), and the attributes that are not NaN. */
  datatype Cell = Cell(code: string, centroid: LatLon, attrs: map<string, real>)

  /** A data frame of IRIS rows: the columns it has and its rows, in order.
      A column can exist while some rows hold NaN in it. */
  datatype Frame = Frame(columns: set<string>, rows: seq<Cell>)

  const PopColumn := "POP_TOTAL"
  const IncomeColumn := "REVENU_MEDIAN"
  const AgeColumns := ["AGE_0_17", "ETUDIANTS_18_24", "ACTIFS_25_39", "AGE_40_64", "AGE_65_PLUS"]
  const SexColumns := ["HOMMES", "FEMMES"]
  const SexLabels := ["Hommes (%)", "Femmes (%)"]
  const CspColumns := ["AGRICULTEURS", "COMMERCANTS", "CADRES", "INTERMEDIAIRES",
                       "EMPLOYES", "OUVRIERS", "RETRAITES", "AUTRES_INACTIFS"]

  const PopKey := "Population totale"
  const IncomeKey := "Revenu médian pondéré (€)"
  const AgeKey := "Répartition par âge (%)"
  const SexKey := "Répartition par sexe (%)"
  const CspKey := "Répartition par CSP (%)"

  /** What a NaN-skipping column sum adds for one row: its value, or 0 when
      the value is NaN. */
  function Attr(c: Cell, col: string): real {
    if col in c.attrs then c.attrs[col] else 0.0
  }

  /** The sum of column `col` over the rows, NaN values skipped. */
  function SumColumn(rows: seq<Cell>, col: string): real {
    if rows == [] then 0.0
    else SumColumn(rows[..|rows| - 1], col) + Attr(rows[|rows| - 1], col)
  }

  // ---------------------------------------------------------------------
  // Weighted income
  // ---------------------------------------------------------------------

  /** The row has an income, so it survives dropping the rows whose
      income is NaN (line 178). */
  predicate HasIncome(c: Cell) {
    IncomeColumn in c.attrs
  }

  /** The total population of the rows that have an income: the weight
      of the median income (line 182). */
  function IncomeWeight(rows: seq<Cell>): real {
    if rows == [] then 0.0 else IncomeWeight(rows[..|rows| - 1]) + Weight(rows[|rows| - 1])
  }

  function Weight(c: Cell): real {
    if HasIncome(c) then Attr(c, PopColumn) else 0.0
  }

  /** The sum over the rows with an income of population times income
      (line 182): a NaN population makes a NaN product, which the sum skips
      like a 0. */
  function IncomeMass(rows: seq<Cell>): real {
    if rows == [] then 0.0 else IncomeMass(rows[..|rows| - 1]) + Mass(rows[|rows| - 1])
  }

  function Mass(c: Cell): real {
    if HasIncome(c) then Attr(c, PopColumn) * c.attrs[IncomeColumn] else 0.0
  }

  predicate AnyIncome(rows: seq<Cell>) {
    exists i :: 0 <= i < |rows| && HasIncome(rows[i])
  }

  /** The weighted income entry: None when no row has an income; otherwise
      mass / weight under numpy's float division (0/0 is NaN, x/0 is an
      infinity of the sign of x). */
  function WeightedIncome(rows: seq<Cell>): Value {
    if !AnyIncome(rows) then NoValue
    else
      var w, m := IncomeWeight(rows), IncomeMass(rows);
      if w != 0.0 then Num(m / w)
      else if m == 0.0 then NaN
      else Inf(m > 0.0)
  }

  // ---------------------------------------------------------------------
  // Percent distributions
  // ---------------------------------------------------------------------

  function Sum(xs: seq<real>): real {
    if xs == [] then 0.0 else Sum(xs[..|xs| - 1]) + xs[|xs| - 1]
  }

  /** The NaN-skipping total of each column of `cols`, in order. */
  function Totals(rows: seq<Cell>, cols: seq<string>): (t: seq<real>)
    ensures |t| == |cols|
  {
    seq(|cols|, i requires 0 <= i < |cols| => SumColumn(rows, cols[i]))
  }

  /** Each column total as a percentage of the grand total `total`. */
  function Shares(totals: seq<real>, total: real): (r: seq<real>)
    requires total != 0.0
    ensures |r| == |totals|
  {
    seq(|totals|, i requires 0 <= i < |totals| => totals[i] / total * 100.0)
  }

  /** The dict `{labels[i]: xs[i]}`, in order. */
  function Entries(labels: seq<string>, xs: seq<real>): (s: Stats)
    requires |labels| == |xs|
    ensures |s| == |labels|
  {
    seq(|labels|, i requires 0 <= i < |labels| => (labels[i], Num(xs[i])))
  }

  /** Every column of `cols` is a column of the frame. */
  predicate HasColumns(f: Frame, cols: seq<string>) {
    forall i :: 0 <= i < |cols| ==> cols[i] in f.columns
  }

  /** A distribution over `cols`, keyed by `labels`: present only if every
      column exists and the summed total is positive. */
  function Distribution(f: Frame, cols: seq<string>, labels: seq<string>): Option<Value>
    requires |cols| == |labels|
  {
    if !HasColumns(f, cols) then None
    else
      var t := Totals(f.rows, cols);
      if Sum(t) > 0.0 then Some(Dict(Entries(labels, Shares(t, Sum(t))))) else None
  }

  function Optional(key: string, v: Option<Value>): Stats {
    if v.Some? then [(key, v.value)] else []
  }

  /** `calculer_stats_zone_complet(df_zone)`. Reading the POP_TOTAL column
      of a non-empty frame that lacks it raises a KeyError. */
  function ZoneStatistics(f: Frame): Result<Stats, Failure> {
    if |f.rows| == 0 then Ok([(PopKey, Num(0.0))])
    else if PopColumn !in f.columns then Err(MissingColumn(PopColumn))
    else Ok(FullStats(f))
  }

  // ---------------------------------------------------------------------
  // Properties
  // ---------------------------------------------------------------------

  /** The sum of the numbers held by a dict's values. */
  function SumNums(s: Stats): real {
    if s == [] then 0.0
    else SumNums(s[..|s| - 1]) + (if s[|s| - 1].1.Num? then s[|s| - 1].1.x else 0.0)
  }

  /** A percent distribution keyed by `labels`: one number per label, in
      that order, the numbers summing to 100. */
  ghost predicate PercentDistribution(v: Value, labels: seq<string>) {
    && v.Dict?
    && |v.entries| == |labels|
    && (forall i :: 0 <= i < |labels| ==> v.entries[i].0 == labels[i] && v.entries[i].1.Num?)
    && SumNums(v.entries) == 100.0
  }

  lemma {:induction false} SharesSum(t: seq<real>, total: real)
    requires total != 0.0
    ensures Sum(Shares(t, total)) == Sum(t) / total * 100.0
  {
    if t != [] {
      var n := |t|;
      assert Shares(t, total)[..n - 1] == Shares(t[..n - 1], total);
      SharesSum(t[..n - 1], total);
      var a, b := Sum(t[..n - 1]), t[n - 1];
      assert a / total * 100.0 + b / total * 100.0 == (a + b) / total * 100.0;
    }
  }

  lemma {:induction false} EntriesSum(labels: seq<string>, xs: seq<real>)
    requires |labels| == |xs|
    ensures SumNums(Entries(labels, xs)) == Sum(xs)
  {
    if xs != [] {
      var n := |xs|;
      assert Entries(labels, xs)[..n - 1] == Entries(labels[..n - 1], xs[..n - 1]);
      EntriesSum(labels[..n - 1], xs[..n - 1]);
    }
  }

  /** A distribution, when present, is a percent distribution over its
      labels: its unrounded shares sum to 100. */
  lemma DistributionSumsTo100(f: Frame, cols: seq<string>, labels: seq<string>)
    requires |cols| == |labels|
    ensures Distribution(f, cols, labels).Some? <==> HasColumns(f, cols) && Sum(Totals(f.rows, cols)) > 0.0
    ensures Distribution(f, cols, labels).Some? ==> PercentDistribution(Distribution(f, cols, labels).value, labels)
  {
    if HasColumns(f, cols) && Sum(Totals(f.rows, cols)) > 0.0 {
      var t := Totals(f.rows, cols);
      SharesSum(t, Sum(t));
      EntriesSum(labels, Shares(t, Sum(t)));
      assert Sum(t) / Sum(t) * 100.0 == 100.0;
    }
  }

  /** The dict of a non-empty frame that has a POP_TOTAL column. */
  function FullStats(f: Frame): Stats {
    [(PopKey, Num(SumColumn(f.rows, PopColumn)))]
    + (IncomePart(f)
    + (Optional(AgeKey, Distribution(f, AgeColumns, AgeColumns))
    + (Optional(SexKey, Distribution(f, SexColumns, SexLabels))
    + Optional(CspKey, Distribution(f, CspColumns, CspColumns)))))
  }

  function IncomePart(f: Frame): Stats {
    if IncomeColumn in f.columns then [(IncomeKey, WeightedIncome(f.rows))] else []
  }

  lemma LookupOptional(key: string, v: Option<Value>, k: string)
    ensures Lookup(Optional(key, v), k) == if key == k then v else None
  {
  }

  /** Looking a key up in FullStats: each part answers only for its own key. */
  lemma FullStatsLookup(f: Frame, k: string)
    ensures Lookup(FullStats(f), k) ==
      if k == PopKey then Some(Num(SumColumn(f.rows, PopColumn)))
      else if k == IncomeKey then (if IncomeColumn in f.columns then Some(WeightedIncome(f.rows)) else None)
      else if k == AgeKey then Distribution(f, AgeColumns, AgeColumns)
      else if k == SexKey then Distribution(f, SexColumns, SexLabels)
      else if k == CspKey then Distribution(f, CspColumns, CspColumns)
      else None
  {
    var age := Optional(AgeKey, Distribution(f, AgeColumns, AgeColumns));
    var sex := Optional(SexKey, Distribution(f, SexColumns, SexLabels));
    var csp := Optional(CspKey, Distribution(f, CspColumns, CspColumns));
    LookupOptional(AgeKey, Distribution(f, AgeColumns, AgeColumns), k);
    LookupOptional(SexKey, Distribution(f, SexColumns, SexLabels), k);
    LookupOptional(CspKey, Distribution(f, CspColumns, CspColumns), k);
    LookupAppend(sex, csp, k);
    LookupAppend(age, sex + csp, k);
    LookupAppend(IncomePart(f), age + (sex + csp), k);
    LookupAppend([(PopKey, Num(SumColumn(f.rows, PopColumn)))], IncomePart(f) + (age + (sex + csp)), k);
  }

  /** The shape of the statistics dict: which keys it has, under exactly
      which conditions, and what each one holds. */
  lemma ZoneStatisticsSpec(f: Frame)
    ensures ZoneStatistics(f).Err? <==> |f.rows| > 0 && PopColumn !in f.columns
    ensures |f.rows| == 0 ==> ZoneStatistics(f) == Ok([(PopKey, Num(0.0))])
    ensures ZoneStatistics(f).Ok? ==>
      var s := ZoneStatistics(f).value;
      && Lookup(s, PopKey) == Some(Num(SumColumn(f.rows, PopColumn)))
      && (Lookup(s, IncomeKey).Some? <==> |f.rows| > 0 && IncomeColumn in f.columns)
      && (Lookup(s, IncomeKey).Some? ==> Lookup(s, IncomeKey).value == WeightedIncome(f.rows))
      && (Lookup(s, AgeKey).Some? <==>
            |f.rows| > 0 && HasColumns(f, AgeColumns) && Sum(Totals(f.rows, AgeColumns)) > 0.0)
      && (Lookup(s, AgeKey).Some? ==> PercentDistribution(Lookup(s, AgeKey).value, AgeColumns))
      && (Lookup(s, SexKey).Some? <==>
            |f.rows| > 0 && HasColumns(f, SexColumns) && Sum(Totals(f.rows, SexColumns)) > 0.0)
      && (Lookup(s, SexKey).Some? ==> PercentDistribution(Lookup(s, SexKey).value, SexLabels))
      && (Lookup(s, CspKey).Some? <==>
            |f.rows| > 0 && HasColumns(f, CspColumns) && Sum(Totals(f.rows, CspColumns)) > 0.0)
      && (Lookup(s, CspKey).Some? ==> PercentDistribution(Lookup(s, CspKey).value, CspColumns))
  {
    if |f.rows| > 0 && PopColumn in f.columns {
      assert ZoneStatistics(f) == Ok(FullStats(f));
      FullStatsLookup(f, PopKey);
      FullStatsLookup(f, IncomeKey);
      FullStatsLookup(f, AgeKey);
      FullStatsLookup(f, SexKey);
      FullStatsLookup(f, CspKey);
      DistributionSumsTo100(f, AgeColumns, AgeColumns);
      DistributionSumsTo100(f, SexColumns, SexLabels);
      DistributionSumsTo100(f, CspColumns, CspColumns);
    }
  }

  /** Every row with an income has a non-negative population and an income
      in [lo, hi]. */
  ghost predicate IncomesWithin(rows: seq<Cell>, lo: real, hi: real) {
    forall i :: 0 <= i < |rows| && HasIncome(rows[i]) ==>
      Attr(rows[i], PopColumn) >= 0.0 && lo <= rows[i].attrs[IncomeColumn] <= hi
  }

  /** The population-weighted income lies between the smallest and the largest
      income of the rows that have one, when populations are non-negative. */
  lemma WeightedIncomeBounds(rows: seq<Cell>, lo: real, hi: real)
    requires IncomesWithin(rows, lo, hi)
    requires IncomeWeight(rows) > 0.0
    ensures WeightedIncome(rows).Num?
    ensures lo <= WeightedIncome(rows).x <= hi
  {
    WeightNeedsIncome(rows);
    assert WeightedIncome(rows) == Num(IncomeMass(rows) / IncomeWeight(rows));
    AverageBounds(rows, lo, hi);
  }

  lemma AverageBounds(rows: seq<Cell>, lo: real, hi: real)
    requires IncomesWithin(rows, lo, hi)
    requires IncomeWeight(rows) > 0.0
    ensures lo <= IncomeMass(rows) / IncomeWeight(rows) <= hi
  {
    MassBounds(rows, lo, hi);
    QuotientBounds(IncomeMass(rows), IncomeWeight(rows), lo, hi);
  }

  lemma QuotientBounds(m: real, w: real, lo: real, hi: real)
    requires w > 0.0 && lo * w <= m <= hi * w
    ensures lo <= m / w <= hi
  {
    var q := m / w;
    assert q * w == m;
    assert (q - lo) * w >= 0.0;
    assert (hi - q) * w >= 0.0;
  }

  lemma {:induction false} MassBounds(rows: seq<Cell>, lo: real, hi: real)
    requires IncomesWithin(rows, lo, hi)
    ensures Bracketed(lo, hi, IncomeWeight(rows), IncomeMass(rows))
  {
    if rows != [] {
      var n := |rows|;
      var init, c := rows[..n - 1], rows[n - 1];
      IncomesWithinPrefix(rows, lo, hi);
      MassBounds(init, lo, hi);
      RowBounds(c, lo, hi);
      SumBounds(lo, hi, IncomeWeight(init), IncomeMass(init), Weight(c), Mass(c), IncomeWeight(rows), IncomeMass(rows));
    }
  }

  lemma IncomesWithinPrefix(rows: seq<Cell>, lo: real, hi: real)
    requires rows != [] && IncomesWithin(rows, lo, hi)
    ensures IncomesWithin(rows[..|rows| - 1], lo, hi)
    ensures HasIncome(rows[|rows| - 1]) ==>
      Attr(rows[|rows| - 1], PopColumn) >= 0.0 && lo <= rows[|rows| - 1].attrs[IncomeColumn] <= hi
  {
    var init := rows[..|rows| - 1];
    forall i | 0 <= i < |init| && HasIncome(init[i])
      ensures Attr(init[i], PopColumn) >= 0.0 && lo <= init[i].attrs[IncomeColumn] <= hi
    {
      assert init[i] == rows[i];
    }
  }

  /** `m` lies between `lo * w` and `hi * w`. */
  predicate Bracketed(lo: real, hi: real, w: real, m: real) {
    lo * w <= m <= hi * w
  }

  lemma RowBounds(c: Cell, lo: real, hi: real)
    requires HasIncome(c) ==> Attr(c, PopColumn) >= 0.0 && lo <= c.attrs[IncomeColumn] <= hi
    ensures Bracketed(lo, hi, Weight(c), Mass(c))
  {
    if HasIncome(c) {
      var p, v := Attr(c, PopColumn), c.attrs[IncomeColumn];
      assert p * (v - lo) >= 0.0;
      assert p * (hi - v) >= 0.0;
    }
  }

  lemma SumBounds(lo: real, hi: real, w0: real, m0: real, w1: real, m1: real, w: real, m: real)
    requires Bracketed(lo, hi, w0, m0) && Bracketed(lo, hi, w1, m1)
    requires w == w0 + w1 && m == m0 + m1
    ensures Bracketed(lo, hi, w, m)
  {
    assert lo * w == lo * w0 + lo * w1;
    assert hi * w == hi * w0 + hi * w1;
  }

  lemma {:induction false} WeightNeedsIncome(rows: seq<Cell>)
    ensures IncomeWeight(rows) != 0.0 ==> AnyIncome(rows)
  {
    if rows != [] {
      var n := |rows|;
      WeightNeedsIncome(rows[..n - 1]);
      if AnyIncome(rows[..n - 1]) {
        var i :| 0 <= i < n - 1 && HasIncome(rows[..n - 1][i]);
        assert HasIncome(rows[i]);
      }
      if HasIncome(rows[n - 1]) {
        assert AnyIncome(rows);
      }
    }
  }

  /** A row without an income leaves the weighted income as it was, while
      still adding its population to the total. */
  lemma RowWithoutIncome(rows: seq<Cell>, c: Cell)
    requires !HasIncome(c)
    ensures WeightedIncome(rows + [c]) == WeightedIncome(rows)
    ensures SumColumn(rows + [c], PopColumn) == SumColumn(rows, PopColumn) + Attr(c, PopColumn)
  {
    var r := rows + [c];
    assert r[..|r| - 1] == rows;
    assert AnyIncome(r) <==> AnyIncome(rows) by {
      if AnyIncome(r) {
        var i :| 0 <= i < |r| && HasIncome(r[i]);
        assert i < |rows| && r[i] == rows[i];
      }
      if AnyIncome(rows) {
        var i :| 0 <= i < |rows| && HasIncome(rows[i]);
        assert r[i] == rows[i];
      }
    }
  }
}

/**
 * The filter-and-rank engine: one of four preference modes selects rows of the
 * enriched table and the columns to show, and the dashboard derives the top
 * pick, the ranked result table, the chart set, the price-trend rows and the
 * download from that selection.
 */
module Engine {
  import opened Wrappers
  import opened Table
  import opened Ranking
  import opened Mask

  /** The four mutually exclusive preference modes, each with its thresholds. */
  datatype Mode =
    | ByBudget(minPrice: real, maxPrice: real, minSchoolRating: real)
    | ByBedrooms(bedrooms: int, minSchoolRating: real)
    | ByCrimeRate(maxCrimeRate: real, minSchoolRating: real)
    | ByHealthcare(minHealthcare: real, minSchoolRating: real)

  /** The mode's conjunctive row condition. A row with no value in an optional column never matches on it. */
  predicate Matches(m: Mode, r: Record) {
    match m
    case ByBudget(lo, hi, school) =>
      r.homePrice >= lo && r.homePrice <= hi && r.schoolRating >= school
    case ByBedrooms(b, school) =>
      r.bedrooms == Some(b) && r.schoolRating >= school
    case ByCrimeRate(maxCrime, school) =>
      r.crimeRate <= maxCrime && r.schoolRating >= school
    case ByHealthcare(minHealth, school) =>
      r.healthcareAccess.Some? && r.healthcareAccess.value >= minHealth && r.schoolRating >= school
  }

  /** The optional column the mode needs and the table lacks, if any. */
  function MissingColumn(t: Table, m: Mode): Option<Column> {
    if m.ByBedrooms? && !t.hasBedrooms then Some(Bedrooms)
    else if m.ByHealthcare? && !t.hasHealthcare then Some(HealthcareAccess)
    else None
  }

  /** The fixed list of columns each mode displays. */
  function DisplayColumns(m: Mode): seq<Column> {
    match m
    case ByBudget(_, _, _) => [RegionName, Date, HomePrice, SchoolRating, CrimeRate, DesirabilityScore]
    case ByBedrooms(_, _) => [RegionName, Date, Bedrooms, SchoolRating, CrimeRate, DesirabilityScore]
    case ByCrimeRate(_, _) => [RegionName, Date, CrimeRate, SchoolRating, DesirabilityScore]
    case ByHealthcare(_, _) => [RegionName, Date, HealthcareAccess, SchoolRating, CrimeRate, DesirabilityScore]
  }

  /** The filtered rows, the columns to display, and the column whose absence emptied them. */
  datatype Selection = Selection(rows: seq<Record>, displayCols: seq<Column>, missing: Option<Column>)

  /** Applies the active mode to the table. */
  function Select(t: Table, m: Mode): (s: Selection)
    ensures s.missing.Some? <==> (m.ByBedrooms? && !t.hasBedrooms) || (m.ByHealthcare? && !t.hasHealthcare)
    ensures s.missing.Some? ==> s.rows == [] && s.displayCols == []
    ensures s.missing.None? ==>
      RegionName in s.displayCols && SchoolRating in s.displayCols && DesirabilityScore in s.displayCols
    ensures forall k :: 0 <= k < |s.rows| ==> s.rows[k] in t.rows && Matches(m, s.rows[k])
  {
    match MissingColumn(t, m)
    case Some(c) => Selection([], [], Some(c))
    case None => Selection(Keep(t.rows, (r: Record) => Matches(m, r)), DisplayColumns(m), None)
  }

  /**
   * When the mode's column is present, the selection is the order-preserving
   * subsequence of the table holding exactly the rows that satisfy the mode.
   */
  lemma SelectIsMask(t: Table, m: Mode)
    requires MissingColumn(t, m).None?
    ensures IsMask(Select(t, m).rows, t.rows, Positions(t.rows, r => Matches(m, r)), r => Matches(m, r))
  {
    KeepIsMask(t.rows, r => Matches(m, r));
  }

  /** A budget whose maximum is below its minimum selects nothing, without any error. */
  lemma EmptyBudgetSelectsNothing(t: Table, minPrice: real, maxPrice: real, school: real)
    requires maxPrice < minPrice
    ensures Select(t, ByBudget(minPrice, maxPrice, school)) == Selection([], DisplayColumns(ByBudget(minPrice, maxPrice, school)), None)
  {
    var m := ByBudget(minPrice, maxPrice, school);
    KeepNone(t.rows, (r: Record) => Matches(m, r));
  }

  /** The region names of a set of rows (`rows["RegionName"].unique()`). */
  function RegionNames(rows: seq<Record>): set<string> {
    set r | r in rows :: r.regionName
  }

  /** Every row of the full table whose region is among those of `top`, in table order. */
  function TrendRows(t: Table, top: seq<Record>): seq<Record> {
    Keep(t.rows, (r: Record) => r.regionName in RegionNames(top))
  }

  /**
   * The trend rows are the order-preserving subsequence of the FULL table of
   * exactly the rows whose region appears in `top`, whether or not they pass
   * the active filter.
   */
  lemma TrendRowsExact(t: Table, top: seq<Record>)
    ensures var p := (r: Record) => r.regionName in RegionNames(top);
      IsMask(TrendRows(t, top), t.rows, Positions(t.rows, p), p)
    ensures forall i :: 0 <= i < |t.rows| ==>
      (exists k :: 0 <= k < |top| && top[k].regionName == t.rows[i].regionName) ==> t.rows[i] in TrendRows(t, top)
  {
    var p := (r: Record) => r.regionName in RegionNames(top);
    KeepIsMask(t.rows, p);
    var idx := Positions(t.rows, p);
    forall i | 0 <= i < |t.rows| && (exists k :: 0 <= k < |top| && top[k].regionName == t.rows[i].regionName)
      ensures t.rows[i] in TrendRows(t, top)
    {
      var k :| 0 <= k < |top| && top[k].regionName == t.rows[i].regionName;
      assert top[k] in top;
      assert i in idx;
      var j :| 0 <= j < |idx| && idx[j] == i;
      assert TrendRows(t, top)[j] == t.rows[i];
    }
  }

  /** The ranked result table and the columns it shows. */
  datatype View = View(rows: seq<Record>, cols: seq<Column>)

  /** What the dashboard renders for one query; `None` where it shows nothing. */
  datatype Dashboard = Dashboard(
    matchCount: nat,
    warning: Option<Column>,
    topPick: Option<Record>,
    table: Option<View>,
    chart: Option<seq<Record>>,
    trend: Option<seq<Record>>,
    download: Option<seq<Record>>)

  /** One run of the page for the enriched table `t` and the chosen mode. */
  function Render(t: Table, m: Mode): Dashboard {
    var s := Select(t, m);
    var f := s.rows;
    var top := TopFive(f);
    Dashboard(
      |f|,
      s.missing,
      TopPick(f),
      if s.displayCols != [] then Some(View(Rank(f), s.displayCols)) else None,
      if f != [] then Some(top) else None,
      if f != [] then Some(TrendRows(t, top)) else None,
      if f != [] then Some(f) else None)
  }

  /**
   * With no matching row every output degrades to nothing to show; otherwise
   * the top pick is a best-scoring match, the chart is the first min(5, n)
   * rows of the ranking and no match left out of it scores higher, the trend covers the full history of their regions, and the
   * download is the whole selection. The result table appears exactly when the
   * mode's column is present, ranked best first.
   */
  lemma RenderSpec(t: Table, m: Mode)
    ensures var d, f := Render(t, m), Select(t, m).rows;
      && d.matchCount == |f|
      && (d.table.Some? <==> MissingColumn(t, m).None?)
      && (d.table.Some? ==> NonIncreasing(d.table.value.rows) && multiset(d.table.value.rows) == multiset(f))
      && (f == [] ==> d.topPick.None? && d.chart.None? && d.trend.None? && d.download.None?)
      && (f != [] ==>
          && d.topPick.Some? && d.topPick.value in f
          && (forall k :: 0 <= k < |f| ==> f[k].desirabilityScore <= d.topPick.value.desirabilityScore)
          && d.chart == Some(TopFive(f))
          && |d.chart.value| == (if |f| < ChartSize then |f| else ChartSize)
          && d.chart.value == Rank(f)[..|d.chart.value|]
          && multiset(d.chart.value) <= multiset(f)
          && (forall x, y :: x in d.chart.value && y in multiset(f) - multiset(d.chart.value) ==>
                x.desirabilityScore >= y.desirabilityScore)
          && d.trend == Some(TrendRows(t, d.chart.value))
          && d.download == Some(f))
  {
    TopFiveSpec(Select(t, m).rows);
  }

  /**
   * A Bedrooms query on a table without Bedrooms, or a Healthcare Access query
   * on one without HealthcareAccess, yields a warning naming that column and
   * nothing else.
   */
  lemma MissingColumnRendersNothing(t: Table, m: Mode)
    requires (m.ByBedrooms? && !t.hasBedrooms) || (m.ByHealthcare? && !t.hasHealthcare)
    ensures var d := Render(t, m);
      && d.warning == Some(if m.ByBedrooms? then Bedrooms else HealthcareAccess)
      && d.matchCount == 0 && d.table.None?
      && d.topPick.None? && d.chart.None? && d.trend.None? && d.download.None?
  {
  }
}

/**
 * Loading and enriching the dataset (`load_data`). The parsed file is copied
 * into a frame whose columns are then written one after another: the synthetic
 * HealthcareAccess column when the file lacks it, the row-wise crime sum
 * CrimeRateRaw, its rescaled form CrimeRate, and SchoolRating rescaled in place.
 */
module Loader {
  import opened Wrappers
  import opened Table
  import opened MinMax

  /** Why loading stopped: the scaler refuses a table with no rows. */
  datatype LoadError = EmptyTable

  /** A mutable data frame: a fixed number of rows and the optional-column flags. */
  class Frame {
    var rows: array<Record>
    var hasBedrooms: bool
    var hasHealthcare: bool

    /** The frame's current contents as a table value. */
    function Snapshot(): (t: Table)
      reads this, rows
      ensures |t.rows| == rows.Length
    {
      Table(rows[..], hasBedrooms, hasHealthcare)
    }

    /** A frame holding a copy of `t`. */
    constructor (t: Table)
      ensures fresh(rows)
      ensures Snapshot() == t
    {
      rows := new Record[|t.rows|](i requires 0 <= i < |t.rows| => t.rows[i]);
      hasBedrooms, hasHealthcare := t.hasBedrooms, t.hasHealthcare;
      new;
      assert rows[..] == t.rows;
    }

    /** `df[c] = values`: writes column `c` row by row; adding HealthcareAccess marks it present. */
    method Assign(c: Column, values: seq<real>)
      requires Assignable(c) && |values| == rows.Length
      modifies this, rows
      ensures rows == old(rows)
      ensures Snapshot() == Assigned(old(Snapshot()), c, values)
    {
      ghost var before := Snapshot();
      var i := 0;
      while i < rows.Length
        modifies rows
        invariant 0 <= i <= rows.Length
        invariant forall k :: 0 <= k < i ==> rows[k] == Set(before.rows[k], c, values[k])
        invariant forall k :: i <= k < rows.Length ==> rows[k] == before.rows[k]
      {
        rows[i] := Set(rows[i], c, values[i]);
        i := i + 1;
      }
      if c.HealthcareAccess? {
        hasHealthcare := true;
      }
      assert rows[..] == Assigned(before, c, values).rows;
    }
  }

  /** `df[["Murder", "Assault", "Rape"]].sum(axis=1)`. */
  function CrimeSums(rows: seq<Record>): (xs: seq<real>)
    ensures |xs| == |rows|
  {
    seq(|rows|, i requires 0 <= i < |rows| => rows[i].murder + rows[i].assault + rows[i].rape)
  }

  /** The table with HealthcareAccess taken from `draws` when the file lacks the column. */
  function WithHealthcare(t: Table, draws: seq<real>): (t': Table)
    requires |draws| == |t.rows|
    ensures |t'.rows| == |t.rows|
  {
    if t.hasHealthcare then t else Assigned(t, HealthcareAccess, draws)
  }

  /** The table with CrimeRateRaw added. */
  function WithCrimeRateRaw(t: Table): (t': Table)
    ensures |t'.rows| == |t.rows|
  {
    Assigned(t, CrimeRateRaw, CrimeSums(t.rows))
  }

  /** The table with CrimeRate, the rescaled CrimeRateRaw, added. */
  function WithCrimeRate(t: Table): (t': Table)
    requires |t.rows| > 0
    ensures |t'.rows| == |t.rows|
  {
    Assigned(t, CrimeRate, MinMaxScale(Values(t.rows, CrimeRateRaw)))
  }

  /** The table with SchoolRating replaced by its rescaled form. */
  function WithSchoolScaled(t: Table): (t': Table)
    requires |t.rows| > 0
    ensures |t'.rows| == |t.rows|
  {
    Assigned(t, SchoolRating, MinMaxScale(Values(t.rows, SchoolRating)))
  }

  /** The enriched table: the four column writes of `load_data`, in order. */
  function Enriched(t: Table, draws: seq<real>): (t': Table)
    requires |t.rows| > 0 && |draws| == |t.rows|
    ensures |t'.rows| == |t.rows|
  {
    WithSchoolScaled(WithCrimeRate(WithCrimeRateRaw(WithHealthcare(t, draws))))
  }

  /**
   * `load_data` on the parsed file `source`. `draws` stands for the values the
   * generator seeded with 42 yields for `len(df)` rows; they are used only when
   * the file lacks HealthcareAccess. A table with no rows makes the scaler fail.
   */
  method LoadData(source: Table, draws: seq<real>) returns (r: Result<Table, LoadError>)
    requires |draws| == |source.rows|
    ensures |source.rows| == 0 ==> r == Failure(EmptyTable)
    ensures |source.rows| > 0 ==> r == Success(Enriched(source, draws))
  {
    var df := new Frame(source);
    if !df.hasHealthcare {
      df.Assign(HealthcareAccess, draws);
    }
    df.Assign(CrimeRateRaw, CrimeSums(df.rows[..]));
    if df.rows.Length == 0 {
      return Failure(EmptyTable);
    }
    df.Assign(CrimeRate, MinMaxScale(Values(df.rows[..], CrimeRateRaw)));
    df.Assign(SchoolRating, MinMaxScale(Values(df.rows[..], SchoolRating)));
    r := Success(df.Snapshot());
  }
}

module LoaderProperties {
  import opened Wrappers
  import opened Table
  import opened MinMax
  import opened Loader

  /** Adding HealthcareAccess changes neither the crime sums nor SchoolRating. */
  lemma CrimeSumsIgnoreHealthcare(t: Table, draws: seq<real>)
    requires |draws| == |t.rows|
    ensures CrimeSums(WithHealthcare(t, draws).rows) == CrimeSums(t.rows)
  {
    var rows := WithHealthcare(t, draws).rows;
    forall i | 0 <= i < |rows| ensures CrimeSums(rows)[i] == CrimeSums(t.rows)[i] {
      assert !t.hasHealthcare ==> rows[i] == Set(t.rows[i], HealthcareAccess, draws[i]);
    }
  }

  /** The two rescaled columns of the enriched table are the source's columns rescaled. */
  lemma EnrichedColumns(t: Table, draws: seq<real>)
    requires |t.rows| > 0 && |draws| == |t.rows|
    ensures Values(Enriched(t, draws).rows, CrimeRate) == MinMaxScale(CrimeSums(t.rows))
    ensures Values(Enriched(t, draws).rows, SchoolRating) == MinMaxScale(Values(t.rows, SchoolRating))
  {
    var t1 := WithHealthcare(t, draws);
    var t2 := WithCrimeRateRaw(t1);
    var t3 := WithCrimeRate(t2);
    var t4 := WithSchoolScaled(t3);
    CrimeSumsIgnoreHealthcare(t, draws);
    AssignedValues(t1, CrimeRateRaw, CrimeSums(t1.rows), CrimeRateRaw);
    AssignedValues(t1, CrimeRateRaw, CrimeSums(t1.rows), SchoolRating);
    AssignedValues(t2, CrimeRate, MinMaxScale(Values(t2.rows, CrimeRateRaw)), CrimeRate);
    AssignedValues(t2, CrimeRate, MinMaxScale(Values(t2.rows, CrimeRateRaw)), SchoolRating);
    AssignedValues(t3, SchoolRating, MinMaxScale(Values(t3.rows, SchoolRating)), CrimeRate);
    AssignedValues(t3, SchoolRating, MinMaxScale(Values(t3.rows, SchoolRating)), SchoolRating);
    if !t.hasHealthcare {
      AssignedValues(t, HealthcareAccess, draws, SchoolRating);
    }
  }

  /**
   * Enrichment keeps the row count and order and every source column except
   * SchoolRating; CrimeRateRaw is the row's crime sum, and HealthcareAccess is
   * passed through when present and taken from the draws otherwise.
   */
  lemma EnrichedRows(t: Table, draws: seq<real>)
    requires |t.rows| > 0 && |draws| == |t.rows|
    ensures var e := Enriched(t, draws);
      && |e.rows| == |t.rows|
      && e.hasBedrooms == t.hasBedrooms && e.hasHealthcare
      && forall i :: 0 <= i < |t.rows| ==>
        var s, r := t.rows[i], e.rows[i];
        && r.regionName == s.regionName && r.date == s.date && r.homePrice == s.homePrice
        && r.bedrooms == s.bedrooms && r.desirabilityScore == s.desirabilityScore
        && r.murder == s.murder && r.assault == s.assault && r.rape == s.rape
        && r.crimeRateRaw == s.murder + s.assault + s.rape
        && r.healthcareAccess == (if t.hasHealthcare then s.healthcareAccess else Some(draws[i]))
  {
  }

  /** A synthesized HealthcareAccess column has one value per row, each within the generator's range. */
  lemma SynthesizedHealthcareInRange(t: Table, draws: seq<real>)
    requires |t.rows| > 0 && |draws| == |t.rows| && !t.hasHealthcare
    requires forall i :: 0 <= i < |draws| ==> Low <= draws[i] <= High
    ensures forall i :: 0 <= i < |t.rows| ==>
      var h := Enriched(t, draws).rows[i].healthcareAccess;
      h.Some? && Low <= h.value <= High
  {
    EnrichedRows(t, draws);
  }

  /** Every CrimeRate and every SchoolRating of the enriched table lies in [1, 10]. */
  lemma EnrichedInRange(t: Table, draws: seq<real>)
    requires |t.rows| > 0 && |draws| == |t.rows|
    ensures forall i :: 0 <= i < |t.rows| ==>
      var r := Enriched(t, draws).rows[i];
      Low <= r.crimeRate <= High && Low <= r.schoolRating <= High
  {
    var e := Enriched(t, draws).rows;
    MinMaxScaleInRange(CrimeSums(t.rows));
    MinMaxScaleInRange(Values(t.rows, SchoolRating));
    forall i | 0 <= i < |t.rows|
      ensures Low <= e[i].crimeRate <= High && Low <= e[i].schoolRating <= High
    {
      EnrichedRowScaled(t, draws, i);
    }
  }

  /**
   * The row with the smallest crime sum gets CrimeRate 1 and the row with the
   * largest gets 10 (the latter when the sums are not all equal).
   */
  lemma EnrichedCrimeExtremes(t: Table, draws: seq<real>)
    requires |t.rows| > 0 && |draws| == |t.rows|
    ensures var raw, e := CrimeSums(t.rows), Enriched(t, draws).rows;
      && (forall i :: 0 <= i < |t.rows| && raw[i] == Min(raw) ==> e[i].crimeRate == Low)
      && (Min(raw) < Max(raw) ==>
          forall i :: 0 <= i < |t.rows| && raw[i] == Max(raw) ==> e[i].crimeRate == High)
  {
    var raw, e := CrimeSums(t.rows), Enriched(t, draws).rows;
    MinMaxScaleMinToLow(raw);
    if Min(raw) < Max(raw) {
      MinMaxScaleMaxToHigh(raw);
    }
    forall i | 0 <= i < |t.rows| ensures e[i].crimeRate == MinMaxScale(raw)[i] {
      EnrichedRowScaled(t, draws, i);
    }
  }

  /**
   * The row with the lowest raw school rating gets 1 and the row with the
   * highest gets 10 (the latter when the ratings are not all equal).
   */
  lemma EnrichedSchoolExtremes(t: Table, draws: seq<real>)
    requires |t.rows| > 0 && |draws| == |t.rows|
    ensures var raw, e := Values(t.rows, SchoolRating), Enriched(t, draws).rows;
      && (forall i :: 0 <= i < |t.rows| && raw[i] == Min(raw) ==> e[i].schoolRating == Low)
      && (Min(raw) < Max(raw) ==>
          forall i :: 0 <= i < |t.rows| && raw[i] == Max(raw) ==> e[i].schoolRating == High)
  {
    var raw, e := Values(t.rows, SchoolRating), Enriched(t, draws).rows;
    MinMaxScaleMinToLow(raw);
    if Min(raw) < Max(raw) {
      MinMaxScaleMaxToHigh(raw);
    }
    forall i | 0 <= i < |t.rows| ensures e[i].schoolRating == MinMaxScale(raw)[i] {
      EnrichedRowScaled(t, draws, i);
    }
  }

  /** Row `i` of the enriched table carries the rescaled values of the source's row `i`. */
  lemma EnrichedRowScaled(t: Table, draws: seq<real>, i: int)
    requires |t.rows| > 0 && |draws| == |t.rows| && 0 <= i < |t.rows|
    ensures Enriched(t, draws).rows[i].crimeRate == MinMaxScale(CrimeSums(t.rows))[i]
    ensures Enriched(t, draws).rows[i].schoolRating == MinMaxScale(Values(t.rows, SchoolRating))[i]
  {
    var e := Enriched(t, draws).rows;
    EnrichedColumns(t, draws);
    assert e[i].crimeRate == Values(e, CrimeRate)[i];
    assert e[i].schoolRating == Values(e, SchoolRating)[i];
  }

  /** CrimeRate orders the rows as their crime sums do, in both directions. */
  lemma EnrichedKeepsCrimeOrder(t: Table, draws: seq<real>)
    requires |t.rows| > 0 && |draws| == |t.rows|
    ensures forall i, j :: 0 <= i < |t.rows| && 0 <= j < |t.rows| ==>
      var s, e := t.rows, Enriched(t, draws).rows;
      (s[i].murder + s[i].assault + s[i].rape <= s[j].murder + s[j].assault + s[j].rape
       <==> e[i].crimeRate <= e[j].crimeRate)
  {
    var s, e := t.rows, Enriched(t, draws).rows;
    var raw := CrimeSums(s);
    MinMaxScaleMonotone(raw);
    forall i, j | 0 <= i < |s| && 0 <= j < |s|
      ensures raw[i] <= raw[j] <==> e[i].crimeRate <= e[j].crimeRate
    {
      EnrichedRowScaled(t, draws, i);
      EnrichedRowScaled(t, draws, j);
    }
  }

  /** The rescaled SchoolRating orders the rows as the raw one does, in both directions. */
  lemma EnrichedKeepsSchoolOrder(t: Table, draws: seq<real>)
    requires |t.rows| > 0 && |draws| == |t.rows|
    ensures forall i, j :: 0 <= i < |t.rows| && 0 <= j < |t.rows| ==>
      var s, e := t.rows, Enriched(t, draws).rows;
      (s[i].schoolRating <= s[j].schoolRating <==> e[i].schoolRating <= e[j].schoolRating)
  {
    var s, e := t.rows, Enriched(t, draws).rows;
    var raw := Values(s, SchoolRating);
    MinMaxScaleMonotone(raw);
    forall i, j | 0 <= i < |s| && 0 <= j < |s|
      ensures raw[i] <= raw[j] <==> e[i].schoolRating <= e[j].schoolRating
    {
      EnrichedRowScaled(t, draws, i);
      EnrichedRowScaled(t, draws, j);
    }
  }
}

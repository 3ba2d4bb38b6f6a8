/**
 * The dataset: one record per (region, date) observation, and the table that
 * holds them together with which optional columns the source file provided.
 */
module Table {
  import opened Wrappers

  /** The columns of the dataset, by their names in the source file. */
  datatype Column =
    | RegionName | Date | HomePrice | Bedrooms
    | Murder | Assault | Rape
    | SchoolRating | HealthcareAccess | DesirabilityScore
    | CrimeRateRaw | CrimeRate

  /**
   * One row. `bedrooms` and `healthcareAccess` are `None` in a row that has no
   * value for them (in particular when the table lacks the column). `date` is
   * the parsed calendar date as a day number. `crimeRateRaw` and `crimeRate`
   * are the derived columns; before enrichment their contents are irrelevant.
   */
  datatype Record = Record(
    regionName: string,
    date: int,
    homePrice: real,
    bedrooms: Option<int>,
    murder: real,
    assault: real,
    rape: real,
    schoolRating: real,
    healthcareAccess: Option<real>,
    desirabilityScore: real,
    crimeRateRaw: real,
    crimeRate: real)

  /** The rows in file order, and whether the optional columns are present. */
  datatype Table = Table(rows: seq<Record>, hasBedrooms: bool, hasHealthcare: bool)

  /** The columns the enrichment writes with a whole-column assignment. */
  predicate Assignable(c: Column) {
    c.HealthcareAccess? || c.CrimeRateRaw? || c.CrimeRate? || c.SchoolRating?
  }

  /** The columns holding one real number in every row. */
  predicate Numeric(c: Column) {
    c.HomePrice? || c.Murder? || c.Assault? || c.Rape? || c.SchoolRating?
    || c.DesirabilityScore? || c.CrimeRateRaw? || c.CrimeRate?
  }

  /** The value of numeric column `c` in row `r`. */
  function Get(r: Record, c: Column): real
    requires Numeric(c)
  {
    match c
    case HomePrice => r.homePrice
    case Murder => r.murder
    case Assault => r.assault
    case Rape => r.rape
    case SchoolRating => r.schoolRating
    case DesirabilityScore => r.desirabilityScore
    case CrimeRateRaw => r.crimeRateRaw
    case CrimeRate => r.crimeRate
  }

  /** Row `r` with its cell in column `c` set to `v`. */
  function Set(r: Record, c: Column, v: real): (r': Record)
    requires Assignable(c)
    ensures Numeric(c) ==> Get(r', c) == v
    ensures c.HealthcareAccess? ==> r'.healthcareAccess == Some(v)
  {
    match c
    case HealthcareAccess => r.(healthcareAccess := Some(v))
    case CrimeRateRaw => r.(crimeRateRaw := v)
    case CrimeRate => r.(crimeRate := v)
    case SchoolRating => r.(schoolRating := v)
  }

  /** The numeric column `c` of `rows`, in row order (`df[[c]]`). */
  function Values(rows: seq<Record>, c: Column): (xs: seq<real>)
    requires Numeric(c)
    ensures |xs| == |rows|
  {
    seq(|rows|, i requires 0 <= i < |rows| => Get(rows[i], c))
  }

  /** The table after `df[c] = values`: every row gets its own value, in row order. */
  function Assigned(t: Table, c: Column, values: seq<real>): (t': Table)
    requires Assignable(c) && |values| == |t.rows|
    ensures |t'.rows| == |t.rows|
  {
    Table(seq(|t.rows|, i requires 0 <= i < |t.rows| => Set(t.rows[i], c, values[i])),
          t.hasBedrooms, t.hasHealthcare || c.HealthcareAccess?)
  }

  /** After `df[c] = values`, column `c` reads back `values` and every other numeric column is unchanged. */
  lemma AssignedValues(t: Table, c: Column, values: seq<real>, d: Column)
    requires Assignable(c) && |values| == |t.rows| && Numeric(d)
    ensures Values(Assigned(t, c, values).rows, d) == if c == d then values else Values(t.rows, d)
  {
    var rows := Assigned(t, c, values).rows;
    forall i | 0 <= i < |rows|
      ensures Values(rows, d)[i] == if c == d then values[i] else Values(t.rows, d)[i]
    {
      assert rows[i] == Set(t.rows[i], c, values[i]);
    }
  }
}

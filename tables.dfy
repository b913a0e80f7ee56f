/** The parsed tables the dashboard works on, and the column mean pandas takes. */
module Tables {
  import opened Wrappers
  import opened Names

  /** One row of a school's environment log: `time`, `temperature`,
      `humidity`, `ph`, `ec`. The time stamp is kept as an already parsed instant. */
  datatype EnvRecord = EnvRecord(time: int, temperature: real, humidity: real, ph: real, ec: real)

  /** One school's environment table, in file order. */
  type EnvTable = seq<EnvRecord>

  /** The numeric columns of an environment table. */
  datatype EnvField = Temperature | Humidity | Ph | Ec

  function FieldOf(r: EnvRecord, f: EnvField): real
  {
    match f
    case Temperature => r.temperature
    case Humidity => r.humidity
    case Ph => r.ph
    case Ec => r.ec
  }

  /** One measured plant of a growth sheet: the school column `학교`, leaf
      count `잎 수(장)`, shoot length `지상부 길이(mm)` and fresh weight `생중량(g)`. */
  datatype GrowthRow = GrowthRow(school: Name, leafCount: real, shootLengthMm: real, freshWeightG: real)

  /** One school's growth table, in sheet order. */
  type GrowthTable = seq<GrowthRow>

  /** Every row stored under a school names that school in its `학교` column. */
  predicate SchoolTagged(growth: map<Name, GrowthTable>)
  {
    forall s, r :: s in growth && r in growth[s] ==> r.school == s
  }

  /** `df[f]`: one column of an environment table. */
  function Column(t: EnvTable, f: EnvField): (c: seq<real>)
    ensures |c| == |t|
    ensures forall i :: 0 <= i < |t| ==> c[i] == FieldOf(t[i], f)
  {
    seq(|t|, i requires 0 <= i < |t| => FieldOf(t[i], f))
  }

  function Sum(xs: seq<real>): real
  {
    if |xs| == 0 then 0.0 else Sum(xs[..|xs| - 1]) + xs[|xs| - 1]
  }

  /** The arithmetic mean of a non-empty column. */
  function Mean(xs: seq<real>): real
    requires |xs| > 0
  {
    Sum(xs) / (|xs| as real)
  }

  /** `Series.mean()`: the mean, or NaN (`None`) for an empty column. */
  function MeanOrNaN(xs: seq<real>): (r: Option<real>)
    ensures r.Some? <==> |xs| > 0
  {
    if |xs| == 0 then None else Some(Mean(xs))
  }

  /** `df[f].mean()` for one school's environment table. */
  function FieldMean(t: EnvTable, f: EnvField): Option<real>
  {
    MeanOrNaN(Column(t, f))
  }

  lemma {:induction false} SumBounds(xs: seq<real>, lo: real, hi: real)
    requires forall i :: 0 <= i < |xs| ==> lo <= xs[i] <= hi
    ensures (|xs| as real) * lo <= Sum(xs) <= (|xs| as real) * hi
  {
    if |xs| > 0 {
      SumBounds(xs[..|xs| - 1], lo, hi);
    }
  }

  /** A mean lies between the smallest and the largest value it is taken over. */
  lemma MeanBounds(xs: seq<real>, lo: real, hi: real)
    requires |xs| > 0
    requires forall i :: 0 <= i < |xs| ==> lo <= xs[i] <= hi
    ensures lo <= Mean(xs) <= hi
  {
    SumBounds(xs, lo, hi);
    var n := |xs| as real;
    assert Sum(xs) / n >= lo by {
      assert Sum(xs) >= n * lo;
    }
    assert Sum(xs) / n <= hi by {
      assert Sum(xs) <= n * hi;
    }
  }

  /** A school's mean of a field lies within the range of its readings. */
  lemma FieldMeanWithinReadings(t: EnvTable, f: EnvField, lo: real, hi: real)
    requires forall r :: r in t ==> lo <= FieldOf(r, f) <= hi
    ensures FieldMean(t, f).Some? <==> |t| > 0
    ensures FieldMean(t, f).Some? ==> lo <= FieldMean(t, f).value <= hi
  {
    var c := Column(t, f);
    if |t| > 0 {
      assert forall i :: 0 <= i < |c| ==> lo <= c[i] <= hi by {
        assert forall i :: 0 <= i < |c| ==> t[i] in t;
      }
      MeanBounds(c, lo, hi);
    }
  }
}

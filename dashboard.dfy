/** The script's data path from loading to the aggregated tables
    (main.py:78-145, 159-168, 220), without the Streamlit calls that render them. */
module Dashboard {
  import opened Wrappers
  import opened Names
  import opened Tables
  import opened Loaders
  import opened Reconciliation
  import opened Aggregation

  /** Everything the three tabs are drawn from. */
  datatype View = View(
    schools: Schools,
    summary: seq<SummaryRow>,
    totalPlants: nat,
    avgTemp: Option<real>,
    avgHum: Option<real>,
    joined: seq<JoinedRow>,
    optimalEc: real,
    envAverages: seq<EnvAverage>,
    ecGroups: seq<EcGroup>)

  /** How a run ends: it stops with an error message (`st.stop()`); or
      `idxmax` raises on an empty group table (main.py:145) after the
      sidebar and the summary table are drawn; or it shows every table. */
  datatype Outcome =
    | Halted(reason: Halt)
    | IdxmaxRaised(schools: Schools, summary: seq<SummaryRow>)
    | Shown(view: View)

  /** One run of the script over a directory listing. It halts before any
      aggregation exactly when reconciliation fails. It raises at `idxmax`
      exactly when no common school has both an environment reading and a
      plant. Otherwise every table is computed over the sorted common
      schools, the joined table has `total_plants` rows each carrying its
      school's mean EC, and the optimal EC is the first arg-max of the EC
      groups that `ec_avg` charts. */
  method Run(files: seq<Name>, readCsv: CsvReader, readWorkbook: WorkbookReader, norm: Normalizer)
    returns (out: Outcome)
    ensures var env := EnvIndex(files, readCsv, norm);
            var growth := GrowthData(files, readWorkbook, norm);
            var rec := Reconcile(env, growth);
      && (out.Halted? <==> rec.Failure?)
      && (out.Halted? ==> out.reason == rec.error)
      && (out.IdxmaxRaised? <==>
            rec.Success? && forall s :: s in rec.value.common ==> |env[s]| == 0 || |growth[s]| == 0)
      && (out.IdxmaxRaised? ==>
            && out.schools == rec.value
            && |out.summary| == |rec.value.common|
            && (forall i :: 0 <= i < |rec.value.common| ==>
                  out.summary[i] == SummaryOf(rec.value.common[i], env, growth)))
      && (out.Shown? ==>
            var v := out.view;
            var common := rec.value.common;
            && v.schools == rec.value
            && Covers(common, env, growth)
            && |v.summary| == |common|
            && (forall i :: 0 <= i < |common| ==> v.summary[i] == SummaryOf(common[i], env, growth))
            && v.totalPlants == TotalPlants(common, growth) == |v.joined|
            && v.avgTemp == PooledMean(common, env, Temperature)
            && v.avgHum == PooledMean(common, env, Humidity)
            && v.joined == Joined(common, env, growth)
            && (forall i :: 0 <= i < |v.joined| ==>
                  v.joined[i].row.school in common && v.joined[i].ec == FieldMean(env[v.joined[i].row.school], Ec))
            && OptimalEc(v.joined) == Some(v.optimalEc)
            && |v.envAverages| == |common|
            && (forall i :: 0 <= i < |common| ==> v.envAverages[i] == AverageOf(common[i], env[common[i]]))
            && v.ecGroups == GroupByEc(v.joined))
  {
    var envData := LoadEnvironment(files, readCsv, norm);
    var growthData := LoadGrowth(files, readWorkbook, norm);
    var rec := Reconcile(envData, growthData);
    if rec.Failure? {
      return Halted(rec.error);
    }
    var common := rec.value.common;

    var summary, totalPlants := Summarize(common, envData, growthData);
    var avgTemp := PooledMean(common, envData, Temperature);
    var avgHum := PooledMean(common, envData, Humidity);
    var growthAll := Joined(common, envData, growthData);
    GrowthDataShape(files, readWorkbook, norm);
    JoinedRowsCarrySchoolEc(common, envData, growthData);
    NoEcGroupsIff(common, envData, growthData);
    OptimalEcIsFirstArgMax(growthAll);
    var optimalEc := OptimalEc(growthAll);
    if optimalEc.None? {
      return IdxmaxRaised(rec.value, summary);
    }

    var avgEnv := AverageEnvironment(common, envData);
    var ecAvg := GroupByEc(growthAll);

    out := Shown(View(rec.value, summary, totalPlants, avgTemp, avgHum, growthAll, optimalEc.value, avgEnv, ecAvg));
  }
}

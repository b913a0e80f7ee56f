/** The aggregation over the working school list (main.py:121-145, 159-168,
    220): the summary table, the pooled means, the per-school environment
    averages, the growth table joined with each school's mean EC, and the EC
    with the highest mean fresh weight. */
module Aggregation {
  import opened Wrappers
  import opened Names
  import opened Tables

  /** Every school of the working list has both an environment and a growth table. */
  predicate Covers(common: seq<Name>, env: map<Name, EnvTable>, growth: map<Name, GrowthTable>)
  {
    forall s :: s in common ==> s in env && s in growth
  }

  // ---------------------------------------------------------------------------
  // Summary table (main.py:121-133)
  // ---------------------------------------------------------------------------

  /** One row of the summary: `학교명`, `EC 목표` (the mean EC) and `개체수`
      (the number of plants). */
  datatype SummaryRow = SummaryRow(school: Name, ecTarget: Option<real>, plants: nat)

  function SummaryOf(school: Name, env: map<Name, EnvTable>, growth: map<Name, GrowthTable>): SummaryRow
    requires school in env && school in growth
  {
    SummaryRow(school, FieldMean(env[school], Ec), |growth[school]|)
  }

  /** The number of growth rows over the given schools. */
  function TotalPlants(common: seq<Name>, growth: map<Name, GrowthTable>): nat
    requires forall s :: s in common ==> s in growth
  {
    if |common| == 0 then 0
    else TotalPlants(common[..|common| - 1], growth) + |growth[common[|common| - 1]]|
  }

  /** The loop of main.py:121-133: one summary row per school, in list order,
      and the running plant total. */
  method Summarize(common: seq<Name>, env: map<Name, EnvTable>, growth: map<Name, GrowthTable>)
    returns (summary: seq<SummaryRow>, totalPlants: nat)
    requires Covers(common, env, growth)
    ensures |summary| == |common|
    ensures forall i :: 0 <= i < |common| ==> summary[i] == SummaryOf(common[i], env, growth)
    ensures totalPlants == TotalPlants(common, growth)
  {
    summary := [];
    totalPlants := 0;
    for i := 0 to |common|
      invariant |summary| == i
      invariant forall k :: 0 <= k < i ==> summary[k] == SummaryOf(common[k], env, growth)
      invariant totalPlants == TotalPlants(common[..i], growth)
    {
      var school := common[i];
      var df := growth[school];
      var cnt := |df|;
      totalPlants := totalPlants + cnt;
      summary := summary + [SummaryRow(school, FieldMean(env[school], Ec), cnt)];
      assert common[..i + 1][..i] == common[..i];
    }
    assert common[..|common|] == common;
  }

  // ---------------------------------------------------------------------------
  // Pooled temperature and humidity (main.py:138-139)
  // ---------------------------------------------------------------------------

  /** `pd.concat(env_data[s][f] for s in common)`: one column over all schools. */
  function Pooled(common: seq<Name>, env: map<Name, EnvTable>, f: EnvField): seq<real>
    requires forall s :: s in common ==> s in env
  {
    if |common| == 0 then []
    else Pooled(common[..|common| - 1], env, f) + Column(env[common[|common| - 1]], f)
  }

  /** `avg_temp`, `avg_hum`: the mean of the pooled column (not a mean of means). */
  function PooledMean(common: seq<Name>, env: map<Name, EnvTable>, f: EnvField): Option<real>
    requires forall s :: s in common ==> s in env
  {
    MeanOrNaN(Pooled(common, env, f))
  }

  /** Every pooled value is a reading of some school of the list, and there is
      one unless every such school's table is empty. */
  lemma {:induction false} PooledFrom(common: seq<Name>, env: map<Name, EnvTable>, f: EnvField)
    requires forall s :: s in common ==> s in env
    ensures forall x :: x in Pooled(common, env, f) ==>
      exists s, r :: s in common && r in env[s] && x == FieldOf(r, f)
    ensures |Pooled(common, env, f)| > 0 <==> exists s :: s in common && |env[s]| > 0
  {
    if |common| > 0 {
      var n := |common| - 1;
      var init := common[..n];
      PooledFrom(init, env, f);
      var last := common[n];
      var c := Column(env[last], f);
      forall x | x in Pooled(common, env, f)
        ensures exists s, r :: s in common && r in env[s] && x == FieldOf(r, f)
      {
        if x in Pooled(init, env, f) {
          var s, r :| s in init && r in env[s] && x == FieldOf(r, f);
          assert s in common;
        } else {
          assert x in c;
          var k :| 0 <= k < |c| && c[k] == x;
          assert env[last][k] in env[last];
        }
      }
      if exists s :: s in common && |env[s]| > 0 {
        var s :| s in common && |env[s]| > 0;
        if s != last {
          var k :| 0 <= k < |common| && common[k] == s;
          assert init[k] == s;
        }
      }
    }
  }

  /** The pooled mean is NaN only when no school of the list has a reading,
      and otherwise lies within the range of the readings. */
  lemma PooledMeanWithinReadings(common: seq<Name>, env: map<Name, EnvTable>, f: EnvField, lo: real, hi: real)
    requires forall s :: s in common ==> s in env
    requires forall s, r :: s in common && r in env[s] ==> lo <= FieldOf(r, f) <= hi
    ensures PooledMean(common, env, f).Some? <==> exists s :: s in common && |env[s]| > 0
    ensures PooledMean(common, env, f).Some? ==> lo <= PooledMean(common, env, f).value <= hi
  {
    var p := Pooled(common, env, f);
    PooledFrom(common, env, f);
    if |p| > 0 {
      assert forall i :: 0 <= i < |p| ==> lo <= p[i] <= hi by {
        forall i | 0 <= i < |p|
          ensures lo <= p[i] <= hi
        {
          assert p[i] in p;
        }
      }
      MeanBounds(p, lo, hi);
    }
  }

  // ---------------------------------------------------------------------------
  // Environment averages per school (main.py:159-168)
  // ---------------------------------------------------------------------------

  /** One row of `avg_env`: the school and its mean `온도`, `습도`, `pH`, `EC`. */
  datatype EnvAverage = EnvAverage(school: Name, temperature: Option<real>, humidity: Option<real>, ph: Option<real>, ec: Option<real>)

  function AverageOf(school: Name, t: EnvTable): EnvAverage
  {
    EnvAverage(school, FieldMean(t, Temperature), FieldMean(t, Humidity), FieldMean(t, Ph), FieldMean(t, Ec))
  }

  /** The loop of main.py:159-168: one averages row per school, in list order. */
  method AverageEnvironment(common: seq<Name>, env: map<Name, EnvTable>) returns (avgEnv: seq<EnvAverage>)
    requires forall s :: s in common ==> s in env
    ensures |avgEnv| == |common|
    ensures forall i :: 0 <= i < |common| ==> avgEnv[i] == AverageOf(common[i], env[common[i]])
  {
    avgEnv := [];
    for i := 0 to |common|
      invariant |avgEnv| == i
      invariant forall k :: 0 <= k < i ==> avgEnv[k] == AverageOf(common[k], env[common[k]])
    {
      var s := common[i];
      var df := env[s];
      avgEnv := avgEnv + [EnvAverage(s, FieldMean(df, Temperature), FieldMean(df, Humidity),
                                     FieldMean(df, Ph), FieldMean(df, Ec))];
    }
  }

  // ---------------------------------------------------------------------------
  // Growth table joined with each school's mean EC (main.py:141-143)
  // ---------------------------------------------------------------------------

  /** `pd.concat(growth_data[s] for s in common)`: the growth tables one after
      another, in list order. */
  function GrowthAll(common: seq<Name>, growth: map<Name, GrowthTable>): GrowthTable
    requires forall s :: s in common ==> s in growth
  {
    if |common| == 0 then []
    else GrowthAll(common[..|common| - 1], growth) + growth[common[|common| - 1]]
  }

  /** `ec_map`: each school of the list to its mean EC. */
  function EcMap(common: seq<Name>, env: map<Name, EnvTable>): map<Name, Option<real>>
    requires forall s :: s in common ==> s in env
  {
    map s | s in common :: FieldMean(env[s], Ec)
  }

  /** A growth row with the `EC` column added. */
  datatype JoinedRow = JoinedRow(row: GrowthRow, ec: Option<real>)

  /** `growth_all` after `growth_all["EC"] = growth_all["학교"].map(ec_map)`:
      a row whose school is not a key of `ec_map` gets NaN. */
  function Joined(common: seq<Name>, env: map<Name, EnvTable>, growth: map<Name, GrowthTable>): seq<JoinedRow>
    requires Covers(common, env, growth)
  {
    var all := GrowthAll(common, growth);
    var ecMap := EcMap(common, env);
    seq(|all|, i requires 0 <= i < |all| =>
      JoinedRow(all[i], if all[i].school in ecMap then ecMap[all[i].school] else None))
  }

  /** The concatenated growth table has as many rows as the summary's plant
      total, and each row comes from the table of a school of the list. */
  lemma {:induction false} GrowthAllRows(common: seq<Name>, growth: map<Name, GrowthTable>)
    requires forall s :: s in common ==> s in growth
    ensures |GrowthAll(common, growth)| == TotalPlants(common, growth)
    ensures forall r :: r in GrowthAll(common, growth) ==> exists s :: s in common && r in growth[s]
  {
    if |common| > 0 {
      var n := |common| - 1;
      var init := common[..n];
      GrowthAllRows(init, growth);
      forall r | r in GrowthAll(common, growth)
        ensures exists s :: s in common && r in growth[s]
      {
        if r in GrowthAll(init, growth) {
          var s :| s in init && r in growth[s];
          assert s in common;
        } else {
          assert r in growth[common[n]];
        }
      }
    }
  }

  /** Joining keeps the concatenated rows in order, so it has `total_plants`
      rows; when the growth rows carry their sheet's school, every row's `EC`
      is the mean EC of that school's environment table. */
  lemma JoinedRowsCarrySchoolEc(common: seq<Name>, env: map<Name, EnvTable>, growth: map<Name, GrowthTable>)
    requires Covers(common, env, growth)
    requires SchoolTagged(growth)
    ensures var j := Joined(common, env, growth);
      && |j| == TotalPlants(common, growth)
      && (forall i :: 0 <= i < |j| ==> j[i].row == GrowthAll(common, growth)[i])
      && (forall i :: 0 <= i < |j| ==> j[i].row.school in common && j[i].ec == FieldMean(env[j[i].row.school], Ec))
  {
    var all := GrowthAll(common, growth);
    var j := Joined(common, env, growth);
    GrowthAllRows(common, growth);
    forall i | 0 <= i < |j|
      ensures j[i].row.school in common && j[i].ec == FieldMean(env[j[i].row.school], Ec)
    {
      assert all[i] in all;
      var s :| s in common && all[i] in growth[s];
    }
  }

  /** Every row of a school of the list is in the concatenated growth table. */
  lemma {:induction false} GrowthAllContains(common: seq<Name>, growth: map<Name, GrowthTable>, s: Name, r: GrowthRow)
    requires forall s :: s in common ==> s in growth
    requires s in common && r in growth[s]
    ensures r in GrowthAll(common, growth)
  {
    var n := |common| - 1;
    if common[n] != s {
      var k :| 0 <= k < |common| && common[k] == s;
      assert common[..n][k] == s;
      GrowthAllContains(common[..n], growth, s, r);
    }
  }

  // ---------------------------------------------------------------------------
  // EC groups and the optimal EC (main.py:145, 220)
  // ---------------------------------------------------------------------------

  /** The non-NaN `EC` values of the joined table: the keys of
      `groupby("EC")`, which drops NaN keys. */
  function EcKeys(joined: seq<JoinedRow>): set<real>
  {
    set i | 0 <= i < |joined| && joined[i].ec.Some? :: joined[i].ec.value
  }

  /** The fresh weights `생중량(g)` of the rows whose `EC` is `e`, in table order. */
  function WeightsAt(joined: seq<JoinedRow>, e: real): seq<real>
  {
    if |joined| == 0 then []
    else
      var last := joined[|joined| - 1];
      WeightsAt(joined[..|joined| - 1], e) + (if last.ec == Some(e) then [last.row.freshWeightG] else [])
  }

  lemma {:induction false} WeightsAtNonEmpty(joined: seq<JoinedRow>, e: real)
    ensures |WeightsAt(joined, e)| > 0 <==> e in EcKeys(joined)
  {
    if |joined| > 0 {
      var n := |joined| - 1;
      var init := joined[..n];
      WeightsAtNonEmpty(init, e);
      if e in EcKeys(init) {
        var i :| 0 <= i < n && init[i].ec.Some? && init[i].ec.value == e;
        assert joined[i] == init[i];
      }
      if e in EcKeys(joined) && joined[n].ec != Some(e) {
        var i :| 0 <= i < |joined| && joined[i].ec.Some? && joined[i].ec.value == e;
        assert init[i] == joined[i];
      }
    }
  }

  /** The mean fresh weight of the group with `EC` equal to `e`. */
  function GroupMean(joined: seq<JoinedRow>, e: real): real
    requires e in EcKeys(joined)
  {
    WeightsAtNonEmpty(joined, e);
    Mean(WeightsAt(joined, e))
  }

  /** One row of `groupby("EC")["생중량(g)"].mean()`. */
  datatype EcGroup = EcGroup(ec: real, meanFreshWeight: real)

  predicate Ascending(xs: seq<real>)
  {
    forall i, j :: 0 <= i < j < |xs| ==> xs[i] < xs[j]
  }

  /** `e` added to an ascending list of distinct keys, unless it is already there. */
  function InsertKey(xs: seq<real>, e: real): (r: seq<real>)
    requires Ascending(xs)
    ensures Ascending(r)
    ensures forall x :: x in r <==> x in xs || x == e
    decreases |xs|
  {
    if |xs| == 0 then [e]
    else if e < xs[0] then [e] + xs
    else if e == xs[0] then xs
    else
      var rest := InsertKey(xs[1..], e);
      assert forall j :: 0 <= j < |rest| ==> rest[j] in xs[1..] || rest[j] == e;
      [xs[0]] + rest
  }

  /** The distinct non-NaN `EC` values of the joined table in ascending order,
      the order in which `groupby` lists its groups. */
  function SortedEcKeys(joined: seq<JoinedRow>): (r: seq<real>)
    ensures Ascending(r)
    ensures forall e :: e in r <==> e in EcKeys(joined)
  {
    if |joined| == 0 then []
    else
      var n := |joined| - 1;
      var init := joined[..n];
      var r := SortedEcKeys(init);
      assert forall i :: 0 <= i < n ==> init[i] == joined[i];
      assert forall e :: e in EcKeys(joined) <==> e in EcKeys(init) || joined[n].ec == Some(e);
      match joined[n].ec
      case None => r
      case Some(e) => InsertKey(r, e)
  }

  /** `groupby("EC")["생중량(g)"].mean()`, the table behind `optimal_ec` and
      `ec_avg`: one group per distinct non-NaN EC, in ascending EC order, with
      the mean fresh weight of its rows. */
  function GroupByEc(joined: seq<JoinedRow>): (g: seq<EcGroup>)
    ensures forall i, j :: 0 <= i < j < |g| ==> g[i].ec < g[j].ec
    ensures forall e :: e in EcKeys(joined) <==> exists i :: 0 <= i < |g| && g[i].ec == e
    ensures forall i :: 0 <= i < |g| ==> g[i].ec in EcKeys(joined) && g[i].meanFreshWeight == GroupMean(joined, g[i].ec)
  {
    var keys := SortedEcKeys(joined);
    var g := seq(|keys|, i requires 0 <= i < |keys| => EcGroup(keys[i], GroupMean(joined, keys[i])));
    assert forall i :: 0 <= i < |keys| ==> g[i].ec == keys[i];
    g
  }

  /** `idxmax`: the position of the first group with the largest mean. */
  function FirstMaxIndex(g: seq<EcGroup>): (k: nat)
    requires |g| > 0
    ensures k < |g|
    ensures forall j :: 0 <= j < |g| ==> g[j].meanFreshWeight <= g[k].meanFreshWeight
    ensures forall j :: 0 <= j < k ==> g[j].meanFreshWeight < g[k].meanFreshWeight
  {
    if |g| == 1 then 0
    else
      var k := FirstMaxIndex(g[..|g| - 1]);
      if g[k].meanFreshWeight < g[|g| - 1].meanFreshWeight then |g| - 1 else k
  }

  /** `optimal_ec` (main.py:145): the EC of the first group with the largest
      mean fresh weight; `None` where `idxmax` raises on an empty group table. */
  function OptimalEc(joined: seq<JoinedRow>): Option<real>
  {
    var g := GroupByEc(joined);
    if |g| == 0 then None else Some(g[FirstMaxIndex(g)].ec)
  }

  /** The optimal EC is a group key, no group has a strictly greater mean
      fresh weight, and among groups with the same mean it is the smallest EC.
      It is missing exactly when no row has a non-NaN EC. */
  lemma OptimalEcIsFirstArgMax(joined: seq<JoinedRow>)
    ensures OptimalEc(joined).None? <==> EcKeys(joined) == {}
    ensures OptimalEc(joined).Some? ==>
      var e := OptimalEc(joined).value;
      && e in EcKeys(joined)
      && forall e' :: e' in EcKeys(joined) ==>
           GroupMean(joined, e') <= GroupMean(joined, e)
           && (GroupMean(joined, e') == GroupMean(joined, e) ==> e <= e')
  {
    var g := GroupByEc(joined);
    if |g| == 0 {
      assert forall e :: e !in EcKeys(joined);
    } else {
      var k := FirstMaxIndex(g);
      var e := g[k].ec;
      forall e' | e' in EcKeys(joined)
        ensures GroupMean(joined, e') <= GroupMean(joined, e)
        ensures GroupMean(joined, e') == GroupMean(joined, e) ==> e <= e'
      {
        var j :| 0 <= j < |g| && g[j].ec == e';
        if j < k {
          assert g[j].meanFreshWeight < g[k].meanFreshWeight;
        }
      }
    }
  }

  /** An EC group comes from a school with both an environment reading and a plant. */
  lemma EcKeyHasSchool(common: seq<Name>, env: map<Name, EnvTable>, growth: map<Name, GrowthTable>, e: real)
    requires Covers(common, env, growth)
    requires SchoolTagged(growth)
    requires e in EcKeys(Joined(common, env, growth))
    ensures exists s :: s in common && |env[s]| > 0 && |growth[s]| > 0
  {
    var all := GrowthAll(common, growth);
    var j := Joined(common, env, growth);
    JoinedRowsCarrySchoolEc(common, env, growth);
    GrowthAllRows(common, growth);
    var i :| 0 <= i < |j| && j[i].ec == Some(e);
    var s := j[i].row.school;
    assert all[i] in all;
    var t :| t in common && all[i] in growth[t];
    assert s == t;
  }

  /** A school with both an environment reading and a plant gives an EC group. */
  lemma SchoolGivesEcKey(common: seq<Name>, env: map<Name, EnvTable>, growth: map<Name, GrowthTable>, s: Name)
    requires Covers(common, env, growth)
    requires SchoolTagged(growth)
    requires s in common && |env[s]| > 0 && |growth[s]| > 0
    ensures FieldMean(env[s], Ec).Some?
    ensures FieldMean(env[s], Ec).value in EcKeys(Joined(common, env, growth))
  {
    var all := GrowthAll(common, growth);
    var j := Joined(common, env, growth);
    JoinedRowsCarrySchoolEc(common, env, growth);
    var r := growth[s][0];
    GrowthAllContains(common, growth, s, r);
    var i :| 0 <= i < |all| && all[i] == r;
    assert j[i].ec == FieldMean(env[s], Ec);
  }

  /** The group table is empty, so that `idxmax` raises, exactly when no
      school of the list has both a non-empty environment table and a
      non-empty growth sheet. */
  lemma NoEcGroupsIff(common: seq<Name>, env: map<Name, EnvTable>, growth: map<Name, GrowthTable>)
    requires Covers(common, env, growth)
    requires SchoolTagged(growth)
    ensures EcKeys(Joined(common, env, growth)) == {}
        <==> forall s :: s in common ==> |env[s]| == 0 || |growth[s]| == 0
  {
    var keys := EcKeys(Joined(common, env, growth));
    if keys != {} {
      var e :| e in keys;
      EcKeyHasSchool(common, env, growth, e);
    }
    if exists s :: s in common && |env[s]| > 0 && |growth[s]| > 0 {
      var s :| s in common && |env[s]| > 0 && |growth[s]| > 0;
      SchoolGivesEcKey(common, env, growth, s);
    }
  }

  // ---------------------------------------------------------------------------
  // A worked example: two schools
  // ---------------------------------------------------------------------------

  /** School "A" logs EC 1, 1, 2; school "B" logs EC 2, 2. */
  const ExampleEnv: map<Name, EnvTable> :=
    map["A" := [EnvRecord(0, 20.0, 50.0, 6.0, 1.0), EnvRecord(1, 20.0, 50.0, 6.0, 1.0),
                EnvRecord(2, 20.0, 50.0, 6.0, 2.0)],
        "B" := [EnvRecord(0, 20.0, 50.0, 6.0, 2.0), EnvRecord(1, 20.0, 50.0, 6.0, 2.0)]]

  /** School "A" has plants of 10 g and 12 g; school "B" of 20 g and 22 g. */
  const ExampleGrowth: map<Name, GrowthTable> :=
    map["A" := [GrowthRow("A", 5.0, 30.0, 10.0), GrowthRow("A", 5.0, 30.0, 12.0)],
        "B" := [GrowthRow("B", 5.0, 30.0, 20.0), GrowthRow("B", 5.0, 30.0, 22.0)]]

  const ExampleJoined: seq<JoinedRow> :=
    [JoinedRow(GrowthRow("A", 5.0, 30.0, 10.0), Some(4.0 / 3.0)),
     JoinedRow(GrowthRow("A", 5.0, 30.0, 12.0), Some(4.0 / 3.0)),
     JoinedRow(GrowthRow("B", 5.0, 30.0, 20.0), Some(2.0)),
     JoinedRow(GrowthRow("B", 5.0, 30.0, 22.0), Some(2.0))]

  /** The mean EC of "A" is 4/3 and that of "B" is 2, so the joined table gives
      A's rows EC 4/3 and B's rows EC 2. */
  lemma ExampleJoin()
    ensures FieldMean(ExampleEnv["A"], Ec) == Some(4.0 / 3.0)
    ensures FieldMean(ExampleEnv["B"], Ec) == Some(2.0)
    ensures Joined(["A", "B"], ExampleEnv, ExampleGrowth) == ExampleJoined
  {
    assert Column(ExampleEnv["A"], Ec) == [1.0, 1.0, 2.0];
    assert Sum([1.0, 1.0, 2.0]) == 4.0 by {
      assert [1.0, 1.0, 2.0][..2] == [1.0, 1.0];
      assert [1.0, 1.0][..1] == [1.0];
      assert [1.0][..0] == [];
    }
    assert Column(ExampleEnv["B"], Ec) == [2.0, 2.0];
    assert Sum([2.0, 2.0]) == 4.0 by {
      assert [2.0, 2.0][..1] == [2.0];
      assert [2.0][..0] == [];
    }
    assert GrowthAll(["A", "B"], ExampleGrowth) == ExampleGrowth["A"] + ExampleGrowth["B"] by {
      assert ["A", "B"][..1] == ["A"];
      assert ["A"][..0] == [];
    }
  }

  /** Extending a table by one row extends the weights at `e` by that row's
      weight exactly when the row's EC is `e`. */
  lemma WeightsAtSnoc(joined: seq<JoinedRow>, r: JoinedRow, e: real)
    ensures WeightsAt(joined + [r], e)
         == WeightsAt(joined, e) + (if r.ec == Some(e) then [r.row.freshWeightG] else [])
  {
    assert (joined + [r])[..|joined|] == joined;
  }

  /** The fresh weights of the example: 10 and 12 g at EC 4/3, 20 and 22 g at EC 2. */
  lemma ExampleWeights()
    ensures WeightsAt(ExampleJoined, 4.0 / 3.0) == [10.0, 12.0]
    ensures WeightsAt(ExampleJoined, 2.0) == [20.0, 22.0]
  {
    var j := ExampleJoined;
    assert j == [] + [j[0]] + [j[1]] + [j[2]] + [j[3]];
    forall e | e == 4.0 / 3.0 || e == 2.0
      ensures WeightsAt(j, e) == if e == 2.0 then [20.0, 22.0] else [10.0, 12.0]
    {
      WeightsAtSnoc([], j[0], e);
      WeightsAtSnoc([] + [j[0]], j[1], e);
      WeightsAtSnoc([] + [j[0]] + [j[1]], j[2], e);
      WeightsAtSnoc([] + [j[0]] + [j[1]] + [j[2]], j[3], e);
    }
  }

  /** Extending a table by one row inserts that row's EC, if any, into the sorted keys. */
  lemma SortedEcKeysSnoc(joined: seq<JoinedRow>, r: JoinedRow)
    ensures SortedEcKeys(joined + [r])
         == match r.ec case None => SortedEcKeys(joined) case Some(e) => InsertKey(SortedEcKeys(joined), e)
  {
    assert (joined + [r])[..|joined|] == joined;
  }

  /** The example's EC keys, in ascending order, are 4/3 and 2. */
  lemma ExampleKeys()
    ensures SortedEcKeys(ExampleJoined) == [4.0 / 3.0, 2.0]
  {
    var j := ExampleJoined;
    var a := 4.0 / 3.0;
    assert j == [] + [j[0]] + [j[1]] + [j[2]] + [j[3]];
    SortedEcKeysSnoc([], j[0]);
    assert SortedEcKeys([] + [j[0]]) == [a];
    SortedEcKeysSnoc([] + [j[0]], j[1]);
    assert SortedEcKeys([] + [j[0]] + [j[1]]) == [a];
    SortedEcKeysSnoc([] + [j[0]] + [j[1]], j[2]);
    assert [a][1..] == [];
    assert SortedEcKeys([] + [j[0]] + [j[1]] + [j[2]]) == [a, 2.0];
    SortedEcKeysSnoc([] + [j[0]] + [j[1]] + [j[2]], j[3]);
    assert [a, 2.0][1..] == [2.0];
  }

  /** The example's mean fresh weights: 11 g at EC 4/3 and 21 g at EC 2. */
  lemma ExampleGroupMeans()
    ensures 4.0 / 3.0 in EcKeys(ExampleJoined) && 2.0 in EcKeys(ExampleJoined)
    ensures GroupMean(ExampleJoined, 4.0 / 3.0) == 11.0
    ensures GroupMean(ExampleJoined, 2.0) == 21.0
  {
    assert ExampleJoined[0].ec == Some(4.0 / 3.0) && ExampleJoined[2].ec == Some(2.0);
    ExampleWeights();
    assert Sum([10.0, 12.0]) == 22.0 by {
      assert [10.0, 12.0][..1] == [10.0];
      assert [10.0][..0] == [];
    }
    assert Sum([20.0, 22.0]) == 42.0 by {
      assert [20.0, 22.0][..1] == [20.0];
      assert [20.0][..0] == [];
    }
  }

  /** The example's groups are {4/3: 11, 2: 21}: the mean fresh weights at each EC. */
  lemma ExampleGroups()
    ensures GroupByEc(ExampleJoined) == [EcGroup(4.0 / 3.0, 11.0), EcGroup(2.0, 21.0)]
  {
    ExampleKeys();
    ExampleGroupMeans();
  }

  /** The example's optimal EC is 2, the group with the heavier plants. */
  lemma ExampleOptimalEc()
    ensures OptimalEc(ExampleJoined) == Some(2.0)
  {
    ExampleGroups();
    var g := GroupByEc(ExampleJoined);
    assert g[..1] == [g[0]];
  }
}

/** `load_environment_data` and `load_growth_data` (main.py:37-66): build the
    two dictionaries keyed by school name from a directory listing. The
    listing is a sequence of file names in enumeration order; reading a CSV
    file and reading a workbook's sheets are functions given by the caller. */
module Loaders {
  import opened Wrappers
  import opened Names
  import opened Tables

  /** `pd.read_csv(f)` followed by the `time` conversion: the parsed table of a file. */
  type CsvReader = Name -> EnvTable

  /** One sheet of a workbook: its name and its parsed rows. */
  datatype Sheet = Sheet(name: Name, rows: GrowthTable)

  /** `pd.ExcelFile(f).sheet_names` with `pd.read_excel(f, sheet_name=…)` for
      each: the sheets of a workbook, in workbook order. */
  type WorkbookReader = Name -> seq<Sheet>

  // ---------------------------------------------------------------------------
  // The dictionary-filling loop both loaders run
  // ---------------------------------------------------------------------------

  /** The dictionary `d` that `for x in items: if keep(x): d[key(x)] = value(x)`
      leaves, starting from `{}`. */
  function Fill<T, V>(items: seq<T>, keep: T -> bool, key: T -> Name, value: T -> V): map<Name, V>
    decreases |items|
  {
    if |items| == 0 then map[]
    else
      var m := Fill(items[..|items| - 1], keep, key, value);
      var x := items[|items| - 1];
      if keep(x) then m[key(x) := value(x)] else m
  }

  /** A key is in the filled dictionary iff some kept item has it. */
  lemma {:induction false} FillKeys<T, V>(items: seq<T>, keep: T -> bool, key: T -> Name, value: T -> V, k: Name)
    ensures k in Fill(items, keep, key, value)
        <==> exists i :: 0 <= i < |items| && keep(items[i]) && key(items[i]) == k
    decreases |items|
  {
    if |items| > 0 {
      var n := |items| - 1;
      var init := items[..n];
      FillKeys(init, keep, key, value, k);
      if exists i :: 0 <= i < n && keep(items[i]) && key(items[i]) == k {
        var i :| 0 <= i < n && keep(items[i]) && key(items[i]) == k;
        assert init[i] == items[i];
      }
    }
  }

  /** The value under a key is that of the LAST kept item with the key. */
  lemma {:induction false} FillLastWins<T, V>(items: seq<T>, keep: T -> bool, key: T -> Name, value: T -> V, i: nat)
    requires i < |items| && keep(items[i])
    requires forall j :: i < j < |items| && keep(items[j]) ==> key(items[j]) != key(items[i])
    ensures key(items[i]) in Fill(items, keep, key, value)
    ensures Fill(items, keep, key, value)[key(items[i])] == value(items[i])
    decreases |items|
  {
    var n := |items| - 1;
    if i < n {
      FillLastWins(items[..n], keep, key, value, i);
    }
  }

  /** Every value of the filled dictionary is the value of a kept item with that key. */
  lemma {:induction false} FillValueFrom<T, V>(items: seq<T>, keep: T -> bool, key: T -> Name, value: T -> V, k: Name)
    requires k in Fill(items, keep, key, value)
    ensures exists i :: 0 <= i < |items| && keep(items[i]) && key(items[i]) == k
                        && Fill(items, keep, key, value)[k] == value(items[i])
    decreases |items|
  {
    var n := |items| - 1;
    var x := items[n];
    if keep(x) && key(x) == k {
      assert keep(items[n]) && key(items[n]) == k;
    } else {
      var init := items[..n];
      FillValueFrom(init, keep, key, value, k);
      var i :| 0 <= i < |init| && keep(init[i]) && key(init[i]) == k && Fill(init, keep, key, value)[k] == value(init[i]);
      assert init[i] == items[i];
    }
  }

  /** The position of the first item satisfying `p`, if any. */
  function FirstWhere<T>(items: seq<T>, p: T -> bool): (r: Option<nat>)
    ensures r.Some? ==> r.value < |items| && p(items[r.value])
    ensures r.Some? ==> forall j :: 0 <= j < r.value ==> !p(items[j])
    ensures r.None? <==> forall j :: 0 <= j < |items| ==> !p(items[j])
  {
    if |items| == 0 then None
    else if p(items[0]) then Some(0)
    else match FirstWhere(items[1..], p)
      case None => None
      case Some(k) => Some(k + 1)
  }

  // ---------------------------------------------------------------------------
  // Environment data
  // ---------------------------------------------------------------------------

  function CsvKey(norm: Normalizer): Name -> Name
  {
    f => CsvSchool(f, norm)
  }

  /** The environment dictionary after the loop has seen `files`: every CSV
      file is stored under its school, replacing what an earlier file stored. */
  function EnvIndex(files: seq<Name>, readCsv: CsvReader, norm: Normalizer): map<Name, EnvTable>
  {
    Fill(files, IsCsv, CsvKey(norm), readCsv)
  }

  /** `load_environment_data` (main.py:38-46). */
  method LoadEnvironment(files: seq<Name>, readCsv: CsvReader, norm: Normalizer)
    returns (env: map<Name, EnvTable>)
    ensures env == EnvIndex(files, readCsv, norm)
  {
    env := map[];
    for i := 0 to |files|
      invariant env == EnvIndex(files[..i], readCsv, norm)
    {
      var f := files[i];
      if IsCsv(f) {
        var school := CsvSchool(f, norm);
        var df := readCsv(f);
        env := env[school := df];
      }
      assert files[..i + 1][..i] == files[..i];
    }
    assert files[..|files|] == files;
  }

  /** A school is in the environment dictionary iff some CSV file of the
      listing belongs to it; other files contribute nothing. */
  lemma EnvIndexKeys(files: seq<Name>, readCsv: CsvReader, norm: Normalizer, school: Name)
    ensures school in EnvIndex(files, readCsv, norm)
        <==> exists i :: 0 <= i < |files| && IsCsv(files[i]) && CsvSchool(files[i], norm) == school
  {
    FillKeys(files, IsCsv, CsvKey(norm), readCsv, school);
  }

  /** A school's table is the one read from the LAST CSV file of that school
      in the listing: a later file replaces an earlier one, nothing is appended. */
  lemma EnvIndexLastWins(files: seq<Name>, readCsv: CsvReader, norm: Normalizer, i: nat)
    requires i < |files| && IsCsv(files[i])
    requires forall j :: i < j < |files| && IsCsv(files[j]) ==> CsvSchool(files[j], norm) != CsvSchool(files[i], norm)
    ensures CsvSchool(files[i], norm) in EnvIndex(files, readCsv, norm)
    ensures EnvIndex(files, readCsv, norm)[CsvSchool(files[i], norm)] == readCsv(files[i])
  {
    FillLastWins(files, IsCsv, CsvKey(norm), readCsv, i);
  }

  // ---------------------------------------------------------------------------
  // Growth data
  // ---------------------------------------------------------------------------

  /** The first `.xlsx` entry of the listing, if any. */
  function FirstXlsx(files: seq<Name>): Option<nat>
  {
    FirstWhere(files, IsXlsx)
  }

  /** A scan that stops at the first item satisfying `p`, as the `for … break`
      of main.py:50-54 does for the first workbook. */
  method ScanFirst<T>(items: seq<T>, p: T -> bool) returns (found: Option<nat>)
    ensures found == FirstWhere(items, p)
  {
    found := None;
    var i := 0;
    while i < |items|
      invariant 0 <= i <= |items|
      invariant forall j :: 0 <= j < i ==> !p(items[j])
    {
      if p(items[i]) {
        found := Some(i);
        break;
      }
      i := i + 1;
    }
  }

  /** `df["학교"] = school` (main.py:64): every row gets the school column. */
  function Tag(rows: GrowthTable, school: Name): GrowthTable
  {
    seq(|rows|, i requires 0 <= i < |rows| => rows[i].(school := school))
  }

  const EverySheet: Sheet -> bool := (s: Sheet) => true

  function SheetSchool(norm: Normalizer): Sheet -> Name
  {
    (s: Sheet) => norm(s.name)
  }

  function TaggedRows(norm: Normalizer): Sheet -> GrowthTable
  {
    (s: Sheet) => Tag(s.rows, norm(s.name))
  }

  /** The growth dictionary after the sheet loop has seen `sheets`: each sheet
      is stored, tagged, under its normalised name. */
  function SheetIndex(sheets: seq<Sheet>, norm: Normalizer): map<Name, GrowthTable>
  {
    Fill(sheets, EverySheet, SheetSchool(norm), TaggedRows(norm))
  }

  /** What `load_growth_data` returns: the empty dictionary without a
      workbook, otherwise the sheets of the first workbook. */
  function GrowthData(files: seq<Name>, readWorkbook: WorkbookReader, norm: Normalizer): map<Name, GrowthTable>
  {
    match FirstXlsx(files)
    case None => map[]
    case Some(i) => SheetIndex(readWorkbook(files[i]), norm)
  }

  /** `load_growth_data` (main.py:49-66). */
  method LoadGrowth(files: seq<Name>, readWorkbook: WorkbookReader, norm: Normalizer)
    returns (growth: map<Name, GrowthTable>)
    ensures growth == GrowthData(files, readWorkbook, norm)
  {
    var xlsx := ScanFirst(files, IsXlsx);
    if xlsx.None? {
      return map[];
    }
    growth := map[];
    var sheets := readWorkbook(files[xlsx.value]);
    for j := 0 to |sheets|
      invariant growth == SheetIndex(sheets[..j], norm)
    {
      var school := norm(sheets[j].name);
      var df := sheets[j].rows;
      df := Tag(df, school);
      growth := growth[school := df];
      assert sheets[..j + 1][..j] == sheets[..j];
    }
    assert sheets[..|sheets|] == sheets;
  }

  /** The growth dictionary has one key per sheet name, normalised, and no other. */
  lemma SheetIndexKeys(sheets: seq<Sheet>, norm: Normalizer, school: Name)
    ensures school in SheetIndex(sheets, norm) <==> exists i :: 0 <= i < |sheets| && norm(sheets[i].name) == school
  {
    FillKeys(sheets, EverySheet, SheetSchool(norm), TaggedRows(norm), school);
  }

  /** Every row stored under a school carries that school in its `학교` column. */
  lemma SheetIndexTagged(sheets: seq<Sheet>, norm: Normalizer)
    ensures SchoolTagged(SheetIndex(sheets, norm))
  {
    var m := SheetIndex(sheets, norm);
    forall k: Name, r: GrowthRow | k in m && r in m[k]
      ensures r.school == k
    {
      FillValueFrom(sheets, EverySheet, SheetSchool(norm), TaggedRows(norm), k);
      var i :| 0 <= i < |sheets| && norm(sheets[i].name) == k && m[k] == Tag(sheets[i].rows, k);
      var idx :| 0 <= idx < |m[k]| && m[k][idx] == r;
      assert Tag(sheets[i].rows, k)[idx] == sheets[i].rows[idx].(school := k);
    }
  }

  /** A school's table holds the rows of the LAST sheet with that name, each
      tagged with the school and otherwise as read. */
  lemma SheetIndexLastWins(sheets: seq<Sheet>, norm: Normalizer, i: nat)
    requires i < |sheets|
    requires forall j :: i < j < |sheets| ==> norm(sheets[j].name) != norm(sheets[i].name)
    ensures norm(sheets[i].name) in SheetIndex(sheets, norm)
    ensures var t := SheetIndex(sheets, norm)[norm(sheets[i].name)];
      |t| == |sheets[i].rows| &&
      forall k :: 0 <= k < |t| ==> t[k] == sheets[i].rows[k].(school := norm(sheets[i].name))
  {
    FillLastWins(sheets, EverySheet, SheetSchool(norm), TaggedRows(norm), i);
  }

  /** Without a workbook the growth dictionary is empty; with one, its keys are
      the normalised sheet names of the first workbook, and its rows are tagged. */
  lemma GrowthDataShape(files: seq<Name>, readWorkbook: WorkbookReader, norm: Normalizer)
    ensures SchoolTagged(GrowthData(files, readWorkbook, norm))
    ensures (forall j :: 0 <= j < |files| ==> !IsXlsx(files[j])) ==> GrowthData(files, readWorkbook, norm) == map[]
    ensures FirstXlsx(files).Some? ==>
      var sheets := readWorkbook(files[FirstXlsx(files).value]);
      forall school :: school in GrowthData(files, readWorkbook, norm)
        <==> exists i :: 0 <= i < |sheets| && norm(sheets[i].name) == school
  {
    match FirstXlsx(files)
    case None =>
    case Some(w) =>
      var sheets := readWorkbook(files[w]);
      SheetIndexTagged(sheets, norm);
      forall school
        ensures school in GrowthData(files, readWorkbook, norm)
            <==> exists i :: 0 <= i < |sheets| && norm(sheets[i].name) == school
      {
        SheetIndexKeys(sheets, norm, school);
      }
  }
}

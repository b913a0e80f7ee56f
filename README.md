# Optimal-EC dashboard: data path model

`main.py` is a Streamlit dashboard for a plant-growth study. It compares
schools that grew polar plants at different EC (electrical conductivity)
levels. It reads a `data` directory with two kinds of file:

- one CSV environment log per school (`time`, `temperature`, `humidity`,
  `ph`, `ec`);
- one Excel workbook holding a growth sheet per school (`잎 수(장)`,
  `지상부 길이(mm)`, `생중량(g)`).

It reconciles the two sets of schools, then shows:

- a summary table;
- the pooled mean temperature and humidity;
- per-school environment averages;
- the mean fresh weight per EC level;
- the EC level with the highest mean fresh weight, the "optimal EC".

This project models that data path in Dafny and proves what it guarantees.
The Streamlit and Plotly rendering is not modelled.

- `names.dfy` (module `Names`) covers how a school name is read off a file
  name:
  - `Path.suffix` and `Path.stem`, following CPython 3.12 `pathlib`;
  - `str.lower()` on suffixes;
  - `split("_")[0]`.
  It also defines Python's order on strings and `sorted` for a set of names.
- `tables.dfy` (module `Tables`) holds the parsed tables and the pandas column
  mean. The mean of an empty column is NaN, which is `None` here.
- `loaders.dfy` (module `Loaders`) models the two loaders as loops over a
  directory listing. Both fill a dictionary in which a later entry for the
  same school replaces an earlier one.
- `reconciliation.dfy` (module `Reconciliation`) covers:
  - the two halting conditions;
  - the sorted list of common schools;
  - the warning set of growth schools without environment data;
  - the sidebar choices.
- `aggregation.dfy` (module `Aggregation`) covers:
  - the summary loop and the plant total;
  - the pooled means;
  - the per-school averages;
  - the growth table joined with each school's mean EC;
  - `groupby("EC")` with its mean fresh weights;
  - `idxmax`.
  It ends with a worked two-school example.
- `dashboard.dfy` (module `Dashboard`) chains all of these, as the script does
  from loading to the last table.

Some things the script does are given to the model as parameters:

- the directory listing, as a sequence of file names in enumeration order;
- CSV parsing (`CsvReader`);
- workbook reading (`WorkbookReader`);
- Unicode NFC normalisation, `normalize_name` (`Normalizer`).

When two files belong to the same school, the later file in enumeration order
replaces the earlier table; the rows are not appended. This is Python's
dictionary assignment (main.py:45, 65), stated by `EnvIndexLastWins` and
`SheetIndexLastWins`.

A run ends in one of three ways (`Dashboard.Run`):
- it stops with an error message when a loader finds nothing or no school has
  both kinds of data;
- it raises at `idxmax` (main.py:145) when no common school has both an
  environment reading and a plant, after drawing the sidebar and the summary;
- otherwise it shows every table.

## Model

| member | source | states |
|---|---|---|
| Names.SuffixDot | main.py:41 | the suffix dot is absent (-1) or strictly inside the name; `SuffixDotIsLastDot` states which dot it is |
| Names.SuffixDotIsLastDot | main.py:41 | the suffix dot is the last dot of the name, and there is none exactly when every dot strictly inside the name has another dot after it |
| Names.LastIndexOfIsLast | main.py:41 | `rfind` returns -1 or a position holding the character, and no later position holds it |
| Names.StemAndSuffix | main.py:41-42 | a file name is its stem followed by its suffix; the suffix is empty or a dot followed by dot-free text, and never the whole name |
| Names.Suffix | main.py:41 | `Path.suffix`; `StemAndSuffix` and `SuffixOfDotted` state its value |
| Names.Stem | main.py:42 | `Path.stem`; `StemAndSuffix` and `SuffixOfDotted` state its value |
| Names.SuffixOfDotted | main.py:41-42 | "<stem>.<ext>" with a non-empty stem and a non-empty dot-free extension has suffix "." + ext and stem "<stem>" |
| Names.Lower | main.py:41 | `str.lower()` on ASCII letters; `LowerAppend` and `LowerDotted` state how it acts on a suffix |
| Names.LowerAppend | main.py:41 | lower-casing distributes over concatenation |
| Names.LowerDotted | main.py:41 | lower-casing "." + ext gives "." followed by ext lower-cased |
| Names.LowerSuffixOfDotted | main.py:41 | the lower-cased suffix of "<stem>.<ext>" equals a target iff the target is "." followed by the lower-cased extension |
| Names.IsCsv | main.py:41 | the `.csv` test; `IsCsvIff` states which names pass it |
| Names.IsCsvIff | main.py:41 | "<stem>.<ext>" is kept as an environment log iff its extension lower-cases to "csv" |
| Names.IsXlsx | main.py:52 | the `.xlsx` test; `IsXlsxIff` states which names pass it |
| Names.IsXlsxIff | main.py:52 | "<stem>.<ext>" is taken as the workbook iff its extension lower-cases to "xlsx" |
| Names.FirstField | main.py:42 | `split(sep)[0]` is a prefix of the text that holds no separator and ends at the first separator or at the end |
| Names.CsvSchool | main.py:42 | the school of a CSV file; `CsvSchoolOfFileName` states its value |
| Names.CsvSchoolOfFileName | main.py:42 | a file named `<school>_<rest>.<ext>`, where `<school>` has no underscore, has stem `<school>_<rest>` and belongs to school `normalize_name(<school>)` |
| Names.LowerOfUpperCsv | main.py:41 | "CSV" lower-cases to "csv" |
| Names.UpperCaseCsvIsKept | main.py:41 | "A_1.CSV" is kept as an environment log: the suffix test ignores case |
| Names.UpperCaseCsvSchool | main.py:42 | "A_1.CSV" belongs to school `normalize_name("A")` |
| Names.BelowIrreflexive | main.py:88 | no name sorts before itself |
| Names.BelowTransitive | main.py:88 | the string order that `sorted` uses is transitive |
| Names.BelowTotal | main.py:88 | of two different names exactly one sorts first |
| Names.LeastExists | main.py:88 | every non-empty set of names has a least element |
| Names.LeastUnique | main.py:88 | the least element of a set of names is unique |
| Names.SortedNames | main.py:88 | `sorted(set)` is strictly ascending, holds exactly the set's elements, and has the set's size |
| Tables.MeanOrNaN | main.py:131 | `Series.mean()` is a number exactly when the column is non-empty, and NaN otherwise |
| Tables.SumBounds | main.py:131 | a sum of n values within [lo, hi] lies within [n·lo, n·hi] |
| Tables.MeanBounds | main.py:131 | a mean lies between the bounds of the values it is taken over |
| Tables.FieldMeanWithinReadings | main.py:164-167 | a school's mean of a field is NaN exactly when its table is empty, and otherwise lies within its readings' range |
| Loaders.FillKeys | main.py:39-45 | a key is in the filled dictionary iff some kept entry maps to it |
| Loaders.FillLastWins | main.py:45 | the value under a key is that of the last kept entry with that key |
| Loaders.FillValueFrom | main.py:59-65 | every value of the filled dictionary comes from a kept entry with that key |
| Loaders.FirstWhere | main.py:50-54 | the position found satisfies the test and no earlier one does; there is none iff no entry does |
| Loaders.ScanFirst | main.py:50-54 | the `for … break` scan finds exactly the first entry passing the test, or nothing |
| Loaders.LoadEnvironment | main.py:38-46 | the loop returns the dictionary of every `.csv` entry (any case) under its school, later files replacing earlier ones |
| Loaders.EnvIndex | main.py:39-45 | the environment dictionary; `EnvIndexKeys` and `EnvIndexLastWins` state its keys and values |
| Loaders.EnvIndexKeys | main.py:40-45 | a school is a key iff some `.csv` entry of the listing belongs to it; other entries contribute nothing |
| Loaders.EnvIndexLastWins | main.py:45 | a school's table is the one read from its last `.csv` entry in the listing |
| Loaders.LoadGrowth | main.py:49-66 | without an `.xlsx` entry the result is empty; otherwise each sheet of the first workbook is stored, tagged, under its normalised name |
| Loaders.Tag | main.py:64 | `df["학교"] = school`; `SheetIndexLastWins` states the tagged rows |
| Loaders.GrowthData | main.py:50-66 | the growth dictionary; `GrowthDataShape` states its keys and tagging |
| Loaders.SheetIndexKeys | main.py:61-65 | the keys are exactly the normalised sheet names |
| Loaders.SheetIndexTagged | main.py:64 | every row stored under a school carries that school in `학교` |
| Loaders.SheetIndexLastWins | main.py:61-65 | a school's table has the rows of its last sheet, in order, each tagged with the school and otherwise unchanged |
| Loaders.GrowthDataShape | main.py:50-65 | the growth dictionary is school-tagged; it is empty when the listing has no `.xlsx` entry, and otherwise its keys are exactly the normalised sheet names of the first workbook |
| Reconciliation.Reconcile | main.py:81-101 | halts iff a dictionary is empty (`EmptyDataset`) or the key sets are disjoint (`NoOverlap`); otherwise the common list is the sorted intersection, the warning set is growth minus environment, and the selector is "전체" followed by the common list |
| Reconciliation.MissingEnvOnlyWarns | main.py:94-96 | a growth school without environment data is only warned about and does not halt the dashboard when some school has both |
| Aggregation.Summarize | main.py:121-133 | one summary row per common school, in order, with its mean EC and plant count; the running total is the number of growth rows |
| Aggregation.TotalPlants | main.py:122-127 | `total_plants`; `Summarize` and `GrowthAllRows` state its value |
| Aggregation.Pooled | main.py:138-139 | the pooled column; `PooledFrom` states where its values come from |
| Aggregation.PooledMean | main.py:138-139 | `avg_temp` and `avg_hum`; `PooledMeanWithinReadings` states when it is NaN and its range |
| Aggregation.PooledFrom | main.py:138-139 | every pooled value is a reading of a common school, and the pooled column is non-empty iff some common school has a reading |
| Aggregation.PooledMeanWithinReadings | main.py:138-139 | the pooled mean is NaN iff no common school has a reading, and otherwise lies within the readings' range |
| Aggregation.AverageEnvironment | main.py:159-168 | one row per common school, in order, holding the school's mean temperature, humidity, pH and EC |
| Aggregation.GrowthAll | main.py:141 | `growth_all` before the join; `GrowthAllRows` and `GrowthAllContains` state its rows |
| Aggregation.GrowthAllRows | main.py:141 | the concatenated growth table has `total_plants` rows, each from a common school's table |
| Aggregation.GrowthAllContains | main.py:141 | every row of a common school's sheet is in the concatenated table |
| Aggregation.EcMap | main.py:142 | `ec_map`; `JoinedRowsCarrySchoolEc` states the EC it gives each row |
| Aggregation.Joined | main.py:143 | the joined table; `JoinedRowsCarrySchoolEc` states its rows |
| Aggregation.JoinedRowsCarrySchoolEc | main.py:141-143 | the joined table keeps the concatenated rows in order, and each row's `EC` is the mean EC of its own school |
| Aggregation.WeightsAtNonEmpty | main.py:145 | an EC value has a non-empty group iff some row carries it |
| Aggregation.GroupMean | main.py:220 | the mean fresh weight of one EC group; `GroupByEc` and `ExampleGroups` state it |
| Aggregation.InsertKey | main.py:145 | inserting a key into an ascending list keeps it ascending, adding exactly that key |
| Aggregation.SortedEcKeys | main.py:145 | the group keys are ascending and are exactly the non-NaN EC values |
| Aggregation.GroupByEc | main.py:220 | `groupby("EC").mean()` has ascending keys, one group per non-NaN EC value, each with the mean fresh weight of its rows |
| Aggregation.FirstMaxIndex | main.py:145 | `idxmax` picks a group whose mean no group exceeds, and every earlier group's mean is strictly smaller |
| Aggregation.OptimalEc | main.py:145 | `optimal_ec`; `OptimalEcIsFirstArgMax` states it |
| Aggregation.OptimalEcIsFirstArgMax | main.py:145 | the optimal EC is missing iff no row has an EC; otherwise it is a group key, no group has a greater mean fresh weight, and it is the smallest EC among ties |
| Aggregation.EcKeyHasSchool | main.py:141-145 | every EC group comes from a common school with both an environment reading and a plant |
| Aggregation.SchoolGivesEcKey | main.py:141-145 | a common school with both an environment reading and a plant gives the group of its mean EC |
| Aggregation.NoEcGroupsIff | main.py:141-145 | the group table is empty, so `idxmax` raises, exactly when no common school has both an environment reading and a plant |
| Aggregation.ExampleJoin | main.py:141-143 | with EC readings 1, 1, 2 for school A and 2, 2 for school B, A's rows carry EC 4/3 and B's rows carry EC 2 |
| Aggregation.ExampleWeights | main.py:145 | in that example the EC 4/3 group weighs 10 and 12 g, and the EC 2 group weighs 20 and 22 g |
| Aggregation.ExampleKeys | main.py:145 | in that example the group keys are 4/3 and 2, in that order |
| Aggregation.ExampleGroupMeans | main.py:220 | in that example the mean fresh weight is 11 g at EC 4/3 and 21 g at EC 2 |
| Aggregation.ExampleGroups | main.py:220 | in that example the EC groups are {4/3: 11 g, 2: 21 g} |
| Aggregation.ExampleOptimalEc | main.py:145 | in that example the optimal EC is 2 |
| Dashboard.Run | main.py:78-220 | the run halts exactly when reconciliation fails, with its reason; it raises at `idxmax` exactly when no common school has both an environment reading and a plant, after the sidebar and summary; otherwise every table is computed over the sorted common schools, the joined table has `total_plants` rows each carrying its school's mean EC, and the optimal EC is the first arg-max of the charted EC groups |

## Left out

- The Streamlit page is not modelled, and neither are the Plotly figures, the download buttons, the selected school's time series or the raw-data expander (main.py:13-26, 102-119, 135-136, 147-151, 170-212, 221-270).
- `st.cache_data` is not modelled. Caching does not change what a loader returns.
- The `DATA_DIR.exists()` check (main.py:74-76) is not modelled. The listing is given as a parameter.
- File I/O and parsing are parameters: `pd.read_csv`, `pd.to_datetime`, `pd.ExcelFile` and `pd.read_excel`. Parse errors are not modelled.
- Every directory entry is taken to be a regular file. A directory whose name ends in `.csv` would make `read_csv` fail.
- `normalize_name`'s NFC normalisation is a parameter. Unicode normalisation is foreign code.
- Names.Lower lowers ASCII letters only. That is exact for the comparison with ".csv" and ".xlsx": no other character's lower case is one of their letters.
- Names.Suffix and Names.Stem follow Python 3.12 `pathlib`, where a trailing dot starts no suffix. Python 3.14 changed that case.
- Tables.EnvRecord and Tables.GrowthRow have only the columns the dashboard reads. A NaN cell inside a column, which pandas skips when taking a mean, is not modelled. Readings are exact reals, not floating point.
- Aggregation.Summarize: `EC 목표` is the unrounded mean. `round(…, 2)` and the `:.1f` and `:.2f` display formats are not modelled.
- Aggregation.OptimalEc: it is `None` where `idxmax` raises on an empty group table. That happens exactly when no common school has both a non-empty environment table and a non-empty growth sheet (`NoEcGroupsIff`). `Dashboard.Run` then ends in `IdxmaxRaised`; the traceback is not modelled.
- Reconciliation.Reconcile: the order in which the warning lists the schools is not modelled. Python's set iteration order is unspecified, so the warning set is a `set`.

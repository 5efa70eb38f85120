# Lead-scoring preprocessing, modelled in Dafny

The service scores sales leads. A `POST /predict` request carries six
equally long lists, which are the columns of a batch of leads:
TotalVisits, Total_Time_Spent_on_Website, Page_Views_Per_Visit, Country,
Lead_Source and Last_Activity. `preprocess_input` turns that batch into the
fixed-schema matrix the classifier was trained on. The handler then returns
the probability of conversion for each remaining row.

The model follows the pipeline step by step. There is one module per step:

- `Frames`: pandas tables.
  - A `Frame` has distinct column names, a map from name to `Series` and
    the row labels.
  - A `Table` is a list of columns whose names may repeat, as
    `get_dummies` and `concat` produce.
  - Each `Series` carries a dtype (`Float64`, `Int64`, `Bool`, `Object`)
    and cells that are numbers, strings or missing.
  - Exceptions are a `Failure` value inside a `Result`.
- `Filtering`: `dropna`, keeping the original row labels.
- `Features`: the derived columns of lines 31-40, and a specification,
  `DerivedFrom`, of what they hold in terms of the input frame.
- `Encoding`: removal of `Prospect_ID`, and `get_dummies(drop_first=True)`.
  Levels are sorted in Python's string order, and every string column
  becomes one bool indicator per level except the least. The other columns
  come first, then the indicator blocks.
- `Alignment`: the zero-filling and selection of lines 49-53.
  - Python's set has no order, so the model proves that any order of the
    missing names gives the same result.
  - `Reference` is an independent description of the aligned columns.
- `Pipeline`: the in-place construction of `data_dropped`.
  - `class DataFrame` has a `SetItem` method, and `method DeriveInPlace`
    performs the assignments of lines 31-40.
  - `method PreprocessInput` is the whole of `preprocess_input`.
  - Each method is proved equal to a specification function:
    `DeriveFeatures`, and `Preprocess`.
- `Service`: the `/predict` handler.
  - The request becomes a frame with rows labelled 0..n-1.
  - A preprocessing failure maps to 400 and a scoring failure to 500.
  - `pd.DataFrame(...)` at line 71 runs before either `try` block. So a
    request whose lists differ in length ends in an exception the handler
    does not map. The model records this as `Unhandled`, not as a 400.

### Duplicate names and `expected_columns`

pandas lets a frame carry two columns of the same name, and `get_dummies`
can create one. A Country value `Visits_Avg` that is not the least
surviving Country level of the batch yields the indicator
`Country_Visits_Avg`. That is also the name of the derived column of
line 36. (When `Visits_Avg` is the least level, `drop_first` drops its
indicator and no duplicate arises.) Selecting `expected_columns` then
returns both columns for that one name, so the matrix is wider than
`expected_columns`. `Alignment.DuplicateNameWidens` shows this on a
concrete table. `Service.RequestEncodedClash` proves that it happens for
every request with a complete row whose Country is `Visits_Avg` and
another whose Country is smaller. `Service.TwoRowRequestClash` applies
this to the two-row request with the Country values `A` and `Visits_Avg`.
The width lemmas (`Alignment.AlignSchema`, `Pipeline.PreparedSchema`,
`Pipeline.PreprocessShape`) therefore require that the encoded column
names are distinct. `Service.RequestEncodedDistinct` shows that this
holds for every equal-length request without the Country value
`Visits_Avg`. The row count does not depend on the names:
`Pipeline.PreprocessRows` and `Service.PredictCount` hold for every
input.

## Model

| member | source | states |
|---|---|---|
| Frames.Lookup | scripts/app.py:31 | `df[name]` succeeds exactly when the column exists, and otherwise raises KeyError naming it |
| Frames.Assign | scripts/app.py:31-40 | `df[name] = s` keeps the frame well formed. It replaces the column where it stands or appends it last, and every other column is unchanged |
| Filtering.Survivors | scripts/app.py:29 | the surviving positions are complete rows, at most one per input row |
| Filtering.SurvivorsExactly | scripts/app.py:29 | a row survives if and only if none of its cells is missing |
| Filtering.DropNa | scripts/app.py:29 | `dropna` gives a well-formed frame with no missing cell. It keeps the same columns, in the same order, with the same dtypes |
| Filtering.DropNaSpec | scripts/app.py:29 | exactly the complete rows survive, in ascending order. Every column and the row labels drop the same positions |
| Features.Transform | scripts/app.py:35 | `transform('mean')` gives one value per row, equal on rows with the same key |
| Features.GroupMeanWithinGroup | scripts/app.py:35 | a group's mean lies between the least and the greatest value of the group |
| Features.GroupMeansProperties | scripts/app.py:35 | a broadcast group-mean column is `GroupMeanShaped`: numeric, equal within each group, and each value lies between its group's extremes |
| Features.InteractionColumn | scripts/app.py:31 | the product column has the row count of the frame and is named Visits_PageViews_Interaction |
| Features.HighTimeColumn | scripts/app.py:33 | the comparison yields a bool column named High_Time_Spent, one cell per row |
| Features.CountryAvgColumn | scripts/app.py:35-36 | the group-mean column has one cell per row and is named Country_Visits_Avg |
| Features.SourceActivityColumn | scripts/app.py:38 | the concatenation yields a column named Source_Activity, one cell per row |
| Features.AsInt | scripts/app.py:40 | `astype(int)` keeps the name and the cells (0 and 1 stay 0 and 1) and makes the dtype int64, for any row count |
| Features.AddInteraction | scripts/app.py:31 | line 31 keeps the row labels, adds the product column and leaves every other column alone. It fails only with a KeyError or TypeError on TotalVisits or Page_Views_Per_Visit |
| Features.AddHighTime | scripts/app.py:33 | line 33 adds a bool High_Time_Spent and leaves every other column alone. It fails only with a KeyError or TypeError on the time column |
| Features.AddCountryAvg | scripts/app.py:35-36 | lines 35-36 add Country_Visits_Avg and leave every other column alone. They fail only with a KeyError on Country or TotalVisits or a TypeError on TotalVisits |
| Features.AddSourceActivity | scripts/app.py:38 | line 38 adds Source_Activity and leaves every other column alone. It fails only with a KeyError or TypeError on Lead_Source or Last_Activity |
| Features.CastHighTime | scripts/app.py:40 | on the bool High_Time_Spent column that line 33 leaves, the cast succeeds and holds the same cells as int64, and every other column is unchanged |
| Features.DeriveFeatures | scripts/app.py:29-40 | the derived frame is well formed, keeps every input column and carries the labels of the surviving rows |
| Features.StepInteraction | scripts/app.py:31 | line 31 succeeds exactly when both operands exist and are numeric. It keeps the input columns, and the new column is the row-wise product of the surviving values |
| Features.StepHighTime | scripts/app.py:33 | line 33 succeeds exactly when the time column exists and is numeric. The new column is 1 exactly where the time is strictly above 1000, and the product column is kept |
| Features.StepCountryAvg | scripts/app.py:35-36 | lines 35-36 succeed exactly when Country exists. Each row gets the mean TotalVisits of the surviving rows of its Country, and the earlier derived columns are kept |
| Features.StepSourceActivity | scripts/app.py:38 | line 38 succeeds exactly when both operands exist and are strings. Each row gets Lead_Source, "_" and Last_Activity, and the earlier derived columns are kept |
| Features.StepCast | scripts/app.py:40 | line 40 always succeeds after lines 31-38, and the result satisfies the whole specification with High_Time_Spent as int64 |
| Features.DeriveFeaturesSpec | scripts/app.py:29-40 | lines 29-40 raise exactly when an operand column is absent or of the wrong dtype. Otherwise the frame holds the four derived columns as specified and the input columns restricted to the surviving rows |
| Features.DeriveFeaturesRows | scripts/app.py:29-40 | on a valid input the derived frame keeps exactly the surviving rows, under their original labels |
| Features.CountryAvgProperties | scripts/app.py:35-36 | Country_Visits_Avg is `GroupMeanShaped` over the surviving rows: equal on rows of the same Country, and on each row between the least and the greatest surviving TotalVisits of that Country |
| Features.SourceActivityLength | scripts/app.py:38 | each Source_Activity string is as long as its two parts together, plus one |
| Features.HighTimeAtThreshold | scripts/app.py:33-40 | a time of exactly 1000 gives the int 0: the threshold is strict |
| Encoding.LessTotal | scripts/app.py:47 | Python's string order is total, so the levels `get_dummies` sorts have one order |
| Encoding.LessTransitive | scripts/app.py:47 | Python's string order is transitive |
| Encoding.Levels | scripts/app.py:47 | the levels of a column are exactly the strings it holds |
| Encoding.LevelsSorted | scripts/app.py:47 | the levels are in ascending order, without repetition |
| Encoding.Indicator | scripts/app.py:47 | the indicator `<name>_<level>` is a bool column of the row count, 1 exactly on the rows holding that level |
| Encoding.Dummies | scripts/app.py:47 | every indicator of a string column is a bool column of that column's row count |
| Encoding.DummiesSpec | scripts/app.py:47 | a string column with k levels yields k - 1 bool columns `<name>_<level>`, one for each level except the least. Each is 1 exactly on the rows holding that level and 0 elsewhere |
| Encoding.AtMostOneHot | scripts/app.py:47 | in any row, at most one indicator of a field is 1 |
| Encoding.AllZeroForFirstLevel | scripts/app.py:47 | a row's indicators are all 0 exactly when it holds the least level, which is the dropped one |
| Encoding.SingleValueNoColumns | scripts/app.py:47 | a field with a single observed value yields no indicator column |
| Encoding.GetDummies | scripts/app.py:47 | the encoded table is well formed, keeps the row labels and has no string column left |
| Encoding.GetDummiesSpec | scripts/app.py:47 | every encoded column is either a non-string input column passed through unchanged or an indicator of a string input column, and every such column is present |
| Encoding.RemoveAt | scripts/app.py:43 | dropping a column keeps the other names in their order |
| Encoding.DropId | scripts/app.py:42-45 | Prospect_ID is gone afterwards, and every other column and the row labels are untouched, whether or not it was present |
| Encoding.Encode | scripts/app.py:42-47 | the encoded table is well formed and keeps the row labels |
| Encoding.DummiesDistinct | scripts/app.py:47 | the indicators of one column have distinct names |
| Encoding.GetDummiesDistinct | scripts/app.py:47 | when no two columns encode to the same name, the encoded table's names are distinct |
| Encoding.EncodeIgnoresId | scripts/app.py:42-47 | no encoded column comes from Prospect_ID, and frames that differ only in Prospect_ID encode identically |
| Alignment.MatchingUnique | scripts/app.py:53 | with distinct names, selecting a name yields exactly its one column |
| Alignment.MissingNames | scripts/app.py:49 | the missing names are the expected names absent from the encoded frame, each once |
| Alignment.ZeroColumns | scripts/app.py:50 | one int64 zero column per missing name, in the given order |
| Alignment.Select | scripts/app.py:53 | selection succeeds exactly when every expected name is present. It yields only present columns with expected names |
| Alignment.SelectAfterPadding | scripts/app.py:49-53 | for every order of the missing names, padding then selecting gives the reference columns |
| Alignment.Align | scripts/app.py:49-53 | alignment never raises, keeps the row labels and keeps only columns of expected names |
| Alignment.AlignWf | scripts/app.py:49-53 | whatever the names, alignment keeps the table well formed: every column has one cell per row |
| Alignment.AlignSpec | scripts/app.py:49-53 | alignment never raises, its result equals the independent reference, and the order of the set difference is irrelevant |
| Alignment.ReferenceOfDistinct | scripts/app.py:49-53 | with distinct encoded names, the reference has one column per expected name: the encoded column of that name, or zeros |
| Alignment.AlignSchema | scripts/app.py:49-53 | with distinct encoded names, the columns are exactly `expected_columns` in order. The row labels are unchanged, present columns are carried over unchanged and absent ones are int64 zeros in every row |
| Alignment.AlignDrops | scripts/app.py:53 | every aligned column has an expected name and is either an encoded column or a zero column, so unexpected encoded columns are dropped |
| Alignment.DuplicateNameWidens | scripts/app.py:47-53 | a repeated encoded name is selected twice, so the aligned table is wider than `expected_columns` |
| Pipeline.Encoded | scripts/app.py:29-47 | lines 29-47 succeed exactly when the operand columns exist with the right dtypes, and give a well-formed table on the surviving rows' labels |
| Pipeline.Prepared | scripts/app.py:29-53 | lines 29-53 succeed exactly then, on the surviving rows' labels, with only expected names |
| Pipeline.Preprocess | scripts/app.py:17-57 | `preprocess_input` raises whenever a column lines 31-38 need is absent or of the wrong dtype, whatever the scaler does |
| Pipeline.DataFrame.constructor | scripts/app.py:29 | the mutable frame starts as the given value |
| Pipeline.DataFrame.SetItem | scripts/app.py:31-40 | an assignment changes the frame into exactly `Assign` of its old value |
| Pipeline.DeriveInPlace | scripts/app.py:29-40 | the in-place assignments, stopping at the first exception, produce exactly the specified derived frame, or its failure |
| Pipeline.PreprocessInput | scripts/app.py:17-57 | the whole of `preprocess_input` returns exactly the specified result: the scaled aligned encoding, or the first exception |
| Pipeline.PreprocessFails | scripts/app.py:29-55 | preprocessing before the scaler raises exactly when an operand column is missing or of the wrong dtype. The whole raises exactly then or when the scaler raises |
| Pipeline.PreparedRows | scripts/app.py:29-53 | on a valid input, whatever the encoded names, the scaler receives a well-formed table with one row per row that survives `dropna` |
| Pipeline.PreprocessRows | scripts/app.py:29-55 | with a shape-keeping scaler, a successful run has one matrix row per surviving row, whatever the encoded names |
| Pipeline.PreparedSchema | scripts/app.py:29-53 | with distinct encoded names, the scaler receives exactly `expected_columns` in order, on the surviving rows with their original labels |
| Pipeline.PreprocessShape | scripts/app.py:55 | with distinct encoded names and a shape-keeping scaler, the matrix has one row per surviving row and one column per expected name |
| Service.ToFrame | scripts/app.py:70-71 | building the frame succeeds exactly when the six lists have the same length, and then the frame is well formed |
| Service.ToFrameSpec | scripts/app.py:70-71 | the request frame has exactly the six fields in request order, rows labelled 0..n-1, float64 numeric fields and object text fields, and every cell is the request's value (NaN as missing) |
| Service.RowSurvives | scripts/app.py:29 | a request row survives `dropna` exactly when none of its three numeric fields is NaN |
| Service.PositiveColumn | scripts/app.py:79 | `[:, 1]` is the second column, row by row, and raises IndexError when there are fewer than two columns |
| Service.Answer | scripts/app.py:73-83 | a preprocessing failure is exactly a 400 whose detail starts "Error in preprocessing input data: ". A scoring failure (`predict_proba` raising, or fewer than two columns) is exactly a 500 whose detail starts "Error in making predictions: ". Otherwise the predictions are the second column of the probabilities |
| Service.Score | scripts/app.py:79 | scoring succeeds exactly when `predict_proba` succeeds with at least two columns, and then gives its second column, row by row |
| Service.Predict | scripts/app.py:59-83 | the handler ends in an unmapped ValueError exactly when the lists differ in length. Every HTTP error is a 400 with the preprocessing prefix or a 500 with the scoring prefix |
| Service.PredictOutcomes | scripts/app.py:73-83 | for an equal-length request the steps before the scaler cannot fail, and a 400 happens exactly when the scaler raises |
| Service.PredictCount | scripts/app.py:79-83 | with a shape-keeping scaler and classifier, a success holds one prediction per row that survives `dropna`, whatever the encoded names |
| Service.TextFieldsApart | scripts/app.py:47 | indicators of two different text fields never share a name |
| Service.PlainTextApart | scripts/app.py:36-47 | a passed-through column never shares a name with an indicator, except Country_Visits_Avg with the Country level Visits_Avg |
| Service.DerivedFieldKinds | scripts/app.py:29-40 | a frame derived from the six request fields has only the ten known columns, and exactly Country, Lead_Source, Last_Activity and Source_Activity are strings |
| Service.DerivedCountryLevels | scripts/app.py:29 | every Country value after `dropna` was in the input |
| Service.FieldsNoClash | scripts/app.py:47 | without the Country value Visits_Avg, no two columns of such a frame encode to the same name |
| Service.EncodedNamesDistinct | scripts/app.py:29-47 | a frame of the request fields without Visits_Avg as a Country encodes successfully to distinct names |
| Service.RequestEncodedDistinct | scripts/app.py:29-71 | an equal-length request without the Country value Visits_Avg encodes to distinct names |
| Service.KeptIndicator | scripts/app.py:47 | a string column holding Visits_Avg and a smaller level keeps the indicator `<name>_Visits_Avg`, a bool column |
| Service.IndicatorClash | scripts/app.py:36-47 | a float Country_Visits_Avg column and a kept Country level Visits_Avg give two encoded columns of that name |
| Service.SurvivingCountry | scripts/app.py:29 | the Country value of a complete row is still present after `dropna` |
| Service.EncodedNamesClash | scripts/app.py:29-47 | a frame of the request fields with complete rows holding Visits_Avg and a smaller Country encodes to a repeated name |
| Service.RequestEncodedClash | scripts/app.py:29-71 | an equal-length request with complete rows whose Country values are Visits_Avg and something smaller encodes Country_Visits_Avg twice |
| Service.TwoRowRequestClash | scripts/app.py:29-71 | the two-row request with Country values A and Visits_Avg encodes to a repeated name |

## Left out

- Loading the model, the scaler and `expected_columns` with `joblib`
  (scripts/app.py:11-13): file I/O. They are parameters of the model.
- FastAPI routing, JSON serialisation and `uvicorn.run`
  (scripts/app.py:15, 59, 85-86): HTTP plumbing.
- The validation pydantic does for `LeadData` (scripts/models.py): a
  request is modelled as six lists of already-parsed values, each a finite
  number or NaN. NaN is the only missing value.
- Infinite numbers: +Infinity and -Infinity have no counterpart in
  `Float`. In the source `dropna` keeps such a row and the scaler raises
  on it, so the request gets a 400. The model does not capture this case.
- Floating point: cells are Dafny `real`s. Rounding in the product and the
  mean, infinities and `-0.0` are not modelled.
- The scaler and `predict_proba`: foreign sklearn and XGBoost numerics.
  Each is an opaque function that may fail. The lemmas that need shapes
  require that the scaler keeps the row and column counts and the classifier
  keeps the row count.
- Service.Answer: failures are described by their kind and their column,
  not by pandas' or NumPy's exact message text. Only the status and the
  detail prefix are stated.
- Features.CastHighTime: on a column that is not bool the model raises
  TypeError. pandas' `astype(int)` would also accept an int64 column and a
  float64 column without NaN. Line 40 only ever sees the bool column
  line 33 leaves, and `Features.StepCast` proves the cast succeeds there.
- Alignment.Select: on several absent names pandas' KeyError lists all of
  them, while the model reports the first. Alignment never reaches that
  case, because absent names are padded first.
- Features.InteractionColumn: arithmetic, comparison and concatenation on
  a column of the wrong dtype always raise TypeError. pandas works
  element-wise and can succeed on an empty column or on strings that
  happen to concatenate.
- Service.ToFrame: pandas gives an empty batch object dtype, while the
  model gives the float fields Float64 whatever their length.
- Concurrency and parallel requests: the artifacts are read-only, and
  there is nothing to verify.

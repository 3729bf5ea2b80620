# Heart-disease risk: data preparation and heuristic score, in Dafny

This project models the two computational parts of a small heart-disease
prediction application:

* **The training script's data preparation** (`model.py`). It takes two public
  heart-disease tables, UCI "heart" (dataset 1) and "heart failure prediction"
  (dataset 2). From each it selects nine columns and renames them to one common
  schema. In dataset 2 it encodes the string categories (sex, resting ECG,
  exercise angina) as 0/1, and it gives both tables two constant placeholder
  columns (smoking, alcohol). It then concatenates the tables, fills missing
  numeric cells with the column median and missing binary cells with a column
  mode, and splits the result into features `X` and target `y`. It also covers
  the one-row feature frame the prediction function builds.
* **The web form's heuristic risk estimate** (`app.py`). Five threshold tests
  are counted into a score. The score becomes a capped probability and a
  percentage, and one of two verdicts is shown.

Modules:

| file | module | what it holds |
|---|---|---|
| `wrappers.dfy` | `Wrappers` | `Option` and `Result` |
| `stats.dfy` | `Stats` | median (via insertion sort) and mode, the library statistics the imputation uses |
| `frames.dfy` | `Frames` | a data frame as a value and the pandas operations of the script as functions, error paths included |
| `dataframes.dfy` | `DataFrames` | the `DataFrame` class, whose methods change the frame in place and are proved to match the `Frames` functions |
| `training_data.dfy` | `TrainingData` | the script's constants, each preparation step as a function with its properties, the step-by-step in-place pipeline on `DataFrame` objects, and the feature row |
| `heuristic_risk.dfy` | `HeuristicRisk` | the form encoding, score, probability, percentage and verdict |

A cell is `Missing` (NaN), `Num(x)` with `x` a real, or `Text(s)`. The script
reads CSV files in which dataset 2's category columns hold strings, pandas turns
an integer column with a NaN into floats, and the median of an even count can
be a half. A single real-valued cell type covers all three. The operations the
script can raise on are modelled as errors: `KeyError` for a column that is not
there, `LengthMismatch` for a rename with the wrong number of names,
`NonNumeric` for a median over a column holding strings, and `EmptyMode` for
`mode()[0]` of a column without any value.

A category value missing from a code map is not an error: `Series.map` turns
it into NaN, which the mode imputation then fills (`TrainingData.SexEncoding`,
`AnginaEncoding`, `EcgEncoding`).

## Model

| member | source | states |
|---|---|---|
| HeuristicRisk.EncodeAnswer | app.py:218-220 | an answer is 1 exactly when it is the selected one ("Male" for sex, "Yes" for fasting sugar and angina), otherwise 0 |
| HeuristicRisk.Score | app.py:223 | the score counts five risk factors, so it lies between 0 and 5 |
| HeuristicRisk.ThresholdsAreStrict | app.py:223 | age 55, cholesterol 240 and blood pressure 140 add nothing; one more adds exactly one point |
| HeuristicRisk.ScoreIsMonotone | app.py:223-227 | raising a measurement or turning "No" into "Yes" never lowers the score nor turns a high-risk verdict into a low one |
| HeuristicRisk.Probability | app.py:224 | the probability is 0.15 per point, at most 0.75, so the 0.95 cap never applies |
| HeuristicRisk.Percentage | app.py:225 | the percentage is 15 per point, between 0 and 75 |
| HeuristicRisk.Assess | app.py:227-236 | the verdict is high risk exactly when the score is at least 4, and shows the percentage |
| HeuristicRisk.UnusedAnswersAreIgnored | app.py:205-223 | ST depression, vessel count and sex never change the verdict |
| Frames.IndexOf | model.py:82 | a name lookup finds the first position holding the name, and finds nothing exactly when no position holds it |
| Frames.Col | model.py:82 | `df[n]` has one cell per row |
| Frames.ColIsFirstMatch | model.py:82 | `df[n]` is the column at the first position called n |
| Frames.Select | model.py:14-20 | selecting succeeds exactly when every wanted column exists, gives the wanted names in order with each column taken by name, and otherwise raises a KeyError for an absent wanted name |
| Frames.SelectAll | model.py:156-160 | selecting all columns of a frame with distinct names in their own order gives the frame back |
| Frames.Rename | model.py:23-27 | a rename succeeds exactly when the name count matches, keeps the columns in place, and otherwise raises a length mismatch |
| Frames.SetColumn | model.py:30-31 | assigning a column replaces the column of that name or appends a new one, and every other column keeps its values |
| Frames.SetColumnOwnColumn | model.py:87 | writing a column's own values back leaves the frame unchanged |
| Frames.AddConstant | model.py:30-31 | a constant assignment makes the named column hold the constant in every row, appended when new |
| Frames.MapCell | model.py:55-63 | a mapped cell is the code of a string key, and NaN for anything else |
| Frames.MapCells | model.py:55 | mapping a column maps each cell, keeping the length |
| Frames.MapColumn | model.py:55-63 | mapping a column by name succeeds exactly when the column exists and replaces only that column |
| Frames.MapColumnAt | model.py:55-63 | mapping the column at a position changes that column to its codes and no other column |
| Frames.Concat | model.py:74 | concatenation keeps well-formedness, adds the row counts and keeps the column names |
| Frames.ConcatStacksRows | model.py:74 | with the same columns, the rows of the first frame come first and then the rows of the second, in order |
| Frames.ConcatRowOfSecond | model.py:74 | with the same columns, row k of the second frame is row (rows of the first) + k of the concatenation |
| Frames.ConcatColumn | model.py:74 | with the same columns, each concatenated column is the first frame's column followed by the second's |
| Frames.FillMissing | model.py:82 | filling replaces exactly the missing cells by the fill value |
| Frames.NonMissing | model.py:87 | the present cells of a column are exactly its non-missing values, each as often as in the column |
| Frames.Numbers | model.py:82 | the numbers of a column are exactly the values of its numeric cells, each as often as in the column |
| Frames.FirstTextual | model.py:82 | it finds a listed column holding a string exactly when one exists |
| Frames.MedianFilled | model.py:82 | missing cells get the median of the column's numbers and present cells stay; a column without numbers is left as it is |
| Frames.ImputeMedians | model.py:81-82 | median imputation fails exactly on an absent column or one holding a string, fills each listed column from its own median, and leaves the others unchanged |
| Frames.ModeFilled | model.py:87 | no cell stays missing, present cells stay, and every filled cell gets the same present value, one of maximal frequency |
| Frames.ImputeModesSucceeds | model.py:85-87 | column-by-column mode imputation succeeds exactly when every listed column exists and has a value |
| Frames.ImputeModesErrors | model.py:85-87 | a failed mode imputation names an absent listed column or one without any value |
| Frames.ImputeModesKeepsOthers | model.py:85-87 | a successful mode imputation leaves every unlisted column unchanged |
| Frames.ImputeModesFills | model.py:85-87 | each listed column has a value and is filled from its own mode |
| Frames.FillMissingComplete | model.py:82 | filling a column without missing cells changes nothing |
| Frames.ImputeMediansKeepsComplete | model.py:82 | median imputation leaves a complete table unchanged |
| Frames.ModeFilledKeepsComplete | model.py:87 | a non-empty column without missing cells has a mode and is left unchanged |
| Frames.ImputeModesKeepsComplete | model.py:87 | mode imputation leaves a complete non-empty table unchanged |
| Stats.Insert | model.py:82 | insertion into a sorted sequence keeps it sorted |
| Stats.InsertPermutes | model.py:82 | insertion adds the value and loses none |
| Stats.SortAscending | model.py:82 | sorting gives a sorted permutation |
| Stats.SortCounts | model.py:82 | sorting keeps the number of values on each side of any bound |
| Stats.MiddleHasHalfBelow | model.py:82 | at least half of a sorted sequence lies at or below its middle |
| Stats.MiddleHasHalfAbove | model.py:82 | at least half of a sorted sequence lies at or above its middle |
| Stats.Median | model.py:82 | at least half of the values are at most the median and at least half are at least it |
| Stats.MedianIsWithinRange | model.py:82 | some value is at most the median and some value is at least it |
| Stats.Mode | model.py:87 | the mode is one of the values, and no value is more frequent |
| TrainingData.CommonColumnsAreDistinct | model.py:23-27 | the nine common names are distinct |
| TrainingData.TableColumnsAreDistinct | model.py:23-31 | the eleven column names of a prepared table are distinct |
| TrainingData.FeaturesAreDistinct | model.py:93-97 | the ten feature names are distinct |
| TrainingData.PlaceholdersAreNew | model.py:30-31 | smoking and alcohol are new names, so both assignments append a column |
| TrainingData.NumericAndBinaryAreDisjoint | model.py:81-85 | no column is both numeric and binary |
| TrainingData.AddPlaceholders | model.py:30-31 | the renamed table gains two columns, smoking then alcohol, and keeps its rows |
| TrainingData.PlaceholdersAreAssigned | model.py:30-31 | the two constant assignments `df["smoking"] = 0` and `df["alcohol"] = 0` give exactly the table with the placeholders |
| TrainingData.PlaceholdersKeepColumn | model.py:30-31 | the nine common columns keep their places |
| TrainingData.NormalizeUci | model.py:14-31 | a normalised dataset 1 has the eleven table columns and its own row count |
| TrainingData.NormalizeUciSucceeds | model.py:14-20 | normalising dataset 1 fails exactly when one of its nine columns is absent, with a KeyError naming it |
| TrainingData.NormalizeUciUnfolds | model.py:14-31 | normalised dataset 1 is the selection, renamed, with the placeholders |
| TrainingData.NormalizeUciKeeps | model.py:14-27 | the nine dataset 1 columns come over in order under the common names |
| TrainingData.NormalizeUciPlaceholders | model.py:30-31 | both placeholders of dataset 1 are 0 in every row |
| TrainingData.SexEncoding | model.py:55 | "M" becomes 1, "F" becomes 0, and anything else becomes missing |
| TrainingData.AnginaEncoding | model.py:56 | "Y" becomes 1, "N" becomes 0, and anything else becomes missing |
| TrainingData.EcgEncoding | model.py:59-63 | "Normal" becomes 0, "ST" and "LVH" become 1, and anything else becomes missing |
| TrainingData.CategoryPositions | model.py:48-52 | sex, ECG and exercise are common columns 1, 5 and 7 |
| TrainingData.EncodeCategories | model.py:55-63 | encoding keeps the names and the row count |
| TrainingData.EncodeCategoriesByName | model.py:55-63 | the three by-name mappings, sex, exercise then ECG, all succeed on a renamed table and give the encoded table |
| TrainingData.EncodeKeepsColumn | model.py:55-63 | encoding leaves every column other than sex, ECG and exercise as it was |
| TrainingData.EncodesColumn | model.py:55-63 | encoding replaces sex, ECG and exercise by their codes |
| TrainingData.CodesAt | model.py:55-63 | every code of the three maps is 0 or 1 |
| TrainingData.NormalizeHeartFailure | model.py:40-67 | a normalised dataset 2 has the eleven table columns and its own row count |
| TrainingData.NormalizeHeartFailureSucceeds | model.py:40-46 | normalising dataset 2 fails exactly when one of its nine columns is absent, with a KeyError naming it |
| TrainingData.NormalizeHeartFailureUnfolds | model.py:40-67 | normalised dataset 2 is the selection, renamed, encoded, with the placeholders |
| TrainingData.NormalizeHeartFailureKeeps | model.py:40-52 | the unencoded dataset 2 columns come over in order under the common names |
| TrainingData.NormalizeHeartFailureEncodes | model.py:55-63 | sex, RestingECG and ExerciseAngina come over through their code maps |
| TrainingData.NormalizeHeartFailurePlaceholders | model.py:66-67 | both placeholders of dataset 2 are 0 in every row |
| TrainingData.EncodedCellsAreBinary | model.py:55-63 | a column through one of the code maps holds only 0, 1 and missing |
| TrainingData.HeartFailureCategoriesAreBinary | model.py:55-63 | every encoded category cell of dataset 2 is 0, 1 or missing |
| TrainingData.Impute | model.py:81-87 | imputation keeps the names and the row count |
| TrainingData.MediansKeepBinary | model.py:81-87 | median imputation does not touch the binary columns |
| TrainingData.ImputeSucceeds | model.py:81-87 | imputation succeeds exactly when every numeric column exists without strings and every binary column exists with a value |
| TrainingData.ImputeErrors | model.py:81-87 | a failed imputation names an absent column, a numeric column with a string, or a binary column without a value |
| TrainingData.ImputeFillsNumeric | model.py:81-82 | each numeric column is filled from its own median over the merged rows |
| TrainingData.ImputeFillsBinary | model.py:85-87 | each binary column has a value and is filled from its own mode over the merged rows |
| TrainingData.ImputeCompletesColumn | model.py:81-87 | afterwards no binary cell is missing, nor any numeric cell in a column that has a number |
| TrainingData.ImputeKeepsOthers | model.py:81-87 | the target column is unchanged |
| TrainingData.ImputeKeepsPresent | model.py:81-87 | only missing cells change |
| TrainingData.ImputeKeepsComplete | model.py:81-87 | imputing a complete table changes nothing |
| TrainingData.ImputeKeepsCompleteColumn | model.py:81-87 | a column without missing cells is unchanged |
| TrainingData.Merge | model.py:74 | the merge succeeds exactly when both normalisations do, with the table columns and the sum of the row counts |
| TrainingData.MergeUnfolds | model.py:74 | the merge is the concatenation of two tables with the same names |
| TrainingData.MergeKeepsUciRows | model.py:74 | the merged table starts with the rows of dataset 1, in order |
| TrainingData.MergeKeepsHeartFailureRows | model.py:74 | the rows of dataset 2 follow, in order: each row p of the merged table past the rows of dataset 1 is row p - (rows of dataset 1) of normalised dataset 2 |
| TrainingData.MergedColumn | model.py:74 | each merged column is dataset 1's column followed by dataset 2's |
| TrainingData.MergedZeros | model.py:66-74 | a merged placeholder column is dataset 1's zeros followed by dataset 2's |
| TrainingData.MergedPlaceholdersAreZero | model.py:66-74 | both placeholders of the merged table are 0 in every row |
| TrainingData.PrepareTable | model.py:12-87 | a prepared table has the eleven table columns and all the rows of both datasets |
| TrainingData.PrepareTableErrors | model.py:12-87 | preparation fails only with a KeyError for a source column absent from its dataset, a NonNumeric error for a numeric column of the merged table holding a string, or an EmptyMode error for a binary column of the merged table without a value |
| TrainingData.PreparedPlaceholdersAreZero | model.py:30-87 | the placeholders stay 0 in every row through imputation |
| TrainingData.TrainingSet | model.py:93-100 | splitting succeeds exactly when all features and the target exist; X has the feature names and y has one value per row |
| TrainingData.TrainingSetColumn | model.py:93-99 | on a prepared table, feature j is table column j, skipping the target |
| TrainingData.TrainingSetOfTable | model.py:93-99 | on a prepared table, X is every column but the target, in table order |
| TrainingData.TrainingSetTarget | model.py:100 | on a prepared table, y is the target column |
| TrainingData.FeatureFrame | model.py:148-160 | the prediction frame is one row with the ten arguments in feature order |
| TrainingData.FeatureFrameIsInTrainingOrder | model.py:93-99 | selecting the features from the prediction row gives the row itself |
| TrainingData.FeatureDefaultsAreZero | model.py:151 | without smoking and alcohol answers, both features are 0 |
| DataFrames.DataFrame.constructor | model.py:12 | a new frame holds the given table |
| DataFrames.DataFrame.SelectCopy | model.py:14-20 | the copy is a fresh frame holding the selection, or the selection's KeyError |
| DataFrames.DataFrame.SetNames | model.py:23-27 | the frame is renamed in place, or left unchanged with a length mismatch |
| DataFrames.DataFrame.AssignConstant | model.py:30-31 | the frame becomes the constant assignment of its old contents |
| DataFrames.DataFrame.MapValues | model.py:55-63 | the frame becomes the column mapping of its old contents, or stays with a KeyError |
| DataFrames.DataFrame.FillMedians | model.py:82 | the frame becomes the median imputation of its old contents, or stays with its error |
| DataFrames.DataFrame.FillModes | model.py:86-87 | the loop fills the binary columns one by one; the frame ends as the mode imputation of its old contents, or that imputation's error is returned |
| DataFrames.ConcatFrames | model.py:74 | a fresh frame holds the concatenation |
| TrainingData.NormalizeUciFrame | model.py:14-31 | the in-place steps give a fresh frame holding normalised dataset 1, or its error |
| TrainingData.EncodeFrame | model.py:55-63 | the three in-place mappings leave the frame encoded |
| TrainingData.NormalizeHeartFailureFrame | model.py:40-67 | the in-place steps give a fresh frame holding normalised dataset 2, or its error |
| TrainingData.MergeFrames | model.py:74 | the in-place steps give a fresh frame holding the merge, or its error |
| TrainingData.ImputeFrame | model.py:81-87 | the frame is imputed in place exactly as the imputation function says, or its error is returned |
| TrainingData.PrepareTrainingFrame | model.py:12-87 | the in-place pipeline gives a fresh frame holding the prepared table, and fails with the same error exactly when the preparation does |

## Left out

- Reading the CSV files and saving or loading the model file are left out. Both input tables are parameters.
- The train/test split, the random forest, its fitting, prediction and evaluation are left out, and so is `predict_heart_disease`'s probability (`model.py:106-142`, `model.py:162-163`). The classifier is library code. The model covers the one-row frame handed to it.
- The Streamlit page (layout, widgets, styling, the history view) is left out. Only the encoding, score and verdict are modelled. The slider ranges are not used as preconditions, since the score is defined for any input.
- HeuristicRisk.Percentage: the value is exact. `round(…, 2)` and binary floating point of `score * 0.15 * 100` are not modelled, because reals are exact.
- Stats.Mode: the contract states only that the result is a present value of maximal frequency. `mode()[0]` in pandas returns the smallest of tied values. The function returns the first tied value in column order, and this tie-break is not part of any contract.
- Frames.Concat: proved only for two frames with identical column lists, the pipeline's case. With different columns it takes the union of the names, those of the first frame first, and pads with NaN. Nothing is proved about that case.
- Frames.IndexOf: a frame with duplicate column names is resolved to the first occurrence. pandas would return several columns.
- Cell types are not modelled. Integers, floats and the integer-to-float change caused by NaN are all `Num` reals, and the 0 of a placeholder is `Num(0.0)`.
- DataFrames.DataFrame.FillModes: on an error, the columns before the failing one stay filled. The contract states only the returned error, not that partial state. The same holds for TrainingData.ImputeFrame.
- `df[col].fillna(…, inplace=True)` on a column of `df` is modelled as updating `df`. That is pandas' behaviour before copy-on-write, where the chained call writes through. Under copy-on-write it would leave `df` unchanged.
- Dataset 1's `restecg` has values 0 to 2 and is copied unchanged into the binary column `ecg`. The model does not claim that column is binary.
- Aliasing between DataFrame objects is not modelled beyond freshness. Every step that copies in the script returns a fresh object.

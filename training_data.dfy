/**
 * The data preparation of the training script (model.py): two heart-disease
 * tables are cut down to the same nine columns, renamed to one schema,
 * dataset 2's string categories are encoded, two constant placeholder columns
 * are added, the tables are concatenated, and missing cells are filled with
 * the column median (numeric columns) or a column mode (binary columns). The
 * inference side builds one row in the fixed feature order.
 */
module TrainingData {
  import opened Wrappers
  import opened Frames
  import opened DataFrames
  import Stats

  /** The columns taken from dataset 1 (UCI heart disease). */
  const UCI_COLUMNS: seq<string> :=
    ["age", "sex", "trestbps", "chol", "fbs", "restecg", "thalach", "exang", "target"]

  /** The columns taken from dataset 2 (heart failure prediction). */
  const HEART_FAILURE_COLUMNS: seq<string> :=
    ["Age", "Sex", "RestingBP", "Cholesterol", "FastingBS", "RestingECG", "MaxHR", "ExerciseAngina", "HeartDisease"]

  /**
   * The common names both tables are renamed to, position by position. Written
   * as two halves so that the verifier does not evaluate every lookup of a
   * name in it eagerly.
   */
  const COMMON_COLUMNS: seq<string> :=
    ["age", "sex", "bp", "chol", "sugar"] + ["ecg", "heartrate", "exercise", "target"]

  /** The columns of a normalised table: the common names and the two placeholders. */
  const TABLE_COLUMNS: seq<string> := COMMON_COLUMNS + ["smoking"] + ["alcohol"]

  const SEX_CODES: map<string, real> := map["M" := 1.0, "F" := 0.0]
  const ANGINA_CODES: map<string, real> := map["Y" := 1.0, "N" := 0.0]
  const ECG_CODES: map<string, real> := map["Normal" := 0.0, "ST" := 1.0, "LVH" := 1.0]

  const NUMERIC_COLUMNS: seq<string> := ["age", "bp", "chol", "heartrate"]
  const BINARY_COLUMNS: seq<string> := ["sex", "sugar", "ecg", "exercise", "smoking", "alcohol"]

  /** The model's input columns, in the order the classifier was trained on. */
  const FEATURES: seq<string> :=
    ["age", "sex", "bp", "chol", "sugar", "ecg", "heartrate", "exercise", "smoking", "alcohol"]

  lemma CommonColumnsAreDistinct()
    ensures Distinct(COMMON_COLUMNS)
  {
  }

  lemma TableColumnsAreDistinct()
    ensures Distinct(TABLE_COLUMNS)
  {
  }

  lemma FeaturesAreDistinct()
    ensures Distinct(FEATURES)
  {
  }

  /** The placeholder names are new to the common schema. */
  lemma PlaceholdersAreNew()
    ensures "smoking" !in COMMON_COLUMNS && "alcohol" !in COMMON_COLUMNS + ["smoking"]
  {
  }

  lemma BinaryColumnsAreDistinct()
    ensures Distinct(BINARY_COLUMNS)
  {
  }

  lemma NumericAndBinaryAreDisjoint()
    ensures forall n :: n in NUMERIC_COLUMNS ==> n !in BINARY_COLUMNS
  {
  }

  /** A renamed table with two more columns of zeros, smoking then alcohol. */
  function AddPlaceholders(t: Frame): (r: Frame)
    requires WellFormed(t) && t.names == COMMON_COLUMNS
    ensures WellFormed(r) && r.rows == t.rows && r.names == TABLE_COLUMNS
  {
    Frame(TABLE_COLUMNS, t.columns + [Repeat(Num(0.0), t.rows)] + [Repeat(Num(0.0), t.rows)], t.rows)
  }

  /** `df["smoking"] = 0` then `df["alcohol"] = 0` on a renamed table adds the placeholders. */
  lemma PlaceholdersAreAssigned(t: Frame)
    requires WellFormed(t) && t.names == COMMON_COLUMNS
    ensures AddConstant(AddConstant(t, "smoking", 0.0), "alcohol", 0.0) == AddPlaceholders(t)
  {
    PlaceholdersAreNew();
  }

  /** Adding the placeholders keeps the nine common columns in place. */
  lemma PlaceholdersKeepColumn(t: Frame, j: nat)
    requires WellFormed(t) && t.names == COMMON_COLUMNS && j < 9
    ensures AddPlaceholders(t).columns[j] == t.columns[j]
  {
  }

  /** Dataset 1: select, rename, add the two placeholder columns. */
  function NormalizeUci(raw: Frame): (r: Result<Frame, Error>)
    requires WellFormed(raw)
    ensures r.Success? ==> WellFormed(r.value) && r.value.names == TABLE_COLUMNS && r.value.rows == raw.rows
  {
    match Select(raw, UCI_COLUMNS)
    case Failure(e) => Failure(e)
    case Success(picked) =>
      match Rename(picked, COMMON_COLUMNS)
      case Failure(e) => Failure(e)
      case Success(renamed) => Success(AddPlaceholders(renamed))
  }

  /** Normalising dataset 1 fails exactly when one of its nine columns is absent. */
  lemma NormalizeUciSucceeds(raw: Frame)
    requires WellFormed(raw)
    ensures NormalizeUci(raw).Success? <==> forall n :: n in UCI_COLUMNS ==> n in raw.names
    ensures NormalizeUci(raw).Failure? ==>
      NormalizeUci(raw).error.KeyError? && NormalizeUci(raw).error.name in UCI_COLUMNS
      && NormalizeUci(raw).error.name !in raw.names
  {
  }

  /** Dataset 1 normalised, when its nine columns are present, is the renamed selection extended. */
  lemma NormalizeUciUnfolds(raw: Frame)
    requires WellFormed(raw) && NormalizeUci(raw).Success?
    ensures NormalizeUci(raw).value ==
      AddPlaceholders(Frame(COMMON_COLUMNS, Select(raw, UCI_COLUMNS).value.columns, raw.rows))
  {
  }

  /** The nine columns of dataset 1 come over in order under the common names. */
  lemma NormalizeUciKeeps(raw: Frame)
    requires WellFormed(raw) && forall n :: n in UCI_COLUMNS ==> n in raw.names
    ensures NormalizeUci(raw).Success?
    ensures forall j :: 0 <= j < 9 ==> NormalizeUci(raw).value.columns[j] == Col(raw, UCI_COLUMNS[j])
  {
    NormalizeUciUnfolds(raw);
  }

  /** Both placeholder columns of normalised dataset 1 are 0 in every row. */
  lemma NormalizeUciPlaceholders(raw: Frame)
    requires WellFormed(raw) && NormalizeUci(raw).Success?
    ensures NormalizeUci(raw).value.columns[9] == Repeat(Num(0.0), raw.rows)
    ensures NormalizeUci(raw).value.columns[10] == Repeat(Num(0.0), raw.rows)
  {
    NormalizeUciUnfolds(raw);
  }

  /** Dataset 2's encodings: sex "M" is 1 and "F" is 0; anything else becomes missing. */
  lemma SexEncoding(v: Value)
    ensures MapCell(v, SEX_CODES) == Num(1.0) <==> v == Text("M")
    ensures MapCell(v, SEX_CODES) == Num(0.0) <==> v == Text("F")
    ensures MapCell(v, SEX_CODES) == Missing <==> v != Text("M") && v != Text("F")
  {
  }

  /** Exercise angina "Y" is 1 and "N" is 0; anything else becomes missing. */
  lemma AnginaEncoding(v: Value)
    ensures MapCell(v, ANGINA_CODES) == Num(1.0) <==> v == Text("Y")
    ensures MapCell(v, ANGINA_CODES) == Num(0.0) <==> v == Text("N")
    ensures MapCell(v, ANGINA_CODES) == Missing <==> v != Text("Y") && v != Text("N")
  {
  }

  /** Resting ECG "Normal" is 0, "ST" and "LVH" are 1; anything else becomes missing. */
  lemma EcgEncoding(v: Value)
    ensures MapCell(v, ECG_CODES) == Num(0.0) <==> v == Text("Normal")
    ensures MapCell(v, ECG_CODES) == Num(1.0) <==> v == Text("ST") || v == Text("LVH")
    ensures MapCell(v, ECG_CODES) == Missing <==> v != Text("Normal") && v != Text("ST") && v != Text("LVH")
  {
  }

  /** Where the three category columns sit in the common schema. */
  lemma CategoryPositions()
    ensures IndexOf(COMMON_COLUMNS, "sex") == Some(1)
    ensures IndexOf(COMMON_COLUMNS, "exercise") == Some(7)
    ensures IndexOf(COMMON_COLUMNS, "ecg") == Some(5)
  {
    CommonColumnsAreDistinct();
    IndexOfDistinct(COMMON_COLUMNS, 1);
    IndexOfDistinct(COMMON_COLUMNS, 7);
    IndexOfDistinct(COMMON_COLUMNS, 5);
  }

  /**
   * Dataset 2's category columns through their code maps, by position in the
   * common schema: sex (1), angina (7), then ECG (5).
   */
  function EncodeCategories(t: Frame): (r: Frame)
    requires WellFormed(t) && t.names == COMMON_COLUMNS
    ensures WellFormed(r) && r.names == COMMON_COLUMNS && r.rows == t.rows
  {
    var c := t.columns;
    Frame(COMMON_COLUMNS, c[1 := MapCells(c[1], SEX_CODES)][7 := MapCells(c[7], ANGINA_CODES)][5 := MapCells(c[5], ECG_CODES)], t.rows)
  }

  /** The three `map` reassignments by name, in the script's order, encode the categories. */
  lemma EncodeCategoriesByName(t: Frame)
    requires WellFormed(t) && t.names == COMMON_COLUMNS
    ensures MapColumn(t, "sex", SEX_CODES).Success?
    ensures MapColumn(MapColumn(t, "sex", SEX_CODES).value, "exercise", ANGINA_CODES).Success?
    ensures MapColumn(MapColumn(MapColumn(t, "sex", SEX_CODES).value, "exercise", ANGINA_CODES).value, "ecg", ECG_CODES)
      == Success(EncodeCategories(t))
  {
    CategoryPositions();
    var sexed := MapColumn(t, "sex", SEX_CODES).value;
    var exercised := MapColumn(sexed, "exercise", ANGINA_CODES).value;
    var encoded := MapColumn(exercised, "ecg", ECG_CODES).value;
    forall j | 0 <= j < 9
      ensures encoded.columns[j] == EncodeCategories(t).columns[j]
    {
      MapColumnAt(t, "sex", SEX_CODES, 1, j);
      MapColumnAt(sexed, "exercise", ANGINA_CODES, 7, j);
      MapColumnAt(exercised, "ecg", ECG_CODES, 5, j);
    }
  }

  /** Dataset 2: select, rename, encode the categories, add the two placeholder columns. */
  function NormalizeHeartFailure(raw: Frame): (r: Result<Frame, Error>)
    requires WellFormed(raw)
    ensures r.Success? ==> WellFormed(r.value) && r.value.names == TABLE_COLUMNS && r.value.rows == raw.rows
  {
    match Select(raw, HEART_FAILURE_COLUMNS)
    case Failure(e) => Failure(e)
    case Success(picked) =>
      match Rename(picked, COMMON_COLUMNS)
      case Failure(e) => Failure(e)
      case Success(renamed) => Success(AddPlaceholders(EncodeCategories(renamed)))
  }

  /** Normalising dataset 2 fails exactly when one of its nine columns is absent. */
  lemma NormalizeHeartFailureSucceeds(raw: Frame)
    requires WellFormed(raw)
    ensures NormalizeHeartFailure(raw).Success? <==> forall n :: n in HEART_FAILURE_COLUMNS ==> n in raw.names
    ensures NormalizeHeartFailure(raw).Failure? ==>
      NormalizeHeartFailure(raw).error.KeyError? && NormalizeHeartFailure(raw).error.name in HEART_FAILURE_COLUMNS
      && NormalizeHeartFailure(raw).error.name !in raw.names
  {
  }

  /** Encoding leaves the columns other than sex, ECG and angina as they were. */
  lemma EncodeKeepsColumn(t: Frame, j: nat)
    requires WellFormed(t) && t.names == COMMON_COLUMNS && j < 9 && j != 1 && j != 5 && j != 7
    ensures EncodeCategories(t).columns[j] == t.columns[j]
  {
  }

  /** Dataset 2 normalised, when its nine columns are present, is the renamed selection encoded and extended. */
  lemma NormalizeHeartFailureUnfolds(raw: Frame)
    requires WellFormed(raw) && NormalizeHeartFailure(raw).Success?
    ensures NormalizeHeartFailure(raw).value ==
      AddPlaceholders(EncodeCategories(Frame(COMMON_COLUMNS, Select(raw, HEART_FAILURE_COLUMNS).value.columns, raw.rows)))
  {
  }

  /** The code map of an encoded column of the common schema: sex (1), ECG (5) or angina (7). */
  function CodesAt(j: nat): (codes: map<string, real>)
    requires j == 1 || j == 5 || j == 7
    ensures forall key :: key in codes ==> codes[key] == 0.0 || codes[key] == 1.0
  {
    if j == 1 then SEX_CODES else if j == 5 then ECG_CODES else ANGINA_CODES
  }

  /** Encoding replaces the sex (1), ECG (5) and angina (7) columns by their codes. */
  lemma EncodesColumn(t: Frame, j: nat)
    requires WellFormed(t) && t.names == COMMON_COLUMNS && (j == 1 || j == 5 || j == 7)
    ensures EncodeCategories(t).columns[j] == MapCells(t.columns[j], CodesAt(j))
  {
  }

  /**
   * When dataset 2 has its nine columns, each column other than sex, ECG and
   * angina comes over in its place under the common name.
   */
  lemma NormalizeHeartFailureKeeps(raw: Frame, j: nat)
    requires WellFormed(raw) && forall n :: n in HEART_FAILURE_COLUMNS ==> n in raw.names
    requires j < 9 && j != 1 && j != 5 && j != 7
    ensures NormalizeHeartFailure(raw).Success?
    ensures NormalizeHeartFailure(raw).value.columns[j] == Col(raw, HEART_FAILURE_COLUMNS[j])
  {
    NormalizeHeartFailureUnfolds(raw);
    var renamed := Frame(COMMON_COLUMNS, Select(raw, HEART_FAILURE_COLUMNS).value.columns, raw.rows);
    PlaceholdersKeepColumn(EncodeCategories(renamed), j);
    EncodeKeepsColumn(renamed, j);
  }

  /**
   * When dataset 2 has its nine columns, sex ("Sex", 1), ECG ("RestingECG", 5)
   * and angina ("ExerciseAngina", 7) come over through their code maps.
   */
  lemma NormalizeHeartFailureEncodes(raw: Frame, j: nat)
    requires WellFormed(raw) && forall n :: n in HEART_FAILURE_COLUMNS ==> n in raw.names
    requires j == 1 || j == 5 || j == 7
    ensures NormalizeHeartFailure(raw).Success?
    ensures NormalizeHeartFailure(raw).value.columns[j] == MapCells(Col(raw, HEART_FAILURE_COLUMNS[j]), CodesAt(j))
  {
    var selected := Select(raw, HEART_FAILURE_COLUMNS).value;
    var renamed := Frame(COMMON_COLUMNS, selected.columns, raw.rows);
    assert renamed.columns[j] == Col(raw, HEART_FAILURE_COLUMNS[j]);
    NormalizeHeartFailureUnfolds(raw);
    EncodesColumn(renamed, j);
    PlaceholdersKeepColumn(EncodeCategories(renamed), j);
  }

  /** Both placeholder columns of normalised dataset 2 are 0 in every row. */
  lemma NormalizeHeartFailurePlaceholders(raw: Frame)
    requires WellFormed(raw) && NormalizeHeartFailure(raw).Success?
    ensures NormalizeHeartFailure(raw).value.columns[9] == Repeat(Num(0.0), raw.rows)
    ensures NormalizeHeartFailure(raw).value.columns[10] == Repeat(Num(0.0), raw.rows)
  {
    NormalizeHeartFailureUnfolds(raw);
  }

  /** Every cell of the column is 0, 1 or missing. */
  ghost predicate Binary(col: Column) {
    forall k :: 0 <= k < |col| ==> col[k] == Missing || col[k] == Num(0.0) || col[k] == Num(1.0)
  }

  /** A column through one of the three code maps holds only 0, 1 and missing cells. */
  lemma EncodedCellsAreBinary(col: Column, j: nat)
    requires j == 1 || j == 5 || j == 7
    ensures Binary(MapCells(col, CodesAt(j)))
  {
    var codes := CodesAt(j);
    forall k | 0 <= k < |col|
      ensures MapCells(col, codes)[k] == Missing || MapCells(col, codes)[k] == Num(0.0) || MapCells(col, codes)[k] == Num(1.0)
    {
      assert MapCells(col, codes)[k] == MapCell(col[k], codes);
    }
  }

  /** Every encoded category of dataset 2 is 0, 1 or missing. */
  lemma HeartFailureCategoriesAreBinary(raw: Frame, j: nat)
    requires WellFormed(raw) && forall n :: n in HEART_FAILURE_COLUMNS ==> n in raw.names
    requires j == 1 || j == 5 || j == 7
    ensures NormalizeHeartFailure(raw).Success?
    ensures Binary(NormalizeHeartFailure(raw).value.columns[j])
  {
    NormalizeHeartFailureEncodes(raw, j);
    EncodedCellsAreBinary(Col(raw, HEART_FAILURE_COLUMNS[j]), j);
  }

  /**
   * The imputation of the merged table: every numeric column filled with its
   * median, then every binary column, one after the other, with its mode.
   */
  function Impute(t: Frame): (r: Result<Frame, Error>)
    requires WellFormed(t)
    ensures r.Success? ==> WellFormed(r.value) && r.value.names == t.names && r.value.rows == t.rows
  {
    match ImputeMedians(t, NUMERIC_COLUMNS)
    case Failure(e) => Failure(e)
    case Success(m) => ImputeModes(m, BINARY_COLUMNS)
  }

  /** Median imputation leaves the binary columns as they were. */
  lemma MediansKeepBinary(t: Frame)
    requires WellFormed(t) && ImputeMedians(t, NUMERIC_COLUMNS).Success?
    ensures forall n :: n in BINARY_COLUMNS && n in t.names ==>
      Col(ImputeMedians(t, NUMERIC_COLUMNS).value, n) == Col(t, n)
  {
    NumericAndBinaryAreDisjoint();
    var m := ImputeMedians(t, NUMERIC_COLUMNS).value;
    forall n | n in BINARY_COLUMNS && n in t.names
      ensures Col(m, n) == Col(t, n)
    {
      var i := IndexOf(t.names, n).value;
      assert t.names[i] !in NUMERIC_COLUMNS;
    }
  }

  /**
   * Imputation succeeds exactly when every numeric column exists and holds no
   * string and every binary column exists and has a value.
   */
  lemma ImputeSucceeds(t: Frame)
    requires WellFormed(t) && Distinct(t.names)
    ensures Impute(t).Success? <==>
      && (forall n :: n in NUMERIC_COLUMNS ==> n in t.names && !HasText(Col(t, n)))
      && (forall n :: n in BINARY_COLUMNS ==> n in t.names && NonMissing(Col(t, n)) != [])
  {
    if ImputeMedians(t, NUMERIC_COLUMNS).Success? {
      MediansKeepBinary(t);
      BinaryColumnsAreDistinct();
      ImputeModesSucceeds(ImputeMedians(t, NUMERIC_COLUMNS).value, BINARY_COLUMNS);
    }
  }

  /**
   * A failed imputation names the column at fault: an absent listed column, a
   * numeric column holding a string, or a binary column without any value.
   */
  lemma ImputeErrors(t: Frame)
    requires WellFormed(t) && Distinct(t.names) && Impute(t).Failure?
    ensures var e := Impute(t).error;
      || (e.KeyError? && (e.name in NUMERIC_COLUMNS || e.name in BINARY_COLUMNS) && e.name !in t.names)
      || (e.NonNumeric? && e.name in NUMERIC_COLUMNS && e.name in t.names && HasText(Col(t, e.name)))
      || (e.EmptyMode? && e.name in BINARY_COLUMNS && e.name in t.names && NonMissing(Col(t, e.name)) == [])
  {
    if ImputeMedians(t, NUMERIC_COLUMNS).Success? {
      MediansKeepBinary(t);
      BinaryColumnsAreDistinct();
      ImputeModesErrors(ImputeMedians(t, NUMERIC_COLUMNS).value, BINARY_COLUMNS);
    }
  }

  /** Each numeric column is filled from its own median over the merged rows. */
  lemma ImputeFillsNumeric(t: Frame)
    requires WellFormed(t) && Distinct(t.names) && Impute(t).Success?
    ensures forall i :: 0 <= i < |t.names| && t.names[i] in NUMERIC_COLUMNS ==>
      Impute(t).value.columns[i] == MedianFilled(t.columns[i])
  {
    NumericAndBinaryAreDisjoint();
    BinaryColumnsAreDistinct();
    var m := ImputeMedians(t, NUMERIC_COLUMNS).value;
    ImputeModesKeepsOthers(m, BINARY_COLUMNS);
  }

  /** Each binary column has a value and is filled from its own mode. */
  lemma ImputeFillsBinary(t: Frame)
    requires WellFormed(t) && Distinct(t.names) && Impute(t).Success?
    ensures forall i :: 0 <= i < |t.names| && t.names[i] in BINARY_COLUMNS ==>
      NonMissing(t.columns[i]) != [] && Impute(t).value.columns[i] == ModeFilled(t.columns[i])
  {
    NumericAndBinaryAreDisjoint();
    BinaryColumnsAreDistinct();
    var m := ImputeMedians(t, NUMERIC_COLUMNS).value;
    ImputeModesFills(m, BINARY_COLUMNS);
  }

  /**
   * After a successful imputation no binary cell is missing, and no numeric
   * cell is missing in a column that has a number.
   */
  lemma ImputeCompletesColumn(t: Frame, i: nat)
    requires WellFormed(t) && Distinct(t.names) && Impute(t).Success? && i < |t.names|
    requires t.names[i] in BINARY_COLUMNS || (t.names[i] in NUMERIC_COLUMNS && Numbers(t.columns[i]) != [])
    ensures forall k :: 0 <= k < t.rows ==> !Impute(t).value.columns[i][k].Missing?
  {
    if t.names[i] in BINARY_COLUMNS {
      ImputeFillsBinary(t);
    } else {
      ImputeFillsNumeric(t);
    }
  }

  /** The columns imputation does not list (the target) stay as they were. */
  lemma ImputeKeepsOthers(t: Frame, i: nat)
    requires WellFormed(t) && Distinct(t.names) && Impute(t).Success? && i < |t.names|
    requires t.names[i] !in NUMERIC_COLUMNS && t.names[i] !in BINARY_COLUMNS
    ensures Impute(t).value.columns[i] == t.columns[i]
  {
    BinaryColumnsAreDistinct();
    var m := ImputeMedians(t, NUMERIC_COLUMNS).value;
    ImputeModesKeepsOthers(m, BINARY_COLUMNS);
  }

  /** Imputation only fills missing cells: every present cell keeps its value. */
  lemma ImputeKeepsPresent(t: Frame, i: nat)
    requires WellFormed(t) && Distinct(t.names) && Impute(t).Success? && i < |t.names|
    ensures forall k :: 0 <= k < t.rows && t.columns[i][k] != Missing ==>
      Impute(t).value.columns[i][k] == t.columns[i][k]
  {
    if t.names[i] in BINARY_COLUMNS {
      ImputeFillsBinary(t);
    } else if t.names[i] in NUMERIC_COLUMNS {
      ImputeFillsNumeric(t);
    } else {
      ImputeKeepsOthers(t, i);
    }
  }

  /**
   * Imputing a non-empty table whose listed columns have no missing cell (and
   * whose numeric columns hold no string) changes nothing.
   */
  lemma ImputeKeepsComplete(t: Frame)
    requires WellFormed(t) && t.rows > 0
    requires forall n :: n in NUMERIC_COLUMNS ==> n in t.names && !HasText(Col(t, n))
    requires forall n :: n in BINARY_COLUMNS ==> n in t.names
    requires forall i, k :: 0 <= i < |t.names| && 0 <= k < t.rows ==> !t.columns[i][k].Missing?
    ensures Impute(t) == Success(t)
  {
    ImputeMediansKeepsComplete(t, NUMERIC_COLUMNS);
    forall n | n in BINARY_COLUMNS
      ensures forall k :: 0 <= k < t.rows ==> !Col(t, n)[k].Missing?
    {
    }
    ImputeModesKeepsComplete(t, BINARY_COLUMNS);
  }

  /**
   * `pd.concat([df1, df2], ignore_index=True)` of the two normalised tables:
   * fails exactly when one of them does.
   */
  function Merge(uci: Frame, heartFailure: Frame): (r: Result<Frame, Error>)
    requires WellFormed(uci) && WellFormed(heartFailure)
    ensures r.Success? <==> NormalizeUci(uci).Success? && NormalizeHeartFailure(heartFailure).Success?
    ensures r.Success? ==>
      WellFormed(r.value) && r.value.names == TABLE_COLUMNS && r.value.rows == uci.rows + heartFailure.rows
  {
    match NormalizeUci(uci)
    case Failure(e) => Failure(e)
    case Success(t1) =>
      match NormalizeHeartFailure(heartFailure)
      case Failure(e) => Failure(e)
      case Success(t2) => Success(Concat(t1, t2))
  }

  /** A successful merge is the concatenation of the two normalised tables, which share their names. */
  lemma MergeUnfolds(uci: Frame, heartFailure: Frame)
    requires WellFormed(uci) && WellFormed(heartFailure) && Merge(uci, heartFailure).Success?
    ensures NormalizeUci(uci).Success? && NormalizeHeartFailure(heartFailure).Success?
    ensures NormalizeUci(uci).value.names == NormalizeHeartFailure(heartFailure).value.names
    ensures Merge(uci, heartFailure).value == Concat(NormalizeUci(uci).value, NormalizeHeartFailure(heartFailure).value)
  {
  }

  /** The merged table starts with the rows of dataset 1, in their order. */
  lemma MergeKeepsUciRows(uci: Frame, heartFailure: Frame)
    requires WellFormed(uci) && WellFormed(heartFailure) && Merge(uci, heartFailure).Success?
    ensures forall k :: 0 <= k < uci.rows ==>
      Row(Merge(uci, heartFailure).value, k) == Row(NormalizeUci(uci).value, k)
  {
    MergeUnfolds(uci, heartFailure);
    ConcatStacksRows(NormalizeUci(uci).value, NormalizeHeartFailure(heartFailure).value);
  }

  /** After the rows of dataset 1 come the rows of dataset 2, in their order: row `p` of the merged table is row `p - uci.rows` of dataset 2. */
  lemma MergeKeepsHeartFailureRows(uci: Frame, heartFailure: Frame, merged: Frame, normalized: Frame, p: nat)
    requires WellFormed(uci) && WellFormed(heartFailure)
    requires Merge(uci, heartFailure) == Success(merged) && NormalizeHeartFailure(heartFailure) == Success(normalized)
    requires uci.rows <= p < merged.rows
    ensures Row(merged, p) == Row(normalized, p - uci.rows)
  {
    MergeUnfolds(uci, heartFailure);
    ConcatRowOfSecond(merged, NormalizeUci(uci).value, normalized, p, p - uci.rows);
  }

  /** Each column of the merged table is that column of dataset 1 followed by that column of dataset 2. */
  lemma MergedColumn(uci: Frame, heartFailure: Frame, i: nat)
    requires WellFormed(uci) && WellFormed(heartFailure) && Merge(uci, heartFailure).Success? && i < 11
    ensures Merge(uci, heartFailure).value.columns[i] ==
      NormalizeUci(uci).value.columns[i] + NormalizeHeartFailure(heartFailure).value.columns[i]
  {
    MergeUnfolds(uci, heartFailure);
    ConcatColumn(NormalizeUci(uci).value, NormalizeHeartFailure(heartFailure).value, i);
  }

  /** A merged placeholder column is the zeros of dataset 1 followed by the zeros of dataset 2. */
  lemma MergedZeros(uci: Frame, heartFailure: Frame, i: nat)
    requires WellFormed(uci) && WellFormed(heartFailure) && Merge(uci, heartFailure).Success? && (i == 9 || i == 10)
    ensures Merge(uci, heartFailure).value.columns[i] == Repeat(Num(0.0), uci.rows) + Repeat(Num(0.0), heartFailure.rows)
  {
    MergedColumn(uci, heartFailure, i);
    NormalizeUciPlaceholders(uci);
    NormalizeHeartFailurePlaceholders(heartFailure);
  }

  /** Both placeholder columns of the merged table are 0 in every row. */
  lemma MergedPlaceholdersAreZero(uci: Frame, heartFailure: Frame, i: nat)
    requires WellFormed(uci) && WellFormed(heartFailure) && Merge(uci, heartFailure).Success?
    requires i == 9 || i == 10
    ensures Merge(uci, heartFailure).value.columns[i] == Repeat(Num(0.0), Merge(uci, heartFailure).value.rows)
  {
    MergedZeros(uci, heartFailure, i);
    RepeatConcat(Num(0.0), uci.rows, heartFailure.rows);
  }

  /** The whole preparation: normalise both datasets, merge them, impute. */
  function PrepareTable(uci: Frame, heartFailure: Frame): (r: Result<Frame, Error>)
    requires WellFormed(uci) && WellFormed(heartFailure)
    ensures r.Success? ==>
      WellFormed(r.value) && r.value.names == TABLE_COLUMNS && r.value.rows == uci.rows + heartFailure.rows
  {
    match Merge(uci, heartFailure)
    case Failure(e) => Failure(e)
    case Success(merged) => Impute(merged)
  }

  /**
   * The preparation fails only for a selected column that a dataset lacks, a
   * numeric column of the merged table holding a string, or a binary column
   * of the merged table without any value.
   */
  lemma PrepareTableErrors(uci: Frame, heartFailure: Frame)
    requires WellFormed(uci) && WellFormed(heartFailure) && PrepareTable(uci, heartFailure).Failure?
    ensures var e := PrepareTable(uci, heartFailure).error;
      || (e.KeyError? && e.name in UCI_COLUMNS && e.name !in uci.names)
      || (e.KeyError? && e.name in HEART_FAILURE_COLUMNS && e.name !in heartFailure.names)
      || (e.NonNumeric? && e.name in NUMERIC_COLUMNS && Merge(uci, heartFailure).Success? &&
          e.name in Merge(uci, heartFailure).value.names && HasText(Col(Merge(uci, heartFailure).value, e.name)))
      || (e.EmptyMode? && e.name in BINARY_COLUMNS && Merge(uci, heartFailure).Success? &&
          e.name in Merge(uci, heartFailure).value.names && NonMissing(Col(Merge(uci, heartFailure).value, e.name)) == [])
  {
    NormalizeUciSucceeds(uci);
    NormalizeHeartFailureSucceeds(heartFailure);
    if Merge(uci, heartFailure).Success? {
      var merged := Merge(uci, heartFailure).value;
      TableColumnsAreDistinct();
      ImputeErrors(merged);
      assert forall n :: n in NUMERIC_COLUMNS || n in BINARY_COLUMNS ==> n in merged.names;
    }
  }

  /** Imputation leaves a column without missing cells as it is. */
  lemma ImputeKeepsCompleteColumn(t: Frame, i: nat)
    requires WellFormed(t) && Distinct(t.names) && Impute(t).Success? && i < |t.names|
    requires forall k :: 0 <= k < t.rows ==> !t.columns[i][k].Missing?
    ensures Impute(t).value.columns[i] == t.columns[i]
  {
    ImputeKeepsPresent(t, i);
  }

  /** The placeholders stay 0 through the imputation: the prepared table has them 0 in every row. */
  lemma PreparedPlaceholdersAreZero(uci: Frame, heartFailure: Frame, i: nat)
    requires WellFormed(uci) && WellFormed(heartFailure) && PrepareTable(uci, heartFailure).Success?
    requires i == 9 || i == 10
    ensures PrepareTable(uci, heartFailure).value.columns[i] == Repeat(Num(0.0), PrepareTable(uci, heartFailure).value.rows)
  {
    var merged := Merge(uci, heartFailure).value;
    MergedPlaceholdersAreZero(uci, heartFailure, i);
    TableColumnsAreDistinct();
    ImputeKeepsCompleteColumn(merged, i);
  }

  /** `X = df[FEATURES]` and `y = df["target"]`. */
  function TrainingSet(df: Frame): (r: Result<(Frame, Column), Error>)
    requires WellFormed(df)
    ensures r.Success? <==> (forall n :: n in FEATURES ==> n in df.names) && "target" in df.names
    ensures r.Success? ==>
      WellFormed(r.value.0) && r.value.0.names == FEATURES && r.value.0.rows == df.rows && |r.value.1| == df.rows
    ensures r.Failure? ==>
      r.error.KeyError? && (r.error.name in FEATURES || r.error.name == "target") && r.error.name !in df.names
  {
    match Select(df, FEATURES)
    case Failure(e) => Failure(e)
    case Success(x) =>
      if "target" in df.names then Success((x, Col(df, "target"))) else Failure(KeyError("target"))
  }

  /** On a prepared table, feature `j` of `X` is column `j` of the table, skipping the target. */
  lemma TrainingSetColumn(df: Frame, j: nat)
    requires WellFormed(df) && df.names == TABLE_COLUMNS && j < 10
    ensures TrainingSet(df).Success?
    ensures TrainingSet(df).value.0.columns[j] == df.columns[if j < 8 then j else j + 1]
  {
    TableColumnsAreDistinct();
    var i := if j < 8 then j else j + 1;
    assert TABLE_COLUMNS[i] == FEATURES[j];
    IndexOfDistinct(TABLE_COLUMNS, i);
  }

  /** On a prepared table, `X` is every column but the target, in table order. */
  lemma TrainingSetOfTable(df: Frame)
    requires WellFormed(df) && df.names == TABLE_COLUMNS
    ensures TrainingSet(df).Success?
    ensures TrainingSet(df).value.0.columns == df.columns[..8] + df.columns[9..]
  {
    TrainingSetColumn(df, 0);
    forall j | 0 <= j < 10
      ensures TrainingSet(df).value.0.columns[j] == (df.columns[..8] + df.columns[9..])[j]
    {
      TrainingSetColumn(df, j);
    }
  }

  /** On a prepared table, `y` is the target column. */
  lemma TrainingSetTarget(df: Frame)
    requires WellFormed(df) && df.names == TABLE_COLUMNS
    ensures TrainingSet(df).Success?
    ensures TrainingSet(df).value.1 == df.columns[8]
  {
    TrainingSetColumn(df, 0);
    TableColumnsAreDistinct();
    IndexOfDistinct(TABLE_COLUMNS, 8);
  }


  /**
   * The one-row frame `predict_heart_disease` hands to the model: the ten
   * arguments in feature order, smoking and alcohol 0 unless given.
   */
  function FeatureFrame(age: real, sex: real, bp: real, chol: real, sugar: real, ecg: real,
                        heartrate: real, exercise: real, smoking: real := 0.0, alcohol: real := 0.0): (r: Frame)
    ensures WellFormed(r) && r.names == FEATURES && r.rows == 1
    ensures Row(r, 0) == [Num(age), Num(sex), Num(bp), Num(chol), Num(sugar), Num(ecg),
                          Num(heartrate), Num(exercise), Num(smoking), Num(alcohol)]
  {
    Frame(FEATURES, [[Num(age)], [Num(sex)], [Num(bp)], [Num(chol)], [Num(sugar)], [Num(ecg)],
                     [Num(heartrate)], [Num(exercise)], [Num(smoking)], [Num(alcohol)]], 1)
  }

  /**
   * The feature row has the training columns in the training order:
   * `data[FEATURES]` is the row itself.
   */
  lemma FeatureFrameIsInTrainingOrder(age: real, sex: real, bp: real, chol: real, sugar: real,
                                      ecg: real, heartrate: real, exercise: real, smoking: real, alcohol: real)
    ensures var row := FeatureFrame(age, sex, bp, chol, sugar, ecg, heartrate, exercise, smoking, alcohol);
      Select(row, FEATURES) == Success(row)
  {
    FeaturesAreDistinct();
    SelectAll(FeatureFrame(age, sex, bp, chol, sugar, ecg, heartrate, exercise, smoking, alcohol));
  }

  /** Without smoking and alcohol answers, both are 0 in the feature row. */
  lemma FeatureDefaultsAreZero(age: real, sex: real, bp: real, chol: real, sugar: real,
                               ecg: real, heartrate: real, exercise: real)
    ensures Row(FeatureFrame(age, sex, bp, chol, sugar, ecg, heartrate, exercise), 0)[8..] == [Num(0.0), Num(0.0)]
  {
  }

  /** `df1` of the script: the selection copied, renamed in place, and given the two placeholders. */
  method NormalizeUciFrame(raw: DataFrame) returns (r: Result<DataFrame, Error>)
    requires raw.Valid()
    ensures r.Success? <==> NormalizeUci(raw.Table()).Success?
    ensures r.Success? ==> fresh(r.value) && r.value.Valid() && r.value.Table() == NormalizeUci(raw.Table()).value
    ensures r.Failure? ==> r.error == NormalizeUci(raw.Table()).error
  {
    var picked := raw.SelectCopy(UCI_COLUMNS);
    if picked.Failure? {
      return Failure(picked.error);
    }
    var df1 := picked.value;
    var err := df1.SetNames(COMMON_COLUMNS);
    assert err.None?;  // nine names for nine columns
    ghost var renamed := df1.Table();
    df1.AssignConstant("smoking", 0.0);
    df1.AssignConstant("alcohol", 0.0);
    PlaceholdersAreAssigned(renamed);
    return Success(df1);
  }

  /** The three `map` reassignments of dataset 2, in place, in the script's order. */
  method EncodeFrame(df: DataFrame)
    requires df.Valid() && df.names == COMMON_COLUMNS
    modifies df
    ensures df.Valid() && df.Table() == EncodeCategories(old(df.Table()))
  {
    EncodeCategoriesByName(df.Table());
    var err := df.MapValues("sex", SEX_CODES);
    assert err.None?;
    err := df.MapValues("exercise", ANGINA_CODES);
    assert err.None?;
    err := df.MapValues("ecg", ECG_CODES);
    assert err.None?;
  }

  /** Median then mode imputation, in place; on an error the frame may be partly filled. */
  method ImputeFrame(df: DataFrame) returns (err: Option<Error>)
    requires df.Valid()
    modifies df
    ensures df.Valid()
    ensures err.None? <==> Impute(old(df.Table())).Success?
    ensures err.None? ==> df.Table() == Impute(old(df.Table())).value
    ensures err.Some? ==> err.value == Impute(old(df.Table())).error
  {
    err := df.FillMedians(NUMERIC_COLUMNS);
    if err.Some? {
      return;
    }
    err := df.FillModes(BINARY_COLUMNS);
  }

  /**
   * `df2` of the script: the selection copied, renamed, its three category
   * columns mapped in place, and given the two placeholders.
   */
  method NormalizeHeartFailureFrame(raw: DataFrame) returns (r: Result<DataFrame, Error>)
    requires raw.Valid()
    ensures r.Success? <==> NormalizeHeartFailure(raw.Table()).Success?
    ensures r.Success? ==> fresh(r.value) && r.value.Valid() && r.value.Table() == NormalizeHeartFailure(raw.Table()).value
    ensures r.Failure? ==> r.error == NormalizeHeartFailure(raw.Table()).error
  {
    var picked := raw.SelectCopy(HEART_FAILURE_COLUMNS);
    if picked.Failure? {
      return Failure(picked.error);
    }
    var df2 := picked.value;
    var err := df2.SetNames(COMMON_COLUMNS);
    assert err.None?;  // nine names for nine columns
    EncodeFrame(df2);
    ghost var renamed := df2.Table();
    df2.AssignConstant("smoking", 0.0);
    df2.AssignConstant("alcohol", 0.0);
    PlaceholdersAreAssigned(renamed);
    return Success(df2);
  }

  /** `df = pd.concat([df1, df2], ignore_index=True)` after both normalisations. */
  method MergeFrames(uci: DataFrame, heartFailure: DataFrame) returns (r: Result<DataFrame, Error>)
    requires uci.Valid() && heartFailure.Valid()
    ensures r.Success? <==> Merge(uci.Table(), heartFailure.Table()).Success?
    ensures r.Success? ==>
      fresh(r.value) && r.value.Valid() && r.value.Table() == Merge(uci.Table(), heartFailure.Table()).value
    ensures r.Failure? ==> r.error == Merge(uci.Table(), heartFailure.Table()).error
  {
    var df1 := NormalizeUciFrame(uci);
    if df1.Failure? {
      return Failure(df1.error);
    }
    var df2 := NormalizeHeartFailureFrame(heartFailure);
    if df2.Failure? {
      return Failure(df2.error);
    }
    var df := ConcatFrames(df1.value, df2.value);
    return Success(df);
  }

  /**
   * The training script's preparation, step by step on data frames: both
   * datasets normalised, concatenated, and imputed in place.
   */
  method PrepareTrainingFrame(uci: DataFrame, heartFailure: DataFrame) returns (r: Result<DataFrame, Error>)
    requires uci.Valid() && heartFailure.Valid()
    ensures r.Success? <==> PrepareTable(uci.Table(), heartFailure.Table()).Success?
    ensures r.Success? ==>
      fresh(r.value) && r.value.Valid() && r.value.Table() == PrepareTable(uci.Table(), heartFailure.Table()).value
    ensures r.Failure? ==> r.error == PrepareTable(uci.Table(), heartFailure.Table()).error
  {
    var merged := MergeFrames(uci, heartFailure);
    if merged.Failure? {
      return Failure(merged.error);
    }
    var df := merged.value;
    var err := ImputeFrame(df);
    if err.Some? {
      return Failure(err.value);
    }
    return Success(df);
  }
}

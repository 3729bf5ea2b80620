/**
 * A data frame as a value: named columns of equal length. These functions
 * state what each pandas operation of the training script does to a frame,
 * error paths included; the class in DataFrames performs the same operations
 * in place and is proved against them.
 */
module Frames {
  import opened Wrappers
  import Stats

  /** A cell: missing (NaN), a number, or a string as read from a CSV file. */
  datatype Value = Missing | Num(x: real) | Text(s: string)

  type Column = seq<Value>

  /** Column names in order, one column per name, and the number of rows. */
  datatype Frame = Frame(names: seq<string>, columns: seq<Column>, rows: nat)

  /** The exceptions the script can raise on the operations modelled here. */
  datatype Error =
    | KeyError(name: string)                       // a column that is not there
    | LengthMismatch(expected: nat, given: nat)    // assigning a wrong number of column names
    | NonNumeric(name: string)                     // a median over a column holding strings
    | EmptyMode(name: string)                      // mode()[0] of a column with no value

  ghost predicate WellFormed(f: Frame) {
    |f.names| == |f.columns| && forall i :: 0 <= i < |f.columns| ==> |f.columns[i]| == f.rows
  }

  ghost predicate Distinct(names: seq<string>) {
    forall i, j :: 0 <= i < j < |names| ==> names[i] != names[j]
  }

  /** The position of the first column called `n`. */
  function IndexOf(names: seq<string>, n: string): (r: Option<nat>)
    ensures r.None? ==> forall j :: 0 <= j < |names| ==> names[j] != n
    ensures r.Some? ==> r.value < |names| && names[r.value] == n
    ensures r.Some? ==> forall j :: 0 <= j < r.value ==> names[j] != n
  {
    if |names| == 0 then None
    else if names[0] == n then Some(0)
    else match IndexOf(names[1..], n)
      case None => None
      case Some(i) => Some(i + 1)
  }

  lemma IndexOfDistinct(names: seq<string>, i: nat)
    requires Distinct(names) && i < |names|
    ensures IndexOf(names, names[i]) == Some(i)
  {
  }

  /** `df[n]`: the first column called `n`. */
  function Col(f: Frame, n: string): (c: Column)
    requires WellFormed(f) && n in f.names
    ensures |c| == f.rows
  {
    f.columns[IndexOf(f.names, n).value]
  }

  /** `df[n]` is the column at the first position called `n`. */
  lemma ColIsFirstMatch(f: Frame, n: string, i: nat)
    requires WellFormed(f) && i < |f.names| && f.names[i] == n && n !in f.names[..i]
    ensures Col(f, n) == f.columns[i]
  {
  }

  /** The first wanted name that is not a column name. */
  function FirstAbsent(wanted: seq<string>, names: seq<string>): (r: Option<string>)
    ensures r.None? <==> forall n :: n in wanted ==> n in names
    ensures r.Some? ==> r.value in wanted && r.value !in names
  {
    if |wanted| == 0 then None
    else if wanted[0] !in names then Some(wanted[0])
    else
      assert forall n :: n in wanted ==> n == wanted[0] || n in wanted[1..];
      FirstAbsent(wanted[1..], names)
  }

  function Repeat(v: Value, n: nat): (c: Column)
    ensures |c| == n && forall k :: 0 <= k < n ==> c[k] == v
  {
    seq(n, _ => v)
  }

  /** `df[[...]]`: the wanted columns in the wanted order, or a KeyError. */
  function Select(f: Frame, wanted: seq<string>): (r: Result<Frame, Error>)
    requires WellFormed(f)
    ensures r.Success? <==> forall n :: n in wanted ==> n in f.names
    ensures r.Failure? ==> r.error.KeyError? && r.error.name in wanted && r.error.name !in f.names
    ensures r.Success? ==> WellFormed(r.value) && r.value.names == wanted && r.value.rows == f.rows
    ensures r.Success? ==> forall j :: 0 <= j < |wanted| ==> r.value.columns[j] == Col(f, wanted[j])
  {
    match FirstAbsent(wanted, f.names)
    case Some(n) => Failure(KeyError(n))
    case None =>
      Success(Frame(wanted, seq(|wanted|, j requires 0 <= j < |wanted| => Col(f, wanted[j])), f.rows))
  }

  /** Selecting all the columns of a frame with distinct names, in their order, gives the frame back. */
  lemma SelectAll(f: Frame)
    requires WellFormed(f) && Distinct(f.names)
    ensures Select(f, f.names) == Success(f)
  {
    forall j | 0 <= j < |f.names|
      ensures Col(f, f.names[j]) == f.columns[j]
    {
      IndexOfDistinct(f.names, j);
    }
    assert Select(f, f.names).value.columns == f.columns;
  }

  /** `df.columns = newNames`: a positional rename, or a length mismatch. */
  function Rename(f: Frame, newNames: seq<string>): (r: Result<Frame, Error>)
    requires WellFormed(f)
    ensures r.Success? <==> |newNames| == |f.names|
    ensures r.Failure? ==> r.error == LengthMismatch(|f.names|, |newNames|)
    ensures r.Success? ==> WellFormed(r.value) && r.value.names == newNames
    ensures r.Success? ==> r.value.columns == f.columns && r.value.rows == f.rows
  {
    if |newNames| != |f.names| then Failure(LengthMismatch(|f.names|, |newNames|))
    else Success(f.(names := newNames))
  }

  /** `df[n] = col`: replaces the column called `n`, or appends it as the last column. */
  function SetColumn(f: Frame, n: string, col: Column): (r: Frame)
    requires WellFormed(f) && |col| == f.rows
    ensures WellFormed(r) && r.rows == f.rows
    ensures n in r.names && Col(r, n) == col
    ensures n in f.names ==> r.names == f.names && r.columns == f.columns[IndexOf(f.names, n).value := col]
    ensures n !in f.names ==> r.names == f.names + [n] && r.columns == f.columns + [col]
    ensures forall m :: m in f.names && m != n ==> m in r.names && Col(r, m) == Col(f, m)
  {
    match IndexOf(f.names, n)
    case Some(i) => f.(columns := f.columns[i := col])
    case None =>
      IndexOfAppend(f.names, n, n);
      forall m | m in f.names ensures IndexOf(f.names + [n], m) == IndexOf(f.names, m) {
        IndexOfAppend(f.names, n, m);
      }
      Frame(f.names + [n], f.columns + [col], f.rows)
  }

  /** Appending a name does not move the names already there. */
  lemma {:induction false} IndexOfAppend(names: seq<string>, x: string, m: string)
    ensures m in names ==> IndexOf(names + [x], m) == IndexOf(names, m)
    ensures m !in names && m == x ==> IndexOf(names + [x], m) == Some(|names|)
  {
    if names != [] {
      assert (names + [x])[1..] == names[1..] + [x];
      IndexOfAppend(names[1..], x, m);
    }
  }

  /** `df[n] = c`: a column holding the constant `c` in every row. */
  function AddConstant(f: Frame, n: string, c: real): (r: Frame)
    requires WellFormed(f)
    ensures WellFormed(r) && r.rows == f.rows
    ensures n in r.names && Col(r, n) == Repeat(Num(c), f.rows)
    ensures n in f.names ==> r.names == f.names && r.columns == f.columns[IndexOf(f.names, n).value := Repeat(Num(c), f.rows)]
    ensures n !in f.names ==> r.names == f.names + [n] && r.columns == f.columns + [Repeat(Num(c), f.rows)]
  {
    SetColumn(f, n, Repeat(Num(c), f.rows))
  }

  /** `Series.map(codes)` on one cell: a string key becomes its code, anything else NaN. */
  function MapCell(v: Value, codes: map<string, real>): (r: Value)
    ensures r.Missing? || r.Num?
    ensures r.Num? <==> v.Text? && v.s in codes
    ensures r.Num? ==> r.x == codes[v.s]
  {
    if v.Text? && v.s in codes then Num(codes[v.s]) else Missing
  }

  /** `Series.map(codes)` on a column, cell by cell. */
  function MapCells(col: Column, codes: map<string, real>): (r: Column)
    ensures |r| == |col| && forall k :: 0 <= k < |col| ==> r[k] == MapCell(col[k], codes)
  {
    seq(|col|, k requires 0 <= k < |col| => MapCell(col[k], codes))
  }

  /** `df[n] = df[n].map(codes)`, or a KeyError when there is no such column. */
  function MapColumn(f: Frame, n: string, codes: map<string, real>): (r: Result<Frame, Error>)
    requires WellFormed(f)
    ensures r.Success? <==> n in f.names
    ensures r.Failure? ==> r.error == KeyError(n)
    ensures r.Success? ==> WellFormed(r.value) && r.value.names == f.names && r.value.rows == f.rows
    ensures r.Success? ==> r.value.columns == f.columns[IndexOf(f.names, n).value := MapCells(Col(f, n), codes)]
  {
    if n !in f.names then Failure(KeyError(n))
    else
      Success(SetColumn(f, n, MapCells(Col(f, n), codes)))
  }

  /** Mapping the column at position `i` changes column `i` to its codes and no other column. */
  lemma MapColumnAt(f: Frame, n: string, codes: map<string, real>, i: nat, j: nat)
    requires WellFormed(f) && IndexOf(f.names, n) == Some(i) && j < |f.names|
    ensures MapColumn(f, n, codes).Success?
    ensures MapColumn(f, n, codes).value.columns[j] == if j == i then MapCells(f.columns[i], codes) else f.columns[j]
  {
  }

  /** The names of `b` that `a` lacks, in `b`'s order. */
  function Unmatched(b: seq<string>, a: seq<string>): (r: seq<string>)
    ensures forall n :: n in r <==> n in b && n !in a
  {
    if |b| == 0 then []
    else
      assert forall n :: n in b ==> n == b[0] || n in b[1..];
      (if b[0] in a then [] else [b[0]]) + Unmatched(b[1..], a)
  }

  /** The column called `n`, or a column of NaN when there is none. */
  function ColumnOrMissing(f: Frame, n: string): (c: Column)
    requires WellFormed(f)
    ensures |c| == f.rows
  {
    if n in f.names then Col(f, n) else Repeat(Missing, f.rows)
  }

  /**
   * `pd.concat([a, b], ignore_index=True)`: the rows of `a`, then the rows of
   * `b`. With the same column names the columns are stacked position by
   * position; otherwise the columns are the union of names (those of `a` first)
   * and a frame without a column contributes NaN to it.
   */
  function Concat(a: Frame, b: Frame): (r: Frame)
    requires WellFormed(a) && WellFormed(b)
    ensures WellFormed(r) && r.rows == a.rows + b.rows
    ensures forall n :: n in r.names <==> n in a.names || n in b.names
    ensures a.names == b.names ==> r.names == a.names
  {
    if a.names == b.names then
      Frame(a.names, seq(|a.names|, i requires 0 <= i < |a.names| => a.columns[i] + b.columns[i]), a.rows + b.rows)
    else
      var names := a.names + Unmatched(b.names, a.names);
      Frame(names, seq(|names|, i requires 0 <= i < |names| => ColumnOrMissing(a, names[i]) + ColumnOrMissing(b, names[i])),
            a.rows + b.rows)
  }

  /** The k-th row, one value per column. */
  function Row(f: Frame, k: nat): (row: seq<Value>)
    requires WellFormed(f) && k < f.rows
    ensures |row| == |f.columns|
  {
    seq(|f.columns|, i requires 0 <= i < |f.columns| => f.columns[i][k])
  }

  /**
   * Concatenating two frames with the same columns keeps both row orders and
   * puts every row of `a` before every row of `b`.
   */
  lemma ConcatStacksRows(a: Frame, b: Frame)
    requires WellFormed(a) && WellFormed(b) && a.names == b.names
    ensures Concat(a, b).names == a.names
    ensures forall k :: 0 <= k < a.rows ==> Row(Concat(a, b), k) == Row(a, k)
    ensures forall k :: 0 <= k < b.rows ==> Row(Concat(a, b), a.rows + k) == Row(b, k)
  {
  }

  /** Row `k` of `b` is row `a.rows + k` of the concatenation `c`. */
  lemma ConcatRowOfSecond(c: Frame, a: Frame, b: Frame, p: nat, k: nat)
    requires WellFormed(a) && WellFormed(b) && a.names == b.names && c == Concat(a, b)
    requires k < b.rows && p == a.rows + k
    ensures Row(c, p) == Row(b, k)
  {
  }

  /** Concatenating frames with the same columns appends column `i` of `b` to column `i` of `a`. */
  lemma ConcatColumn(a: Frame, b: Frame, i: nat)
    requires WellFormed(a) && WellFormed(b) && a.names == b.names && i < |a.names|
    ensures Concat(a, b).columns[i] == a.columns[i] + b.columns[i]
  {
  }

  /** Stacking two constant columns of the same value gives a constant column. */
  lemma RepeatConcat(v: Value, m: nat, n: nat)
    ensures Repeat(v, m) + Repeat(v, n) == Repeat(v, m + n)
  {
    assert forall k :: 0 <= k < m + n ==> (Repeat(v, m) + Repeat(v, n))[k] == v;
  }

  /** `fillna(v)` on one column: missing cells become `v`, the others stay. */
  function FillMissing(col: Column, v: Value): (r: Column)
    ensures |r| == |col|
    ensures forall k :: 0 <= k < |col| && !col[k].Missing? ==> r[k] == col[k]
    ensures forall k :: 0 <= k < |col| && col[k].Missing? ==> r[k] == v
  {
    seq(|col|, k requires 0 <= k < |col| => if col[k].Missing? then v else col[k])
  }

  /** The non-missing cells of a column, in order. */
  function NonMissing(col: Column): (r: seq<Value>)
    ensures forall v :: v in r <==> v in col && !v.Missing?
    ensures |r| <= |col|
    ensures forall v: Value :: !v.Missing? ==> multiset(r)[v] == multiset(col)[v]
  {
    if col == [] then []
    else
      assert col == [col[0]] + col[1..];
      assert forall v :: v in col ==> v == col[0] || v in col[1..];
      (if col[0].Missing? then [] else [col[0]]) + NonMissing(col[1..])
  }

  /** The numbers of a column, in order. */
  function Numbers(col: Column): (r: seq<real>)
    ensures forall x :: x in r <==> Num(x) in col
    ensures forall x :: multiset(r)[x] == multiset(col)[Num(x)]
  {
    if col == [] then []
    else
      assert col == [col[0]] + col[1..];
      assert forall v :: v in col ==> v == col[0] || v in col[1..];
      (if col[0].Num? then [col[0].x] else []) + Numbers(col[1..])
  }

  ghost predicate HasText(col: Column) {
    exists v :: v in col && v.Text?
  }

  /** The first listed column that holds a string. */
  function FirstTextual(f: Frame, cols: seq<string>): (r: Option<string>)
    requires WellFormed(f) && forall n :: n in cols ==> n in f.names
    ensures r.None? <==> forall n :: n in cols ==> !HasText(Col(f, n))
    ensures r.Some? ==> r.value in cols && HasText(Col(f, r.value))
  {
    if |cols| == 0 then None
    else if exists k :: 0 <= k < f.rows && Col(f, cols[0])[k].Text? then Some(cols[0])
    else
      assert forall n :: n in cols ==> n == cols[0] || n in cols[1..];
      FirstTextual(f, cols[1..])
  }

  /**
   * `col.fillna(col.median())`: missing cells get the median of the column's
   * numbers; a column without numbers has a NaN median and stays as it is.
   */
  function MedianFilled(col: Column): (r: Column)
    ensures |r| == |col|
    ensures forall k :: 0 <= k < |col| && !col[k].Missing? ==> r[k] == col[k]
    ensures Numbers(col) != [] ==> forall k :: 0 <= k < |col| && col[k].Missing? ==> r[k] == Num(Stats.Median(Numbers(col)))
    ensures Numbers(col) != [] ==> forall k :: 0 <= k < |col| ==> !r[k].Missing?
    ensures Numbers(col) == [] ==> r == col
  {
    if Numbers(col) == [] then col else FillMissing(col, Num(Stats.Median(Numbers(col))))
  }

  /**
   * `df[cols] = df[cols].fillna(df[cols].median())`: a KeyError for an absent
   * column, a type error for a column holding strings, and otherwise every
   * listed column filled with its own median.
   */
  function ImputeMedians(f: Frame, cols: seq<string>): (r: Result<Frame, Error>)
    requires WellFormed(f)
    ensures r.Success? <==> forall n :: n in cols ==> n in f.names && !HasText(Col(f, n))
    ensures r.Failure? ==>
      || (r.error.KeyError? && r.error.name in cols && r.error.name !in f.names)
      || (r.error.NonNumeric? && r.error.name in cols && r.error.name in f.names && HasText(Col(f, r.error.name)))
    ensures r.Success? ==> WellFormed(r.value) && r.value.names == f.names && r.value.rows == f.rows
    ensures r.Success? ==> forall i :: 0 <= i < |f.names| && f.names[i] !in cols ==> r.value.columns[i] == f.columns[i]
    ensures r.Success? ==> forall i :: 0 <= i < |f.names| && f.names[i] in cols ==> r.value.columns[i] == MedianFilled(f.columns[i])
  {
    match FirstAbsent(cols, f.names)
    case Some(n) => Failure(KeyError(n))
    case None =>
      match FirstTextual(f, cols)
      case Some(n) => Failure(NonNumeric(n))
      case None =>
        Success(f.(columns := seq(|f.columns|, i requires 0 <= i < |f.columns| =>
          if f.names[i] in cols then MedianFilled(f.columns[i]) else f.columns[i])))
  }

  /**
   * `col.fillna(col.mode()[0])` on a column with at least one value: no cell
   * stays missing, present cells are kept, and the filled cells get a value of
   * maximal frequency among the present ones.
   */
  function ModeFilled(col: Column): (r: Column)
    requires NonMissing(col) != []
    ensures |r| == |col|
    ensures forall k :: 0 <= k < |col| ==> !r[k].Missing?
    ensures forall k :: 0 <= k < |col| && !col[k].Missing? ==> r[k] == col[k]
    ensures forall k :: 0 <= k < |col| && col[k].Missing? ==>
      r[k] in col && forall v :: v in NonMissing(col) ==> multiset(NonMissing(col))[v] <= multiset(NonMissing(col))[r[k]]
    ensures forall k, l :: 0 <= k < |col| && 0 <= l < |col| && col[k].Missing? && col[l].Missing? ==> r[k] == r[l]
  {
    FillMissing(col, Stats.Mode(NonMissing(col)))
  }

  /**
   * `for n in cols: df[n].fillna(df[n].mode()[0], inplace=True)`: column by
   * column, a KeyError for an absent column and an error for a column with no
   * value (its mode is empty).
   */
  function ImputeModes(f: Frame, cols: seq<string>): (r: Result<Frame, Error>)
    requires WellFormed(f)
    ensures r.Success? ==> WellFormed(r.value) && r.value.names == f.names && r.value.rows == f.rows
    decreases |cols|
  {
    if |cols| == 0 then Success(f)
    else if cols[0] !in f.names then Failure(KeyError(cols[0]))
    else if NonMissing(Col(f, cols[0])) == [] then Failure(EmptyMode(cols[0]))
    else ImputeModes(SetColumn(f, cols[0], ModeFilled(Col(f, cols[0]))), cols[1..])
  }

  /** Filling one column of a frame with distinct names leaves every other column as it was. */
  lemma SetColumnKeepsOthers(f: Frame, n: string, col: Column)
    requires WellFormed(f) && Distinct(f.names) && n in f.names && |col| == f.rows
    ensures SetColumn(f, n, col).names == f.names
    ensures forall i :: 0 <= i < |f.names| && f.names[i] != n ==> SetColumn(f, n, col).columns[i] == f.columns[i]
    ensures forall i :: 0 <= i < |f.names| && f.names[i] == n ==> SetColumn(f, n, col).columns[i] == col
  {
    var p := IndexOf(f.names, n).value;
    forall i | 0 <= i < |f.names| && f.names[i] == n ensures i == p {
      IndexOfDistinct(f.names, i);
    }
  }

  /** The first listed name is not among the remaining ones. */
  lemma DistinctTail(cols: seq<string>)
    requires Distinct(cols) && cols != []
    ensures Distinct(cols[1..]) && cols[0] !in cols[1..]
    ensures forall m :: m in cols <==> m == cols[0] || m in cols[1..]
  {
  }

  /**
   * Mode imputation over distinct column names succeeds exactly when every
   * listed column exists and has a value.
   */
  lemma {:induction false} ImputeModesSucceeds(f: Frame, cols: seq<string>)
    requires WellFormed(f) && Distinct(f.names) && Distinct(cols)
    ensures ImputeModes(f, cols).Success? <==>
      forall n :: n in cols ==> n in f.names && NonMissing(Col(f, n)) != []
    decreases |cols|
  {
    if cols != [] {
      var n := cols[0];
      assert n in cols;
      if n in f.names && NonMissing(Col(f, n)) != [] {
        var g := SetColumn(f, n, ModeFilled(Col(f, n)));
        DistinctTail(cols);
        ImputeModesSucceeds(g, cols[1..]);
        forall m | m in cols[1..] && m in f.names
          ensures Col(g, m) == Col(f, m)
        {
        }
      }
    }
  }

  /**
   * A failed mode imputation over distinct column names names a listed
   * column that is absent or has no value.
   */
  lemma {:induction false} ImputeModesErrors(f: Frame, cols: seq<string>)
    requires WellFormed(f) && Distinct(f.names) && Distinct(cols) && ImputeModes(f, cols).Failure?
    ensures var e := ImputeModes(f, cols).error;
      || (e.KeyError? && e.name in cols && e.name !in f.names)
      || (e.EmptyMode? && e.name in cols && e.name in f.names && NonMissing(Col(f, e.name)) == [])
    decreases |cols|
  {
    if cols[0] in f.names && NonMissing(Col(f, cols[0])) != [] {
      var n := cols[0];
      var g := SetColumn(f, n, ModeFilled(Col(f, n)));
      DistinctTail(cols);
      ImputeModesErrors(g, cols[1..]);
      assert forall m :: m in cols[1..] && m in f.names ==> Col(g, m) == Col(f, m);
    }
  }

  /** A successful mode imputation over distinct column names leaves the unlisted columns alone. */
  lemma {:induction false} ImputeModesKeepsOthers(f: Frame, cols: seq<string>)
    requires WellFormed(f) && Distinct(f.names) && Distinct(cols)
    requires ImputeModes(f, cols).Success?
    ensures forall i :: 0 <= i < |f.names| && f.names[i] !in cols ==>
      ImputeModes(f, cols).value.columns[i] == f.columns[i]
    decreases |cols|
  {
    if cols != [] {
      var n := cols[0];
      DistinctTail(cols);
      SetColumnKeepsOthers(f, n, ModeFilled(Col(f, n)));
      ImputeModesKeepsOthers(SetColumn(f, n, ModeFilled(Col(f, n))), cols[1..]);
    }
  }

  /** A successful mode imputation over distinct column names fills each listed column from its own mode. */
  lemma {:induction false} ImputeModesFills(f: Frame, cols: seq<string>)
    requires WellFormed(f) && Distinct(f.names) && Distinct(cols)
    requires ImputeModes(f, cols).Success?
    ensures forall i :: 0 <= i < |f.names| && f.names[i] in cols ==>
      NonMissing(f.columns[i]) != [] && ImputeModes(f, cols).value.columns[i] == ModeFilled(f.columns[i])
    decreases |cols|
  {
    if cols != [] {
      var n := cols[0];
      var g := SetColumn(f, n, ModeFilled(Col(f, n)));
      DistinctTail(cols);
      SetColumnKeepsOthers(f, n, ModeFilled(Col(f, n)));
      ImputeModesFills(g, cols[1..]);
      ImputeModesKeepsOthers(g, cols[1..]);
      forall i | 0 <= i < |f.names| && f.names[i] == n
        ensures f.columns[i] == Col(f, n)
      {
        IndexOfDistinct(f.names, i);
      }
    }
  }

  /** Filling a column that has no missing cell changes nothing. */
  lemma FillMissingComplete(col: Column, v: Value)
    requires forall k :: 0 <= k < |col| ==> !col[k].Missing?
    ensures FillMissing(col, v) == col
  {
  }

  /** Median imputation leaves a complete numeric table unchanged. */
  lemma ImputeMediansKeepsComplete(f: Frame, cols: seq<string>)
    requires WellFormed(f)
    requires forall n :: n in cols ==> n in f.names && !HasText(Col(f, n))
    requires forall i, k :: 0 <= i < |f.names| && f.names[i] in cols && 0 <= k < f.rows ==> !f.columns[i][k].Missing?
    ensures ImputeMedians(f, cols) == Success(f)
  {
    var r := ImputeMedians(f, cols).value;
    forall i | 0 <= i < |f.names|
      ensures r.columns[i] == f.columns[i]
    {
      if f.names[i] in cols && Numbers(f.columns[i]) != [] {
        FillMissingComplete(f.columns[i], Num(Stats.Median(Numbers(f.columns[i]))));
      }
    }
    assert r.columns == f.columns;
  }

  /** A non-empty column without missing cells has a value, and its mode filling changes nothing. */
  lemma ModeFilledKeepsComplete(c: Column)
    requires |c| > 0 && forall k :: 0 <= k < |c| ==> !c[k].Missing?
    ensures NonMissing(c) != [] && ModeFilled(c) == c
  {
    assert c[0] in NonMissing(c);
    FillMissingComplete(c, Stats.Mode(NonMissing(c)));
  }

  /** Writing a column back under its own name changes nothing. */
  lemma SetColumnOwnColumn(f: Frame, n: string)
    requires WellFormed(f) && n in f.names
    ensures SetColumn(f, n, Col(f, n)) == f
  {
    var p := IndexOf(f.names, n).value;
    assert f.columns[p := Col(f, n)] == f.columns;
  }

  /** Mode imputation leaves a complete, non-empty table unchanged. */
  lemma {:induction false} ImputeModesKeepsComplete(f: Frame, cols: seq<string>)
    requires WellFormed(f) && f.rows > 0
    requires forall n :: n in cols ==> n in f.names && forall k :: 0 <= k < f.rows ==> !Col(f, n)[k].Missing?
    ensures ImputeModes(f, cols) == Success(f)
    decreases |cols|
  {
    if cols != [] {
      var n := cols[0];
      ModeFilledKeepsComplete(Col(f, n));
      SetColumnOwnColumn(f, n);
      assert forall m :: m in cols[1..] ==> m in cols;
      ImputeModesKeepsComplete(f, cols[1..]);
    }
  }
}

/**
 * A pandas DataFrame as an object whose column list the training script
 * changes in place: renaming the columns, assigning a column, mapping a
 * column through a dictionary and filling missing cells. Every method is
 * proved to return what the corresponding function of Frames returns; on
 * success it leaves the frame as that function says, and on an error every
 * method but FillModes leaves the frame unchanged.
 */
module DataFrames {
  import opened Wrappers
  import opened Frames
  import Stats

  class DataFrame {
    var names: seq<string>
    var columns: seq<Column>
    var rows: nat

    /** The frame's current contents as a value. */
    function Table(): Frame
      reads this
    {
      Frame(names, columns, rows)
    }

    ghost predicate Valid()
      reads this
    {
      WellFormed(Table())
    }

    constructor (t: Frame)
      requires WellFormed(t)
      ensures Valid() && Table() == t
    {
      names, columns, rows := t.names, t.columns, t.rows;
    }

    /** `df[wanted].copy()`: a new frame with the wanted columns, or a KeyError. */
    method SelectCopy(wanted: seq<string>) returns (r: Result<DataFrame, Error>)
      requires Valid()
      ensures r.Success? <==> Select(Table(), wanted).Success?
      ensures r.Success? ==> fresh(r.value) && r.value.Valid() && r.value.Table() == Select(Table(), wanted).value
      ensures r.Failure? ==> r.error == Select(Table(), wanted).error
    {
      var picked := Select(Table(), wanted);
      if picked.Failure? {
        return Failure(picked.error);
      }
      var copy := new DataFrame(picked.value);
      return Success(copy);
    }

    /** `df.columns = newNames`. */
    method SetNames(newNames: seq<string>) returns (err: Option<Error>)
      requires Valid()
      modifies this
      ensures Valid()
      ensures err.None? <==> Rename(old(Table()), newNames).Success?
      ensures err.None? ==> Table() == Rename(old(Table()), newNames).value
      ensures err.Some? ==> err.value == Rename(old(Table()), newNames).error && Table() == old(Table())
    {
      if |newNames| != |names| {
        return Some(LengthMismatch(|names|, |newNames|));
      }
      names := newNames;
      return None;
    }

    /** `df[n] = c`: every row of column `n` (new or replaced) holds `c`. */
    method AssignConstant(n: string, c: real)
      requires Valid()
      modifies this
      ensures Valid()
      ensures Table() == AddConstant(old(Table()), n, c)
    {
      var col := Repeat(Num(c), rows);
      match IndexOf(names, n)
      case Some(i) =>
        columns := columns[i := col];
      case None =>
        names, columns := names + [n], columns + [col];
    }

    /** `df[n] = df[n].map(codes)`. */
    method MapValues(n: string, codes: map<string, real>) returns (err: Option<Error>)
      requires Valid()
      modifies this
      ensures Valid()
      ensures err.None? <==> MapColumn(old(Table()), n, codes).Success?
      ensures err.None? ==> Table() == MapColumn(old(Table()), n, codes).value
      ensures err.Some? ==> err.value == KeyError(n) && Table() == old(Table())
    {
      match IndexOf(names, n)
      case None =>
        return Some(KeyError(n));
      case Some(i) =>
        columns := columns[i := MapCells(columns[i], codes)];
        return None;
    }

    /** `df[cols] = df[cols].fillna(df[cols].median())`. */
    method FillMedians(cols: seq<string>) returns (err: Option<Error>)
      requires Valid()
      modifies this
      ensures Valid()
      ensures err.None? <==> ImputeMedians(old(Table()), cols).Success?
      ensures err.None? ==> Table() == ImputeMedians(old(Table()), cols).value
      ensures err.Some? ==> err.value == ImputeMedians(old(Table()), cols).error && Table() == old(Table())
    {
      var absent := FirstAbsent(cols, names);
      if absent.Some? {
        return Some(KeyError(absent.value));
      }
      var textual := FirstTextual(Table(), cols);
      if textual.Some? {
        return Some(NonNumeric(textual.value));
      }
      var before, labels := columns, names;
      columns := seq(|before|, i requires 0 <= i < |before| =>
        if labels[i] in cols then MedianFilled(before[i]) else before[i]);
      return None;
    }

    /**
     * `for n in cols: df[n].fillna(df[n].mode()[0], inplace=True)`. On an
     * error the columns before the failing one have already been filled.
     */
    method FillModes(cols: seq<string>) returns (err: Option<Error>)
      requires Valid()
      modifies this
      ensures Valid()
      ensures err.None? <==> ImputeModes(old(Table()), cols).Success?
      ensures err.None? ==> Table() == ImputeModes(old(Table()), cols).value
      ensures err.Some? ==> err.value == ImputeModes(old(Table()), cols).error
    {
      for k := 0 to |cols|
        invariant Valid()
        invariant ImputeModes(old(Table()), cols) == ImputeModes(Table(), cols[k..])
      {
        var n := cols[k];
        assert cols[k..][1..] == cols[k + 1..];
        match IndexOf(names, n)
        case None =>
          return Some(KeyError(n));
        case Some(i) =>
          var present := NonMissing(columns[i]);
          if present == [] {
            return Some(EmptyMode(n));
          }
          columns := columns[i := FillMissing(columns[i], Stats.Mode(present))];
      }
      return None;
    }
  }

  /** `pd.concat([a, b], ignore_index=True)`: a new frame. */
  method ConcatFrames(a: DataFrame, b: DataFrame) returns (c: DataFrame)
    requires a.Valid() && b.Valid()
    ensures fresh(c) && c.Valid() && c.Table() == Concat(a.Table(), b.Table())
  {
    c := new DataFrame(Concat(a.Table(), b.Table()));
  }
}

/** Column-oriented tables as pandas holds them: named, typed columns
    (Series) that share one row index. */
module Frames {

  /** The exceptions the pipeline can raise, reduced to what tells them apart. */
  datatype Failure =
    | KeyError(column: string)    // df[name] for a name the frame does not have
    | TypeError(column: string)   // arithmetic, comparison or concatenation on a column of the wrong dtype
    | ValueError(message: string) // a bad argument, as for arrays of different lengths
    | IndexError(position: int)   // an index past the end of an axis

  datatype Result<T> = Ok(value: T) | Err(error: Failure) {
    predicate IsFailure() { Err? }
    function PropagateFailure<U>(): Result<U> requires Err? { Err(error) }
    function Extract(): T requires Ok? { value }
  }

  /** One cell: a number (float64, int64 and bool columns alike), a string
      (object columns), or a missing value (NaN or None). */
  datatype Value = Num(r: real) | Str(s: string) | Missing

  /** The column dtypes that occur in the pipeline. */
  datatype Kind = Float64 | Int64 | Bool | Object

  datatype Series = Series(name: string, kind: Kind, cells: seq<Value>)

  /** A DataFrame whose column names are distinct, as one built from a dict
      is: the names in column order, the column of each name, and the row
      labels the columns share. */
  datatype Frame = Frame(names: seq<string>, cols: map<string, Series>, index: seq<int>)

  /** A DataFrame whose column names may repeat, as the result of
      `get_dummies` or `concat` can: its columns in order, and the row labels. */
  datatype Table = Table(columns: seq<Series>, index: seq<int>)

  /** Which cells a column of each dtype can hold: int64 and bool columns
      cannot hold a missing value, and a bool is 0 or 1. */
  predicate CellFits(k: Kind, v: Value) {
    match k
    case Float64 => v.Num? || v.Missing?
    case Int64 => v.Num?
    case Bool => v == Num(0.0) || v == Num(1.0)
    case Object => v.Str? || v.Missing?
  }

  predicate SeriesWf(s: Series, n: nat) {
    |s.cells| == n && forall i :: 0 <= i < n ==> CellFits(s.kind, s.cells[i])
  }

  predicate Distinct<T(==)>(xs: seq<T>) {
    forall i, j :: 0 <= i < j < |xs| ==> xs[i] != xs[j]
  }

  /** The names list the columns once each, every column carries its own
      name, and every column has one cell per row label, of its dtype. */
  ghost predicate Wf(f: Frame) {
    && Distinct(f.names)
    && (forall n :: n in f.names <==> n in f.cols)
    && (forall n :: n in f.cols ==> f.cols[n].name == n && SeriesWf(f.cols[n], |f.index|))
  }

  ghost predicate TableWf(t: Table) {
    forall j :: 0 <= j < |t.columns| ==> SeriesWf(t.columns[j], |t.index|)
  }

  function Rows(f: Frame): nat { |f.index| }

  /** The names of a list of columns, in order. */
  function NamesOf(cs: seq<Series>): (ns: seq<string>)
    ensures |ns| == |cs|
    ensures forall j :: 0 <= j < |ns| ==> ns[j] == cs[j].name
  {
    seq(|cs|, j requires 0 <= j < |cs| => cs[j].name)
  }

  /** `df.columns`. */
  function Names(t: Table): (ns: seq<string>)
    ensures |ns| == |t.columns|
    ensures forall j :: 0 <= j < |ns| ==> ns[j] == t.columns[j].name
  {
    NamesOf(t.columns)
  }

  /** `df[name]`: the column of that name, or KeyError. */
  function Lookup(f: Frame, name: string): (r: Result<Series>)
    ensures r.Ok? <==> name in f.cols
    ensures r.Err? ==> r.error == KeyError(name)
  {
    if name in f.cols then Ok(f.cols[name]) else Err(KeyError(name))
  }

  /** `df[s.name] = s`: replaces the column of that name where it stands, or
      appends s as the last column. */
  function Assign(f: Frame, s: Series): (r: Frame)
    requires Wf(f) && SeriesWf(s, Rows(f))
    ensures Wf(r) && r.index == f.index
    ensures r.names == if s.name in f.cols then f.names else f.names + [s.name]
    ensures Lookup(r, s.name) == Ok(s)
    ensures forall n :: n != s.name ==> Lookup(r, n) == Lookup(f, n)
  {
    Frame(if s.name in f.cols then f.names else f.names + [s.name], f.cols[s.name := s], f.index)
  }
}

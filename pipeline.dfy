/** `preprocess_input` (scripts/app.py:17-57) as the source runs it: the
    filtered frame updated in place column by column, then encoded, aligned to
    the expected schema and scaled. */
module Pipeline {
  import opened Frames
  import opened Filtering
  import opened Features
  import opened Encoding
  import opened Alignment

  /** A NumPy array of floats: width columns in every row. */
  datatype Matrix = Matrix(width: nat, rows: seq<seq<real>>)

  predicate Rectangular(m: Matrix) {
    forall i :: 0 <= i < |m.rows| ==> |m.rows[i]| == m.width
  }

  type Array2 = m: Matrix | Rectangular(m) witness Matrix(0, [])

  /** A fitted scaler, known only by its `transform`, which may raise. */
  datatype Scaler = Scaler(transform: Table -> Result<Array2>)

  /** What the pipeline relies on of the scaler: a transform that succeeds
      returns one row per input row and one column per input column. */
  ghost predicate KeepsShape(sc: Scaler) {
    forall t :: TableWf(t) && sc.transform(t).Ok? ==>
      var m := sc.transform(t).value;
      |m.rows| == |t.index| && m.width == |t.columns|
  }

  /** Lines 29-47: the encoded frame, on the surviving rows; it raises
      exactly when a column lines 31-38 read is absent or of the wrong dtype. */
  function Encoded(data: Frame): (r: Result<Table>)
    requires Wf(data)
    ensures r.Ok? <==> Ready(data)
    ensures r.Ok? ==> TableWf(r.value) && r.value.index == Pick(data.index, Survivors(data, Rows(data)))
  {
    DeriveFeaturesSpec(data);
    var derived :- DeriveFeatures(data);
    Ok(Encode(derived))
  }

  /** Lines 29-53: the table handed to the scaler, on the surviving rows,
      with only expected names. */
  function Prepared(data: Frame, expected: seq<string>): (r: Result<Table>)
    requires Wf(data)
    ensures r.Ok? <==> Ready(data)
    ensures r.Ok? ==> r.value.index == Pick(data.index, Survivors(data, Rows(data)))
    ensures r.Ok? ==> forall k :: 0 <= k < |r.value.columns| ==> r.value.columns[k].name in expected
  {
    var encoded :- Encoded(data);
    Align(encoded, expected)
  }

  /** Lines 29-57: whatever the scaler does, a run on an input without the
      columns lines 31-38 need raises. */
  function Preprocess(data: Frame, scaler: Scaler, expected: seq<string>): (r: Result<Array2>)
    requires Wf(data)
    ensures !Ready(data) ==> r.Err?
  {
    var t :- Prepared(data, expected);
    scaler.transform(t)
  }

  /** The mutable DataFrame `data_dropped` of lines 29-40. */
  class DataFrame {
    var names: seq<string>
    var cols: map<string, Series>
    var index: seq<int>

    function Value(): Frame
      reads this
    {
      Frame(names, cols, index)
    }

    constructor (f: Frame)
      ensures Value() == f
    {
      names, cols, index := f.names, f.cols, f.index;
    }

    /** `df[s.name] = s`: the column replaced where it stands, or appended. */
    method SetItem(s: Series)
      requires Wf(Value()) && SeriesWf(s, |index|)
      modifies this
      ensures Value() == Assign(old(Value()), s)
    {
      if s.name !in cols {
        names := names + [s.name];
      }
      cols := cols[s.name := s];
    }
  }

  /** Lines 29-40: `data_dropped` built and updated in place, column by
      column, the first exception ending the run. */
  method DeriveInPlace(data: Frame) returns (r: Result<Frame>)
    requires Wf(data)
    ensures r == DeriveFeatures(data)
  {
    var df := new DataFrame(DropNa(data));                 // line 29
    var c :- InteractionColumn(df.Value());                // line 31
    df.SetItem(c);
    c :- HighTimeColumn(df.Value());                       // line 33
    df.SetItem(c);
    c :- CountryAvgColumn(df.Value());                     // lines 35-36
    df.SetItem(c);
    c :- SourceActivityColumn(df.Value());                 // line 38
    df.SetItem(c);
    var flag := df.cols[HighTime];                         // line 40: the bool column of line 33
    df.SetItem(AsInt(flag));
    return Ok(df.Value());
  }

  /** `preprocess_input`: derive, drop the identifier, encode, align, scale. */
  method PreprocessInput(data: Frame, scaler: Scaler, expected: seq<string>) returns (r: Result<Array2>)
    requires Wf(data)
    ensures r == Preprocess(data, scaler, expected)
  {
    var derived :- DeriveInPlace(data);                    // lines 29-40
    var encoded := GetDummies(DropId(derived));            // lines 42-47
    var aligned := Align(encoded, expected).value;         // lines 49-53
    r := scaler.transform(aligned);                        // line 55
  }

  // ---------------------------------------------------------------------
  // What the pipeline promises.

  /** Preprocessing raises exactly when a column lines 31-38 read is absent
      or of the wrong dtype, or the scaler raises; alignment never does. */
  lemma PreprocessFails(data: Frame, scaler: Scaler, expected: seq<string>)
    requires Wf(data)
    ensures Prepared(data, expected).Ok? <==> Ready(data)
    ensures Preprocess(data, scaler, expected).Err? <==>
      !Ready(data) || scaler.transform(Prepared(data, expected).value).Err?
  {
    DeriveFeaturesSpec(data);
    if Ready(data) {
      var e := Encoded(data).value;
      AlignSpec(e, expected, MissingNames(expected, Names(e)));
    }
  }

  /** Whatever the encoded names, a valid input reaches the scaler as a
      well-formed table with one row per row that survives `dropna`. */
  lemma PreparedRows(data: Frame, expected: seq<string>)
    requires Wf(data) && Ready(data)
    ensures Prepared(data, expected).Ok?
    ensures var t := Prepared(data, expected).value;
      TableWf(t) && |t.index| == |Survivors(data, Rows(data))|
  {
    DeriveFeaturesSpec(data);
    AlignWf(Encoded(data).value, expected);
  }

  /** With a scaler that keeps the shape, a successful run yields one row per
      surviving input row, whatever the encoded names. */
  lemma PreprocessRows(data: Frame, scaler: Scaler, expected: seq<string>)
    requires Wf(data) && KeepsShape(scaler)
    requires Preprocess(data, scaler, expected).Ok?
    ensures |Preprocess(data, scaler, expected).value.rows| == |Survivors(data, Rows(data))|
  {
    PreparedRows(data, expected);
  }

  /** When the encoded names are distinct, the scaler receives exactly the
      expected columns, in order, on the rows that survive `dropna`, with
      their original labels. */
  lemma PreparedSchema(data: Frame, expected: seq<string>)
    requires Wf(data) && Encoded(data).Ok? && Distinct(Names(Encoded(data).value))
    ensures Prepared(data, expected).Ok?
    ensures var t, ks := Prepared(data, expected).value, Survivors(data, Rows(data));
      && TableWf(t)
      && Names(t) == expected
      && t.index == Pick(data.index, ks)
      && |t.index| == |ks|
  {
    DeriveFeaturesSpec(data);
    DeriveFeaturesRows(data);
    AlignSchema(Encoded(data).value, expected);
  }

  /** With a scaler that keeps the shape, a successful run yields one row per
      surviving input row and one column per expected name. */
  lemma PreprocessShape(data: Frame, scaler: Scaler, expected: seq<string>)
    requires Wf(data) && KeepsShape(scaler)
    requires Encoded(data).Ok? && Distinct(Names(Encoded(data).value))
    requires Preprocess(data, scaler, expected).Ok?
    ensures var m := Preprocess(data, scaler, expected).value;
      |m.rows| == |Survivors(data, Rows(data))| && m.width == |expected|
  {
    PreparedSchema(data, expected);
  }
}

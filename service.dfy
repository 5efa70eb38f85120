/** The `/predict` handler, scripts/app.py:59-83: build a frame from the
    request, preprocess it, score it, and turn each failure into its HTTP
    answer. */
module Service {
  import opened Frames
  import opened Filtering
  import opened Features
  import opened Encoding
  import opened Pipeline

  /** A JSON number as pydantic reads it into a float: a finite value, or NaN,
      which pandas treats as missing. Infinite values are not modelled. */
  datatype Float = Finite(r: real) | NaN

  /** The request body (scripts/models.py:4-13): one list per field. */
  datatype LeadData = LeadData(
    totalVisits: seq<Float>,
    timeOnSite: seq<Float>,
    pageViews: seq<Float>,
    country: seq<string>,
    leadSource: seq<string>,
    lastActivity: seq<string>)

  /** A fitted classifier, known only by its `predict_proba`, which may raise. */
  datatype Classifier = Classifier(predictProba: Array2 -> Result<Array2>)

  /** What the handler answers. */
  datatype Response =
    | Predictions(values: seq<real>)          // {"predictions": [...]}
    | HttpError(status: int, detail: string)  // an HTTPException the handler raises
    | Unhandled(error: Failure)               // an exception raised outside both try blocks

  const PreprocessingError := "Error in preprocessing input data: "
  const ScoringError := "Error in making predictions: "

  /** `str(e)`: a KeyError prints its key in quotes; other messages are kept
      as the model records them. */
  function Describe(e: Failure): string {
    match e
    case KeyError(c) => "'" + c + "'"
    case TypeError(c) => "unsupported operand type(s) for column " + c
    case ValueError(m) => m
    case IndexError(_) => "index 1 is out of bounds for axis 1"
  }

  function FloatCells(xs: seq<Float>): (cs: seq<Value>)
    ensures |cs| == |xs|
    ensures forall i :: 0 <= i < |xs| ==> (cs[i].Missing? <==> xs[i].NaN?) && CellFits(Float64, cs[i])
  {
    seq(|xs|, i requires 0 <= i < |xs| => if xs[i].NaN? then Missing else Num(xs[i].r))
  }

  function TextCells(xs: seq<string>): (cs: seq<Value>)
    ensures |cs| == |xs|
    ensures forall i :: 0 <= i < |xs| ==> cs[i] == Str(xs[i])
  {
    seq(|xs|, i requires 0 <= i < |xs| => Str(xs[i]))
  }

  predicate SameLength(ld: LeadData) {
    var n := |ld.totalVisits|;
    |ld.timeOnSite| == n && |ld.pageViews| == n && |ld.country| == n && |ld.leadSource| == n && |ld.lastActivity| == n
  }

  function Range(n: nat): (ix: seq<int>)
    ensures |ix| == n && forall i :: 0 <= i < n ==> ix[i] == i
  {
    seq(n, i => i)
  }

  /** The six field names differ from one another. */
  lemma FieldNamesDistinct()
    ensures TotalVisits != TimeOnSite && TotalVisits != PageViews && TotalVisits != Country
    ensures TotalVisits != LeadSource && TotalVisits != LastActivity && TimeOnSite != PageViews
    ensures TimeOnSite != Country && TimeOnSite != LeadSource && TimeOnSite != LastActivity
    ensures PageViews != Country && PageViews != LeadSource && PageViews != LastActivity
    ensures Country != LeadSource && Country != LastActivity && LeadSource != LastActivity
  {
    assert TotalVisits[0] != LeadSource[0];
  }

  /** `pd.DataFrame(d)` for a dict d of equally long columns, in key order. */
  function FromColumns(cs: seq<Series>, index: seq<int>): (f: Frame)
  {
    Frame(NamesOf(cs), ColumnMap(cs), index)
  }

  function ColumnMap(cs: seq<Series>): (m: map<string, Series>)
    ensures forall n :: n in m <==> n in NamesOf(cs)
  {
    if cs == [] then map[]
    else
      var init := cs[..|cs| - 1];
      assert NamesOf(cs) == NamesOf(init) + [cs[|cs| - 1].name];
      ColumnMap(init)[cs[|cs| - 1].name := cs[|cs| - 1]]
  }

  lemma {:induction false} ColumnMapAt(cs: seq<Series>, j: nat)
    requires Distinct(NamesOf(cs)) && j < |cs|
    ensures ColumnMap(cs)[cs[j].name] == cs[j]
  {
    var init, last := cs[..|cs| - 1], cs[|cs| - 1];
    if j < |cs| - 1 {
      assert NamesOf(cs)[j] != NamesOf(cs)[|cs| - 1];
      assert NamesOf(init) == NamesOf(cs)[..|cs| - 1];
      ColumnMapAt(init, j);
    }
  }

  /** Distinct names and columns of one length make a well-formed frame
      whose column of each name is the one given. */
  lemma FromColumnsWf(cs: seq<Series>, index: seq<int>)
    requires Distinct(NamesOf(cs))
    requires forall j :: 0 <= j < |cs| ==> SeriesWf(cs[j], |index|)
    ensures Wf(FromColumns(cs, index))
    ensures forall j :: 0 <= j < |cs| ==> FromColumns(cs, index).cols[cs[j].name] == cs[j]
  {
    forall j | 0 <= j < |cs| ensures ColumnMap(cs)[cs[j].name] == cs[j] {
      ColumnMapAt(cs, j);
    }
    forall n | n in ColumnMap(cs) ensures ColumnMap(cs)[n].name == n && SeriesWf(ColumnMap(cs)[n], |index|) {
      var j :| 0 <= j < |cs| && NamesOf(cs)[j] == n;
      ColumnMapAt(cs, j);
    }
  }

  /** The six columns of the request, in declaration order. */
  function RequestColumns(ld: LeadData): (cs: seq<Series>)
  {
    [Series(TotalVisits, Float64, FloatCells(ld.totalVisits)),
     Series(TimeOnSite, Float64, FloatCells(ld.timeOnSite)),
     Series(PageViews, Float64, FloatCells(ld.pageViews)),
     Series(Country, Object, TextCells(ld.country)),
     Series(LeadSource, Object, TextCells(ld.leadSource)),
     Series(LastActivity, Object, TextCells(ld.lastActivity))]
  }

  /** `pd.DataFrame(lead_data.dict())` (lines 70-71): the six fields as
      columns in declaration order, rows labelled 0..n-1; lists of different
      lengths raise ValueError. */
  function ToFrame(ld: LeadData): (r: Result<Frame>)
    ensures r.Ok? <==> SameLength(ld)
    ensures r.Ok? ==> Wf(r.value)
  {
    if !SameLength(ld) then Err(ValueError("All arrays must be of the same length"))
    else
      RequestColumnsWf(ld);
      Ok(FromColumns(RequestColumns(ld), Range(|ld.totalVisits|)))
  }

  lemma RequestColumnsWf(ld: LeadData)
    requires SameLength(ld)
    ensures Wf(FromColumns(RequestColumns(ld), Range(|ld.totalVisits|)))
    ensures forall j :: 0 <= j < 6 ==>
      FromColumns(RequestColumns(ld), Range(|ld.totalVisits|)).cols[RequestColumns(ld)[j].name] == RequestColumns(ld)[j]
  {
    var cs, n := RequestColumns(ld), |ld.totalVisits|;
    FieldNamesDistinct();
    assert NamesOf(cs) == [TotalVisits, TimeOnSite, PageViews, Country, LeadSource, LastActivity];
    forall j | 0 <= j < |cs| ensures SeriesWf(cs[j], n) {
    }
    FromColumnsWf(cs, Range(n));
  }

  /** The request frame is well formed, carries every column lines 31-38
      need with the dtype they need, and holds the request's values. */
  lemma ToFrameSpec(ld: LeadData)
    requires SameLength(ld)
    ensures var f := ToFrame(ld).value;
      && Wf(f) && Ready(f) && Rows(f) == |ld.totalVisits|
      && f.cols[TotalVisits].cells == FloatCells(ld.totalVisits)
      && f.cols[TimeOnSite].cells == FloatCells(ld.timeOnSite)
      && f.cols[PageViews].cells == FloatCells(ld.pageViews)
      && f.cols[Country].cells == TextCells(ld.country)
      && f.cols[LeadSource].cells == TextCells(ld.leadSource)
      && f.cols[LastActivity].cells == TextCells(ld.lastActivity)
      && f.names == [TotalVisits, TimeOnSite, PageViews, Country, LeadSource, LastActivity]
      && f.index == Range(|ld.totalVisits|)
      && f.cols[TotalVisits].kind == Float64 && f.cols[TimeOnSite].kind == Float64
      && f.cols[PageViews].kind == Float64 && f.cols[Country].kind == Object
  {
    var cs := RequestColumns(ld);
    RequestColumnsWf(ld);
    var f := ToFrame(ld).value;
    assert f.cols[cs[0].name] == cs[0] && f.cols[cs[1].name] == cs[1] && f.cols[cs[2].name] == cs[2];
    assert f.cols[cs[3].name] == cs[3] && f.cols[cs[4].name] == cs[4] && f.cols[cs[5].name] == cs[5];
  }

  /** `[:, 1]`: the second column, IndexError when there is none. */
  function PositiveColumn(m: Array2): (r: Result<seq<real>>)
    ensures r.Ok? <==> m.width >= 2
    ensures r.Ok? ==> |r.value| == |m.rows| && forall i :: 0 <= i < |m.rows| ==> r.value[i] == m.rows[i][1]
  {
    if m.width < 2 then Err(IndexError(1))
    else Ok(seq(|m.rows|, i requires 0 <= i < |m.rows| => m.rows[i][1]))
  }

  /** Line 79: the second column of `predict_proba`, one value per row of
      the probabilities; it fails when `predict_proba` raises or gives fewer
      than two columns. */
  function Score(model: Classifier, x: Array2): (r: Result<seq<real>>)
    ensures r.Ok? <==> model.predictProba(x).Ok? && model.predictProba(x).value.width >= 2
    ensures r.Ok? ==> var p := model.predictProba(x).value;
      |r.value| == |p.rows| && forall i :: 0 <= i < |p.rows| ==> r.value[i] == p.rows[i][1]
  {
    var proba :- model.predictProba(x);
    PositiveColumn(proba)
  }

  /** The two try blocks of lines 73-83: a preprocessing failure is a 400,
      a scoring failure a 500. */
  function Answer(x: Result<Array2>, model: Classifier): (r: Response)
    ensures r.HttpError? && r.status == 400 <==> x.Err?
    ensures x.Ok? ==> var proba := model.predictProba(x.value);
      && (r.HttpError? && r.status == 500 <==> proba.Err? || proba.value.width < 2)
      && (r.Predictions? ==>
            && proba.Ok?
            && |r.values| == |proba.value.rows|
            && forall i :: 0 <= i < |r.values| ==> r.values[i] == proba.value.rows[i][1])
    ensures r.HttpError? ==>
      (r.status == 400 && PreprocessingError <= r.detail) || (r.status == 500 && ScoringError <= r.detail)
    ensures !r.Unhandled?
  {
    match x
    case Err(e) => HttpError(400, PreprocessingError + Describe(e))
    case Ok(x) =>
      match Score(model, x)
      case Err(e) => HttpError(500, ScoringError + Describe(e))
      case Ok(p) => Predictions(p)
  }

  /** `predict` (lines 59-83): building the frame (line 71) is outside both
      try blocks. */
  function Predict(ld: LeadData, scaler: Scaler, model: Classifier, expected: seq<string>): (r: Response)
    ensures r.Unhandled? <==> !SameLength(ld)
    ensures r.Unhandled? ==> r.error.ValueError?
    ensures r.HttpError? ==>
      (r.status == 400 && PreprocessingError <= r.detail) || (r.status == 500 && ScoringError <= r.detail)
  {
    match ToFrame(ld)
    case Err(e) => Unhandled(e)
    case Ok(input) => Answer(Preprocess(input, scaler, expected), model)
  }

  // ---------------------------------------------------------------------
  // What the handler promises.

  /** A request row survives `dropna` exactly when none of its three numeric
      fields is NaN; the text fields are never missing. */
  lemma RowSurvives(ld: LeadData, i: nat)
    requires SameLength(ld) && i < |ld.totalVisits|
    ensures RowComplete(ToFrame(ld).value, i) <==>
      ld.totalVisits[i].Finite? && ld.timeOnSite[i].Finite? && ld.pageViews[i].Finite?
  {
    var cs, f := RequestColumns(ld), ToFrame(ld).value;
    RequestColumnsWf(ld);
    assert f.cols[cs[0].name] == cs[0] && f.cols[cs[1].name] == cs[1] && f.cols[cs[2].name] == cs[2];
    assert f.cols[cs[3].name] == cs[3] && f.cols[cs[4].name] == cs[4] && f.cols[cs[5].name] == cs[5];
    if ld.totalVisits[i].Finite? && ld.timeOnSite[i].Finite? && ld.pageViews[i].Finite? {
      forall n | n in f.cols && i < |f.cols[n].cells| ensures !f.cols[n].cells[i].Missing? {
        var j :| 0 <= j < 6 && NamesOf(cs)[j] == n;
        assert f.cols[n] == cs[j];
      }
    }
  }

  /** On an equal-length request preprocessing cannot raise before the
      scaler, because the request frame has every column lines 31-38 read,
      with the right dtypes; so a 400 means the scaler raised, and the
      answer is the scaler's output scored. */
  lemma PredictOutcomes(ld: LeadData, scaler: Scaler, model: Classifier, expected: seq<string>)
    requires SameLength(ld)
    ensures Prepared(ToFrame(ld).value, expected).Ok?
    ensures Prepared(ToFrame(ld).value, expected).Ok? ==>
      var r, x := Predict(ld, scaler, model, expected), scaler.transform(Prepared(ToFrame(ld).value, expected).value);
      && r == Answer(x, model)
      && (r.HttpError? && r.status == 400 <==> x.Err?)
  {
    var input := ToFrame(ld).value;
    ToFrameSpec(ld);
    PreprocessFails(input, scaler, expected);
  }

  /** A one-row-per-input classifier. */
  ghost predicate KeepsRows(model: Classifier) {
    forall x :: model.predictProba(x).Ok? ==> |model.predictProba(x).value.rows| == |x.rows|
  }

  /** With a scaler and a classifier that keep the number of rows, every
      successful request yields one prediction per row whose numeric fields
      are all present, whatever the encoded column names. */
  lemma PredictCount(ld: LeadData, scaler: Scaler, model: Classifier, expected: seq<string>)
    requires SameLength(ld) && KeepsShape(scaler) && KeepsRows(model)
    requires Predict(ld, scaler, model, expected).Predictions?
    ensures var input := ToFrame(ld).value;
      |Predict(ld, scaler, model, expected).values| == |Survivors(input, Rows(input))|
  {
    var input := ToFrame(ld).value;
    assert ToFrame(ld) == Ok(input);
    var x := Preprocess(input, scaler, expected);
    assert x.Ok?;
    PreprocessRows(input, scaler, expected);
  }

  // ---------------------------------------------------------------------
  // When the encoded names of a request are distinct.

  /** The columns of the derived request frame that get_dummies passes
      through, and those it encodes. */
  const PlainFields: set<string> := {TotalVisits, TimeOnSite, PageViews, Interaction, HighTime, CountryAvg}
  const TextFields: set<string> := {Country, LeadSource, LastActivity, SourceActivity}

  /** The indicator names of two different text fields differ: their
      prefixes already do. */
  lemma TextFieldsApart(n1: string, n2: string, a: string, b: string)
    requires n1 in TextFields && n2 in TextFields && n1 != n2
    ensures n1 + "_" + a != n2 + "_" + b
  {
    var p, q := n1 + "_", n2 + "_";
    assert p[0] == n1[0] && q[0] == n2[0] && p[1] == n1[1] && q[1] == n2[1];
    if n1[0] != n2[0] {
      PrefixDiffers(p, q, a, b, 0);
    } else {
      PrefixDiffers(p, q, a, b, 1);
    }
  }

  /** A passed-through name is no indicator name, except Country_Visits_Avg
      for the Country level Visits_Avg. */
  lemma PlainTextApart(m: string, n: string, a: string)
    requires m in PlainFields && n in TextFields
    requires n == Country ==> a != "Visits_Avg"
    ensures m != n + "_" + a
  {
    var p := n + "_";
    assert p[0] == n[0];
    if m == CountryAvg && n == Country {
      assert CountryAvg == p + "Visits_Avg";
      if m == p + a {
        PrefixCancel(p, "Visits_Avg", a);
      }
    } else {
      assert m[0] != n[0];
      assert (p + a)[0] == p[0];
    }
  }

  /** The text fields of a frame derived from the six request fields are
      exactly those of TextFields. */
  lemma DerivedFieldKinds(data: Frame, g: Frame)
    requires Wf(data) && Ready(data) && data.cols[Country].kind == Object
    requires forall n :: n in data.cols ==> n in PlainFields || n in TextFields
    requires DerivedFrom(data, g)
    ensures Wf(g)
    ensures forall n :: n in g.cols ==> n in PlainFields || n in TextFields
    ensures forall n :: n in g.cols ==> (g.cols[n].kind == Object <==> n in TextFields)
  {
    forall n | n in g.cols
      ensures (n in PlainFields || n in TextFields) && (g.cols[n].kind == Object <==> n in TextFields)
    {
      if !IsDerivedName(n) {
        InputColumn(data, g, n);
      }
    }
  }

  /** The Country levels of a derived frame are those of the input. */
  lemma DerivedCountryLevels(data: Frame, g: Frame)
    requires Wf(data) && Ready(data) && KeepsInputs(data, g)
    ensures Country in g.cols
    ensures forall v :: v in g.cols[Country].cells ==> v in data.cols[Country].cells
  {
    var ks := Survivors(data, Rows(data));
    InputColumn(data, g, Country);
    forall v | v in g.cols[Country].cells ensures v in data.cols[Country].cells {
      var k :| 0 <= k < |g.cols[Country].cells| && g.cols[Country].cells[k] == v;
      assert v == data.cols[Country].cells[ks[k]];
    }
  }

  /** No two fields of a frame shaped like a derived request encode to the
      same name, as long as Visits_Avg is no Country level. */
  lemma FieldsNoClash(g: Frame)
    requires Wf(g)
    requires forall n :: n in g.cols ==> n in PlainFields || n in TextFields
    requires forall n :: n in g.cols ==> (g.cols[n].kind == Object <==> n in TextFields)
    requires Country in g.cols ==> Str("Visits_Avg") !in g.cols[Country].cells
    ensures NoClash(g, g.names)
  {
    forall n1, n2, c1, c2 | n1 in g.names && n2 in g.names && n1 != n2 && FromField(g, n1, c1) && FromField(g, n2, c2)
      ensures c1.name != c2.name
    {
      FromFieldName(g, n1, c1);
      FromFieldName(g, n2, c2);
      if g.cols[n1].kind == Object && g.cols[n2].kind == Object {
        var a :| Str(a) in g.cols[n1].cells && c1.name == n1 + "_" + a;
        var b :| Str(b) in g.cols[n2].cells && c2.name == n2 + "_" + b;
        TextFieldsApart(n1, n2, a, b);
      } else if g.cols[n1].kind == Object {
        var a :| Str(a) in g.cols[n1].cells && c1.name == n1 + "_" + a;
        PlainTextApart(n2, n1, a);
      } else if g.cols[n2].kind == Object {
        var b :| Str(b) in g.cols[n2].cells && c2.name == n2 + "_" + b;
        PlainTextApart(n1, n2, b);
      }
    }
  }

  /** Prospect_ID is none of the derived request fields. */
  lemma IdNotAField()
    ensures ProspectId !in PlainFields && ProspectId !in TextFields
  {
    assert ProspectId[0] == 'P' && ProspectId[1] == 'r';
    assert PageViews[1] == 'a';
    assert TotalVisits[0] == 'T' && TimeOnSite[0] == 'T' && Interaction[0] == 'V' && HighTime[0] == 'H';
    assert CountryAvg[0] == 'C' && Country[0] == 'C' && LeadSource[0] == 'L' && LastActivity[0] == 'L';
    assert SourceActivity[0] == 'S';
  }

  /** A frame shaped like a derived request, without the Country value
      Visits_Avg, encodes to distinct names. */
  lemma FieldsEncodeDistinct(g: Frame)
    requires Wf(g)
    requires forall n :: n in g.cols ==> n in PlainFields || n in TextFields
    requires forall n :: n in g.cols ==> (g.cols[n].kind == Object <==> n in TextFields)
    requires Country in g.cols ==> Str("Visits_Avg") !in g.cols[Country].cells
    ensures Distinct(Names(Encode(g)))
  {
    FieldsNoClash(g);
    IdNotAField();
    assert DropId(g) == g;
    GetDummiesDistinct(g);
  }

  /** A frame with only the request fields, numeric and text as the request
      types them, and without the Country value Visits_Avg, encodes to
      distinct names. */
  lemma EncodedNamesDistinct(data: Frame)
    requires Wf(data) && Ready(data) && data.cols[Country].kind == Object
    requires forall n :: n in data.cols ==> n in PlainFields || n in TextFields
    requires Str("Visits_Avg") !in data.cols[Country].cells
    ensures Encoded(data).Ok? && Distinct(Names(Encoded(data).value))
  {
    DeriveFeaturesSpec(data);
    var g := DeriveFeatures(data).value;
    assert Encoded(data) == Ok(Encode(g));
    DerivedFieldKinds(data, g);
    DerivedCountryLevels(data, g);
    FieldsEncodeDistinct(g);
  }

  /** For a request without the Country value Visits_Avg, the encoded column
      names are distinct, so the schema lemmas of the pipeline apply. */
  lemma RequestEncodedDistinct(ld: LeadData)
    requires SameLength(ld) && "Visits_Avg" !in ld.country
    ensures Encoded(ToFrame(ld).value).Ok?
    ensures Distinct(Names(Encoded(ToFrame(ld).value).value))
  {
    var input := ToFrame(ld).value;
    ToFrameSpec(ld);
    forall n | n in input.cols ensures n in PlainFields || n in TextFields {
      assert n in input.names;
    }
    EncodedNamesDistinct(input);
  }

  // ---------------------------------------------------------------------
  // When they are not.

  /** Two different columns of one name make the names of a table repeat. */
  lemma TwoOfAName(t: Table, c1: Series, c2: Series)
    requires c1 in t.columns && c2 in t.columns && c1 != c2 && c1.name == c2.name
    ensures !Distinct(Names(t))
  {
    var x :| 0 <= x < |t.columns| && t.columns[x] == c1;
    var y :| 0 <= y < |t.columns| && t.columns[y] == c2;
    assert Names(t)[x] == Names(t)[y];
    if x < y {
      assert !(Names(t)[x] != Names(t)[y]);
    }
  }

  /** A string column holding Visits_Avg and some smaller level keeps the
      indicator `<name>_Visits_Avg`: `drop_first` drops only the least. */
  lemma KeptIndicator(s: Series, a: string) returns (c: Series)
    requires Str(a) in s.cells && Str("Visits_Avg") in s.cells && Less(a, "Visits_Avg")
    ensures c in Dummies(s) && c.name == s.name + "_" + "Visits_Avg" && c.kind == Bool
  {
    var ls, ds := Levels(s.cells), Dummies(s);
    DummiesSpec(s);
    var p :| 0 <= p < |ls| && ls[p] == "Visits_Avg";
    var q :| 0 <= q < |ls| && ls[q] == a;
    if p == 0 {
      LessIrreflexive(a);
      assert q != 0;
      LessTransitive(a, "Visits_Avg", a);
      assert false;
    }
    c := ds[p - 1];
  }

  /** A frame with a float Country_Visits_Avg column and a Country level
      Visits_Avg above some other level encodes to two columns named
      Country_Visits_Avg: the derived one, and the indicator `drop_first`
      keeps. */
  lemma IndicatorClash(g: Frame, a: string)
    requires Wf(g) && CountryAvg in g.cols && g.cols[CountryAvg].kind == Float64
    requires Country in g.cols && g.cols[Country].kind == Object
    requires Str(a) in g.cols[Country].cells && Str("Visits_Avg") in g.cols[Country].cells
    requires Less(a, "Visits_Avg")
    ensures !Distinct(Names(GetDummies(g)))
  {
    var c1 := g.cols[CountryAvg];
    var c2 := KeptIndicator(g.cols[Country], a);
    assert FromField(g, Country, c2) && FromField(g, CountryAvg, c1);
    assert c1.name == CountryAvg == c2.name && c1 != c2;
    GetDummiesSpec(g);
    TwoOfAName(GetDummies(g), c1, c2);
  }

  /** The encoding of such a frame, once Prospect_ID is known to be absent. */
  lemma FieldsEncodeClash(g: Frame, a: string)
    requires Wf(g) && forall n :: n in g.cols ==> n in PlainFields || n in TextFields
    requires CountryAvg in g.cols && g.cols[CountryAvg].kind == Float64
    requires Country in g.cols && g.cols[Country].kind == Object
    requires Str(a) in g.cols[Country].cells && Str("Visits_Avg") in g.cols[Country].cells
    requires Less(a, "Visits_Avg")
    ensures !Distinct(Names(Encode(g)))
  {
    IdNotAField();
    assert DropId(g) == g;
    IndicatorClash(g, a);
  }

  /** The Country value of a complete row is still there after `dropna`. */
  lemma SurvivingCountry(data: Frame, g: Frame, i: nat)
    requires Wf(data) && Ready(data) && KeepsInputs(data, g)
    requires i < Rows(data) && RowComplete(data, i)
    ensures Country in g.cols && data.cols[Country].cells[i] in g.cols[Country].cells
  {
    var ks := Survivors(data, Rows(data));
    SurvivorsExactly(data, Rows(data), i);
    var k :| 0 <= k < |ks| && ks[k] == i;
    InputColumn(data, g, Country);
    assert g.cols[Country].cells[k] == data.cols[Country].cells[i];
  }

  /** A frame derived from the request fields, with complete rows holding
      Visits_Avg and a smaller Country value, encodes to a repeated name. */
  lemma DerivedNamesClash(data: Frame, g: Frame, i: nat, j: nat, a: string)
    requires Wf(data) && Ready(data) && data.cols[Country].kind == Object
    requires forall n :: n in data.cols ==> n in PlainFields || n in TextFields
    requires i < Rows(data) && RowComplete(data, i) && data.cols[Country].cells[i] == Str(a)
    requires j < Rows(data) && RowComplete(data, j) && data.cols[Country].cells[j] == Str("Visits_Avg")
    requires Less(a, "Visits_Avg")
    requires DerivedFrom(data, g)
    ensures Wf(g) && !Distinct(Names(Encode(g)))
  {
    DerivedFieldKinds(data, g);
    SurvivingCountry(data, g, i);
    SurvivingCountry(data, g, j);
    InputColumn(data, g, Country);
    FieldsEncodeClash(g, a);
  }

  /** A frame of the request fields with complete rows holding Visits_Avg
      and a smaller Country value encodes to a repeated name. */
  lemma EncodedNamesClash(data: Frame, i: nat, j: nat, a: string)
    requires Wf(data) && Ready(data) && data.cols[Country].kind == Object
    requires forall n :: n in data.cols ==> n in PlainFields || n in TextFields
    requires i < Rows(data) && RowComplete(data, i) && data.cols[Country].cells[i] == Str(a)
    requires j < Rows(data) && RowComplete(data, j) && data.cols[Country].cells[j] == Str("Visits_Avg")
    requires Less(a, "Visits_Avg")
    ensures Encoded(data).Ok? && !Distinct(Names(Encoded(data).value))
  {
    DeriveFeaturesSpec(data);
    var g := DeriveFeatures(data).value;
    assert Encoded(data) == Ok(Encode(g));
    DerivedNamesClash(data, g, i, j, a);
  }

  /** The converse of RequestEncodedDistinct: an equal-length request with a
      complete row whose Country is Visits_Avg and another whose Country is
      smaller encodes Country_Visits_Avg twice. */
  lemma RequestEncodedClash(ld: LeadData, i: nat, j: nat)
    requires SameLength(ld) && i < |ld.totalVisits| && j < |ld.totalVisits|
    requires ld.totalVisits[i].Finite? && ld.timeOnSite[i].Finite? && ld.pageViews[i].Finite?
    requires ld.totalVisits[j].Finite? && ld.timeOnSite[j].Finite? && ld.pageViews[j].Finite?
    requires ld.country[j] == "Visits_Avg" && Less(ld.country[i], "Visits_Avg")
    ensures Encoded(ToFrame(ld).value).Ok?
    ensures !Distinct(Names(Encoded(ToFrame(ld).value).value))
  {
    var input := ToFrame(ld).value;
    ToFrameSpec(ld);
    RowSurvives(ld, i);
    RowSurvives(ld, j);
    forall n | n in input.cols ensures n in PlainFields || n in TextFields {
      assert n in input.names;
    }
    EncodedNamesClash(input, i, j, ld.country[i]);
  }

  /** A two-row request with the Country values A and Visits_Avg. */
  lemma TwoRowRequestClash()
    ensures var ld := LeadData([Finite(1.0), Finite(2.0)], [Finite(10.0), Finite(20.0)], [Finite(1.0), Finite(1.0)],
                               ["A", "Visits_Avg"], ["Google", "Google"], ["Email", "Email"]);
      Encoded(ToFrame(ld).value).Ok? && !Distinct(Names(Encoded(ToFrame(ld).value).value))
  {
    var ld := LeadData([Finite(1.0), Finite(2.0)], [Finite(10.0), Finite(20.0)], [Finite(1.0), Finite(1.0)],
                       ["A", "Visits_Avg"], ["Google", "Google"], ["Email", "Email"]);
    assert "A"[0] < "Visits_Avg"[0];
    RequestEncodedClash(ld, 0, 1);
  }
}

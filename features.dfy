/** The derived features of scripts/app.py:29-40, computed on the rows that
    survive `dropna` and assigned into the frame one column at a time. */
module Features {
  import opened Frames
  import opened Filtering

  // Input fields (scripts/models.py:8-13).
  const TotalVisits := "TotalVisits"
  const TimeOnSite := "Total_Time_Spent_on_Website"
  const PageViews := "Page_Views_Per_Visit"
  const Country := "Country"
  const LeadSource := "Lead_Source"
  const LastActivity := "Last_Activity"

  // Derived fields.
  const Interaction := "Visits_PageViews_Interaction"
  const HighTime := "High_Time_Spent"
  const CountryAvg := "Country_Visits_Avg"
  const SourceActivity := "Source_Activity"

  /** The threshold of the High_Time_Spent indicator, in seconds on the site. */
  const HighTimeThreshold: real := 1000.0

  /** The number in a cell of a complete numeric column. */
  function AsReal(v: Value): real {
    if v.Num? then v.r else 0.0
  }

  /** The string in a cell of a complete object column. */
  function AsText(v: Value): string {
    if v.Str? then v.s else ""
  }

  // ---------------------------------------------------------------------
  // Group mean (scripts/app.py:35): `groupby(key)[value].transform('mean')`.

  /** How many rows carry the key. */
  function GroupCount(keys: seq<Value>, key: Value): (c: nat)
    ensures c <= |keys|
    ensures key in keys ==> c > 0
  {
    if keys == [] then 0 else (if keys[0] == key then 1 else 0) + GroupCount(keys[1..], key)
  }

  /** The sum of the values of the rows that carry the key. */
  function GroupSum(keys: seq<Value>, vals: seq<real>, key: Value): real
    requires |keys| == |vals|
  {
    if keys == [] then 0.0 else (if keys[0] == key then vals[0] else 0.0) + GroupSum(keys[1..], vals[1..], key)
  }

  function GroupMean(keys: seq<Value>, vals: seq<real>, key: Value): real
    requires |keys| == |vals| && key in keys
  {
    GroupSum(keys, vals, key) / GroupCount(keys, key) as real
  }

  /** The mean broadcast back to every row of its group. */
  function Transform(keys: seq<Value>, vals: seq<real>): (r: seq<real>)
    requires |keys| == |vals|
    ensures |r| == |keys|
    ensures forall i, j :: 0 <= i < |keys| && 0 <= j < |keys| && keys[i] == keys[j] ==> r[i] == r[j]
  {
    seq(|keys|, i requires 0 <= i < |keys| => GroupMean(keys, vals, keys[i]))
  }

  /** n * m as repeated addition, which keeps the group-sum proofs linear. */
  function Times(n: nat, m: real): real {
    if n == 0 then 0.0 else Times(n - 1, m) + m
  }

  lemma {:induction false} TimesIsProduct(n: nat, m: real)
    ensures Times(n, m) == n as real * m
  {
    if n > 0 {
      TimesIsProduct(n - 1, m);
    }
  }

  lemma {:induction false} GroupSumAbove(keys: seq<Value>, vals: seq<real>, key: Value, m: real)
    requires |keys| == |vals|
    requires forall i :: 0 <= i < |keys| && keys[i] == key ==> vals[i] > m
    ensures key in keys ==> GroupSum(keys, vals, key) > Times(GroupCount(keys, key), m)
    ensures GroupSum(keys, vals, key) >= Times(GroupCount(keys, key), m)
  {
    if keys != [] {
      GroupSumAbove(keys[1..], vals[1..], key, m);
      assert vals[0] > m || keys[0] != key;
    }
  }

  lemma {:induction false} GroupSumBelow(keys: seq<Value>, vals: seq<real>, key: Value, m: real)
    requires |keys| == |vals|
    requires forall i :: 0 <= i < |keys| && keys[i] == key ==> vals[i] < m
    ensures key in keys ==> GroupSum(keys, vals, key) < Times(GroupCount(keys, key), m)
    ensures GroupSum(keys, vals, key) <= Times(GroupCount(keys, key), m)
  {
    if keys != [] {
      GroupSumBelow(keys[1..], vals[1..], key, m);
      assert vals[0] < m || keys[0] != key;
    }
  }

  /** A group's mean lies between the smallest and the largest value of the
      group: some member is at or below it and some member at or above it. */
  lemma GroupMeanWithinGroup(keys: seq<Value>, vals: seq<real>, key: Value)
    requires |keys| == |vals| && key in keys
    ensures exists i :: 0 <= i < |keys| && keys[i] == key && vals[i] <= GroupMean(keys, vals, key)
    ensures exists i :: 0 <= i < |keys| && keys[i] == key && vals[i] >= GroupMean(keys, vals, key)
  {
    var mean, c, s := GroupMean(keys, vals, key), GroupCount(keys, key) as real, GroupSum(keys, vals, key);
    assert c * mean == s;
    TimesIsProduct(GroupCount(keys, key), mean);
    if !exists i :: 0 <= i < |keys| && keys[i] == key && vals[i] <= mean {
      GroupSumAbove(keys, vals, key, mean);
      assert false;
    }
    if !exists i :: 0 <= i < |keys| && keys[i] == key && vals[i] >= mean {
      GroupSumBelow(keys, vals, key, mean);
      assert false;
    }
  }

  // ---------------------------------------------------------------------
  // The four derived columns, each read from the frame as it stands.

  /** The row-wise product of two complete numeric columns. */
  function Product(a: seq<Value>, b: seq<Value>): (r: seq<Value>)
    requires |a| == |b|
    ensures |r| == |a|
    ensures forall i :: 0 <= i < |a| ==> r[i] == Num(AsReal(a[i]) * AsReal(b[i]))
  {
    var r := seq(|a|, i requires 0 <= i < |a| => Num(AsReal(a[i]) * AsReal(b[i])));
    assert forall i :: 0 <= i < |a| ==> r[i] == Num(AsReal(a[i]) * AsReal(b[i]));
    r
  }

  /** scripts/app.py:31: the product of visits and page views per visit. */
  function InteractionColumn(f: Frame): (r: Result<Series>)
    requires Wf(f)
    ensures r.Ok? ==> SeriesWf(r.value, Rows(f)) && r.value.name == Interaction
  {
    var tv :- Lookup(f, TotalVisits);
    var pv :- Lookup(f, PageViews);
    if tv.kind == Object then Err(TypeError(TotalVisits))
    else if pv.kind == Object then Err(TypeError(PageViews))
    else Ok(Series(Interaction, Float64, Product(tv.cells, pv.cells)))
  }

  /** 1 where the time is strictly above the threshold, 0 elsewhere. */
  function AboveThreshold(t: seq<Value>): (r: seq<Value>)
    ensures |r| == |t|
    ensures forall i :: 0 <= i < |t| ==> r[i] == if AsReal(t[i]) > HighTimeThreshold then Num(1.0) else Num(0.0)
  {
    seq(|t|, i requires 0 <= i < |t| => if AsReal(t[i]) > HighTimeThreshold then Num(1.0) else Num(0.0))
  }

  /** The numbers of a complete numeric column. */
  function Reals(cells: seq<Value>): (vs: seq<real>)
    ensures |vs| == |cells|
    ensures forall i :: 0 <= i < |cells| ==> vs[i] == AsReal(cells[i])
  {
    seq(|cells|, i requires 0 <= i < |cells| => AsReal(cells[i]))
  }

  /** Each row's group mean of vals over the rows with the same key. */
  function GroupMeans(keys: seq<Value>, vals: seq<Value>): (r: seq<Value>)
    requires |keys| == |vals|
    ensures |r| == |keys|
    ensures forall i :: 0 <= i < |keys| ==> r[i] == Num(GroupMean(keys, Reals(vals), keys[i]))
  {
    var means := Transform(keys, Reals(vals));
    seq(|keys|, i requires 0 <= i < |keys| => Num(means[i]))
  }

  /** The row-wise concatenation `a + "_" + b`. */
  function Joined(a: seq<Value>, b: seq<Value>): (r: seq<Value>)
    requires |a| == |b|
    ensures |r| == |a|
    ensures forall i :: 0 <= i < |a| ==> r[i] == Str(AsText(a[i]) + "_" + AsText(b[i]))
  {
    seq(|a|, i requires 0 <= i < |a| => Str(AsText(a[i]) + "_" + AsText(b[i])))
  }

  /** scripts/app.py:33: a bool column, true when the time on the site is
      strictly above the threshold. */
  function HighTimeColumn(f: Frame): (r: Result<Series>)
    requires Wf(f)
    ensures r.Ok? ==> SeriesWf(r.value, Rows(f)) && r.value.name == HighTime && r.value.kind == Bool
  {
    var t :- Lookup(f, TimeOnSite);
    if t.kind == Object then Err(TypeError(TimeOnSite))
    else Ok(Series(HighTime, Bool, AboveThreshold(t.cells)))
  }

  /** scripts/app.py:35-36: the mean of TotalVisits over the rows of the same
      Country. */
  function CountryAvgColumn(f: Frame): (r: Result<Series>)
    requires Wf(f)
    ensures r.Ok? ==> SeriesWf(r.value, Rows(f)) && r.value.name == CountryAvg
  {
    var key :- Lookup(f, Country);
    var tv :- Lookup(f, TotalVisits);
    if tv.kind == Object then Err(TypeError(TotalVisits))
    else Ok(Series(CountryAvg, Float64, GroupMeans(key.cells, tv.cells)))
  }

  /** scripts/app.py:38: `Lead_Source + "_" + Last_Activity`. */
  function SourceActivityColumn(f: Frame): (r: Result<Series>)
    requires Wf(f)
    ensures r.Ok? ==> SeriesWf(r.value, Rows(f)) && r.value.name == SourceActivity
  {
    var ls :- Lookup(f, LeadSource);
    if ls.kind != Object then Err(TypeError(LeadSource))
    else
      var la :- Lookup(f, LastActivity);
      if la.kind != Object then Err(TypeError(LastActivity))
      else Ok(Series(SourceActivity, Object, Joined(ls.cells, la.cells)))
  }

  /** scripts/app.py:40: `astype(int)` on the 0/1 indicator. */
  function AsInt(s: Series): (r: Series)
    requires s.kind == Bool
    ensures r.name == s.name && r.kind == Int64 && r.cells == s.cells
    ensures forall n: nat :: SeriesWf(s, n) ==> SeriesWf(r, n)
  {
    Series(s.name, Int64, s.cells)
  }

  /** The assignment of line 31 as a step on the frame: it adds or replaces
      only Visits_PageViews_Interaction, or raises on a missing or
      non-numeric operand. */
  function AddInteraction(f: Frame): (r: Result<Frame>)
    requires Wf(f)
    ensures r.Ok? ==> Wf(r.value) && r.value.index == f.index && Interaction in r.value.cols
    ensures r.Ok? ==> forall n :: n != Interaction ==> Lookup(r.value, n) == Lookup(f, n)
    ensures r.Err? ==> r.error in {KeyError(TotalVisits), KeyError(PageViews), TypeError(TotalVisits), TypeError(PageViews)}
  {
    var c :- InteractionColumn(f);
    Ok(Assign(f, c))
  }

  /** The assignment of line 33: only High_Time_Spent changes, to a bool
      column. */
  function AddHighTime(f: Frame): (r: Result<Frame>)
    requires Wf(f)
    ensures r.Ok? ==> Wf(r.value) && r.value.index == f.index
    ensures r.Ok? ==> HighTime in r.value.cols && r.value.cols[HighTime].kind == Bool
    ensures r.Ok? ==> forall n :: n != HighTime ==> Lookup(r.value, n) == Lookup(f, n)
    ensures r.Err? ==> r.error in {KeyError(TimeOnSite), TypeError(TimeOnSite)}
  {
    var c :- HighTimeColumn(f);
    Ok(Assign(f, c))
  }

  /** The assignment of lines 35-36: only Country_Visits_Avg changes. */
  function AddCountryAvg(f: Frame): (r: Result<Frame>)
    requires Wf(f)
    ensures r.Ok? ==> Wf(r.value) && r.value.index == f.index && CountryAvg in r.value.cols
    ensures r.Ok? ==> forall n :: n != CountryAvg ==> Lookup(r.value, n) == Lookup(f, n)
    ensures r.Err? ==> r.error in {KeyError(Country), KeyError(TotalVisits), TypeError(TotalVisits)}
  {
    var c :- CountryAvgColumn(f);
    Ok(Assign(f, c))
  }

  /** The assignment of line 38: only Source_Activity changes. */
  function AddSourceActivity(f: Frame): (r: Result<Frame>)
    requires Wf(f)
    ensures r.Ok? ==> Wf(r.value) && r.value.index == f.index && SourceActivity in r.value.cols
    ensures r.Ok? ==> forall n :: n != SourceActivity ==> Lookup(r.value, n) == Lookup(f, n)
    ensures r.Err? ==> r.error in {KeyError(LeadSource), KeyError(LastActivity), TypeError(LeadSource), TypeError(LastActivity)}
  {
    var c :- SourceActivityColumn(f);
    Ok(Assign(f, c))
  }

  /** The reassignment of line 40. The column read back is the bool column of
      line 33 (lines 35-38 assign other names), so after the steps above the
      TypeError branch is never taken. */
  function CastHighTime(f: Frame): (r: Result<Frame>)
    requires Wf(f)
    ensures r.Ok? <==> HighTime in f.cols && f.cols[HighTime].kind == Bool
    ensures r.Ok? ==> Wf(r.value) && r.value.index == f.index
    ensures r.Ok? ==> HighTime in f.cols && Lookup(r.value, HighTime) == Ok(Series(HighTime, Int64, f.cols[HighTime].cells))
    ensures r.Ok? ==> forall n :: n != HighTime ==> Lookup(r.value, n) == Lookup(f, n)
  {
    var flag :- Lookup(f, HighTime);
    if flag.kind != Bool then Err(TypeError(HighTime))
    else Ok(Assign(f, AsInt(flag)))
  }

  /** scripts/app.py:29-40: drop incomplete rows, then assign the derived
      columns in the order the source does. */
  function DeriveFeatures(data: Frame): (r: Result<Frame>)
    requires Wf(data)
    ensures r.Ok? ==> Wf(r.value) && r.value.index == Pick(data.index, Survivors(data, Rows(data)))
    ensures r.Ok? ==> forall n :: n in data.cols ==> n in r.value.cols
  {
    var d1 :- AddInteraction(DropNa(data));
    var d2 :- AddHighTime(d1);
    var d3 :- AddCountryAvg(d2);
    var d4 :- AddSourceActivity(d3);
    CastHighTime(d4)
  }

  // ---------------------------------------------------------------------
  // What the derived columns hold, in terms of the input frame.

  /** The input columns lines 31-38 read exist, with a dtype the operation
      accepts: numbers for the arithmetic and the comparison, strings for the
      concatenation; Country may have any dtype. */
  predicate Ready(data: Frame) {
    && TotalVisits in data.cols && data.cols[TotalVisits].kind != Object
    && PageViews in data.cols && data.cols[PageViews].kind != Object
    && TimeOnSite in data.cols && data.cols[TimeOnSite].kind != Object
    && Country in data.cols
    && LeadSource in data.cols && data.cols[LeadSource].kind == Object
    && LastActivity in data.cols && data.cols[LastActivity].kind == Object
  }

  predicate IsDerivedName(name: string) {
    name == Interaction || name == HighTime || name == CountryAvg || name == SourceActivity
  }

  /** The surviving cells of an input column. */
  function Surviving(data: Frame, name: string): (cells: seq<Value>)
    requires Wf(data) && name in data.cols
    ensures |cells| == |Survivors(data, Rows(data))|
  {
    DropSeries(data.cols[name], Survivors(data, Rows(data))).cells
  }

  /** The surviving TotalVisits as numbers. */
  function SurvivingVisits(data: Frame): (vs: seq<real>)
    requires Wf(data) && TotalVisits in data.cols
    ensures |vs| == |Survivors(data, Rows(data))|
  {
    Reals(Surviving(data, TotalVisits))
  }

  /** The frame g still holds every input column that no step reassigns,
      restricted to the surviving rows, and otherwise only derived columns. */
  ghost predicate KeepsInputs(data: Frame, g: Frame)
    requires Wf(data)
  {
    var ks := Survivors(data, Rows(data));
    && Wf(g) && g.index == Pick(data.index, ks)
    && (forall n :: n in data.cols ==> n in g.cols)
    && (forall n :: n in g.cols ==> n in data.cols || IsDerivedName(n))
    && (forall n :: n in data.cols && !IsDerivedName(n) ==> g.cols[n] == DropSeries(data.cols[n], ks))
  }

  /** Visits_PageViews_Interaction is the product on every surviving row. */
  ghost predicate HasInteraction(data: Frame, g: Frame)
    requires Wf(data) && Ready(data)
  {
    var tv, pv := Surviving(data, TotalVisits), Surviving(data, PageViews);
    && Interaction in g.cols
    && var c := g.cols[Interaction];
       && c.kind == Float64 && |c.cells| == |tv|
       && forall k :: 0 <= k < |tv| ==> c.cells[k] == Num(AsReal(tv[k]) * AsReal(pv[k]))
  }

  /** High_Time_Spent is 1 exactly on the surviving rows whose time on the
      site is strictly above the threshold, and 0 on the others. */
  ghost predicate HasHighTime(data: Frame, g: Frame, kind: Kind)
    requires Wf(data) && Ready(data)
  {
    var t := Surviving(data, TimeOnSite);
    && HighTime in g.cols
    && var c := g.cols[HighTime];
       && c.kind == kind && |c.cells| == |t|
       && forall k :: 0 <= k < |t| ==>
            c.cells[k] == if AsReal(t[k]) > HighTimeThreshold then Num(1.0) else Num(0.0)
  }

  /** Country_Visits_Avg is, on every surviving row, the mean TotalVisits of
      the surviving rows with the same Country. */
  ghost predicate HasCountryAvg(data: Frame, g: Frame)
    requires Wf(data) && Ready(data)
  {
    var cty, tv := Surviving(data, Country), SurvivingVisits(data);
    && CountryAvg in g.cols
    && var c := g.cols[CountryAvg];
       && c.kind == Float64 && |c.cells| == |cty|
       && forall k :: 0 <= k < |cty| ==> c.cells[k] == Num(GroupMean(cty, tv, cty[k]))
  }

  /** Source_Activity is Lead_Source, "_", Last_Activity on every surviving row. */
  ghost predicate HasSourceActivity(data: Frame, g: Frame)
    requires Wf(data) && Ready(data)
  {
    var ls, la := Surviving(data, LeadSource), Surviving(data, LastActivity);
    && SourceActivity in g.cols
    && var c := g.cols[SourceActivity];
       && c.kind == Object && |c.cells| == |ls|
       && forall k :: 0 <= k < |ls| ==> c.cells[k] == Str(AsText(ls[k]) + "_" + AsText(la[k]))
  }

  /** The frame lines 29-40 produce, described in terms of the input. */
  ghost predicate DerivedFrom(data: Frame, f: Frame)
    requires Wf(data) && Ready(data)
  {
    && KeepsInputs(data, f)
    && HasInteraction(data, f)
    && HasHighTime(data, f, Int64)
    && HasCountryAvg(data, f)
    && HasSourceActivity(data, f)
  }

  /** Assigning a derived column keeps the input columns as they were. */
  lemma AssignKeepsInputs(data: Frame, g: Frame, s: Series)
    requires Wf(data) && KeepsInputs(data, g) && IsDerivedName(s.name) && SeriesWf(s, Rows(g))
    ensures KeepsInputs(data, Assign(g, s))
  {
    var h := Assign(g, s);
    forall n | n in data.cols && !IsDerivedName(n)
      ensures h.cols[n] == DropSeries(data.cols[n], Survivors(data, Rows(data)))
    {
      assert Lookup(h, n) == Lookup(g, n);
    }
  }

  /** Assigning one column leaves every other derived column as it was. */
  lemma AssignKeepsOthers(data: Frame, g: Frame, s: Series)
    requires Wf(data) && Ready(data) && Wf(g) && SeriesWf(s, Rows(g))
    ensures s.name != Interaction && HasInteraction(data, g) ==> HasInteraction(data, Assign(g, s))
    ensures s.name != HighTime && HasHighTime(data, g, Bool) ==> HasHighTime(data, Assign(g, s), Bool)
    ensures s.name != CountryAvg && HasCountryAvg(data, g) ==> HasCountryAvg(data, Assign(g, s))
    ensures s.name != SourceActivity && HasSourceActivity(data, g) ==> HasSourceActivity(data, Assign(g, s))
  {
    var h := Assign(g, s);
    assert s.name != Interaction ==> Lookup(h, Interaction) == Lookup(g, Interaction);
    assert s.name != HighTime ==> Lookup(h, HighTime) == Lookup(g, HighTime);
    assert s.name != CountryAvg ==> Lookup(h, CountryAvg) == Lookup(g, CountryAvg);
    assert s.name != SourceActivity ==> Lookup(h, SourceActivity) == Lookup(g, SourceActivity);
  }

  /** An input column that no step reassigns, as g holds it. */
  lemma InputColumn(data: Frame, g: Frame, n: string)
    requires Wf(data) && KeepsInputs(data, g) && !IsDerivedName(n)
    ensures n in g.cols <==> n in data.cols
    ensures n in g.cols ==> g.cols[n].kind == data.cols[n].kind && g.cols[n].cells == Surviving(data, n)
  {
  }

  lemma InteractionHolds(data: Frame, h: Frame)
    requires Wf(data) && Ready(data) && Interaction in h.cols
    requires h.cols[Interaction] == Series(Interaction, Float64, Product(Surviving(data, TotalVisits), Surviving(data, PageViews)))
    ensures HasInteraction(data, h)
  {
  }

  lemma HighTimeHolds(data: Frame, h: Frame, kind: Kind)
    requires Wf(data) && Ready(data) && HighTime in h.cols
    requires h.cols[HighTime] == Series(HighTime, kind, AboveThreshold(Surviving(data, TimeOnSite)))
    ensures HasHighTime(data, h, kind)
  {
  }

  lemma CountryAvgHolds(data: Frame, h: Frame)
    requires Wf(data) && Ready(data) && CountryAvg in h.cols
    requires h.cols[CountryAvg] == Series(CountryAvg, Float64, GroupMeans(Surviving(data, Country), Surviving(data, TotalVisits)))
    ensures HasCountryAvg(data, h)
  {
  }

  lemma SourceActivityHolds(data: Frame, h: Frame)
    requires Wf(data) && Ready(data) && SourceActivity in h.cols
    requires h.cols[SourceActivity] == Series(SourceActivity, Object, Joined(Surviving(data, LeadSource), Surviving(data, LastActivity)))
    ensures HasSourceActivity(data, h)
  {
  }

  lemma StepInteraction(data: Frame, g: Frame)
    requires Wf(data) && KeepsInputs(data, g)
    ensures AddInteraction(g).Ok? <==>
      && TotalVisits in data.cols && data.cols[TotalVisits].kind != Object
      && PageViews in data.cols && data.cols[PageViews].kind != Object
    ensures AddInteraction(g).Ok? ==> KeepsInputs(data, AddInteraction(g).value)
    ensures AddInteraction(g).Ok? && Ready(data) ==> HasInteraction(data, AddInteraction(g).value)
  {
    InputColumn(data, g, TotalVisits);
    InputColumn(data, g, PageViews);
    if AddInteraction(g).Ok? {
      var c := InteractionColumn(g).value;
      AssignKeepsInputs(data, g, c);
      if Ready(data) {
        InteractionHolds(data, Assign(g, c));
      }
    }
  }

  lemma StepHighTime(data: Frame, g: Frame)
    requires Wf(data) && KeepsInputs(data, g)
    ensures AddHighTime(g).Ok? <==> TimeOnSite in data.cols && data.cols[TimeOnSite].kind != Object
    ensures AddHighTime(g).Ok? ==> KeepsInputs(data, AddHighTime(g).value)
    ensures AddHighTime(g).Ok? && Ready(data) ==> HasHighTime(data, AddHighTime(g).value, Bool)
    ensures AddHighTime(g).Ok? && Ready(data) && HasInteraction(data, g) ==> HasInteraction(data, AddHighTime(g).value)
  {
    InputColumn(data, g, TimeOnSite);
    if AddHighTime(g).Ok? {
      var c := HighTimeColumn(g).value;
      AssignKeepsInputs(data, g, c);
      if Ready(data) {
        HighTimeHolds(data, Assign(g, c), Bool);
        AssignKeepsOthers(data, g, c);
      }
    }
  }

  lemma StepCountryAvg(data: Frame, g: Frame)
    requires Wf(data) && KeepsInputs(data, g)
    requires TotalVisits in data.cols && data.cols[TotalVisits].kind != Object
    ensures AddCountryAvg(g).Ok? <==> Country in data.cols
    ensures AddCountryAvg(g).Ok? ==> KeepsInputs(data, AddCountryAvg(g).value)
    ensures AddCountryAvg(g).Ok? && Ready(data) ==> HasCountryAvg(data, AddCountryAvg(g).value)
    ensures AddCountryAvg(g).Ok? && Ready(data) && HasInteraction(data, g) ==> HasInteraction(data, AddCountryAvg(g).value)
    ensures AddCountryAvg(g).Ok? && Ready(data) && HasHighTime(data, g, Bool) ==> HasHighTime(data, AddCountryAvg(g).value, Bool)
  {
    InputColumn(data, g, Country);
    InputColumn(data, g, TotalVisits);
    if AddCountryAvg(g).Ok? {
      var c := CountryAvgColumn(g).value;
      AssignKeepsInputs(data, g, c);
      if Ready(data) {
        CountryAvgHolds(data, Assign(g, c));
        AssignKeepsOthers(data, g, c);
      }
    }
  }

  lemma StepSourceActivity(data: Frame, g: Frame)
    requires Wf(data) && KeepsInputs(data, g)
    ensures AddSourceActivity(g).Ok? <==>
      && LeadSource in data.cols && data.cols[LeadSource].kind == Object
      && LastActivity in data.cols && data.cols[LastActivity].kind == Object
    ensures AddSourceActivity(g).Ok? ==> KeepsInputs(data, AddSourceActivity(g).value)
    ensures AddSourceActivity(g).Ok? && Ready(data) ==> HasSourceActivity(data, AddSourceActivity(g).value)
    ensures AddSourceActivity(g).Ok? && Ready(data) && HasInteraction(data, g) ==> HasInteraction(data, AddSourceActivity(g).value)
    ensures AddSourceActivity(g).Ok? && Ready(data) && HasHighTime(data, g, Bool) ==> HasHighTime(data, AddSourceActivity(g).value, Bool)
    ensures AddSourceActivity(g).Ok? && Ready(data) && HasCountryAvg(data, g) ==> HasCountryAvg(data, AddSourceActivity(g).value)
  {
    InputColumn(data, g, LeadSource);
    InputColumn(data, g, LastActivity);
    if AddSourceActivity(g).Ok? {
      var c := SourceActivityColumn(g).value;
      AssignKeepsInputs(data, g, c);
      if Ready(data) {
        SourceActivityHolds(data, Assign(g, c));
        AssignKeepsOthers(data, g, c);
      }
    }
  }

  lemma StepCast(data: Frame, g: Frame)
    requires Wf(data) && Ready(data) && KeepsInputs(data, g)
    requires HasInteraction(data, g) && HasHighTime(data, g, Bool) && HasCountryAvg(data, g) && HasSourceActivity(data, g)
    ensures CastHighTime(g).Ok? && DerivedFrom(data, CastHighTime(g).value)
  {
    var c := AsInt(g.cols[HighTime]);
    AssignKeepsInputs(data, g, c);
    AssignKeepsOthers(data, g, c);
    var t := Surviving(data, TimeOnSite);
    assert g.cols[HighTime].cells == AboveThreshold(t);
    HighTimeHolds(data, Assign(g, c), Int64);
  }

  /** Lines 29-40 succeed exactly when the input is Ready, and then produce a
      frame DerivedFrom the input. */
  lemma DeriveFeaturesSpec(data: Frame)
    requires Wf(data)
    ensures DeriveFeatures(data).Ok? <==> Ready(data)
    ensures DeriveFeatures(data).Ok? ==> DerivedFrom(data, DeriveFeatures(data).value)
  {
    var d0 := DropNa(data);
    assert KeepsInputs(data, d0);
    StepInteraction(data, d0);
    var r1 := AddInteraction(d0);
    if r1.Err? { return; }
    StepHighTime(data, r1.value);
    var r2 := AddHighTime(r1.value);
    if r2.Err? { return; }
    StepCountryAvg(data, r2.value);
    var r3 := AddCountryAvg(r2.value);
    if r3.Err? { return; }
    StepSourceActivity(data, r3.value);
    var r4 := AddSourceActivity(r3.value);
    if r4.Err? { return; }
    StepCast(data, r4.value);
  }

  /** On a Ready input, lines 29-40 keep exactly the surviving rows, under
      their original labels. */
  lemma DeriveFeaturesRows(data: Frame)
    requires Wf(data) && Ready(data)
    ensures DeriveFeatures(data).Ok?
    ensures DeriveFeatures(data).value.index == Pick(data.index, Survivors(data, Rows(data)))
  {
    DeriveFeaturesSpec(data);
    assert KeepsInputs(data, DeriveFeatures(data).value);
  }

  /** c is a column of group means of vals by keys: equal on rows with the
      same key, and on each row between the least and the greatest value of
      its group (some member of the group is at or below it, and some at or
      above it). */
  ghost predicate GroupMeanShaped(keys: seq<Value>, vals: seq<real>, c: seq<Value>) {
    && |c| == |keys| == |vals|
    && (forall i, j :: 0 <= i < |c| && 0 <= j < |c| && keys[i] == keys[j] ==> c[i] == c[j])
    && (forall k :: 0 <= k < |c| ==>
          && c[k].Num?
          && (exists i :: 0 <= i < |keys| && keys[i] == keys[k] && vals[i] <= c[k].r)
          && (exists i :: 0 <= i < |keys| && keys[i] == keys[k] && vals[i] >= c[k].r))
  }

  /** A broadcast group-mean column has that shape. */
  lemma GroupMeansProperties(keys: seq<Value>, vals: seq<real>, c: seq<Value>)
    requires |keys| == |vals| == |c|
    requires forall k :: 0 <= k < |c| ==> c[k] == Num(GroupMean(keys, vals, keys[k]))
    ensures GroupMeanShaped(keys, vals, c)
  {
    forall k | 0 <= k < |c|
      ensures c[k].Num?
      ensures exists i :: 0 <= i < |keys| && keys[i] == keys[k] && vals[i] <= c[k].r
      ensures exists i :: 0 <= i < |keys| && keys[i] == keys[k] && vals[i] >= c[k].r
    {
      var m := GroupMean(keys, vals, keys[k]);
      assert c[k] == Num(m);
      GroupMeanWithinGroup(keys, vals, keys[k]);
      var lo :| 0 <= lo < |keys| && keys[lo] == keys[k] && vals[lo] <= m;
      var hi :| 0 <= hi < |keys| && keys[hi] == keys[k] && vals[hi] >= m;
      assert vals[lo] <= c[k].r && vals[hi] >= c[k].r;
    }
  }

  /** Country_Visits_Avg is equal on rows of the same Country, and on each
      row lies between the least and the greatest surviving TotalVisits of
      that row's Country. */
  lemma CountryAvgProperties(data: Frame, f: Frame)
    requires Wf(data) && Ready(data) && HasCountryAvg(data, f)
    ensures GroupMeanShaped(Surviving(data, Country), SurvivingVisits(data), f.cols[CountryAvg].cells)
  {
    GroupMeansProperties(Surviving(data, Country), SurvivingVisits(data), f.cols[CountryAvg].cells);
  }

  /** Source_Activity is one character longer than its two parts together. */
  lemma SourceActivityLength(data: Frame, f: Frame)
    requires Wf(data) && Ready(data) && DerivedFrom(data, f)
    ensures var ls, la, c := Surviving(data, LeadSource), Surviving(data, LastActivity), f.cols[SourceActivity].cells;
      forall k :: 0 <= k < |c| ==> c[k].Str? && |c[k].s| == |AsText(ls[k])| + |AsText(la[k])| + 1
  {
  }

  /** The High_Time_Spent threshold is strict: exactly 1000 seconds gives 0. */
  lemma HighTimeAtThreshold(data: Frame, f: Frame, k: nat)
    requires Wf(data) && Ready(data) && DerivedFrom(data, f)
    requires k < |Surviving(data, TimeOnSite)| && AsReal(Surviving(data, TimeOnSite)[k]) == HighTimeThreshold
    ensures f.cols[HighTime].kind == Int64 && f.cols[HighTime].cells[k] == Num(0.0)
  {
  }
}

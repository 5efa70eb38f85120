/** Schema alignment, scripts/app.py:49-53: add a zero column for every
    expected name the encoded frame lacks, then select the expected names in
    their order. */
module Alignment {
  import opened Frames

  /** The columns of cs named e, in order: what selecting e from a frame with
      those columns yields (all of them when the name repeats). */
  function Matching(cs: seq<Series>, e: string): (ms: seq<Series>)
    ensures forall c :: c in ms ==> c.name == e && c in cs
  {
    if cs == [] then []
    else (if cs[0].name == e then [cs[0]] else []) + Matching(cs[1..], e)
  }

  lemma {:induction false} MatchingEmpty(cs: seq<Series>, e: string)
    ensures Matching(cs, e) == [] <==> e !in NamesOf(cs)
  {
    if cs != [] {
      MatchingEmpty(cs[1..], e);
      assert NamesOf(cs) == [cs[0].name] + NamesOf(cs[1..]);
    }
  }

  lemma {:induction false} MatchingConcat(a: seq<Series>, b: seq<Series>, e: string)
    ensures Matching(a + b, e) == Matching(a, e) + Matching(b, e)
  {
    if a != [] {
      MatchingConcat(a[1..], b, e);
      assert (a + b)[0] == a[0] && (a + b)[1..] == a[1..] + b;
    } else {
      assert a + b == b;
    }
  }

  /** With distinct names, a name present once selects exactly its column. */
  lemma {:induction false} MatchingUnique(cs: seq<Series>, j: nat)
    requires Distinct(NamesOf(cs)) && j < |cs|
    ensures Matching(cs, cs[j].name) == [cs[j]]
  {
    var e := cs[j].name;
    if j == 0 {
      assert e !in NamesOf(cs[1..]) by {
        forall k | 0 <= k < |cs| - 1 ensures NamesOf(cs[1..])[k] != e {
          assert NamesOf(cs)[k + 1] == NamesOf(cs[1..])[k];
        }
      }
      MatchingEmpty(cs[1..], e);
    } else {
      assert NamesOf(cs)[0] != NamesOf(cs)[j];
      assert NamesOf(cs[1..]) == NamesOf(cs)[1..];
      assert cs[1..][j - 1] == cs[j];
      MatchingUnique(cs[1..], j - 1);
    }
  }

  /** `list(set(expected) - set(present))`, in one of its possible orders:
      each expected name that is not present, once, in the order of its
      first occurrence in expected. */
  function MissingNames(expected: seq<string>, present: seq<string>): (ms: seq<string>)
    ensures forall e :: e in ms <==> e in expected && e !in present
    ensures Distinct(ms)
  {
    if expected == [] then []
    else
      var init, e := expected[..|expected| - 1], expected[|expected| - 1];
      assert expected == init + [e];
      var rest := MissingNames(init, present);
      if e in present || e in rest then rest else rest + [e]
  }

  /** An int64 column of zeros (`pd.DataFrame(0, ...)`). */
  function Zeros(name: string, rows: nat): (c: Series)
    ensures c.name == name && c.kind == Int64 && SeriesWf(c, rows)
  {
    Series(name, Int64, seq(rows, i => Num(0.0)))
  }

  /** scripts/app.py:50: a zero column per missing name. */
  function ZeroColumns(ms: seq<string>, rows: nat): (cs: seq<Series>)
    ensures NamesOf(cs) == ms
    ensures forall k :: 0 <= k < |cs| ==> cs[k] == Zeros(ms[k], rows)
  {
    seq(|ms|, k requires 0 <= k < |ms| => Zeros(ms[k], rows))
  }

  /** `df[expected]` on a frame with columns cs: for each expected name, all
      columns of that name; KeyError when one is absent. */
  function Select(cs: seq<Series>, expected: seq<string>): (r: Result<seq<Series>>)
    ensures r.Ok? <==> forall e :: e in expected ==> e in NamesOf(cs)
    ensures r.Ok? ==> forall k :: 0 <= k < |r.value| ==> r.value[k] in cs && r.value[k].name in expected
  {
    if expected == [] then Ok([])
    else
      MatchingEmpty(cs, expected[0]);
      var m := Matching(cs, expected[0]);
      if m == [] then Err(KeyError(expected[0]))
      else
        var rest :- Select(cs, expected[1..]);
        Ok(m + rest)
  }

  /** scripts/app.py:49-53: never raises, keeps the rows, and keeps only
      columns of expected names. */
  function Align(t: Table, expected: seq<string>): (r: Result<Table>)
    ensures r.Ok? && r.value.index == t.index
    ensures forall k :: 0 <= k < |r.value.columns| ==> r.value.columns[k].name in expected
  {
    SelectAfterPadding(t, MissingNames(expected, Names(t)), expected);
    var cs := Select(t.columns + ZeroColumns(MissingNames(expected, Names(t)), |t.index|), expected).value;
    Ok(Table(cs, t.index))
  }

  /** An independent description of the aligned columns: per expected name,
      the table's columns of that name, or one zero column if it has none. */
  function Reference(t: Table, expected: seq<string>): (cs: seq<Series>)
  {
    if expected == [] then []
    else
      var m := Matching(t.columns, expected[0]);
      (if m == [] then [Zeros(expected[0], |t.index|)] else m) + Reference(t, expected[1..])
  }

  /** Whatever order the missing names take (a Python set has none to rely
      on), selecting after the zero columns are appended yields the
      reference columns. */
  lemma {:induction false} SelectAfterPadding(t: Table, ms: seq<string>, expected: seq<string>)
    requires Distinct(ms)
    requires forall e :: e in ms ==> e !in Names(t)
    requires forall e :: e in expected ==> (e in ms <==> e !in Names(t))
    ensures Select(t.columns + ZeroColumns(ms, |t.index|), expected) == Ok(Reference(t, expected))
  {
    if expected != [] {
      var e, zs := expected[0], ZeroColumns(ms, |t.index|);
      var cs := t.columns + zs;
      SelectAfterPadding(t, ms, expected[1..]);
      MatchingConcat(t.columns, zs, e);
      MatchingEmpty(t.columns, e);
      MatchingEmpty(zs, e);
      assert e in expected && Names(t) == NamesOf(t.columns);
      var m := Matching(cs, e);
      if e in ms {
        var j :| 0 <= j < |ms| && ms[j] == e;
        MatchingUnique(zs, j);
        assert m == [Zeros(e, |t.index|)];
      } else {
        assert m == Matching(t.columns, e) && m != [];
      }
      assert Reference(t, expected) == m + Reference(t, expected[1..]);
      assert Select(cs, expected) == Ok(m + Reference(t, expected[1..]));
    }
  }

  /** Alignment never raises, and the order of the missing names is
      irrelevant. */
  lemma AlignSpec(t: Table, expected: seq<string>, ms: seq<string>)
    requires Distinct(ms) && forall e :: e in ms <==> e in expected && e !in Names(t)
    ensures Align(t, expected) == Ok(Table(Reference(t, expected), t.index))
    ensures Select(t.columns + ZeroColumns(ms, |t.index|), expected) == Ok(Reference(t, expected))
  {
    SelectAfterPadding(t, ms, expected);
    SelectAfterPadding(t, MissingNames(expected, Names(t)), expected);
  }

  /** When the table's names are distinct, the reference has one column per
      expected name: the table's column of that name, or zeros. */
  lemma {:induction false} ReferenceOfDistinct(t: Table, expected: seq<string>)
    requires Distinct(Names(t))
    ensures var cs := Reference(t, expected);
      && |cs| == |expected|
      && (forall k, j :: 0 <= k < |cs| && 0 <= j < |t.columns| && t.columns[j].name == expected[k] ==> cs[k] == t.columns[j])
      && (forall k :: 0 <= k < |cs| && expected[k] !in Names(t) ==> cs[k] == Zeros(expected[k], |t.index|))
  {
    if expected != [] {
      ReferenceOfDistinct(t, expected[1..]);
      var e := expected[0];
      MatchingEmpty(t.columns, e);
      if e in Names(t) {
        var j :| 0 <= j < |t.columns| && Names(t)[j] == e;
        MatchingUnique(t.columns, j);
        forall j' | 0 <= j' < |t.columns| && t.columns[j'].name == e ensures j' == j {
          assert Names(t)[j'] == Names(t)[j];
        }
      }
    }
  }

  /** What lines 49-53 promise when the encoded names are distinct: the
      columns are exactly the expected ones in order, each expected column
      the encoded frame had is carried over unchanged, each it lacked is
      zero in every row, and the rows stay as they were. */
  lemma AlignSchema(t: Table, expected: seq<string>)
    requires TableWf(t) && Distinct(Names(t))
    ensures Align(t, expected).Ok?
    ensures var a := Align(t, expected).value;
      && Names(a) == expected
      && a.index == t.index
      && TableWf(a)
      && (forall k, j :: 0 <= k < |expected| && 0 <= j < |t.columns| && t.columns[j].name == expected[k] ==>
            a.columns[k] == t.columns[j])
      && (forall k, i :: 0 <= k < |expected| && expected[k] !in Names(t) && 0 <= i < |t.index| ==>
            a.columns[k].kind == Int64 && a.columns[k].cells[i] == Num(0.0))
  {
    var ms := MissingNames(expected, Names(t));
    AlignSpec(t, expected, ms);
    ReferenceOfDistinct(t, expected);
    var a := Align(t, expected).value;
    forall k | 0 <= k < |a.columns| ensures SeriesWf(a.columns[k], |a.index|) && a.columns[k].name == expected[k] {
      if expected[k] in Names(t) {
        var j :| 0 <= j < |t.columns| && Names(t)[j] == expected[k];
      }
    }
  }

  /** Encoded columns that are not expected are dropped, whatever the names:
      every aligned column is an expected name, and is a column of the
      encoded frame or a zero column. */
  lemma AlignDrops(t: Table, expected: seq<string>)
    ensures Align(t, expected).Ok?
    ensures forall c :: c in Align(t, expected).value.columns ==>
      c.name in expected && (c in t.columns || c == Zeros(c.name, |t.index|))
  {
    var ms := MissingNames(expected, Names(t));
    AlignSpec(t, expected, ms);
    var zs := ZeroColumns(ms, |t.index|);
    forall c | c in Align(t, expected).value.columns
      ensures c.name in expected && (c in t.columns || c == Zeros(c.name, |t.index|))
    {
      assert c in t.columns + zs;
      if c !in t.columns {
        var k :| 0 <= k < |zs| && zs[k] == c;
      }
    }
  }

  /** Alignment keeps a table well formed, whatever its names: every aligned
      column is an encoded column or a zero column of the same row count. */
  lemma AlignWf(t: Table, expected: seq<string>)
    requires TableWf(t)
    ensures Align(t, expected).Ok? && TableWf(Align(t, expected).value)
  {
    AlignDrops(t, expected);
    var a := Align(t, expected).value;
    forall j | 0 <= j < |a.columns| ensures SeriesWf(a.columns[j], |a.index|) {
      var c := a.columns[j];
      assert c in a.columns;
      if c in t.columns {
        var k :| 0 <= k < |t.columns| && t.columns[k] == c;
      }
    }
  }

  /** With a repeated encoded name the distinctness above is needed: selecting
      one expected name yields both columns that carry it. */
  lemma DuplicateNameWidens()
    ensures var c1, c2 := Series("Country_Visits_Avg", Float64, [Num(2.0)]), Series("Country_Visits_Avg", Bool, [Num(1.0)]);
      Align(Table([c1, c2], [0]), ["Country_Visits_Avg"]) == Ok(Table([c1, c2], [0]))
  {
    var c1, c2 := Series("Country_Visits_Avg", Float64, [Num(2.0)]), Series("Country_Visits_Avg", Bool, [Num(1.0)]);
    var t, e := Table([c1, c2], [0]), "Country_Visits_Avg";
    assert Names(t)[0] == e;
    assert ["Country_Visits_Avg"][..0] == [];
    assert MissingNames([e], Names(t)) == [];
    assert t.columns + ZeroColumns([], 1) == [c1, c2];
    assert [c1, c2][1..] == [c2] && [c2][1..] == [];
    assert Matching([], e) == [];
    assert Matching([c2], e) == [c2];
    assert Matching([c1, c2], e) == [c1, c2];
    assert [e][1..] == [];
    assert Select([c1, c2], [e]) == Ok([c1, c2]);
  }
}

/** Identifier removal and one-hot encoding, scripts/app.py:42-47:
    `pd.get_dummies(data, drop_first=True)` on the frame without Prospect_ID. */
module Encoding {
  import opened Frames

  const ProspectId := "Prospect_ID"

  // ---------------------------------------------------------------------
  // Python's order on str: code point by code point, a proper prefix first.

  predicate Less(a: string, b: string) {
    if a == [] then b != []
    else if b == [] then false
    else if a[0] != b[0] then a[0] < b[0]
    else Less(a[1..], b[1..])
  }

  lemma {:induction false} LessIrreflexive(a: string)
    ensures !Less(a, a)
  {
    if a != [] {
      LessIrreflexive(a[1..]);
    }
  }

  lemma {:induction false} LessTransitive(a: string, b: string, c: string)
    requires Less(a, b) && Less(b, c)
    ensures Less(a, c)
  {
    if a != [] && b != [] && c != [] && a[0] == b[0] && b[0] == c[0] {
      LessTransitive(a[1..], b[1..], c[1..]);
    }
  }

  lemma {:induction false} LessTotal(a: string, b: string)
    ensures a == b || Less(a, b) || Less(b, a)
  {
    if a != [] && b != [] && a[0] == b[0] {
      LessTotal(a[1..], b[1..]);
      if a[1..] == b[1..] {
        assert a == [a[0]] + a[1..] && b == [b[0]] + b[1..];
      }
    }
  }

  /** Strictly ascending, hence without repetition. */
  predicate Sorted(xs: seq<string>) {
    forall i, j :: 0 <= i < j < |xs| ==> Less(xs[i], xs[j])
  }

  lemma SortedDistinct(xs: seq<string>)
    requires Sorted(xs)
    ensures Distinct(xs)
  {
    forall i, j | 0 <= i < j < |xs| ensures xs[i] != xs[j] {
      LessIrreflexive(xs[i]);
    }
  }

  /** x put into its place in a sorted list, unless it is there already. */
  function Insert(x: string, xs: seq<string>): (r: seq<string>)
    ensures forall y :: y in r <==> y == x || y in xs
  {
    if xs == [] then [x]
    else if x == xs[0] then xs
    else if Less(x, xs[0]) then [x] + xs
    else [xs[0]] + Insert(x, xs[1..])
  }

  lemma {:induction false} InsertSorted(x: string, xs: seq<string>)
    requires Sorted(xs)
    ensures Sorted(Insert(x, xs))
  {
    if xs != [] && x != xs[0] {
      if Less(x, xs[0]) {
        forall j | 1 <= j < |xs| ensures Less(x, xs[j]) {
          LessTransitive(x, xs[0], xs[j]);
        }
      } else {
        LessTotal(x, xs[0]);
        var rest := Insert(x, xs[1..]);
        InsertSorted(x, xs[1..]);
        forall j | 0 <= j < |rest| ensures Less(xs[0], rest[j]) {
          assert rest[j] in rest;
        }
      }
    }
  }

  /** The distinct strings among the cells, in ascending order: the levels
      `get_dummies` encodes (missing cells have no level). */
  function Levels(cells: seq<Value>): (ls: seq<string>)
    ensures forall t :: t in ls <==> Str(t) in cells
  {
    if cells == [] then []
    else
      var rest := Levels(cells[1..]);
      assert cells == [cells[0]] + cells[1..];
      if cells[0].Str? then Insert(cells[0].s, rest) else rest
  }

  lemma {:induction false} LevelsSorted(cells: seq<Value>)
    ensures Sorted(Levels(cells))
  {
    if cells != [] {
      LevelsSorted(cells[1..]);
      if cells[0].Str? {
        InsertSorted(cells[0].s, Levels(cells[1..]));
      }
    }
  }

  // ---------------------------------------------------------------------
  // The indicator columns of one string column.

  /** The bool column `<name>_<level>`: 1 on the rows holding that level. */
  function Indicator(s: Series, level: string): (c: Series)
    ensures c.name == s.name + "_" + level && c.kind == Bool
    ensures SeriesWf(c, |s.cells|)
    ensures forall i :: 0 <= i < |s.cells| ==> (c.cells[i] == Num(1.0) <==> s.cells[i] == Str(level))
  {
    Series(s.name + "_" + level, Bool,
           seq(|s.cells|, i requires 0 <= i < |s.cells| => if s.cells[i] == Str(level) then Num(1.0) else Num(0.0)))
  }

  /** One indicator per level except the first (drop_first=True). */
  function Dummies(s: Series): (ds: seq<Series>)
    ensures forall j :: 0 <= j < |ds| ==> ds[j].kind == Bool && SeriesWf(ds[j], |s.cells|)
  {
    var ls := Levels(s.cells);
    if |ls| <= 1 then [] else seq(|ls| - 1, j requires 0 <= j < |ls| - 1 => Indicator(s, ls[j + 1]))
  }

  /** A string column with k distinct values becomes k - 1 indicator columns,
      one per value but the least, named `<name>_<value>`, each 1 exactly on
      the rows holding that value and 0 elsewhere. */
  lemma DummiesSpec(s: Series)
    ensures var ls, ds := Levels(s.cells), Dummies(s);
      && Sorted(ls)
      && (forall t :: t in ls <==> Str(t) in s.cells)
      && |ds| == (if ls == [] then 0 else |ls| - 1)
      && (forall j :: 0 <= j < |ds| ==> ds[j].name == s.name + "_" + ls[j + 1])
      && (forall j, i :: 0 <= j < |ds| && 0 <= i < |s.cells| ==>
            (ds[j].cells[i] == Num(1.0) <==> s.cells[i] == Str(ls[j + 1])) &&
            (ds[j].cells[i] == Num(0.0) <==> s.cells[i] != Str(ls[j + 1])))
  {
    LevelsSorted(s.cells);
    var ls, ds := Levels(s.cells), Dummies(s);
    forall j | 0 <= j < |ds| ensures ds[j] == Indicator(s, ls[j + 1]) {
    }
  }

  /** In any row, at most one indicator of a field is 1. */
  lemma AtMostOneHot(s: Series, i: nat)
    requires i < |s.cells|
    ensures forall j1, j2 :: 0 <= j1 < j2 < |Dummies(s)| ==>
      !(Dummies(s)[j1].cells[i] == Num(1.0) && Dummies(s)[j2].cells[i] == Num(1.0))
  {
    var ls, ds := Levels(s.cells), Dummies(s);
    LevelsSorted(s.cells);
    SortedDistinct(ls);
    DummiesSpec(s);
    forall j1, j2 | 0 <= j1 < j2 < |ds| ensures !(ds[j1].cells[i] == Num(1.0) && ds[j2].cells[i] == Num(1.0)) {
      assert ls[j1 + 1] != ls[j2 + 1];
      assert ds[j1].cells[i] == Num(1.0) ==> s.cells[i] == Str(ls[j1 + 1]);
      assert ds[j2].cells[i] == Num(1.0) ==> s.cells[i] == Str(ls[j2 + 1]);
    }
  }

  /** A row's indicators are all 0 exactly when the row holds the first
      level, which is the least value of the column. */
  lemma AllZeroForFirstLevel(s: Series, i: nat)
    requires i < |s.cells| && s.cells[i].Str?
    ensures var ls := Levels(s.cells);
      && ls != []
      && (forall t :: Str(t) in s.cells && t != ls[0] ==> Less(ls[0], t))
      && ((forall j :: 0 <= j < |Dummies(s)| ==> Dummies(s)[j].cells[i] == Num(0.0)) <==> s.cells[i] == Str(ls[0]))
  {
    var ls, ds := Levels(s.cells), Dummies(s);
    assert s.cells[i] in s.cells;
    LevelsSorted(s.cells);
    SortedDistinct(ls);
    DummiesSpec(s);
    forall t | Str(t) in s.cells && t != ls[0] ensures Less(ls[0], t) {
      var m :| 0 <= m < |ls| && ls[m] == t;
    }
    if s.cells[i] != Str(ls[0]) {
      var m :| 0 <= m < |ls| && ls[m] == s.cells[i].s;
      assert ds[m - 1].cells[i] == Num(1.0);
    }
  }

  /** A column holding one string throughout has that string as its only level. */
  lemma {:induction false} LevelsOfConstant(cells: seq<Value>, t: string)
    requires forall i :: 0 <= i < |cells| ==> cells[i] == Str(t)
    ensures Levels(cells) == if cells == [] then [] else [t]
  {
    if cells != [] {
      LevelsOfConstant(cells[1..], t);
    }
  }

  /** A field with a single observed value yields no indicator columns. */
  lemma SingleValueNoColumns(s: Series, t: string)
    requires forall i :: 0 <= i < |s.cells| ==> s.cells[i] == Str(t)
    ensures Dummies(s) == []
  {
    LevelsOfConstant(s.cells, t);
  }

  // ---------------------------------------------------------------------
  // The whole frame.

  /** The non-string columns of ns, in order: get_dummies passes them through. */
  function Plain(f: Frame, ns: seq<string>): (cs: seq<Series>)
    requires Wf(f) && forall n :: n in ns ==> n in f.cols
    ensures forall k :: 0 <= k < |cs| ==> cs[k].kind != Object && SeriesWf(cs[k], Rows(f))
  {
    if ns == [] then []
    else (if f.cols[ns[0]].kind != Object then [f.cols[ns[0]]] else []) + Plain(f, ns[1..])
  }

  /** The indicator blocks of the string columns of ns, in column order. */
  function Indicators(f: Frame, ns: seq<string>): (cs: seq<Series>)
    requires Wf(f) && forall n :: n in ns ==> n in f.cols
    ensures forall k :: 0 <= k < |cs| ==> cs[k].kind == Bool && SeriesWf(cs[k], Rows(f))
  {
    if ns == [] then []
    else (if f.cols[ns[0]].kind == Object then Dummies(f.cols[ns[0]]) else []) + Indicators(f, ns[1..])
  }

  /** `pd.get_dummies(f, drop_first=True)`: the other columns first, then the
      indicators of each string column. */
  function GetDummies(f: Frame): (t: Table)
    requires Wf(f)
    ensures TableWf(t) && t.index == f.index
    ensures forall k :: 0 <= k < |t.columns| ==> t.columns[k].kind != Object
  {
    Table(Plain(f, f.names) + Indicators(f, f.names), f.index)
  }

  /** Column c of the encoded frame comes from input column n. */
  ghost predicate FromField(f: Frame, n: string, c: Series) {
    n in f.cols && if f.cols[n].kind == Object then c in Dummies(f.cols[n]) else c == f.cols[n]
  }

  lemma {:induction false} PlainSpec(f: Frame, ns: seq<string>)
    requires Wf(f) && forall n :: n in ns ==> n in f.cols
    ensures forall c :: c in Plain(f, ns) ==> c.name in ns && FromField(f, c.name, c) && c == f.cols[c.name]
    ensures forall n :: n in ns && f.cols[n].kind != Object ==> f.cols[n] in Plain(f, ns)
  {
    if ns != [] {
      PlainSpec(f, ns[1..]);
    }
  }

  lemma {:induction false} IndicatorsSpec(f: Frame, ns: seq<string>)
    requires Wf(f) && forall n :: n in ns ==> n in f.cols
    ensures forall c :: c in Indicators(f, ns) ==> exists n :: n in ns && FromField(f, n, c) && f.cols[n].kind == Object
    ensures forall n, c :: n in ns && f.cols[n].kind == Object && c in Dummies(f.cols[n]) ==> c in Indicators(f, ns)
  {
    if ns != [] {
      IndicatorsSpec(f, ns[1..]);
      forall c | c in Indicators(f, ns) ensures exists n :: n in ns && FromField(f, n, c) && f.cols[n].kind == Object {
        if f.cols[ns[0]].kind == Object && c in Dummies(f.cols[ns[0]]) {
          assert FromField(f, ns[0], c);
        } else {
          assert c in Indicators(f, ns[1..]);
          var n :| n in ns[1..] && FromField(f, n, c) && f.cols[n].kind == Object;
          assert n in ns;
        }
      }
    }
  }

  /** Every encoded column is a non-string input column passed through
      unchanged or an indicator of a string input column, and every one of
      those is there. */
  lemma GetDummiesSpec(f: Frame)
    requires Wf(f)
    ensures forall c :: c in GetDummies(f).columns ==> exists n :: n in f.names && FromField(f, n, c)
    ensures forall n, c :: n in f.names && FromField(f, n, c) ==> c in GetDummies(f).columns
  {
    PlainSpec(f, f.names);
    IndicatorsSpec(f, f.names);
    forall c | c in GetDummies(f).columns ensures exists n :: n in f.names && FromField(f, n, c) {
      if c in Plain(f, f.names) {
        assert c.name in f.names && FromField(f, c.name, c);
      }
    }
  }

  // ---------------------------------------------------------------------
  // When the encoded names are distinct.

  /** A common prefix cancels. */
  lemma PrefixCancel(p: string, a: string, b: string)
    requires p + a == p + b
    ensures a == b
  {
    assert a == (p + a)[|p|..];
    assert b == (p + b)[|p|..];
  }

  /** Strings that differ within both prefixes differ whatever follows. */
  lemma PrefixDiffers(p: string, q: string, a: string, b: string, i: nat)
    requires i < |p| && i < |q| && p[i] != q[i]
    ensures p + a != q + b
  {
    assert (p + a)[i] == p[i] && (q + b)[i] == q[i];
  }

  /** The name of an encoded column: the field's own name when it is passed
      through, `<field>_<level>` for one of the field's levels otherwise. */
  lemma FromFieldName(f: Frame, n: string, c: Series)
    requires Wf(f) && FromField(f, n, c)
    ensures f.cols[n].kind != Object ==> c.name == n
    ensures f.cols[n].kind == Object ==> exists l :: Str(l) in f.cols[n].cells && c.name == n + "_" + l
  {
    var s := f.cols[n];
    if s.kind == Object {
      var ls, ds := Levels(s.cells), Dummies(s);
      var j :| 0 <= j < |ds| && ds[j] == c;
      assert ds[j] == Indicator(s, ls[j + 1]);
      assert ls[j + 1] in ls;
    }
  }

  /** The indicators of one field have distinct names. */
  lemma DummiesDistinct(s: Series)
    ensures Distinct(NamesOf(Dummies(s)))
  {
    var ls, ds := Levels(s.cells), Dummies(s);
    LevelsSorted(s.cells);
    SortedDistinct(ls);
    forall i, j | 0 <= i < j < |ds| ensures ds[i].name != ds[j].name {
      assert ds[i] == Indicator(s, ls[i + 1]) && ds[j] == Indicator(s, ls[j + 1]);
      if ds[i].name == ds[j].name {
        PrefixCancel(s.name + "_", ls[i + 1], ls[j + 1]);
      }
    }
  }

  /** No column of one field of ns is named like a column of another. */
  ghost predicate NoClash(f: Frame, ns: seq<string>) {
    forall n1, n2, c1, c2 :: n1 in ns && n2 in ns && n1 != n2 && FromField(f, n1, c1) && FromField(f, n2, c2) ==>
      c1.name != c2.name
  }

  lemma DistinctConcat(a: seq<Series>, b: seq<Series>)
    requires Distinct(NamesOf(a)) && Distinct(NamesOf(b))
    requires forall x, y :: x in a && y in b ==> x.name != y.name
    ensures Distinct(NamesOf(a + b))
  {
    var all := a + b;
    forall i, j | 0 <= i < j < |all| ensures all[i].name != all[j].name {
      if j < |a| {
        assert NamesOf(a)[i] != NamesOf(a)[j];
      } else if i >= |a| {
        assert all[i] == b[i - |a|] && all[j] == b[j - |a|];
        assert NamesOf(b)[i - |a|] != NamesOf(b)[j - |a|];
      } else {
        assert all[i] == a[i] && all[j] == b[j - |a|];
        assert all[i] in a && all[j] in b;
      }
    }
  }

  lemma NoClashTail(f: Frame, ns: seq<string>)
    requires ns != [] && NoClash(f, ns)
    ensures NoClash(f, ns[1..])
  {
    forall n1, n2, c1, c2 | n1 in ns[1..] && n2 in ns[1..] && n1 != n2 && FromField(f, n1, c1) && FromField(f, n2, c2)
      ensures c1.name != c2.name
    {
      assert n1 in ns && n2 in ns;
    }
  }

  lemma NoClashAt(f: Frame, ns: seq<string>, n1: string, n2: string, c1: Series, c2: Series)
    requires NoClash(f, ns) && n1 in ns && n2 in ns && n1 != n2 && FromField(f, n1, c1) && FromField(f, n2, c2)
    ensures c1.name != c2.name
  {
  }

  lemma DistinctTail(ns: seq<string>)
    requires ns != [] && Distinct(ns)
    ensures Distinct(ns[1..]) && ns[0] !in ns[1..]
  {
    forall j | 0 <= j < |ns| - 1 ensures ns[1..][j] != ns[0] {
      assert ns[1..][j] == ns[j + 1];
    }
  }

  lemma {:induction false} PlainDistinct(f: Frame, ns: seq<string>)
    requires Wf(f) && Distinct(ns) && forall n :: n in ns ==> n in f.cols
    ensures Distinct(NamesOf(Plain(f, ns)))
  {
    if ns != [] {
      var rest := Plain(f, ns[1..]);
      DistinctTail(ns);
      PlainDistinct(f, ns[1..]);
      if f.cols[ns[0]].kind != Object {
        var head := [f.cols[ns[0]]];
        forall x, y | x in head && y in rest ensures x.name != y.name {
          PlainMember(f, ns[1..], y);
        }
        DistinctConcat(head, rest);
        assert Plain(f, ns) == head + rest;
      } else {
        assert Plain(f, ns) == rest;
      }
    }
  }

  lemma {:induction false} IndicatorsDistinct(f: Frame, ns: seq<string>)
    requires Wf(f) && forall n :: n in ns ==> n in f.cols
    requires Distinct(ns) && NoClash(f, ns)
    ensures Distinct(NamesOf(Indicators(f, ns)))
  {
    if ns != [] {
      var rest := Indicators(f, ns[1..]);
      NoClashTail(f, ns);
      DistinctTail(ns);
      IndicatorsDistinct(f, ns[1..]);
      if f.cols[ns[0]].kind == Object {
        var head := Dummies(f.cols[ns[0]]);
        DummiesDistinct(f.cols[ns[0]]);
        forall x, y | x in head && y in rest ensures x.name != y.name {
          var n := IndicatorMember(f, ns[1..], y);
          assert n != ns[0] && FromField(f, ns[0], x) && FromField(f, n, y);
          NoClashAt(f, ns, ns[0], n, x, y);
        }
        DistinctConcat(head, rest);
        assert Indicators(f, ns) == head + rest;
      } else {
        assert Indicators(f, ns) == rest;
      }
    }
  }

  lemma PlainMember(f: Frame, ns: seq<string>, p: Series)
    requires Wf(f) && (forall n :: n in ns ==> n in f.cols) && p in Plain(f, ns)
    ensures p.name in ns && p == f.cols[p.name] && p.kind != Object
  {
    PlainSpec(f, ns);
  }

  lemma IndicatorMember(f: Frame, ns: seq<string>, q: Series) returns (n: string)
    requires Wf(f) && (forall n :: n in ns ==> n in f.cols) && q in Indicators(f, ns)
    ensures n in ns && f.cols[n].kind == Object && q in Dummies(f.cols[n])
  {
    IndicatorsSpec(f, ns);
    n :| n in ns && FromField(f, n, q) && f.cols[n].kind == Object;
  }

  /** A passed-through column and an indicator never share a name. */
  lemma PlainIndicatorApart(f: Frame, p: Series, q: Series)
    requires Wf(f) && NoClash(f, f.names)
    requires p in Plain(f, f.names) && q in Indicators(f, f.names)
    ensures p.name != q.name
  {
    PlainMember(f, f.names, p);
    var n := IndicatorMember(f, f.names, q);
    assert p.name != n;
    assert FromField(f, p.name, p) && FromField(f, n, q);
    NoClashAt(f, f.names, p.name, n, p, q);
  }

  /** When no two fields clash, the encoded names are distinct. */
  lemma GetDummiesDistinct(f: Frame)
    requires Wf(f) && NoClash(f, f.names)
    ensures Distinct(Names(GetDummies(f)))
  {
    var ps, qs := Plain(f, f.names), Indicators(f, f.names);
    PlainDistinct(f, f.names);
    IndicatorsDistinct(f, f.names);
    forall p, q | p in ps && q in qs ensures p.name != q.name {
      PlainIndicatorApart(f, p, q);
    }
    DistinctConcat(ps, qs);
  }

  // ---------------------------------------------------------------------
  // Lines 42-45.

  /** ns without x. */
  function Remove(ns: seq<string>, x: string): (r: seq<string>)
    ensures forall n :: n in r <==> n in ns && n != x
  {
    if ns == [] then []
    else if ns[0] == x then Remove(ns[1..], x)
    else [ns[0]] + Remove(ns[1..], x)
  }

  lemma {:induction false} RemoveDistinct(ns: seq<string>, x: string)
    requires Distinct(ns)
    ensures Distinct(Remove(ns, x))
  {
    if ns != [] {
      RemoveDistinct(ns[1..], x);
      assert ns[0] !in ns[1..] by {
        forall j | 0 <= j < |ns| - 1 ensures ns[1..][j] != ns[0] {
          assert ns[1..][j] == ns[j + 1];
        }
      }
    }
  }

  /** Dropping a column keeps the others in their order. */
  lemma {:induction false} RemoveAt(ns: seq<string>, x: string, i: nat)
    requires Distinct(ns) && i < |ns| && ns[i] == x
    ensures Remove(ns, x) == ns[..i] + ns[i + 1..]
  {
    if i > 0 {
      RemoveAt(ns[1..], x, i - 1);
      assert ns[1..][..i - 1] == ns[1..i];
      assert ns[..i] == [ns[0]] + ns[1..i];
    } else {
      assert x !in ns[1..];
      RemoveAbsent(ns[1..], x);
    }
  }

  lemma {:induction false} RemoveAbsent(ns: seq<string>, x: string)
    requires x !in ns
    ensures Remove(ns, x) == ns
  {
    if ns != [] {
      RemoveAbsent(ns[1..], x);
    }
  }

  /** `data.drop(columns=['Prospect_ID'])` when that column is present. */
  function DropId(f: Frame): (r: Frame)
    requires Wf(f)
    ensures Wf(r) && r.index == f.index && ProspectId !in r.cols
    ensures r.names == Remove(f.names, ProspectId)
    ensures forall n :: n != ProspectId ==> Lookup(r, n) == Lookup(f, n)
  {
    if ProspectId in f.cols then
      RemoveDistinct(f.names, ProspectId);
      Frame(Remove(f.names, ProspectId), f.cols - {ProspectId}, f.index)
    else
      RemoveAbsent(f.names, ProspectId);
      f
  }

  /** scripts/app.py:42-47. */
  function Encode(f: Frame): (t: Table)
    requires Wf(f)
    ensures TableWf(t) && t.index == f.index
  {
    GetDummies(DropId(f))
  }

  /** No encoded column is derived from Prospect_ID: every encoded column
      comes from another input column, and frames that differ only in
      Prospect_ID encode alike. */
  lemma EncodeIgnoresId(f: Frame, g: Frame)
    requires Wf(f) && Wf(g) && f.index == g.index
    requires Remove(f.names, ProspectId) == Remove(g.names, ProspectId)
    requires forall n :: n != ProspectId && n in f.cols ==> f.cols[n] == g.cols[n]
    ensures forall c :: c in Encode(f).columns ==> exists n :: n in f.names && n != ProspectId && FromField(f, n, c)
    ensures Encode(f) == Encode(g)
  {
    var df, dg := DropId(f), DropId(g);
    GetDummiesSpec(df);
    forall c | c in Encode(f).columns ensures exists n :: n in f.names && n != ProspectId && FromField(f, n, c) {
      var n :| n in df.names && FromField(df, n, c);
      assert FromField(f, n, c);
    }
    assert df.cols.Keys == dg.cols.Keys;
    assert df.cols == dg.cols;
  }
}

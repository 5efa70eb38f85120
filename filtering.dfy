/** Row filtering, `data.dropna()` at scripts/app.py:29: a row survives when
    none of its cells is missing, and every column drops the same rows. */
module Filtering {
  import opened Frames

  /** Row i has a value in every column. */
  predicate RowComplete(f: Frame, i: nat) {
    forall n :: n in f.cols && i < |f.cols[n].cells| ==> !f.cols[n].cells[i].Missing?
  }

  predicate NoMissing(f: Frame) {
    forall n, i :: n in f.cols && 0 <= i < |f.cols[n].cells| ==> !f.cols[n].cells[i].Missing?
  }

  predicate Increasing(ks: seq<nat>) {
    forall a, b :: 0 <= a < b < |ks| ==> ks[a] < ks[b]
  }

  /** Positions of the complete rows among the first n, in ascending order. */
  function Survivors(f: Frame, n: nat): (ks: seq<nat>)
    ensures |ks| <= n
    ensures forall k :: 0 <= k < |ks| ==> ks[k] < n && RowComplete(f, ks[k])
  {
    if n == 0 then [] else Survivors(f, n - 1) + (if RowComplete(f, n - 1) then [n - 1] else [])
  }

  /** The elements of xs at positions ks, in the order of ks. */
  function Pick<T>(xs: seq<T>, ks: seq<nat>): (r: seq<T>)
    requires forall k :: 0 <= k < |ks| ==> ks[k] < |xs|
    ensures |r| == |ks|
  {
    seq(|ks|, k requires 0 <= k < |ks| => xs[ks[k]])
  }

  function DropSeries(c: Series, ks: seq<nat>): Series
    requires forall k :: 0 <= k < |ks| ==> ks[k] < |c.cells|
  {
    Series(c.name, c.kind, Pick(c.cells, ks))
  }

  /** `df.dropna()`: the frame restricted to its complete rows. */
  function DropNa(f: Frame): (r: Frame)
    requires Wf(f)
    ensures Wf(r) && NoMissing(r)
    ensures r.names == f.names
    ensures forall n :: Lookup(r, n).Ok? == Lookup(f, n).Ok?
    ensures forall n :: n in f.cols ==> r.cols[n].kind == f.cols[n].kind
  {
    var ks := Survivors(f, Rows(f));
    Frame(f.names, map n | n in f.cols :: DropSeries(f.cols[n], ks), Pick(f.index, ks))
  }

  lemma {:induction false} SurvivorsIncreasing(f: Frame, n: nat)
    ensures Increasing(Survivors(f, n))
  {
    if n > 0 {
      SurvivorsIncreasing(f, n - 1);
    }
  }

  lemma {:induction false} SurvivorsExactly(f: Frame, n: nat, i: nat)
    requires i < n
    ensures i in Survivors(f, n) <==> RowComplete(f, i)
  {
    if i < n - 1 {
      SurvivorsExactly(f, n - 1, i);
      assert i !in (if RowComplete(f, n - 1) then [n - 1] else []);
    }
  }

  /** What `dropna` promises: the surviving rows are exactly the complete
      ones, in their original relative order, and every column (and the row
      labels) drops the same positions. */
  lemma DropNaSpec(f: Frame)
    requires Wf(f)
    ensures var r, ks := DropNa(f), Survivors(f, Rows(f));
      && Rows(r) == |ks|
      && Increasing(ks)
      && (forall i :: 0 <= i < Rows(f) ==> (i in ks <==> RowComplete(f, i)))
      && (forall k :: 0 <= k < |ks| ==> r.index[k] == f.index[ks[k]])
      && (forall n, k :: n in f.cols && 0 <= k < |ks| ==>
            r.cols[n].cells[k] == f.cols[n].cells[ks[k]])
  {
    SurvivorsIncreasing(f, Rows(f));
    forall i | 0 <= i < Rows(f) ensures i in Survivors(f, Rows(f)) <==> RowComplete(f, i) {
      SurvivorsExactly(f, Rows(f), i);
    }
  }
}

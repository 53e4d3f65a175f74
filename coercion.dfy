/**
 * `df[c] = pd.to_numeric(df[c], errors='coerce').fillna(0)` for every
 * resolved numeric-role column. How pandas reads a number out of text is
 * library code; it is the parameter `parse`.
 */
module Coercion {
  import opened Options
  import opened Tables
  import opened Roles

  /** `pd.to_numeric(errors='coerce')` on one cell; `None` is NaN. */
  function ToNumeric(c: Cell, parse: string -> Option<int>): Option<int> {
    match c
    case Num(n) => Some(n)
    case Str(s) => parse(s)
    case Missing => None
  }

  /** A column after coercion and `fillna(0)`. */
  function CoerceCells(cells: seq<Cell>, parse: string -> Option<int>): (r: seq<Cell>)
    ensures |r| == |cells|
    ensures forall j :: 0 <= j < |cells| ==> r[j] == Num(ToNumeric(cells[j], parse).GetOr(0))
  {
    seq(|cells|, j requires 0 <= j < |cells| => Num(ToNumeric(cells[j], parse).GetOr(0)))
  }

  /** Coercing an already coerced column changes nothing. */
  lemma CoerceCellsIdempotent(cells: seq<Cell>, parse: string -> Option<int>)
    ensures CoerceCells(CoerceCells(cells, parse), parse) == CoerceCells(cells, parse)
  {
  }

  /**
   * The table after `df[name] = ...`: same labels and row count, `df[name]`
   * now holds the coerced cells and `df[n]` of every other label is as it was.
   */
  function CoerceNamed(t: Table, name: string, parse: string -> Option<int>): (r: Table)
    ensures r.rows == t.rows && |r.columns| == |t.columns|
    ensures Names(r.columns) == Names(t.columns)
    ensures WellFormed(t) ==> WellFormed(r)
    ensures WellFormed(t) && name in Names(t.columns) ==> CellsOf(r, name) == CoerceCells(CellsOf(t, name), parse)
    ensures forall n :: n != name ==> CellsOf(r, n) == CellsOf(t, n)
  {
    var r := Table(
      seq(|t.columns|, i requires 0 <= i < |t.columns| =>
        if t.columns[i].name == name then Column(name, CoerceCells(t.columns[i].cells, parse))
        else t.columns[i]),
      t.rows);
    assert Names(r.columns) == Names(t.columns);
    assert forall n :: n != name && n in Names(t.columns) ==> CellsOf(r, n) == CellsOf(t, n) by {
      forall n | n != name && n in Names(t.columns)
        ensures CellsOf(r, n) == CellsOf(t, n)
      {
        SameIndex(r.columns, t.columns, n);
      }
    }
    if name in Names(t.columns) then
      SameIndex(r.columns, t.columns, name);
      r
    else
      r
  }

  /** Two column lists with the same labels place a label at the same first position. */
  lemma SameIndex(a: seq<Column>, b: seq<Column>, n: string)
    requires Names(a) == Names(b) && n in Names(a)
    ensures IndexOfName(a, n) == IndexOfName(b, n)
  {
    var i, j := IndexOfName(a, n), IndexOfName(b, n);
    assert Names(a)[i] == n && Names(b)[j] == n;
  }

  /** One pass of the loop body: `if c and c in df.columns: df[c] = ...` */
  function CoerceStep(t: Table, c: Option<string>, parse: string -> Option<int>): Table {
    if Truthy(c) && c.value in Names(t.columns) then CoerceNamed(t, c.value, parse) else t
  }

  /** The loop `for c in numeric_cols`, after its first |cs| passes. */
  function CoerceAll(t: Table, cs: seq<Option<string>>, parse: string -> Option<int>): Table
    decreases |cs|
  {
    if cs == [] then t
    else CoerceStep(CoerceAll(t, cs[..|cs| - 1], parse), cs[|cs| - 1], parse)
  }

  /** The processed table `calculate_metrics` returns. */
  function Process(t: Table, parse: string -> Option<int>): Table {
    CoerceAll(t, NumericTargets(Names(t.columns)), parse)
  }

  /**
   * After the loop: each column whose label is one of the truthy targets
   * holds its coerced cells, every other column is as it was, and the
   * labels and the row count are unchanged.
   */
  lemma {:induction false} CoerceAllColumns(t: Table, cs: seq<Option<string>>, parse: string -> Option<int>)
    requires WellFormed(t)
    ensures WellFormed(CoerceAll(t, cs, parse))
    ensures CoerceAll(t, cs, parse).rows == t.rows
    ensures |CoerceAll(t, cs, parse).columns| == |t.columns|
    ensures forall i :: 0 <= i < |t.columns| ==>
              CoerceAll(t, cs, parse).columns[i] ==
                if Truthy(Some(t.columns[i].name)) && Some(t.columns[i].name) in cs
                then Column(t.columns[i].name, CoerceCells(t.columns[i].cells, parse))
                else t.columns[i]
    decreases |cs|
  {
    if cs != [] {
      var init := cs[..|cs| - 1];
      var c := cs[|cs| - 1];
      CoerceAllColumns(t, init, parse);
      var before := CoerceAll(t, init, parse);
      assert Names(before.columns) == Names(t.columns);
      forall i | 0 <= i < |t.columns|
        ensures CoerceAll(t, cs, parse).columns[i] ==
                  if Truthy(Some(t.columns[i].name)) && Some(t.columns[i].name) in cs
                  then Column(t.columns[i].name, CoerceCells(t.columns[i].cells, parse))
                  else t.columns[i]
      {
        assert Some(t.columns[i].name) in cs <==> Some(t.columns[i].name) in init || c == Some(t.columns[i].name) by {
          assert cs == init + [c];
        }
        CoerceCellsIdempotent(t.columns[i].cells, parse);
      }
    }
  }

  /**
   * The processed table: every column that a numeric role resolved to holds
   * the parsed number of each cell, or 0 where parsing failed; every other
   * column, the labels and the row count are those of the input.
   */
  lemma {:induction false} ProcessedTable(t: Table, parse: string -> Option<int>)
    requires WellFormed(t)
    ensures WellFormed(Process(t, parse))
    ensures Process(t, parse).rows == t.rows
    ensures Names(Process(t, parse).columns) == Names(t.columns)
    ensures forall i :: 0 <= i < |t.columns| ==>
              Process(t, parse).columns[i] ==
                if Some(t.columns[i].name) in NumericTargets(Names(t.columns))
                then Column(t.columns[i].name, CoerceCells(t.columns[i].cells, parse))
                else t.columns[i]
  {
    var targets := NumericTargets(Names(t.columns));
    CoerceAllColumns(t, targets, parse);
    TargetsAreTruthy(Names(t.columns));
  }
}

/**
 * The DataFrame `calculate_metrics` receives and the copy it changes in
 * place: an array of columns, one slot per column, overwritten when a
 * column is coerced.
 */
module DataFrames {
  import opened Options
  import opened Tables
  import opened Roles
  import opened Coercion
  import opened Metrics

  class DataFrame {
    var data: array<Column>
    var rows: nat

    ghost predicate Valid()
      reads this, data
    {
      WellFormed(Snapshot())
    }

    /** The table this frame currently holds. */
    function Snapshot(): Table
      reads this, data
    {
      Table(data[..], rows)
    }

    constructor (t: Table)
      requires WellFormed(t)
      ensures Valid() && fresh(data)
      ensures Snapshot() == t
    {
      data := new Column[|t.columns|](i requires 0 <= i < |t.columns| => t.columns[i]);
      rows := t.rows;
      new;
      assert data[..] == t.columns;
    }

    /** `df.copy()`: a new frame with its own column array and the same contents. */
    method Copy() returns (c: DataFrame)
      requires Valid()
      ensures fresh(c) && fresh(c.data)
      ensures c.Valid() && c.Snapshot() == Snapshot()
    {
      c := new DataFrame(Snapshot());
    }

    /** `name in df.columns` */
    function HasColumn(name: string): (b: bool)
      reads this, data
      ensures b <==> exists i :: 0 <= i < data.Length && data[i].name == name
    {
      assert forall i :: 0 <= i < data.Length ==> Names(data[..])[i] == data[i].name;
      name in Names(data[..])
    }

    /** `df[name] = pd.to_numeric(df[name], errors='coerce').fillna(0)` */
    method CoerceNumeric(name: string, parse: string -> Option<int>)
      requires Valid() && HasColumn(name)
      modifies data
      ensures Valid()
      ensures Snapshot() == CoerceNamed(old(Snapshot()), name, parse)
    {
      ghost var before := Snapshot();
      var i := IndexOfName(data[..], name);
      data[i] := Column(name, CoerceCells(data[i].cells, parse));
      assert Snapshot().columns == CoerceNamed(before, name, parse).columns;
    }
  }

  /** The loop `for c in numeric_cols: if c and c in df.columns: df[c] = ...` */
  method CoerceColumns(frame: DataFrame, cs: seq<Option<string>>, parse: string -> Option<int>)
    requires frame.Valid()
    modifies frame.data
    ensures frame.Valid()
    ensures frame.Snapshot() == CoerceAll(old(frame.Snapshot()), cs, parse)
  {
    ghost var input := frame.Snapshot();
    for k := 0 to |cs|
      invariant frame.Valid()
      invariant frame.Snapshot() == CoerceAll(input, cs[..k], parse)
    {
      var c := cs[k];
      assert cs[..k + 1][..k] == cs[..k];
      if Truthy(c) && frame.HasColumn(c.value) {
        frame.CoerceNumeric(c.value, parse);
      }
    }
    assert cs[..|cs|] == cs;
  }

  /**
   * `calculate_metrics(df)`: work on a copy, resolve the numeric roles, coerce
   * the numeric-role columns of the copy one after the other, then read the
   * metrics off it. The frame passed in is left as it was.
   */
  method CalculateMetrics(df: DataFrame, parse: string -> Option<int>) returns (metrics: Metrics, processed: DataFrame)
    requires df.Valid()
    ensures fresh(processed) && fresh(processed.data) && processed.Valid()
    ensures processed.Snapshot() == Process(old(df.Snapshot()), parse)
    ensures metrics == MetricsOf(processed.Snapshot())
    ensures df.Snapshot() == old(df.Snapshot())
  {
    var copy := df.Copy();
    ghost var input := copy.Snapshot();
    var names := Names(copy.data[..]);

    var numericCols := NumericTargets(names);
    CoerceColumns(copy, numericCols, parse);

    metrics := MetricsOf(copy.Snapshot());
    processed := copy;
  }
}

/**
 * The table the dashboard works on: pandas' DataFrame seen as an ordered
 * list of named columns of equal length.
 */
module Tables {
  import opened Options

  /**
   * One cell. Str stands for every value pandas keeps as an object (a
   * string read from the file); Missing is NaN / None.
   */
  datatype Cell = Num(n: int) | Str(s: string) | Missing

  datatype Column = Column(name: string, cells: seq<Cell>)

  /** `rows` is `len(df)`, which a table without columns still has. */
  datatype Table = Table(columns: seq<Column>, rows: nat)

  /** `df.columns` */
  function Names(columns: seq<Column>): (r: seq<string>)
    ensures |r| == |columns|
    ensures forall i :: 0 <= i < |columns| ==> r[i] == columns[i].name
  {
    seq(|columns|, i requires 0 <= i < |columns| => columns[i].name)
  }

  /**
   * Every column has `rows` cells and no two columns share a name (the
   * pandas readers rename repeated headers, so `df[c]` is one column).
   */
  ghost predicate WellFormed(t: Table) {
    && (forall i :: 0 <= i < |t.columns| ==> |t.columns[i].cells| == t.rows)
    && (forall i, j :: 0 <= i < j < |t.columns| ==> t.columns[i].name != t.columns[j].name)
  }

  /** The position of the column called `name`. */
  function IndexOfName(columns: seq<Column>, name: string): (i: nat)
    requires name in Names(columns)
    ensures i < |columns| && columns[i].name == name
    ensures forall j :: 0 <= j < i ==> columns[j].name != name
  {
    if columns[0].name == name then 0
    else
      assert Names(columns[1..]) == Names(columns)[1..];
      1 + IndexOfName(columns[1..], name)
  }

  /** `df[name]`: the cells of the column called `name`; none if there is no such column. */
  function CellsOf(t: Table, name: string): (r: seq<Cell>)
    ensures name !in Names(t.columns) ==> r == []
    ensures forall i :: 0 <= i < |t.columns| && t.columns[i].name == name && WellFormed(t) ==> r == t.columns[i].cells
  {
    if name in Names(t.columns) then t.columns[IndexOfName(t.columns, name)].cells else []
  }

  /**
   * Python's truth value of a column label that may be `None`: `None` and
   * the empty name are false.
   */
  predicate Truthy(c: Option<string>) {
    c.Some? && c.value != ""
  }
}

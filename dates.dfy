/**
 * `detect_date_col`: pick the column to use as the time axis. The dtype
 * inspection and pandas' whole-column date parsing are library code and
 * come in as predicates on a column.
 */
module DateDetector {
  import opened Options
  import opened Text
  import opened Tables

  /** The exact lower-case labels that mark a date column, best first. */
  const DATE_NAMES: seq<string> := ["date", "posted_at", "created_at", "timestamp"]

  /** Column `i` is the first one `p` accepts. */
  ghost predicate IsFirstWhere(columns: seq<Column>, p: Column -> bool, i: int) {
    0 <= i < |columns| && p(columns[i]) && forall j :: 0 <= j < i ==> !p(columns[j])
  }

  ghost predicate NoneWhere(columns: seq<Column>, p: Column -> bool) {
    forall i :: 0 <= i < |columns| ==> !p(columns[i])
  }

  /** A `for col in df.columns` loop that returns the first column `p` accepts. */
  function FirstWhere(columns: seq<Column>, p: Column -> bool): (r: Option<nat>)
    ensures r.Some? ==> IsFirstWhere(columns, p, r.value)
    ensures r.None? <==> NoneWhere(columns, p)
  {
    if columns == [] then None
    else if p(columns[0]) then Some(0)
    else
      match FirstWhere(columns[1..], p)
      case None => None
      case Some(j) => Some(j + 1)
  }

  /** `xs.index(x)` guarded by `x in xs`. */
  function IndexOf(xs: seq<string>, x: string): (r: Option<nat>)
    ensures r.None? <==> x !in xs
    ensures r.Some? ==> r.value < |xs| && xs[r.value] == x
    ensures r.Some? ==> forall j :: 0 <= j < r.value ==> xs[j] != x
  {
    if xs == [] then None
    else if xs[0] == x then Some(0)
    else
      match IndexOf(xs[1..], x)
      case None => None
      case Some(j) => Some(j + 1)
  }

  /**
   * Label `i` is the one the name rule picks: it equals `names[k]`, no
   * earlier entry of `names` is present at all, and no earlier label
   * equals `names[k]`.
   */
  ghost predicate IsFirstNamed(lowered: seq<string>, names: seq<string>, k: int, i: int) {
    && 0 <= k < |names| && 0 <= i < |lowered|
    && lowered[i] == names[k]
    && (forall k' :: 0 <= k' < k ==> names[k'] !in lowered)
    && (forall j :: 0 <= j < i ==> lowered[j] != names[k])
  }

  ghost predicate NoneNamed(lowered: seq<string>, names: seq<string>) {
    forall k :: 0 <= k < |names| ==> names[k] !in lowered
  }

  /** The loop over the fixed name list, in list order. */
  function FirstNamed(lowered: seq<string>, names: seq<string>): (r: Option<nat>)
    ensures r.None? <==> NoneNamed(lowered, names)
    ensures r.Some? ==> exists k :: IsFirstNamed(lowered, names, k, r.value)
    ensures forall k, i :: IsFirstNamed(lowered, names, k, i) ==> r == Some(i)
  {
    if names == [] then None
    else
      match IndexOf(lowered, names[0])
      case Some(i) =>
        assert IsFirstNamed(lowered, names, 0, i);
        Some(i)
      case None =>
        var r := FirstNamed(lowered, names[1..]);
        assert r.Some? ==> exists k :: IsFirstNamed(lowered, names, k, r.value) by {
          if r.Some? {
            var k :| IsFirstNamed(lowered, names[1..], k, r.value);
            assert IsFirstNamed(lowered, names, k + 1, r.value);
          }
        }
        assert forall k, i :: IsFirstNamed(lowered, names, k, i) ==> r == Some(i) by {
          forall k, i | IsFirstNamed(lowered, names, k, i)
            ensures r == Some(i)
          {
            assert k != 0;
            assert IsFirstNamed(lowered, names[1..], k - 1, i);
          }
        }
        r
  }

  /**
   * `detect_date_col(df)`: the first column already typed as datetime;
   * failing that, the first column whose lower-cased label is the first of
   * DATE_NAMES present; failing that, the first column pandas parses as
   * dates; failing that, `None`.
   */
  function DetectDateCol(columns: seq<Column>, isDatetime: Column -> bool, parsesAsDates: Column -> bool)
    : (r: Option<string>)
    ensures r.Some? ==> r.value in Names(columns)
    ensures forall i :: IsFirstWhere(columns, isDatetime, i) ==> r == Some(columns[i].name)
    ensures NoneWhere(columns, isDatetime) ==>
              forall k, i :: IsFirstNamed(LowerAll(Names(columns)), DATE_NAMES, k, i) ==> r == Some(columns[i].name)
    ensures NoneWhere(columns, isDatetime) && NoneNamed(LowerAll(Names(columns)), DATE_NAMES) ==>
              forall i :: IsFirstWhere(columns, parsesAsDates, i) ==> r == Some(columns[i].name)
    ensures r.None? <==>
              && NoneWhere(columns, isDatetime)
              && NoneNamed(LowerAll(Names(columns)), DATE_NAMES)
              && NoneWhere(columns, parsesAsDates)
  {
    match FirstWhere(columns, isDatetime)
    case Some(i) => Some(columns[i].name)
    case None =>
      match FirstNamed(LowerAll(Names(columns)), DATE_NAMES)
      case Some(i) => Some(columns[i].name)
      case None =>
        match FirstWhere(columns, parsesAsDates)
        case Some(i) => Some(columns[i].name)
        case None => None
  }
}

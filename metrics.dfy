/**
 * The totals and rates `calculate_metrics` reads off the processed table.
 * Python computes the rates in floating point and rounds them to two
 * decimals; here they are exact reals.
 */
module Metrics {
  import opened Options
  import opened Tables
  import opened Roles
  import opened Coercion

  /** The dictionary `calculate_metrics` returns (before rounding). */
  datatype Metrics = Metrics(
    totalImpressions: int,
    totalEngagements: int,
    totalClicks: int,
    totalForms: int,
    engagementRatePct: real,
    ctrPct: real,
    avgLikes: real,
    avgComments: real,
    videoCompletionRatePct: real,
    detected: map<string, Option<string>>)

  /** `.sum()` of a numeric column. */
  function SumCells(cells: seq<Cell>): int
    decreases |cells|
  {
    if cells == [] then 0
    else SumCells(cells[..|cells| - 1]) + (if cells[|cells| - 1].Num? then cells[|cells| - 1].n else 0)
  }

  /** The sum of a raw column read as numbers, a cell that does not parse counting 0. */
  function SumParsed(cells: seq<Cell>, parse: string -> Option<int>): int
    decreases |cells|
  {
    if cells == [] then 0
    else SumParsed(cells[..|cells| - 1], parse) + ToNumeric(cells[|cells| - 1], parse).GetOr(0)
  }

  /** Summing a coerced column is summing the raw column with unparsable cells as 0. */
  lemma {:induction false} SumCoerced(cells: seq<Cell>, parse: string -> Option<int>)
    ensures SumCells(CoerceCells(cells, parse)) == SumParsed(cells, parse)
    decreases |cells|
  {
    if cells != [] {
      var init := cells[..|cells| - 1];
      assert CoerceCells(cells, parse)[..|cells| - 1] == CoerceCells(init, parse);
      SumCoerced(init, parse);
    }
  }

  /** Every cell of the column, read as a number, is non-negative. */
  ghost predicate NonNegativeColumn(cells: seq<Cell>, parse: string -> Option<int>) {
    forall j :: 0 <= j < |cells| ==> ToNumeric(cells[j], parse).GetOr(0) >= 0
  }

  lemma {:induction false} SumParsedNonNegative(cells: seq<Cell>, parse: string -> Option<int>)
    requires NonNegativeColumn(cells, parse)
    ensures SumParsed(cells, parse) >= 0
    decreases |cells|
  {
    if cells != [] {
      SumParsedNonNegative(cells[..|cells| - 1], parse);
    }
  }

  /** `int(df[col].sum()) if col else 0` for the column the role resolved to. */
  function Total(p: Table, role: Role): int {
    var c := Resolve(Names(p.columns), role);
    if Truthy(c) then SumCells(CellsOf(p, c.value)) else 0
  }

  /** `(num / den * 100) if den else 0` */
  function Percent(num: int, den: int): (r: real)
    ensures den == 0 ==> r == 0.0
    ensures den != 0 ==> r * den as real == 100.0 * num as real
  {
    if den != 0 then num as real / den as real * 100.0 else 0.0
  }

  /** `total / len(df) if col and len(df) else 0` */
  function PerRow(total: int, col: Option<string>, rows: nat): (r: real)
    ensures !(Truthy(col) && rows != 0) ==> r == 0.0
    ensures Truthy(col) && rows != 0 ==> r * rows as real == total as real
  {
    if Truthy(col) && rows != 0 then total as real / rows as real else 0.0
  }

  /**
   * The straight-line part of `calculate_metrics`: the engagement total and
   * the rates, each division guarded against a zero denominator.
   */
  function Summarize(
    totalImpressions: int, totalLikes: int, totalComments: int, totalShares: int, totalClicks: int,
    totalVideoViews: int, totalVideoCompletions: int, totalForms: int,
    likesCol: Option<string>, commentsCol: Option<string>, rows: nat,
    detected: map<string, Option<string>>): (m: Metrics)
    ensures m.totalImpressions == totalImpressions && m.totalClicks == totalClicks && m.totalForms == totalForms
    ensures m.totalEngagements == totalLikes + totalComments + totalShares + totalClicks
    ensures totalImpressions == 0 ==> m.engagementRatePct == 0.0 && m.ctrPct == 0.0
    ensures totalImpressions != 0 ==>
              && m.engagementRatePct * totalImpressions as real == 100.0 * m.totalEngagements as real
              && m.ctrPct * totalImpressions as real == 100.0 * totalClicks as real
    ensures !(Truthy(likesCol) && rows != 0) ==> m.avgLikes == 0.0
    ensures Truthy(likesCol) && rows != 0 ==> m.avgLikes * rows as real == totalLikes as real
    ensures !(Truthy(commentsCol) && rows != 0) ==> m.avgComments == 0.0
    ensures Truthy(commentsCol) && rows != 0 ==> m.avgComments * rows as real == totalComments as real
    ensures totalVideoViews == 0 ==> m.videoCompletionRatePct == 0.0
    ensures totalVideoViews != 0 ==>
              m.videoCompletionRatePct * totalVideoViews as real == 100.0 * totalVideoCompletions as real
    ensures m.detected == detected
  {
    var totalEngagements := totalLikes + totalComments + totalShares + totalClicks;
    Metrics(
      totalImpressions,
      totalEngagements,
      totalClicks,
      totalForms,
      Percent(totalEngagements, totalImpressions),
      Percent(totalClicks, totalImpressions),
      PerRow(totalLikes, likesCol, rows),
      PerRow(totalComments, commentsCol, rows),
      Percent(totalVideoCompletions, totalVideoViews),
      detected)
  }

  /** The `detected` dictionary: each of its eight roles mapped to the label it resolved to. */
  function Detected(names: seq<string>): map<string, Option<string>> {
    map[
      "impressions" := Resolve(names, Impressions),
      "likes" := Resolve(names, Likes),
      "comments" := Resolve(names, Comments),
      "shares" := Resolve(names, Shares),
      "clicks" := Resolve(names, Clicks),
      "form" := Resolve(names, FormSubmissions),
      "video_views" := Resolve(names, VideoViews),
      "video_completions" := Resolve(names, VideoCompletions)]
  }

  /** Every column the `detected` report names is one of the labels the coercion loop converted. */
  lemma DetectedAreTargets(names: seq<string>)
    ensures forall key :: key in Detected(names) ==> Detected(names)[key] in NumericTargets(names)
  {
    ResolvedIsTarget(names, Impressions);
    ResolvedIsTarget(names, Likes);
    ResolvedIsTarget(names, Comments);
    ResolvedIsTarget(names, Shares);
    ResolvedIsTarget(names, Clicks);
    ResolvedIsTarget(names, VideoViews);
    ResolvedIsTarget(names, VideoCompletions);
    ResolvedIsTarget(names, FormSubmissions);
  }

  /** The metrics of a processed table. */
  function MetricsOf(p: Table): Metrics {
    var names := Names(p.columns);
    Summarize(
      Total(p, Impressions), Total(p, Likes), Total(p, Comments), Total(p, Shares), Total(p, Clicks),
      Total(p, VideoViews), Total(p, VideoCompletions), Total(p, FormSubmissions),
      Resolve(names, Likes), Resolve(names, Comments), p.rows,
      Detected(names))
  }

  /** The processed column of a resolved numeric role is its input column, coerced. */
  lemma ProcessedColumn(t: Table, parse: string -> Option<int>, role: Role)
    requires WellFormed(t)
    requires role in NUMERIC_ROLES
    requires Resolve(Names(t.columns), role).Some?
    ensures var name := Resolve(Names(t.columns), role).value;
      CellsOf(Process(t, parse), name) == CoerceCells(CellsOf(t, name), parse)
  {
    var names := Names(t.columns);
    var p := Process(t, parse);
    var c := Resolve(names, role);
    ProcessedTable(t, parse);
    ResolvedIsTarget(names, role);
    var i := IndexOfName(t.columns, c.value);
    assert p.columns[i].cells == CoerceCells(t.columns[i].cells, parse);
    assert CellsOf(p, c.value) == p.columns[i].cells;
  }

  /**
   * A role's total read off the input table: 0 when the role does not
   * resolve, otherwise its column summed with unparsable cells as 0.
   */
  function InputTotal(t: Table, parse: string -> Option<int>, role: Role): int {
    var c := Resolve(Names(t.columns), role);
    if c.Some? then SumParsed(CellsOf(t, c.value), parse) else 0
  }

  /**
   * The total of a numeric role, measured on the input table: 0 when the
   * role does not resolve, otherwise the sum of its column read as numbers
   * with unparsable cells counting 0.
   */
  lemma {:induction false} TotalFromInput(t: Table, parse: string -> Option<int>, role: Role)
    requires WellFormed(t)
    requires role in NUMERIC_ROLES
    ensures Resolve(Names(t.columns), role).None? ==> Total(Process(t, parse), role) == 0
    ensures Resolve(Names(t.columns), role).Some? ==>
              Total(Process(t, parse), role) == SumParsed(CellsOf(t, Resolve(Names(t.columns), role).value), parse)
    ensures Total(Process(t, parse), role) == InputTotal(t, parse, role)
  {
    var names := Names(t.columns);
    var p := Process(t, parse);
    ProcessedTable(t, parse);
    assert Names(p.columns) == names;
    var c := Resolve(names, role);
    if c.Some? {
      ResolvedIsTruthy(names, role);
      ProcessedColumn(t, parse, role);
      SumCoerced(CellsOf(t, c.value), parse);
    }
  }

  /**
   * The dictionary `calculate_metrics` returns, stated on the input table:
   * `Summarize` of the input totals, the input's likes and comments labels,
   * its row count and the `detected` map of its labels. The meaning of each
   * field is then `Summarize`'s contract.
   */
  lemma {:induction false} MetricsFromInput(t: Table, parse: string -> Option<int>)
    requires WellFormed(t)
    ensures var names := Names(t.columns);
      MetricsOf(Process(t, parse)) == Summarize(
        InputTotal(t, parse, Impressions), InputTotal(t, parse, Likes), InputTotal(t, parse, Comments),
        InputTotal(t, parse, Shares), InputTotal(t, parse, Clicks), InputTotal(t, parse, VideoViews),
        InputTotal(t, parse, VideoCompletions), InputTotal(t, parse, FormSubmissions),
        Resolve(names, Likes), Resolve(names, Comments), t.rows, Detected(names))
  {
    ProcessedTable(t, parse);
    assert Names(Process(t, parse).columns) == Names(t.columns);
    TotalFromInput(t, parse, Impressions);
    TotalFromInput(t, parse, Likes);
    TotalFromInput(t, parse, Comments);
    TotalFromInput(t, parse, Shares);
    TotalFromInput(t, parse, Clicks);
    TotalFromInput(t, parse, VideoViews);
    TotalFromInput(t, parse, VideoCompletions);
    TotalFromInput(t, parse, FormSubmissions);
  }

  /** The rates of all-zero totals are all 0. */
  lemma SummarizeZero(likesCol: Option<string>, commentsCol: Option<string>, rows: nat, detected: map<string, Option<string>>)
    requires rows == 0
    ensures var m := Summarize(0, 0, 0, 0, 0, 0, 0, 0, likesCol, commentsCol, rows, detected);
      && m.totalImpressions == 0 && m.totalEngagements == 0 && m.totalClicks == 0 && m.totalForms == 0
      && m.engagementRatePct == 0.0 && m.ctrPct == 0.0 && m.avgLikes == 0.0 && m.avgComments == 0.0
      && m.videoCompletionRatePct == 0.0
  {
  }

  /** Zero completions give a zero completion rate, whatever the view count. */
  lemma NoCompletionsNoRate(
    totalImpressions: int, totalLikes: int, totalComments: int, totalShares: int, totalClicks: int,
    totalVideoViews: int, totalVideoCompletions: int, totalForms: int,
    likesCol: Option<string>, commentsCol: Option<string>, rows: nat,
    detected: map<string, Option<string>>)
    requires totalVideoCompletions == 0
    ensures Summarize(totalImpressions, totalLikes, totalComments, totalShares, totalClicks,
                      totalVideoViews, totalVideoCompletions, totalForms, likesCol, commentsCol, rows, detected)
              .videoCompletionRatePct == 0.0
  {
  }

  /** Every numeric-role total of a table with no rows is 0, and so is every rate. */
  lemma {:induction false} EmptyTableMetrics(t: Table, parse: string -> Option<int>)
    requires WellFormed(t) && t.rows == 0
    ensures var m := MetricsOf(Process(t, parse));
      && m.totalImpressions == 0 && m.totalEngagements == 0 && m.totalClicks == 0 && m.totalForms == 0
      && m.engagementRatePct == 0.0 && m.ctrPct == 0.0 && m.avgLikes == 0.0 && m.avgComments == 0.0
      && m.videoCompletionRatePct == 0.0
  {
    var p := Process(t, parse);
    ProcessedTable(t, parse);
    TotalOfEmpty(t, parse, Impressions);
    TotalOfEmpty(t, parse, Likes);
    TotalOfEmpty(t, parse, Comments);
    TotalOfEmpty(t, parse, Shares);
    TotalOfEmpty(t, parse, Clicks);
    TotalOfEmpty(t, parse, VideoViews);
    TotalOfEmpty(t, parse, VideoCompletions);
    TotalOfEmpty(t, parse, FormSubmissions);
    var names := Names(p.columns);
    SummarizeZero(Resolve(names, Likes), Resolve(names, Comments), p.rows, Detected(names));
  }

  lemma TotalOfEmpty(t: Table, parse: string -> Option<int>, role: Role)
    requires WellFormed(t) && t.rows == 0
    requires role in NUMERIC_ROLES
    ensures Total(Process(t, parse), role) == 0
  {
    TotalFromInput(t, parse, role);
    var names := Names(t.columns);
    var c := Resolve(names, role);
    if c.Some? {
      var i :| 0 <= i < |names| && names[i] == c.value;
      assert CellsOf(t, c.value) == t.columns[i].cells == [];
    }
  }

  /**
   * Every cell of a column some numeric role resolves to, read as a number,
   * is non-negative; other columns may hold anything.
   */
  ghost predicate NonNegativeCounts(t: Table, parse: string -> Option<int>) {
    forall role :: role in NUMERIC_ROLES && Resolve(Names(t.columns), role).Some? ==>
      NonNegativeColumn(CellsOf(t, Resolve(Names(t.columns), role).value), parse)
  }

  lemma TotalNonNegative(t: Table, parse: string -> Option<int>, role: Role)
    requires WellFormed(t) && NonNegativeCounts(t, parse)
    requires role in NUMERIC_ROLES
    ensures Total(Process(t, parse), role) >= 0
  {
    TotalFromInput(t, parse, role);
    var c := Resolve(Names(t.columns), role);
    if c.Some? {
      SumParsedNonNegative(CellsOf(t, c.value), parse);
    }
  }

  /** Non-negative totals give non-negative rates. */
  lemma SummarizeNonNegative(
    totalImpressions: int, totalLikes: int, totalComments: int, totalShares: int, totalClicks: int,
    totalVideoViews: int, totalVideoCompletions: int, totalForms: int,
    likesCol: Option<string>, commentsCol: Option<string>, rows: nat,
    detected: map<string, Option<string>>)
    requires totalImpressions >= 0 && totalLikes >= 0 && totalComments >= 0 && totalShares >= 0
    requires totalClicks >= 0 && totalVideoViews >= 0 && totalVideoCompletions >= 0 && totalForms >= 0
    ensures var m := Summarize(totalImpressions, totalLikes, totalComments, totalShares, totalClicks,
                               totalVideoViews, totalVideoCompletions, totalForms, likesCol, commentsCol, rows, detected);
      && m.totalImpressions >= 0 && m.totalEngagements >= 0 && m.totalClicks >= 0 && m.totalForms >= 0
      && m.engagementRatePct >= 0.0 && m.ctrPct >= 0.0 && m.avgLikes >= 0.0 && m.avgComments >= 0.0
      && m.videoCompletionRatePct >= 0.0
  {
    PercentNonNegative(totalLikes + totalComments + totalShares + totalClicks, totalImpressions);
    PercentNonNegative(totalClicks, totalImpressions);
    PercentNonNegative(totalVideoCompletions, totalVideoViews);
    if Truthy(likesCol) && rows != 0 {
      assert totalLikes as real / rows as real >= 0.0;
    }
    if Truthy(commentsCol) && rows != 0 {
      assert totalComments as real / rows as real >= 0.0;
    }
  }

  /** When the counts in the resolved role columns are non-negative, so is every total and every rate. */
  lemma {:induction false} MetricsNonNegative(t: Table, parse: string -> Option<int>)
    requires WellFormed(t) && NonNegativeCounts(t, parse)
    ensures var m := MetricsOf(Process(t, parse));
      && m.totalImpressions >= 0 && m.totalEngagements >= 0 && m.totalClicks >= 0 && m.totalForms >= 0
      && m.engagementRatePct >= 0.0 && m.ctrPct >= 0.0 && m.avgLikes >= 0.0 && m.avgComments >= 0.0
      && m.videoCompletionRatePct >= 0.0
  {
    var p := Process(t, parse);
    TotalNonNegative(t, parse, Impressions);
    TotalNonNegative(t, parse, Likes);
    TotalNonNegative(t, parse, Comments);
    TotalNonNegative(t, parse, Shares);
    TotalNonNegative(t, parse, Clicks);
    TotalNonNegative(t, parse, VideoViews);
    TotalNonNegative(t, parse, VideoCompletions);
    TotalNonNegative(t, parse, FormSubmissions);
    var names := Names(p.columns);
    SummarizeNonNegative(
      Total(p, Impressions), Total(p, Likes), Total(p, Comments), Total(p, Shares), Total(p, Clicks),
      Total(p, VideoViews), Total(p, VideoCompletions), Total(p, FormSubmissions),
      Resolve(names, Likes), Resolve(names, Comments), p.rows, Detected(names));
  }

  lemma PercentNonNegative(num: int, den: int)
    requires num >= 0 && den >= 0
    ensures Percent(num, den) >= 0.0
  {
    if den != 0 {
      assert num as real / den as real >= 0.0;
    }
  }
}

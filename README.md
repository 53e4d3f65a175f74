# LinkedIn analytics dashboard — metrics core

A Dafny model of the data-processing core of `LinkedInapp.py`, a Streamlit
dashboard. The dashboard loads a LinkedIn analytics export and reports
engagement totals and rates. The model covers three functions:

- `fuzzy_col` guesses which column plays a role, such as "likes". It tries
  each candidate substring in turn and takes the first column whose
  lower-cased label contains it.
- `detect_date_col` picks the time-axis column. It takes the first column
  already typed as datetime. Failing that, it takes the column whose
  lower-cased label is the first of `date`, `posted_at`, `created_at` and
  `timestamp` that is present. Failing that, it takes the first column
  pandas parses as dates.
- `calculate_metrics` copies the table and resolves twelve roles. The eight
  numeric roles have their columns coerced to numbers, with a cell that
  does not parse becoming 0. It then sums them and computes the guarded
  rates, along with the `detected` map of role to column.

Modules:

| file | module | models |
|---|---|---|
| `options.dfy` | `Options` | `None` / a value |
| `text.dfy` | `Text` | ASCII lower-casing and substring containment (`in` on strings) |
| `tables.dfy` | `Tables` | a table as named columns of cells; Python truthiness of a label |
| `resolver.dfy` | `ColumnResolver` | `fuzzy_col` |
| `dates.dfy` | `DateDetector` | `detect_date_col` |
| `roles.dfy` | `Roles` | the twelve roles, their candidate lists and `numeric_cols` |
| `coercion.dfy` | `Coercion` | `pd.to_numeric(..., errors='coerce').fillna(0)` and the coercion loop, as functions |
| `metrics.dfy` | `Metrics` | totals, rates and the `detected` map |
| `frame.dfy` | `DataFrames` | the data frame as a mutable object; `calculate_metrics` as a method |
| `examples.dfy` | `Examples` | resolution and detection on concrete labels |

`DataFrames.CalculateMetrics` works on a `DataFrame` object. It copies the
frame, converts the columns in place in a loop and returns the metrics
with the converted copy. The method is proved against the functions
`Coercion.Process` and `Metrics.MetricsOf`, and the lemmas are about those
functions.

The candidate lists have consequences that the lemmas in `Examples` state
on concrete labels:

- A label such as `Platform` contains `form`, so it is taken for the
  form-submissions role and its text cells become numbers, mostly 0.
- A `video_views` column also serves as the impressions column, because
  `views` is an impressions candidate.
- `likes` can never decide the likes role, because `like` is tried first.
  Likewise `form` shadows `form_submission`.
- A `Video_Completions` column contains neither `video_complete` nor
  `video completed`, so the video-completions role stays unresolved and
  the completion rate is 0 for such an export.

## Model

| member | source | states |
|---|---|---|
| Text.Lower | LinkedInapp.py:38 | `c.lower()` keeps the length, leaves no upper-case letter, turns each upper-case letter into its lower-case partner and keeps every other character |
| Text.LowerIdempotent | LinkedInapp.py:38 | lowering a lowered label changes nothing |
| Text.LowerIgnoresCase | LinkedInapp.py:38-41 | labels whose characters agree position by position up to ASCII letter case (`SameUpToCase`) lower to the same string, so the match at line 41 ignores case |
| Text.LowerAll | LinkedInapp.py:38 | the comprehension `[c.lower() for c in df.columns]`: one lowered label per column, in column order |
| Text.Contains | LinkedInapp.py:41 | `needle in s` holds exactly when the needle occurs at some offset of the string |
| ColumnResolver.FirstContaining | LinkedInapp.py:40-42 | the index found is the first column whose lowered label contains the needle; none means no column contains it |
| ColumnResolver.FirstHit | LinkedInapp.py:39-42 | the hit found uses the earliest candidate that matches any column and, for that candidate, the first matching column; none means no pair matches |
| ColumnResolver.FuzzyCol | LinkedInapp.py:37-43 | `fuzzy_col`, which `Roles.Resolve` applies to a role's candidate list at lines 65-76: the result is None or one of the original (not lower-cased) labels; it is None exactly when no candidate occurs in any lowered label; otherwise it is the column of the first hit, with candidate priority ahead of column order |
| ColumnResolver.ShadowedCandidate | LinkedInapp.py:39-42 | a candidate that contains an earlier candidate can be removed from the list without changing the result |
| ColumnResolver.ResolvedNonEmpty | LinkedInapp.py:37-43 | with no empty candidate, a resolved label is never the empty string |
| Tables.Names | LinkedInapp.py:38 | `df.columns`: one label per column, in column order |
| Tables.CellsOf | LinkedInapp.py:82 | `df[name]`: the cells of the column carrying the label in a well-formed table. Every `df[...]` at lines 82-91 uses a resolved label, so the missing-label case, where pandas raises KeyError, is never reached; there the function returns no cells |
| Roles.Candidates | LinkedInapp.py:65-76 | every role has at least one candidate and no candidate is empty |
| Roles.NumericTargets | LinkedInapp.py:78-79 | `numeric_cols` holds eight entries, entry k being the resolution of the k-th numeric role |
| Roles.ResolvedIsTarget | LinkedInapp.py:78-79 | the resolution of each numeric role appears in `numeric_cols` |
| Roles.ResolvedIsTruthy | LinkedInapp.py:81 | the `if c` test on a resolved label is true exactly when the role resolved |
| Roles.TargetsAreTruthy | LinkedInapp.py:80-81 | every resolved entry of `numeric_cols` passes the loop's `if c` test |
| DateDetector.FirstWhere | LinkedInapp.py:47-49 | the first column the predicate accepts; none exactly when it accepts none |
| DateDetector.IndexOf | LinkedInapp.py:52 | `list.index` guarded by `in`: the first position holding the value, none exactly when absent |
| DateDetector.FirstNamed | LinkedInapp.py:50-52 | the fixed names are tried in list order; the first name present picks its first column; none exactly when no name is present |
| DateDetector.DetectDateCol | LinkedInapp.py:46-59 | the result is an existing label. The first datetime-typed column wins. Without one, the first listed date name present wins. Without either, the first column that parses as dates wins. None exactly when all three rules fail |
| Coercion.CoerceCells | LinkedInapp.py:82 | each cell becomes the number it parses to, or 0 when it does not parse; the length is kept |
| Coercion.CoerceCellsIdempotent | LinkedInapp.py:80-82 | coercing an already coerced column changes nothing, so a column named by two roles is converted once in effect |
| Coercion.CoerceNamed | LinkedInapp.py:82 | after `df[name] = ...` the labels, row count and well-formedness are kept; `df[name]` holds the coerced cells of the old `df[name]`; `df[n]` of every other label is unchanged |
| Coercion.CoerceAllColumns | LinkedInapp.py:80-82 | `Coercion.CoerceAll`, the loop folded over `Coercion.CoerceStep` (one `if c and c in df.columns` pass): after the loop each column named by a truthy target holds its coerced cells; every other column, the labels and the row count are unchanged |
| Coercion.ProcessedTable | LinkedInapp.py:63-82 | `Coercion.Process`, the table `calculate_metrics` returns: the processed table has the input's labels and row count. A column that a numeric role resolved to holds the parsed value or 0. Every other column is the input's own |
| Metrics.SumCoerced | LinkedInapp.py:82-91 | the sum of a coerced column is the sum of the raw column with each unparsable cell counted as 0 |
| Metrics.SumParsedNonNegative | LinkedInapp.py:84-91 | a column whose cells all read as non-negative numbers sums to a non-negative total |
| Metrics.Percent | LinkedInapp.py:95-96 | a zero denominator gives 0; otherwise the result times the denominator is 100 times the numerator |
| Metrics.PerRow | LinkedInapp.py:97-98 | 0 unless the role resolved and the table has rows; otherwise the result times the row count is the total |
| Metrics.Summarize | LinkedInapp.py:93-121 | total engagements is likes + comments + shares + clicks. Engagement rate and CTR are 0 when impressions are 0, else that percentage of impressions. The per-post averages are 0 unless the column resolved and there are rows. The video completion rate is 0 when video views are 0. The report keeps the totals and the `detected` map |
| Metrics.DetectedAreTargets | LinkedInapp.py:111-120 | `Metrics.Detected`, the `detected` dictionary: every column it names is one of the labels the coercion loop converted |
| Metrics.ProcessedColumn | LinkedInapp.py:80-84 | the processed column of a resolved numeric role is the coerced input column |
| Metrics.TotalFromInput | LinkedInapp.py:84-91 | `Metrics.Total` of the processed table (`int(df[col].sum()) if col else 0`): an unresolved role totals 0; a resolved one totals the parsed input column with unparsable cells counted as 0 |
| Metrics.MetricsFromInput | LinkedInapp.py:62-121 | `Metrics.MetricsOf` of the processed table, the returned dictionary, is `Summarize` of the input's per-role totals, its likes and comments labels, its row count and the `detected` map of its labels, so each field has the meaning `Summarize` states |
| Metrics.NoCompletionsNoRate | LinkedInapp.py:90-99 | zero video completions give a zero completion rate whatever the view count |
| Metrics.TotalOfEmpty | LinkedInapp.py:84-91 | on a table without rows every numeric total is 0 |
| Metrics.SummarizeZero | LinkedInapp.py:93-99 | all-zero totals over zero rows give zero for every total and rate |
| Metrics.EmptyTableMetrics | LinkedInapp.py:62-121 | a table without rows yields all-zero totals and rates, with no division attempted |
| Metrics.TotalNonNegative | LinkedInapp.py:84-91 | when the columns the numeric roles resolve to read as non-negative numbers, every total is non-negative; other columns may hold anything |
| Metrics.SummarizeNonNegative | LinkedInapp.py:93-99 | non-negative totals give non-negative engagements, rates and averages |
| Metrics.MetricsNonNegative | LinkedInapp.py:62-121 | when the columns the numeric roles resolve to read as non-negative numbers, every reported total and rate is non-negative; other columns may hold anything |
| Metrics.PercentNonNegative | LinkedInapp.py:95-99 | a guarded percentage of non-negative counts is non-negative |
| DataFrames.DataFrame.constructor | LinkedInapp.py:62 | a fresh frame holds the given table |
| DataFrames.DataFrame.Copy | LinkedInapp.py:63 | `df.copy()` returns a new frame with its own column storage and the same contents |
| DataFrames.DataFrame.HasColumn | LinkedInapp.py:81 | `c in df.columns` holds exactly when some column carries the label |
| DataFrames.DataFrame.CoerceNumeric | LinkedInapp.py:82 | `df[c] = pd.to_numeric(...)`: the named column is replaced in place by its coerced cells |
| DataFrames.CoerceColumns | LinkedInapp.py:80-82 | the loop leaves the frame holding the fold of the coercion step over `numeric_cols`; the frame stays well formed |
| DataFrames.CalculateMetrics | LinkedInapp.py:62-123 | returns a fresh frame holding the processed table and the metrics of that table; the caller's frame is unchanged |
| Examples.VideoViewsCountAsImpressions | LinkedInapp.py:65 | in a table whose only column is `video_views`, the impressions role resolves to it through `views` |
| Examples.VideoViewsResolve | LinkedInapp.py:74 | the video-views role resolves to the same column, so two roles share it |
| Examples.PlatformIsCoerced | LinkedInapp.py:76-82 | a `Platform` column is taken for form submissions, and the processed table holds its coerced cells |
| Examples.LikesCandidateIsShadowed | LinkedInapp.py:66 | the likes role resolves as if its list were `like`, `reactions` |
| Examples.FormSubmissionCandidateIsShadowed | LinkedInapp.py:76 | the form-submissions role resolves as if its list were `form`, `lead` |
| Examples.CompletionsMissComplete | LinkedInapp.py:75 | the candidate `video_complete` does not occur in the label `Video_Completions` |
| Examples.CompletionsMissCompleted | LinkedInapp.py:75 | the candidate `video completed` does not occur in the label `Video_Completions` |
| Examples.VideoCompletionsUnresolved | LinkedInapp.py:75 | a table whose completions column is labelled `Video_Completions` leaves the video-completions role unresolved |
| Examples.UnresolvedCompletionsRate | LinkedInapp.py:90-99 | whenever the video-completions role is unresolved, the reported completion rate is 0 |
| Examples.TimestampBeatsParsing | LinkedInapp.py:50-56 | without datetime-typed columns, a `Timestamp` column is chosen by name over an earlier column that would parse as dates |

## Left out

- `read_file` (loading CSV, Excel and JSON), the Streamlit layout, the charts and the CSV download are I/O and rendering. They are not part of this model.
- The date-range filter in the page code is not part of this model. `detect_date_col` is modelled, but the filtering of rows by the chosen column is not.
- pandas' number parsing is a parameter `parse` from text to an optional integer. Numeric cells read as themselves and missing cells read as "no number", so they become 0.
- The dtype test (`np.issubdtype(..., np.datetime64)`) and the success of `pd.to_datetime` on a whole column are predicates passed to `DetectDateCol`. `pd.to_datetime` raises on any value it cannot read, so the code disqualifies a column at its first bad value. The model follows the code, not a reading in which a column is disqualified only when all of its values fail.
- Metrics.Summarize: values are integers and rates are exact reals. Floating-point cells, `int()` truncation of float sums and `round(..., 2)` are not modelled.
- Text.Lower: lower-casing is ASCII only. Python's full Unicode `str.lower` is not modelled.
- The followers, connections, profile-views and search-appearances roles are defined in `Roles`, but `CalculateMetrics` does not resolve them. Their results feed neither the coercion loop nor the report, so dropping those four calls changes nothing observable.
- Coercion.ProcessedTable: requires distinct column labels and columns of equal length (`WellFormed`), as do `DataFrames.DataFrame.Valid` and so `DataFrames.CalculateMetrics`. With a duplicated label, `df[c]` returns a DataFrame rather than one column, and `pd.to_numeric` on it raises (line 82). That error is not modelled.
- DateDetector.DetectDateCol: does not require distinct labels. With a duplicated label, `df[col].dtype` raises in the source (line 48), whereas the model applies the dtype test to each column on its own.
- Labels are strings. A non-string header, such as a number or a date in an Excel header cell, makes `c.lower()` raise AttributeError (lines 38 and 51), and the error escapes `detect_date_col` and `calculate_metrics`. That error path is not modelled.
- Metrics.TotalFromInput: totals are unbounded integers. pandas sums int64 columns with silent 64-bit wrap-around (lines 84-91), which is not modelled.

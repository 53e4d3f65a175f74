/**
 * The twelve metric roles `calculate_metrics` looks for, each with its
 * candidate substrings in priority order.
 */
module Roles {
  import opened Options
  import opened Tables
  import opened ColumnResolver

  datatype Role =
    | Impressions | Likes | Comments | Shares | Clicks
    | Followers | Connections | ProfileViews | SearchAppearances
    | VideoViews | VideoCompletions | FormSubmissions

  /** The candidate substrings of a role, best first; none of them is empty. */
  function Candidates(role: Role): (r: seq<string>)
    ensures |r| > 0 && forall k :: 0 <= k < |r| ==> r[k] != ""
  {
    match role
    case Impressions => ["impression", "impressions", "views"]
    case Likes => ["like", "likes", "reactions"]
    case Comments => ["comment", "comments"]
    case Shares => ["share", "shares"]
    case Clicks => ["click", "clicks"]
    case Followers => ["follower", "followers"]
    case Connections => ["connection", "connections"]
    case ProfileViews => ["profile_view", "profile views"]
    case SearchAppearances => ["search_appear", "search appearances"]
    case VideoViews => ["video_view", "video views"]
    case VideoCompletions => ["video_complete", "video completed"]
    case FormSubmissions => ["form", "form_submission", "lead"]
  }

  /** The roles whose columns are coerced to numbers, in the order they are coerced. */
  const NUMERIC_ROLES: seq<Role> :=
    [Impressions, Likes, Comments, Shares, Clicks, VideoViews, VideoCompletions, FormSubmissions]

  /** `fuzzy_col(df, <candidates of role>)` */
  function Resolve(columns: seq<string>, role: Role): Option<string> {
    FuzzyCol(columns, Candidates(role))
  }

  /** `numeric_cols`: the resolved labels of the numeric roles, in NUMERIC_ROLES order. */
  function NumericTargets(columns: seq<string>): (r: seq<Option<string>>)
    ensures |r| == |NUMERIC_ROLES|
    ensures forall k :: 0 <= k < |r| ==> r[k] == Resolve(columns, NUMERIC_ROLES[k])
  {
    seq(|NUMERIC_ROLES|, k requires 0 <= k < |NUMERIC_ROLES| => Resolve(columns, NUMERIC_ROLES[k]))
  }

  /** Every numeric role's resolution is one of the loop's targets. */
  lemma ResolvedIsTarget(names: seq<string>, role: Role)
    requires role in NUMERIC_ROLES
    ensures Resolve(names, role) in NumericTargets(names)
  {
    var k :| 0 <= k < |NUMERIC_ROLES| && NUMERIC_ROLES[k] == role;
    assert NumericTargets(names)[k] == Resolve(names, role);
  }

  /**
   * No candidate is empty, so a resolved label is never the empty string
   * and the source's `if c` tests are exactly "the role resolved".
   */
  lemma ResolvedIsTruthy(columns: seq<string>, role: Role)
    ensures Truthy(Resolve(columns, role)) <==> Resolve(columns, role).Some?
  {
    ResolvedNonEmpty(columns, Candidates(role));
  }

  /** Every label the coercion loop receives passes its `if c` test. */
  lemma TargetsAreTruthy(names: seq<string>)
    ensures forall k :: 0 <= k < |NumericTargets(names)| && NumericTargets(names)[k].Some? ==>
              Truthy(NumericTargets(names)[k])
  {
    forall k | 0 <= k < |NUMERIC_ROLES| {
      ResolvedIsTruthy(names, NUMERIC_ROLES[k]);
    }
  }
}

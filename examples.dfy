/**
 * Worked instances of the resolution rules on concrete column labels.
 */
module Examples {
  import opened Options
  import opened Text
  import opened Tables
  import opened ColumnResolver
  import opened Roles
  import opened Coercion
  import opened DateDetector
  import opened Metrics

  /**
   * Roles resolve independently: in a table whose only column is
   * `video_views`, the last impressions candidate `views` finds that column ...
   */
  lemma VideoViewsCountAsImpressions()
    ensures Resolve(["video_views"], Impressions) == Some("video_views")
  {
    var cols := ["video_views"];
    assert Candidates(Impressions) == ["impression", "impressions", "views"];
    var low := Lower("video_views");
    assert low == "video_views";
    assert Lower("impression") == "impression";
    assert Lower("impressions") == "impressions";
    assert Lower("views") == "views";
    forall k ensures !OccursAt(low, "impression", k) {
      if k == 0 { Mismatch(low, "impression", 0, 0); }
      else if k == 1 { Mismatch(low, "impression", 1, 1); }
    }
    forall k ensures !OccursAt(low, "impressions", k) {
      if k == 0 { Mismatch(low, "impressions", 0, 0); }
    }
    assert OccursAt(low, "views", 6);
    assert IsFirstHit(cols, Candidates(Impressions), 2, 0);
  }

  /** ... and the video-views role finds the same column. */
  lemma VideoViewsResolve()
    ensures Resolve(["video_views"], VideoViews) == Some("video_views")
  {
    var cols := ["video_views"];
    assert Lower("video_views") == "video_views";
    assert Lower("video_view") == "video_view";
    assert OccursAt("video_views", "video_view", 0);
    assert IsFirstHit(cols, Candidates(VideoViews), 0, 0);
  }

  /**
   * `form` occurs inside `platform`, so a text column labelled `Platform`
   * is taken for the form-submissions role and the processed table holds it
   * coerced to numbers.
   */
  lemma PlatformIsCoerced(cells: seq<Cell>, parse: string -> Option<int>)
    ensures Resolve(["Platform"], FormSubmissions) == Some("Platform")
    ensures Process(Table([Column("Platform", cells)], |cells|), parse).columns
         == [Column("Platform", CoerceCells(cells, parse))]
  {
    var cols := ["Platform"];
    assert Lower("Platform") == "platform";
    assert Lower("form") == "form";
    assert OccursAt("platform", "form", 4);
    assert IsFirstHit(cols, Candidates(FormSubmissions), 0, 0);
    var t := Table([Column("Platform", cells)], |cells|);
    assert Names(t.columns) == cols;
    ProcessedTable(t, parse);
    ResolvedIsTarget(cols, FormSubmissions);
    assert Process(t, parse).columns[0] == Column("Platform", CoerceCells(cells, parse));
  }

  /**
   * `likes` contains `like`, which is tried first, so the `likes`
   * candidate never decides the likes role.
   */
  lemma LikesCandidateIsShadowed(columns: seq<string>)
    ensures Resolve(columns, Likes) == FuzzyCol(columns, ["like", "reactions"])
  {
    var c := Candidates(Likes);
    assert Lower("likes") == "likes" && Lower("like") == "like";
    assert OccursAt("likes", "like", 0);
    ShadowedCandidate(columns, c, 0, 1);
    assert RemoveAt(c, 1) == ["like", "reactions"];
  }

  /** Likewise `form_submission` contains `form`, tried before it. */
  lemma FormSubmissionCandidateIsShadowed(columns: seq<string>)
    ensures Resolve(columns, FormSubmissions) == FuzzyCol(columns, ["form", "lead"])
  {
    var c := Candidates(FormSubmissions);
    assert Lower("form_submission") == "form_submission" && Lower("form") == "form";
    assert OccursAt("form_submission", "form", 0);
    ShadowedCandidate(columns, c, 0, 1);
    assert RemoveAt(c, 1) == ["form", "lead"];
  }

  /**
   * With no datetime-typed column, a column labelled `Timestamp` is chosen
   * by name even when an earlier column would parse as dates.
   */
  lemma TimestampBeatsParsing(caption: seq<Cell>, stamps: seq<Cell>,
                              isDatetime: Column -> bool, parsesAsDates: Column -> bool)
    requires !isDatetime(Column("caption", caption)) && !isDatetime(Column("Timestamp", stamps))
    ensures DetectDateCol([Column("caption", caption), Column("Timestamp", stamps)], isDatetime, parsesAsDates)
         == Some("Timestamp")
  {
    var columns := [Column("caption", caption), Column("Timestamp", stamps)];
    assert NoneWhere(columns, isDatetime);
    assert Lower("caption") == "caption";
    assert Lower("Timestamp") == "timestamp";
    assert LowerAll(Names(columns)) == ["caption", "timestamp"];
    assert IsFirstNamed(["caption", "timestamp"], DATE_NAMES, 3, 1);
  }

  /**
   * `Video_Completions` contains neither video-completions candidate:
   * `video_complete` breaks off at `i` where the label reads `ions`, and
   * `video completed` has a space where the label has `_`.
   */
  lemma CompletionsMissComplete()
    ensures !Hits("Video_Completions", "video_complete")
  {
    var low := Lower("Video_Completions");
    assert low == "video_completions";
    assert Lower("video_complete") == "video_complete";
    forall k ensures !OccursAt(low, "video_complete", k) {
      if k == 0 { Mismatch(low, "video_complete", 0, 13); }
      else if 1 <= k <= 3 { Mismatch(low, "video_complete", k, 0); }
    }
  }

  lemma CompletionsMissCompleted()
    ensures !Hits("Video_Completions", "video completed")
  {
    var low := Lower("Video_Completions");
    assert low == "video_completions";
    assert Lower("video completed") == "video completed";
    forall k ensures !OccursAt(low, "video completed", k) {
      if k == 0 { Mismatch(low, "video completed", 0, 5); }
      else if 1 <= k <= 2 { Mismatch(low, "video completed", k, 0); }
    }
  }

  /** A one-column table that neither of two candidates hits resolves to nothing. */
  lemma MissedByBoth(col: string, c0: string, c1: string)
    requires !Hits(col, c0) && !Hits(col, c1)
    ensures FuzzyCol([col], [c0, c1]) == None
  {
    assert NoHit([col], [c0, c1]);
  }

  /**
   * So an export with the header `Video_Completions` leaves the
   * video-completions role unresolved ...
   */
  lemma VideoCompletionsUnresolved()
    ensures Resolve(["Video_Completions"], VideoCompletions) == None
  {
    assert Candidates(VideoCompletions) == ["video_complete", "video completed"];
    CompletionsMissComplete();
    CompletionsMissCompleted();
    MissedByBoth("Video_Completions", "video_complete", "video completed");
  }

  /** ... and whenever that role is unresolved the completion rate is 0. */
  lemma UnresolvedCompletionsRate(t: Table, parse: string -> Option<int>)
    requires WellFormed(t) && Resolve(Names(t.columns), VideoCompletions).None?
    ensures MetricsOf(Process(t, parse)).videoCompletionRatePct == 0.0
  {
    var names := Names(t.columns);
    var vv, vc := InputTotal(t, parse, VideoViews), InputTotal(t, parse, VideoCompletions);
    assert vc == 0;
    MetricsFromInput(t, parse);
    NoCompletionsNoRate(
      InputTotal(t, parse, Impressions), InputTotal(t, parse, Likes), InputTotal(t, parse, Comments),
      InputTotal(t, parse, Shares), InputTotal(t, parse, Clicks), vv, vc,
      InputTotal(t, parse, FormSubmissions),
      Resolve(names, Likes), Resolve(names, Comments), t.rows, Detected(names));
  }
}

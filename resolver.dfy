/**
 * `fuzzy_col`: find the column a role lives in by case-insensitive
 * substring search over a priority-ordered candidate list.
 */
module ColumnResolver {
  import opened Options
  import opened Text

  /** A hit: candidate number `candidate` occurs in column number `column`. */
  datatype Hit = Hit(candidate: nat, column: nat)

  /** Candidate `cand` occurs in column label `col`, both lower-cased. */
  predicate Hits(col: string, cand: string) {
    Contains(Lower(col), Lower(cand))
  }

  /** No candidate occurs in any column. */
  ghost predicate NoHit(columns: seq<string>, candidates: seq<string>) {
    forall k, i :: 0 <= k < |candidates| && 0 <= i < |columns| ==> !Hits(columns[i], candidates[k])
  }

  /**
   * Column `i` is the one the priority rule picks: candidate `k` occurs in
   * it, no earlier candidate occurs in any column, and candidate `k` occurs
   * in no earlier column.
   */
  ghost predicate IsFirstHit(columns: seq<string>, candidates: seq<string>, k: int, i: int) {
    && 0 <= k < |candidates| && 0 <= i < |columns|
    && Hits(columns[i], candidates[k])
    && (forall k', i' :: 0 <= k' < k && 0 <= i' < |columns| ==> !Hits(columns[i'], candidates[k']))
    && (forall i' :: 0 <= i' < i ==> !Hits(columns[i'], candidates[k]))
  }

  /** The inner loop: the first lower-cased column that contains `needle`. */
  function FirstContaining(lowered: seq<string>, needle: string): (r: Option<nat>)
    ensures r.Some? ==> r.value < |lowered| && Contains(lowered[r.value], needle)
    ensures r.Some? ==> forall i :: 0 <= i < r.value ==> !Contains(lowered[i], needle)
    ensures r.None? ==> forall i :: 0 <= i < |lowered| ==> !Contains(lowered[i], needle)
  {
    if lowered == [] then None
    else if Contains(lowered[0], needle) then Some(0)
    else
      match FirstContaining(lowered[1..], needle)
      case None => None
      case Some(j) => Some(j + 1)
  }

  /** The outer loop: candidates in priority order, each tried against every column. */
  function FirstHit(lowered: seq<string>, candidates: seq<string>): (r: Option<Hit>)
    ensures r.Some? ==> r.value.candidate < |candidates| && r.value.column < |lowered|
    ensures r.Some? ==> Contains(lowered[r.value.column], Lower(candidates[r.value.candidate]))
    ensures r.Some? ==> forall k, i :: 0 <= k < r.value.candidate && 0 <= i < |lowered| ==>
                          !Contains(lowered[i], Lower(candidates[k]))
    ensures r.Some? ==> forall i :: 0 <= i < r.value.column ==>
                          !Contains(lowered[i], Lower(candidates[r.value.candidate]))
    ensures r.None? ==> forall k, i :: 0 <= k < |candidates| && 0 <= i < |lowered| ==>
                          !Contains(lowered[i], Lower(candidates[k]))
  {
    if candidates == [] then None
    else
      match FirstContaining(lowered, Lower(candidates[0]))
      case Some(i) => Some(Hit(0, i))
      case None =>
        match FirstHit(lowered, candidates[1..])
        case None => None
        case Some(h) => Some(Hit(h.candidate + 1, h.column))
  }

  /**
   * `fuzzy_col(df, candidates)`: the original-case label of the column the
   * priority rule picks, or `None` when no candidate occurs in any column.
   */
  function FuzzyCol(columns: seq<string>, candidates: seq<string>): (r: Option<string>)
    ensures r.Some? ==> r.value in columns
    ensures r.None? <==> NoHit(columns, candidates)
    ensures r.Some? ==> exists k, i :: IsFirstHit(columns, candidates, k, i) && r.value == columns[i]
    ensures forall k, i :: IsFirstHit(columns, candidates, k, i) ==> r == Some(columns[i])
  {
    var lowered := LowerAll(columns);
    match FirstHit(lowered, candidates)
    case None => None
    case Some(h) =>
      assert IsFirstHit(columns, candidates, h.candidate, h.column);
      Some(columns[h.column])
  }

  /** `xs` without its element at position `j`. */
  function RemoveAt(xs: seq<string>, j: nat): (r: seq<string>)
    requires j < |xs|
    ensures |r| == |xs| - 1
    ensures forall k :: 0 <= k < |r| ==> r[k] == if k < j then xs[k] else xs[k + 1]
  {
    xs[..j] + xs[j + 1..]
  }

  /** Candidate `i` occurs wherever candidate `j` does. */
  ghost predicate Covers(candidates: seq<string>, i: nat, j: nat)
    requires i < |candidates| && j < |candidates|
  {
    forall c :: Hits(c, candidates[j]) ==> Hits(c, candidates[i])
  }

  lemma CoversBySubstring(candidates: seq<string>, i: nat, j: nat)
    requires i < |candidates| && j < |candidates|
    requires Contains(Lower(candidates[j]), Lower(candidates[i]))
    ensures Covers(candidates, i, j)
  {
    forall c | Hits(c, candidates[j])
      ensures Hits(c, candidates[i])
    {
      ContainsTransitive(Lower(c), Lower(candidates[j]), Lower(candidates[i]));
    }
  }

  lemma FirstHitSurvives(columns: seq<string>, candidates: seq<string>, i: nat, j: nat, k: nat, col: nat)
    requires i < j < |candidates| && Covers(candidates, i, j)
    requires IsFirstHit(columns, candidates, k, col)
    ensures k != j
    ensures IsFirstHit(columns, RemoveAt(candidates, j), if k < j then k else k - 1, col)
  {
  }

  /**
   * A candidate that contains an earlier candidate never decides anything:
   * every column it occurs in also contains the earlier one, which is tried
   * first. Dropping it leaves the result unchanged.
   */
  lemma {:induction false} ShadowedCandidate(columns: seq<string>, candidates: seq<string>, i: nat, j: nat)
    requires i < j < |candidates|
    requires Contains(Lower(candidates[j]), Lower(candidates[i]))
    ensures FuzzyCol(columns, candidates) == FuzzyCol(columns, RemoveAt(candidates, j))
  {
    var rest := RemoveAt(candidates, j);
    CoversBySubstring(candidates, i, j);
    var r := FuzzyCol(columns, candidates);
    if r.None? {
      assert NoHit(columns, rest);
    } else {
      var k, col :| IsFirstHit(columns, candidates, k, col) && r.value == columns[col];
      FirstHitSurvives(columns, candidates, i, j, k, col);
    }
  }

  /** With no empty candidate, the label found is never the empty string. */
  lemma ResolvedNonEmpty(columns: seq<string>, candidates: seq<string>)
    requires forall k :: 0 <= k < |candidates| ==> candidates[k] != ""
    ensures FuzzyCol(columns, candidates).Some? ==> FuzzyCol(columns, candidates).value != ""
  {
    var r := FuzzyCol(columns, candidates);
    if r.Some? {
      var k, i :| IsFirstHit(columns, candidates, k, i) && r.value == columns[i];
      var w :| OccursAt(Lower(columns[i]), Lower(candidates[k]), w);
    }
  }
}

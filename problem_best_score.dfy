/**
 * npoed_grading_features/enable_problem_best_score.py: `set_score` over the
 * `StudentModule` table keeps a problem's best grade. A missing row is
 * created with the new score; an existing one is rewritten only when the
 * maximum changed or the new score is higher.
 */
module ProblemBestScore {
  import opened Wrappers
  import opened Keys

  /** The fields `get_or_create` looks a `StudentModule` row up by. */
  datatype RowKey = RowKey(studentId: int, moduleStateKey: UsageKey, courseId: CourseKey)

  /** The columns `set_score` reads and writes; `modified` is the row's last save time. */
  datatype StudentModuleRow = StudentModuleRow(grade: real, maxGrade: real, modified: int)

  /** `should_update`: the maximum changed, or the new score is higher. */
  predicate ShouldUpdate(row: StudentModuleRow, score: real, maxScore: real) {
    row.maxGrade != maxScore || row.grade < score
  }

  /** The row `set_score` leaves under the key, `now` being the time of any save. */
  function UpdatedRow(existing: Option<StudentModuleRow>, score: real, maxScore: real, now: int): (r: StudentModuleRow)
    ensures existing.None? ==> r == StudentModuleRow(score, maxScore, now)
    ensures existing.Some? ==>
              if ShouldUpdate(existing.value, score, maxScore) then r == StudentModuleRow(score, maxScore, now)
              else r == existing.value
  {
    match existing
    case None => StudentModuleRow(score, maxScore, now)
    case Some(row) =>
      if ShouldUpdate(row, score, maxScore) then row.(grade := score, maxGrade := maxScore, modified := now) else row
  }

  /** With the maximum unchanged the stored grade becomes the larger of the two, so it never decreases. */
  lemma BestScoreKept(row: StudentModuleRow, score: real, now: int)
    ensures var r := UpdatedRow(Some(row), score, row.maxGrade, now);
      && r.maxGrade == row.maxGrade
      && r.grade == (if row.grade < score then score else row.grade)
      && r.grade >= row.grade && r.grade >= score
  {
  }

  /** A changed maximum overwrites both fields, even with a lower score. */
  lemma MaxChangeOverwrites(row: StudentModuleRow, score: real, maxScore: real, now: int)
    requires maxScore != row.maxGrade
    ensures UpdatedRow(Some(row), score, maxScore, now) == StudentModuleRow(score, maxScore, now)
  {
  }

  /** Whether a row's columns are untouched exactly when nothing was saved. */
  lemma UntouchedIffNotHigher(row: StudentModuleRow, score: real, maxScore: real, now: int)
    requires now != row.modified
    ensures UpdatedRow(Some(row), score, maxScore, now) == row <==> maxScore == row.maxGrade && score <= row.grade
  {
  }

  /** The `StudentModule` table: one row per key. */
  class StudentModules {
    var rows: map<RowKey, StudentModuleRow>

    constructor (rows: map<RowKey, StudentModuleRow>)
      ensures this.rows == rows
    {
      this.rows := rows;
    }

    /**
     * `set_score(user_id, usage_key, score, max_score)`: get or create the
     * row, rewrite it when `should_update`, and return its `modified`.
     * No other row changes.
     */
    method SetScore(userId: int, usageKey: UsageKey, score: real, maxScore: real, now: int) returns (modified: int)
      modifies this
      ensures var k := RowKey(userId, usageKey, usageKey.courseKey);
        var previous := if k in old(rows) then Some(old(rows)[k]) else None;
        && rows == old(rows)[k := UpdatedRow(previous, score, maxScore, now)]
        && modified == rows[k].modified
    {
      var k := RowKey(userId, usageKey, usageKey.courseKey);
      var created := k !in rows;
      if created {
        rows := rows[k := StudentModuleRow(score, maxScore, now)];
      } else {
        var studentModule := rows[k];
        var shouldUpdate := (studentModule.maxGrade != maxScore) || (studentModule.grade < score);
        if shouldUpdate {
          studentModule := studentModule.(grade := score, maxGrade := maxScore, modified := now);
          rows := rows[k := studentModule];
        }
      }
      modified := rows[k].modified;
    }
  }
}

/**
 * vertical_grading/enable_passing_grade.py: the same grader JSON conversion
 * and per-category check as npoed_grading_features (modelled once, in
 * `PassingGrade`), with `_compute_passed` the conjunction of the course's
 * original percent check and the category check.
 */
module VgPassingGrade {
  import opened Wrappers
  import opened OrderedDicts
  import PassingGrade

  /**
   * `_compute_passed`: `percent_passed and cat_passed`, where `percentPassed`
   * is what the saved original `_compute_passed` answered (`None` standing
   * for Python `None`); Python's `and` returns a falsy left operand itself.
   * Both operands are computed first, so a grader without `passing_grade`
   * raises `KeyError` whatever the percent check answered.
   */
  function ComputePassed(percentPassed: Option<bool>, graders: seq<PassingGrade.PolicyGrader>,
                         breakdown: seq<PassingGrade.Section>): (r: Result<Option<bool>>)
    ensures r.Crash? <==> !PassingGrade.HasPassingGrades(graders)
    ensures r.Crash? ==> r.error == KeyError
    ensures r.Ok? ==> (r.value.None? <==> percentPassed.None?)
    ensures r.Ok? ==> (r.value == Some(true) <==>
                         percentPassed == Some(true) && PassingGrade.PassedByCategory(graders, breakdown).value)
  {
    var catPassed := PassingGrade.PassedByCategory(graders, breakdown);
    if catPassed.Crash? then Crash(catPassed.error)
    else
      match percentPassed
      case None => Ok(None)
      case Some(false) => Ok(Some(false))
      case Some(true) => Ok(Some(catPassed.value))
  }

  /**
   * With the original percent check being the positive-cutoff rule, this
   * package's `_compute_passed` gives what npoed_grading_features answers
   * with passing grade on, exceptions included.
   */
  lemma AgreesWithNpoed(cutoffs: Dict<string, real>, percent: real, graders: seq<PassingGrade.PolicyGrader>,
                        breakdown: seq<PassingGrade.Section>, defaultPassed: Option<bool>)
    ensures ComputePassed(PassingGrade.PercentPassed(cutoffs, percent), graders, breakdown)
            == PassingGrade.ComputePassed(true, defaultPassed, cutoffs, percent, graders, breakdown)
  {
  }
}

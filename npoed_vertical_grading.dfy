/**
 * npoed_grading_features/enable_vertical_grading.py: the patched
 * `AssignmentFormatGrader.grade`, which drops the worst units `drop_count`
 * times before the original grader runs with no drops of its own, and the
 * wrapper that adds a unit's weight to the studio's xblock info.
 */
module NpoedVerticalGrading {
  import opened Wrappers
  import opened Keys
  import opened OrderedDicts
  import NpoedModels
  import opened NpoedUtils
  import opened Repeat

  /** `grade_sheet`: `{assignment type: {subsection key: SubsectionGrade}}`. */
  type Sheet = Dict<string, Category>

  // ---------------------------------------------------------------------------
  // `get_course_id_from_grade_sheet`
  // ---------------------------------------------------------------------------

  /** The index of the first category with a subsection (`|cs|` when all are empty). */
  function FirstNonEmpty(cs: seq<Category>): (n: nat)
    ensures n <= |cs|
    ensures forall i | 0 <= i < n :: cs[i].keys == []
    ensures n < |cs| ==> cs[n].keys != []
  {
    if cs == [] then 0
    else if cs[0].keys != [] then 0
    else
      var n := FirstNonEmpty(cs[1..]);
      assert forall i | 1 <= i < 1 + n :: cs[i] == cs[1..][i - 1];
      1 + n
  }

  /** The course of the first subsection key of the first non-empty category, if any. */
  function FirstCourseKey(sheet: Sheet): (r: Option<CourseKey>)
    ensures r.None? <==> forall i | 0 <= i < |sheet.keys| :: sheet.items[sheet.keys[i]].keys == []
    ensures r.Some? ==> var n := FirstNonEmpty(Values(sheet));
      && n < |sheet.keys|
      && r.value == sheet.items[sheet.keys[n]].keys[0].courseKey
      && forall i | 0 <= i < n :: sheet.items[sheet.keys[i]].keys == []
  {
    var cs := Values(sheet);
    var n := FirstNonEmpty(cs);
    if n < |cs| then Some(cs[n].keys[0].courseKey) else None
  }

  /** `get_course_id_from_grade_sheet`: return from inside the scan at the first key found. */
  method GetCourseIdFromGradeSheet(gradeSheet: Sheet) returns (r: Option<CourseKey>)
    ensures r == FirstCourseKey(gradeSheet)
  {
    var categories := Values(gradeSheet);
    ghost var n := FirstNonEmpty(categories);
    var i := 0;
    while i < |categories|
      invariant i <= n
      invariant n == FirstNonEmpty(categories)
    {
      var categoryDict := categories[i];
      if categoryDict.keys != [] {
        assert i == n;
        return Some(categoryDict.keys[0].courseKey);
      }
      assert i != n;
      i := i + 1;
    }
    assert n == |categories|;
    r := None;
  }

  /** The `course_id` `vertical_grading_enabled` receives. */
  function CourseArg(k: Option<CourseKey>): NpoedModels.CourseIdArg {
    if k.Some? then NpoedModels.CourseKeyArg(k.value) else NpoedModels.NoCourse
  }

  // ---------------------------------------------------------------------------
  // `AssignmentFormatGrader.grade`
  // ---------------------------------------------------------------------------

  /** `drop_minimal_vertical_from_subsection_grades` applied `n` times. */
  function DropTimes(c: Category, n: int): Result<Category> {
    Iterate(DropOutcome, c, n)
  }

  /** Drops keep every subsection's aggregates equal to the sums of its scores. */
  lemma DropTimesKeepsConsistent(c: Category, n: int)
    requires AllConsistent(c)
    ensures DropTimes(c, n).Ok? ==> AllConsistent(DropTimes(c, n).value)
  {
    forall x | AllConsistent(x)
      ensures DropOutcome(x).Ok? ==> AllConsistent(DropOutcome(x).value)
    {
      DropKeepsConsistent(x);
    }
    IteratePreserves(DropOutcome, AllConsistent, c, n);
  }

  /** Once no unit is worth dropping, further drops change nothing. */
  lemma DropTimesSettles(c: Category, n: int, m: int)
    requires 0 <= n <= m
    requires DropTimes(c, n).Ok? && WorstScore(TreeOf(DropTimes(c, n).value)) == Ok(None)
    ensures DropTimes(c, m) == DropTimes(c, n)
  {
    IterateSettles(DropOutcome, c, n, m);
  }

  /**
   * The loop `for n in range(drop_count)` of `grade` over
   * `grade_sheet.get(self.type, {})`, with `drop` the drop pass
   * (`grade` passes `DropOutcome`, which
   * `DropMinimalVerticalFromSubsectionGrades` computes). When the sheet
   * holds `key`, the passes pop and patch the sheet's own dict, so after an
   * exception the sheet holds the drops of the passes before it.
   */
  method DropInSheet(sheet: GradeSheet, key: string, c0: Category, dropCount: int,
                     drop: Category -> Result<Category>) returns (r: Result<Category>)
    requires c0 == GetOr(sheet.categories, key, Empty())
    modifies sheet
    ensures r == Iterate(drop, c0, dropCount)
    ensures sheet.categories == if key in old(sheet.categories).keys
                                then Put(old(sheet.categories), key, Reached(drop, c0, dropCount))
                                else old(sheet.categories)
  {
    var shared := key in sheet.categories.items;
    ghost var sheet0 := sheet.categories;
    if shared {
      assert sheet0.items[key := c0] == sheet0.items;
      assert sheet.categories == Put(sheet0, key, c0);
    }
    var subsectionGrades := c0;
    var n := 0;
    while n < dropCount
      invariant n <= dropCount || n == 0
      invariant Iterate(drop, c0, n) == Ok(subsectionGrades)
      invariant shared ==> sheet.categories == Put(sheet0, key, subsectionGrades)
      invariant !shared ==> sheet.categories == sheet0
    {
      var next := drop(subsectionGrades);
      IterateNext(drop, c0, n, subsectionGrades);
      if next.Crash? {
        ReachedBeforeCrash(drop, c0, n, subsectionGrades, dropCount);
        return Crash(next.error);
      }
      var before := subsectionGrades;
      subsectionGrades := next.value;
      if shared {
        // the pass popped and patched the sheet's own dict
        PutPut(sheet0, key, before, subsectionGrades);
        sheet.categories := Put(sheet.categories, key, subsectionGrades);
      }
      n := n + 1;
    }
    r := Ok(subsectionGrades);
  }

  /** The part of `AssignmentFormatGrader` the patched `grade` reads and changes. */
  class AssignmentFormatGrader {
    const graderType: string
    var dropCount: int

    constructor (graderType: string, dropCount: int)
      ensures this.graderType == graderType && this.dropCount == dropCount
    {
      this.graderType := graderType;
      this.dropCount := dropCount;
    }

    /**
     * `grade(grade_sheet, generate_random_scores)`, with `problemGrade` the
     * original `grade` (it sees the sheet and this `drop_count`) and
     * `setting`/`rows` what `vertical_grading_enabled` consults. With
     * vertical grading on, each pass drops one unit `drop_count` times. When
     * the sheet holds this type, the passes work on the sheet's own dict, so
     * an exception leaves the drops of the earlier passes in the sheet (and
     * `drop_count` at 0); a missing type is a fresh `{}` written back only
     * after the loop.
     */
    method Grade<R>(sheet: GradeSheet, generateRandomScores: bool, setting: bool,
                    rows: map<string, NpoedModels.FeatureRow>, problemGrade: (Sheet, int, bool) -> R)
      returns (r: Result<R>)
      modifies this, sheet
      ensures var enabled := VerticalGradingEnabled(setting, rows, CourseArg(FirstCourseKey(old(sheet.categories))));
        && (!enabled ==>
              && r == Ok(problemGrade(old(sheet.categories), old(dropCount), generateRandomScores))
              && sheet.categories == old(sheet.categories) && dropCount == old(dropCount))
        && (enabled ==>
              var c0 := GetOr(old(sheet.categories), graderType, Empty());
              var dropped := DropTimes(c0, old(dropCount));
              && (dropped.Crash? ==>
                    && r == Crash(dropped.error) && dropCount == 0
                    && sheet.categories == if graderType in old(sheet.categories).keys
                                           then Put(old(sheet.categories), graderType, Reached(DropOutcome, c0, old(dropCount)))
                                           else old(sheet.categories))
              && (dropped.Ok? ==>
                    && sheet.categories == Put(old(sheet.categories), graderType, dropped.value)
                    && r == Ok(problemGrade(sheet.categories, 0, generateRandomScores))
                    && dropCount == old(dropCount)))
    {
      var courseKey := GetCourseIdFromGradeSheet(sheet.categories);
      if !VerticalGradingEnabled(setting, rows, CourseArg(courseKey)) {
        return Ok(problemGrade(sheet.categories, dropCount, generateRandomScores));
      }
      var dropCount0 := dropCount;
      dropCount := 0;
      var c0 := GetOr(sheet.categories, graderType, Empty());
      var dropped := DropInSheet(sheet, graderType, c0, dropCount0, DropOutcome);
      if dropped.Crash? {
        return Crash(dropped.error);
      }
      if graderType in old(sheet.categories).keys {
        PutPut(old(sheet.categories), graderType, dropped.value, dropped.value);
      }
      sheet.categories := Put(sheet.categories, graderType, dropped.value);
      var result := problemGrade(sheet.categories, dropCount, generateRandomScores);
      dropCount := dropCount0;
      r := Ok(result);
    }
  }

  /** The grade sheet, a dict the caller passes in and `grade` writes into. */
  class GradeSheet {
    var categories: Sheet

    constructor (categories: Sheet)
      ensures this.categories == categories
    {
      this.categories := categories;
    }
  }

  // ---------------------------------------------------------------------------
  // `build_create_xblock_info.wrapped`
  // ---------------------------------------------------------------------------

  /** The block whose info is built: its location and its `weight` attribute, if it has one. */
  datatype XBlock = XBlock(location: UsageKey, weight: Option<real>)

  /** The optional `parent_xblock` argument: its `format`. */
  datatype ParentXBlock = ParentXBlock(format: Option<string>)

  /** The keys of the info dict the wrapper reads or writes; `None` for an absent key. */
  datatype XBlockInfo = XBlockInfo(
    category: Option<string>,
    weight: Option<real>,
    verticalGrading: Option<bool>,
    format: Option<Option<string>>)

  /** What the wrapper returns for the info `create_xblock_info` built. */
  function WrappedInfo(xblock: XBlock, info: XBlockInfo, parent: Option<ParentXBlock>, enabled: bool): (r: XBlockInfo)
    ensures r.category == info.category
    ensures !enabled || (info.category != Some("vertical") && info.category != Some("sequential")) ==> r == info
    ensures enabled && info.category == Some("vertical") ==>
              && r.weight == Some(xblock.weight.GetOr(0.0)) && r.verticalGrading == Some(true)
              && r.format == (if parent.Some? then Some(parent.value.format) else info.format)
    ensures enabled && info.category == Some("sequential") ==> r == info.(verticalGrading := Some(true))
  {
    if !enabled then info
    else if info.category == Some("vertical") then
      var withWeight := info.(weight := Some(xblock.weight.GetOr(0.0)), verticalGrading := Some(true));
      if parent.Some? then withWeight.(format := Some(parent.value.format)) else withWeight
    else if info.category == Some("sequential") then info.(verticalGrading := Some(true))
    else info
  }

  /** `wrapped(*args, **kwargs)`: the info with the unit's weight and the vertical-grading flag added. */
  method WrapXBlockInfo(xblock: XBlock, xblockInfo0: XBlockInfo, parentXBlock: Option<ParentXBlock>, setting: bool,
                        rows: map<string, NpoedModels.FeatureRow>) returns (xblockInfo: XBlockInfo)
    ensures xblockInfo == WrappedInfo(xblock, xblockInfo0, parentXBlock,
                                      VerticalGradingEnabled(setting, rows, NpoedModels.CourseKeyArg(xblock.location.courseKey)))
  {
    xblockInfo := xblockInfo0;
    if !VerticalGradingEnabled(setting, rows, NpoedModels.CourseKeyArg(xblock.location.courseKey)) {
      return;
    }
    if xblockInfo.category == Some("vertical") {
      var weight := xblock.weight.GetOr(0.0);
      xblockInfo := xblockInfo.(weight := Some(weight));
      xblockInfo := xblockInfo.(verticalGrading := Some(true));
      if parentXBlock.Some? {
        xblockInfo := xblockInfo.(format := Some(parentXBlock.value.format));
      }
    }
    if xblockInfo.category == Some("sequential") {
      xblockInfo := xblockInfo.(verticalGrading := Some(true));
    }
  }
}

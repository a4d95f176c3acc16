/**
 * The two tables of npoed_grading_features/models.py: per-course feature flags
 * (`NpoedGradingFeatures`) and per-(course, user) passing-grade status
 * messages (`CoursePassingGradeUserStatus`). Each table is a map from its
 * unique key to its row; `get_or_create` + `setattr` + `save` becomes an
 * update of that map.
 */
module NpoedModels {
  import opened Wrappers
  import opened Keys

  datatype Feature = VerticalGrading | PassingGrade

  /** One `NpoedGradingFeatures` row; a new row has both flags `False`. */
  datatype FeatureRow = FeatureRow(verticalGrading: bool, passingGrade: bool)

  const NewFeatureRow := FeatureRow(false, false)

  /** The `course_id` argument: a `CourseKey`, a plain string, or `None`. */
  datatype CourseIdArg = CourseKeyArg(key: CourseKey) | CourseIdString(id: string) | NoCourse

  /** `_get_id`: a `CourseKey` becomes its string, anything else is passed through. */
  function GetId(c: CourseIdArg): (r: Option<string>)
    ensures c.CourseKeyArg? ==> r == Some(c.key.id)
    ensures c.CourseIdString? ==> r == Some(c.id)
    ensures c.NoCourse? <==> r.None?
  {
    match c
    case CourseKeyArg(k) => Some(k.id)
    case CourseIdString(s) => Some(s)
    case NoCourse => None
  }

  /** `getattr(row, feature)`. */
  function Flag(row: FeatureRow, f: Feature): bool {
    match f
    case VerticalGrading => row.verticalGrading
    case PassingGrade => row.passingGrade
  }

  /** `setattr(row, feature, state)`. */
  function SetFlag(row: FeatureRow, f: Feature, state: bool): (r: FeatureRow)
    ensures Flag(r, f) == state
    ensures forall g: Feature | g != f :: Flag(r, g) == Flag(row, g)
  {
    match f
    case VerticalGrading => row.(verticalGrading := state)
    case PassingGrade => row.(passingGrade := state)
  }

  /** `_is_feature_enabled` over the table's rows: `False` when no row exists. */
  function FeatureEnabled(rows: map<string, FeatureRow>, c: CourseIdArg, f: Feature): (r: bool)
    ensures (GetId(c).None? || GetId(c).value !in rows) ==> !r
    ensures GetId(c).Some? && GetId(c).value in rows ==> r == Flag(rows[GetId(c).value], f)
  {
    var cid := GetId(c);
    cid.Some? && cid.value in rows && Flag(rows[cid.value], f)
  }

  /** The rows after `_switch_feature(course_id, feature, state)`. */
  function SwitchedRows(rows: map<string, FeatureRow>, cid: string, f: Feature, state: bool): (r: map<string, FeatureRow>)
    ensures r.Keys == rows.Keys + {cid}
    ensures FeatureEnabled(r, CourseIdString(cid), f) == state
    ensures forall g: Feature | g != f :: FeatureEnabled(r, CourseIdString(cid), g) == FeatureEnabled(rows, CourseIdString(cid), g)
    ensures forall other | other in rows && other != cid :: r[other] == rows[other]
  {
    var row := if cid in rows then rows[cid] else NewFeatureRow;
    rows[cid := SetFlag(row, f, state)]
  }

  /** Both spellings of one course address the same row. */
  lemma CourseKeyAndStringAgree(rows: map<string, FeatureRow>, k: CourseKey, f: Feature)
    ensures FeatureEnabled(rows, CourseKeyArg(k), f) == FeatureEnabled(rows, CourseIdString(k.id), f)
  {
  }

  class NpoedGradingFeatures {
    var rows: map<string, FeatureRow>

    constructor ()
      ensures rows == map[]
    {
      rows := map[];
    }

    /** `get(course_id)`: the row, or `None`. */
    function Get(c: CourseIdArg): (r: Option<FeatureRow>)
      reads this
      ensures r.Some? <==> GetId(c).Some? && GetId(c).value in rows
      ensures r.Some? ==> r.value == rows[GetId(c).value]
    {
      var cid := GetId(c);
      if cid.Some? && cid.value in rows then Some(rows[cid.value]) else None
    }

    function IsVerticalGradingEnabled(c: CourseIdArg): bool
      reads this
    {
      FeatureEnabled(rows, c, VerticalGrading)
    }

    function IsPassingGradeEnabled(c: CourseIdArg): bool
      reads this
    {
      FeatureEnabled(rows, c, PassingGrade)
    }

    /** `_switch_feature`: get or create the row, set the flag, save. */
    method SwitchFeature(c: CourseIdArg, f: Feature, state: bool)
      requires GetId(c).Some?
      modifies this
      ensures rows == SwitchedRows(old(rows), GetId(c).value, f, state)
    {
      var cid := GetId(c).value;
      var row := if cid in rows then rows[cid] else NewFeatureRow;
      rows := rows[cid := SetFlag(row, f, state)];
    }

    method EnableVerticalGrading(c: CourseIdArg)
      requires GetId(c).Some?
      modifies this
      ensures IsVerticalGradingEnabled(c)
      ensures IsPassingGradeEnabled(c) == old(IsPassingGradeEnabled(c))
      ensures rows == SwitchedRows(old(rows), GetId(c).value, VerticalGrading, true)
    {
      SwitchFeature(c, VerticalGrading, true);
    }

    method DisableVerticalGrading(c: CourseIdArg)
      requires GetId(c).Some?
      modifies this
      ensures !IsVerticalGradingEnabled(c)
      ensures IsPassingGradeEnabled(c) == old(IsPassingGradeEnabled(c))
      ensures rows == SwitchedRows(old(rows), GetId(c).value, VerticalGrading, false)
    {
      SwitchFeature(c, VerticalGrading, false);
    }

    method EnablePassingGrade(c: CourseIdArg)
      requires GetId(c).Some?
      modifies this
      ensures IsPassingGradeEnabled(c)
      ensures IsVerticalGradingEnabled(c) == old(IsVerticalGradingEnabled(c))
      ensures rows == SwitchedRows(old(rows), GetId(c).value, PassingGrade, true)
    {
      SwitchFeature(c, PassingGrade, true);
    }

    method DisablePassingGrade(c: CourseIdArg)
      requires GetId(c).Some?
      modifies this
      ensures !IsPassingGradeEnabled(c)
      ensures IsVerticalGradingEnabled(c) == old(IsVerticalGradingEnabled(c))
      ensures rows == SwitchedRows(old(rows), GetId(c).value, PassingGrade, false)
    {
      SwitchFeature(c, PassingGrade, false);
    }
  }

  type UserId = int

  /** The text whose `tuple(...)` is the default status. */
  const NotProcessedText := "You progress is not processed yet"

  /** `tuple(s)`: one one-character string per character of `s`. */
  function CharStrings(s: string): (r: seq<string>)
    ensures |r| == |s|
    ensures forall i | 0 <= i < |s| :: r[i] == [s[i]]
  {
    seq(|s|, i requires 0 <= i < |s| => [s[i]])
  }

  /** The default status is a tuple of 33 one-character strings, not one message. */
  lemma NotProcessedIsCharacters()
    ensures |CharStrings(NotProcessedText)| == 33
    ensures forall m | m in CharStrings(NotProcessedText) :: |m| == 1
  {
    var r := CharStrings(NotProcessedText);
    forall m | m in r ensures |m| == 1 {
      var i :| 0 <= i < |r| && r[i] == m;
    }
  }

  /** What `get_passing_grade_status` returns once the feature check has passed. */
  function StoredStatus(rows: map<(string, UserId), seq<string>>, cid: string, user: UserId): (r: seq<string>)
    ensures (cid, user) in rows ==> r == rows[(cid, user)]
    ensures (cid, user) !in rows ==> r == CharStrings(NotProcessedText)
  {
    if (cid, user) in rows then rows[(cid, user)] else CharStrings(NotProcessedText)
  }

  /**
   * `CoursePassingGradeUserStatus`: failure messages per (course, user). The
   * JSON text column is modelled as the list it encodes (`json.dumps` then
   * `json.loads` is taken to return the same list of strings).
   */
  class CoursePassingGradeUserStatus {
    var rows: map<(string, UserId), seq<string>>

    constructor ()
      ensures rows == map[]
    {
      rows := map[];
    }

    method GetPassingGradeStatus(features: NpoedGradingFeatures, courseKey: CourseKey, user: UserId)
      returns (r: Result<seq<string>>)
      ensures r.Ok? <==> features.IsPassingGradeEnabled(CourseIdString(courseKey.id))
      ensures r.Crash? ==> r.error == ValueError
      ensures r.Ok? ==> r.value == StoredStatus(rows, courseKey.id, user)
    {
      var courseId := courseKey.id;
      if !features.IsPassingGradeEnabled(CourseIdString(courseId)) {
        return Crash(ValueError);
      }
      var messages;
      if (courseId, user) in rows {
        messages := rows[(courseId, user)];
      } else {
        messages := CharStrings(NotProcessedText);
      }
      r := Ok(messages);
    }

    method SetPassingGradeStatus(features: NpoedGradingFeatures, courseKey: CourseKey, user: UserId, messages: seq<string>)
      returns (r: Result<()>)
      modifies this
      ensures !features.IsPassingGradeEnabled(CourseIdString(courseKey.id)) ==> r == Crash(ValueError) && rows == old(rows)
      ensures features.IsPassingGradeEnabled(CourseIdString(courseKey.id)) ==>
        r == Ok(()) && rows == old(rows)[(courseKey.id, user) := messages]
    {
      var courseId := courseKey.id;
      if !features.IsPassingGradeEnabled(CourseIdString(courseId)) {
        return Crash(ValueError);
      }
      rows := rows[(courseId, user) := messages];
      r := Ok(());
    }
  }

  /** A status written and then read back is the list written: a full overwrite, no merge. */
  method SetThenGet(features: NpoedGradingFeatures, store: CoursePassingGradeUserStatus,
                    courseKey: CourseKey, user: UserId, messages: seq<string>)
    returns (r: Result<seq<string>>)
    modifies store
    ensures features.IsPassingGradeEnabled(CourseIdString(courseKey.id)) ==> r == Ok(messages)
    ensures !features.IsPassingGradeEnabled(CourseIdString(courseKey.id)) ==> r == Crash(ValueError)
  {
    var written := store.SetPassingGradeStatus(features, courseKey, user, messages);
    r := store.GetPassingGradeStatus(features, courseKey, user);
  }
}

/**
 * npoed_grading_features/enable_passing_grade.py: per-category passing
 * thresholds. The grading model stores each grader's weight and passing
 * grade as fractions (the JSON form holds percents); a course grade passes
 * only when its percent reaches the lowest nonzero cutoff and every category
 * is strictly above its threshold; a grade that has not passed gets no letter
 * and its summary marks the prominent categories that fell short.
 */
module PassingGrade {
  import opened Wrappers
  import opened OrderedDicts

  // ---------------------------------------------------------------------------
  // `CourseGradingModel.parse_grader` / `jsonize_grader`
  // ---------------------------------------------------------------------------

  /** A JSON number or `null`, as `int(...)` and `float(...)` receive it. */
  datatype JsonValue = JInt(i: int) | JFloat(x: real) | JNull

  /**
   * A grader as JSON: each field may be absent (`None` here). `short_label`
   * may be present with the value `None`, hence its two levels of `Option`.
   */
  datatype JsonGrader = JsonGrader(
    graderType: Option<string>,
    minCount: Option<JsonValue>,
    dropCount: Option<JsonValue>,
    shortLabel: Option<Option<string>>,
    weight: Option<JsonValue>,
    passingGrade: Option<JsonValue>)

  /** A parsed grader: every key present, weight and passing grade as fractions. */
  datatype Grader = Grader(
    graderType: string,
    minCount: int,
    dropCount: int,
    shortLabel: Option<string>,
    weight: real,
    passingGrade: real)

  /** What `jsonize_grader(i, grader)` returns. */
  datatype JsonizedGrader = JsonizedGrader(
    id: int,
    graderType: string,
    minCount: int,
    dropCount: int,
    shortLabel: Option<string>,
    weight: real,
    passingGrade: real)

  /** Python's `int(x)` on a float: truncation toward zero. */
  function Trunc(x: real): (n: int)
    ensures 0.0 <= x ==> n as real <= x < n as real + 1.0
    ensures x < 0.0 ==> n as real - 1.0 < x <= n as real
  {
    if x >= 0.0 then x.Floor else -((-x).Floor)
  }

  /** `int(v)`: a float is truncated, `None` raises `TypeError`. */
  function ToInt(v: JsonValue): (r: Result<int>)
    ensures r.Crash? <==> v.JNull?
    ensures r.Crash? ==> r.error == TypeError
  {
    match v
    case JInt(i) => Ok(i)
    case JFloat(x) => Ok(Trunc(x))
    case JNull => Crash(TypeError)
  }

  /** `float(v)`: an integer is widened, `None` raises `TypeError`. */
  function ToFloat(v: JsonValue): (r: Result<real>)
    ensures r.Crash? <==> v.JNull?
    ensures r.Crash? ==> r.error == TypeError
  {
    match v
    case JInt(i) => Ok(i as real)
    case JFloat(x) => Ok(x)
    case JNull => Crash(TypeError)
  }

  /** Some numeric field `parse_grader` converts is present with the value `null`. */
  predicate HasNull(j: JsonGrader) {
    j.minCount == Some(JNull) || j.dropCount == Some(JNull) || j.weight == Some(JNull) || j.passingGrade == Some(JNull)
  }

  /**
   * `parse_grader`: a missing `type` is a `KeyError`; missing numbers default
   * to 0; counts go through `int(...)`, weight and passing grade through
   * `float(...) / 100`, and a `null` among them raises `TypeError`.
   */
  function ParseGrader(j: JsonGrader): (r: Result<Grader>)
    ensures r.Crash? <==> j.graderType.None? || HasNull(j)
    ensures r.Crash? ==> r.error == if j.graderType.None? then KeyError else TypeError
    ensures r.Ok? ==>
              && r.value.graderType == j.graderType.value
              && ToInt(j.minCount.GetOr(JInt(0))) == Ok(r.value.minCount)
              && ToInt(j.dropCount.GetOr(JInt(0))) == Ok(r.value.dropCount)
              && r.value.shortLabel == j.shortLabel.GetOr(None)
              && ToFloat(j.weight.GetOr(JInt(0))) == Ok(r.value.weight * 100.0)
              && ToFloat(j.passingGrade.GetOr(JInt(0))) == Ok(r.value.passingGrade * 100.0)
  {
    if j.graderType.None? then Crash(KeyError)
    else
      var minCount := ToInt(j.minCount.GetOr(JInt(0)));
      var dropCount := ToInt(j.dropCount.GetOr(JInt(0)));
      var weight := ToFloat(j.weight.GetOr(JInt(0)));
      var passingGrade := ToFloat(j.passingGrade.GetOr(JInt(0)));
      if minCount.Crash? || dropCount.Crash? || weight.Crash? || passingGrade.Crash? then Crash(TypeError)
      else
        Ok(Grader(j.graderType.value, minCount.value, dropCount.value, j.shortLabel.GetOr(None),
                  weight.value / 100.0, passingGrade.value / 100.0))
  }

  /** A fractional count is truncated: `min_count` 2.7 is stored as 2. */
  lemma FloatCountTruncates()
    ensures ParseGrader(JsonGrader(Some("Homework"), Some(JFloat(2.7)), Some(JFloat(-1.5)), None, None, None))
            == Ok(Grader("Homework", 2, -1, None, 0.0, 0.0))
  {
  }

  /**
   * An entry of the course's `grading_policy['GRADER']` as it is stored, the
   * dict `jsonize_grader` and `_passing_grades` read: every key may be
   * absent (a policy saved before passing grades existed has no
   * `passing_grade`), and `short_label` may hold `None`.
   */
  datatype PolicyGrader = PolicyGrader(
    graderType: Option<string>,
    minCount: Option<int>,
    dropCount: Option<int>,
    shortLabel: Option<Option<string>>,
    weight: Option<real>,
    passingGrade: Option<real>)

  /** The policy entry a parsed grader is stored as: every key present. */
  function AsPolicy(g: Grader): PolicyGrader {
    PolicyGrader(Some(g.graderType), Some(g.minCount), Some(g.dropCount), Some(g.shortLabel),
                 Some(g.weight), Some(g.passingGrade))
  }

  /**
   * `jsonize_grader`: a missing `type` is a `KeyError`; missing counts,
   * weight and passing grade default to 0 and a missing `short_label` to
   * `""`; weight and passing grade go back from fractions to percents.
   */
  function JsonizeGrader(i: int, g: PolicyGrader): (r: Result<JsonizedGrader>)
    ensures r.Crash? <==> g.graderType.None?
    ensures r.Crash? ==> r.error == KeyError
    ensures r.Ok? ==>
              && r.value.id == i && r.value.graderType == g.graderType.value
              && r.value.minCount == g.minCount.GetOr(0) && r.value.dropCount == g.dropCount.GetOr(0)
              && r.value.shortLabel == g.shortLabel.GetOr(Some(""))
              && r.value.weight == 100.0 * g.weight.GetOr(0.0)
              && r.value.passingGrade == 100.0 * g.passingGrade.GetOr(0.0)
  {
    if g.graderType.None? then Crash(KeyError)
    else
      Ok(JsonizedGrader(i, g.graderType.value, g.minCount.GetOr(0), g.dropCount.GetOr(0),
                        g.shortLabel.GetOr(Some("")), g.weight.GetOr(0.0) * 100.0,
                        g.passingGrade.GetOr(0.0) * 100.0))
  }

  /** The JSON a jsonized grader reads back as: every key present, counts as integers, fractions as floats. */
  function AsJson(j: JsonizedGrader): JsonGrader {
    JsonGrader(Some(j.graderType), Some(JInt(j.minCount)), Some(JInt(j.dropCount)), Some(j.shortLabel),
               Some(JFloat(j.weight)), Some(JFloat(j.passingGrade)))
  }

  /** Parsing the jsonized form of a parsed grader gives the same grader record back (over exact arithmetic). */
  lemma ParseJsonizeRoundTrip(i: int, g: Grader)
    ensures JsonizeGrader(i, AsPolicy(g)).Ok?
    ensures ParseGrader(AsJson(JsonizeGrader(i, AsPolicy(g)).value)) == Ok(g)
  {
    assert g.weight * 100.0 / 100.0 == g.weight;
    assert g.passingGrade * 100.0 / 100.0 == g.passingGrade;
  }

  /**
   * Jsonizing a parsed grader gives the JSON values back as `int(...)` and
   * `float(...)` read them, absent numbers as 0: integral counts and every
   * weight and passing grade survive, a fractional count comes back truncated.
   * A missing `short_label` comes back as `None`, not as `jsonize_grader`'s `""`.
   */
  lemma JsonizeParseRoundTrip(i: int, j: JsonGrader)
    requires j.graderType.Some? && !HasNull(j)
    ensures JsonizeGrader(i, AsPolicy(ParseGrader(j).value)).Ok?
    ensures var r := JsonizeGrader(i, AsPolicy(ParseGrader(j).value)).value;
      && r.graderType == j.graderType.value && r.shortLabel == j.shortLabel.GetOr(None)
      && ToInt(j.minCount.GetOr(JInt(0))) == Ok(r.minCount)
      && ToInt(j.dropCount.GetOr(JInt(0))) == Ok(r.dropCount)
      && ToFloat(j.weight.GetOr(JInt(0))) == Ok(r.weight)
      && ToFloat(j.passingGrade.GetOr(JInt(0))) == Ok(r.passingGrade)
  {
    var g := ParseGrader(j).value;
    assert g.weight * 100.0 == 100.0 * g.weight;
    assert g.passingGrade * 100.0 == 100.0 * g.passingGrade;
  }

  /**
   * The test suite's default policy entry (`Homework`, no `passing_grade`):
   * `jsonize_grader` shows it with passing grade 0, while `_passing_grades`
   * raises `KeyError` on it.
   */
  lemma DefaultPolicyGrader()
    ensures var g := PolicyGrader(Some("Homework"), Some(1), Some(0), Some(Some("HW")), Some(1.0), None);
      && JsonizeGrader(0, g) == Ok(JsonizedGrader(0, "Homework", 1, 0, Some("HW"), 100.0, 0.0))
      && PassingGrades([g]) == Crash(KeyError)
  {
    var g := PolicyGrader(Some("Homework"), Some(1), Some(0), Some(Some("HW")), Some(1.0), None);
    MissingPassingGradeRaises([g], 0);
  }

  // ---------------------------------------------------------------------------
  // Dicts built from lists of pairs
  // ---------------------------------------------------------------------------

  /** `dict(pairs)`: a later pair for the same key overwrites an earlier one. */
  function DictOf<K(==), V>(ps: seq<(K, V)>): (m: map<K, V>)
    ensures forall i | 0 <= i < |ps| :: ps[i].0 in m
  {
    if ps == [] then map[]
    else
      var init := ps[..|ps| - 1];
      var last := ps[|ps| - 1];
      var m := DictOf(init)[last.0 := last.1];
      assert forall i | 0 <= i < |init| :: init[i] == ps[i];
      m
  }

  /** The value `dict(pairs)` keeps for a key is the one of its last pair. */
  lemma {:induction false} DictOfLastWins<K, V>(ps: seq<(K, V)>, i: nat)
    requires i < |ps|
    requires forall j | i < j < |ps| :: ps[j].0 != ps[i].0
    ensures DictOf(ps)[ps[i].0] == ps[i].1
  {
    if i < |ps| - 1 {
      var init := ps[..|ps| - 1];
      assert init[i] == ps[i];
      DictOfLastWins(init, i);
    }
  }

  /** A breakdown row: `category`, `percent`, `prominent` (absent: `False`) and the `mark` set on it. */
  datatype Section = Section(category: string, percent: real, prominent: bool, mark: Option<Mark>)

  /** `{'detail': message}`: the message names the category's threshold in percent. */
  datatype Mark = Mark(requiredPercent: real)

  /** Every grader carries both keys `_passing_grades` reads. */
  predicate HasPassingGrades(graders: seq<PolicyGrader>) {
    forall i | 0 <= i < |graders| :: graders[i].graderType.Some? && graders[i].passingGrade.Some?
  }

  /** The `(type, passing grade)` pairs of the graders, in order. */
  function TypePassingGrades(graders: seq<PolicyGrader>): (ps: seq<(string, real)>)
    requires HasPassingGrades(graders)
    ensures |ps| == |graders|
    ensures forall i | 0 <= i < |graders| ::
              ps[i].0 == graders[i].graderType.value && ps[i].1 == graders[i].passingGrade.value
  {
    seq(|graders|, i requires 0 <= i < |graders| => (graders[i].graderType.value, graders[i].passingGrade.value))
  }

  /** `_passing_grades`: `{grader type: passing grade}`; a grader without either key raises `KeyError`. */
  function PassingGrades(graders: seq<PolicyGrader>): (r: Result<map<string, real>>)
    ensures r.Crash? <==> !HasPassingGrades(graders)
    ensures r.Crash? ==> r.error == KeyError
    ensures r.Ok? ==> forall i | 0 <= i < |graders| :: graders[i].graderType.value in r.value
  {
    if HasPassingGrades(graders) then Ok(DictOf(TypePassingGrades(graders))) else Crash(KeyError)
  }

  /** Graders saved through `parse_grader` always carry a passing grade, so `_passing_grades` cannot raise. */
  lemma ParsedGradersHavePassingGrades(gs: seq<Grader>)
    ensures var policy := seq(|gs|, i requires 0 <= i < |gs| => AsPolicy(gs[i]));
      && PassingGrades(policy).Ok?
      && forall i | 0 <= i < |gs| :: gs[i].graderType in PassingGrades(policy).value
  {
    var policy := seq(|gs|, i requires 0 <= i < |gs| => AsPolicy(gs[i]));
    assert forall i | 0 <= i < |gs| :: policy[i].graderType.value == gs[i].graderType;
  }

  /** A policy entry without `passing_grade` makes `_passing_grades` raise. */
  lemma MissingPassingGradeRaises(graders: seq<PolicyGrader>, i: nat)
    requires i < |graders| && graders[i].passingGrade.None?
    ensures PassingGrades(graders) == Crash(KeyError)
  {
  }

  /** The threshold of a grader type is that of its last grader. */
  lemma PassingGradeOfLast(graders: seq<PolicyGrader>, i: nat)
    requires HasPassingGrades(graders)
    requires i < |graders|
    requires forall j | i < j < |graders| :: graders[j].graderType != graders[i].graderType
    ensures PassingGrades(graders).value[graders[i].graderType.value] == graders[i].passingGrade.value
  {
    DictOfLastWins(TypePassingGrades(graders), i);
  }

  /** The `(category, percent)` pairs of the breakdown, in order. */
  function CategoryPercents(breakdown: seq<Section>): (ps: seq<(string, real)>)
    ensures |ps| == |breakdown|
    ensures forall i | 0 <= i < |breakdown| :: ps[i].0 == breakdown[i].category && ps[i].1 == breakdown[i].percent
  {
    seq(|breakdown|, i requires 0 <= i < |breakdown| => (breakdown[i].category, breakdown[i].percent))
  }

  /** `{category: percent}` over the section breakdown. */
  function Results(breakdown: seq<Section>): (m: map<string, real>)
    ensures forall i | 0 <= i < |breakdown| :: breakdown[i].category in m
  {
    DictOf(CategoryPercents(breakdown))
  }

  /** The percent of a category is that of its last section. */
  lemma ResultOfLast(breakdown: seq<Section>, i: nat)
    requires i < |breakdown|
    requires forall j | i < j < |breakdown| :: breakdown[j].category != breakdown[i].category
    ensures Results(breakdown)[breakdown[i].category] == breakdown[i].percent
  {
    DictOfLastWins(CategoryPercents(breakdown), i);
  }

  /** Two finite sets, one inside the other and of the same size, are equal. */
  lemma {:induction false} SubsetSameSize<T>(a: set<T>, b: set<T>)
    requires a <= b && |a| == |b|
    ensures a == b
  {
    if a != b {
      var x :| x in b && x !in a;
      assert a <= b - {x};
      SubsetSize(a, b - {x});
    }
  }

  lemma {:induction false} SubsetSize<T>(a: set<T>, b: set<T>)
    requires a <= b
    ensures |a| <= |b|
  {
    if a != {} {
      var x :| x in a;
      SubsetSize(a - {x}, b - {x});
    }
  }

  /**
   * `_compute_passed_by_category`: `KeyError` when a grader lacks its type or
   * passing grade; otherwise `True` when the categories of the breakdown are
   * not exactly the graders' types, and else every category must be strictly
   * above its passing grade.
   */
  function PassedByCategory(graders: seq<PolicyGrader>, breakdown: seq<Section>): (r: Result<bool>)
    ensures r.Crash? <==> !HasPassingGrades(graders)
    ensures r.Crash? ==> r.error == KeyError
    ensures r.Ok? ==> var passingGrades := PassingGrades(graders).value;
      && (Results(breakdown).Keys != passingGrades.Keys ==> r.value)
      && (Results(breakdown).Keys == passingGrades.Keys ==>
            (r.value <==> forall c | c in Results(breakdown) :: Results(breakdown)[c] > passingGrades[c]))
  {
    var grades := PassingGrades(graders);
    if grades.Crash? then Crash(grades.error)
    else
      var passingGrades := grades.value;
      var results := Results(breakdown);
      var keysMatch := |results.Keys| == |passingGrades.Keys| && forall x | x in results :: x in passingGrades;
      if !keysMatch then Ok(true)
      else
        SubsetSameSize(results.Keys, passingGrades.Keys);
        Ok(forall c | c in results :: results[c] > passingGrades[c])
  }

  /** A category exactly at its threshold fails, also at 0 percent against a 0 threshold. */
  lemma AtThresholdFails(g: PolicyGrader, s: Section)
    requires g.graderType == Some(s.category) && g.passingGrade == Some(s.percent)
    ensures PassedByCategory([g], [s]) == Ok(false)
  {
    var ps := CategoryPercents([s]);
    assert ps[..0] == [] && DictOf(ps[..0]) == map[];
    assert Results([s]) == map[s.category := s.percent];
    var qs := TypePassingGrades([g]);
    assert qs[..0] == [] && DictOf(qs[..0]) == map[];
    assert PassingGrades([g]).value == map[s.category := s.percent];
  }

  // ---------------------------------------------------------------------------
  // `CourseGrade._compute_passed`
  // ---------------------------------------------------------------------------

  /** `min(cutoff for cutoff in values if cutoff > 0)`, `None` when there is none. */
  function MinPositive(vals: seq<real>): (r: Option<real>)
    ensures r.None? <==> forall i | 0 <= i < |vals| :: vals[i] <= 0.0
    ensures r.Some? ==> r.value > 0.0 && r.value in vals
    ensures r.Some? ==> forall i | 0 <= i < |vals| && vals[i] > 0.0 :: r.value <= vals[i]
  {
    if vals == [] then None
    else
      var rest := MinPositive(vals[1..]);
      assert forall i | 1 <= i < |vals| :: vals[i] == vals[1..][i - 1];
      if vals[0] <= 0.0 then rest
      else if rest.None? || vals[0] <= rest.value then Some(vals[0])
      else rest
  }

  /**
   * `success_cutoff and percent >= success_cutoff`: Python `None` (here
   * `None`) when no cutoff is positive; otherwise whether some positive
   * cutoff is reached.
   */
  function PercentPassed(cutoffs: Dict<string, real>, percent: real): (r: Option<bool>)
    ensures r.None? <==> forall k | k in cutoffs.items :: cutoffs.items[k] <= 0.0
    ensures r.Some? ==> (r.value <==> exists k | k in cutoffs.items :: 0.0 < cutoffs.items[k] <= percent)
  {
    var vals := Values(cutoffs);
    var successCutoff := MinPositive(vals);
    assert forall k | k in cutoffs.items :: cutoffs.items[k] in vals by {
      forall k | k in cutoffs.items ensures cutoffs.items[k] in vals {
        var i := IndexOf(cutoffs.keys, k);
        assert vals[i] == cutoffs.items[k];
      }
    }
    if successCutoff.None? then None
    else
      var i :| 0 <= i < |vals| && vals[i] == successCutoff.value;
      assert cutoffs.keys[i] in cutoffs.items;
      Some(percent >= successCutoff.value)
  }

  /**
   * `_compute_passed` as written: with passing grade off for the course it
   * calls `self._default_compute_passed`, a name that is never assigned (the
   * original is saved as `_default__compute_passed`).
   */
  function ComputePassedAsWritten(passingGradeEnabled: bool, cutoffs: Dict<string, real>, percent: real,
                                  graders: seq<PolicyGrader>, breakdown: seq<Section>): (r: Result<Option<bool>>)
    ensures !passingGradeEnabled ==> r == Crash(AttributeError)
    ensures passingGradeEnabled ==> r == ComputePassed(true, None, cutoffs, percent, graders, breakdown)
  {
    if !passingGradeEnabled then Crash(AttributeError)
    else ComputePassed(true, None, cutoffs, percent, graders, breakdown)
  }

  /**
   * `_compute_passed` with the saved original (its answer `defaultPassed`)
   * used when passing grade is off. Otherwise the category check always runs,
   * so a grader without a passing grade raises `KeyError`; else the answer is
   * `None` when no cutoff is positive, and the percent check and the category
   * check together.
   */
  function ComputePassed(passingGradeEnabled: bool, defaultPassed: Option<bool>, cutoffs: Dict<string, real>, percent: real,
                         graders: seq<PolicyGrader>, breakdown: seq<Section>): (r: Result<Option<bool>>)
    ensures !passingGradeEnabled ==> r == Ok(defaultPassed)
    ensures passingGradeEnabled ==>
              && (r.Crash? <==> !HasPassingGrades(graders))
              && (r.Crash? ==> r.error == KeyError)
              && (r.Ok? ==> (r.value.None? <==> forall k | k in cutoffs.items :: cutoffs.items[k] <= 0.0))
              && (r.Ok? && r.value.Some? ==>
                    (r.value.value <==> (exists k | k in cutoffs.items :: 0.0 < cutoffs.items[k] <= percent)
                                        && PassedByCategory(graders, breakdown).value))
  {
    if !passingGradeEnabled then Ok(defaultPassed)
    else
      var percentPassed := PercentPassed(cutoffs, percent);
      var categoryPassed := PassedByCategory(graders, breakdown);
      if categoryPassed.Crash? then Crash(categoryPassed.error)
      else if percentPassed.None? then Ok(None)
      else Ok(Some(percentPassed.value && categoryPassed.value))
  }

  /** The discrepancy: every course without passing grade crashes where the original answer was meant. */
  lemma ComputePassedDefaultCrashes(cutoffs: Dict<string, real>, percent: real, graders: seq<PolicyGrader>,
                                    breakdown: seq<Section>, defaultPassed: Option<bool>)
    ensures ComputePassedAsWritten(false, cutoffs, percent, graders, breakdown).Crash?
    ensures ComputePassed(false, defaultPassed, cutoffs, percent, graders, breakdown) == Ok(defaultPassed)
  {
  }

  // ---------------------------------------------------------------------------
  // `CourseGrade._compute_letter_grade`
  // ---------------------------------------------------------------------------

  /** One `(letter, cutoff)` entry of `grade_cutoffs`. */
  datatype Cutoff = Cutoff(letter: string, cutoff: real)

  /** The entries of `grade_cutoffs` in the dict's order. */
  function Entries(cutoffs: Dict<string, real>): (r: seq<Cutoff>)
    ensures |r| == |cutoffs.keys|
    ensures forall i | 0 <= i < |r| :: r[i].letter == cutoffs.keys[i] && r[i].cutoff == cutoffs.items[cutoffs.keys[i]]
  {
    seq(|cutoffs.keys|, i requires 0 <= i < |cutoffs.keys| => Cutoff(cutoffs.keys[i], cutoffs.items[cutoffs.keys[i]]))
  }

  ghost predicate Descending(s: seq<Cutoff>) {
    forall i, j | 0 <= i < j < |s| :: s[i].cutoff >= s[j].cutoff
  }

  /** Inserts `c` before the first entry with a strictly lower cutoff (after all entries with an equal one). */
  function Insert(c: Cutoff, s: seq<Cutoff>): (r: seq<Cutoff>)
    ensures multiset(r) == multiset(s) + multiset{c}
    ensures forall x | x in r :: x == c || x in s
  {
    if s == [] then [c]
    else if s[0].cutoff < c.cutoff then [c] + s
    else
      assert s == [s[0]] + s[1..];
      [s[0]] + Insert(c, s[1..])
  }

  /** An entry followed by a descending order, all at most its cutoff, is descending. */
  lemma ConsDescending(x: Cutoff, s: seq<Cutoff>)
    requires Descending(s) && forall i | 0 <= i < |s| :: s[i].cutoff <= x.cutoff
    ensures Descending([x] + s)
  {
    var r := [x] + s;
    forall i, j | 0 <= i < j < |r| ensures r[i].cutoff >= r[j].cutoff {
      assert r[j] == s[j - 1];
      if i > 0 {
        assert r[i] == s[i - 1];
      }
    }
  }

  /** Inserting into a descending order keeps it descending. */
  lemma {:induction false} InsertDescending(c: Cutoff, s: seq<Cutoff>)
    requires Descending(s)
    ensures Descending(Insert(c, s))
  {
    if s == [] {
    } else if s[0].cutoff < c.cutoff {
      forall i | 0 <= i < |s| ensures s[i].cutoff <= c.cutoff {
        assert i == 0 || s[0].cutoff >= s[i].cutoff;
      }
      ConsDescending(c, s);
    } else {
      var t := s[1..];
      forall i, j | 0 <= i < j < |t| ensures t[i].cutoff >= t[j].cutoff {
        assert t[i] == s[i + 1] && t[j] == s[j + 1];
      }
      InsertDescending(c, t);
      var rest := Insert(c, t);
      forall i | 0 <= i < |rest| ensures rest[i].cutoff <= s[0].cutoff {
        if rest[i] != c {
          assert rest[i] in t;
          var m :| 0 <= m < |t| && t[m] == rest[i];
          assert t[m] == s[m + 1];
        }
      }
      ConsDescending(s[0], rest);
    }
  }

  /** The entries of `s` whose cutoff is `v`, in order. */
  function WithCutoff(s: seq<Cutoff>, v: real): (r: seq<Cutoff>)
    ensures |r| <= |s|
  {
    if s == [] then []
    else (if s[0].cutoff == v then [s[0]] else []) + WithCutoff(s[1..], v)
  }

  lemma {:induction false} WithCutoffConcat(a: seq<Cutoff>, b: seq<Cutoff>, v: real)
    ensures WithCutoff(a + b, v) == WithCutoff(a, v) + WithCutoff(b, v)
  {
    if a == [] {
      assert a + b == b;
    } else {
      var head := if a[0].cutoff == v then [a[0]] else [];
      assert (a + b)[0] == a[0];
      assert (a + b)[1..] == a[1..] + b;
      WithCutoffConcat(a[1..], b, v);
      calc {
        WithCutoff(a + b, v);
        head + WithCutoff(a[1..] + b, v);
        head + (WithCutoff(a[1..], v) + WithCutoff(b, v));
        (head + WithCutoff(a[1..], v)) + WithCutoff(b, v);
        WithCutoff(a, v) + WithCutoff(b, v);
      }
    }
  }

  lemma {:induction false} WithCutoffNone(s: seq<Cutoff>, v: real)
    requires forall i | 0 <= i < |s| :: s[i].cutoff != v
    ensures WithCutoff(s, v) == []
  {
    if s != [] {
      WithCutoffNone(s[1..], v);
    }
  }

  /** `Insert` puts `c` after every entry with the same cutoff: the entries of each cutoff keep their order. */
  lemma {:induction false} InsertStable(c: Cutoff, s: seq<Cutoff>, v: real)
    requires Descending(s)
    ensures WithCutoff(Insert(c, s), v) == WithCutoff(s, v) + (if c.cutoff == v then [c] else [])
  {
    if s == [] {
    } else if s[0].cutoff < c.cutoff {
      assert Insert(c, s) == [c] + s;
      assert Insert(c, s)[1..] == s;
      if c.cutoff == v {
        forall i | 0 <= i < |s| ensures s[i].cutoff != v {
          assert i == 0 || s[0].cutoff >= s[i].cutoff;
        }
        WithCutoffNone(s, v);
      }
    } else {
      var t := s[1..];
      forall i, j | 0 <= i < j < |t| ensures t[i].cutoff >= t[j].cutoff {
        assert t[i] == s[i + 1] && t[j] == s[j + 1];
      }
      InsertStable(c, t, v);
      assert Insert(c, s)[1..] == Insert(c, t);
    }
  }

  /**
   * `sorted(grade_cutoffs, key=grade_cutoffs.get, reverse=True)`: a stable
   * descending insertion sort. It reorders the entries, descending by cutoff,
   * and entries with the same cutoff keep their order in `es`.
   */
  function SortedDescending(es: seq<Cutoff>): (r: seq<Cutoff>)
    ensures multiset(r) == multiset(es)
    ensures forall x | x in r :: x in es
    ensures forall x | x in es :: x in r
    ensures Descending(r)
    ensures forall v :: WithCutoff(r, v) == WithCutoff(es, v)
  {
    if es == [] then []
    else
      var init := es[..|es| - 1];
      var last := es[|es| - 1];
      assert es == init + [last];
      var sortedInit := SortedDescending(init);
      InsertDescending(last, sortedInit);
      var r := Insert(last, sortedInit);
      assert forall x | x in es :: x in multiset(r);
      assert forall v :: WithCutoff(r, v) == WithCutoff(es, v) by {
        forall v ensures WithCutoff(r, v) == WithCutoff(es, v) {
          InsertStable(last, sortedInit, v);
          WithCutoffConcat(init, [last], v);
          assert WithCutoff([last], v) == (if last.cutoff == v then [last] else []) by {
            assert [last][1..] == [];
          }
        }
      }
      r
  }

  /**
   * The entry `_compute_letter_grade` evidently means: the index in `es` of
   * the first entry, in `es`'s order, among those with the largest cutoff
   * that `p` reaches; `None` when `p` reaches no cutoff.
   */
  function BestReached(es: seq<Cutoff>, p: real): (r: Option<nat>)
    ensures r.None? <==> forall j | 0 <= j < |es| :: p < es[j].cutoff
    ensures r.Some? ==> r.value < |es| && es[r.value].cutoff <= p
    ensures r.Some? ==> forall j | 0 <= j < |es| && es[j].cutoff <= p :: es[j].cutoff <= es[r.value].cutoff
    ensures r.Some? ==> forall j | 0 <= j < r.value :: es[j].cutoff != es[r.value].cutoff
  {
    if es == [] then None
    else
      var init := es[..|es| - 1];
      var last := es[|es| - 1];
      var prev := BestReached(init, p);
      assert forall j | 0 <= j < |init| :: init[j] == es[j];
      if last.cutoff <= p && (prev.None? || es[prev.value].cutoff < last.cutoff) then Some(|es| - 1)
      else prev
  }

  /** Inserting one entry into a descending order changes the first reached entry only when it reaches higher. */
  lemma {:induction false} InsertReached(c: Cutoff, s: seq<Cutoff>, p: real)
    requires Descending(s)
    ensures FirstReached(Insert(c, s), p) ==
              if c.cutoff <= p && (FirstReached(s, p).None? || FirstReached(s, p).value.cutoff < c.cutoff)
              then Some(c) else FirstReached(s, p)
  {
    if s == [] {
    } else if s[0].cutoff < c.cutoff {
      assert Insert(c, s) == [c] + s;
      assert Insert(c, s)[1..] == s;
      if c.cutoff > p && FirstReached(s, p).Some? {
        FirstReachedIsLargest(s, p);
      }
      if c.cutoff <= p && FirstReached(s, p).Some? {
        assert FirstReached(s, p).value in s;
        var m :| 0 <= m < |s| && s[m] == FirstReached(s, p).value;
        assert m == 0 || s[0].cutoff >= s[m].cutoff;
      }
    } else {
      var t := s[1..];
      forall i, j | 0 <= i < j < |t| ensures t[i].cutoff >= t[j].cutoff {
        assert t[i] == s[i + 1] && t[j] == s[j + 1];
      }
      InsertReached(c, t, p);
      assert Insert(c, s)[1..] == Insert(c, t);
    }
  }

  /** Scanning the stable descending sort reaches exactly the entry `BestReached` names. */
  lemma {:induction false} SortedReached(es: seq<Cutoff>, p: real)
    ensures var b := BestReached(es, p);
      FirstReached(SortedDescending(es), p) == if b.None? then None else Some(es[b.value])
  {
    if es != [] {
      var init := es[..|es| - 1];
      var last := es[|es| - 1];
      assert es == init + [last];
      SortedReached(init, p);
      InsertDescending(last, SortedDescending(init));
      InsertReached(last, SortedDescending(init), p);
      var prev := BestReached(init, p);
      if prev.Some? {
        assert init[prev.value] == es[prev.value];
      }
    }
  }

  /** The first entry of `s` whose cutoff `p` reaches: the `for ... break` of `_compute_letter_grade`. */
  function FirstReached(s: seq<Cutoff>, p: real): (r: Option<Cutoff>)
    ensures r.Some? ==> r.value in s && r.value.cutoff <= p
    ensures r.None? <==> forall i | 0 <= i < |s| :: p < s[i].cutoff
  {
    if s == [] then None
    else if p >= s[0].cutoff then Some(s[0])
    else
      var rest := FirstReached(s[1..], p);
      assert forall i | 1 <= i < |s| :: s[i] == s[1..][i - 1];
      rest
  }

  /** In a descending order the first entry reached has the largest reached cutoff. */
  lemma {:induction false} FirstReachedIsLargest(s: seq<Cutoff>, p: real)
    requires Descending(s)
    ensures FirstReached(s, p).Some? ==>
              forall i | 0 <= i < |s| && s[i].cutoff <= p :: s[i].cutoff <= FirstReached(s, p).value.cutoff
  {
    if s != [] && p < s[0].cutoff {
      var t := s[1..];
      forall i, j | 0 <= i < j < |t| ensures t[i].cutoff >= t[j].cutoff {
        assert t[i] == s[i + 1] && t[j] == s[j + 1];
      }
      FirstReachedIsLargest(t, p);
      forall i | 0 <= i < |s| && s[i].cutoff <= p
        ensures FirstReached(s, p).Some? ==> s[i].cutoff <= FirstReached(s, p).value.cutoff
      {
        assert s[i] == t[i - 1];
      }
    }
  }

  /** The letter `_compute_letter_grade` resolves once passing grade is on; percent counts as 0 unless passed. */
  function LetterGrade(cutoffs: Dict<string, real>, percent: real, passed: bool): Option<string> {
    var p := if passed then percent else 0.0;
    var r := FirstReached(SortedDescending(Entries(cutoffs)), p);
    if r.None? then None else Some(r.value.letter)
  }

  /**
   * The letter's cutoff is the largest one reached; no letter when no cutoff
   * is reached; among letters sharing that cutoff, the first in the dict's
   * order wins (`sorted` is stable).
   */
  lemma LetterGradeIsLargestReached(cutoffs: Dict<string, real>, percent: real, passed: bool)
    ensures var p := if passed then percent else 0.0;
      var r := LetterGrade(cutoffs, percent, passed);
      && (r.None? <==> forall k | k in cutoffs.items :: p < cutoffs.items[k])
      && (r.Some? ==> r.value in cutoffs.items && cutoffs.items[r.value] <= p
                      && forall k | k in cutoffs.items && cutoffs.items[k] <= p :: cutoffs.items[k] <= cutoffs.items[r.value])
      && (r.Some? ==> forall i, j | 0 <= j < i < |cutoffs.keys| && cutoffs.keys[i] == r.value ::
                        cutoffs.items[cutoffs.keys[j]] != cutoffs.items[r.value])
  {
    var p := if passed then percent else 0.0;
    var s := SortedDescending(Entries(cutoffs));
    SortedEntries(cutoffs);
    ReachedNone(cutoffs, s, p);
    if FirstReached(s, p).Some? {
      ReachedLargest(cutoffs, s, p);
      FirstOfTies(cutoffs, p);
    }
  }

  /** The letter reached first in the sorted entries has no earlier key with the same cutoff. */
  lemma FirstOfTies(cutoffs: Dict<string, real>, p: real)
    requires FirstReached(SortedDescending(Entries(cutoffs)), p).Some?
    ensures var c := FirstReached(SortedDescending(Entries(cutoffs)), p).value;
      forall i, j | 0 <= j < i < |cutoffs.keys| && cutoffs.keys[i] == c.letter ::
        cutoffs.items[cutoffs.keys[j]] != cutoffs.items[c.letter]
  {
    var es := Entries(cutoffs);
    SortedReached(es, p);
    var b := BestReached(es, p).value;
    var c := FirstReached(SortedDescending(es), p).value;
    assert c == es[b] && c.letter == cutoffs.keys[b];
    forall i, j | 0 <= j < i < |cutoffs.keys| && cutoffs.keys[i] == c.letter
      ensures cutoffs.items[cutoffs.keys[j]] != cutoffs.items[c.letter]
    {
      assert i == b;
      assert es[j].cutoff != es[b].cutoff;
    }
  }

  /** Over a listing of the dict's entries, no entry is reached exactly when every cutoff is above `p`. */
  lemma ReachedNone(cutoffs: Dict<string, real>, s: seq<Cutoff>, p: real)
    requires forall k | k in cutoffs.items :: Cutoff(k, cutoffs.items[k]) in s
    requires forall c | c in s :: c.letter in cutoffs.items && cutoffs.items[c.letter] == c.cutoff
    ensures FirstReached(s, p).None? <==> forall k | k in cutoffs.items :: p < cutoffs.items[k]
  {
    if FirstReached(s, p).None? {
      forall k | k in cutoffs.items
        ensures p < cutoffs.items[k]
      {
        var i :| 0 <= i < |s| && s[i] == Cutoff(k, cutoffs.items[k]);
      }
    } else {
      var c := FirstReached(s, p).value;
      assert c in s;
    }
  }

  /** Over a descending listing of the dict's entries, the entry reached first has the largest cutoff reached. */
  lemma ReachedLargest(cutoffs: Dict<string, real>, s: seq<Cutoff>, p: real)
    requires forall k | k in cutoffs.items :: Cutoff(k, cutoffs.items[k]) in s
    requires forall c | c in s :: c.letter in cutoffs.items && cutoffs.items[c.letter] == c.cutoff
    requires Descending(s) && FirstReached(s, p).Some?
    ensures var c := FirstReached(s, p).value;
      && c.letter in cutoffs.items && cutoffs.items[c.letter] <= p
      && forall k | k in cutoffs.items && cutoffs.items[k] <= p :: cutoffs.items[k] <= cutoffs.items[c.letter]
  {
    var c := FirstReached(s, p).value;
    FirstReachedIsLargest(s, p);
    assert c in s;
    forall k | k in cutoffs.items && cutoffs.items[k] <= p
      ensures cutoffs.items[k] <= c.cutoff
    {
      var i :| 0 <= i < |s| && s[i] == Cutoff(k, cutoffs.items[k]);
    }
  }

  /** The sorted entries are exactly the dict's `(letter, cutoff)` pairs. */
  lemma SortedEntries(cutoffs: Dict<string, real>)
    ensures forall k | k in cutoffs.items :: Cutoff(k, cutoffs.items[k]) in SortedDescending(Entries(cutoffs))
    ensures forall c | c in SortedDescending(Entries(cutoffs)) :: c.letter in cutoffs.items && cutoffs.items[c.letter] == c.cutoff
  {
    var es := Entries(cutoffs);
    forall k | k in cutoffs.items ensures Cutoff(k, cutoffs.items[k]) in es {
      var j :| 0 <= j < |cutoffs.keys| && cutoffs.keys[j] == k;
      assert es[j] == Cutoff(k, cutoffs.items[k]);
    }
    forall c | c in es ensures c.letter in cutoffs.items && cutoffs.items[c.letter] == c.cutoff {
      var j :| 0 <= j < |es| && es[j] == c;
    }
  }

  /** A higher percent never resolves to a letter with a lower cutoff. */
  lemma LetterGradeMonotone(cutoffs: Dict<string, real>, p1: real, p2: real)
    requires p1 <= p2
    ensures LetterGrade(cutoffs, p1, true).Some? ==>
              && LetterGrade(cutoffs, p2, true).Some?
              && cutoffs.items[LetterGrade(cutoffs, p1, true).value] <= cutoffs.items[LetterGrade(cutoffs, p2, true).value]
  {
    LetterGradeIsLargestReached(cutoffs, p1, true);
    LetterGradeIsLargestReached(cutoffs, p2, true);
  }

  /** The scan of `_compute_letter_grade` once passing grade is on. */
  method ResolveLetterGrade(gradeCutoffs: Dict<string, real>, percent: real, passed: bool) returns (letterGrade: Option<string>)
    ensures letterGrade == LetterGrade(gradeCutoffs, percent, passed)
  {
    letterGrade := None;
    var p := percent;
    if !passed {
      p := 0.0;
    }
    var descendingGrades := SortedDescending(Entries(gradeCutoffs));
    ghost var goal := FirstReached(descendingGrades, p);
    var i := 0;
    while i < |descendingGrades|
      invariant i <= |descendingGrades|
      invariant FirstReached(descendingGrades[i..], p) == goal
    {
      var possibleGrade := descendingGrades[i];
      if p >= possibleGrade.cutoff {
        letterGrade := Some(possibleGrade.letter);
        return;
      }
      assert descendingGrades[i..][1..] == descendingGrades[i + 1..];
      i := i + 1;
    }
  }

  /**
   * `_compute_letter_grade` as written: with passing grade off it calls
   * `self._default__compute_letter_rade`, a misspelling of the saved
   * `_default__compute_letter_grade`.
   */
  function ComputeLetterGradeAsWritten(passingGradeEnabled: bool, cutoffs: Dict<string, real>, percent: real, passed: bool)
    : (r: Result<Option<string>>)
    ensures !passingGradeEnabled ==> r == Crash(AttributeError)
    ensures passingGradeEnabled ==> r == Ok(LetterGrade(cutoffs, percent, passed))
  {
    if !passingGradeEnabled then Crash(AttributeError) else Ok(LetterGrade(cutoffs, percent, passed))
  }

  /** `_compute_letter_grade` with the saved original (its answer `defaultLetter`) used when passing grade is off. */
  function ComputeLetterGrade(passingGradeEnabled: bool, defaultLetter: Option<string>, cutoffs: Dict<string, real>,
                              percent: real, passed: bool): (r: Option<string>)
    ensures !passingGradeEnabled ==> r == defaultLetter
    ensures passingGradeEnabled && !passed ==> r == LetterGrade(cutoffs, 0.0, true)
    ensures passingGradeEnabled && passed ==> r == LetterGrade(cutoffs, percent, true)
  {
    if !passingGradeEnabled then defaultLetter else LetterGrade(cutoffs, percent, passed)
  }

  /** The discrepancy: a course without passing grade crashes instead of getting its original letter. */
  lemma LetterGradeDefaultCrashes(cutoffs: Dict<string, real>, percent: real, passed: bool, defaultLetter: Option<string>)
    ensures ComputeLetterGradeAsWritten(false, cutoffs, percent, passed).Crash?
    ensures ComputeLetterGrade(false, defaultLetter, cutoffs, percent, passed) == defaultLetter
  {
  }

  // ---------------------------------------------------------------------------
  // `CourseGrade.summary`
  // ---------------------------------------------------------------------------

  /** The mark one section gets: prominent and its category's percent strictly below the threshold. */
  function MarkSection(s: Section, results: map<string, real>, passingGrades: map<string, real>): (r: Section)
    requires s.category in results && s.category in passingGrades
    ensures r.category == s.category && r.percent == s.percent && r.prominent == s.prominent
    ensures s.prominent && results[s.category] < passingGrades[s.category] ==>
              r.mark == Some(Mark(100.0 * passingGrades[s.category]))
    ensures !(s.prominent && results[s.category] < passingGrades[s.category]) ==> r == s
  {
    if s.prominent && results[s.category] < passingGrades[s.category] then
      s.(mark := Some(Mark(100.0 * passingGrades[s.category])))
    else s
  }

  /** The index of the first section whose category has no grader (`|bs|` when there is none). */
  function FirstMissing(bs: seq<Section>, passingGrades: map<string, real>): (n: nat)
    ensures n <= |bs|
    ensures forall k | 0 <= k < n :: bs[k].category in passingGrades
    ensures n < |bs| ==> bs[n].category !in passingGrades
  {
    if bs == [] then 0
    else if bs[0].category !in passingGrades then 0
    else
      var n := FirstMissing(bs[1..], passingGrades);
      assert forall k | 1 <= k < 1 + n :: bs[k] == bs[1..][k - 1];
      1 + n
  }

  /** The breakdown once its first `n` sections have been through `MarkSection`. */
  function MarkedUpTo(bs: seq<Section>, results: map<string, real>, passingGrades: map<string, real>, n: nat)
    : (r: seq<Section>)
    requires n <= |bs|
    requires forall k | 0 <= k < n :: bs[k].category in results && bs[k].category in passingGrades
    ensures |r| == |bs|
    ensures forall k | 0 <= k < n :: r[k] == MarkSection(bs[k], results, passingGrades)
    ensures forall k | n <= k < |bs| :: r[k] == bs[k]
  {
    seq(|bs|, k requires 0 <= k < |bs| => if k < n then MarkSection(bs[k], results, passingGrades) else bs[k])
  }

  /** What `summary` leaves in the breakdown: every section before the first one without a grader marked. */
  function MarkedBreakdown(bs: seq<Section>, passingGrades: map<string, real>): (r: seq<Section>)
    ensures |r| == |bs|
  {
    MarkedUpTo(bs, Results(bs), passingGrades, FirstMissing(bs, passingGrades))
  }

  /**
   * With every category graded, a section whose category does not come back
   * later in the breakdown is marked exactly when it is prominent and its own
   * percent is below the threshold.
   */
  lemma MarksExactlyFailedProminent(bs: seq<Section>, passingGrades: map<string, real>, i: nat)
    requires forall k | 0 <= k < |bs| :: bs[k].category in passingGrades
    requires i < |bs|
    requires forall j | i < j < |bs| :: bs[j].category != bs[i].category
    ensures MarkedBreakdown(bs, passingGrades)[i] ==
              if bs[i].prominent && bs[i].percent < passingGrades[bs[i].category]
              then bs[i].(mark := Some(Mark(100.0 * passingGrades[bs[i].category])))
              else bs[i]
  {
    MarkedAt(bs, passingGrades, i);
    ResultOfLast(bs, i);
  }

  /** Once every category is graded, each section of the breakdown has been through `MarkSection`. */
  lemma MarkedAt(bs: seq<Section>, passingGrades: map<string, real>, i: nat)
    requires forall k | 0 <= k < |bs| :: bs[k].category in passingGrades
    requires i < |bs|
    ensures bs[i].category in Results(bs)
    ensures MarkedBreakdown(bs, passingGrades)[i] == MarkSection(bs[i], Results(bs), passingGrades)
  {
    assert FirstMissing(bs, passingGrades) == |bs|;
  }

  /** The part of `CourseGrade` `summary` reads and changes. */
  class CourseGrade {
    var passed: bool
    var sectionBreakdown: seq<Section>

    constructor (passed: bool, sectionBreakdown: seq<Section>)
      ensures this.passed == passed && this.sectionBreakdown == sectionBreakdown
    {
      this.passed := passed;
      this.sectionBreakdown := sectionBreakdown;
    }

    /**
     * `summary`: unchanged when the grade passed or passing grade is off;
     * otherwise `_passing_grades` raises `KeyError` before any mark when a
     * grader lacks its passing grade, and else each section is marked in
     * place, a section whose category has no grader raising `KeyError` after
     * the sections before it were marked. The summary's breakdown is the
     * grade's own list.
     */
    method Summary(passingGradeEnabled: bool, graders: seq<PolicyGrader>) returns (r: Result<seq<Section>>)
      modifies this
      ensures passed == old(passed)
      ensures passed || !passingGradeEnabled ==> r == Ok(sectionBreakdown) && sectionBreakdown == old(sectionBreakdown)
      ensures !passed && passingGradeEnabled && !HasPassingGrades(graders) ==>
                r == Crash(KeyError) && sectionBreakdown == old(sectionBreakdown)
      ensures !passed && passingGradeEnabled && HasPassingGrades(graders) ==>
                var bs := old(sectionBreakdown);
                var passingGrades := PassingGrades(graders).value;
                && (r.Crash? <==> FirstMissing(bs, passingGrades) < |bs|)
                && (r.Crash? ==> r.error == KeyError)
                && (r.Ok? ==> r.value == sectionBreakdown)
                && sectionBreakdown == MarkedBreakdown(bs, passingGrades)
    {
      if passed || !passingGradeEnabled {
        return Ok(sectionBreakdown);
      }
      var grades := PassingGrades(graders);
      if grades.Crash? {
        return Crash(grades.error);
      }
      var passingGrades := grades.value;
      var breakdown := sectionBreakdown;
      var results := Results(breakdown);
      var i := 0;
      while i < |breakdown|
        invariant i <= |breakdown|
        invariant passed == old(passed)
        invariant forall k | 0 <= k < i :: breakdown[k].category in passingGrades
        invariant sectionBreakdown == MarkedUpTo(breakdown, results, passingGrades, i)
      {
        var section := breakdown[i];
        if section.category !in passingGrades {
          assert FirstMissing(breakdown, passingGrades) == i;
          return Crash(KeyError);
        }
        sectionBreakdown := sectionBreakdown[i := MarkSection(section, results, passingGrades)];
        assert sectionBreakdown == MarkedUpTo(breakdown, results, passingGrades, i + 1);
        i := i + 1;
      }
      assert FirstMissing(breakdown, passingGrades) == i;
      r := Ok(sectionBreakdown);
    }
  }
}

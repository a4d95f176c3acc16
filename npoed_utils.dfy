/**
 * npoed_grading_features/utils.py: the unit pseudo-score, the search for the
 * unit whose removal hurts a category's grade least (`_find_worst_score`) and
 * the drop that removes it from the category's subsection grades.
 */
module NpoedUtils {
  import opened Wrappers
  import opened Keys
  import opened OrderedDicts
  import opened UnitChildren
  import NpoedModels

  /** `vertical_grading_enabled`: the `ENABLE_GRADING_FEATURES` setting and the course's flag. */
  function VerticalGradingEnabled(setting: bool, rows: map<string, NpoedModels.FeatureRow>, c: NpoedModels.CourseIdArg): (r: bool)
    ensures !setting ==> !r
    ensures setting ==> (r <==> NpoedModels.GetId(c).Some? && NpoedModels.GetId(c).value in rows
                                && rows[NpoedModels.GetId(c).value].verticalGrading)
  {
    setting && NpoedModels.FeatureEnabled(rows, c, NpoedModels.VerticalGrading)
  }

  // ---------------------------------------------------------------------------
  // The unit pseudo-score
  // ---------------------------------------------------------------------------

  /** The edX `ProblemScore` fields the core sets and reads. */
  datatype ProblemScore = ProblemScore(
    rawEarned: real,
    rawPossible: real,
    earned: real,           // weighted_earned
    possible: real,         // weighted_possible
    weight: real,
    graded: bool,
    firstAttempted: Option<int>)

  /**
   * The pseudo problem that stands for a unit of weight `w` whose children
   * scored `scores`; its attempt time is the latest among the attempted
   * children, which the code reaches only when all or none were attempted.
   */
  function PseudoScore(w: real, scores: seq<ChildScore>): (s: ProblemScore)
    requires w != 0.0 && scores != [] && SumPossible(scores) != 0.0
    ensures s.possible == w && s.rawPossible == w
    ensures s.earned / s.possible == SumEarned(scores) / SumPossible(scores)
    ensures s.rawEarned == s.earned && s.weight == 1.0
    ensures s.graded <==> exists i | 0 <= i < |scores| :: scores[i].graded
    ensures s.firstAttempted.None? <==> forall i | 0 <= i < |scores| :: scores[i].firstAttempted.None?
    ensures s.firstAttempted.Some? ==> forall i | 0 <= i < |scores| && scores[i].firstAttempted.Some? ::
              scores[i].firstAttempted.value <= s.firstAttempted.value
    ensures s.firstAttempted.Some? ==> exists i | 0 <= i < |scores| :: scores[i].firstAttempted == s.firstAttempted
    ensures w > 0.0 && 0.0 <= SumEarned(scores) <= SumPossible(scores) ==> 0.0 <= s.earned <= s.possible
  {
    var e, p := SumEarned(scores), SumPossible(scores);
    var weighted := w * e / p;
    ScaledShare(w, e, p);
    ProblemScore(weighted, w, weighted, w, 1.0, AnyGraded(scores) && w != 0.0, MaxFirstAttempted(scores))
  }

  /** `w * e / p` keeps the share `e / p` of `w`, within `[0, w]` for `0 <= e <= p`. */
  lemma ScaledShare(w: real, e: real, p: real)
    requires w != 0.0 && p != 0.0
    ensures (w * e / p) / w == e / p
    ensures w > 0.0 && 0.0 <= e <= p ==> 0.0 <= w * e / p <= w
  {
    var q := e / p;
    assert w * e / p == w * q;
    assert (w * q) / w == q;
    if w > 0.0 && 0.0 <= e <= p {
      assert 0.0 <= q;
      assert p > 0.0;
      assert q <= 1.0;
      assert w * q <= w * 1.0;
    }
  }

  /**
   * `get_vertical_score`: `None` for a block that is not a unit, a unit without
   * a truthy weight, or a unit none of whose children has a score; a
   * `ZeroDivisionError` when the children's possible points sum to zero; a
   * `TypeError` from `max` when some scored children were attempted and
   * others were not.
   */
  method GetVerticalScore(unit: UnitBlock) returns (r: Result<Option<ProblemScore>>)
    ensures r == Ok(None) <==> !IsVertical(unit) || !HasWeight(unit) || Collected(unit.children) == []
    ensures r.Crash? <==> IsVertical(unit) && HasWeight(unit) && Collected(unit.children) != []
                          && (SumPossible(Collected(unit.children)) == 0.0 || MixedAttempts(Collected(unit.children)))
    ensures r.Crash? ==> r.error == if SumPossible(Collected(unit.children)) == 0.0 then ZeroDivisionError else TypeError
    ensures r.Ok? && r.value.Some? ==>
              IsVertical(unit) && HasWeight(unit) && Collected(unit.children) != []
              && SumPossible(Collected(unit.children)) != 0.0 && !MixedAttempts(Collected(unit.children))
              && r.value.value == PseudoScore(unit.weight.value, Collected(unit.children))
  {
    if unit.key.category != VerticalCategory {
      return Ok(None);
    }
    var verticalWeight := unit.weight;
    if verticalWeight.None? || verticalWeight.value == 0.0 {
      return Ok(None);
    }
    var childrenScores := CollectChildScores(unit.children);
    if childrenScores == [] {
      return Ok(None);
    }
    var verticalPossible := SumPossible(childrenScores);
    var verticalEarned := SumEarned(childrenScores);
    if verticalPossible == 0.0 {
      return Crash(ZeroDivisionError);
    }
    var w := verticalWeight.value;
    var weightedEarned := w * verticalEarned / verticalPossible;
    var verticalAttempted := MaxFirstAttemptedAsWritten(childrenScores);
    if verticalAttempted.Crash? {
      return Crash(verticalAttempted.error);
    }
    var verticalGraded := AnyGraded(childrenScores) && w != 0.0;
    r := Ok(Some(ProblemScore(weightedEarned, w, weightedEarned, w, 1.0, verticalGraded, verticalAttempted.value)));
  }

  // ---------------------------------------------------------------------------
  // Subsection grades and their tree
  // ---------------------------------------------------------------------------

  /** An `AggregatedScore`: `earned` and `possible`. */
  datatype Total = Total(earned: real, possible: real)

  /** A subsection grade: its problem (here: unit) scores and two aggregates. */
  datatype SubsectionGrade = SubsectionGrade(
    problemScores: Dict<UsageKey, ProblemScore>,
    gradedTotal: Total,
    allTotal: Total)

  /** One category's `{subsection key: SubsectionGrade}`. */
  type Category = Dict<UsageKey, SubsectionGrade>

  /** `(earned, possible)` */
  type Pair = (real, real)

  /** `{unit key: (earned, possible)}` */
  type UnitGrades = Dict<UsageKey, Pair>

  /** `{subsection key: {unit key: (earned, possible)}}` */
  type Tree = Dict<UsageKey, UnitGrades>

  function UnitTree(g: SubsectionGrade): (r: UnitGrades)
    ensures r.keys == g.problemScores.keys
    ensures forall b | b in g.problemScores.items ::
              b in r.items && r.items[b] == (g.problemScores.items[b].earned, g.problemScores.items[b].possible)
  {
    OrderedDict(g.problemScores.keys,
                map b | b in g.problemScores.items :: (g.problemScores.items[b].earned, g.problemScores.items[b].possible))
  }

  /** The tree `_build_tree_from_grades` makes of a category: same keys, same order, `(earned, possible)` leaves. */
  function TreeOf(c: Category): (t: Tree)
    ensures t.keys == c.keys
    ensures forall k | k in c.items :: k in t.items && t.items[k] == UnitTree(c.items[k])
  {
    OrderedDict(c.keys, map k | k in c.items :: UnitTree(c.items[k]))
  }

  /** The inner loop of `_build_tree_from_grades`: one subsection's `{unit: (earned, possible)}`. */
  method BuildUnitGrades(grade: SubsectionGrade) returns (subtree: UnitGrades)
    ensures subtree == UnitTree(grade)
  {
    subtree := Empty();
    var j := 0;
    while j < |grade.problemScores.keys|
      invariant j <= |grade.problemScores.keys|
      invariant subtree.keys == grade.problemScores.keys[..j]
      invariant forall b | b in subtree.items ::
                  b in grade.problemScores.items &&
                  subtree.items[b] == (grade.problemScores.items[b].earned, grade.problemScores.items[b].possible)
    {
      var blockKey := grade.problemScores.keys[j];
      var problemScore := grade.problemScores.items[blockKey];
      PutNext(subtree, grade.problemScores.keys, j, (problemScore.earned, problemScore.possible));
      subtree := Put(subtree, blockKey, (problemScore.earned, problemScore.possible));
      j := j + 1;
    }
    assert grade.problemScores.keys[..j] == grade.problemScores.keys;
    assert subtree.items == UnitTree(grade).items;
  }

  /** `_build_tree_from_grades`. */
  method BuildTreeFromGrades(c: Category) returns (tree: Tree)
    ensures tree == TreeOf(c)
  {
    tree := Empty();
    var i := 0;
    while i < |c.keys|
      invariant i <= |c.keys|
      invariant tree.keys == c.keys[..i]
      invariant forall k | k in tree.items :: k in c.items && tree.items[k] == UnitTree(c.items[k])
    {
      var key := c.keys[i];
      var subtree := BuildUnitGrades(c.items[key]);
      PutNext(tree, c.keys, i, subtree);
      tree := Put(tree, key, subtree);
      i := i + 1;
    }
    assert c.keys[..i] == c.keys;
    assert tree.items == TreeOf(c).items;
  }


  // ---------------------------------------------------------------------------
  // The specification of `_find_worst_score`
  // ---------------------------------------------------------------------------

  function UnitsOf(t: Tree, i: nat): UnitGrades
    requires i < |t.keys|
  {
    t.items[t.keys[i]]
  }

  function UnitCount(t: Tree, i: nat): nat
    requires i < |t.keys|
  {
    |UnitsOf(t, i).keys|
  }

  /** Unit `j` of subsection `i` is a candidate of the scan. */
  predicate IsCandidate(t: Tree, i: nat, j: nat) {
    i < |t.keys| && j < UnitCount(t, i)
  }

  function UnitAt(t: Tree, i: nat, j: nat): Pair
    requires IsCandidate(t, i, j)
  {
    UnitsOf(t, i).items[UnitsOf(t, i).keys[j]]
  }

  /** Position `(a, b)` is visited before position `(i, j)` by the nested loops. */
  predicate Before(a: nat, b: nat, i: nat, j: nat) {
    a < i || (a == i && b < j)
  }

  /** `(sum(earned), sum(possible))` over the units `keys` of a subsection. */
  function UnitSum(keys: seq<UsageKey>, m: map<UsageKey, Pair>): Pair
    requires forall k | k in keys :: k in m
  {
    if keys == [] then (0.0, 0.0)
    else
      var rest := UnitSum(keys[1..], m);
      (m[keys[0]].0 + rest.0, m[keys[0]].1 + rest.1)
  }

  /** `subsection_scores`, in the tree's key order. */
  function SubsectionScores(t: Tree): (s: seq<Pair>)
    ensures |s| == |t.keys|
  {
    seq(|t.keys|, i requires 0 <= i < |t.keys| => UnitSum(UnitsOf(t, i).keys, UnitsOf(t, i).items))
  }

  function TotalEarned(s: seq<Pair>): real {
    if s == [] then 0.0 else TotalEarned(s[..|s| - 1]) + s[|s| - 1].0
  }

  function TotalPossible(s: seq<Pair>): real {
    if s == [] then 0.0 else TotalPossible(s[..|s| - 1]) + s[|s| - 1].1
  }

  function SumReals(s: seq<real>): real {
    if s == [] then 0.0 else SumReals(s[..|s| - 1]) + s[|s| - 1]
  }

  function Mean(s: seq<real>): real
    requires s != []
  {
    SumReals(s) / (|s| as real)
  }

  /** `x[0] / x[1]` can be evaluated for every subsection other than `i`. */
  predicate OthersNonzero(scores: seq<Pair>, i: nat) {
    forall k | 0 <= k < |scores| && k != i :: scores[k].1 != 0.0
  }

  /** `rest_percents` of `grade_without` once no division can fail. */
  function RestPercents(scores: seq<Pair>, i: nat, removed: Pair): (r: seq<real>)
    requires i < |scores| && OthersNonzero(scores, i)
    ensures scores[i].1 - removed.1 != 0.0 ==> |r| == |scores|
    ensures scores[i].1 - removed.1 == 0.0 ==> |r| == |scores| - 1
  {
    var modified := (scores[i].0 - removed.0, scores[i].1 - removed.1);
    if modified.1 != 0.0 then
      seq(|scores|, k requires 0 <= k < |scores| =>
        if k == i then modified.0 / modified.1 else scores[k].0 / scores[k].1)
    else
      seq(|scores| - 1, k requires 0 <= k < |scores| - 1 =>
        if k < i then scores[k].0 / scores[k].1 else scores[k + 1].0 / scores[k + 1].1)
  }

  /**
   * `grade_without(subsection i, unit)`: the mean of the subsections' percents
   * once the unit's points leave subsection `i`; a subsection left with no
   * possible points drops out of the mean; `1.0` when nothing is left.
   */
  function GradeWithout(scores: seq<Pair>, i: nat, removed: Pair): (r: Result<real>)
    requires i < |scores|
    ensures r.Crash? <==> exists k | 0 <= k < |scores| && k != i :: scores[k].1 == 0.0
    ensures r.Crash? ==> r.error == ZeroDivisionError
    ensures r.Ok? && |scores| == 1 && scores[i].1 - removed.1 == 0.0 ==> r.value == 1.0
  {
    if !OthersNonzero(scores, i) then Crash(ZeroDivisionError)
    else
      var rest := RestPercents(scores, i, removed);
      if rest == [] then Ok(1.0) else Ok(Mean(rest))
  }

  function CandidateGrade(t: Tree, a: nat, b: nat): Result<real>
    requires IsCandidate(t, a, b)
  {
    GradeWithout(SubsectionScores(t), a, UnitAt(t, a, b))
  }

  /** `best_score` and `best_score_drop_index` (as positions) during the scan. */
  datatype ScanState = ScanState(best: real, index: Option<(nat, nat)>)

  predicate InScan(t: Tree, i: nat, j: nat) {
    i <= |t.keys| && (i < |t.keys| ==> j <= UnitCount(t, i)) && (i == |t.keys| ==> j == 0)
  }

  /** One iteration of the scan: a candidate scoring at least the best so far replaces it. */
  function Step(st: Result<ScanState>, g: Result<real>, pos: (nat, nat)): Result<ScanState> {
    match st
    case Crash(e) => Crash(e)
    case Ok(s) =>
      match g
      case Crash(e) => Crash(e)
      case Ok(score) => if score >= s.best then Ok(ScanState(score, Some(pos))) else Ok(s)
  }

  /** The scan state just before position `(i, j)`, starting from best score `init`. */
  function ScanAt(t: Tree, init: real, i: nat, j: nat): Result<ScanState>
    requires InScan(t, i, j)
    decreases i, j
  {
    if j > 0 then Step(ScanAt(t, init, i, j - 1), CandidateGrade(t, i, j - 1), (i, j - 1))
    else if i > 0 then ScanAt(t, init, i - 1, UnitCount(t, i - 1))
    else Ok(ScanState(init, None))
  }

  ghost predicate AllOkBefore(t: Tree, i: nat, j: nat) {
    forall a: nat, b: nat | IsCandidate(t, a, b) && Before(a, b, i, j) :: CandidateGrade(t, a, b).Ok?
  }

  /** What the scan state says about the candidates visited before `(i, j)`. */
  ghost predicate ScanInvariant(t: Tree, init: real, i: nat, j: nat, st: ScanState) {
    && st.best >= init
    && (forall a: nat, b: nat | IsCandidate(t, a, b) && Before(a, b, i, j) ::
          CandidateGrade(t, a, b).Ok? && CandidateGrade(t, a, b).value <= st.best)
    && (st.index.None? ==>
          st.best == init
          && forall a: nat, b: nat | IsCandidate(t, a, b) && Before(a, b, i, j) :: CandidateGrade(t, a, b).value < init)
    && (st.index.Some? ==>
          var (a, b) := st.index.value;
          && IsCandidate(t, a, b) && Before(a, b, i, j) && CandidateGrade(t, a, b) == Ok(st.best)
          && forall c: nat, d: nat | IsCandidate(t, c, d) && Before(c, d, i, j) && Before(a, b, c, d) ::
               CandidateGrade(t, c, d).value < st.best)
  }

  /** The facts `ScanFacts` proves for every position of the scan. */
  ghost predicate ScanFactsHold(t: Tree, init: real, i: nat, j: nat)
    requires InScan(t, i, j)
  {
    && (ScanAt(t, init, i, j).Ok? <==> AllOkBefore(t, i, j))
    && (ScanAt(t, init, i, j).Crash? ==> ScanAt(t, init, i, j).error == ZeroDivisionError)
    && (ScanAt(t, init, i, j).Ok? ==> ScanInvariant(t, init, i, j, ScanAt(t, init, i, j).value))
  }

  /** A candidate scoring at least the best so far becomes the new best. */
  lemma AcceptKeepsInvariant(t: Tree, init: real, i: nat, j: nat, s: ScanState, score: real)
    requires IsCandidate(t, i, j) && ScanInvariant(t, init, i, j, s)
    requires CandidateGrade(t, i, j) == Ok(score) && score >= s.best
    ensures ScanInvariant(t, init, i, j + 1, ScanState(score, Some((i, j))))
  {
    forall a: nat, b: nat | IsCandidate(t, a, b) && Before(a, b, i, j + 1)
      ensures CandidateGrade(t, a, b).Ok? && CandidateGrade(t, a, b).value <= score
    {
      if !Before(a, b, i, j) {
        assert a == i && b == j;
      }
    }
  }

  /** A candidate scoring below the best so far leaves the state as it was. */
  lemma RejectKeepsInvariant(t: Tree, init: real, i: nat, j: nat, s: ScanState, score: real)
    requires IsCandidate(t, i, j) && ScanInvariant(t, init, i, j, s)
    requires CandidateGrade(t, i, j) == Ok(score) && score < s.best
    ensures ScanInvariant(t, init, i, j + 1, s)
  {
    forall a: nat, b: nat | IsCandidate(t, a, b) && Before(a, b, i, j + 1)
      ensures CandidateGrade(t, a, b).Ok? && CandidateGrade(t, a, b).value <= s.best
    {
      if !Before(a, b, i, j) {
        assert a == i && b == j;
      }
    }
    if s.index.None? {
      forall a: nat, b: nat | IsCandidate(t, a, b) && Before(a, b, i, j + 1)
        ensures CandidateGrade(t, a, b).value < init
      {
        if !Before(a, b, i, j) {
          assert a == i && b == j;
        }
      }
    } else {
      var (a, b) := s.index.value;
      forall c: nat, d: nat | IsCandidate(t, c, d) && Before(c, d, i, j + 1) && Before(a, b, c, d)
        ensures CandidateGrade(t, c, d).value < s.best
      {
        if !Before(c, d, i, j) {
          assert c == i && d == j;
        }
      }
    }
  }

  /** The positions before `(i, n_i)` and before `(i + 1, 0)` hold the same candidates. */
  lemma NextSubsectionSameCandidates(t: Tree, i: nat)
    requires i < |t.keys|
    ensures forall a: nat, b: nat | IsCandidate(t, a, b) :: Before(a, b, i + 1, 0) <==> Before(a, b, i, UnitCount(t, i))
  {
  }

  lemma StepFacts(t: Tree, init: real, i: nat, j: nat)
    requires IsCandidate(t, i, j)
    requires ScanFactsHold(t, init, i, j)
    ensures ScanFactsHold(t, init, i, j + 1)
  {
    var prev := ScanAt(t, init, i, j);
    var g := CandidateGrade(t, i, j);
    assert ScanAt(t, init, i, j + 1) == Step(prev, g, (i, j));
    if prev.Crash? {
      var a: nat, b: nat :| IsCandidate(t, a, b) && Before(a, b, i, j) && CandidateGrade(t, a, b).Crash?;
      assert Before(a, b, i, j + 1);
    } else if g.Crash? {
      assert Before(i, j, i, j + 1);
    } else {
      assert AllOkBefore(t, i, j + 1) by {
        forall a: nat, b: nat | IsCandidate(t, a, b) && Before(a, b, i, j + 1)
          ensures CandidateGrade(t, a, b).Ok?
        {
          if !Before(a, b, i, j) {
            assert a == i && b == j;
          }
        }
      }
      if g.value >= prev.value.best {
        AcceptKeepsInvariant(t, init, i, j, prev.value, g.value);
      } else {
        RejectKeepsInvariant(t, init, i, j, prev.value, g.value);
      }
    }
  }

  lemma NextSubsectionFacts(t: Tree, init: real, i: nat)
    requires i < |t.keys|
    requires ScanFactsHold(t, init, i, UnitCount(t, i))
    ensures ScanFactsHold(t, init, i + 1, 0)
  {
    assert ScanAt(t, init, i + 1, 0) == ScanAt(t, init, i, UnitCount(t, i));
    NextSubsectionSameCandidates(t, i);
  }

  lemma {:induction false} ScanFacts(t: Tree, init: real, i: nat, j: nat)
    requires InScan(t, i, j)
    ensures ScanFactsHold(t, init, i, j)
    decreases i, j
  {
    if j > 0 {
      ScanFacts(t, init, i, j - 1);
      StepFacts(t, init, i, j - 1);
    } else if i > 0 {
      ScanFacts(t, init, i - 1, UnitCount(t, i - 1));
      NextSubsectionFacts(t, init, i - 1);
    }
  }

  /** The tree has a subsection without units: `zip(*{}.values())` cannot be unpacked. */
  predicate HasEmptySubsection(t: Tree) {
    exists i | 0 <= i < |t.keys| :: UnitCount(t, i) == 0
  }

  predicate HasZeroSubsection(scores: seq<Pair>) {
    exists k | 0 <= k < |scores| :: scores[k].1 == 0.0
  }

  /** Exactly when `_find_worst_score` raises. */
  predicate WorstScoreRaises(t: Tree) {
    || HasEmptySubsection(t)
    || TotalPossible(SubsectionScores(t)) == 0.0
    || HasZeroSubsection(SubsectionScores(t))
  }

  /** The category's own percent, `sum(earned) / sum(possible)`, the score a drop must reach. */
  function Threshold(t: Tree): real
    requires TotalPossible(SubsectionScores(t)) != 0.0
  {
    TotalEarned(SubsectionScores(t)) / TotalPossible(SubsectionScores(t))
  }

  /** `_find_worst_score` with the result as positions in the tree's order. */
  function WorstIndex(t: Tree): Result<Option<(nat, nat)>> {
    if HasEmptySubsection(t) then Crash(ValueError)
    else if TotalPossible(SubsectionScores(t)) == 0.0 then Crash(ZeroDivisionError)
    else
      match ScanAt(t, Threshold(t), |t.keys|, 0)
      case Crash(e) => Crash(e)
      case Ok(st) => Ok(st.index)
  }

  lemma WorstIndexIsCandidate(t: Tree)
    ensures WorstIndex(t).Ok? && WorstIndex(t).value.Some? ==>
              IsCandidate(t, WorstIndex(t).value.value.0, WorstIndex(t).value.value.1)
  {
    if !HasEmptySubsection(t) && TotalPossible(SubsectionScores(t)) != 0.0 {
      ScanFacts(t, Threshold(t), |t.keys|, 0);
    }
  }

  /** `_find_worst_score(tree)`: `(subsection key, unit key)` of the unit to drop, or `None`. */
  function WorstScore(t: Tree): Result<Option<(UsageKey, UsageKey)>> {
    match WorstIndex(t)
    case Crash(e) => Crash(e)
    case Ok(None) => Ok(None)
    case Ok(Some(p)) =>
      WorstIndexIsCandidate(t);
      Ok(Some((t.keys[p.0], UnitsOf(t, p.0).keys[p.1])))
  }

  lemma TotalPossibleSingle(s: seq<Pair>)
    requires |s| == 1
    ensures TotalPossible(s) == s[0].1
  {
    assert s[..0] == [];
  }

  /**
   * `_find_worst_score` raises exactly when some subsection has no unit
   * (`ValueError`), the category has no possible points or no subsection at
   * all, or some subsection has no possible points (`ZeroDivisionError`).
   */
  lemma WorstScoreRaisesExactly(t: Tree)
    ensures WorstScore(t).Crash? <==> WorstScoreRaises(t)
    ensures WorstScore(t).Crash? && HasEmptySubsection(t) ==> WorstScore(t).error == ValueError
    ensures WorstScore(t).Crash? && !HasEmptySubsection(t) ==> WorstScore(t).error == ZeroDivisionError
  {
    var scores := SubsectionScores(t);
    if !HasEmptySubsection(t) && TotalPossible(scores) != 0.0 {
      var n := |t.keys|;
      ScanFacts(t, Threshold(t), n, 0);
      if HasZeroSubsection(scores) {
        var k :| 0 <= k < n && scores[k].1 == 0.0;
        if n == 1 {
          TotalPossibleSingle(scores);
        }
        var i: nat := if k == 0 then 1 else 0;
        assert UnitCount(t, i) != 0;
        assert IsCandidate(t, i, 0) && Before(i, 0, n, 0);
        assert CandidateGrade(t, i, 0).Crash?;
      } else {
        forall a: nat, b: nat | IsCandidate(t, a, b) && Before(a, b, n, 0)
          ensures CandidateGrade(t, a, b).Ok?
        {
        }
      }
    }
  }

  /** With no exception, nothing is dropped exactly when every candidate scores below the category's percent. */
  lemma WorstScoreNone(t: Tree)
    requires !WorstScoreRaises(t)
    ensures forall a: nat, b: nat | IsCandidate(t, a, b) :: CandidateGrade(t, a, b).Ok?
    ensures WorstScore(t) == Ok(None) <==>
              forall a: nat, b: nat | IsCandidate(t, a, b) :: CandidateGrade(t, a, b).value < Threshold(t)
  {
    var n := |t.keys|;
    var init := Threshold(t);
    ScanFacts(t, init, n, 0);
    CandidatesBeforeEnd(t);
    WorstScoreOfScan(t);
    var st := ScanAt(t, init, n, 0);
    assert st.Ok?;
    if st.value.index.Some? {
      var (a, b) := st.value.index.value;
      assert WorstScore(t) == Ok(KeysAt(t, st.value.index)) != Ok(None);
      assert IsCandidate(t, a, b) && CandidateGrade(t, a, b).value >= init;
    } else {
      assert WorstScore(t) == Ok(KeysAt(t, st.value.index)) == Ok(None);
    }
  }

  /** Every candidate comes before the end of the scan. */
  lemma CandidatesBeforeEnd(t: Tree)
    ensures forall a: nat, b: nat | IsCandidate(t, a, b) :: Before(a, b, |t.keys|, 0)
  {
  }

  /**
   * The unit dropped is a best candidate: it scores at least the category's
   * percent and at least every other candidate, and every candidate after it
   * in the scan scores strictly less (the last of equal best candidates wins).
   */
  lemma WorstScoreIsLastMaximum(t: Tree)
    requires WorstIndex(t).Ok? && WorstIndex(t).value.Some?
    ensures var (a, b) := WorstIndex(t).value.value;
      && IsCandidate(t, a, b)
      && CandidateGrade(t, a, b).Ok?
      && CandidateGrade(t, a, b).value >= Threshold(t)
      && (forall c: nat, d: nat | IsCandidate(t, c, d) ::
            CandidateGrade(t, c, d).Ok? && CandidateGrade(t, c, d).value <= CandidateGrade(t, a, b).value)
      && (forall c: nat, d: nat | IsCandidate(t, c, d) && Before(a, b, c, d) ::
            CandidateGrade(t, c, d).value < CandidateGrade(t, a, b).value)
  {
    var n := |t.keys|;
    ScanFacts(t, Threshold(t), n, 0);
    assert forall a: nat, b: nat | IsCandidate(t, a, b) :: Before(a, b, n, 0);
  }

  /** The keys at a scan position: `(subsection_key, unit_key)`. */
  function KeysAt(t: Tree, pos: Option<(nat, nat)>): Option<(UsageKey, UsageKey)>
    requires pos.Some? ==> IsCandidate(t, pos.value.0, pos.value.1)
  {
    if pos.None? then None else Some((t.keys[pos.value.0], UnitsOf(t, pos.value.0).keys[pos.value.1]))
  }

  /** How `WorstScore` reads the final scan state. */
  lemma WorstScoreOfScan(t: Tree)
    requires !HasEmptySubsection(t) && TotalPossible(SubsectionScores(t)) != 0.0
    ensures var st := ScanAt(t, Threshold(t), |t.keys|, 0);
      && (st.Crash? ==> WorstScore(t) == Crash(ZeroDivisionError))
      && (st.Ok? && st.value.index.Some? ==> IsCandidate(t, st.value.index.value.0, st.value.index.value.1))
      && (st.Ok? ==> WorstScore(t) == Ok(KeysAt(t, st.value.index)))
  {
    ScanFacts(t, Threshold(t), |t.keys|, 0);
  }

  /** A candidate whose `grade_without` raises makes the whole scan raise. */
  lemma CandidateCrashStopsScan(t: Tree, init: real, i: nat, j: nat)
    requires IsCandidate(t, i, j) && CandidateGrade(t, i, j).Crash?
    ensures ScanAt(t, init, |t.keys|, 0).Crash?
  {
    ScanFacts(t, init, |t.keys|, 0);
    assert Before(i, j, |t.keys|, 0);
  }

  /** The first loop of `_find_worst_score`: `subsection_scores`, or the `ValueError` of an empty subsection. */
  method ComputeSubsectionScores(tree: Tree) returns (r: Result<seq<Pair>>)
    ensures r.Crash? <==> HasEmptySubsection(tree)
    ensures r.Crash? ==> r.error == ValueError
    ensures r.Ok? ==> r.value == SubsectionScores(tree)
  {
    ghost var all := SubsectionScores(tree);
    var subsectionScores: seq<Pair> := [];
    var i := 0;
    while i < |tree.keys|
      invariant i <= |tree.keys|
      invariant subsectionScores == all[..i]
      invariant forall k | 0 <= k < i :: UnitCount(tree, k) != 0
    {
      var units := tree.items[tree.keys[i]];
      if units.keys == [] {
        assert UnitCount(tree, i) == 0;
        return Crash(ValueError);
      }
      subsectionScores := subsectionScores + [UnitSum(units.keys, units.items)];
      i := i + 1;
    }
    assert subsectionScores == all;
    r := Ok(subsectionScores);
  }

  /**
   * The inner loop of `_find_worst_score` over the units of subsection `i`:
   * the best score and its keys after the subsection, or the exception of a
   * `grade_without`.
   */
  method ScanUnits(tree: Tree, subsectionScores: seq<Pair>, i: nat, ghost init: real, bestScore0: real,
                   bestScoreDropIndex0: Option<(UsageKey, UsageKey)>, ghost bestPos0: Option<(nat, nat)>)
    returns (r: Result<(real, Option<(UsageKey, UsageKey)>)>, ghost bestPos: Option<(nat, nat)>)
    requires i < |tree.keys| && subsectionScores == SubsectionScores(tree)
    requires ScanAt(tree, init, i, 0) == Ok(ScanState(bestScore0, bestPos0))
    requires bestPos0.Some? ==> IsCandidate(tree, bestPos0.value.0, bestPos0.value.1)
    requires bestScoreDropIndex0 == KeysAt(tree, bestPos0)
    ensures r.Crash? ==> r.error == ZeroDivisionError && ScanAt(tree, init, |tree.keys|, 0).Crash?
    ensures r.Ok? ==> && ScanAt(tree, init, i + 1, 0) == Ok(ScanState(r.value.0, bestPos))
                      && (bestPos.Some? ==> IsCandidate(tree, bestPos.value.0, bestPos.value.1))
                      && r.value.1 == KeysAt(tree, bestPos)
  {
    var subsectionKey := tree.keys[i];
    var units := tree.items[subsectionKey];
    var bestScore, bestScoreDropIndex := bestScore0, bestScoreDropIndex0;
    bestPos := bestPos0;
    var j := 0;
    while j < |units.keys|
      invariant j <= |units.keys|
      invariant ScanAt(tree, init, i, j) == Ok(ScanState(bestScore, bestPos))
      invariant bestPos.Some? ==> IsCandidate(tree, bestPos.value.0, bestPos.value.1)
      invariant bestScoreDropIndex == KeysAt(tree, bestPos)
    {
      var unitKey := units.keys[j];
      var score := GradeWithout(subsectionScores, i, units.items[unitKey]);
      assert score == CandidateGrade(tree, i, j);
      if score.Crash? {
        CandidateCrashStopsScan(tree, init, i, j);
        return Crash(score.error), bestPos;
      }
      ghost var next := Step(Ok(ScanState(bestScore, bestPos)), score, (i, j));
      assert ScanAt(tree, init, i, j + 1) == next;
      if score.value >= bestScore {
        bestScore := score.value;
        bestPos := Some((i, j));
        bestScoreDropIndex := Some((subsectionKey, unitKey));
      }
      assert next == Ok(ScanState(bestScore, bestPos));
      j := j + 1;
    }
    r := Ok((bestScore, bestScoreDropIndex));
  }

  /** `_find_worst_score`. */
  method FindWorstScore(tree: Tree) returns (r: Result<Option<(UsageKey, UsageKey)>>)
    ensures r == WorstScore(tree)
  {
    var scored := ComputeSubsectionScores(tree);
    if scored.Crash? {
      return Crash(scored.error);
    }
    var subsectionScores := scored.value;
    var totalPossible := TotalPossible(subsectionScores);
    if totalPossible == 0.0 {
      return Crash(ZeroDivisionError);
    }
    var bestScore := TotalEarned(subsectionScores) / totalPossible;
    ghost var init := bestScore;
    WorstScoreOfScan(tree);
    ghost var bestPos: Option<(nat, nat)> := None;
    var bestScoreDropIndex: Option<(UsageKey, UsageKey)> := None;
    var i := 0;
    while i < |tree.keys|
      invariant i <= |tree.keys|
      invariant ScanAt(tree, init, i, 0) == Ok(ScanState(bestScore, bestPos))
      invariant bestPos.Some? ==> IsCandidate(tree, bestPos.value.0, bestPos.value.1)
      invariant bestScoreDropIndex == KeysAt(tree, bestPos)
    {
      var scanned;
      scanned, bestPos := ScanUnits(tree, subsectionScores, i, init, bestScore, bestScoreDropIndex, bestPos);
      if scanned.Crash? {
        return Crash(scanned.error);
      }
      bestScore, bestScoreDropIndex := scanned.value.0, scanned.value.1;
      i := i + 1;
    }
    r := Ok(bestScoreDropIndex);
  }

  // ---------------------------------------------------------------------------
  // Dropping the unit
  // ---------------------------------------------------------------------------

  /** `(sum(earned), sum(possible))` over the problem scores `keys` of a subsection grade. */
  function ScoreSum(keys: seq<UsageKey>, m: map<UsageKey, ProblemScore>): Total
    requires forall k | k in keys :: k in m
  {
    if keys == [] then Total(0.0, 0.0)
    else
      var rest := ScoreSum(keys[1..], m);
      Total(m[keys[0]].earned + rest.earned, m[keys[0]].possible + rest.possible)
  }

  /** A subsection grade whose aggregates are the sums of its scores, all of them graded. */
  ghost predicate Consistent(g: SubsectionGrade) {
    && g.allTotal == ScoreSum(g.problemScores.keys, g.problemScores.items)
    && g.gradedTotal == g.allTotal
  }

  lemma {:induction false} ScoreSumOmits(keys: seq<UsageKey>, m: map<UsageKey, ProblemScore>, k: UsageKey)
    requires forall x | x in keys :: x in m
    requires k !in keys
    ensures ScoreSum(keys, m - {k}) == ScoreSum(keys, m)
  {
    if keys != [] {
      ScoreSumOmits(keys[1..], m, k);
    }
  }

  /** Taking one score out of a subsection takes exactly its points out of the sums. */
  lemma {:induction false} ScoreSumWithout(keys: seq<UsageKey>, m: map<UsageKey, ProblemScore>, k: UsageKey)
    requires forall x | x in keys :: x in m
    requires Distinct(keys) && k in keys
    ensures ScoreSum(Without(keys, k), m - {k}) ==
              Total(ScoreSum(keys, m).earned - m[k].earned, ScoreSum(keys, m).possible - m[k].possible)
  {
    assert Distinct(keys[1..]);
    if keys[0] == k {
      assert k !in keys[1..];
      ScoreSumOmits(keys[1..], m, k);
    } else {
      ScoreSumWithout(keys[1..], m, k);
      assert Without(keys, k) == [keys[0]] + Without(keys[1..], k);
      assert Without(keys, k)[1..] == Without(keys[1..], k);
    }
  }

  /** The subsection grade after `problem_scores.pop(unit)` and the four decrements. */
  function DropUnit(g: SubsectionGrade, bk: UsageKey): (r: SubsectionGrade)
    requires bk in g.problemScores.items
    ensures r.problemScores.items == g.problemScores.items - {bk}
    ensures r.problemScores.keys == Without(g.problemScores.keys, bk)
    ensures Consistent(g) ==> Consistent(r)
    ensures Consistent(g) ==> r.gradedTotal.possible == g.gradedTotal.possible - g.problemScores.items[bk].possible
  {
    var s := g.problemScores.items[bk];
    var r := SubsectionGrade(
      Remove(g.problemScores, bk),
      Total(g.gradedTotal.earned - s.earned, g.gradedTotal.possible - s.possible),
      Total(g.allTotal.earned - s.earned, g.allTotal.possible - s.possible));
    ScoreSumWithout(g.problemScores.keys, g.problemScores.items, bk);
    r
  }

  /** The subsection's score sums lose exactly the dropped unit's points. */
  lemma DropUnitSums(g: SubsectionGrade, bk: UsageKey)
    requires bk in g.problemScores.items
    ensures var r := DropUnit(g, bk).problemScores;
      ScoreSum(r.keys, r.items) ==
        Total(ScoreSum(g.problemScores.keys, g.problemScores.items).earned - g.problemScores.items[bk].earned,
              ScoreSum(g.problemScores.keys, g.problemScores.items).possible - g.problemScores.items[bk].possible)
  {
    ScoreSumWithout(g.problemScores.keys, g.problemScores.items, bk);
  }

  /** The same, as the (earned, possible) pair the subsection scores use. */
  lemma DropUnitPair(g: SubsectionGrade, bk: UsageKey, before: Pair)
    requires bk in g.problemScores.items
    requires before == (ScoreSum(g.problemScores.keys, g.problemScores.items).earned,
                        ScoreSum(g.problemScores.keys, g.problemScores.items).possible)
    ensures var s := g.problemScores.items[bk];
      var r := DropUnit(g, bk).problemScores;
      (ScoreSum(r.keys, r.items).earned, ScoreSum(r.keys, r.items).possible) == (before.0 - s.earned, before.1 - s.possible)
  {
    DropUnitSums(g, bk);
  }

  /**
   * The category after dropping unit `bk` of subsection `sk`: the subsection
   * loses the unit, and the subsection itself goes when its graded possible
   * points reach zero. Every other subsection is left as it was.
   */
  function DropAt(c: Category, sk: UsageKey, bk: UsageKey): (r: Category)
    requires sk in c.items && bk in c.items[sk].problemScores.items
    ensures DropUnit(c.items[sk], bk).gradedTotal.possible == 0.0 ==>
              r.keys == Without(c.keys, sk) && r.items == c.items - {sk}
    ensures DropUnit(c.items[sk], bk).gradedTotal.possible != 0.0 ==>
              r.keys == c.keys && r.items == c.items[sk := DropUnit(c.items[sk], bk)]
    ensures forall k | k in r.items && k != sk :: k in c.items && r.items[k] == c.items[k]
    ensures (forall k | k in c.items :: Consistent(c.items[k])) ==> forall k | k in r.items :: Consistent(r.items[k])
  {
    var modified := DropUnit(c.items[sk], bk);
    if modified.gradedTotal.possible == 0.0 then Remove(c, sk) else Put(c, sk, modified)
  }

  /** The keys `_find_worst_score` returns name a subsection of the category and a unit in it. */
  lemma WorstScoreInCategory(c: Category)
    ensures WorstScore(TreeOf(c)).Ok? && WorstScore(TreeOf(c)).value.Some? ==>
              var (sk, bk) := WorstScore(TreeOf(c)).value.value;
              sk in c.items && bk in c.items[sk].problemScores.items
  {
    var t := TreeOf(c);
    WorstIndexIsCandidate(t);
    if WorstIndex(t).Ok? && WorstIndex(t).value.Some? {
      var (a, b) := WorstIndex(t).value.value;
      assert t.keys[a] == c.keys[a];
      assert UnitsOf(t, a) == UnitTree(c.items[c.keys[a]]);
    }
  }

  /** `drop_minimal_vertical_from_subsection_grades` on a category. */
  function DropOutcome(c: Category): (r: Result<Category>)
    ensures r.Crash? <==> WorstScoreRaises(TreeOf(c))
    ensures WorstScore(TreeOf(c)) == Ok(None) ==> r == Ok(c)
  {
    var found := WorstScore(TreeOf(c));
    WorstScoreRaisesExactly(TreeOf(c));
    WorstScoreInCategory(c);
    match found
    case Crash(e) => Crash(e)
    case Ok(None) => Ok(c)
    case Ok(Some(keys)) => Ok(DropAt(c, keys.0, keys.1))
  }

  lemma DropOutcomeAt(c: Category, sk: UsageKey, bk: UsageKey)
    requires WorstScore(TreeOf(c)) == Ok(Some((sk, bk)))
    ensures sk in c.items && bk in c.items[sk].problemScores.items
    ensures DropOutcome(c) == Ok(DropAt(c, sk, bk))
  {
    WorstScoreInCategory(c);
  }

  /** Every subsection of the category has aggregates equal to the sums of its scores. */
  ghost predicate AllConsistent(c: Category) {
    forall k | k in c.items :: Consistent(c.items[k])
  }

  /** A drop keeps every subsection's aggregates equal to the sums of its scores. */
  lemma DropKeepsConsistent(c: Category)
    requires AllConsistent(c)
    ensures DropOutcome(c).Ok? ==> AllConsistent(DropOutcome(c).value)
  {
    var found := WorstScore(TreeOf(c));
    if found.Ok? && found.value.Some? {
      var (sk, bk) := found.value.value;
      DropOutcomeAt(c, sk, bk);
      DropAtConsistent(c, sk, bk);
    } else {
      DropOutcomeNoDrop(c);
    }
  }

  lemma DropAtConsistent(c: Category, sk: UsageKey, bk: UsageKey)
    requires sk in c.items && bk in c.items[sk].problemScores.items && AllConsistent(c)
    ensures AllConsistent(DropAt(c, sk, bk))
  {
  }

  /** Without a unit to drop, the category is returned unchanged or the exception propagates. */
  lemma DropOutcomeNoDrop(c: Category)
    requires !(WorstScore(TreeOf(c)).Ok? && WorstScore(TreeOf(c)).value.Some?)
    ensures DropOutcome(c).Ok? ==> DropOutcome(c).value == c
  {
  }

  /** `drop_minimal_vertical_from_subsection_grades`. */
  method DropMinimalVerticalFromSubsectionGrades(subsectionGrades: Category) returns (r: Result<Category>)
    ensures r == DropOutcome(subsectionGrades)
  {
    var tree := BuildTreeFromGrades(subsectionGrades);
    var bestScoreDropIndex := FindWorstScore(tree);
    if bestScoreDropIndex.Crash? {
      return Crash(bestScoreDropIndex.error);
    }
    if bestScoreDropIndex.value.None? {
      return Ok(subsectionGrades);
    }
    var (subsectionKey, unitKey) := bestScoreDropIndex.value.value;
    DropOutcomeAt(subsectionGrades, subsectionKey, unitKey);
    var modifiedGrade := subsectionGrades.items[subsectionKey];
    modifiedGrade := DropUnit(modifiedGrade, unitKey);
    if modifiedGrade.gradedTotal.possible == 0.0 {
      r := Ok(Remove(subsectionGrades, subsectionKey));
    } else {
      r := Ok(Put(subsectionGrades, subsectionKey, modifiedGrade));
    }
  }

  // ---------------------------------------------------------------------------
  // What `grade_without` predicts
  // ---------------------------------------------------------------------------

  /** The subsection percents `earned / possible`. */
  function Percents(s: seq<Pair>): (r: seq<real>)
    requires forall k | 0 <= k < |s| :: s[k].1 != 0.0
    ensures |r| == |s|
  {
    seq(|s|, k requires 0 <= k < |s| => s[k].0 / s[k].1)
  }

  /** The mean subsection percent of a category, `1.0` when no subsection is left. */
  function MeanPercent(s: seq<Pair>): real
    requires forall k | 0 <= k < |s| :: s[k].1 != 0.0
  {
    if s == [] then 1.0 else Mean(Percents(s))
  }

  lemma {:induction false} UnitSumOfScores(keys: seq<UsageKey>, ms: map<UsageKey, ProblemScore>, mt: map<UsageKey, Pair>)
    requires forall k | k in keys :: k in ms && k in mt && mt[k] == (ms[k].earned, ms[k].possible)
    ensures UnitSum(keys, mt) == (ScoreSum(keys, ms).earned, ScoreSum(keys, ms).possible)
  {
    if keys != [] {
      UnitSumOfScores(keys[1..], ms, mt);
    }
  }

  /** Each subsection of the tree sums the problem scores of its subsection grade. */
  lemma TreeScores(c: Category, k: nat)
    requires k < |c.keys|
    ensures var g := c.items[c.keys[k]];
      SubsectionScores(TreeOf(c))[k] == (ScoreSum(g.problemScores.keys, g.problemScores.items).earned,
                                         ScoreSum(g.problemScores.keys, g.problemScores.items).possible)
  {
    var g := c.items[c.keys[k]];
    assert UnitsOf(TreeOf(c), k) == UnitTree(g);
    UnitSumOfScores(g.problemScores.keys, g.problemScores.items, UnitTree(g).items);
  }

  /** Taking out the key at position `i`, which occurs nowhere else, closes the gap. */
  lemma {:induction false} WithoutAt<K>(s: seq<K>, i: nat)
    requires i < |s| && forall k | 0 <= k < |s| && k != i :: s[k] != s[i]
    ensures Without(s, s[i]) == s[..i] + s[i + 1..]
  {
    var t := s[1..];
    if i == 0 {
      forall k | 0 <= k < |t|
        ensures t[k] != s[0]
      {
        assert t[k] == s[k + 1];
      }
      assert s[0] !in t;
    } else {
      assert t[i - 1] == s[i] != s[0];
      forall k | 0 <= k < |t| && k != i - 1
        ensures t[k] != t[i - 1]
      {
        assert t[k] == s[k + 1];
      }
      calc {
        Without(s, s[i]);
        [s[0]] + Without(t, s[i]);
        { WithoutAt(t, i - 1); }
        [s[0]] + (t[..i - 1] + t[i..]);
        { assert t[..i - 1] == s[1..i] && t[i..] == s[i + 1..]; }
        [s[0]] + (s[1..i] + s[i + 1..]);
        { assert s[..i] == [s[0]] + s[1..i]; }
        s[..i] + s[i + 1..];
      }
    }
  }

  lemma ClosedGapAt<K>(s: seq<K>, a: nat, k: nat)
    requires a < |s| && k < |s| - 1
    ensures (s[..a] + s[a + 1..])[k] == if k < a then s[k] else s[k + 1]
  {
  }

  /** When subsection `a` keeps points, its percent is replaced in the mean. */
  lemma RestPercentsKept(S: seq<Pair>, S2: seq<Pair>, a: nat, removed: Pair)
    requires a < |S| && OthersNonzero(S, a) && S[a].1 - removed.1 != 0.0
    requires |S2| == |S| && S2[a].0 == S[a].0 - removed.0 && S2[a].1 == S[a].1 - removed.1
    requires forall k | 0 <= k < |S2| && k != a :: S2[k] == S[k]
    ensures forall k | 0 <= k < |S2| :: S2[k].1 != 0.0
    ensures Percents(S2) == RestPercents(S, a, removed)
  {
  }

  /** When subsection `a` has no points left, it leaves the mean. */
  lemma RestPercentsRemoved(S: seq<Pair>, S2: seq<Pair>, a: nat, removed: Pair)
    requires a < |S| && OthersNonzero(S, a) && S[a].1 - removed.1 == 0.0
    requires |S2| == |S| - 1
    requires forall k | 0 <= k < a && k < |S2| :: S2[k] == S[k]
    requires forall k | a <= k < |S2| :: S2[k] == S[k + 1]
    ensures forall k | 0 <= k < |S2| :: S2[k].1 != 0.0
    ensures Percents(S2) == RestPercents(S, a, removed)
  {
    forall k | 0 <= k < |S2| ensures S2[k].1 != 0.0 {
      if k >= a {
        assert S2[k] == S[k + 1];
      } else {
        assert S2[k] == S[k];
      }
    }
  }

  /** Replacing the grade of subsection `a` changes only its entry of the subsection scores. */
  lemma KeptScores(c: Category, after: Category, a: nat, g2: SubsectionGrade)
    requires a < |c.keys|
    requires after.keys == c.keys && after.items == c.items[c.keys[a] := g2]
    ensures var S := SubsectionScores(TreeOf(c));
      var S2 := SubsectionScores(TreeOf(after));
      && |S2| == |S|
      && S2[a] == (ScoreSum(g2.problemScores.keys, g2.problemScores.items).earned,
                   ScoreSum(g2.problemScores.keys, g2.problemScores.items).possible)
      && forall k | 0 <= k < |S2| && k != a :: S2[k] == S[k]
  {
    var S := SubsectionScores(TreeOf(c));
    var S2 := SubsectionScores(TreeOf(after));
    TreeScores(after, a);
    forall k | 0 <= k < |S2| && k != a ensures S2[k] == S[k] {
      assert after.keys[k] != c.keys[a];
      TreeScores(c, k);
      TreeScores(after, k);
    }
  }

  /** Entry `k` of the subsection scores after subsection `a` is removed. */
  lemma RemovedScoreAt(c: Category, after: Category, a: nat, k: nat)
    requires a < |c.keys| && k < |c.keys| - 1
    requires after.keys == c.keys[..a] + c.keys[a + 1..] && after.items == c.items - {c.keys[a]}
    ensures SubsectionScores(TreeOf(after))[k] == SubsectionScores(TreeOf(c))[if k < a then k else k + 1]
  {
    var m := if k < a then k else k + 1;
    ClosedGapAt(c.keys, a, k);
    assert after.keys[k] == c.keys[m];
    assert after.items[after.keys[k]] == c.items[c.keys[m]];
    TreeScores(after, k);
    TreeScores(c, m);
  }

  /** Removing subsection `a` closes the gap in the subsection scores. */
  lemma RemovedScores(c: Category, after: Category, a: nat)
    requires a < |c.keys|
    requires after.keys == c.keys[..a] + c.keys[a + 1..] && after.items == c.items - {c.keys[a]}
    ensures var S := SubsectionScores(TreeOf(c));
      var S2 := SubsectionScores(TreeOf(after));
      && |S2| == |S| - 1
      && (forall k | 0 <= k < a && k < |S2| :: S2[k] == S[k])
      && (forall k | a <= k < |S2| :: S2[k] == S[k + 1])
  {
    var S2 := SubsectionScores(TreeOf(after));
    forall k | 0 <= k < |S2| ensures S2[k] == SubsectionScores(TreeOf(c))[if k < a then k else k + 1] {
      RemovedScoreAt(c, after, a, k);
    }
  }

  /** The mean before and after a drop that leaves subsection `a` in place with grade `g2`. */
  lemma KeptMean(c: Category, after: Category, a: nat, g2: SubsectionGrade, removed: Pair, S: seq<Pair>)
    requires S == SubsectionScores(TreeOf(c)) && a < |S|
    requires OthersNonzero(S, a) && S[a].1 - removed.1 != 0.0
    requires after.keys == c.keys && after.items == c.items[c.keys[a] := g2]
    requires ScoreSum(g2.problemScores.keys, g2.problemScores.items).earned == S[a].0 - removed.0
    requires ScoreSum(g2.problemScores.keys, g2.problemScores.items).possible == S[a].1 - removed.1
    ensures var S2 := SubsectionScores(TreeOf(after));
      && (forall k | 0 <= k < |S2| :: S2[k].1 != 0.0)
      && Percents(S2) == RestPercents(S, a, removed)
  {
    var S2 := SubsectionScores(TreeOf(after));
    KeptScores(c, after, a, g2);
    RestPercentsKept(S, S2, a, removed);
  }

  /** The mean before and after a drop that removes subsection `a`. */
  lemma RemovedMean(c: Category, after: Category, a: nat, removed: Pair)
    requires a < |c.keys|
    requires var S := SubsectionScores(TreeOf(c));
      OthersNonzero(S, a) && S[a].1 - removed.1 == 0.0
    requires after.keys == c.keys[..a] + c.keys[a + 1..] && after.items == c.items - {c.keys[a]}
    ensures var S := SubsectionScores(TreeOf(c));
      var S2 := SubsectionScores(TreeOf(after));
      && (forall k | 0 <= k < |S2| :: S2[k].1 != 0.0)
      && Percents(S2) == RestPercents(S, a, removed)
  {
    RemovedScores(c, after, a);
    RestPercentsRemoved(SubsectionScores(TreeOf(c)), SubsectionScores(TreeOf(after)), a, removed);
  }

  /**
   * `grade_without` for a candidate is the category's mean subsection percent
   * after the drop of that unit, when every subsection's aggregates are the
   * sums of its (graded) scores: the scan picks the drop that leaves the best
   * category grade.
   */
  lemma GradeWithoutPredictsDrop(c: Category, a: nat, b: nat)
    requires forall k | k in c.items :: Consistent(c.items[k])
    requires a < |c.keys| && b < |c.items[c.keys[a]].problemScores.keys|
    requires IsCandidate(TreeOf(c), a, b) && CandidateGrade(TreeOf(c), a, b).Ok?
    ensures var after := SubsectionScores(TreeOf(DropAt(c, c.keys[a], c.items[c.keys[a]].problemScores.keys[b])));
      && (forall k | 0 <= k < |after| :: after[k].1 != 0.0)
      && CandidateGrade(TreeOf(c), a, b).value == MeanPercent(after)
  {
    var t := TreeOf(c);
    var S := SubsectionScores(t);
    var sk := c.keys[a];
    var g := c.items[sk];
    var bk := g.problemScores.keys[b];
    var score := g.problemScores.items[bk];
    assert UnitsOf(t, a) == UnitTree(g);
    assert UnitAt(t, a, b) == (score.earned, score.possible);
    TreeScores(c, a);
    assert DropUnit(g, bk).gradedTotal.possible == S[a].1 - score.possible;
    assert OthersNonzero(S, a);
    if DropUnit(g, bk).gradedTotal.possible != 0.0 {
      var g2 := DropUnit(g, bk);
      DropUnitPair(g, bk, S[a]);
      KeptMean(c, DropAt(c, sk, bk), a, g2, (score.earned, score.possible), S);
    } else {
      WithoutAt(c.keys, a);
      RemovedMean(c, DropAt(c, sk, bk), a, (score.earned, score.possible));
    }
  }
}

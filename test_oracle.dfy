/**
 * npoed_grading_features/tests/test_utils.py, `_grade_tree`: the reference
 * computation the tests compare the course grade against. A tree is a dict
 * of sections, each a dict of `(assignment category, subsection tree)`, each
 * subsection a dict of `(unit weight, unit tree)`, each unit a dict of
 * `(earned, max)` problem pairs. Dict order is taken as given, as sequences.
 */
module TestOracle {
  import opened Wrappers
  import opened OrderedDicts
  import opened Repeat

  /** A problem's `(earned, max)`; either may be `None`. */
  datatype ProblemPair = ProblemPair(earned: Option<real>, max: Option<real>)

  /** A unit's `(weight, unit tree)`. */
  datatype UnitNode = UnitNode(weight: real, problems: seq<ProblemPair>)

  /** A subsection's `(assignment category, subsection tree)`. */
  datatype SubsectionNode = SubsectionNode(category: Option<string>, units: seq<UnitNode>)

  /** `TestGrade(earn, max, weight)`. */
  datatype TestGrade = TestGrade(earn: real, max: real, weight: real)

  // ---------------------------------------------------------------------------
  // `get_unit_problem_pairs`
  // ---------------------------------------------------------------------------

  /** A pair neither of whose halves is `None`. */
  predicate Complete(p: ProblemPair) {
    p.earned.Some? && p.max.Some?
  }

  /** The pairs `get_unit_problem_pairs` keeps, in order. */
  function Kept(ps: seq<ProblemPair>): (r: seq<ProblemPair>)
    ensures |r| <= |ps|
    ensures forall i | 0 <= i < |r| :: Complete(r[i])
    ensures forall p | p in r :: p in ps
    ensures forall p | p in ps && Complete(p) :: p in r
  {
    if ps == [] then []
    else
      var last := ps[|ps| - 1];
      assert ps == ps[..|ps| - 1] + [last];
      Kept(ps[..|ps| - 1]) + (if Complete(last) then [last] else [])
  }

  function Earned(ps: seq<ProblemPair>): seq<real> {
    var k := Kept(ps);
    seq(|k|, i requires 0 <= i < |k| => k[i].earned.value)
  }

  function Maxes(ps: seq<ProblemPair>): seq<real> {
    var k := Kept(ps);
    seq(|k|, i requires 0 <= i < |k| => k[i].max.value)
  }

  /** `get_unit_problem_pairs(unit_tree)`: the earned and max values of the complete pairs, side by side. */
  method GetUnitProblemPairs(unitTree: seq<ProblemPair>) returns (allEarned: seq<real>, allMax: seq<real>)
    ensures |allEarned| == |allMax| == |Kept(unitTree)|
    ensures forall i | 0 <= i < |allEarned| ::
              Some(allEarned[i]) == Kept(unitTree)[i].earned && Some(allMax[i]) == Kept(unitTree)[i].max
  {
    allEarned, allMax := [], [];
    var n := 0;
    while n < |unitTree|
      invariant n <= |unitTree|
      invariant |allEarned| == |allMax| == |Kept(unitTree[..n])|
      invariant forall i | 0 <= i < |allEarned| ::
                  Some(allEarned[i]) == Kept(unitTree[..n])[i].earned && Some(allMax[i]) == Kept(unitTree[..n])[i].max
    {
      var pair := unitTree[n];
      assert unitTree[..n + 1][..n] == unitTree[..n];
      if !(pair.earned.None? || pair.max.None?) {
        allEarned := allEarned + [pair.earned.value];
        allMax := allMax + [pair.max.value];
      }
      n := n + 1;
    }
    assert unitTree[..n] == unitTree;
  }

  // ---------------------------------------------------------------------------
  // `grade_subsection`
  // ---------------------------------------------------------------------------

  function Sum(xs: seq<real>): real {
    if xs == [] then 0.0 else Sum(xs[..|xs| - 1]) + xs[|xs| - 1]
  }

  lemma {:induction false} SumConcat(a: seq<real>, b: seq<real>)
    ensures Sum(a + b) == Sum(a) + Sum(b)
    decreases |b|
  {
    if b == [] {
      assert a + b == a;
    } else {
      assert (a + b)[..|a + b| - 1] == a + b[..|b| - 1];
      SumConcat(a, b[..|b| - 1]);
    }
  }

  /** The grade one unit contributes, if any: with `weight` forced to 1 in classic mode. */
  function UnitGrade(u: UnitNode, vertical: bool): Option<TestGrade> {
    var weight := if vertical then u.weight else 1.0;
    if weight != 0.0 && Kept(u.problems) != [] then
      Some(TestGrade(Sum(Earned(u.problems)), Sum(Maxes(u.problems)), weight))
    else
      None
  }

  /**
   * A unit contributes a grade exactly when it has a complete problem pair
   * and, in vertical mode, a nonzero weight; the grade sums its complete pairs.
   */
  lemma UnitGradeSpec(u: UnitNode, vertical: bool)
    ensures UnitGrade(u, vertical).Some? <==> (!vertical || u.weight != 0.0) && exists p | p in u.problems :: Complete(p)
    ensures UnitGrade(u, vertical).Some? ==>
              UnitGrade(u, vertical).value == TestGrade(Sum(Earned(u.problems)), Sum(Maxes(u.problems)),
                                                        if vertical then u.weight else 1.0)
  {
    if Kept(u.problems) != [] {
      assert Kept(u.problems)[0] in Kept(u.problems);
    }
  }

  /** The list `grades.append` adds to: the grade, if there is one. */
  function Listed(g: Option<TestGrade>): seq<TestGrade> {
    if g.Some? then [g.value] else []
  }

  /** The unit grades `grade_subsection` collects, in unit order. */
  function UnitGrades(units: seq<UnitNode>, vertical: bool): seq<TestGrade> {
    if units == [] then []
    else UnitGrades(units[..|units| - 1], vertical) + Listed(UnitGrade(units[|units| - 1], vertical))
  }

  /** `grade_subsection(subsection_tree)`: the unit grades, or their one summed grade in classic mode. */
  function SubsectionGrades(units: seq<UnitNode>, vertical: bool): seq<TestGrade> {
    var grades := UnitGrades(units, vertical);
    if vertical then grades
    else [TestGrade(SumEarn(grades), SumMax(grades), 1.0)]
  }

  /** `sum([x.earn for x in grades])`. */
  function SumEarn(gs: seq<TestGrade>): real {
    if gs == [] then 0.0 else SumEarn(gs[..|gs| - 1]) + gs[|gs| - 1].earn
  }

  /** `sum([x.max for x in grades])`. */
  function SumMax(gs: seq<TestGrade>): real {
    if gs == [] then 0.0 else SumMax(gs[..|gs| - 1]) + gs[|gs| - 1].max
  }

  /** `grade_subsection`, with its loop over the units. */
  method GradeSubsection(subsectionTree: seq<UnitNode>, enableVertical: bool) returns (grades: seq<TestGrade>)
    ensures grades == SubsectionGrades(subsectionTree, enableVertical)
  {
    grades := [];
    var n := 0;
    while n < |subsectionTree|
      invariant n <= |subsectionTree|
      invariant grades == UnitGrades(subsectionTree[..n], enableVertical)
    {
      var unitPair := subsectionTree[n];
      UnitGradesNext(subsectionTree, n, enableVertical);
      var currentEarned, currentMax := GetUnitProblemPairs(unitPair.problems);
      var weight := unitPair.weight;
      if !enableVertical {
        weight := 1.0;
      }
      PairsGrade(unitPair, enableVertical, currentEarned, currentMax, weight);
      if weight != 0.0 && currentMax != [] {
        grades := grades + [TestGrade(Sum(currentEarned), Sum(currentMax), weight)];
      }
      n := n + 1;
    }
    assert subsectionTree[..n] == subsectionTree;
    if !enableVertical {
      grades := [TestGrade(SumEarn(grades), SumMax(grades), 1.0)];
    }
  }

  /** The grade built from the pairs `get_unit_problem_pairs` returns is the unit's grade. */
  lemma PairsGrade(u: UnitNode, vertical: bool, earned: seq<real>, maxes: seq<real>, weight: real)
    requires |earned| == |maxes| == |Kept(u.problems)|
    requires forall i | 0 <= i < |earned| ::
               Some(earned[i]) == Kept(u.problems)[i].earned && Some(maxes[i]) == Kept(u.problems)[i].max
    requires weight == if vertical then u.weight else 1.0
    ensures UnitGrade(u, vertical) == if weight != 0.0 && maxes != [] then Some(TestGrade(Sum(earned), Sum(maxes), weight)) else None
  {
    assert earned == Earned(u.problems) && maxes == Maxes(u.problems);
  }

  /** One more unit scanned: its grade, if any, goes at the end. */
  lemma UnitGradesNext(units: seq<UnitNode>, n: nat, vertical: bool)
    requires n < |units|
    ensures UnitGrades(units[..n + 1], vertical) == UnitGrades(units[..n], vertical) + Listed(UnitGrade(units[n], vertical))
  {
    assert units[..n + 1][..n] == units[..n];
  }

  /** The earned values of every complete problem pair of the units, in order. */
  function AllEarned(units: seq<UnitNode>): seq<real> {
    if units == [] then [] else AllEarned(units[..|units| - 1]) + Earned(units[|units| - 1].problems)
  }

  /** The max values of every complete problem pair of the units, in order. */
  function AllMaxes(units: seq<UnitNode>): seq<real> {
    if units == [] then [] else AllMaxes(units[..|units| - 1]) + Maxes(units[|units| - 1].problems)
  }

  /**
   * In classic mode a subsection is one grade of weight 1 whose earn and max
   * are the sums over all of its complete problem pairs: units without
   * problems add nothing.
   */
  lemma {:induction false} ClassicIsFlatSum(units: seq<UnitNode>)
    ensures SubsectionGrades(units, false) == [TestGrade(Sum(AllEarned(units)), Sum(AllMaxes(units)), 1.0)]
  {
    ClassicSums(units);
  }

  lemma {:induction false} ClassicSums(units: seq<UnitNode>)
    ensures SumEarn(UnitGrades(units, false)) == Sum(AllEarned(units))
    ensures SumMax(UnitGrades(units, false)) == Sum(AllMaxes(units))
    decreases |units|
  {
    if units != [] {
      var init := units[..|units| - 1];
      var u := units[|units| - 1];
      ClassicSums(init);
      SumConcat(AllEarned(init), Earned(u.problems));
      SumConcat(AllMaxes(init), Maxes(u.problems));
      ClassicStep(UnitGrades(init, false), u);
    }
  }

  /** A unit adds the sums of its complete pairs to the classic totals, nothing when it has none. */
  lemma ClassicStep(gs: seq<TestGrade>, u: UnitNode)
    ensures SumEarn(gs + Listed(UnitGrade(u, false))) == SumEarn(gs) + Sum(Earned(u.problems))
    ensures SumMax(gs + Listed(UnitGrade(u, false))) == SumMax(gs) + Sum(Maxes(u.problems))
  {
    var g := UnitGrade(u, false);
    if g.None? {
      assert Kept(u.problems) == [];
      assert Earned(u.problems) == [] && Maxes(u.problems) == [];
      assert gs + Listed(g) == gs;
    } else {
      assert (gs + [g.value])[..|gs|] == gs;
    }
  }

  /**
   * In vertical mode the subsection's grades are exactly the grades of its
   * units that have a non-zero weight and a complete problem pair.
   */
  lemma {:induction false} VerticalGradesAreUnitGrades(units: seq<UnitNode>, g: TestGrade)
    ensures g in SubsectionGrades(units, true) <==> exists i | 0 <= i < |units| :: UnitGrade(units[i], true) == Some(g)
    decreases |units|
  {
    if units != [] {
      var init, u := units[..|units| - 1], units[|units| - 1];
      assert units == init + [u];
      UnitGradesSnoc(init, u, true);
      VerticalGradesAreUnitGrades(init, g);
      InListed(UnitGrades(init, true), UnitGrade(u, true), g);
      if exists i | 0 <= i < |units| :: UnitGrade(units[i], true) == Some(g) {
        var i :| 0 <= i < |units| && UnitGrade(units[i], true) == Some(g);
        if i < |init| {
          assert UnitGrade(init[i], true) == Some(g);
        }
      }
      if g in UnitGrades(init, true) {
        var i :| 0 <= i < |init| && UnitGrade(init[i], true) == Some(g);
        assert units[i] == init[i];
      }
    }
  }

  // ---------------------------------------------------------------------------
  // `weighted_score`
  // ---------------------------------------------------------------------------

  /** `percent(x)`: `earn / max`, or 0 for a max of 0. */
  function Percent(g: TestGrade): real {
    if g.max != 0.0 then g.earn / g.max else 0.0
  }

  /** `percent(g) * g.weight`. */
  function Weighted(g: TestGrade): real {
    Percent(g) * g.weight
  }

  /** `sum([percent(g) * g.weight for g in grades_list])`. */
  function WeightedTop(gs: seq<TestGrade>): real {
    if gs == [] then 0.0 else WeightedTop(gs[..|gs| - 1]) + Weighted(gs[|gs| - 1])
  }

  /** `sum([g.weight for g in grades_list])`. */
  function TotalWeight(gs: seq<TestGrade>): real {
    if gs == [] then 0.0 else TotalWeight(gs[..|gs| - 1]) + gs[|gs| - 1].weight
  }

  /** `weighted_score(grades_list)`: the weight-averaged percent, 0 when the weights sum to 0. */
  function WeightedScore(gs: seq<TestGrade>): (r: real)
    ensures TotalWeight(gs) == 0.0 ==> r == 0.0
  {
    var bottom := TotalWeight(gs);
    if bottom == 0.0 then 0.0 else WeightedTop(gs) / bottom
  }

  /** A grade the tree can produce: earned between 0 and max, with a positive weight. */
  predicate Sane(g: TestGrade) {
    0.0 <= g.earn <= g.max && g.weight > 0.0
  }

  lemma PercentBounds(g: TestGrade)
    requires Sane(g)
    ensures 0.0 <= Percent(g) <= 1.0
    ensures 0.0 <= Weighted(g) <= g.weight
  {
    var p := Percent(g);
    if g.max != 0.0 {
      FractionBounds(g.earn, g.max);
      assert p == g.earn / g.max;
    } else {
      assert p == 0.0;
    }
    ScaleWithin(p, g.weight);
    assert Weighted(g) == p * g.weight;
  }

  lemma ScaleWithin(p: real, w: real)
    requires 0.0 <= p <= 1.0 && w > 0.0
    ensures 0.0 <= p * w <= w
  {
    assert p * w <= 1.0 * w;
  }

  lemma {:induction false} TopWithinWeight(gs: seq<TestGrade>)
    requires forall i | 0 <= i < |gs| :: Sane(gs[i])
    ensures 0.0 <= WeightedTop(gs) <= TotalWeight(gs)
    ensures gs != [] ==> TotalWeight(gs) > 0.0
    decreases |gs|
  {
    if gs != [] {
      var init, last := gs[..|gs| - 1], gs[|gs| - 1];
      TopWithinWeight(init);
      PercentBounds(last);
      calc {
        WeightedTop(gs);
        WeightedTop(init) + Weighted(last);
      <= { assert Weighted(last) <= last.weight; }
        TotalWeight(init) + last.weight;
        TotalWeight(gs);
      }
      assert TotalWeight(gs) == TotalWeight(init) + last.weight > 0.0;
    }
  }

  /** Over sane grades the weighted score is a fraction between 0 and 1. */
  lemma WeightedScoreIsFraction(gs: seq<TestGrade>)
    requires forall i | 0 <= i < |gs| :: Sane(gs[i])
    ensures 0.0 <= WeightedScore(gs) <= 1.0
  {
    TopWithinWeight(gs);
    if gs != [] {
      FractionBounds(WeightedTop(gs), TotalWeight(gs));
    }
  }

  lemma FractionBounds(top: real, bottom: real)
    requires 0.0 <= top <= bottom && bottom > 0.0
    ensures 0.0 <= top / bottom <= 1.0
  {
    assert top / bottom * bottom == top;
  }

  /** With every weight 1 the weighted score is the plain mean of the percents. */
  lemma {:induction false} UnitWeightsGiveMean(gs: seq<TestGrade>)
    requires forall i | 0 <= i < |gs| :: gs[i].weight == 1.0
    ensures TotalWeight(gs) == |gs| as real
    ensures gs != [] ==> WeightedScore(gs) == WeightedTop(gs) / (|gs| as real)
    decreases |gs|
  {
    if gs != [] {
      UnitWeightsGiveMean(gs[..|gs| - 1]);
    }
  }

  // ---------------------------------------------------------------------------
  // `score_by_assignment_category`
  // ---------------------------------------------------------------------------

  /** `if not assignment_category: continue` skips `None` and `""`. */
  predicate Graded(s: SubsectionNode) {
    s.category.Some? && s.category.value != ""
  }

  /** The subsections of the tree in scan order, section by section. */
  function Subsections(tree: seq<seq<SubsectionNode>>): seq<SubsectionNode> {
    if tree == [] then [] else Subsections(tree[..|tree| - 1]) + tree[|tree| - 1]
  }

  /** `score_by_assignment_category` after scanning `subs`. */
  function ByCategory(subs: seq<SubsectionNode>, vertical: bool): Dict<string, seq<TestGrade>> {
    if subs == [] then Empty()
    else
      var d := ByCategory(subs[..|subs| - 1], vertical);
      var s := subs[|subs| - 1];
      if !Graded(s) then d
      else Put(d, s.category.value, GetOr(d, s.category.value, []) + SubsectionGrades(s.units, vertical))
  }

  /** Reference: the grades of the subsections of one category, concatenated in scan order. */
  function GradesOf(subs: seq<SubsectionNode>, category: string, vertical: bool): seq<TestGrade> {
    if subs == [] then []
    else
      var s := subs[|subs| - 1];
      GradesOf(subs[..|subs| - 1], category, vertical)
        + (if Graded(s) && s.category.value == category then SubsectionGrades(s.units, vertical) else [])
  }

  /**
   * The categories are exactly those of the graded subsections, and each
   * holds the grades of its subsections in scan order.
   */
  lemma ByCategoryIsGradesOf(subs: seq<SubsectionNode>, vertical: bool, category: string)
    ensures category in ByCategory(subs, vertical).items <==>
              exists i | 0 <= i < |subs| :: Graded(subs[i]) && subs[i].category.value == category
    ensures category in ByCategory(subs, vertical).items ==>
              ByCategory(subs, vertical).items[category] == GradesOf(subs, category, vertical)
  {
    ByCategoryKeys(subs, vertical, category);
    ByCategoryGet(subs, vertical, category);
  }

  /** A category is a key once a graded subsection of it has been scanned. */
  lemma {:induction false} ByCategoryKeys(subs: seq<SubsectionNode>, vertical: bool, category: string)
    ensures category in ByCategory(subs, vertical).items <==>
              exists i | 0 <= i < |subs| :: Graded(subs[i]) && subs[i].category.value == category
    decreases |subs|
  {
    if subs != [] {
      var init := subs[..|subs| - 1];
      ByCategoryKeys(init, vertical, category);
      if exists i | 0 <= i < |subs| :: Graded(subs[i]) && subs[i].category.value == category {
        var i :| 0 <= i < |subs| && Graded(subs[i]) && subs[i].category.value == category;
        if i < |init| {
          assert Graded(init[i]) && init[i].category.value == category;
        }
      }
      if category in ByCategory(init, vertical).items {
        var i :| 0 <= i < |init| && Graded(init[i]) && init[i].category.value == category;
        assert subs[i] == init[i];
      }
    }
  }

  /** The list of a category, `[]` when absent, is the concatenated grades of its subsections. */
  lemma {:induction false} ByCategoryGet(subs: seq<SubsectionNode>, vertical: bool, category: string)
    ensures GetOr(ByCategory(subs, vertical), category, []) == GradesOf(subs, category, vertical)
    decreases |subs|
  {
    if subs != [] {
      ByCategoryGet(subs[..|subs| - 1], vertical, category);
    }
  }

  /** One more subsection scanned: its grades go at the end of its category's list. */
  lemma ByCategorySnoc(subs: seq<SubsectionNode>, s: SubsectionNode, vertical: bool)
    ensures var d := ByCategory(subs, vertical);
      ByCategory(subs + [s], vertical)
        == if Graded(s) then Put(d, s.category.value, GetOr(d, s.category.value, []) + SubsectionGrades(s.units, vertical)) else d
  {
    assert (subs + [s])[..|subs|] == subs;
  }

  /** `if c not in d: d[c] = []` followed by `d[c].extend(grades)`. */
  lemma ExtendCategory(d: Dict<string, seq<TestGrade>>, c: string, grades: seq<TestGrade>)
    ensures var d1 := if c !in d.items then Put(d, c, []) else d;
      Put(d1, c, d1.items[c] + grades) == Put(d, c, GetOr(d, c, []) + grades)
  {
  }

  /** The scan of `_grade_tree` that fills `score_by_assignment_category`. */
  method ScoreByAssignmentCategory(tree: seq<seq<SubsectionNode>>, enableVertical: bool)
    returns (scores: Dict<string, seq<TestGrade>>)
    ensures scores == ByCategory(Subsections(tree), enableVertical)
  {
    scores := Empty();
    var n := 0;
    while n < |tree|
      invariant n <= |tree|
      invariant scores == ByCategory(Subsections(tree[..n]), enableVertical)
    {
      var sectionTree := tree[n];
      assert tree[..n + 1][..n] == tree[..n];
      ghost var before := Subsections(tree[..n]);
      var m := 0;
      assert before + sectionTree[..0] == before;
      while m < |sectionTree|
        invariant m <= |sectionTree|
        invariant scores == ByCategory(before + sectionTree[..m], enableVertical)
      {
        var subsectionPair := sectionTree[m];
        ByCategorySnoc(before + sectionTree[..m], subsectionPair, enableVertical);
        assert before + sectionTree[..m + 1] == before + sectionTree[..m] + [subsectionPair];
        if Graded(subsectionPair) {
          var assignmentCategory := subsectionPair.category.value;
          ExtendCategory(scores, assignmentCategory, SubsectionGrades(subsectionPair.units, enableVertical));
          if assignmentCategory !in scores.items {
            scores := Put(scores, assignmentCategory, []);
          }
          var grades := GradeSubsection(subsectionPair.units, enableVertical);
          scores := Put(scores, assignmentCategory, scores.items[assignmentCategory] + grades);
        }
        m := m + 1;
      }
      assert sectionTree[..m] == sectionTree;
      n := n + 1;
    }
    assert tree[..n] == tree;
  }

  // ---------------------------------------------------------------------------
  // `drop_minimal` and the course sum
  // ---------------------------------------------------------------------------

  /** The `weight` and `drop_count` of a grader in `assignment_category_meta`. */
  datatype GraderMeta = GraderMeta(weight: real, dropCount: int)

  /**
   * `drop_minimal(grades_list)` with `findDropIndex` the `find_drop_index`
   * it calls: every `earn / max` must divide, and `pop(ind)` accepts an
   * index from `-len` up to `len - 1`, counting negatives from the end.
   */
  function DropMinimal(gs: seq<TestGrade>, findDropIndex: (seq<real>, seq<real>) -> int): (r: Result<seq<TestGrade>>)
    ensures r == Crash(ZeroDivisionError) <==> exists i | 0 <= i < |gs| :: gs[i].max == 0.0
    ensures r.Crash? ==> r.error in {ZeroDivisionError, IndexError}
    ensures r.Ok? ==> exists j | 0 <= j < |gs| :: r.value == gs[..j] + gs[j + 1..]
  {
    if exists i | 0 <= i < |gs| :: gs[i].max == 0.0 then Crash(ZeroDivisionError)
    else
      var pc := seq(|gs|, i requires 0 <= i < |gs| => gs[i].earn / gs[i].max);
      var w := seq(|gs|, i requires 0 <= i < |gs| => gs[i].weight);
      var ind := findDropIndex(pc, w);
      if -|gs| <= ind < |gs| then
        var j := if ind < 0 then ind + |gs| else ind;
        Ok(gs[..j] + gs[j + 1..])
      else Crash(IndexError)
  }

  /** A drop removes exactly one grade. */
  lemma DropRemovesOne(gs: seq<TestGrade>, findDropIndex: (seq<real>, seq<real>) -> int)
    requires DropMinimal(gs, findDropIndex).Ok?
    ensures |DropMinimal(gs, findDropIndex).value| == |gs| - 1
    ensures multiset(DropMinimal(gs, findDropIndex).value) < multiset(gs)
  {
    var j :| 0 <= j < |gs| && DropMinimal(gs, findDropIndex).value == gs[..j] + gs[j + 1..];
    assert gs == gs[..j] + [gs[j]] + gs[j + 1..];
    assert multiset(gs) == multiset(gs[..j]) + multiset{gs[j]} + multiset(gs[j + 1..]);
  }

  /** `drop_minimal` as a step of the `for _ in range(drop_count)` loop. */
  function DropStep(findDropIndex: (seq<real>, seq<real>) -> int): seq<TestGrade> -> Result<seq<TestGrade>> {
    gs => DropMinimal(gs, findDropIndex)
  }

  /** The score one category adds: its grades after `drop_count` drops, weighted, times its weight in the grading policy. */
  function CategoryScore(gs: seq<TestGrade>, meta: GraderMeta, findDropIndex: (seq<real>, seq<real>) -> int): Result<real> {
    ScoreOfDropped(Iterate(DropStep(findDropIndex), gs, meta.dropCount), meta.weight)
  }

  /** `weighted_score(dropped) * weight`, or the exception the drops raised. */
  function ScoreOfDropped(dropped: Result<seq<TestGrade>>, weight: real): Result<real> {
    if dropped.Crash? then Crash(dropped.error) else Ok(WeightedScore(dropped.value) * weight)
  }

  /** A category whose drops succeed adds its weighted score times its weight in the grading policy. */
  lemma CategoryScoreOk(gs: seq<TestGrade>, meta: GraderMeta, findDropIndex: (seq<real>, seq<real>) -> int,
                        dropped: seq<TestGrade>)
    requires Iterate(DropStep(findDropIndex), gs, meta.dropCount) == Ok(dropped)
    ensures CategoryScore(gs, meta, findDropIndex) == ScoreOfDropped(Ok(dropped), meta.weight)
  {
  }

  /** `course_score` after the categories `keys` of `scores`; a category without a grader raises `KeyError`. */
  function CourseSum(keys: seq<string>, scores: map<string, seq<TestGrade>>, meta: map<string, GraderMeta>,
                     findDropIndex: (seq<real>, seq<real>) -> int): Result<real>
    requires forall k | k in keys :: k in scores
  {
    if keys == [] then Ok(0.0)
    else
      var before := CourseSum(keys[..|keys| - 1], scores, meta, findDropIndex);
      var k := keys[|keys| - 1];
      if before.Crash? then before
      else if k !in meta then Crash(KeyError)
      else
        var s := CategoryScore(scores[k], meta[k], findDropIndex);
        if s.Crash? then s else Ok(before.value + s.value)
  }

  /** The course sum of `_grade_tree`, before its final rounding. */
  function CourseScore(scores: Dict<string, seq<TestGrade>>, meta: map<string, GraderMeta>,
                       findDropIndex: (seq<real>, seq<real>) -> int): Result<real> {
    CourseSum(scores.keys, scores.items, meta, findDropIndex)
  }

  /** Without drops the course score is the sum of weight times weighted score, and raises only for a missing grader. */
  lemma {:induction false} NoDropsSum(keys: seq<string>, scores: map<string, seq<TestGrade>>, meta: map<string, GraderMeta>,
                                      findDropIndex: (seq<real>, seq<real>) -> int)
    requires forall k | k in keys :: k in scores
    requires forall k | k in keys && k in meta :: meta[k].dropCount <= 0
    ensures CourseSum(keys, scores, meta, findDropIndex).Crash? <==> exists i | 0 <= i < |keys| :: keys[i] !in meta
    ensures CourseSum(keys, scores, meta, findDropIndex).Crash? ==> CourseSum(keys, scores, meta, findDropIndex).error == KeyError
    ensures CourseSum(keys, scores, meta, findDropIndex).Ok? ==>
              CourseSum(keys, scores, meta, findDropIndex).value == PlainSum(keys, scores, meta)
    decreases |keys|
  {
    if keys != [] {
      var init := keys[..|keys| - 1];
      NoDropsSum(init, scores, meta, findDropIndex);
      if exists i | 0 <= i < |init| :: init[i] !in meta {
        var i :| 0 <= i < |init| && init[i] !in meta;
        assert keys[i] !in meta;
      }
      if exists i | 0 <= i < |keys| :: keys[i] !in meta {
        var i :| 0 <= i < |keys| && keys[i] !in meta;
        if i < |init| {
          assert init[i] !in meta;
        }
      }
    }
  }

  /** Reference: `Σ weight · weighted_score` over the categories, with no drops. */
  function PlainSum(keys: seq<string>, scores: map<string, seq<TestGrade>>, meta: map<string, GraderMeta>): real
    requires forall k | k in keys :: k in scores
  {
    if keys == [] then 0.0
    else
      var k := keys[|keys| - 1];
      PlainSum(keys[..|keys| - 1], scores, meta) + (if k in meta then WeightedScore(scores[k]) * meta[k].weight else 0.0)
  }

  /** The course sum over one more category. */
  lemma CourseSumNext(keys: seq<string>, scores: map<string, seq<TestGrade>>, meta: map<string, GraderMeta>,
                      findDropIndex: (seq<real>, seq<real>) -> int, n: nat)
    requires n < |keys|
    requires forall k | k in keys :: k in scores
    ensures var before := CourseSum(keys[..n], scores, meta, findDropIndex);
      CourseSum(keys[..n + 1], scores, meta, findDropIndex)
        == if before.Crash? then before
           else if keys[n] !in meta then Crash(KeyError)
           else
             var s := CategoryScore(scores[keys[n]], meta[keys[n]], findDropIndex);
             if s.Crash? then s else Ok(before.value + s.value)
  {
    assert keys[..n + 1][..n] == keys[..n];
  }

  /** A category that adds its score extends a successful course sum. */
  lemma CourseSumOk(keys: seq<string>, scores: map<string, seq<TestGrade>>, meta: map<string, GraderMeta>,
                    findDropIndex: (seq<real>, seq<real>) -> int, n: nat, total: real, added: real)
    requires n < |keys|
    requires forall k | k in keys :: k in scores
    requires CourseSum(keys[..n], scores, meta, findDropIndex).Ok?
    requires CourseSum(keys[..n], scores, meta, findDropIndex).value == total
    requires keys[n] in meta && CategoryScore(scores[keys[n]], meta[keys[n]], findDropIndex).Ok?
    requires CategoryScore(scores[keys[n]], meta[keys[n]], findDropIndex).value == added
    ensures CourseSum(keys[..n + 1], scores, meta, findDropIndex).Ok?
    ensures CourseSum(keys[..n + 1], scores, meta, findDropIndex).value == total + added
  {
    CourseSumNext(keys, scores, meta, findDropIndex, n);
    var c := CourseSum(keys[..n + 1], scores, meta, findDropIndex);
    assert c.Ok? && c.value == total + added;
  }

  /** A category whose drops succeed adds its weighted score times its grader's weight. */
  lemma CourseSumAdds(keys: seq<string>, scores: map<string, seq<TestGrade>>, meta: map<string, GraderMeta>,
                      findDropIndex: (seq<real>, seq<real>) -> int, n: nat, total: real,
                      grader: GraderMeta, dropped: seq<TestGrade>, score: real)
    requires n < |keys|
    requires forall k | k in keys :: k in scores
    requires CourseSum(keys[..n], scores, meta, findDropIndex).Ok?
    requires CourseSum(keys[..n], scores, meta, findDropIndex).value == total
    requires keys[n] in meta && meta[keys[n]] == grader
    requires Iterate(DropStep(findDropIndex), scores[keys[n]], grader.dropCount) == Ok(dropped)
    requires score == WeightedScore(dropped)
    ensures CourseSum(keys[..n + 1], scores, meta, findDropIndex).Ok?
    ensures CourseSum(keys[..n + 1], scores, meta, findDropIndex).value == total + score * grader.weight
  {
    CategoryScoreOk(scores[keys[n]], grader, findDropIndex, dropped);
    CourseSumOk(keys, scores, meta, findDropIndex, n, total, WeightedScore(dropped) * grader.weight);
  }

  /** A category without a grader, or whose drops raise, ends the course sum with that exception. */
  lemma CourseSumRaises(keys: seq<string>, scores: map<string, seq<TestGrade>>, meta: map<string, GraderMeta>,
                        findDropIndex: (seq<real>, seq<real>) -> int, n: nat, error: PyError)
    requires n < |keys|
    requires forall k | k in keys :: k in scores
    requires CourseSum(keys[..n], scores, meta, findDropIndex).Ok?
    requires if keys[n] !in meta then error == KeyError
             else Iterate(DropStep(findDropIndex), scores[keys[n]], meta[keys[n]].dropCount) == Crash(error)
    ensures CourseSum(keys, scores, meta, findDropIndex) == Crash(error)
  {
    CourseSumNext(keys, scores, meta, findDropIndex, n);
    CourseSumCrashPersists(keys, scores, meta, findDropIndex, n + 1);
  }

  /** The loop of `_grade_tree` over the categories. */
  method SumCourseScore(scoreByAssignmentCategory: Dict<string, seq<TestGrade>>, assignmentCategoryMeta: map<string, GraderMeta>,
                        findDropIndex: (seq<real>, seq<real>) -> int) returns (r: Result<real>)
    ensures r == CourseScore(scoreByAssignmentCategory, assignmentCategoryMeta, findDropIndex)
  {
    var keys := scoreByAssignmentCategory.keys;
    var courseScore := 0.0;
    var n := 0;
    while n < |keys|
      invariant n <= |keys|
      invariant CourseSum(keys[..n], scoreByAssignmentCategory.items, assignmentCategoryMeta, findDropIndex).Ok?
      invariant CourseSum(keys[..n], scoreByAssignmentCategory.items, assignmentCategoryMeta, findDropIndex).value == courseScore
    {
      var assignmentCategory := keys[n];
      if assignmentCategory !in assignmentCategoryMeta {
        CourseSumRaises(keys, scoreByAssignmentCategory.items, assignmentCategoryMeta, findDropIndex, n, KeyError);
        return Crash(KeyError);
      }
      var meta := assignmentCategoryMeta[assignmentCategory];
      var dropped := RunSteps(DropStep(findDropIndex), scoreByAssignmentCategory.items[assignmentCategory], meta.dropCount);
      if dropped.Crash? {
        CourseSumRaises(keys, scoreByAssignmentCategory.items, assignmentCategoryMeta, findDropIndex, n, dropped.error);
        return Crash(dropped.error);
      }
      var assignmentScore := WeightedScore(dropped.value);
      CourseSumAdds(keys, scoreByAssignmentCategory.items, assignmentCategoryMeta, findDropIndex, n, courseScore,
                    meta, dropped.value, assignmentScore);
      courseScore := courseScore + assignmentScore * meta.weight;
      n := n + 1;
    }
    assert keys[..n] == keys;
    r := Ok(courseScore);
  }

  /** Once a category raises, the course sum raises the same. */
  lemma {:induction false} CourseSumCrashPersists(keys: seq<string>, scores: map<string, seq<TestGrade>>, meta: map<string, GraderMeta>,
                                                  findDropIndex: (seq<real>, seq<real>) -> int, n: nat)
    requires n <= |keys|
    requires forall k | k in keys :: k in scores
    requires CourseSum(keys[..n], scores, meta, findDropIndex).Crash?
    ensures CourseSum(keys, scores, meta, findDropIndex) == CourseSum(keys[..n], scores, meta, findDropIndex)
    decreases |keys|
  {
    if n < |keys| {
      var init := keys[..|keys| - 1];
      assert init[..n] == keys[..n];
      CourseSumCrashPersists(init, scores, meta, findDropIndex, n);
    } else {
      assert keys[..n] == keys;
    }
  }

  /** `_grade_tree(tree, enable_vertical)` before the final rounding. */
  function GradeTreeScore(tree: seq<seq<SubsectionNode>>, vertical: bool, meta: map<string, GraderMeta>,
                          findDropIndex: (seq<real>, seq<real>) -> int): Result<real> {
    CourseScore(ByCategory(Subsections(tree), vertical), meta, findDropIndex)
  }

  /** `_grade_tree`, with `assignmentCategoryMeta` the type-to-grader dict it builds from the grading policy. */
  method GradeTree(tree: seq<seq<SubsectionNode>>, enableVertical: bool, assignmentCategoryMeta: map<string, GraderMeta>,
                   findDropIndex: (seq<real>, seq<real>) -> int) returns (courseScore: Result<real>)
    ensures courseScore == GradeTreeScore(tree, enableVertical, assignmentCategoryMeta, findDropIndex)
  {
    var scoreByAssignmentCategory := ScoreByAssignmentCategory(tree, enableVertical);
    courseScore := SumCourseScore(scoreByAssignmentCategory, assignmentCategoryMeta, findDropIndex);
  }

  // ---------------------------------------------------------------------------
  // test_vertical_grading.py, `test_percent`
  // ---------------------------------------------------------------------------

  /** The units of `test_percent`: `d`, `e` and `f` in subsection `b`, `g` in subsection `c`. */
  const UnitD := UnitNode(0.0, [ProblemPair(Some(2.0), Some(5.0)), ProblemPair(Some(3.0), Some(5.0))])
  const UnitE := UnitNode(1.0, [ProblemPair(Some(0.0), Some(1.0)), ProblemPair(None, None), ProblemPair(Some(1.0), Some(3.0))])
  const UnitF := UnitNode(0.0, [ProblemPair(None, None)])
  const UnitG := UnitNode(0.0, [ProblemPair(Some(6.0), Some(10.0))])

  /** The one-section tree of `test_percent`. */
  const PercentTree: seq<seq<SubsectionNode>> :=
    [[SubsectionNode(Some("Homework"), [UnitD, UnitE, UnitF]), SubsectionNode(Some("Homework"), [UnitG])]]

  /** The default grading policy: one `Homework` grader of weight 1 with no drops. */
  const HomeworkMeta: map<string, GraderMeta> := map["Homework" := GraderMeta(1.0, 0)]

  /** The two subsections of `PercentTree`: `b`, with units `d`, `e`, `f`, and `c`, with unit `g`. */
  lemma PercentTreeSubsections()
    ensures Subsections(PercentTree) == [PercentTree[0][0], PercentTree[0][1]]
  {
    assert PercentTree[..0] == [];
  }

  /** The sums of a unit with one problem, complete or not. */
  lemma OnePair(a: ProblemPair)
    ensures Kept([a]) == if Complete(a) then [a] else []
    ensures Complete(a) ==> Sum(Earned([a])) == a.earned.value && Sum(Maxes([a])) == a.max.value
  {
    assert [a][..0] == [];
    if Complete(a) {
      assert Earned([a]) == [a.earned.value] && Maxes([a]) == [a.max.value];
      assert [a.earned.value][..0] == [] && [a.max.value][..0] == [];
    }
  }

  /** The complete problems of `[a, c]`, or of `[a, b, c]` with `b` incomplete, are `a` and `c`. */
  lemma KeptOfTwo(ps: seq<ProblemPair>, a: ProblemPair, c: ProblemPair)
    requires Complete(a) && Complete(c)
    requires ps == [a, c] || exists b :: !Complete(b) && ps == [a, b, c]
    ensures Kept(ps) == [a, c]
  {
    OnePair(a);
    if ps == [a, c] {
      assert ps[..1] == [a];
    } else {
      var b :| !Complete(b) && ps == [a, b, c];
      assert ps[..2] == [a, b] && [a, b][..1] == [a];
    }
  }

  lemma SumOfTwo(x: real, y: real)
    ensures Sum([x, y]) == x + y
  {
    assert [x][..0] == [];
    assert Sum([x]) == x;
    assert [x, y][..1] == [x];
  }

  /** The sums of a unit whose complete problems are `a` and `c`. */
  lemma TwoPairs(ps: seq<ProblemPair>, a: ProblemPair, c: ProblemPair)
    requires Complete(a) && Complete(c) && Kept(ps) == [a, c]
    ensures Sum(Earned(ps)) == a.earned.value + c.earned.value && Sum(Maxes(ps)) == a.max.value + c.max.value
  {
    assert Earned(ps) == [a.earned.value, c.earned.value] && Maxes(ps) == [a.max.value, c.max.value];
    SumOfTwo(a.earned.value, c.earned.value);
    SumOfTwo(a.max.value, c.max.value);
  }

  lemma UnitDPairs()
    ensures Sum(Earned(UnitD.problems)) == 5.0 && Sum(Maxes(UnitD.problems)) == 10.0
  {
    var ps := UnitD.problems;
    KeptOfTwo(ps, ps[0], ps[1]);
    TwoPairs(ps, ps[0], ps[1]);
  }

  lemma UnitEPairs()
    ensures Sum(Earned(UnitE.problems)) == 1.0 && Sum(Maxes(UnitE.problems)) == 4.0
  {
    var ps := UnitE.problems;
    KeptOfTwo(ps, ps[0], ps[2]);
    TwoPairs(ps, ps[0], ps[2]);
  }

  lemma UnitFPairs()
    ensures Kept(UnitF.problems) == []
  {
    OnePair(UnitF.problems[0]);
  }

  lemma UnitGPairs()
    ensures Sum(Earned(UnitG.problems)) == 6.0 && Sum(Maxes(UnitG.problems)) == 10.0
  {
    OnePair(UnitG.problems[0]);
  }

  /** What each unit contributes, by mode: only `e` carries a weight, and `f` has no complete pair. */
  lemma PercentTreeUnitGrade()
    ensures UnitGrade(UnitD, true) == None && UnitGrade(UnitD, false) == Some(TestGrade(5.0, 10.0, 1.0))
    ensures UnitGrade(UnitE, true) == Some(TestGrade(1.0, 4.0, 1.0)) && UnitGrade(UnitE, false) == Some(TestGrade(1.0, 4.0, 1.0))
    ensures UnitGrade(UnitF, true) == None && UnitGrade(UnitF, false) == None
    ensures UnitGrade(UnitG, true) == None && UnitGrade(UnitG, false) == Some(TestGrade(6.0, 10.0, 1.0))
  {
    UnitDPairs();
    UnitEPairs();
    UnitFPairs();
    UnitGPairs();
  }

  lemma UnitGradesOfOne(a: UnitNode, vertical: bool)
    ensures UnitGrades([a], vertical) == Listed(UnitGrade(a, vertical))
  {
    assert [a][..0] == [];
  }

  lemma UnitGradesOfThree(a: UnitNode, b: UnitNode, c: UnitNode, vertical: bool)
    ensures UnitGrades([a, b, c], vertical)
            == Listed(UnitGrade(a, vertical)) + Listed(UnitGrade(b, vertical)) + Listed(UnitGrade(c, vertical))
  {
    UnitGradesSnoc([a], b, vertical);
    UnitGradesSnoc([a, b], c, vertical);
    UnitGradesOfOne(a, vertical);
    assert [a] + [b] == [a, b] && [a, b] + [c] == [a, b, c];
  }

  lemma InListed(gs: seq<TestGrade>, o: Option<TestGrade>, g: TestGrade)
    ensures g in gs + Listed(o) <==> g in gs || o == Some(g)
  {
  }

  lemma UnitGradesSnoc(us: seq<UnitNode>, u: UnitNode, vertical: bool)
    ensures UnitGrades(us + [u], vertical) == UnitGrades(us, vertical) + Listed(UnitGrade(u, vertical))
  {
    assert (us + [u])[..|us|] == us;
  }

  /** The course score of a tree whose grades all go to `Homework`. */
  lemma HomeworkOnly(tree: seq<seq<SubsectionNode>>, vertical: bool, gs: seq<TestGrade>,
                     findDropIndex: (seq<real>, seq<real>) -> int)
    requires ByCategory(Subsections(tree), vertical) == OrderedDict(["Homework"], map["Homework" := gs])
    ensures GradeTreeScore(tree, vertical, HomeworkMeta, findDropIndex).Ok?
    ensures GradeTreeScore(tree, vertical, HomeworkMeta, findDropIndex).value == WeightedScore(gs)
  {
    var d := ByCategory(Subsections(tree), vertical);
    NoDropsSum(d.keys, d.items, HomeworkMeta, findDropIndex);
    assert d.keys[..0] == [];
  }

  /** Two subsections of one category: one list, the first one's grades first. */
  lemma ByCategoryOfTwo(s1: SubsectionNode, s2: SubsectionNode, vertical: bool)
    requires Graded(s1) && s2.category == s1.category
    ensures ByCategory([s1, s2], vertical)
            == OrderedDict([s1.category.value],
                           map[s1.category.value := SubsectionGrades(s1.units, vertical) + SubsectionGrades(s2.units, vertical)])
  {
    ByCategorySnoc([], s1, vertical);
    ByCategorySnoc([s1], s2, vertical);
    assert [] + [s1] == [s1] && [s1] + [s2] == [s1, s2];
    TwoExtends(s1.category.value, SubsectionGrades(s1.units, vertical), SubsectionGrades(s2.units, vertical));
  }

  /** Extending one key's list twice, starting from an empty dict. */
  lemma TwoExtends(k: string, g1: seq<TestGrade>, g2: seq<TestGrade>)
    ensures var d1 := Put(Empty(), k, GetOr(Empty(), k, []) + g1);
      Put(d1, k, GetOr(d1, k, []) + g2) == OrderedDict([k], map[k := g1 + g2])
  {
    var e: Dict<string, seq<TestGrade>> := Empty();
    assert GetOr(e, k, []) + g1 == g1;
    var d1 := Put(e, k, g1);
    assert d1.keys == [] + [k] == [k];
    assert d1.items == map[k := g1];
    assert GetOr(d1, k, []) + g2 == g1 + g2;
    var d2 := Put(d1, k, g1 + g2);
    assert d2.keys == [k];
    assert d2.items == map[k := g1][k := g1 + g2] == map[k := g1 + g2];
  }

  /** The weighted score of one grade of weight 1 is its percent. */
  lemma WeightedScoreOfOne(g: TestGrade)
    requires g.weight == 1.0
    ensures WeightedScore([g]) == Percent(g)
  {
    assert [g][..0] == [];
    assert WeightedTop([g]) == Weighted(g);
    assert TotalWeight([g]) == 1.0;
    MulByOne(Percent(g), g.weight);
    MulByOne(WeightedTop([g]), TotalWeight([g]));
  }

  lemma MulByOne(x: real, one: real)
    requires one == 1.0
    ensures x * one == x && x / one == x
  {
  }

  /** The weighted score of two grades of weight 1 is the mean of their percents. */
  lemma WeightedScoreOfTwo(g1: TestGrade, g2: TestGrade)
    requires g1.weight == 1.0 && g2.weight == 1.0
    ensures WeightedScore([g1, g2]) == (Percent(g1) + Percent(g2)) / 2.0
  {
    assert [g1, g2][..1] == [g1] && [g1][..0] == [];
    assert WeightedTop([g1]) == Weighted(g1);
    assert WeightedTop([g1, g2]) == Weighted(g1) + Weighted(g2);
    assert TotalWeight([g1]) == 1.0;
    assert TotalWeight([g1, g2]) == 2.0;
    MulByOne(Percent(g1), g1.weight);
    MulByOne(Percent(g2), g2.weight);
  }

  lemma SumsOfTwo(g1: TestGrade, g2: TestGrade)
    ensures SumEarn([g1, g2]) == g1.earn + g2.earn && SumMax([g1, g2]) == g1.max + g2.max
    ensures SumEarn([g1]) == g1.earn && SumMax([g1]) == g1.max
  {
    assert [g1, g2][..1] == [g1] && [g1][..0] == [];
    assert SumEarn([g1]) == g1.earn && SumMax([g1]) == g1.max;
  }

  /** A `test_percent`-shaped tree: units `d`, `e`, `f` in one Homework subsection, `g` in another. */
  function PercentShape(d: UnitNode, e: UnitNode, f: UnitNode, g: UnitNode): seq<seq<SubsectionNode>> {
    [[SubsectionNode(Some("Homework"), [d, e, f]), SubsectionNode(Some("Homework"), [g])]]
  }

  lemma PercentShapeGrades(d: UnitNode, e: UnitNode, f: UnitNode, g: UnitNode, vertical: bool)
    ensures var t := PercentShape(d, e, f, g);
      ByCategory(Subsections(t), vertical)
        == OrderedDict(["Homework"], map["Homework" := SubsectionGrades([d, e, f], vertical) + SubsectionGrades([g], vertical)])
  {
    var t := PercentShape(d, e, f, g);
    assert t[..0] == [];
    assert Subsections(t) == [t[0][0], t[0][1]];
    ByCategoryOfTwo(t[0][0], t[0][1], vertical);
  }

  /** The score of a `test_percent`-shaped tree is the weighted score of its one Homework list. */
  lemma PercentShapeScore(d: UnitNode, e: UnitNode, f: UnitNode, g: UnitNode, vertical: bool,
                          findDropIndex: (seq<real>, seq<real>) -> int)
    ensures GradeTreeScore(PercentShape(d, e, f, g), vertical, HomeworkMeta, findDropIndex).Ok?
    ensures GradeTreeScore(PercentShape(d, e, f, g), vertical, HomeworkMeta, findDropIndex).value
            == WeightedScore(SubsectionGrades([d, e, f], vertical) + SubsectionGrades([g], vertical))
  {
    PercentShapeGrades(d, e, f, g, vertical);
    HomeworkOnly(PercentShape(d, e, f, g), vertical, SubsectionGrades([d, e, f], vertical) + SubsectionGrades([g], vertical),
                 findDropIndex);
  }

  /** In vertical mode only the weighted unit `e` counts: 1 of 4. */
  lemma PercentTreeVertical(findDropIndex: (seq<real>, seq<real>) -> int)
    ensures GradeTreeScore(PercentTree, true, HomeworkMeta, findDropIndex).Ok?
    ensures GradeTreeScore(PercentTree, true, HomeworkMeta, findDropIndex).value == 0.25
  {
    PercentTreeUnitGrade();
    PercentShapeVertical(UnitD, UnitE, UnitF, UnitG, findDropIndex);
    assert PercentTree == PercentShape(UnitD, UnitE, UnitF, UnitG);
  }

  lemma PercentShapeVertical(d: UnitNode, e: UnitNode, f: UnitNode, g: UnitNode, findDropIndex: (seq<real>, seq<real>) -> int)
    requires UnitGrade(d, true) == None && UnitGrade(e, true) == Some(TestGrade(1.0, 4.0, 1.0))
    requires UnitGrade(f, true) == None && UnitGrade(g, true) == None
    ensures GradeTreeScore(PercentShape(d, e, f, g), true, HomeworkMeta, findDropIndex).Ok?
    ensures GradeTreeScore(PercentShape(d, e, f, g), true, HomeworkMeta, findDropIndex).value == 0.25
  {
    var ge := TestGrade(1.0, 4.0, 1.0);
    UnitGradesOfThree(d, e, f, true);
    UnitGradesOfOne(g, true);
    assert SubsectionGrades([d, e, f], true) + SubsectionGrades([g], true) == [ge];
    PercentShapeScore(d, e, f, g, true, findDropIndex);
    WeightedScoreOfOne(ge);
  }

  /** In classic mode the two subsection percentages are averaged. */
  lemma PercentTreeClassic(findDropIndex: (seq<real>, seq<real>) -> int)
    ensures GradeTreeScore(PercentTree, false, HomeworkMeta, findDropIndex).Ok?
    ensures GradeTreeScore(PercentTree, false, HomeworkMeta, findDropIndex).value == (6.0 / 14.0 + 6.0 / 10.0) / 2.0
  {
    PercentTreeUnitGrade();
    PercentShapeClassic(UnitD, UnitE, UnitF, UnitG, findDropIndex);
    assert PercentTree == PercentShape(UnitD, UnitE, UnitF, UnitG);
  }

  lemma PercentShapeClassic(d: UnitNode, e: UnitNode, f: UnitNode, g: UnitNode, findDropIndex: (seq<real>, seq<real>) -> int)
    requires UnitGrade(d, false) == Some(TestGrade(5.0, 10.0, 1.0)) && UnitGrade(e, false) == Some(TestGrade(1.0, 4.0, 1.0))
    requires UnitGrade(f, false) == None && UnitGrade(g, false) == Some(TestGrade(6.0, 10.0, 1.0))
    ensures GradeTreeScore(PercentShape(d, e, f, g), false, HomeworkMeta, findDropIndex).Ok?
    ensures GradeTreeScore(PercentShape(d, e, f, g), false, HomeworkMeta, findDropIndex).value
            == (6.0 / 14.0 + 6.0 / 10.0) / 2.0
  {
    var gb, gc := TestGrade(6.0, 14.0, 1.0), TestGrade(6.0, 10.0, 1.0);
    ClassicShapeGrades(d, e, f, g);
    PercentShapeScore(d, e, f, g, false, findDropIndex);
    WeightedScoreOfTwo(gb, gc);
  }

  /** In classic mode subsection `b` sums to 6 of 14 and subsection `c` to 6 of 10. */
  lemma ClassicShapeGrades(d: UnitNode, e: UnitNode, f: UnitNode, g: UnitNode)
    requires UnitGrade(d, false) == Some(TestGrade(5.0, 10.0, 1.0)) && UnitGrade(e, false) == Some(TestGrade(1.0, 4.0, 1.0))
    requires UnitGrade(f, false) == None && UnitGrade(g, false) == Some(TestGrade(6.0, 10.0, 1.0))
    ensures SubsectionGrades([d, e, f], false) + SubsectionGrades([g], false)
            == [TestGrade(6.0, 14.0, 1.0), TestGrade(6.0, 10.0, 1.0)]
  {
    var gd, ge := TestGrade(5.0, 10.0, 1.0), TestGrade(1.0, 4.0, 1.0);
    var gc := TestGrade(6.0, 10.0, 1.0);
    UnitGradesOfThree(d, e, f, false);
    UnitGradesOfOne(g, false);
    assert UnitGrades([d, e, f], false) == [gd, ge];
    SumsOfTwo(gd, ge);
    SumsOfTwo(gc, gc);
  }
}

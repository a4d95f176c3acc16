/**
 * vertical_grading/utils.py: the unit pseudo-score of the `vertical_grading`
 * package, and its drop step, which takes out the single unit score that
 * lost the most points (`possible - earned`) anywhere in a list of subsection
 * grades.
 */
module VerticalGradingUtils {
  import opened Wrappers
  import opened OrderedDicts
  import opened Keys
  import opened UnitChildren
  import NpoedUtils

  /** The edX `ProblemScore` fields this package sets. */
  datatype ProblemScore = ProblemScore(
    rawEarned: real,
    rawPossible: real,
    earned: real,           // weighted_earned
    possible: real,         // weighted_possible
    weight: real,
    graded: bool,
    attempted: bool)

  /** The pseudo problem for a unit of weight `w` whose children scored `scores`. */
  function PseudoScore(w: real, scores: seq<ChildScore>): (s: ProblemScore)
    requires w != 0.0 && SumPossible(scores) != 0.0
    ensures s.possible == w && s.weight == w
    ensures s.earned / s.possible == SumEarned(scores) / SumPossible(scores)
    ensures s.rawEarned == SumEarned(scores) && s.rawPossible == SumPossible(scores)
    ensures s.graded <==> exists i | 0 <= i < |scores| :: scores[i].graded
    ensures s.attempted <==> exists i | 0 <= i < |scores| :: scores[i].attempted
    ensures w > 0.0 && 0.0 <= SumEarned(scores) <= SumPossible(scores) ==> 0.0 <= s.earned <= s.possible
  {
    var e, p := SumEarned(scores), SumPossible(scores);
    NpoedUtils.ScaledShare(w, e, p);
    ProblemScore(e, p, w * e / p, w, w, AnyGraded(scores), AnyAttempted(scores))
  }

  /**
   * `get_vertical_score` (and its verbatim copies `VerticalBase._get_vertical_score`):
   * `None` for a block that is not a unit, a unit without a truthy weight, or a
   * unit none of whose children has a score; `ZeroDivisionError` when the
   * scored children's possible points sum to zero.
   */
  method GetVerticalScore(unit: UnitBlock) returns (r: Result<Option<ProblemScore>>)
    ensures r == Ok(None) <==> !IsVertical(unit) || !HasWeight(unit) || Collected(unit.children) == []
    ensures r.Crash? <==> IsVertical(unit) && HasWeight(unit) && Collected(unit.children) != []
                          && SumPossible(Collected(unit.children)) == 0.0
    ensures r.Crash? ==> r.error == ZeroDivisionError
    ensures r.Ok? && r.value.Some? ==>
              IsVertical(unit) && HasWeight(unit) && SumPossible(Collected(unit.children)) != 0.0
              && r.value.value == PseudoScore(unit.weight.value, Collected(unit.children))
  {
    if unit.key.category != VerticalCategory {
      return Ok(None);
    }
    var verticalWeight := unit.weight;
    if verticalWeight.None? || verticalWeight.value == 0.0 {
      return Ok(None);
    }
    var childrenScores := CollectChildScores(unit.children);
    if childrenScores == [] {
      return Ok(None);
    }
    var verticalPossible := SumPossible(childrenScores);
    var verticalEarned := SumEarned(childrenScores);
    if verticalPossible == 0.0 {
      return Crash(ZeroDivisionError);
    }
    var w := verticalWeight.value;
    var weightedEarned := w * verticalEarned / verticalPossible;
    var verticalAttempted := AnyAttempted(childrenScores);
    var verticalGraded := AnyGraded(childrenScores);
    r := Ok(Some(ProblemScore(verticalEarned, verticalPossible, weightedEarned, w, w, verticalGraded, verticalAttempted)));
  }

  // ---------------------------------------------------------------------------
  // The drop step
  // ---------------------------------------------------------------------------

  /** A subsection grade of this package: `locations_to_scores` and two aggregates. */
  datatype SubsectionGrade = SubsectionGrade(
    locationsToScores: Dict<UsageKey, ProblemScore>,
    gradedTotal: NpoedUtils.Total,
    allTotal: NpoedUtils.Total)

  /** The positive stand-in for a subsection's graded possible points once they reach zero. */
  const Sentinel: real := 0.000001

  function LostPoints(s: ProblemScore): real {
    s.possible - s.earned
  }

  /** A score the scan visits: subsection number, its key, and the points it lost. */
  datatype Candidate = Candidate(num: nat, key: UsageKey, lost: real)

  /** The candidates of subsection `num`, in `locations_to_scores` order. */
  function Entries(num: nat, g: SubsectionGrade): (r: seq<Candidate>)
    ensures |r| == |g.locationsToScores.keys|
    ensures forall j | 0 <= j < |r| ::
              r[j] == Candidate(num, g.locationsToScores.keys[j], LostPoints(g.locationsToScores.items[g.locationsToScores.keys[j]]))
  {
    var ks := g.locationsToScores.keys;
    seq(|ks|, j requires 0 <= j < |ks| => Candidate(num, ks[j], LostPoints(g.locationsToScores.items[ks[j]])))
  }

  /** Every score of every subsection, in the order the two nested loops visit them. */
  function Flat(grades: seq<SubsectionGrade>): (r: seq<Candidate>)
    ensures forall c | c in r ::
              && c.num < |grades|
              && c.key in grades[c.num].locationsToScores.items
              && c.lost == LostPoints(grades[c.num].locationsToScores.items[c.key])
  {
    if grades == [] then []
    else
      var n := |grades| - 1;
      var init := Flat(grades[..n]);
      assert forall c | c in init :: grades[..n][c.num] == grades[c.num];
      init + Entries(n, grades[n])
  }

  /** Every score is visited. */
  lemma {:induction false} FlatVisits(grades: seq<SubsectionGrade>, n: nat, j: nat)
    requires n < |grades| && j < |grades[n].locationsToScores.keys|
    ensures var ks := grades[n].locationsToScores.keys;
      Candidate(n, ks[j], LostPoints(grades[n].locationsToScores.items[ks[j]])) in Flat(grades)
  {
    var last := |grades| - 1;
    if n < last {
      FlatVisits(grades[..last], n, j);
      assert grades[..last][n] == grades[n];
    } else {
      assert Entries(n, grades[n])[j] in Entries(n, grades[n]);
    }
  }

  /** The scan state: `max_lost_points` and the candidate it came from (`(-1, "None")`: none yet). */
  datatype ScanState = ScanState(maxLost: real, index: Option<Candidate>)

  /** The scan over `cs`: strictly more lost points replace the current maximum. */
  function Scan(cs: seq<Candidate>): (r: ScanState)
    ensures r.index.Some? ==> r.index.value in cs && r.maxLost == r.index.value.lost
    ensures r.index.None? ==> r.maxLost == -1.0
  {
    if cs == [] then ScanState(-1.0, None)
    else
      var prev := Scan(cs[..|cs| - 1]);
      var c := cs[|cs| - 1];
      if c.lost > prev.maxLost then ScanState(c.lost, Some(c)) else prev
  }

  /** One more visited score. */
  lemma ScanSnoc(cs: seq<Candidate>, c: Candidate)
    ensures Scan(cs + [c]) == if c.lost > Scan(cs).maxLost then ScanState(c.lost, Some(c)) else Scan(cs)
  {
    assert (cs + [c])[..|cs|] == cs;
  }

  /** The scan ends with the sentinel exactly when no score lost more than -1 points. */
  lemma {:induction false} ScanNone(cs: seq<Candidate>)
    ensures Scan(cs).index.None? <==> forall k | 0 <= k < |cs| :: cs[k].lost <= -1.0
    ensures Scan(cs).maxLost == -1.0 <==> Scan(cs).index.None?
  {
    if cs != [] {
      var init := cs[..|cs| - 1];
      ScanNone(init);
      ScanBounds(cs);
      assert forall k | 0 <= k < |init| :: init[k] == cs[k];
    }
  }

  /** The running maximum is at least -1 and at least every visited score's lost points. */
  lemma {:induction false} ScanBounds(cs: seq<Candidate>)
    ensures Scan(cs).maxLost >= -1.0
    ensures forall k | 0 <= k < |cs| :: cs[k].lost <= Scan(cs).maxLost
    ensures Scan(cs).index.Some? ==> Scan(cs).maxLost > -1.0
  {
    if cs != [] {
      var init := cs[..|cs| - 1];
      ScanBounds(init);
      assert forall k | 0 <= k < |init| :: init[k] == cs[k];
    }
  }

  /** The chosen score is the first of the maximal ones: everything before it lost strictly less. */
  lemma {:induction false} ScanFirstMaximum(cs: seq<Candidate>)
    requires Scan(cs).index.Some?
    ensures exists k | 0 <= k < |cs| :: cs[k] == Scan(cs).index.value &&
              forall m | 0 <= m < k :: cs[m].lost < cs[k].lost
  {
    var init := cs[..|cs| - 1];
    var c := cs[|cs| - 1];
    var prev := Scan(init);
    assert forall k | 0 <= k < |init| :: init[k] == cs[k];
    if c.lost > prev.maxLost {
      ScanBounds(init);
    } else {
      ScanFirstMaximum(init);
      var k :| 0 <= k < |init| && init[k] == prev.index.value && forall m | 0 <= m < k :: init[m].lost < init[k].lost;
      assert cs[k] == Scan(cs).index.value;
    }
  }

  /** Subsection `g` after `pop` of the score under `key` and the four decrements. */
  function DropScore(g: SubsectionGrade, key: UsageKey): (r: SubsectionGrade)
    requires key in g.locationsToScores.items
    ensures r.locationsToScores.items == g.locationsToScores.items - {key}
    ensures r.locationsToScores.keys == Without(g.locationsToScores.keys, key)
    ensures var s := g.locationsToScores.items[key];
      && r.gradedTotal.earned == g.gradedTotal.earned - s.earned
      && r.allTotal == NpoedUtils.Total(g.allTotal.earned - s.earned, g.allTotal.possible - s.possible)
      && r.gradedTotal.possible == (if g.gradedTotal.possible - s.possible == 0.0 then Sentinel
                                    else g.gradedTotal.possible - s.possible)
    ensures r.gradedTotal.possible != 0.0
  {
    var s := g.locationsToScores.items[key];
    var possible := g.gradedTotal.possible - s.possible;
    SubsectionGrade(
      Remove(g.locationsToScores, key),
      NpoedUtils.Total(g.gradedTotal.earned - s.earned, if possible == 0.0 then Sentinel else possible),
      NpoedUtils.Total(g.allTotal.earned - s.earned, g.allTotal.possible - s.possible))
  }

  /** `drop_minimal_vertical_from_subsection_grades` on a list of subsection grades. */
  function DropOutcome(grades: seq<SubsectionGrade>): (r: seq<SubsectionGrade>)
    ensures |r| == |grades|
    ensures Scan(Flat(grades)).index.None? ==> r == grades
    ensures Scan(Flat(grades)).index.Some? ==>
              var c := Scan(Flat(grades)).index.value;
              && c.num < |grades| && c.key in grades[c.num].locationsToScores.items
              && r[c.num] == DropScore(grades[c.num], c.key)
              && forall k | 0 <= k < |grades| && k != c.num :: r[k] == grades[k]
  {
    var found := Scan(Flat(grades)).index;
    if found.None? then grades
    else
      var c := found.value;
      grades[c.num := DropScore(grades[c.num], c.key)]
  }

  /**
   * What the drop promises: nothing happens when no score lost more than -1
   * points; otherwise the dropped score lost at least as much as every score,
   * more than every score visited before it, and more than -1.
   */
  lemma DropChoosesFirstMaximum(grades: seq<SubsectionGrade>)
    ensures DropOutcome(grades) == grades <== forall c | c in Flat(grades) :: c.lost <= -1.0
    ensures Scan(Flat(grades)).index.Some? ==>
              var c := Scan(Flat(grades)).index.value;
              && c.lost > -1.0
              && (forall n, key | 0 <= n < |grades| && key in grades[n].locationsToScores.items ::
                    LostPoints(grades[n].locationsToScores.items[key]) <= c.lost)
              && exists k | 0 <= k < |Flat(grades)| :: Flat(grades)[k] == c &&
                   forall m | 0 <= m < k :: Flat(grades)[m].lost < c.lost
  {
    var cs := Flat(grades);
    ScanNone(cs);
    ScanBounds(cs);
    if Scan(cs).index.Some? {
      ScanFirstMaximum(cs);
      forall n, key | 0 <= n < |grades| && key in grades[n].locationsToScores.items
        ensures LostPoints(grades[n].locationsToScores.items[key]) <= Scan(cs).index.value.lost
      {
        var j := IndexOf(grades[n].locationsToScores.keys, key);
        FlatVisits(grades, n, j);
      }
    }
  }

  /** The inner loop: the scan over one more subsection. */
  method ScanSubsection(num: nat, grade: SubsectionGrade, before: seq<Candidate>, maxLost0: real, index0: Option<Candidate>)
    returns (maxLost: real, index: Option<Candidate>)
    requires Scan(before) == ScanState(maxLost0, index0)
    ensures Scan(before + Entries(num, grade)) == ScanState(maxLost, index)
  {
    maxLost, index := maxLost0, index0;
    ghost var entries := Entries(num, grade);
    ghost var visited := before;
    var j := 0;
    assert before + entries[..0] == before;
    while j < |grade.locationsToScores.keys|
      invariant j <= |grade.locationsToScores.keys|
      invariant visited == before + entries[..j]
      invariant Scan(visited) == ScanState(maxLost, index)
    {
      var blockKey := grade.locationsToScores.keys[j];
      var problemScore := grade.locationsToScores.items[blockKey];
      var lostPoints := problemScore.possible - problemScore.earned;
      ghost var c := Candidate(num, blockKey, lostPoints);
      assert c == entries[j];
      PrefixSnoc(before, entries, j);
      ScanSnoc(visited, c);
      visited := visited + [c];
      if lostPoints > maxLost {
        maxLost := lostPoints;
        index := Some(Candidate(num, blockKey, lostPoints));
      }
      j := j + 1;
    }
    assert entries[..j] == entries;
  }

  /** A prefix of `e` one element longer, after `a`. */
  lemma PrefixSnoc<T>(a: seq<T>, e: seq<T>, j: nat)
    requires j < |e|
    ensures a + e[..j + 1] == (a + e[..j]) + [e[j]]
  {
    assert e[..j + 1] == e[..j] + [e[j]];
  }

  /** The outer loop: the score that lost the most points over all subsections, by the sentinel `-1`. */
  method ScanGrades(subsectionGrades: seq<SubsectionGrade>) returns (maxLostPoints: real, maxLostPointsIndex: Option<Candidate>)
    ensures Scan(Flat(subsectionGrades)) == ScanState(maxLostPoints, maxLostPointsIndex)
  {
    maxLostPoints, maxLostPointsIndex := -1.0, None;
    var num := 0;
    while num < |subsectionGrades|
      invariant num <= |subsectionGrades|
      invariant Scan(Flat(subsectionGrades[..num])) == ScanState(maxLostPoints, maxLostPointsIndex)
    {
      assert subsectionGrades[..num + 1][..num] == subsectionGrades[..num];
      maxLostPoints, maxLostPointsIndex :=
        ScanSubsection(num, subsectionGrades[num], Flat(subsectionGrades[..num]), maxLostPoints, maxLostPointsIndex);
      num := num + 1;
    }
    assert subsectionGrades[..num] == subsectionGrades;
  }

  /** `drop_minimal_vertical_from_subsection_grades`. */
  method DropMinimalVerticalFromSubsectionGrades(subsectionGrades: seq<SubsectionGrade>)
    returns (r: seq<SubsectionGrade>)
    ensures r == DropOutcome(subsectionGrades)
  {
    var maxLostPoints, maxLostPointsIndex := ScanGrades(subsectionGrades);
    ScanNone(Flat(subsectionGrades));
    if maxLostPoints == -1.0 {
      return subsectionGrades;
    }
    var c := maxLostPointsIndex.value;
    var modifiedGrade := subsectionGrades[c.num];
    modifiedGrade := DropScore(modifiedGrade, c.key);
    r := subsectionGrades[c.num := modifiedGrade];
  }
}

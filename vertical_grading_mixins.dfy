/**
 * vertical_grading/mixins.py and vertical_grading/subsection_mixins.py: the
 * subsection-grade mixin that, with vertical grading on, stores one pseudo
 * problem score per unit in the grade's `locations_to_scores` instead of one
 * score per problem. Both files hold the same class; it is modelled once.
 */
module VerticalGradingMixins {
  import opened Wrappers
  import opened OrderedDicts
  import opened Keys
  import opened UnitChildren
  import opened VerticalGradingUtils

  /** Whether a unit yields a pseudo-score: a weighted unit with a scored child whose points are not all zero. */
  predicate Produces(unit: UnitBlock) {
    IsVertical(unit) && HasWeight(unit) && Collected(unit.children) != [] && SumPossible(Collected(unit.children)) != 0.0
  }

  /** The part of `VerticalGradingSubsectionMixin` the core touches: `locations_to_scores`. */
  class VerticalGradingSubsectionMixin {
    var locationsToScores: Dict<UsageKey, ProblemScore>

    constructor (scores: Dict<UsageKey, ProblemScore>)
      ensures locationsToScores == scores
    {
      locationsToScores := scores;
    }

    /**
     * `_vertical_compute_block_score`: store the unit's pseudo-score under its
     * own key when there is one; leave the scores alone otherwise. A
     * `ZeroDivisionError` of the pseudo-score propagates before any write.
     */
    method VerticalComputeBlockScore(unit: UnitBlock) returns (r: Result<()>)
      modifies this
      ensures r.Crash? <==> IsVertical(unit) && HasWeight(unit) && Collected(unit.children) != []
                            && SumPossible(Collected(unit.children)) == 0.0
      ensures r.Crash? ==> r.error == ZeroDivisionError
      ensures !Produces(unit) ==> locationsToScores == old(locationsToScores)
      ensures Produces(unit) ==>
                locationsToScores == Put(old(locationsToScores), unit.key,
                                         PseudoScore(unit.weight.value, Collected(unit.children)))
    {
      var verticalPseudoProblemScore := GetVerticalScore(unit);
      if verticalPseudoProblemScore.Crash? {
        return Crash(verticalPseudoProblemScore.error);
      }
      if verticalPseudoProblemScore.value.Some? {
        locationsToScores := Put(locationsToScores, unit.key, verticalPseudoProblemScore.value.value);
      }
      r := Ok(());
    }
  }

  /** Storing a unit's score touches only that unit's entry, and the entry is the pseudo-score. */
  lemma PutOnlyTouchesUnit(scores: Dict<UsageKey, ProblemScore>, unit: UnitBlock)
    requires Produces(unit)
    ensures var after := Put(scores, unit.key, PseudoScore(unit.weight.value, Collected(unit.children)));
      && after.items[unit.key].possible == unit.weight.value
      && after.items[unit.key].rawPossible == SumPossible(Collected(unit.children))
      && (forall k | k in scores.items && k != unit.key :: k in after.items && after.items[k] == scores.items[k])
      && (forall k | k in after.items :: k == unit.key || k in scores.items)
  {
  }
}

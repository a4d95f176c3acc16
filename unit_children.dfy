/**
 * The input of unit ("vertical") pseudo-score synthesis: a unit block, the
 * access answer of the course structure for each of its children, and the
 * score the external `get_score` resolves for each scorable child.
 * Both packages' `get_vertical_score` collect the children's scores the same
 * way; that collection loop and the sums over it are defined here once.
 */
module UnitChildren {
  import opened Wrappers
  import opened Keys

  /** A resolved child score: `score.earned`, `score.possible`, its flags and first attempt time. */
  datatype ChildScore = ChildScore(
    earned: real,
    possible: real,
    graded: bool,
    attempted: bool,
    firstAttempted: Option<int>)

  /** What `course_structure[child_key]` and `get_score` give for one child. */
  datatype Child =
    | Inaccessible                                        // `KeyError`: access changed since last persisted
    | Block(hasScore: bool, score: Option<ChildScore>)    // `score`: `get_score(...)`, `None` when falsy

  /** A block handed to `get_vertical_score`: its key, `weight` attribute (absent: `None`) and children. */
  datatype UnitBlock = UnitBlock(key: UsageKey, weight: Option<real>, children: seq<Child>)

  predicate IsVertical(u: UnitBlock) {
    u.key.category == VerticalCategory
  }

  /** `vertical_weight` is truthy: present and nonzero. */
  predicate HasWeight(u: UnitBlock) {
    u.weight.Some? && u.weight.value != 0.0
  }

  /** The score one child contributes: only an accessible block with `has_score` and a truthy score. */
  function Scored(c: Child): Option<ChildScore> {
    if c.Block? && c.hasScore then c.score else None
  }

  /** `children_scores` after the loop over `children`. */
  function Collected(cs: seq<Child>): (r: seq<ChildScore>)
    ensures |r| <= |cs|
  {
    if cs == [] then []
    else
      var last := Scored(cs[|cs| - 1]);
      Collected(cs[..|cs| - 1]) + (if last.Some? then [last.value] else [])
  }

  /** A score is collected exactly when some child contributes it. */
  lemma {:induction false} CollectedMembers(cs: seq<Child>, x: ChildScore)
    ensures x in Collected(cs) <==> exists i | 0 <= i < |cs| :: Scored(cs[i]) == Some(x)
  {
    if cs != [] {
      var init := cs[..|cs| - 1];
      CollectedMembers(init, x);
      if x in Collected(init) {
        var i :| 0 <= i < |init| && Scored(init[i]) == Some(x);
        assert cs[i] == init[i];
      }
      if exists i | 0 <= i < |cs| :: Scored(cs[i]) == Some(x) {
        var i :| 0 <= i < |cs| && Scored(cs[i]) == Some(x);
        if i < |init| {
          assert init[i] == cs[i];
        }
      }
    }
  }

  /** No child contributes a score exactly when nothing is collected. */
  lemma {:induction false} CollectedEmpty(cs: seq<Child>)
    ensures Collected(cs) == [] <==> forall i | 0 <= i < |cs| :: Scored(cs[i]).None?
  {
    if cs != [] {
      var init := cs[..|cs| - 1];
      CollectedEmpty(init);
      forall i | 0 <= i < |init| ensures init[i] == cs[i] { }
    }
  }

  /** Collects the children's scores as the loop of `get_vertical_score` does. */
  method CollectChildScores(children: seq<Child>) returns (scores: seq<ChildScore>)
    ensures scores == Collected(children)
    ensures forall x :: x in scores <==> exists i | 0 <= i < |children| :: Scored(children[i]) == Some(x)
  {
    scores := [];
    var n := 0;
    while n < |children|
      invariant n <= |children|
      invariant scores == Collected(children[..n])
    {
      assert children[..n + 1][..n] == children[..n];
      var child := children[n];
      if child.Block? && child.hasScore {
        var problemScore := child.score;
        if problemScore.Some? {
          scores := scores + [problemScore.value];
        }
      }
      n := n + 1;
    }
    assert children[..n] == children;
    forall x ensures x in scores <==> exists i | 0 <= i < |children| :: Scored(children[i]) == Some(x) {
      CollectedMembers(children, x);
    }
  }

  /** `sum(score.earned for score in s)`. */
  function SumEarned(s: seq<ChildScore>): real {
    if s == [] then 0.0 else SumEarned(s[..|s| - 1]) + s[|s| - 1].earned
  }

  /** `sum(score.possible for score in s)`. */
  function SumPossible(s: seq<ChildScore>): real {
    if s == [] then 0.0 else SumPossible(s[..|s| - 1]) + s[|s| - 1].possible
  }

  /** Sums of well-formed scores stay well-formed: 0 <= earned <= possible. */
  lemma {:induction false} SumsBounded(s: seq<ChildScore>)
    requires forall i | 0 <= i < |s| :: 0.0 <= s[i].earned <= s[i].possible
    ensures 0.0 <= SumEarned(s) <= SumPossible(s)
  {
    if s != [] {
      SumsBounded(s[..|s| - 1]);
    }
  }

  predicate AnyGraded(s: seq<ChildScore>) {
    exists i | 0 <= i < |s| :: s[i].graded
  }

  predicate AnyAttempted(s: seq<ChildScore>) {
    exists i | 0 <= i < |s| :: s[i].attempted
  }

  /** The later of two optional attempt times, an unattempted child (`None`) counting as no time at all. */
  function MaxTime(a: Option<int>, b: Option<int>): Option<int> {
    if a.None? then b else if b.None? then a else Some(if a.value >= b.value then a.value else b.value)
  }

  /** Some children were attempted and some were not: their `first_attempted` values mix times and `None`. */
  predicate MixedAttempts(s: seq<ChildScore>) {
    (exists i | 0 <= i < |s| :: s[i].firstAttempted.None?) && (exists i | 0 <= i < |s| :: s[i].firstAttempted.Some?)
  }

  /**
   * The latest first attempt among the attempted children, `None` when no
   * child was attempted: the unit's attempt time the pseudo-score evidently
   * means to carry.
   */
  function MaxFirstAttempted(s: seq<ChildScore>): (r: Option<int>)
    requires s != []
    ensures r.None? <==> forall i | 0 <= i < |s| :: s[i].firstAttempted.None?
    ensures r.Some? ==> exists i | 0 <= i < |s| :: s[i].firstAttempted == r
    ensures r.Some? ==> forall i | 0 <= i < |s| && s[i].firstAttempted.Some? :: s[i].firstAttempted.value <= r.value
  {
    if |s| == 1 then s[0].firstAttempted
    else
      var init := s[..|s| - 1];
      var m := MaxFirstAttempted(init);
      assert forall i | 0 <= i < |init| :: init[i] == s[i];
      MaxTime(m, s[|s| - 1].firstAttempted)
  }

  /**
   * Python 2 `max(first_attempted for ...)` as written: comparing an attempt
   * time (a `datetime`) with `None` raises `TypeError`, so a running maximum
   * meets the first value of the other kind and raises.
   */
  function MaxFirstAttemptedAsWritten(s: seq<ChildScore>): (r: Result<Option<int>>)
    requires s != []
    ensures r.Crash? <==> MixedAttempts(s)
    ensures r.Crash? ==> r.error == TypeError
    ensures r.Ok? ==> r.value == MaxFirstAttempted(s)
  {
    if |s| == 1 then Ok(s[0].firstAttempted)
    else
      var init := s[..|s| - 1];
      var last := s[|s| - 1].firstAttempted;
      var m := MaxFirstAttemptedAsWritten(init);
      assert forall i | 0 <= i < |init| :: init[i] == s[i];
      if m.Crash? then m
      else if m.value.None? != last.None? then Crash(TypeError)
      else Ok(MaxTime(m.value, last))
  }

  /** One attempted and one unattempted child: the code raises where the latest attempt time was meant. */
  lemma PartlyAttemptedUnitRaises()
    ensures var s := [ChildScore(1.0, 1.0, true, true, Some(5)), ChildScore(0.0, 1.0, true, false, None)];
      && MaxFirstAttemptedAsWritten(s) == Crash(TypeError)
      && MaxFirstAttempted(s) == Some(5)
  {
    var s := [ChildScore(1.0, 1.0, true, true, Some(5)), ChildScore(0.0, 1.0, true, false, None)];
    assert s[..1] == [s[0]];
  }
}

/**
 * The `for _ in range(count)` loops of `AssignmentFormatGrader.grade` and of the test oracle:
 * a step that may raise, applied a number of times.
 */
module Repeat {
  import opened Wrappers

  /** `step` applied `n` times (none for `n <= 0`); the first exception stops the run. */
  function Iterate<T>(step: T -> Result<T>, c: T, n: int): Result<T>
    decreases n
  {
    if n <= 0 then Ok(c)
    else
      var before := Iterate(step, c, n - 1);
      if before.Crash? then before else step(before.value)
  }

  /** Once a step raises, so does every longer run. */
  lemma {:induction false} IterateCrashPersists<T>(step: T -> Result<T>, c: T, n: int, m: int)
    requires n <= m
    requires Iterate(step, c, n).Crash?
    ensures Iterate(step, c, m) == Iterate(step, c, n)
    decreases m
  {
    if m > n {
      IterateCrashPersists(step, c, n, m - 1);
    }
  }

  /** Once a step leaves its input as it is, further steps change nothing. */
  lemma {:induction false} IterateSettles<T>(step: T -> Result<T>, c: T, n: int, m: int)
    requires 0 <= n <= m
    requires Iterate(step, c, n).Ok? && step(Iterate(step, c, n).value) == Iterate(step, c, n)
    ensures Iterate(step, c, m) == Iterate(step, c, n)
    decreases m
  {
    if m > n {
      IterateSettles(step, c, n, m - 1);
    }
  }

  /** A property every successful step keeps holds after any number of steps. */
  lemma {:induction false} IteratePreserves<T>(step: T -> Result<T>, inv: T -> bool, c: T, n: int)
    requires inv(c)
    requires forall x | inv(x) :: step(x).Ok? ==> inv(step(x).value)
    ensures Iterate(step, c, n).Ok? ==> inv(Iterate(step, c, n).value)
    decreases n
  {
    if n > 0 {
      IteratePreserves(step, inv, c, n - 1);
    }
  }

  /** One more step after `n` good ones. */
  lemma IterateNext<T>(step: T -> Result<T>, c: T, n: int, v: T)
    requires 0 <= n && Iterate(step, c, n) == Ok(v)
    ensures Iterate(step, c, n + 1) == step(v)
  {
  }

  /** The value after the last step that did not raise: what an in-place run leaves behind. */
  function Reached<T>(step: T -> Result<T>, c: T, n: int): (r: T)
    ensures Iterate(step, c, n).Ok? ==> r == Iterate(step, c, n).value
    decreases n
  {
    if Iterate(step, c, n).Ok? then Iterate(step, c, n).value else Reached(step, c, n - 1)
  }

  /** When the step after `n` good steps raises, every longer run leaves the value of those `n` steps. */
  lemma {:induction false} ReachedBeforeCrash<T>(step: T -> Result<T>, c: T, n: int, v: T, m: int)
    requires 0 <= n < m
    requires Iterate(step, c, n) == Ok(v) && step(v).Crash?
    ensures Iterate(step, c, m) == step(v)
    ensures Reached(step, c, m) == v
    decreases m
  {
    IterateNext(step, c, n, v);
    IterateCrashPersists(step, c, n + 1, m);
    if m - 1 > n {
      ReachedBeforeCrash(step, c, n, v, m - 1);
    }
  }

  /** `for n in range(count): c = step(c)`, stopping at the first exception. */
  method RunSteps<T>(step: T -> Result<T>, c0: T, count: int) returns (r: Result<T>)
    ensures r == Iterate(step, c0, count)
  {
    var c := c0;
    var n := 0;
    while n < count
      invariant n <= count || n == 0
      invariant Iterate(step, c0, n) == Ok(c)
    {
      var next := step(c);
      if next.Crash? {
        IterateCrashPersists(step, c0, n + 1, count);
        return next;
      }
      c := next.value;
      n := n + 1;
    }
    r := Ok(c);
  }
}

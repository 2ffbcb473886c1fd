/**
 * The one counting rule both calculators use: the number of repetitions
 * of an action worth `actionXp` experience that is reported for an
 * experience gap is `gap // actionXp + 1`. Every divisor in the source is
 * a positive constant, where Python's floor division and Dafny's
 * Euclidean division agree.
 */
module Progression {

  /**
   * `gap // actionXp + 1`: the least number of actions whose experience
   * strictly exceeds `gap`. A gap that is an exact multiple of `actionXp`
   * therefore gets one action more than it strictly needs.
   */
  function ActionsToCross(gap: int, actionXp: int): (n: int)
    requires actionXp > 0
    ensures (n - 1) * actionXp <= gap < n * actionXp
  {
    var q := gap / actionXp;
    assert q * actionXp + gap % actionXp == gap;
    assert (q + 1) * actionXp == q * actionXp + actionXp;
    q + 1
  }

  /** The bounds of `ActionsToCross` pin its result down: no other count satisfies them. */
  lemma ActionsUnique(gap: int, actionXp: int, m: int)
    requires actionXp > 0
    requires (m - 1) * actionXp <= gap < m * actionXp
    ensures m == ActionsToCross(gap, actionXp)
  {
    var n := ActionsToCross(gap, actionXp);
    if m < n {
      assert m * actionXp <= (n - 1) * actionXp by { MulMonotone(m, n - 1, actionXp); }
      assert false;
    } else if n < m {
      assert n * actionXp <= (m - 1) * actionXp by { MulMonotone(n, m - 1, actionXp); }
      assert false;
    }
  }

  /** A gap that is not negative always costs at least one action. */
  lemma ActionsAtLeastOne(gap: int, actionXp: int)
    requires actionXp > 0
    requires gap >= 0
    ensures ActionsToCross(gap, actionXp) >= 1
  {
    var n := ActionsToCross(gap, actionXp);
    if n <= 0 {
      MulMonotone(n, 0, actionXp);
      assert false;
    }
  }

  /** An exact multiple `k * actionXp` is reported as `k + 1` actions. */
  lemma ActionsExactMultiple(k: int, actionXp: int)
    requires actionXp > 0
    ensures ActionsToCross(k * actionXp, actionXp) == k + 1
  {
    assert (k + 1) * actionXp == k * actionXp + actionXp;
    ActionsUnique(k * actionXp, actionXp, k + 1);
  }

  /** A larger gap never costs fewer actions. */
  lemma ActionsMonotone(gap1: int, gap2: int, actionXp: int)
    requires actionXp > 0
    requires gap1 <= gap2
    ensures ActionsToCross(gap1, actionXp) <= ActionsToCross(gap2, actionXp)
  {
    var n1, n2 := ActionsToCross(gap1, actionXp), ActionsToCross(gap2, actionXp);
    if n2 < n1 {
      MulMonotone(n2, n1 - 1, actionXp);
      assert false;
    }
  }

  /** A negative gap is reported as zero or fewer actions. */
  lemma ActionsNotPositive(gap: int, actionXp: int)
    requires actionXp > 0
    requires gap < 0
    ensures ActionsToCross(gap, actionXp) <= 0
  {
    var n := ActionsToCross(gap, actionXp);
    if n > 0 {
      MulMonotone(0, n - 1, actionXp);
      assert false;
    }
  }

  /** Multiplying by a positive factor keeps the order of its operands. */
  lemma MulMonotone(a: int, b: int, c: int)
    requires a <= b
    requires c > 0
    ensures a * c <= b * c
  {
    assert b * c - a * c == (b - a) * c;
  }
}

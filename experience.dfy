/**
 * The level/experience conversion the calculators import from
 * calcs/experience.py. That file is not part of this model: its two
 * functions and its `LEVEL_99` constant are carried as a value of type
 * `Table`, and every property the calculators need of them is stated as
 * an explicit predicate on that value.
 */
module Experience {

  /** `level_to_xp`, `xp_to_level` and `LEVEL_99`. */
  datatype Table = Table(levelToXp: int -> int, xpToLevel: int -> int, level99: int)

  /** `level_to_xp` grows strictly with the level over the levels 1 to 99. */
  ghost predicate Increasing(t: Table)
  {
    forall a: int, b: int :: 1 <= a < b <= 99 ==> t.levelToXp(a) < t.levelToXp(b)
  }

  /** `xp_to_level(xp)` names the level whose experience band holds `xp`. */
  ghost predicate IsFloorLevel(t: Table, xp: int)
  {
    t.levelToXp(t.xpToLevel(xp)) <= xp < t.levelToXp(t.xpToLevel(xp) + 1)
  }

  /** `LEVEL_99` is the experience that level 99 requires. */
  ghost predicate Level99Agrees(t: Table)
  {
    t.level99 == t.levelToXp(99)
  }

  /** A strictly increasing table is monotone on any pair of levels from 1 to 99. */
  lemma Monotone(t: Table, a: int, b: int)
    requires Increasing(t)
    requires 1 <= a <= b <= 99
    ensures t.levelToXp(a) <= t.levelToXp(b)
  {
    if a < b {
      assert t.levelToXp(a) < t.levelToXp(b);
    }
  }
}

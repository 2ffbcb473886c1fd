# GE_Bot progression calculators in Dafny

This project models the two progression calculators of the GE_Bot chat bot
for Old School RuneScape:

- The **Agility rooftop-course calculator** (`calcs/agility.py`). Nine rooftop
  courses each unlock at a minimum Agility level and give a fixed experience per
  lap. An `Agility` object picks the best course the player's level unlocks. It
  records that course's lap experience and the name of the course that comes
  next. It counts laps to the next level and laps to the next course.
- The **High Level Alchemy calculator** (`calcs/alchemy.py`). Each cast gives
  65 Magic experience. It counts casts to the next level and to level 99, and
  prices them at the looked-up price per cast.

Both calculators count actions with the same rule, `gap // action_xp + 1`.
`Progression.ActionsToCross` models that rule once. Its contract says what the
count means: the least number of actions whose experience strictly exceeds the
gap. So a gap that is an exact multiple gets one action more than it strictly
needs.

Modules:

- `Wrappers` (wrappers.dfy): `Option` and `Result`.
- `Experience` (experience.dfy): `calcs/experience.py` is not part of this
  model. Its `level_to_xp`, `xp_to_level` and `LEVEL_99` are carried as a
  `Table` value. Properties of them appear as explicit preconditions:
  `Increasing`, `IsFloorLevel` and `Level99Agrees`.
- `Progression` (progression.dfy): the shared counting rule and its lemmas.
- `AgilityCalc` (agility.dfy): the courses, and the class `Agility`. The source
  chooses a course with an if/elif ladder, and `Agility.DetermineCourse` keeps
  that ladder. It is proved against `CurrentCourse` and `NextCourse`, which scan
  the ordered course list `Courses`. Those scans are in turn proved to return
  the course with the largest minimum level reached and the course with the
  smallest minimum level not yet reached.
- `AlchemyCalc` (alchemy.dfy): the value `Alchemy(magicXp, currentPrice)` and
  its pure calculations.

A Python attribute that has not been assigned yet is modelled as `None`. This
applies to `lap_xp` and `next_course` before `determine_course` runs. Reading an
unassigned `lap_xp` raises an error in Python; here it returns
`Err(LapXpUnset)`. This happens in `laps_to_level_up` before any course has been
chosen. It also happens in `laps_to_next_course` below level 10, where the
ladder falls through to its last branch.

Three facts about the source shape the model:

- The source has no guard for a non-positive lap or cast experience, because
  every divisor is a positive constant.
- There is no cap past level 99. From `LEVEL_99 + 1` on, the cast count to
  level 99 is zero or negative, and a player exactly at `LEVEL_99` is still
  told one more cast; see `AlchemyCalc.AlchsToLevel99PastCap`.
- The course is chosen by the fixed if/elif ladder. `HighestUnlocked` and
  `FirstLocked` serve only as its specification.

## Model

| member | source | states |
|---|---|---|
| `Progression.ActionsToCross` | calcs/agility.py:80 | `gap // xp + 1` is the least action count n with (n-1)*xp <= gap < n*xp |
| `Progression.ActionsUnique` | calcs/alchemy.py:27 | no other count meets those bounds, so the bounds determine the `// + 1` result |
| `Progression.ActionsAtLeastOne` | calcs/alchemy.py:27 | a gap that is not negative always costs at least one action |
| `Progression.ActionsExactMultiple` | calcs/alchemy.py:40 | a gap of exactly k actions is reported as k + 1 actions |
| `Progression.ActionsMonotone` | calcs/alchemy.py:39-40 | a larger gap never costs fewer actions |
| `Progression.ActionsNotPositive` | calcs/alchemy.py:39-40 | a negative gap gives zero or fewer actions, because floor division has no guard |
| `AgilityCalc.CourseConstants` | calcs/agility.py:6-23 | each course's minimum level and lap experience, exactly as the nine `*_LEVEL`/`*_LAP` constants; every lap gives positive experience |
| `AgilityCalc.CourseNames` | calcs/agility.py:35-72 | the names the ladder returns and stores for the nine courses |
| `AgilityCalc.TopConstants` | calcs/agility.py:71-101 | after Ardougne the next target is named "level 99" and laps aim at level 99 |
| `AlchemyCalc.HighAlchXpValue` | calcs/alchemy.py:7 | 65 experience per cast, a positive divisor |
| `AgilityCalc.CoursesAscending` | calcs/agility.py:6-22 | the nine courses' minimum levels strictly increase in ladder order |
| `AgilityCalc.HighestUnlockedCorrect` | calcs/agility.py:32-72 | the scan of an ascending course list returns the reached course with the largest minimum level, and nothing exactly when no course is reached |
| `AgilityCalc.FirstLockedCorrect` | calcs/agility.py:32-72 | the scan of an ascending course list returns the unreached course with the smallest minimum level, and nothing exactly when every course is reached |
| `AgilityCalc.CurrentCourseCorrect` | calcs/agility.py:32-72 | no course below level 10; otherwise the current course is the one whose minimum level is the largest threshold at or below the level |
| `AgilityCalc.NextCourseCorrect` | calcs/agility.py:32-72 | no next course from level 90 on; otherwise the next course is the one with the smallest threshold above the level |
| `AgilityCalc.CurrentCourseIs` | calcs/agility.py:37-72 | any course meeting the largest-threshold description is the one reported, so the choice is unique |
| `AgilityCalc.NextCourseIs` | calcs/agility.py:34-68 | any course meeting the next-threshold description is the one reported |
| `AgilityCalc.BelowDraynor` | calcs/agility.py:34-36 | below level 10 there is no course and `next_course` is "Draynor" |
| `AgilityCalc.ArdougneFromNinety` | calcs/agility.py:69-72 | from level 90 on, 99 and beyond included, the course is Ardougne, `next_course` is "level 99" and the lap target is level 99 |
| `AgilityCalc.NextFollowsCurrent` | calcs/agility.py:37-68 | the next course is the course listed right after the current one |
| `AgilityCalc.TargetAboveLevel` | calcs/agility.py:84-101 | below level 99, the level `laps_to_next_course` aims at is above the player's level |
| `AgilityCalc.LapsToNextCourseAtLeastLapsToLevelUp` | calcs/agility.py:78-101 | for levels 10 to 98 and an XP table increasing over levels 1 to 99, the laps to the next course are at least the laps to the next level |
| `AgilityCalc.OffLadder` | calcs/agility.py:84-100 | a course matching none of the first eight names is Ardougne or absent, so the last branch serves Ardougne and levels below 10 |
| `AgilityCalc.AtTop` | calcs/agility.py:100-101 | from Ardougne the target is `level_to_xp(99)` |
| `AgilityCalc.Agility.constructor` | calcs/agility.py:29-30 | a calculator over looked-up level and experience, with `lap_xp` and `next_course` not yet assigned |
| `AgilityCalc.Agility.DetermineCourse` | calcs/agility.py:32-72 | returns the current course's name; sets `lap_xp` to its lap constant and leaves it unchanged below level 10; sets `next_course` to the next course's name or "level 99" |
| `AgilityCalc.Agility.DetermineCourseAgain` | calcs/agility.py:84-98 | on a state that `determine_course` produced, calling it again returns the current course's name and leaves `lap_xp` and `next_course` unchanged |
| `AgilityCalc.Agility.XpNeededToLevelUp` | calcs/agility.py:74-76 | gaining the result takes the player's experience exactly to `level_to_xp(level + 1)`; positive exactly when the player is below it |
| `AgilityCalc.Agility.LapsToLevelUp` | calcs/agility.py:78-80 | an error exactly when `lap_xp` is unassigned; otherwise the least lap count whose experience exceeds the gap to the next level |
| `AgilityCalc.Agility.LapsToNextCourse` | calcs/agility.py:82-101 | an error below level 10; otherwise the least count of current-course laps whose experience exceeds the gap to the next course's minimum level, or to level 99 from Ardougne; the fields end as after `determine_course` |
| `AlchemyCalc.Alchemy.AlchsToLevelUp` | calcs/alchemy.py:24-27 | the least cast count whose 65-XP casts exceed the gap from `magic_xp` to the next level's experience |
| `AlchemyCalc.Alchemy.AlchsToLevel99` | calcs/alchemy.py:37-40 | the least cast count whose 65-XP casts exceed the gap from `magic_xp` to `LEVEL_99` |
| `AlchemyCalc.Alchemy.PriceToLevelUp` | calcs/alchemy.py:29-31 | divides by the price back into the cast count to level up, and is 0 at price 0; not negative for a price and count that are not |
| `AlchemyCalc.Alchemy.PriceToLevel99` | calcs/alchemy.py:42-44 | divides by the price back into the cast count to level 99, and is 0 at price 0; not negative for a price and count that are not |
| `AlchemyCalc.AlchsToLevelUpCovers` | calcs/alchemy.py:24-27 | when `xp_to_level` places `magic_xp` in its band, the gap is positive, at least one cast is needed and the casts exceed the gap |
| `AlchemyCalc.AlchsExactMultiple` | calcs/alchemy.py:27 | a gap of exactly k casts is reported as k + 1 casts (gap 130 gives 3) |
| `AlchemyCalc.AlchsToLevel99AtLeastOne` | calcs/alchemy.py:37-40 | at or below `LEVEL_99`, at least one cast is counted |
| `AlchemyCalc.AlchsToLevel99Antitone` | calcs/alchemy.py:39-40 | more Magic experience never means more casts to level 99 |
| `AlchemyCalc.AlchsToLevel99PastCap` | calcs/alchemy.py:39-40 | from `LEVEL_99 + 1` on the count is zero or negative: there is no guard past the cap |
| `AlchemyCalc.AlchsToLevel99PositiveIff` | calcs/alchemy.py:37-40 | at least one cast is counted exactly when `magic_xp` is at or below `LEVEL_99` |
| `AlchemyCalc.AlchsAtLevel99` | calcs/alchemy.py:39-40 | a player exactly at `LEVEL_99` is still told one more cast |
| `AlchemyCalc.AlchsToLevelUpAtMostTo99` | calcs/alchemy.py:24-40 | for levels 1 to 98, with a table increasing over levels 1 to 99 and `LEVEL_99 = level_to_xp(99)`, the casts to level up are at most the casts to 99 |
| `AlchemyCalc.PriceToLevelUpAtLeastOneCast` | calcs/alchemy.py:29-31 | with a price that is not negative and `magic_xp` in its band, levelling up costs at least one cast's price |
| `AlchemyCalc.PriceToLevel99AtLeastOneCast` | calcs/alchemy.py:42-44 | with a price that is not negative and `magic_xp` at or below `LEVEL_99`, reaching 99 costs at least one cast's price |

## Left out

- `calcs/experience.py` is not part of this model. `level_to_xp`, `xp_to_level` and `LEVEL_99` are parameters of type `Experience.Table`. The game's experience formula is not reproduced, and properties of the table are preconditions.
- `Alchemy.fetch` and the inherited `Hiscore`/`GrandExchange` initialisation are network lookups. The looked-up Magic experience, Agility level, Agility experience and price per cast are inputs of the model.
- `time_to_level_up` and `time_to_level_99` divide by `ALCHS_PER_HR` in floating point, which is not modelled.
- `cogs/levels.py` formats chat messages and performs lookups. It has no computation of its own here and is not part of this model.
- Python attributes can be reassigned from outside the class. `Agility.Valid` covers only the states the modelled methods reach, where an assigned `lap_xp` always matches the player's current course.

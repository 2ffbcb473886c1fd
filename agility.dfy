/**
 * The Agility rooftop-course calculator of calcs/agility.py: nine courses,
 * each unlocked at a minimum Agility level and worth a fixed experience per
 * lap, and an `Agility` object that picks the best course a player can run
 * and counts the laps to the next level and to the next course.
 */
module AgilityCalc {
  import opened Wrappers
  import opened Experience
  import opened Progression

  /** The rooftop courses, in the order they unlock. */
  datatype Course = Draynor | AlKharid | Varrock | Canifis | Falador | Seers | Pollniveach | Rellekka | Ardougne
  {
    /** The `*_LEVEL` constant: the Agility level that unlocks the course. */
    function MinLevel(): int
    {
      match this
      case Draynor => 10
      case AlKharid => 20
      case Varrock => 30
      case Canifis => 40
      case Falador => 50
      case Seers => 60
      case Pollniveach => 70
      case Rellekka => 80
      case Ardougne => 90
    }

    /** The `*_LAP` constant: the experience one lap of the course gives. */
    function LapXp(): int
    {
      match this
      case Draynor => 120
      case AlKharid => 180
      case Varrock => 238
      case Canifis => 240
      case Falador => 440
      case Seers => 570
      case Pollniveach => 890
      case Rellekka => 780
      case Ardougne => 793
    }

    /** The name the calculator reports for the course. */
    function Name(): string
    {
      match this
      case Draynor => "Draynor"
      case AlKharid => "Al Kharid"
      case Varrock => "Varrock"
      case Canifis => "Canifis"
      case Falador => "Falador"
      case Seers => "Seers"
      case Pollniveach => "Pollniveach"
      case Rellekka => "Rellekka"
      case Ardougne => "Ardougne"
    }
  }

  /** The text `next_course` holds once the top course is reached. */
  const TopTarget: string := "level 99"

  /** The level `laps_to_next_course` aims at from the top course. */
  const TopLevel: int := 99

  /** Every course, by ascending minimum level. */
  const Courses: seq<Course> := [Draynor, AlKharid, Varrock, Canifis, Falador, Seers, Pollniveach, Rellekka, Ardougne]

  /** Minimum levels strictly increase along `cs`. */
  ghost predicate Ascending(cs: seq<Course>)
  {
    forall i, j :: 0 <= i < j < |cs| ==> cs[i].MinLevel() < cs[j].MinLevel()
  }

  /** `c` is the course with the largest minimum level that `level` reaches. */
  ghost predicate IsCurrent(c: Course, level: int)
  {
    c.MinLevel() <= level && forall d: Course :: d.MinLevel() <= level ==> d.MinLevel() <= c.MinLevel()
  }

  /** `c` is the course with the smallest minimum level that `level` does not reach yet. */
  ghost predicate IsNext(c: Course, level: int)
  {
    level < c.MinLevel() && forall d: Course :: level < d.MinLevel() ==> c.MinLevel() <= d.MinLevel()
  }

  /** Table-driven course choice: the last course of `cs` whose minimum level `level` reaches. */
  ghost function HighestUnlocked(cs: seq<Course>, level: int): Option<Course>
  {
    if cs == [] then None
    else if cs[|cs| - 1].MinLevel() <= level then Some(cs[|cs| - 1])
    else HighestUnlocked(cs[..|cs| - 1], level)
  }

  /** Table-driven next unlock: the first course of `cs` whose minimum level `level` does not reach. */
  ghost function FirstLocked(cs: seq<Course>, level: int): Option<Course>
  {
    if cs == [] then None
    else if level < cs[0].MinLevel() then Some(cs[0])
    else FirstLocked(cs[1..], level)
  }

  /** The course a player at `level` runs, if any. */
  ghost function CurrentCourse(level: int): Option<Course>
  {
    HighestUnlocked(Courses, level)
  }

  /** The course a player at `level` unlocks next, if any is left. */
  ghost function NextCourse(level: int): Option<Course>
  {
    FirstLocked(Courses, level)
  }

  /** What `determine_course` returns: the current course's name, or nothing below the first course. */
  ghost function CourseName(c: Option<Course>): Option<string>
  {
    match c
    case None => None
    case Some(course) => Some(course.Name())
  }

  /** What `determine_course` stores in `next_course`. */
  ghost function NextCourseName(level: int): string
  {
    match NextCourse(level)
    case None => TopTarget
    case Some(n) => n.Name()
  }

  /** The level whose experience `laps_to_next_course` aims at from a course. */
  ghost function TargetLevel(level: int): int
  {
    match NextCourse(level)
    case None => TopLevel
    case Some(n) => n.MinLevel()
  }

  /** Each course's minimum level and lap experience, as the `*_LEVEL` and `*_LAP` constants give them. */
  lemma CourseConstants()
    ensures Draynor.MinLevel() == 10 && Draynor.LapXp() == 120
    ensures AlKharid.MinLevel() == 20 && AlKharid.LapXp() == 180
    ensures Varrock.MinLevel() == 30 && Varrock.LapXp() == 238
    ensures Canifis.MinLevel() == 40 && Canifis.LapXp() == 240
    ensures Falador.MinLevel() == 50 && Falador.LapXp() == 440
    ensures Seers.MinLevel() == 60 && Seers.LapXp() == 570
    ensures Pollniveach.MinLevel() == 70 && Pollniveach.LapXp() == 890
    ensures Rellekka.MinLevel() == 80 && Rellekka.LapXp() == 780
    ensures Ardougne.MinLevel() == 90 && Ardougne.LapXp() == 793
    ensures forall c: Course :: c.LapXp() > 0
  {
  }

  /** The names the calculator reports for the courses. */
  lemma CourseNames()
    ensures Draynor.Name() == "Draynor" && AlKharid.Name() == "Al Kharid"
    ensures Varrock.Name() == "Varrock" && Canifis.Name() == "Canifis"
    ensures Falador.Name() == "Falador" && Seers.Name() == "Seers"
    ensures Pollniveach.Name() == "Pollniveach" && Rellekka.Name() == "Rellekka"
    ensures Ardougne.Name() == "Ardougne"
  {
  }

  /** After Ardougne the calculator names "level 99" as the next target and aims at level 99. */
  lemma TopConstants()
    ensures TopTarget == "level 99" && TopLevel == 99
  {
  }

  lemma CoursesAscending()
    ensures Ascending(Courses)
  {
  }

  lemma EveryCourseListed(c: Course)
    ensures c in Courses
  {
    match c
    case Draynor => assert Courses[0] == c;
    case AlKharid => assert Courses[1] == c;
    case Varrock => assert Courses[2] == c;
    case Canifis => assert Courses[3] == c;
    case Falador => assert Courses[4] == c;
    case Seers => assert Courses[5] == c;
    case Pollniveach => assert Courses[6] == c;
    case Rellekka => assert Courses[7] == c;
    case Ardougne => assert Courses[8] == c;
  }

  /** Two courses with the same minimum level are the same course. */
  lemma MinLevelInjective(c: Course, d: Course)
    requires c.MinLevel() == d.MinLevel()
    ensures c == d
  {
  }

  /** Two courses with the same name are the same course. */
  lemma NameInjective(c: Course, d: Course)
    requires c.Name() == d.Name()
    ensures c == d
  {
  }

  /** On an ascending list the scan finds the highest reached course of the list. */
  lemma {:induction false} HighestUnlockedCorrect(cs: seq<Course>, level: int)
    requires Ascending(cs)
    ensures HighestUnlocked(cs, level).None? <==> forall d :: d in cs ==> level < d.MinLevel()
    ensures HighestUnlocked(cs, level).Some? ==>
              var c := HighestUnlocked(cs, level).value;
              c in cs && c.MinLevel() <= level &&
              forall d :: d in cs && d.MinLevel() <= level ==> d.MinLevel() <= c.MinLevel()
  {
    if cs != [] {
      var last := cs[|cs| - 1];
      var init := cs[..|cs| - 1];
      assert cs == init + [last];
      forall d | d in init ensures d.MinLevel() < last.MinLevel() {
        var i :| 0 <= i < |init| && init[i] == d;
        assert cs[i] == d;
      }
      if last.MinLevel() > level {
        HighestUnlockedCorrect(init, level);
      }
    }
  }

  /** On an ascending list the scan finds the lowest course of the list not reached yet. */
  lemma {:induction false} FirstLockedCorrect(cs: seq<Course>, level: int)
    requires Ascending(cs)
    ensures FirstLocked(cs, level).None? <==> forall d :: d in cs ==> d.MinLevel() <= level
    ensures FirstLocked(cs, level).Some? ==>
              var c := FirstLocked(cs, level).value;
              c in cs && level < c.MinLevel() &&
              forall d :: d in cs && level < d.MinLevel() ==> c.MinLevel() <= d.MinLevel()
  {
    if cs != [] {
      var first := cs[0];
      var rest := cs[1..];
      assert cs == [first] + rest;
      forall d | d in rest ensures first.MinLevel() < d.MinLevel() {
        var i :| 0 <= i < |rest| && rest[i] == d;
        assert cs[i + 1] == d;
      }
      if first.MinLevel() <= level {
        FirstLockedCorrect(rest, level);
      }
    }
  }

  /**
   * The course choice: no course below level 10, otherwise the course
   * with the largest minimum level the player reaches.
   */
  lemma CurrentCourseCorrect(level: int)
    ensures CurrentCourse(level).None? <==> level < Draynor.MinLevel()
    ensures CurrentCourse(level).Some? ==> IsCurrent(CurrentCourse(level).value, level)
  {
    CoursesAscending();
    HighestUnlockedCorrect(Courses, level);
    assert Courses[0] == Draynor;
    forall d: Course ensures d in Courses {
      EveryCourseListed(d);
    }
  }

  /**
   * The next unlock: none from level 90 on, otherwise the course with the
   * smallest minimum level the player does not reach yet.
   */
  lemma NextCourseCorrect(level: int)
    ensures NextCourse(level).None? <==> Ardougne.MinLevel() <= level
    ensures NextCourse(level).Some? ==> IsNext(NextCourse(level).value, level)
  {
    CoursesAscending();
    FirstLockedCorrect(Courses, level);
    assert Courses[8] == Ardougne;
    forall d: Course ensures d in Courses {
      EveryCourseListed(d);
    }
  }

  /** Any course that is current at `level` is the one `CurrentCourse` reports. */
  lemma CurrentCourseIs(c: Course, level: int)
    requires IsCurrent(c, level)
    ensures CurrentCourse(level) == Some(c)
  {
    CurrentCourseCorrect(level);
    MinLevelInjective(c, CurrentCourse(level).value);
  }

  /** Any course that is next at `level` is the one `NextCourse` reports. */
  lemma NextCourseIs(c: Course, level: int)
    requires IsNext(c, level)
    ensures NextCourse(level) == Some(c)
  {
    NextCourseCorrect(level);
    MinLevelInjective(c, NextCourse(level).value);
  }

  /** From level 90 on, including 99 and beyond, the player runs Ardougne and aims at level 99. */
  lemma ArdougneFromNinety(level: int)
    requires level >= Ardougne.MinLevel()
    ensures CurrentCourse(level) == Some(Ardougne)
    ensures NextCourseName(level) == TopTarget && TargetLevel(level) == TopLevel
  {
    CurrentCourseIs(Ardougne, level);
    NextCourseCorrect(level);
  }

  /** Below level 10 there is no course, and Draynor is the next one. */
  lemma BelowDraynor(level: int)
    requires level < Draynor.MinLevel()
    ensures CurrentCourse(level) == None
    ensures NextCourse(level) == Some(Draynor) && NextCourseName(level) == "Draynor"
  {
    CurrentCourseCorrect(level);
    NextCourseIs(Draynor, level);
  }

  /** The next course is the one listed right after the current course. */
  lemma NextFollowsCurrent(level: int, i: nat)
    requires i + 1 < |Courses|
    requires CurrentCourse(level) == Some(Courses[i])
    ensures NextCourse(level) == Some(Courses[i + 1])
  {
    CoursesAscending();
    CurrentCourseCorrect(level);
    var n := Courses[i + 1];
    forall d: Course | level < d.MinLevel() ensures n.MinLevel() <= d.MinLevel() {
      EveryCourseListed(d);
      var j :| 0 <= j < |Courses| && Courses[j] == d;
    }
    NextCourseIs(n, level);
  }

  /**
   * Below level 99, on the course a player runs, the laps to the next
   * course are never fewer than the laps to the next level.
   */
  lemma LapsToNextCourseAtLeastLapsToLevelUp(t: Table, level: int, xp: int)
    requires Increasing(t)
    requires Draynor.MinLevel() <= level < TopLevel
    ensures CurrentCourse(level).Some?
    ensures var lap := CurrentCourse(level).value.LapXp();
            ActionsToCross(t.levelToXp(level + 1) - xp, lap) <=
            ActionsToCross(t.levelToXp(TargetLevel(level)) - xp, lap)
  {
    CurrentCourseCorrect(level);
    TargetAboveLevel(level);
    Monotone(t, level + 1, TargetLevel(level));
    var lap := CurrentCourse(level).value.LapXp();
    ActionsMonotone(t.levelToXp(level + 1) - xp, t.levelToXp(TargetLevel(level)) - xp, lap);
  }

  /** A course reported under none of the first eight names is Ardougne. */
  lemma OffLadder(cur: Option<Course>)
    requires CourseName(cur) != Some(Draynor.Name()) && CourseName(cur) != Some(AlKharid.Name())
    requires CourseName(cur) != Some(Varrock.Name()) && CourseName(cur) != Some(Canifis.Name())
    requires CourseName(cur) != Some(Falador.Name()) && CourseName(cur) != Some(Seers.Name())
    requires CourseName(cur) != Some(Pollniveach.Name()) && CourseName(cur) != Some(Rellekka.Name())
    ensures cur.None? || cur == Some(Ardougne)
  {
  }

  /** A player on Ardougne aims at level 99. */
  lemma AtTop(level: int)
    requires CurrentCourse(level) == Some(Ardougne)
    ensures TargetLevel(level) == TopLevel
  {
    CurrentCourseCorrect(level);
    NextCourseCorrect(level);
  }

  /** The course `laps_to_next_course` aims at is always above the player's level while one is left below 99. */
  lemma TargetAboveLevel(level: int)
    requires level < TopLevel
    ensures level < TargetLevel(level)
  {
    NextCourseCorrect(level);
  }

  /** Why a lap count cannot be given: `lap_xp` has not been assigned. */
  datatype AgilityError = LapXpUnset

  /**
   * An `Agility` calculator. `agilityLevel` and `agilityXp` come from the
   * hiscore lookup; `lapXp` and `nextCourse` are the attributes that
   * `DetermineCourse` assigns, absent until it does.
   */
  class Agility {
    var agilityLevel: int
    var agilityXp: int
    var lapXp: Option<int>
    var nextCourse: Option<string>

    /** Once assigned, `lapXp` and `nextCourse` agree with the player's level. */
    ghost predicate Valid()
      reads this
    {
      (lapXp.Some? ==> CurrentCourse(agilityLevel).Some? && lapXp.value == CurrentCourse(agilityLevel).value.LapXp()) &&
      (nextCourse.Some? ==> nextCourse.value == NextCourseName(agilityLevel))
    }

    /** A calculator over looked-up hiscore values, before any course is chosen. */
    constructor (level: int, xp: int)
      ensures Valid()
      ensures agilityLevel == level && agilityXp == xp
      ensures lapXp == None && nextCourse == None
    {
      agilityLevel := level;
      agilityXp := xp;
      lapXp := None;
      nextCourse := None;
    }

    /**
     * `determine_course`: returns the highest course the player's level
     * unlocks, stores its lap experience, and stores the name of the course
     * after it ("level 99" after Ardougne). Below level 10 it returns
     * nothing, stores "Draynor" and leaves `lapXp` as it was.
     */
    method DetermineCourse() returns (r: Option<string>)
      requires Valid()
      modifies this`lapXp, this`nextCourse
      ensures Valid()
      ensures r == CourseName(CurrentCourse(agilityLevel))
      ensures lapXp == match CurrentCourse(agilityLevel)
                       case None => old(lapXp)
                       case Some(c) => Some(c.LapXp())
      ensures nextCourse == Some(NextCourseName(agilityLevel))
    {
      if agilityLevel < Draynor.MinLevel() {
        CurrentCourseCorrect(agilityLevel);
        NextCourseIs(Draynor, agilityLevel);
        nextCourse := Some(Draynor.Name());
        r := None;
      } else if agilityLevel < AlKharid.MinLevel() {
        Chosen(Draynor, AlKharid);
        lapXp := Some(Draynor.LapXp());
        nextCourse := Some(AlKharid.Name());
        r := Some(Draynor.Name());
      } else if agilityLevel < Varrock.MinLevel() {
        Chosen(AlKharid, Varrock);
        lapXp := Some(AlKharid.LapXp());
        nextCourse := Some(Varrock.Name());
        r := Some(AlKharid.Name());
      } else if agilityLevel < Canifis.MinLevel() {
        Chosen(Varrock, Canifis);
        lapXp := Some(Varrock.LapXp());
        nextCourse := Some(Canifis.Name());
        r := Some(Varrock.Name());
      } else if agilityLevel < Falador.MinLevel() {
        Chosen(Canifis, Falador);
        lapXp := Some(Canifis.LapXp());
        nextCourse := Some(Falador.Name());
        r := Some(Canifis.Name());
      } else if agilityLevel < Seers.MinLevel() {
        Chosen(Falador, Seers);
        lapXp := Some(Falador.LapXp());
        nextCourse := Some(Seers.Name());
        r := Some(Falador.Name());
      } else if agilityLevel < Pollniveach.MinLevel() {
        Chosen(Seers, Pollniveach);
        lapXp := Some(Seers.LapXp());
        nextCourse := Some(Pollniveach.Name());
        r := Some(Seers.Name());
      } else if agilityLevel < Rellekka.MinLevel() {
        Chosen(Pollniveach, Rellekka);
        lapXp := Some(Pollniveach.LapXp());
        nextCourse := Some(Rellekka.Name());
        r := Some(Pollniveach.Name());
      } else if agilityLevel < Ardougne.MinLevel() {
        Chosen(Rellekka, Ardougne);
        lapXp := Some(Rellekka.LapXp());
        nextCourse := Some(Ardougne.Name());
        r := Some(Rellekka.Name());
      } else {
        ArdougneFromNinety(agilityLevel);
        lapXp := Some(Ardougne.LapXp());
        nextCourse := Some(TopTarget);
        r := Some(Ardougne.Name());
      }
    }

    /** In the ladder band `[c.MinLevel(), n.MinLevel())` the player runs `c` and unlocks `n` next. */
    lemma Chosen(c: Course, n: Course)
      requires c.MinLevel() <= agilityLevel < n.MinLevel()
      requires forall d: Course :: d.MinLevel() <= c.MinLevel() || n.MinLevel() <= d.MinLevel()
      ensures CurrentCourse(agilityLevel) == Some(c)
      ensures NextCourse(agilityLevel) == Some(n)
    {
      CurrentCourseIs(c, agilityLevel);
      NextCourseIs(n, agilityLevel);
    }

    /**
     * `determine_course` is idempotent: called again on the state a first
     * call produced, it returns the same course and changes no field, which
     * `laps_to_next_course` relies on when it calls it again and again.
     */
    method DetermineCourseAgain() returns (r: Option<string>)
      requires Valid()
      requires nextCourse == Some(NextCourseName(agilityLevel))
      requires CurrentCourse(agilityLevel).Some? ==> lapXp == Some(CurrentCourse(agilityLevel).value.LapXp())
      modifies this`lapXp, this`nextCourse
      ensures Valid()
      ensures r == CourseName(CurrentCourse(agilityLevel))
      ensures lapXp == old(lapXp) && nextCourse == old(nextCourse)
    {
      r := DetermineCourse();
    }

    /** A player whose course is reported by name as `c` runs `c` and unlocks `n` next. */
    lemma Running(c: Course, n: Course)
      requires CourseName(CurrentCourse(agilityLevel)) == Some(c.Name())
      requires c.MinLevel() < n.MinLevel()
      requires forall d: Course :: d.MinLevel() <= c.MinLevel() || n.MinLevel() <= d.MinLevel()
      ensures CurrentCourse(agilityLevel) == Some(c)
      ensures NextCourse(agilityLevel) == Some(n)
    {
      CurrentCourseCorrect(agilityLevel);
      NameInjective(CurrentCourse(agilityLevel).value, c);
      NextCourseIs(n, agilityLevel);
    }

    /** `xp_needed_to_level_up`: the experience that takes the player exactly to the next level. */
    function XpNeededToLevelUp(t: Table): (gap: int)
      reads this
      ensures agilityXp + gap == t.levelToXp(agilityLevel + 1)
      ensures gap > 0 <==> agilityXp < t.levelToXp(agilityLevel + 1)
    {
      t.levelToXp(agilityLevel + 1) - agilityXp
    }

    /**
     * `laps_to_level_up`: laps of the current course whose experience
     * passes the gap to the next level; fails while no course has been
     * chosen, because `lap_xp` is then unassigned.
     */
    function LapsToLevelUp(t: Table): (r: Result<int, AgilityError>)
      reads this
      requires Valid()
      ensures r.Err? <==> lapXp.None?
      ensures r.Ok? ==> (r.value - 1) * lapXp.value <= XpNeededToLevelUp(t) < r.value * lapXp.value
    {
      match lapXp
      case None => Err(LapXpUnset)
      case Some(lap) => Ok(ActionsToCross(XpNeededToLevelUp(t), lap))
    }

    /**
     * `laps_to_next_course`: laps of the current course whose experience
     * passes the gap to the next course's minimum level, or to level 99 from
     * Ardougne. Below level 10 the source falls through to its last branch
     * and reads the unassigned `lap_xp`, reported here as `LapXpUnset`.
     */
    method LapsToNextCourse(t: Table) returns (r: Result<int, AgilityError>)
      requires Valid()
      modifies this`lapXp, this`nextCourse
      ensures Valid()
      ensures lapXp == match CurrentCourse(agilityLevel)
                       case None => old(lapXp)
                       case Some(c) => Some(c.LapXp())
      ensures nextCourse == Some(NextCourseName(agilityLevel))
      ensures CurrentCourse(agilityLevel).None? ==> r == Err(LapXpUnset)
      ensures CurrentCourse(agilityLevel).Some? ==>
                var lap := CurrentCourse(agilityLevel).value.LapXp();
                var gap := t.levelToXp(TargetLevel(agilityLevel)) - agilityXp;
                r.Ok? && (r.value - 1) * lap <= gap < r.value * lap
    {
      var c := DetermineCourse();
      if c == Some(Draynor.Name()) {
        Running(Draynor, AlKharid);
        r := Ok(LapsFor(t, AlKharid.MinLevel()));
        return;
      }
      c := DetermineCourse();
      if c == Some(AlKharid.Name()) {
        Running(AlKharid, Varrock);
        r := Ok(LapsFor(t, Varrock.MinLevel()));
        return;
      }
      c := DetermineCourse();
      if c == Some(Varrock.Name()) {
        Running(Varrock, Canifis);
        r := Ok(LapsFor(t, Canifis.MinLevel()));
        return;
      }
      c := DetermineCourse();
      if c == Some(Canifis.Name()) {
        Running(Canifis, Falador);
        r := Ok(LapsFor(t, Falador.MinLevel()));
        return;
      }
      c := DetermineCourse();
      if c == Some(Falador.Name()) {
        Running(Falador, Seers);
        r := Ok(LapsFor(t, Seers.MinLevel()));
        return;
      }
      c := DetermineCourse();
      if c == Some(Seers.Name()) {
        Running(Seers, Pollniveach);
        r := Ok(LapsFor(t, Pollniveach.MinLevel()));
        return;
      }
      c := DetermineCourse();
      if c == Some(Pollniveach.Name()) {
        Running(Pollniveach, Rellekka);
        r := Ok(LapsFor(t, Rellekka.MinLevel()));
        return;
      }
      c := DetermineCourse();
      if c == Some(Rellekka.Name()) {
        Running(Rellekka, Ardougne);
        r := Ok(LapsFor(t, Ardougne.MinLevel()));
        return;
      }
      OffLadder(CurrentCourse(agilityLevel));
      match lapXp
      case None =>
        r := Err(LapXpUnset);
      case Some(lap) =>
        AtTop(agilityLevel);
        r := Ok(ActionsToCross(t.levelToXp(TopLevel) - agilityXp, lap));
    }

    /** `(level_to_xp(target) - agility_xp) // lap_xp + 1` once a course has set `lapXp`. */
    function LapsFor(t: Table, target: int): int
      reads this
      requires Valid() && lapXp.Some?
    {
      ActionsToCross(t.levelToXp(target) - agilityXp, lapXp.value)
    }
  }
}

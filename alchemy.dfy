/**
 * The high-alchemy calculator of calcs/alchemy.py: how many casts of High
 * Level Alchemy, worth 65 Magic experience each, a player needs for the
 * next level and for level 99, and what they cost at the looked-up price.
 */
module AlchemyCalc {
  import opened Experience
  import opened Progression

  /** `HIGH_ALCH_XP`: the Magic experience one cast gives. */
  const HighAlchXp: int := 65

  /** Each cast gives 65 experience, a positive amount, so every division by it is defined. */
  lemma HighAlchXpValue()
    ensures HighAlchXp == 65 && HighAlchXp > 0
  {
  }

  /**
   * An `Alchemy` calculator: the player's Magic experience from the
   * hiscore lookup and the price per cast from the price lookup. The
   * calculations only read these two values.
   */
  datatype Alchemy = Alchemy(magicXp: int, currentPrice: int)
  {
    /** The experience from `magicXp` to the start of the next level. */
    function NextLevelGap(t: Table): int
    {
      t.levelToXp(t.xpToLevel(magicXp) + 1) - magicXp
    }

    /** The experience from `magicXp` to `LEVEL_99`. */
    function Level99Gap(t: Table): int
    {
      t.level99 - magicXp
    }

    /** `alchs_to_level_up`: the least number of casts whose experience passes the gap to the next level. */
    function AlchsToLevelUp(t: Table): (n: int)
      ensures (n - 1) * HighAlchXp <= NextLevelGap(t) < n * HighAlchXp
    {
      ActionsToCross(NextLevelGap(t), HighAlchXp)
    }

    /** `alchs_to_level_99`: the least number of casts whose experience passes the gap to `LEVEL_99`. */
    function AlchsToLevel99(t: Table): (n: int)
      ensures (n - 1) * HighAlchXp <= Level99Gap(t) < n * HighAlchXp
    {
      ActionsToCross(Level99Gap(t), HighAlchXp)
    }

    /** `price_to_level_up`: the price of every cast `AlchsToLevelUp` counts. */
    function PriceToLevelUp(t: Table): (gp: int)
      ensures currentPrice != 0 ==> gp / currentPrice == AlchsToLevelUp(t) && gp % currentPrice == 0
      ensures currentPrice == 0 ==> gp == 0
      ensures currentPrice >= 0 && AlchsToLevelUp(t) >= 0 ==> gp >= 0
    {
      PriceOf(currentPrice, AlchsToLevelUp(t))
    }

    /** `price_to_level_99`: the price of every cast `AlchsToLevel99` counts. */
    function PriceToLevel99(t: Table): (gp: int)
      ensures currentPrice != 0 ==> gp / currentPrice == AlchsToLevel99(t) && gp % currentPrice == 0
      ensures currentPrice == 0 ==> gp == 0
      ensures currentPrice >= 0 && AlchsToLevel99(t) >= 0 ==> gp >= 0
    {
      PriceOf(currentPrice, AlchsToLevel99(t))
    }
  }

  /** `price * casts`: divides back into the number of casts and is not negative for counts and prices that are not. */
  function PriceOf(price: int, casts: int): (gp: int)
    ensures price != 0 ==> gp / price == casts && gp % price == 0
    ensures price == 0 ==> gp == 0
    ensures price >= 0 && casts >= 0 ==> gp >= 0
  {
    assert price != 0 ==> (price * casts) / price == casts && (price * casts) % price == 0 by {
      if price != 0 { DivMulExact(casts, price); }
    }
    price * casts
  }

  /** A product divides back exactly by a non-zero factor. */
  lemma DivMulExact(k: int, d: int)
    requires d != 0
    ensures (d * k) / d == k && (d * k) % d == 0
  {
    var q, m := (d * k) / d, (d * k) % d;
    assert d * k == d * q + m;
    assert 0 <= m < (if d < 0 then -d else d);
    assert d * (k - q) == m;
    if k - q > 0 {
      if d > 0 { MulMonotone(1, k - q, d); } else { MulMonotone(1, k - q, -d); }
    } else if k - q < 0 {
      if d > 0 { MulMonotone(k - q, -1, d); } else { MulMonotone(k - q, -1, -d); }
    }
  }

  /**
   * With `xp_to_level` placing `magicXp` in its experience band, the gap to
   * the next level is positive, so at least one cast is needed and the
   * counted casts pass the gap.
   */
  lemma AlchsToLevelUpCovers(a: Alchemy, t: Table)
    requires IsFloorLevel(t, a.magicXp)
    ensures a.NextLevelGap(t) > 0
    ensures a.AlchsToLevelUp(t) >= 1
    ensures a.AlchsToLevelUp(t) * HighAlchXp > a.NextLevelGap(t)
  {
    ActionsAtLeastOne(a.NextLevelGap(t), HighAlchXp);
  }

  /** A gap that is an exact number of casts gets one cast more: a gap of 130 gives 3. */
  lemma AlchsExactMultiple(a: Alchemy, t: Table, k: int)
    requires a.NextLevelGap(t) == k * HighAlchXp
    ensures a.AlchsToLevelUp(t) == k + 1
  {
    ActionsExactMultiple(k, HighAlchXp);
  }

  /** Up to `LEVEL_99`, at least one cast is still counted. */
  lemma AlchsToLevel99AtLeastOne(a: Alchemy, t: Table)
    requires a.magicXp <= t.level99
    ensures a.AlchsToLevel99(t) >= 1
  {
    ActionsAtLeastOne(a.Level99Gap(t), HighAlchXp);
  }

  /** More Magic experience never means more casts to level 99. */
  lemma AlchsToLevel99Antitone(a: Alchemy, b: Alchemy, t: Table)
    requires a.magicXp <= b.magicXp
    ensures b.AlchsToLevel99(t) <= a.AlchsToLevel99(t)
  {
    ActionsMonotone(b.Level99Gap(t), a.Level99Gap(t), HighAlchXp);
  }

  /** Nothing stops the count past the cap: from `LEVEL_99 + 1` on it is zero or negative. */
  lemma AlchsToLevel99PastCap(a: Alchemy, t: Table)
    requires a.magicXp > t.level99
    ensures a.AlchsToLevel99(t) <= 0
  {
    ActionsNotPositive(a.Level99Gap(t), HighAlchXp);
  }

  /** A positive count of casts to level 99 is reported exactly up to `LEVEL_99`. */
  lemma AlchsToLevel99PositiveIff(a: Alchemy, t: Table)
    ensures a.AlchsToLevel99(t) >= 1 <==> a.magicXp <= t.level99
  {
    if a.magicXp <= t.level99 {
      AlchsToLevel99AtLeastOne(a, t);
    } else {
      AlchsToLevel99PastCap(a, t);
    }
  }

  /** A player exactly at `LEVEL_99` is still told one more cast. */
  lemma AlchsAtLevel99(a: Alchemy, t: Table)
    requires a.magicXp == t.level99
    ensures a.AlchsToLevel99(t) == 1
  {
    ActionsExactMultiple(0, HighAlchXp);
  }

  /** Below level 99, the casts to the next level are no more than the casts to level 99. */
  lemma AlchsToLevelUpAtMostTo99(a: Alchemy, t: Table)
    requires Increasing(t) && Level99Agrees(t)
    requires 1 <= t.xpToLevel(a.magicXp) < 99
    ensures a.AlchsToLevelUp(t) <= a.AlchsToLevel99(t)
  {
    Monotone(t, t.xpToLevel(a.magicXp) + 1, 99);
    ActionsMonotone(a.NextLevelGap(t), a.Level99Gap(t), HighAlchXp);
  }

  /** With a price that is not negative, the cost to level up is at least one cast's price. */
  lemma PriceToLevelUpAtLeastOneCast(a: Alchemy, t: Table)
    requires IsFloorLevel(t, a.magicXp)
    requires a.currentPrice >= 0
    ensures a.PriceToLevelUp(t) >= a.currentPrice
  {
    AlchsToLevelUpCovers(a, t);
    MulMonotone(1, a.AlchsToLevelUp(t), a.currentPrice + 1);
    var n := a.AlchsToLevelUp(t);
    assert a.currentPrice * n - a.currentPrice == a.currentPrice * (n - 1);
    if a.currentPrice > 0 { MulMonotone(0, n - 1, a.currentPrice); }
  }

  /** With a price that is not negative, the cost to level 99 from at or below `LEVEL_99` is at least one cast's price. */
  lemma PriceToLevel99AtLeastOneCast(a: Alchemy, t: Table)
    requires a.magicXp <= t.level99
    requires a.currentPrice >= 0
    ensures a.PriceToLevel99(t) >= a.currentPrice
  {
    AlchsToLevel99AtLeastOne(a, t);
    var n := a.AlchsToLevel99(t);
    assert a.currentPrice * n - a.currentPrice == a.currentPrice * (n - 1);
    if a.currentPrice > 0 { MulMonotone(0, n - 1, a.currentPrice); }
  }
}

/** The player's health pool (PlayerHealth.cs): an integer count of quarter hearts with a
    maximum. Damage clamps at zero, healing clamps at the maximum; there is no terminal
    "dead" state and no invulnerability window. */
module PlayerHealth {

  /** `Mathf.Max(current - amount, 0)`: the pool after `amount` quarter hearts of damage. */
  function AfterDamage(current: int, amount: int): (r: int)
    ensures r >= 0
    ensures r == 0 <==> current <= amount
    ensures r > 0 ==> r == current - amount
    ensures amount >= 0 && current >= 0 ==> r <= current
    ensures amount > 0 && current > 0 ==> r < current
  {
    if current - amount > 0 then current - amount else 0
  }

  /** `Mathf.Min(current + amount, max)`: the pool after healing `amount` quarter hearts. */
  function AfterHeal(current: int, amount: int, max: int): (r: int)
    ensures r <= max
    ensures r == max <==> current + amount >= max
    ensures r < max ==> r == current + amount
    ensures amount >= 0 && current <= max ==> current <= r
  {
    if current + amount < max then current + amount else max
  }

  /** A call on the pool, as other scripts make them. */
  datatype HealthCall = Damage(amount: int) | Heal(amount: int)

  /** The current value after a sequence of calls, applied in order. */
  function Replay(max: int, current: int, calls: seq<HealthCall>): int
    decreases |calls|
  {
    if calls == [] then current
    else
      var next := match calls[0]
        case Damage(a) => AfterDamage(current, a)
        case Heal(a) => AfterHeal(current, a, max);
      Replay(max, next, calls[1..])
  }

  predicate NonNegativeAmounts(calls: seq<HealthCall>)
  {
    forall i :: 0 <= i < |calls| ==> calls[i].amount >= 0
  }

  /** Any sequence of damage and healing with non-negative amounts keeps the pool
      within [0, max]. */
  lemma {:induction false} ReplayStaysInRange(max: int, current: int, calls: seq<HealthCall>)
    requires 0 <= current <= max
    requires NonNegativeAmounts(calls)
    ensures 0 <= Replay(max, current, calls) <= max
    decreases |calls|
  {
    if calls != [] {
      var next := match calls[0]
        case Damage(a) => AfterDamage(current, a)
        case Heal(a) => AfterHeal(current, a, max);
      assert NonNegativeAmounts(calls[1..]) by {
        forall i | 0 <= i < |calls[1..]| ensures calls[1..][i].amount >= 0 {
          assert calls[1..][i] == calls[i + 1];
        }
      }
      ReplayStaysInRange(max, next, calls[1..]);
    }
  }

  /** Reaching zero is not terminal: healing from an empty pool refills it. */
  lemma HealFromEmpty(amount: int, max: int)
    requires amount > 0 && max > 0
    ensures AfterHeal(0, amount, max) > 0
  {
  }

  class PlayerHealth {
    var maxQuarterHearts: int
    var currentQuarterHearts: int

    /** The pool holds between none and all of its quarter hearts. */
    ghost predicate Valid()
      reads this
    {
      0 <= currentQuarterHearts <= maxQuarterHearts
    }

    /** Fields start at C#'s default of zero until `setMaxHealth` is called. */
    constructor ()
      ensures maxQuarterHearts == 0 && currentQuarterHearts == 0
      ensures Valid()
    {
      maxQuarterHearts := 0;
      currentQuarterHearts := 0;
    }

    /** Every call applies; the maximum never moves. */
    method TakeDamage(quarterHearts: int)
      modifies this
      ensures currentQuarterHearts == AfterDamage(old(currentQuarterHearts), quarterHearts)
      ensures maxQuarterHearts == old(maxQuarterHearts)
      ensures old(Valid()) && quarterHearts >= 0 ==> Valid()
    {
      currentQuarterHearts := if currentQuarterHearts - quarterHearts > 0
        then currentQuarterHearts - quarterHearts else 0;
    }

    method Heal(quarterHearts: int)
      modifies this
      ensures currentQuarterHearts == AfterHeal(old(currentQuarterHearts), quarterHearts, maxQuarterHearts)
      ensures maxQuarterHearts == old(maxQuarterHearts)
      ensures old(Valid()) && quarterHearts >= 0 ==> Valid()
    {
      currentQuarterHearts := if currentQuarterHearts + quarterHearts < maxQuarterHearts
        then currentQuarterHearts + quarterHearts else maxQuarterHearts;
    }

    method GetMaxHealth() returns (quarterHearts: int)
      ensures quarterHearts == maxQuarterHearts
    {
      quarterHearts := maxQuarterHearts;
    }

    method GetCurrentHealth() returns (quarterHearts: int)
      ensures quarterHearts == currentQuarterHearts
    {
      quarterHearts := currentQuarterHearts;
    }

    /** Sets the maximum and refills the pool to it. */
    method SetMaxHealth(quarterHearts: int)
      modifies this
      ensures maxQuarterHearts == quarterHearts && currentQuarterHearts == quarterHearts
      ensures quarterHearts >= 0 ==> Valid()
    {
      maxQuarterHearts := quarterHearts;
      currentQuarterHearts := maxQuarterHearts;
    }
  }
}

/** An enemy's health (EnemyHealth.cs): a real-valued counter, not clamped, that asks for the
    enemy to be destroyed every time a hit leaves it at or below zero. `Destroy(gameObject)`
    is recorded as a count of destroy requests. */
module EnemyHealth {

  /** Health after the hits `amounts`, in order. */
  function HealthAfter(health: real, amounts: seq<real>): real
    decreases |amounts|
  {
    if amounts == [] then health else HealthAfter(health - amounts[0], amounts[1..])
  }

  function Total(amounts: seq<real>): real
    decreases |amounts|
  {
    if amounts == [] then 0.0 else amounts[0] + Total(amounts[1..])
  }

  /** How many of the hits `amounts` call `Die`. */
  function DieCalls(health: real, amounts: seq<real>): (n: nat)
    decreases |amounts|
  {
    if amounts == [] then 0
    else
      var next := health - amounts[0];
      (if next <= 0.0 then 1 else 0) + DieCalls(next, amounts[1..])
  }

  /** Nothing is clamped: the hits subtract exactly their total. */
  lemma {:induction false} HealthAfterSubtractsTotal(health: real, amounts: seq<real>)
    ensures HealthAfter(health, amounts) == health - Total(amounts)
    decreases |amounts|
  {
    if amounts != [] {
      HealthAfterSubtractsTotal(health - amounts[0], amounts[1..]);
    }
  }

  /** There is no dead-guard: once health is at or below zero, every further non-negative hit
      calls `Die` again. */
  lemma {:induction false} EveryHitAfterDeathCallsDie(health: real, amounts: seq<real>)
    requires health <= 0.0
    requires forall i :: 0 <= i < |amounts| ==> amounts[i] >= 0.0
    ensures DieCalls(health, amounts) == |amounts|
    decreases |amounts|
  {
    if amounts != [] {
      EveryHitAfterDeathCallsDie(health - amounts[0], amounts[1..]);
    }
  }

  /** While health stays positive, `Die` is never called. */
  lemma {:induction false} NoDieWhileAlive(health: real, amounts: seq<real>)
    requires forall k :: 0 < k <= |amounts| ==> HealthAfter(health, amounts[..k]) > 0.0
    ensures DieCalls(health, amounts) == 0
    decreases |amounts|
  {
    if amounts != [] {
      var rest := amounts[1..];
      assert HealthAfter(health, amounts[..1]) == health - amounts[0];
      forall k | 0 < k <= |rest|
        ensures HealthAfter(health - amounts[0], rest[..k]) > 0.0
      {
        assert amounts[..k + 1][1..] == rest[..k];
        assert HealthAfter(health, amounts[..k + 1]) > 0.0;
      }
      NoDieWhileAlive(health - amounts[0], rest);
    }
  }

  class EnemyHealth {
    var maxHealth: real
    var currentHealth: real
    var destroyRequests: nat

    /** Inspector default `maxHealth = 10`; the current value is set by `Start`. */
    constructor ()
      ensures maxHealth == 10.0 && currentHealth == 0.0 && destroyRequests == 0
    {
      maxHealth := 10.0;
      currentHealth := 0.0;
      destroyRequests := 0;
    }

    method Start()
      modifies this
      ensures currentHealth == maxHealth
      ensures maxHealth == old(maxHealth) && destroyRequests == old(destroyRequests)
    {
      currentHealth := maxHealth;
    }

    /** Subtracts exactly `amount` and calls `Die` iff the result is at or below zero. */
    method TakeDamage(amount: real)
      modifies this
      ensures currentHealth == old(currentHealth) - amount
      ensures destroyRequests == old(destroyRequests) + (if currentHealth <= 0.0 then 1 else 0)
      ensures maxHealth == old(maxHealth)
    {
      currentHealth := currentHealth - amount;
      if currentHealth <= 0.0 {
        Die();
      }
    }

    method Die()
      modifies this
      ensures destroyRequests == old(destroyRequests) + 1
      ensures currentHealth == old(currentHealth) && maxHealth == old(maxHealth)
    {
      destroyRequests := destroyRequests + 1;
    }
  }
}

/** A damage volume (HurtBox.cs). At start it becomes a trigger and schedules its own
    destruction after `lifetime`; a projectile moves each physics step; on contact with a
    collider tagged "Enemy" it damages that collider's EnemyHealth and destroys itself.
    `owner` and `hasHit` are kept as fields but, as in the source, never consulted. Movement
    is kept as the distance travelled along `direction`, which is not otherwise modelled. */
module HurtBox {
  import EnemyHealth
  import Scheduling

  /** The other collider of a trigger contact: its tag and its EnemyHealth component
      (null when it has none). */
  datatype Collider = Collider(tag: string, health: EnemyHealth.EnemyHealth?)

  /** The one contact rule: only enemy-tagged colliders are hit. */
  predicate IsHit(other: Collider)
  {
    other.tag == "Enemy"
  }

  datatype Resume = DestroySelf

  class HurtBox {
    var damage: real
    var speed: real
    var owner: nat
    var lifetime: real
    var hasHit: bool
    var isProjectile: bool
    var hasRigidbody: bool
    var isTrigger: bool
    var travelled: real
    var waits: seq<Scheduling.Wait<Resume>>
    var destroyed: bool

    /** Inspector defaults. */
    constructor (owner: nat)
      ensures damage == 0.0 && speed == 0.0 && lifetime == 0.5 && this.owner == owner
      ensures !hasHit && !isProjectile && !hasRigidbody && !isTrigger && travelled == 0.0
      ensures waits == [] && !destroyed
    {
      damage, speed, lifetime := 0.0, 0.0, 0.5;
      this.owner := owner;
      hasHit, isProjectile, hasRigidbody, isTrigger := false, false, false, false;
      travelled := 0.0;
      waits := [];
      destroyed := false;
    }

    /** The safety destruction is scheduled unconditionally, hit or no hit. */
    method Start()
      modifies this`isTrigger, this`waits
      ensures isTrigger
      ensures waits == old(waits) + [Scheduling.Wait(old(lifetime), DestroySelf)]
      ensures destroyed == old(destroyed) && travelled == old(travelled)
    {
      isTrigger := true;
      waits := waits + [Scheduling.Wait(lifetime, DestroySelf)];
    }

    /** Moves only when this is a projectile and has a rigidbody. */
    method FixedUpdate(fixedDeltaTime: real)
      modifies this`travelled
      ensures travelled == if isProjectile && hasRigidbody
        then old(travelled) + speed * fixedDeltaTime else old(travelled)
    {
      if isProjectile && hasRigidbody {
        travelled := travelled + speed * fixedDeltaTime;
      }
    }

    /** An enemy-tagged contact takes exactly `damage` and the box is destroyed; any other
        contact has no effect. There is no owner check and no record of earlier hits. An
        enemy-tagged collider without EnemyHealth makes `target.TakeDamage` throw before
        `Destroy`, so nothing is damaged and the box survives to hit again. */
    method OnTriggerEnter(other: Collider)
      modifies this`destroyed, other.health
      ensures IsHit(other) && other.health != null ==>
        other.health.currentHealth == old(other.health.currentHealth) - damage &&
        other.health.destroyRequests ==
          old(other.health.destroyRequests) + (if other.health.currentHealth <= 0.0 then 1 else 0) &&
        destroyed
      ensures IsHit(other) && other.health == null ==> destroyed == old(destroyed)
      ensures !IsHit(other) ==> destroyed == old(destroyed)
      ensures !IsHit(other) && other.health != null ==> unchanged(other.health)
    {
      if other.tag == "Enemy" {
        var target := other.health;
        if target == null {
          // the null dereference aborts the handler here
          return;
        }
        target.TakeDamage(damage);
        destroyed := true;
      }
    }

    /** `dt` seconds pass; the scheduled destruction happens once `lifetime` has elapsed. */
    method Elapse(dt: real)
      modifies this`waits, this`destroyed
      ensures waits == Scheduling.Later(Scheduling.Countdown(old(waits), dt))
      ensures destroyed == (old(destroyed) || Scheduling.Due(Scheduling.Countdown(old(waits), dt)) != [])
    {
      var ws := Scheduling.Countdown(waits, dt);
      if Scheduling.Due(ws) != [] {
        destroyed := true;
      }
      waits := Scheduling.Later(ws);
    }
  }
}

/** The ground enemy (EnemyController.cs). Each frame `Update` picks one of four behaviours
    from two sphere checks (player in sight range, player in attack range) and the
    `wasAttacked` flag; patrolling keeps a walk point that is set only over ground and
    cleared on arrival; attacking halts, may deal one quarter heart, and starts an attack
    cooldown; taking damage sets `wasAttacked` for a damage cooldown and schedules death at
    or below zero health. The coroutines are explicit waits (module Scheduling); physics
    queries and random draws are inputs of the frame. */
module EnemyController {
  import opened Wrappers
  import opened Geometry
  import Scheduling
  import PlayerHealth

  datatype Behaviour = IdleWalking | ChasePlayer | AttackPlayer | NoAction

  /** The decision table of `Update`. */
  function Decide(inSight: bool, inAttack: bool, wasAttacked: bool): (b: Behaviour)
    ensures b == IdleWalking <==> !inSight && !inAttack
    ensures b == AttackPlayer <==> inSight && inAttack
    ensures b == ChasePlayer <==> (inSight && !inAttack) || (!inSight && inAttack && wasAttacked)
    ensures b == NoAction <==> !inSight && inAttack && !wasAttacked
  {
    if !inSight && !inAttack then IdleWalking
    else if inSight && !inAttack then ChasePlayer
    else if inAttack && inSight then AttackPlayer
    else if !inSight && wasAttacked then ChasePlayer
    else NoAction
  }

  /** Aggro memory only matters when the player is in attack range but out of sight range,
      which needs an attack sphere wider than the sight sphere. */
  lemma WasAttackedMattersOnlyOutOfSight(inSight: bool, inAttack: bool)
    ensures Decide(inSight, inAttack, true) != Decide(inSight, inAttack, false) <==> inAttack && !inSight
  {
  }

  /** When attack range lies inside sight range, every frame does something. */
  lemma NestedRangesNeverStall(inSight: bool, inAttack: bool, wasAttacked: bool)
    requires inAttack ==> inSight
    ensures Decide(inSight, inAttack, wasAttacked) != NoAction
  {
  }

  /** `Random.Range(lo, hi)` for floats, driven by a draw `u` in [0, 1]. */
  function RandomRange(lo: real, hi: real, u: real): (r: real)
    requires 0.0 <= u <= 1.0
    ensures lo <= hi ==> lo <= r <= hi
    ensures hi <= lo ==> hi <= r <= lo
  {
    lo + Fraction(u, hi - lo)
  }

  /** A fraction `u` of `d`, which lies between zero and `d`. */
  function Fraction(u: real, d: real): (r: real)
    requires 0.0 <= u <= 1.0
    ensures d >= 0.0 ==> 0.0 <= r <= d
    ensures d <= 0.0 ==> d <= r <= 0.0
  {
    var r := u * d;
    assert d - r == (1.0 - u) * d;
    r
  }

  /** The candidate walk point `SearchWalkPoint` draws around `position`. */
  function SamplePoint(position: Vec3, range: real, u: real, v: real): (p: Vec3)
    requires 0.0 <= u <= 1.0 && 0.0 <= v <= 1.0
    ensures p.y == position.y
  {
    var randomZ := RandomRange(-range, range, u);
    var randomX := RandomRange(-range, range, v);
    Vec3(position.x + randomX, position.y, position.z + randomZ)
  }

  /** With a zero walk-point range the candidate is the enemy's own position, so a point is
      never kept past the frame that found it. */
  lemma ZeroRangeSamplesOwnPosition(position: Vec3, u: real, v: real)
    requires 0.0 <= u <= 1.0 && 0.0 <= v <= 1.0
    ensures SamplePoint(position, 0.0, u, v) == position
    ensures SqDist(position, SamplePoint(position, 0.0, u, v)) < 1.0
  {
  }

  /** What the engine reports for one frame: the enemy's position, the two sphere checks,
      the player's position, the two random draws, whether the downward ray from a
      candidate walk point hits ground, and whether the forward attack ray hits. */
  datatype Senses = Senses(
    position: Vec3,
    playerInSightRange: bool,
    playerInAttackRange: bool,
    playerPosition: Vec3,
    drawZ: real,
    drawX: real,
    groundBelowSample: bool,
    forwardRayHits: bool)

  predicate ValidDraws(s: Senses)
  {
    0.0 <= s.drawZ <= 1.0 && 0.0 <= s.drawX <= 1.0
  }

  datatype Resume = AttackCooldownEnd | DamageCooldownEnd | DestroyEnemy | DeathEnd

  /** The wait a resumption starts: `EnemyDeath` waits two seconds after the dead animation. */
  function FollowUp(e: Resume): (r: seq<Scheduling.Wait<Resume>>)
    ensures |r| <= 1
  {
    if e == DestroyEnemy then [Scheduling.Wait(2.0, DeathEnd)] else []
  }

  /** Follow-up waits started by the resumptions `es`, in order. */
  function DeathWaits(es: seq<Resume>): (r: seq<Scheduling.Wait<Resume>>)
    ensures |r| <= |es|
  {
    if es == [] then [] else DeathWaits(es[..|es| - 1]) + FollowUp(es[|es| - 1])
  }

  lemma DeathWaitsSnoc(es: seq<Resume>, e: Resume)
    ensures DeathWaits(es + [e]) == DeathWaits(es) + FollowUp(e)
  {
    assert (es + [e])[..|es|] == es;
  }

  /** Waits started before, then by `es`, then by `e`. */
  lemma DeathWaitsAfter(w: seq<Scheduling.Wait<Resume>>, es: seq<Resume>, e: Resume)
    ensures (w + DeathWaits(es)) + FollowUp(e) == w + DeathWaits(es + [e])
  {
    DeathWaitsSnoc(es, e);
  }

  /** Which continuations occur among `es` followed by `e`. */
  lemma SnocMembers(es: seq<Resume>, e: Resume)
    ensures AttackCooldownEnd in es + [e] <==> AttackCooldownEnd in es || e == AttackCooldownEnd
    ensures DamageCooldownEnd in es + [e] <==> DamageCooldownEnd in es || e == DamageCooldownEnd
    ensures DestroyEnemy in es + [e] <==> DestroyEnemy in es || e == DestroyEnemy
    ensures DeathEnd in es + [e] <==> DeathEnd in es || e == DeathEnd
  {
  }

  class EnemyController {
    var walkPoint: Vec3
    var walkPointSet: bool
    var canAttack: bool
    var wasAttacked: bool
    var walkPointRange: real
    var enemyHealth: real
    var attackCooldown: real
    var damageCooldown: real
    var playerHealth: PlayerHealth.PlayerHealth?
    var destination: Option<Vec3>
    var isStopped: bool
    var velocity: real
    var attackAnimation: bool
    var deadAnimation: bool
    var waits: seq<Scheduling.Wait<Resume>>
    var destroyed: bool

    /** The tuning fields are private and never assigned, so they keep C#'s default of zero. */
    constructor (playerHealth: PlayerHealth.PlayerHealth?)
      ensures walkPoint == Vec3(0.0, 0.0, 0.0) && !walkPointSet && !canAttack && !wasAttacked
      ensures walkPointRange == 0.0 && enemyHealth == 0.0 && attackCooldown == 0.0 && damageCooldown == 0.0
      ensures this.playerHealth == playerHealth && destination == None && !isStopped && velocity == 0.0
      ensures !attackAnimation && !deadAnimation && waits == [] && !destroyed
    {
      walkPoint := Vec3(0.0, 0.0, 0.0);
      walkPointSet, canAttack, wasAttacked := false, false, false;
      walkPointRange, enemyHealth, attackCooldown, damageCooldown := 0.0, 0.0, 0.0, 0.0;
      this.playerHealth := playerHealth;
      destination, isStopped, velocity := None, false, 0.0;
      attackAnimation, deadAnimation := false, false;
      waits := [];
      destroyed := false;
    }

    /** One frame: runs the behaviour `Decide` picks and reports it. */
    method Update(s: Senses) returns (b: Behaviour)
      requires ValidDraws(s)
      modifies this`walkPoint, this`walkPointSet, this`destination, this`velocity, this`isStopped,
        this`canAttack, this`attackAnimation, this`waits, playerHealth
      ensures b == Decide(s.playerInSightRange, s.playerInAttackRange, old(wasAttacked))
      ensures playerHealth == old(playerHealth) && wasAttacked == old(wasAttacked)
      ensures enemyHealth == old(enemyHealth) && destroyed == old(destroyed)
      ensures b == NoAction ==> unchanged(this)
      ensures b == IdleWalking ==>
        velocity == 0.2 && canAttack == old(canAttack) && waits == old(waits) &&
        isStopped == old(isStopped) && attackAnimation == old(attackAnimation) &&
        walkPoint == (if old(walkPointSet) then old(walkPoint)
                      else SamplePoint(s.position, walkPointRange, s.drawZ, s.drawX)) &&
        (walkPointSet <==> (old(walkPointSet) || s.groundBelowSample) && SqDist(s.position, walkPoint) >= 1.0) &&
        destination == (if old(walkPointSet) || s.groundBelowSample then Some(walkPoint) else old(destination))
      ensures b == ChasePlayer ==>
        destination == Some(s.playerPosition) && !isStopped && velocity == 0.6 &&
        walkPoint == old(walkPoint) && walkPointSet == old(walkPointSet) &&
        canAttack == old(canAttack) && waits == old(waits) && attackAnimation == old(attackAnimation)
      ensures b == AttackPlayer ==>
        destination == Some(s.position) && walkPoint == old(walkPoint) && walkPointSet == old(walkPointSet) &&
        velocity == old(velocity) && isStopped == old(isStopped)
      ensures b == AttackPlayer && old(wasAttacked) ==>
        canAttack == old(canAttack) && waits == old(waits) && attackAnimation == old(attackAnimation)
      ensures b == AttackPlayer && !old(wasAttacked) ==>
        !canAttack && attackAnimation &&
        waits == old(waits) + [Scheduling.Wait(attackCooldown, AttackCooldownEnd)]
      ensures old(playerHealth) != null ==>
        playerHealth.maxQuarterHearts == old(playerHealth.maxQuarterHearts) &&
        playerHealth.currentQuarterHearts ==
          if b == AttackPlayer && !old(wasAttacked) && s.forwardRayHits
          then PlayerHealth.AfterDamage(old(playerHealth.currentQuarterHearts), 1)
          else old(playerHealth.currentQuarterHearts)
    {
      var playerInSightRange := s.playerInSightRange;
      var playerInAttackRange := s.playerInAttackRange;

      if !playerInSightRange && !playerInAttackRange {
        IdleWalk(s);
        b := IdleWalking;
      } else if playerInSightRange && !playerInAttackRange {
        Chase(s.playerPosition);
        b := ChasePlayer;
      } else if playerInAttackRange && playerInSightRange {
        Attack(s);
        b := AttackPlayer;
      } else if !playerInSightRange && wasAttacked {
        Chase(s.playerPosition);
        b := ChasePlayer;
      } else {
        b := NoAction;
      }
    }

    /** `IdleWalking` with its `SearchWalkPoint`. */
    method IdleWalk(s: Senses)
      requires ValidDraws(s)
      modifies this`walkPoint, this`walkPointSet, this`destination, this`velocity
      ensures velocity == 0.2
      ensures walkPoint == (if old(walkPointSet) then old(walkPoint)
                            else SamplePoint(s.position, walkPointRange, s.drawZ, s.drawX))
      ensures walkPointSet <==> (old(walkPointSet) || s.groundBelowSample) && SqDist(s.position, walkPoint) >= 1.0
      ensures destination == (if old(walkPointSet) || s.groundBelowSample then Some(walkPoint) else old(destination))
    {
      if !walkPointSet {
        walkPoint := SamplePoint(s.position, walkPointRange, s.drawZ, s.drawX);
        if s.groundBelowSample {
          walkPointSet := true;
        }
      }
      if walkPointSet {
        destination := Some(walkPoint);
      }
      velocity := 0.2;
      if SqDist(s.position, walkPoint) < 1.0 {
        walkPointSet := false;
      }
    }

    method Chase(playerPosition: Vec3)
      modifies this`destination, this`velocity, this`isStopped
      ensures destination == Some(playerPosition) && velocity == 0.6 && !isStopped
    {
      destination := Some(playerPosition);
      velocity := 0.6;
      isStopped := false;
    }

    /** `AttackPlayer`: always halts; when not recently hit, starts the attack cooldown and
        deals one quarter heart if the forward ray hits. `canAttack` is never read. Nothing
        assigns `playerHealth`; when it is null a hit throws after the cooldown has started,
        which leaves the same state as a miss. */
    method Attack(s: Senses)
      modifies this`destination, this`canAttack, this`attackAnimation, this`waits, playerHealth
      ensures destination == Some(s.position)
      ensures old(wasAttacked) ==>
        canAttack == old(canAttack) && waits == old(waits) && attackAnimation == old(attackAnimation)
      ensures !old(wasAttacked) ==>
        !canAttack && attackAnimation &&
        waits == old(waits) + [Scheduling.Wait(attackCooldown, AttackCooldownEnd)]
      ensures playerHealth != null ==>
        playerHealth.maxQuarterHearts == old(playerHealth.maxQuarterHearts) &&
        playerHealth.currentQuarterHearts ==
          if !wasAttacked && s.forwardRayHits
          then PlayerHealth.AfterDamage(old(playerHealth.currentQuarterHearts), 1)
          else old(playerHealth.currentQuarterHearts)
    {
      destination := Some(s.position);
      if !wasAttacked {
        canAttack := true;
        attackAnimation := true;
        // AttackCooldown runs to its first wait at once
        canAttack := false;
        waits := waits + [Scheduling.Wait(attackCooldown, AttackCooldownEnd)];
        if s.forwardRayHits {
          if playerHealth == null {
            // nothing assigns `playerHealth`: the call throws here, after the cooldown started
            return;
          }
          playerHealth.TakeDamage(1);
        }
      }
    }

    /** Subtracts the damage, starts the damage cooldown, and schedules `DestroyEnemy` half a
        second later when health is at or below zero. Nothing guards a dead enemy. */
    method TakeDamage(damage: real)
      modifies this`enemyHealth, this`wasAttacked, this`waits
      ensures enemyHealth == old(enemyHealth) - damage && wasAttacked
      ensures waits == old(waits) + [Scheduling.Wait(damageCooldown, DamageCooldownEnd)] +
        (if enemyHealth <= 0.0 then [Scheduling.Wait(0.5, DestroyEnemy)] else [])
    {
      enemyHealth := enemyHealth - damage;
      // DamageCooldown runs to its first wait at once
      wasAttacked := true;
      waits := waits + [Scheduling.Wait(damageCooldown, DamageCooldownEnd)];
      if enemyHealth <= 0.0 {
        waits := waits + [Scheduling.Wait(0.5, DestroyEnemy)];
      }
    }

    /** One coroutine continues after its wait. */
    method Resume(e: Resume)
      modifies this`canAttack, this`wasAttacked, this`deadAnimation, this`waits, this`destroyed
      ensures canAttack == (old(canAttack) || e == AttackCooldownEnd)
      ensures wasAttacked == (old(wasAttacked) && e != DamageCooldownEnd)
      ensures deadAnimation == (old(deadAnimation) || e == DestroyEnemy)
      ensures destroyed == (old(destroyed) || e == DeathEnd)
      ensures waits == old(waits) + FollowUp(e)
    {
      match e {
        case AttackCooldownEnd => canAttack := true;
        case DamageCooldownEnd => wasAttacked := false;
        case DestroyEnemy =>
          // EnemyDeath: dead animation, then destruction two seconds later
          deadAnimation := true;
          waits := waits + [Scheduling.Wait(2.0, DeathEnd)];
        case DeathEnd => destroyed := true;
      }
    }

    /** `dt` seconds pass: the waits that ran out resume in start order. The first damage
        cooldown to end clears `wasAttacked`, even if a later one is still running. */
    method Elapse(dt: real)
      modifies this`canAttack, this`wasAttacked, this`deadAnimation, this`waits, this`destroyed
      ensures var due := Scheduling.Due(Scheduling.Countdown(old(waits), dt));
        && canAttack == (old(canAttack) || AttackCooldownEnd in due)
        && wasAttacked == (old(wasAttacked) && DamageCooldownEnd !in due)
        && deadAnimation == (old(deadAnimation) || DestroyEnemy in due)
        && destroyed == (old(destroyed) || DeathEnd in due)
        && waits == Scheduling.Later(Scheduling.Countdown(old(waits), dt)) + DeathWaits(due)
    {
      var ws := Scheduling.Countdown(waits, dt);
      waits := Scheduling.Later(ws);
      ResumeAll(Scheduling.Due(ws));
    }

    /** The continuations `due` resume one after another. */
    method ResumeAll(due: seq<Resume>)
      modifies this`canAttack, this`wasAttacked, this`deadAnimation, this`waits, this`destroyed
      ensures canAttack == (old(canAttack) || AttackCooldownEnd in due)
      ensures wasAttacked == (old(wasAttacked) && DamageCooldownEnd !in due)
      ensures deadAnimation == (old(deadAnimation) || DestroyEnemy in due)
      ensures destroyed == (old(destroyed) || DeathEnd in due)
      ensures waits == old(waits) + DeathWaits(due)
    {
      var k := 0;
      while k < |due|
        invariant 0 <= k <= |due|
        invariant canAttack == (old(canAttack) || AttackCooldownEnd in due[..k])
        invariant wasAttacked == (old(wasAttacked) && DamageCooldownEnd !in due[..k])
        invariant deadAnimation == (old(deadAnimation) || DestroyEnemy in due[..k])
        invariant destroyed == (old(destroyed) || DeathEnd in due[..k])
        invariant waits == old(waits) + DeathWaits(due[..k])
      {
        var e := due[k];
        assert due[..k + 1] == due[..k] + [e];
        DeathWaitsAfter(old(waits), due[..k], e);
        SnocMembers(due[..k], e);
        Resume(e);
        k := k + 1;
      }
      assert due[..k] == due;
    }
  }
}

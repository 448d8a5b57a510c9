/** The flying enemy (FlyingEnemyController.cs). A behaviour loop, started after a random
    delay, runs once per frame: it refreshes the two awareness flags from the target
    player's distance and steps a four-state machine (Searching, Hovering, Chasing,
    Attacking). `Update` overrides the machine while the enemy is invulnerable, re-acquires
    a lost target player and caps the altitude over ground. An attack runs as a coroutine
    (telegraph, strike, cooldown) guarded by the `canAttack` latch. Scene queries, the
    invulnerability query and the movement step are inputs of the frame. */
module FlyingEnemyController {
  import opened Wrappers
  import opened Geometry
  import Scheduling

  datatype State = Searching | Hovering | Chasing | Attacking

  /** The tuning that `ApplyData` copies from an `EnemyData` asset. */
  datatype EnemyData = EnemyData(health: real, attackCooldown: real, attackRange: real, sightRange: real)

  /** A scene object the enemy can find: a player, or a ground enemy it may orbit. */
  datatype Body = Body(id: nat, position: Vec3)

  /** Where the object `id` is this frame; `None` once it has been destroyed, which is when
      Unity's `== null` on the stored reference turns true. */
  function Lookup(bodies: seq<Body>, id: nat): (r: Option<Vec3>)
    ensures r.None? <==> forall i :: 0 <= i < |bodies| ==> bodies[i].id != id
    ensures r.Some? ==> exists i :: 0 <= i < |bodies| && bodies[i] == Body(id, r.value)
  {
    if bodies == [] then None
    else if bodies[0].id == id then Some(bodies[0].position)
    else Lookup(bodies[1..], id)
  }

  /** Where a stored reference points this frame, if it is non-null. */
  function Locate(target: Option<nat>, bodies: seq<Body>): Option<Vec3>
  {
    if target.None? then None else Lookup(bodies, target.value)
  }

  /** Whether a stored reference is non-null this frame. */
  predicate Alive(target: Option<nat>, bodies: seq<Body>)
  {
    Locate(target, bodies).Some?
  }

  /** The non-null entries of a `FindObjectsOfType` result, in order. */
  function Present(found: seq<Option<Body>>): (r: seq<Body>)
    ensures |r| <= |found|
  {
    if found == [] then []
    else (if found[0].Some? then [found[0].value] else []) + Present(found[1..])
  }

  /** Skipping null entries drops exactly those: the result is empty iff every entry is
      null, and every body it keeps was found. */
  lemma {:induction false} PresentKeepsFound(found: seq<Option<Body>>)
    ensures Present(found) == [] <==> forall i :: 0 <= i < |found| ==> found[i].None?
    ensures forall b :: b in Present(found) ==> Some(b) in found
  {
    if found != [] {
      PresentKeepsFound(found[1..]);
      assert found == [found[0]] + found[1..];
    }
  }

  /** The squared distance from `origin` to each body, in order. */
  function Distances(origin: Vec3, bodies: seq<Body>): (ds: seq<real>)
    ensures |ds| == |bodies|
  {
    seq(|bodies|, i requires 0 <= i < |bodies| => SqDist(origin, bodies[i].position))
  }

  /** Among the first `n` distances, entry `k` is a least one, and every earlier entry is
      strictly greater, so the first of equals wins. */
  predicate NearestAmong(ds: seq<real>, n: nat, k: nat)
    requires n <= |ds|
  {
    && k < n
    && (forall j :: 0 <= j < n ==> ds[k] <= ds[j])
    && (forall j :: 0 <= j < k ==> ds[k] < ds[j])
  }

  /** The running strict minimum over the first `n` distances, as the `foreach` loops in
      `FindNearestPlayer` and `FindOrbitTarget` keep it: an entry replaces the best so far
      only when strictly nearer. */
  function FirstNearest(ds: seq<real>, n: nat): (r: Option<nat>)
    requires n <= |ds|
    ensures r.None? <==> n == 0
    ensures r.Some? ==> r.value < n
  {
    if n == 0 then None
    else
      var best := FirstNearest(ds, n - 1);
      if best.None? || ds[n - 1] < ds[best.value] then Some(n - 1) else best
  }

  /** The running minimum finds the first nearest entry. */
  lemma {:induction false} FirstNearestIsNearest(ds: seq<real>, n: nat)
    requires n <= |ds|
    ensures FirstNearest(ds, n).Some? ==> NearestAmong(ds, n, FirstNearest(ds, n).value)
  {
    if n > 0 {
      FirstNearestIsNearest(ds, n - 1);
    }
  }

  /** The `foreach` in `FindNearestPlayer` and `FindOrbitTarget`, with the running minimum
      starting from infinity. */
  method Nearest(origin: Vec3, bodies: seq<Body>) returns (k: Option<nat>)
    ensures k == FirstNearest(Distances(origin, bodies), |bodies|)
  {
    ghost var ds := Distances(origin, bodies);
    k := None;
    var minDist: real := 0.0;  // stands for Mathf.Infinity while k is None
    var i := 0;
    while i < |bodies|
      invariant 0 <= i <= |bodies|
      invariant k == FirstNearest(ds, i)
      invariant k.Some? ==> minDist == ds[k.value]
    {
      var d := SqDist(origin, bodies[i].position);
      assert d == ds[i];
      if k.None? || d < minDist {
        minDist := d;
        k := Some(i);
      }
      i := i + 1;
    }
  }

  /** `UpdateAwareness`: strict `dist < range` tests against the target player; with no
      live target both flags keep their values. */
  function Awareness(inSight: bool, inAttack: bool, self: Vec3, target: Option<Vec3>,
                     sightRange: real, attackRange: real): (r: (bool, bool))
    ensures target.None? ==> r == (inSight, inAttack)
    ensures target.Some? ==> (r.0 <==> Within(self, target.value, sightRange))
    ensures target.Some? ==> (r.1 <==> Within(self, target.value, attackRange))
  {
    if target.None? then (inSight, inAttack)
    else (Within(self, target.value, sightRange), Within(self, target.value, attackRange))
  }

  /** With the attack range inside the sight range, being in attack range implies being in
      sight. */
  lemma AttackRangeImpliesSight(self: Vec3, target: Vec3, sightRange: real, attackRange: real,
                                inSight: bool, inAttack: bool)
    requires attackRange <= sightRange
    requires inAttack ==> inSight
    ensures var r := Awareness(inSight, inAttack, self, Some(target), sightRange, attackRange);
      r.1 ==> r.0
  {
    if Within(self, target, attackRange) {
      WithinMonotone(self, target, attackRange, sightRange);
    }
  }

  /** One pass of the `BehaviorLoop` switch, given the refreshed flags and whether the orbit
      target (after the search, in `Searching`) and the target player are non-null. Chasing
      without a player falls back to Searching unless the stale attack flag is still set. */
  function NextState(state: State, inSight: bool, inAttack: bool, orbitAlive: bool, playerAlive: bool): (next: State)
    ensures next == Attacking <==> (state == Chasing || state == Attacking) && inAttack
    ensures next == Chasing <==>
      || ((state == Searching || state == Hovering) && inSight)
      || (state == Chasing && !inAttack && inSight && playerAlive)
      || (state == Attacking && !inAttack)
    ensures next == Hovering <==> (state == Searching || state == Hovering) && !inSight && orbitAlive
    ensures next == Searching <==>
      || ((state == Searching || state == Hovering) && !inSight && !orbitAlive)
      || (state == Chasing && !inAttack && (!inSight || !playerAlive))
  {
    match state
    case Searching =>
      if inSight then Chasing else if orbitAlive then Hovering else Searching
    case Hovering =>
      // HoverAroundTarget itself falls back to Searching when the orbit target is gone
      var s := if !orbitAlive then Searching else Hovering;
      if inSight then Chasing else if !orbitAlive then Searching else s
    case Chasing =>
      // ChasePlayer itself falls back to Searching when the target player is gone
      var s := if !playerAlive then Searching else Chasing;
      if inAttack then Attacking else if !inSight then Searching else s
    case Attacking =>
      if !inAttack then Chasing else Attacking
  }

  /** What one pass of the behaviour loop sees. */
  datatype Percept = Percept(inSight: bool, inAttack: bool, orbitAlive: bool, playerAlive: bool)

  /** The state after a run of behaviour-loop passes. */
  function Run(state: State, frames: seq<Percept>): (r: State)
    ensures frames == [] ==> r == state
    decreases |frames|
  {
    if frames == [] then state
    else
      var f := frames[0];
      Run(NextState(state, f.inSight, f.inAttack, f.orbitAlive, f.playerAlive), frames[1..])
  }

  /** An enemy that never has the player in sight never leaves Searching and Hovering. */
  lemma {:induction false} NeverSeenNeverChases(state: State, frames: seq<Percept>)
    requires state == Searching || state == Hovering
    requires forall i :: 0 <= i < |frames| ==> !frames[i].inSight
    ensures Run(state, frames) == Searching || Run(state, frames) == Hovering
    decreases |frames|
  {
    if frames != [] {
      var f := frames[0];
      NeverSeenNeverChases(NextState(state, f.inSight, f.inAttack, f.orbitAlive, f.playerAlive), frames[1..]);
    }
  }

  /** An enemy that is not attacking and never has the player in attack range never
      attacks. */
  lemma {:induction false} NeverInRangeNeverAttacks(state: State, frames: seq<Percept>)
    requires state != Attacking
    requires forall i :: 0 <= i < |frames| ==> !frames[i].inAttack
    ensures Run(state, frames) != Attacking
    decreases |frames|
  {
    if frames != [] {
      var f := frames[0];
      NeverInRangeNeverAttacks(NextState(state, f.inSight, f.inAttack, f.orbitAlive, f.playerAlive), frames[1..]);
    }
  }

  /** `MaintainHeightAboveGround`: never above `flightHeight` over the ground hit, and never
      raised. */
  function ClampHeight(y: real, groundY: Option<real>, flightHeight: real): (r: real)
    ensures r <= y
    ensures groundY.Some? ==> r <= groundY.value + flightHeight
    ensures r == y || (groundY.Some? && r == groundY.value + flightHeight)
  {
    if groundY.Some? && groundY.value + flightHeight < y then groundY.value + flightHeight else y
  }

  /** The coroutine continuations: the behaviour loop starting after `StartDelayed`, the
      three stages of `AttackSequence`, and the delayed `Destroy`. */
  datatype Resume = BeginBehaviour | TelegraphEnd | StrikeEnd | CooldownEnd | DeathEnd

  predicate IsAttackStage(e: Resume)
  {
    e == TelegraphEnd || e == StrikeEnd || e == CooldownEnd
  }

  /** How many of the continuations `es` are attack stages. */
  function Stages(es: seq<Resume>): nat
  {
    if es == [] then 0 else (if IsAttackStage(es[0]) then 1 else 0) + Stages(es[1..])
  }

  /** Counting attack stages depends only on the multiset of continuations. */
  lemma {:induction false} StagesCountsMultiset(es: seq<Resume>)
    ensures Stages(es) == multiset(es)[TelegraphEnd] + multiset(es)[StrikeEnd] + multiset(es)[CooldownEnd]
  {
    if es != [] {
      StagesCountsMultiset(es[1..]);
      assert es == [es[0]] + es[1..];
      assert multiset(es) == multiset([es[0]]) + multiset(es[1..]);
    }
  }

  /** Attack stages add up over concatenation. */
  lemma {:induction false} StagesAppend(a: seq<Resume>, b: seq<Resume>)
    ensures Stages(a + b) == Stages(a) + Stages(b)
  {
    if a != [] {
      StagesAppend(a[1..], b);
      assert (a + b)[1..] == a[1..] + b;
    } else {
      assert a + b == b;
    }
  }

  /** Attack sequences in flight among the pending waits. */
  function InFlight(ws: seq<Scheduling.Wait<Resume>>): nat
  {
    Stages(Scheduling.Resumes(ws))
  }

  /** Attack sequences in flight add up over concatenation. */
  lemma InFlightAppend(a: seq<Scheduling.Wait<Resume>>, b: seq<Scheduling.Wait<Resume>>)
    ensures InFlight(a + b) == InFlight(a) + InFlight(b)
  {
    Scheduling.ResumesAppend(a, b);
    StagesAppend(Scheduling.Resumes(a), Scheduling.Resumes(b));
  }

  /** A single wait counts as in flight iff it is an attack stage. */
  lemma InFlightSingle(w: Scheduling.Wait<Resume>)
    ensures InFlight([w]) == if IsAttackStage(w.resume) then 1 else 0
  {
    assert Scheduling.Resumes([w]) == [w.resume];
    assert [w.resume][1..] == [];
    assert Stages([w.resume]) == (if IsAttackStage(w.resume) then 1 else 0) + Stages([]);
  }

  /** `canAttack` is clear exactly while one attack sequence is in flight, and at most one
      ever is. */
  predicate LatchHolds(canAttack: bool, ws: seq<Scheduling.Wait<Resume>>)
  {
    InFlight(ws) <= 1 && (canAttack <==> InFlight(ws) == 0)
  }

  /** The wait a continuation starts: after the telegraph, the strike (or, when
      invulnerable, straight to the cooldown); after the strike, the cooldown. */
  function FollowUp(e: Resume, invulnerable: bool, attackCooldown: real): (r: seq<Scheduling.Wait<Resume>>)
    ensures |r| <= 1
  {
    match e
    case TelegraphEnd =>
      if invulnerable then [Scheduling.Wait(attackCooldown, CooldownEnd)] else [Scheduling.Wait(0.2, StrikeEnd)]
    case StrikeEnd => [Scheduling.Wait(attackCooldown, CooldownEnd)]
    case _ => []
  }

  /** A frame's countdown splits the attack stages in flight between those resuming now and
      those still waiting. */
  lemma ElapseSplitsInFlight(ws: seq<Scheduling.Wait<Resume>>, dt: real)
    ensures InFlight(ws) ==
      InFlight(Scheduling.Later(Scheduling.Countdown(ws, dt))) + Stages(Scheduling.Due(Scheduling.Countdown(ws, dt)))
  {
    var counted := Scheduling.Countdown(ws, dt);
    Scheduling.CountdownKeepsResumes(ws, dt);
    Scheduling.SplitIsPartition(counted);
    StagesCountsMultiset(Scheduling.Resumes(ws));
    StagesCountsMultiset(Scheduling.Due(counted));
    StagesCountsMultiset(Scheduling.Resumes(Scheduling.Later(counted)));
  }

  /** Resuming one attack stage starts the next one, except the cooldown's end, which
      retires the sequence. */
  lemma ResumeKeepsInFlight(ws: seq<Scheduling.Wait<Resume>>, rest: seq<Resume>, invulnerable: bool, attackCooldown: real)
    requires rest != []
    ensures InFlight(ws + FollowUp(rest[0], invulnerable, attackCooldown)) + Stages(rest[1..])
      + (if rest[0] == CooldownEnd then 1 else 0)
      == InFlight(ws) + Stages(rest)
  {
    InFlightAppend(ws, FollowUp(rest[0], invulnerable, attackCooldown));
    FollowUpInFlight(rest[0], invulnerable, attackCooldown);
  }

  /** Only the telegraph and strike ends start a further attack stage. */
  lemma FollowUpInFlight(e: Resume, invulnerable: bool, attackCooldown: real)
    ensures InFlight(FollowUp(e, invulnerable, attackCooldown)) == if e == TelegraphEnd || e == StrikeEnd then 1 else 0
  {
    InFlightSingle(Scheduling.Wait(attackCooldown, CooldownEnd));
    InFlightSingle(Scheduling.Wait(0.2, StrikeEnd));
    assert InFlight([]) == 0 by { assert Scheduling.Resumes<Resume>([]) == []; }
  }

  /** The follow-up waits of the continuations `es`, in order. */
  function FollowUps(es: seq<Resume>, invulnerable: bool, attackCooldown: real): (r: seq<Scheduling.Wait<Resume>>)
    ensures |r| <= |es|
  {
    if es == [] then [] else FollowUp(es[0], invulnerable, attackCooldown) + FollowUps(es[1..], invulnerable, attackCooldown)
  }

  /** The part of the enemy's state the continuations touch. */
  datatype Timers = Timers(running: bool, hurtboxActive: bool, canAttack: bool, destroyed: bool,
                           waits: seq<Scheduling.Wait<Resume>>)

  /** One continuation resumes: the behaviour loop starts; the telegraph ends with the
      hurtbox on (kept off while invulnerable); the strike ends with it off; the cooldown
      ends with the latch open; the delayed `Destroy` happens. */
  function Step(t: Timers, e: Resume, invulnerable: bool, attackCooldown: real): Timers
  {
    var t' := match e
      case BeginBehaviour => t.(running := true)
      case TelegraphEnd => t.(hurtboxActive := !invulnerable)
      case StrikeEnd => t.(hurtboxActive := false)
      case CooldownEnd => t.(canAttack := true)
      case DeathEnd => t.(destroyed := true);
    t'.(waits := t.waits + FollowUp(e, invulnerable, attackCooldown))
  }

  /** The continuations `es` resume in order. */
  function Steps(t: Timers, es: seq<Resume>, invulnerable: bool, attackCooldown: real): Timers
    decreases |es|
  {
    if es == [] then t else Steps(Step(t, es[0], invulnerable, attackCooldown), es[1..], invulnerable, attackCooldown)
  }

  /** What a run of continuations does to each part of the state: each flag is set iff its
      continuation ran, the follow-up waits are appended in order, and while invulnerable the
      hurtbox is never switched on. */
  lemma StepsEffect(t: Timers, es: seq<Resume>, invulnerable: bool, attackCooldown: real)
    ensures Steps(t, es, invulnerable, attackCooldown).running == (t.running || BeginBehaviour in es)
    ensures Steps(t, es, invulnerable, attackCooldown).canAttack == (t.canAttack || CooldownEnd in es)
    ensures Steps(t, es, invulnerable, attackCooldown).destroyed == (t.destroyed || DeathEnd in es)
    ensures Steps(t, es, invulnerable, attackCooldown).waits == t.waits + FollowUps(es, invulnerable, attackCooldown)
    ensures invulnerable ==>
      (Steps(t, es, invulnerable, attackCooldown).hurtboxActive <==>
       t.hurtboxActive && TelegraphEnd !in es && StrikeEnd !in es)
  {
    StepsFlags(t, es, invulnerable, attackCooldown);
    StepsWaits(t, es, invulnerable, attackCooldown);
  }

  /** The flags part of `StepsEffect`. */
  lemma {:induction false} StepsFlags(t: Timers, es: seq<Resume>, invulnerable: bool, attackCooldown: real)
    ensures Steps(t, es, invulnerable, attackCooldown).running == (t.running || BeginBehaviour in es)
    ensures Steps(t, es, invulnerable, attackCooldown).canAttack == (t.canAttack || CooldownEnd in es)
    ensures Steps(t, es, invulnerable, attackCooldown).destroyed == (t.destroyed || DeathEnd in es)
    ensures invulnerable ==>
      (Steps(t, es, invulnerable, attackCooldown).hurtboxActive <==>
       t.hurtboxActive && TelegraphEnd !in es && StrikeEnd !in es)
    decreases |es|
  {
    if es != [] {
      StepFlags(t, es[0], invulnerable, attackCooldown);
      StepsFlags(Step(t, es[0], invulnerable, attackCooldown), es[1..], invulnerable, attackCooldown);
      ConsMembers(es);
    }
  }

  /** What one continuation does to the flags. */
  lemma StepFlags(t: Timers, e: Resume, invulnerable: bool, attackCooldown: real)
    ensures Step(t, e, invulnerable, attackCooldown).running == (t.running || e == BeginBehaviour)
    ensures Step(t, e, invulnerable, attackCooldown).canAttack == (t.canAttack || e == CooldownEnd)
    ensures Step(t, e, invulnerable, attackCooldown).destroyed == (t.destroyed || e == DeathEnd)
    ensures invulnerable ==>
      (Step(t, e, invulnerable, attackCooldown).hurtboxActive <==>
       t.hurtboxActive && e != TelegraphEnd && e != StrikeEnd)
  {
  }

  /** A continuation occurs in a non-empty run iff it is the first or occurs in the rest. */
  lemma ConsMembers(es: seq<Resume>)
    requires es != []
    ensures forall x :: x in es <==> x == es[0] || x in es[1..]
  {
    assert es == [es[0]] + es[1..];
  }

  /** The waits part of `StepsEffect`. */
  lemma {:induction false} StepsWaits(t: Timers, es: seq<Resume>, invulnerable: bool, attackCooldown: real)
    ensures Steps(t, es, invulnerable, attackCooldown).waits == t.waits + FollowUps(es, invulnerable, attackCooldown)
    decreases |es|
  {
    if es != [] {
      StepsWaits(Step(t, es[0], invulnerable, attackCooldown), es[1..], invulnerable, attackCooldown);
      FollowUpsAfter(t.waits, es, invulnerable, attackCooldown);
    }
  }

  /** Waits already pending, then the first continuation's follow-up, then the rest's. */
  lemma FollowUpsAfter(w: seq<Scheduling.Wait<Resume>>, es: seq<Resume>, invulnerable: bool, attackCooldown: real)
    requires es != []
    ensures (w + FollowUp(es[0], invulnerable, attackCooldown)) + FollowUps(es[1..], invulnerable, attackCooldown)
      == w + FollowUps(es, invulnerable, attackCooldown)
  {
  }

  /** Resuming continuations keeps the latch when they and the pending waits hold at most
      one attack stage between them, and `canAttack` is set iff they hold none. */
  lemma {:induction false} StepsKeepLatch(t: Timers, es: seq<Resume>, invulnerable: bool, attackCooldown: real)
    requires InFlight(t.waits) + Stages(es) <= 1
    requires t.canAttack <==> InFlight(t.waits) + Stages(es) == 0
    ensures LatchHolds(Steps(t, es, invulnerable, attackCooldown).canAttack, Steps(t, es, invulnerable, attackCooldown).waits)
    decreases |es|
  {
    if es == [] {
    } else {
      ResumeKeepsInFlight(t.waits, es, invulnerable, attackCooldown);
      StepsKeepLatch(Step(t, es[0], invulnerable, attackCooldown), es[1..], invulnerable, attackCooldown);
    }
  }

  class FlyingEnemyController {
    var flightHeight: real
    var hoverSpeed: real
    var attackRange: real
    var sightRange: real
    var attackCooldown: real
    var enemyHealth: real
    var targetPlayer: Option<nat>
    var orbitTarget: Option<nat>
    var orbitAngle: real
    var canAttack: bool
    var playerInSightRange: bool
    var playerInAttackRange: bool
    var currentState: State
    var position: Vec3
    var hurtboxActive: bool
    var behaviourRunning: bool
    var flyAnimation: bool
    var attackAnimation: bool
    var deadAnimation: bool
    var destroyed: bool
    var waits: seq<Scheduling.Wait<Resume>>

    /** `canAttack` is clear exactly while one attack sequence is in flight, and at most one
        ever is. */
    ghost predicate AttackLatch()
      reads this
    {
      LatchHolds(canAttack, waits)
    }

    /** The serialized defaults, at `position`. */
    constructor (position: Vec3)
      ensures flightHeight == 2.5 && hoverSpeed == 2.0
      ensures attackRange == 1.5 && sightRange == 6.0 && attackCooldown == 1.5 && enemyHealth == 5.0
      ensures targetPlayer == None && orbitTarget == None && orbitAngle == 0.0
      ensures canAttack && !playerInSightRange && !playerInAttackRange && currentState == Searching
      ensures this.position == position && !hurtboxActive && !behaviourRunning
      ensures !flyAnimation && !attackAnimation && !deadAnimation && !destroyed && waits == []
      ensures AttackLatch()
    {
      flightHeight, hoverSpeed := 2.5, 2.0;
      attackRange, sightRange, attackCooldown, enemyHealth := 1.5, 6.0, 1.5, 5.0;
      targetPlayer, orbitTarget, orbitAngle := None, None, 0.0;
      canAttack, playerInSightRange, playerInAttackRange := true, false, false;
      currentState := Searching;
      this.position := position;
      hurtboxActive, behaviourRunning := false, false;
      flyAnimation, attackAnimation, deadAnimation, destroyed := false, false, false, false;
      waits := [];
      assert Scheduling.Resumes<Resume>([]) == [];
    }

    /** `ApplyData`: a missing asset changes nothing. */
    method ApplyData(data: Option<EnemyData>)
      modifies this`attackRange, this`sightRange, this`attackCooldown, this`enemyHealth
      ensures data.None? ==>
        attackRange == old(attackRange) && sightRange == old(sightRange) &&
        attackCooldown == old(attackCooldown) && enemyHealth == old(enemyHealth)
      ensures data.Some? ==>
        attackRange == data.value.attackRange && sightRange == data.value.sightRange &&
        attackCooldown == data.value.attackCooldown && enemyHealth == data.value.health
    {
      if data.None? {
        return;
      }
      attackRange := data.value.attackRange;
      sightRange := data.value.sightRange;
      attackCooldown := data.value.attackCooldown;
      enemyHealth := data.value.health;
    }

    /** `FindNearestPlayer`: keeps the old target when there is no player. */
    method FindNearestPlayer(players: seq<Body>)
      modifies this`targetPlayer
      ensures players == [] ==> targetPlayer == old(targetPlayer)
      ensures players != [] ==> Alive(targetPlayer, players)
      ensures var k := FirstNearest(Distances(position, players), |players|);
        targetPlayer == if k.Some? then Some(players[k.value].id) else old(targetPlayer)
    {
      var k := Nearest(position, players);
      if k.Some? {
        targetPlayer := Some(players[k.value].id);
        assert Lookup(players, players[k.value].id).Some?;
      }
    }

    /** `FindOrbitTarget`: the nearest non-null ground enemy, or null when there is none. */
    method FindOrbitTarget(groundEnemies: seq<Option<Body>>)
      modifies this`orbitTarget
      ensures orbitTarget.None? <==> Present(groundEnemies) == []
      ensures orbitTarget.Some? ==> Alive(orbitTarget, Present(groundEnemies))
      ensures var k := FirstNearest(Distances(position, Present(groundEnemies)), |Present(groundEnemies)|);
        orbitTarget == if k.Some? then Some(Present(groundEnemies)[k.value].id) else None
    {
      var found := Present(groundEnemies);
      var k := Nearest(position, found);
      orbitTarget := if k.Some? then Some(found[k.value].id) else None;
      if k.Some? {
        assert Lookup(found, found[k.value].id).Some?;
      }
    }

    /** `Start`: hides the hurtbox, applies the data asset, looks for a player, enters
        Searching and starts the behaviour loop after `delay`, drawn from [0, 0.5]. */
    method Start(delay: real, data: Option<EnemyData>, players: seq<Body>)
      requires 0.0 <= delay <= 0.5
      requires AttackLatch()
      modifies this`hurtboxActive, this`attackRange, this`sightRange, this`attackCooldown,
        this`enemyHealth, this`targetPlayer, this`currentState, this`waits
      ensures !hurtboxActive && currentState == Searching
      ensures data.Some? ==>
        attackRange == data.value.attackRange && sightRange == data.value.sightRange &&
        attackCooldown == data.value.attackCooldown && enemyHealth == data.value.health
      ensures data.None? ==>
        attackRange == old(attackRange) && sightRange == old(sightRange) &&
        attackCooldown == old(attackCooldown) && enemyHealth == old(enemyHealth)
      ensures players == [] ==> targetPlayer == old(targetPlayer)
      ensures players != [] ==> targetPlayer.Some? && Alive(targetPlayer, players)
      ensures var k := FirstNearest(Distances(position, players), |players|);
        targetPlayer == if k.Some? then Some(players[k.value].id) else old(targetPlayer)
      ensures waits == old(waits) + [Scheduling.Wait(delay, BeginBehaviour)]
      ensures canAttack == old(canAttack) && position == old(position) && behaviourRunning == old(behaviourRunning)
      ensures AttackLatch()
    {
      // StartDelayed is started last in the source; nothing below reads the waits
      var w := Scheduling.Wait(delay, BeginBehaviour);
      InFlightAppend(waits, [w]);
      InFlightSingle(w);
      waits := waits + [w];
      assert AttackLatch();
      hurtboxActive := false;
      ApplyData(data);
      FindNearestPlayer(players);
      currentState := Searching;
    }

    method Update(invulnerable: bool, players: seq<Body>, groundY: Option<real>)
      requires AttackLatch()
      modifies this`currentState, this`attackAnimation, this`targetPlayer, this`position
      ensures invulnerable ==>
        currentState == Hovering && !attackAnimation &&
        targetPlayer == old(targetPlayer) && position == old(position)
      ensures !invulnerable ==>
        currentState == old(currentState) && attackAnimation == old(attackAnimation) &&
        position == old(position).(y := ClampHeight(old(position).y, groundY, flightHeight))
      ensures !invulnerable && Alive(old(targetPlayer), players) ==> targetPlayer == old(targetPlayer)
      ensures !invulnerable && !Alive(old(targetPlayer), players) && players == [] ==>
        targetPlayer == old(targetPlayer)
      ensures !invulnerable && !Alive(old(targetPlayer), players) && players != [] ==>
        Alive(targetPlayer, players)
      ensures !invulnerable && !Alive(old(targetPlayer), players) ==>
        var k := FirstNearest(Distances(old(position), players), |players|);
        targetPlayer == if k.Some? then Some(players[k.value].id) else old(targetPlayer)
      ensures AttackLatch()
    {
      if invulnerable {
        currentState := Hovering;
        attackAnimation := false;
        return;
      }
      if !Alive(targetPlayer, players) {
        FindNearestPlayer(players);
      }
      position := position.(y := ClampHeight(position.y, groundY, flightHeight));
    }

    /** `UpdateAwareness`. */
    method UpdateAwareness(players: seq<Body>)
      modifies this`playerInSightRange, this`playerInAttackRange
      ensures (playerInSightRange, playerInAttackRange) ==
        Awareness(old(playerInSightRange), old(playerInAttackRange), position, Locate(targetPlayer, players),
                  sightRange, attackRange)
    {
      var target := Locate(targetPlayer, players);
      if target.None? {
        return;
      }
      playerInSightRange := Within(position, target.value, sightRange);
      playerInAttackRange := Within(position, target.value, attackRange);
    }

    /** The Searching case: look for an orbit target, then chase, hover or wander. */
    method SearchingStep(groundEnemies: seq<Option<Body>>, moved: Vec3)
      modifies this`orbitTarget, this`currentState, this`position, this`flyAnimation
      ensures var k := FirstNearest(Distances(old(position), Present(groundEnemies)), |Present(groundEnemies)|);
        orbitTarget == if k.Some? then Some(Present(groundEnemies)[k.value].id) else None
      ensures currentState == NextState(Searching, playerInSightRange, playerInAttackRange,
        Alive(orbitTarget, Present(groundEnemies)), true)
      ensures var wanders := currentState == Searching;
        position == (if wanders then moved else old(position)) && flyAnimation == (old(flyAnimation) || wanders)
    {
      FindOrbitTarget(groundEnemies);
      if playerInSightRange {
        currentState := Chasing;
      } else if orbitTarget.Some? {
        currentState := Hovering;
      } else {
        // Wander; the choice of wander point is not modelled
        currentState := Searching;
        position := moved;
        flyAnimation := true;
      }
    }

    /** The Hovering case: orbit a live orbit target, then chase or fall back. */
    method HoveringStep(groundEnemies: seq<Option<Body>>, moved: Vec3, dt: real)
      modifies this`currentState, this`orbitAngle, this`position, this`flyAnimation
      ensures var orbiting := Alive(orbitTarget, Present(groundEnemies));
        && currentState == NextState(Hovering, playerInSightRange, playerInAttackRange, orbiting, true)
        && orbitAngle == (if orbiting then old(orbitAngle) + hoverSpeed * dt else old(orbitAngle))
        && position == (if orbiting then moved else old(position))
        && flyAnimation == (old(flyAnimation) || orbiting)
    {
      currentState := Hovering;
      var orbiting := Alive(orbitTarget, Present(groundEnemies));
      // HoverAroundTarget
      if !orbiting {
        currentState := Searching;
      } else {
        orbitAngle := orbitAngle + hoverSpeed * dt;
        position := moved;
        flyAnimation := true;
      }
      if playerInSightRange {
        currentState := Chasing;
      } else if !orbiting {
        currentState := Searching;
      }
    }

    /** The Chasing case: follow a live target player (standing still while invulnerable),
        then attack or fall back. */
    method ChasingStep(invulnerable: bool, players: seq<Body>, moved: Vec3)
      modifies this`currentState, this`position, this`flyAnimation
      ensures var chasing := Alive(targetPlayer, players);
        && currentState == NextState(Chasing, playerInSightRange, playerInAttackRange, true, chasing)
        && position == (if chasing && !invulnerable then moved else old(position))
        && flyAnimation == (old(flyAnimation) || chasing)
    {
      currentState := Chasing;
      // ChasePlayer
      if !Alive(targetPlayer, players) {
        currentState := Searching;
      } else {
        if !invulnerable {
          position := moved;
        }
        flyAnimation := true;
      }
      if playerInAttackRange {
        currentState := Attacking;
      } else if !playerInSightRange {
        currentState := Searching;
      }
    }

    /** The Attacking case: start an attack sequence if the latch is open, then fall back to
        Chasing out of attack range. */
    method AttackingStep()
      requires AttackLatch()
      modifies this`currentState, this`canAttack, this`attackAnimation, this`waits
      ensures currentState == NextState(Attacking, playerInSightRange, playerInAttackRange, true, true)
      ensures old(canAttack) ==>
        !canAttack && attackAnimation && waits == old(waits) + [Scheduling.Wait(0.4, TelegraphEnd)]
      ensures !old(canAttack) ==>
        canAttack == old(canAttack) && attackAnimation == old(attackAnimation) && waits == old(waits)
      ensures AttackLatch()
    {
      currentState := Attacking;
      if canAttack {
        StartAttackSequence();
      }
      if !playerInAttackRange {
        currentState := Chasing;
      }
    }

    /** The `switch` of `BehaviorLoop`, after the awareness flags are refreshed. */
    method Dispatch(invulnerable: bool, players: seq<Body>, groundEnemies: seq<Option<Body>>,
                    moved: Vec3, dt: real)
      requires AttackLatch()
      modifies this`currentState, this`orbitTarget, this`orbitAngle, this`position, this`flyAnimation,
        this`canAttack, this`attackAnimation, this`waits
      ensures old(currentState) == Searching ==> (orbitTarget.None? <==> Present(groundEnemies) == [])
      ensures old(currentState) != Searching ==> orbitTarget == old(orbitTarget)
      ensures old(currentState) == Searching ==>
        var k := FirstNearest(Distances(old(position), Present(groundEnemies)), |Present(groundEnemies)|);
        orbitTarget == if k.Some? then Some(Present(groundEnemies)[k.value].id) else None
      ensures old(currentState) == Searching ==>
        var wanders := currentState == Searching;
        position == (if wanders then moved else old(position)) &&
        flyAnimation == (old(flyAnimation) || wanders) && orbitAngle == old(orbitAngle)
      ensures old(currentState) == Hovering ==>
        var orbiting := Alive(orbitTarget, Present(groundEnemies));
        orbitAngle == (if orbiting then old(orbitAngle) + hoverSpeed * dt else old(orbitAngle)) &&
        position == (if orbiting then moved else old(position)) &&
        flyAnimation == (old(flyAnimation) || orbiting)
      ensures old(currentState) == Chasing ==>
        var chasing := Alive(targetPlayer, players);
        position == (if chasing && !invulnerable then moved else old(position)) &&
        flyAnimation == (old(flyAnimation) || chasing) && orbitAngle == old(orbitAngle)
      ensures old(currentState) == Attacking ==>
        position == old(position) && flyAnimation == old(flyAnimation) && orbitAngle == old(orbitAngle)
      ensures currentState == NextState(old(currentState), playerInSightRange, playerInAttackRange,
        Alive(orbitTarget, Present(groundEnemies)), Alive(targetPlayer, players))
      ensures old(currentState) == Attacking && old(canAttack) ==>
        !canAttack && attackAnimation && waits == old(waits) + [Scheduling.Wait(0.4, TelegraphEnd)]
      ensures !(old(currentState) == Attacking && old(canAttack)) ==>
        canAttack == old(canAttack) && attackAnimation == old(attackAnimation) && waits == old(waits)
      ensures AttackLatch()
    {
      match currentState {
        case Searching => SearchingStep(groundEnemies, moved);
        case Hovering => HoveringStep(groundEnemies, moved, dt);
        case Chasing => ChasingStep(invulnerable, players, moved);
        case Attacking => AttackingStep();
      }
    }

    /** One pass of `BehaviorLoop`. `moved` is where `MoveToward` takes the enemy this
        frame and `dt` is the frame time; both come from the engine. */
    method BehaviorStep(invulnerable: bool, players: seq<Body>, groundEnemies: seq<Option<Body>>,
                        moved: Vec3, dt: real)
      requires behaviourRunning
      requires AttackLatch()
      modifies this`playerInSightRange, this`playerInAttackRange, this`currentState, this`orbitTarget,
        this`orbitAngle, this`position, this`flyAnimation, this`canAttack, this`attackAnimation, this`waits
      ensures (playerInSightRange, playerInAttackRange) ==
        Awareness(old(playerInSightRange), old(playerInAttackRange), old(position), Locate(targetPlayer, players),
                  sightRange, attackRange)
      ensures old(currentState) == Searching ==> (orbitTarget.None? <==> Present(groundEnemies) == [])
      ensures old(currentState) != Searching ==> orbitTarget == old(orbitTarget)
      ensures old(currentState) == Searching ==>
        var k := FirstNearest(Distances(old(position), Present(groundEnemies)), |Present(groundEnemies)|);
        orbitTarget == if k.Some? then Some(Present(groundEnemies)[k.value].id) else None
      ensures old(currentState) == Searching ==>
        var wanders := currentState == Searching;
        position == (if wanders then moved else old(position)) &&
        flyAnimation == (old(flyAnimation) || wanders) && orbitAngle == old(orbitAngle)
      ensures old(currentState) == Hovering ==>
        var orbiting := Alive(orbitTarget, Present(groundEnemies));
        orbitAngle == (if orbiting then old(orbitAngle) + hoverSpeed * dt else old(orbitAngle)) &&
        position == (if orbiting then moved else old(position)) &&
        flyAnimation == (old(flyAnimation) || orbiting)
      ensures old(currentState) == Chasing ==>
        var chasing := Alive(targetPlayer, players);
        position == (if chasing && !invulnerable then moved else old(position)) &&
        flyAnimation == (old(flyAnimation) || chasing) && orbitAngle == old(orbitAngle)
      ensures old(currentState) == Attacking ==>
        position == old(position) && flyAnimation == old(flyAnimation) && orbitAngle == old(orbitAngle)
      ensures currentState == NextState(old(currentState), playerInSightRange, playerInAttackRange,
        Alive(orbitTarget, Present(groundEnemies)), Alive(targetPlayer, players))
      ensures old(currentState) == Attacking && old(canAttack) ==>
        !canAttack && attackAnimation && waits == old(waits) + [Scheduling.Wait(0.4, TelegraphEnd)]
      ensures !(old(currentState) == Attacking && old(canAttack)) ==>
        canAttack == old(canAttack) && attackAnimation == old(attackAnimation) && waits == old(waits)
      ensures AttackLatch()
    {
      UpdateAwareness(players);
      Dispatch(invulnerable, players, groundEnemies, moved, dt);
    }

    /** `AttackSequence` runs to its first wait at once: the latch closes, the attack
        animation is triggered and the telegraph wait starts. */
    method StartAttackSequence()
      requires AttackLatch() && canAttack
      modifies this`canAttack, this`attackAnimation, this`waits
      ensures !canAttack && attackAnimation && waits == old(waits) + [Scheduling.Wait(0.4, TelegraphEnd)]
      ensures AttackLatch()
    {
      canAttack := false;
      attackAnimation := true;
      var w := Scheduling.Wait(0.4, TelegraphEnd);
      InFlightAppend(waits, [w]);
      InFlightSingle(w);
      waits := waits + [w];
    }

    /** `TakeDamage`: no clamping and no dead-guard; at or below zero the death animation is
        triggered and destruction is scheduled two seconds later, once per such call. */
    method TakeDamage(dmg: real)
      requires AttackLatch()
      modifies this`enemyHealth, this`deadAnimation, this`waits
      ensures enemyHealth == old(enemyHealth) - dmg
      ensures deadAnimation == (old(deadAnimation) || enemyHealth <= 0.0)
      ensures waits == old(waits) + (if enemyHealth <= 0.0 then [Scheduling.Wait(2.0, DeathEnd)] else [])
      ensures AttackLatch()
    {
      enemyHealth := enemyHealth - dmg;
      if enemyHealth <= 0.0 {
        deadAnimation := true;
        var w := Scheduling.Wait(2.0, DeathEnd);
        InFlightAppend(waits, [w]);
        InFlightSingle(w);
        assert InFlight(waits + [w]) == InFlight(waits);
        waits := waits + [w];
      }
    }

    /** The fields `Step` describes. */
    function Snapshot(): Timers
      reads this
    {
      Timers(behaviourRunning, hurtboxActive, canAttack, destroyed, waits)
    }

    /** One continuation resumes. */
    method Resume(e: Resume, invulnerable: bool)
      modifies this`behaviourRunning, this`hurtboxActive, this`canAttack, this`destroyed, this`waits
      ensures Snapshot() == Step(old(Snapshot()), e, invulnerable, attackCooldown)
    {
      match e {
        case BeginBehaviour => behaviourRunning := true;
        case TelegraphEnd =>
          // AttackSequence after its 0.4 s wait
          hurtboxActive := !invulnerable;
        case StrikeEnd => hurtboxActive := false;
        case CooldownEnd => canAttack := true;
        case DeathEnd => destroyed := true;
      }
      waits := waits + FollowUp(e, invulnerable, attackCooldown);
    }

    /** `dt` seconds pass; `invulnerable` is the invulnerability query while the
        continuations run. */
    method Elapse(dt: real, invulnerable: bool)
      requires AttackLatch()
      modifies this`behaviourRunning, this`hurtboxActive, this`canAttack, this`destroyed, this`waits
      ensures var due := Scheduling.Due(Scheduling.Countdown(old(waits), dt));
        Snapshot() == Steps(old(Snapshot()).(waits := Scheduling.Later(Scheduling.Countdown(old(waits), dt))),
                            due, invulnerable, attackCooldown)
      ensures var due := Scheduling.Due(Scheduling.Countdown(old(waits), dt));
        && behaviourRunning == (old(behaviourRunning) || BeginBehaviour in due)
        && canAttack == (old(canAttack) || CooldownEnd in due)
        && destroyed == (old(destroyed) || DeathEnd in due)
        && waits == Scheduling.Later(Scheduling.Countdown(old(waits), dt)) + FollowUps(due, invulnerable, attackCooldown)
        && (invulnerable ==> (hurtboxActive <==> old(hurtboxActive) && TelegraphEnd !in due && StrikeEnd !in due))
      ensures AttackLatch()
    {
      var ws := Scheduling.Countdown(waits, dt);
      var due := Scheduling.Due(ws);
      ElapseSplitsInFlight(waits, dt);
      waits := Scheduling.Later(ws);
      ghost var start := Snapshot();
      StepsEffect(start, due, invulnerable, attackCooldown);
      StepsKeepLatch(start, due, invulnerable, attackCooldown);
      ResumeAll(due, invulnerable);
    }

    /** The continuations `due` resume one after another. */
    method ResumeAll(due: seq<Resume>, invulnerable: bool)
      modifies this`behaviourRunning, this`hurtboxActive, this`canAttack, this`destroyed, this`waits
      ensures Snapshot() == Steps(old(Snapshot()), due, invulnerable, attackCooldown)
    {
      ghost var start := Snapshot();
      var k := 0;
      while k < |due|
        invariant 0 <= k <= |due|
        invariant Steps(Snapshot(), due[k..], invulnerable, attackCooldown) == Steps(start, due, invulnerable, attackCooldown)
      {
        assert due[k..][1..] == due[k + 1..];
        Resume(due[k], invulnerable);
        k := k + 1;
      }
    }
  }
}

# 4555-3D-game core rules in Dafny

A model of the discrete game rules of the Unity game 4555-3D-game. Each core C# script is one
Dafny module. The module carries the script's name and holds a class of the same name, and
the class has the script's fields. Methods change those fields as the C# methods do. Pure
functions and lemmas next to each class state what the methods compute and which
properties hold over many calls. The model covers:

- **Health pools.** `PlayerHealth` keeps quarter hearts, clamped at 0 and at the maximum.
  `EnemyHealth` keeps an unclamped float pool that requests destruction at or below 0.
- **Heart display.** `PlayerUIManager` turns a health value into heart fill levels (0 to 4).
  `AssignUI` creates the hearts and `UpdateHealthUI` refills them.
- **Hurtboxes.** `HurtBox` damages enemy-tagged colliders and then retires.
- **Ground enemy.** `EnemyController` has a decision table, a walk-point rule, attacks and
  damage cooldowns.
- **Flying enemy.** `FlyingEnemyController` has a four-state behaviour loop, an
  invulnerability override, nearest-target search and an attack latch. Its height is
  clamped to stay close to the ground.
- **Inventory and durability.** `Inventory` uses first-empty insertion, replaces the
  current item when full, and cycles slots with wrap-around. `ItemInstance` tracks
  durability.
- **Waves.** `DemonSpawner` respawns its own wave. `LevelSpawnController` coordinates waves
  across the level.
- **Loot lookup.** `LevelLootConfig` and `LootTable`.
- **Game over.** `GameManager` runs the death counter, the death screen and the time
  scale.
- **Device assignment.** `DeviceAssignmentManager` handles per-frame device assignment.
  `DeviceAssignmentUI` handles the start gate and the ready flags.

Modelling conventions:

- **Coroutines and timers.** `WaitForSeconds`, `Invoke(name, t)` and `Destroy(obj, t)`
  become explicit pending waits. Each object keeps them in a `waits` sequence (module
  `Scheduling`).
  - An `Elapse(dt)` method is one frame. It counts every wait down and resumes the ones
    that have run out, in the order they were started.
  - A resumed coroutine may start its next wait. That wait can only run out in a later
    frame.
  - Where the source has a one-coroutine latch (`isSpawning`, `waitingForWave`,
    `canAttack`), a class predicate ties the flag to the pending waits. Every method keeps
    it.
- **Engine inputs.** These are parameters of the method that uses them:
  - physics queries (`CheckSphere`, `Raycast`);
  - random draws;
  - the objects found in the scene;
  - whether an object still exists, since a destroyed object compares equal to null;
  - device input;
  - the `IsInvulnerable` query.
- **Numbers.** Floats are reals. `Vector3.Distance(a, b) < r` is decided on squared
  distances (module `Geometry`). C#'s truncating `/` and `%` are written out where a
  negative operand can reach them (`PlayerUIManager.CsDiv`, `CsRem`).
- **Null references.** A reference that may be null (an empty inventory slot, no target, no
  device in a slot, no entry drawn) is an `Option` (module `Wrappers`), `None` for null.
- **Side effects.** Sprites, animator parameters, scene loads, spawned pickups and event
  invocations are recorded as flags, logs or counters.

The ground enemy's tuning fields are never assigned: `walkPointRange`, `sightRange`,
`attackRange`, `enemyHealth`, `attackCooldown` and `damageCooldown` are private, are not
serialized, and nothing in `EnemyController.cs` writes them. They therefore keep C#'s
default of zero, and the model starts them at zero.
- Every hit of any positive damage takes the enemy's health to 0 or below.
- So every such hit schedules `DestroyEnemy`.

## Model

| member | source | states |
|---|---|---|
| `PlayerHealth.AfterDamage` | 4555-3D-game/Assets/Scripts/PlayerHealth.cs:28 | damage never takes health below 0; the result is 0 exactly when the damage reaches the health, and otherwise health minus damage; non-negative damage never raises health, and positive damage on positive health lowers it |
| `PlayerHealth.AfterHeal` | 4555-3D-game/Assets/Scripts/PlayerHealth.cs:42 | healing never exceeds the maximum; it lands on the maximum exactly when health plus amount reaches it, otherwise it adds the amount; non-negative healing never lowers health |
| `PlayerHealth.ReplayStaysInRange` | 4555-3D-game/Assets/Scripts/PlayerHealth.cs:26-50 | any sequence of damage and heal calls with non-negative amounts keeps 0 <= current <= max |
| `PlayerHealth.HealFromEmpty` | 4555-3D-game/Assets/Scripts/PlayerHealth.cs:40-50 | there is no terminal state: healing at 0 health raises it |
| `PlayerHealth.PlayerHealth.TakeDamage` | 4555-3D-game/Assets/Scripts/PlayerHealth.cs:26-38 | current becomes AfterDamage of the old current; max is unchanged; the range invariant is kept for non-negative damage |
| `PlayerHealth.PlayerHealth.Heal` | 4555-3D-game/Assets/Scripts/PlayerHealth.cs:40-50 | current becomes AfterHeal of the old current and max; max is unchanged; the range invariant is kept for non-negative amounts |
| `PlayerHealth.PlayerHealth.GetMaxHealth` | 4555-3D-game/Assets/Scripts/PlayerHealth.cs:53-56 | returns the stored maximum |
| `PlayerHealth.PlayerHealth.GetCurrentHealth` | 4555-3D-game/Assets/Scripts/PlayerHealth.cs:58-61 | returns the stored current health |
| `PlayerHealth.PlayerHealth.SetMaxHealth` | 4555-3D-game/Assets/Scripts/PlayerHealth.cs:63-67 | sets both max and current to the argument |
| `EnemyHealth.HealthAfterSubtractsTotal` | 4555-3D-game/Assets/Scripts/EnemyHealth.cs:13-15 | a run of hits lowers health by exactly their total, with no clamping |
| `EnemyHealth.EveryHitAfterDeathCallsDie` | 4555-3D-game/Assets/Scripts/EnemyHealth.cs:13-22 | there is no dead-guard: once health is at or below 0, every further non-negative hit calls Die again |
| `EnemyHealth.NoDieWhileAlive` | 4555-3D-game/Assets/Scripts/EnemyHealth.cs:18-21 | Die is not called by any hit that leaves health above 0 |
| `EnemyHealth.EnemyHealth.Start` | 4555-3D-game/Assets/Scripts/EnemyHealth.cs:8-11 | current health becomes the maximum |
| `EnemyHealth.EnemyHealth.TakeDamage` | 4555-3D-game/Assets/Scripts/EnemyHealth.cs:13-22 | subtracts exactly the amount and requests destruction iff the new health is at or below 0 |
| `EnemyHealth.EnemyHealth.Die` | 4555-3D-game/Assets/Scripts/EnemyHealth.cs:24-28 | one more destruction request, health untouched |
| `PlayerUIManager.Fill` | 4555-3D-game/Assets/Scripts/PlayerUIManager.cs:134-160 | every heart fill level is between 0 and 4 |
| `PlayerUIManager.DisplayedTotal` | 4555-3D-game/Assets/Scripts/PlayerUIManager.cs:132-160 | n hearts display min(max(hp, 0), 4n) quarters in total |
| `PlayerUIManager.AssignedHeartsSumToHP` | 4555-3D-game/Assets/Scripts/PlayerUIManager.cs:59-103 | the hearts AssignUI creates hold exactly the maximum health in quarters |
| `PlayerUIManager.FillNonIncreasing` | 4555-3D-game/Assets/Scripts/PlayerUIManager.cs:134-160 | fill levels never increase along the heart index |
| `PlayerUIManager.AssignedHeartShape` | 4555-3D-game/Assets/Scripts/PlayerUIManager.cs:80-99 | every created heart is full except the last, which holds hp mod 4 quarters (4 when that is 0) |
| `PlayerUIManager.HeartIndexMatchesCount` | 4555-3D-game/Assets/Scripts/PlayerUIManager.cs:59-130 | for non-negative max health, maxHeartIndex + 1 equals the number of hearts AssignUI creates, ceil(max/4) |
| `PlayerUIManager.PrefixLess` | 4555-3D-game/Assets/Scripts/PlayerUIManager.cs:126 | the shared "Heart" prefix does not change how two heart names compare |
| `PlayerUIManager.NameRankUpToTen` | 4555-3D-game/Assets/Scripts/PlayerUIManager.cs:73-126 | with at most ten hearts, sorting the images by name puts heart k at position k |
| `PlayerUIManager.NameSortMisplacesHearts` | 4555-3D-game/Assets/Scripts/PlayerUIManager.cs:126-160 | with eleven hearts "Heart10" sorts to position 2 and "Heart9" to position 10, so at 42 quarters the last heart is drawn full and heart 9 half |
| `PlayerUIManager.NumberRankIsIndex` | 4555-3D-game/Assets/Scripts/PlayerUIManager.cs:124-126 | the order the sort is meant to give, by heart number, puts heart k at position k for any number of hearts |
| `PlayerUIManager.PlayerUIManager.AssignUI` | 4555-3D-game/Assets/Scripts/PlayerUIManager.cs:34-104 | an index other than 0 or 1 changes nothing; otherwise that panel is shown, ceil(max/4) hearts are created with the fill levels of the maximum health, and the spacing is negated for player 2 on every call |
| `PlayerUIManager.PlayerUIManager.UpdateHealthUI` | 4555-3D-game/Assets/Scripts/PlayerUIManager.cs:106-173 | with the panel in heart-number order, hearts 0..maxHeartIndex get the fill of the current health and are mirrored iff player 2; other hearts, other indices and a missing panel are untouched |
| `HurtBox.HurtBox.Start` | 4555-3D-game/Assets/Scripts/HurtBox.cs:19-23 | the collider becomes a trigger and destruction after the current `lifetime` is scheduled, hit or no hit; nothing else changes |
| `HurtBox.HurtBox.FixedUpdate` | 4555-3D-game/Assets/Scripts/HurtBox.cs:25-32 | the box moves only when it is a projectile with a rigidbody |
| `HurtBox.HurtBox.OnTriggerEnter` | 4555-3D-game/Assets/Scripts/HurtBox.cs:34-45 | only an "Enemy"-tagged collider takes exactly `damage`, after which the box is destroyed; any other contact changes nothing; an "Enemy"-tagged collider without `EnemyHealth` throws before `Destroy`, so the box survives; no owner or earlier-hit check |
| `HurtBox.HurtBox.Elapse` | 4555-3D-game/Assets/Scripts/HurtBox.cs:22 | the box is destroyed once its lifetime has run out |
| `EnemyController.Decide` | 4555-3D-game/Assets/Scripts/EnemyController.cs:47-62 | the four-way decision table, each behaviour stated as an if-and-only-if over (in sight, in attack range, was attacked) |
| `EnemyController.WasAttackedMattersOnlyOutOfSight` | 4555-3D-game/Assets/Scripts/EnemyController.cs:59-62 | `wasAttacked` changes the decision exactly when the player is in attack range but not in sight |
| `EnemyController.NestedRangesNeverStall` | 4555-3D-game/Assets/Scripts/EnemyController.cs:47-62 | when attack range implies sight, some behaviour always runs |
| `EnemyController.RandomRange` | 4555-3D-game/Assets/Scripts/EnemyController.cs:88-89 | a float draw lies between the two bounds |
| `EnemyController.ZeroRangeSamplesOwnPosition` | 4555-3D-game/Assets/Scripts/EnemyController.cs:86-96 | with the unassigned (zero) walk-point range the sampled point is the enemy's own position, within distance 1 |
| `EnemyController.EnemyController.Update` | 4555-3D-game/Assets/Scripts/EnemyController.cs:42-63 | runs the behaviour Decide picks: patrol, chase (destination is the player, not stopped), attack (halt; only when not recently hit: attack animation, cooldown started, and 1 damage iff the forward ray hits and a `playerHealth` is set; with none, the call throws after the cooldown started), or nothing at all; each branch names every field it leaves alone, and no branch touches the tuning fields, health or the death state |
| `EnemyController.EnemyController.IdleWalk` | 4555-3D-game/Assets/Scripts/EnemyController.cs:65-96 | a new walk point is sampled only when none is set, it is marked set only when the ground ray hits, and it is cleared once within distance 1 |
| `EnemyController.EnemyController.Chase` | 4555-3D-game/Assets/Scripts/EnemyController.cs:97-102 | destination is the player, speed 0.6, not stopped |
| `EnemyController.EnemyController.Attack` | 4555-3D-game/Assets/Scripts/EnemyController.cs:103-120 | always halts; when not recently hit, `canAttack` is set then cleared by the started cooldown, and the player takes 1 damage iff the ray hits; with a null `playerHealth` (nothing assigns it) a hit throws after the cooldown started, leaving the state of a miss |
| `EnemyController.EnemyController.TakeDamage` | 4555-3D-game/Assets/Scripts/EnemyController.cs:122-131 | subtracts the damage, sets `wasAttacked` with a cooldown wait, and schedules destruction iff health is at or below 0 |
| `EnemyController.EnemyController.Resume` | 4555-3D-game/Assets/Scripts/EnemyController.cs:133-157 | each coroutine continuation: cooldown ends restore `canAttack` / clear `wasAttacked`; DestroyEnemy starts the death animation and its 2-second wait; the death wait destroys |
| `EnemyController.EnemyController.Elapse` | 4555-3D-game/Assets/Scripts/EnemyController.cs:138-157 | the continuations whose waits ran out resume in order; each flag is the old one updated by whether its continuation was due |
| `FlyingEnemyController.Lookup` | 4555-3D-game/Assets/Scripts/FlyingEnemyController.cs:60-131 | a stored reference is null exactly when no scene object has its id |
| `FlyingEnemyController.PresentKeepsFound` | 4555-3D-game/Assets/Scripts/FlyingEnemyController.cs:145-147 | skipping null entries keeps only found objects, and leaves nothing exactly when all entries are null |
| `FlyingEnemyController.FirstNearestIsNearest` | 4555-3D-game/Assets/Scripts/FlyingEnemyController.cs:138-157 | the strict running minimum picks a nearest object, and the first of several equally near ones |
| `FlyingEnemyController.Nearest` | 4555-3D-game/Assets/Scripts/FlyingEnemyController.cs:138-157 | the `foreach` with `minDist` computes the first nearest index |
| `FlyingEnemyController.Awareness` | 4555-3D-game/Assets/Scripts/FlyingEnemyController.cs:129-136 | with no target the flags are unchanged; otherwise each flag is the strict `dist < range` test |
| `FlyingEnemyController.AttackRangeImpliesSight` | 4555-3D-game/Assets/Scripts/FlyingEnemyController.cs:129-136 | with attack range inside sight range, the refreshed flags keep "in attack range implies in sight" |
| `FlyingEnemyController.NextState` | 4555-3D-game/Assets/Scripts/FlyingEnemyController.cs:89-197 | each next state as an if-and-only-if over the current state, the flags and whether the orbit target and player still exist |
| `FlyingEnemyController.NeverSeenNeverChases` | 4555-3D-game/Assets/Scripts/FlyingEnemyController.cs:91-107 | without the player ever in sight the enemy stays in Searching or Hovering |
| `FlyingEnemyController.NeverInRangeNeverAttacks` | 4555-3D-game/Assets/Scripts/FlyingEnemyController.cs:109-122 | without the player ever in attack range a non-attacking enemy never attacks |
| `FlyingEnemyController.ClampHeight` | 4555-3D-game/Assets/Scripts/FlyingEnemyController.cs:244-255 | height is never raised, is at most ground plus flight height when the ray hits, and is one of the two |
| `FlyingEnemyController.StagesCountsMultiset` | 4555-3D-game/Assets/Scripts/FlyingEnemyController.cs:214-235 | the count of attack stages is the multiset count of the three stage continuations |
| `FlyingEnemyController.StagesAppend` | 4555-3D-game/Assets/Scripts/FlyingEnemyController.cs:214-235 | attack stages add up over concatenation |
| `FlyingEnemyController.ElapseSplitsInFlight` | 4555-3D-game/Assets/Scripts/FlyingEnemyController.cs:219-233 | a frame neither loses nor creates attack stages: those due plus those still waiting equal those before |
| `FlyingEnemyController.ResumeKeepsInFlight` | 4555-3D-game/Assets/Scripts/FlyingEnemyController.cs:219-234 | resuming a stage hands over to the next stage, except the cooldown end, which closes the sequence |
| `FlyingEnemyController.FollowUpInFlight` | 4555-3D-game/Assets/Scripts/FlyingEnemyController.cs:219-233 | only the telegraph and strike ends start a further stage |
| `FlyingEnemyController.StepsEffect` | 4555-3D-game/Assets/Scripts/FlyingEnemyController.cs:214-235 | after a run of continuations: the loop is running, `canAttack` restored and the object destroyed iff the matching continuation ran; while invulnerable the hurtbox is never switched on |
| `FlyingEnemyController.StepsKeepLatch` | 4555-3D-game/Assets/Scripts/FlyingEnemyController.cs:118-234 | resuming continuations keeps "`canAttack` iff no attack sequence in flight, and at most one in flight" |
| `FlyingEnemyController.FlyingEnemyController.ApplyData` | 4555-3D-game/Assets/Scripts/FlyingEnemyController.cs:66-74 | a missing asset changes nothing; otherwise the four tuning values are copied |
| `FlyingEnemyController.FlyingEnemyController.FindNearestPlayer` | 4555-3D-game/Assets/Scripts/FlyingEnemyController.cs:270-288 | the first nearest player becomes the target; with no player the old target is kept |
| `FlyingEnemyController.FlyingEnemyController.FindOrbitTarget` | 4555-3D-game/Assets/Scripts/FlyingEnemyController.cs:138-157 | the first nearest non-null ground enemy, or null when there is none |
| `FlyingEnemyController.FlyingEnemyController.Start` | 4555-3D-game/Assets/Scripts/FlyingEnemyController.cs:37-78 | hurtbox off, data applied, the first nearest player targeted (the old target kept when there is none), state Searching, and the behaviour loop pending after the random delay; no other field changes |
| `FlyingEnemyController.FlyingEnemyController.Update` | 4555-3D-game/Assets/Scripts/FlyingEnemyController.cs:49-64 | while invulnerable: state forced to Hovering, attack animation off, nothing else; otherwise a lost target is replaced by the first nearest player (kept when there is none), a live one is kept, and the height is clamped |
| `FlyingEnemyController.FlyingEnemyController.UpdateAwareness` | 4555-3D-game/Assets/Scripts/FlyingEnemyController.cs:129-136 | the flags become Awareness of the old flags and the current target |
| `FlyingEnemyController.FlyingEnemyController.SearchingStep` | 4555-3D-game/Assets/Scripts/FlyingEnemyController.cs:91-99 | the orbit target becomes the first nearest live ground enemy from where the enemy stands, then the next state; the enemy wanders only when it stays Searching |
| `FlyingEnemyController.FlyingEnemyController.HoveringStep` | 4555-3D-game/Assets/Scripts/FlyingEnemyController.cs:101-174 | orbits only a live orbit target, then the next state |
| `FlyingEnemyController.FlyingEnemyController.ChasingStep` | 4555-3D-game/Assets/Scripts/FlyingEnemyController.cs:109-212 | follows a live target, standing still while invulnerable, then the next state |
| `FlyingEnemyController.FlyingEnemyController.AttackingStep` | 4555-3D-game/Assets/Scripts/FlyingEnemyController.cs:117-122 | a sequence starts only when `canAttack`; out of attack range the state goes back to Chasing; the latch is kept |
| `FlyingEnemyController.FlyingEnemyController.Dispatch` | 4555-3D-game/Assets/Scripts/FlyingEnemyController.cs:89-123 | the switch: the next state is NextState; from Searching the orbit target is the first nearest ground enemy and the enemy wanders iff it stays Searching; from Hovering it orbits (angle and position) iff the orbit target lives; from Chasing it moves iff the player lives and it is not invulnerable; from Attacking it does not move; an attack starts only from Attacking with the latch open |
| `FlyingEnemyController.FlyingEnemyController.BehaviorStep` | 4555-3D-game/Assets/Scripts/FlyingEnemyController.cs:83-127 | one loop pass: awareness refreshed, then the switch with everything Dispatch states about state, orbit target, movement and the attack, keeping the attack latch |
| `FlyingEnemyController.FlyingEnemyController.StartAttackSequence` | 4555-3D-game/Assets/Scripts/FlyingEnemyController.cs:214-219 | the latch closes at once, the attack animation fires and the telegraph wait starts |
| `FlyingEnemyController.FlyingEnemyController.TakeDamage` | 4555-3D-game/Assets/Scripts/FlyingEnemyController.cs:290-298 | no clamping and no dead-guard; at or below 0 the death animation and a 2-second destroy are scheduled |
| `FlyingEnemyController.FlyingEnemyController.Resume` | 4555-3D-game/Assets/Scripts/FlyingEnemyController.cs:219-234 | one continuation changes the state as Step says |
| `FlyingEnemyController.FlyingEnemyController.Elapse` | 4555-3D-game/Assets/Scripts/FlyingEnemyController.cs:214-235 | the due continuations resume in order, as Steps says; the attack latch is kept |
| `Inventory.FirstEmpty` | 4555-3D-game/Assets/Scripts/Inventory.cs:25-33 | the lowest-index empty slot, and none exactly when every slot is occupied |
| `Inventory.FillingOccupiesOneMore` | 4555-3D-game/Assets/Scripts/Inventory.cs:27-29 | filling an empty slot occupies exactly one more slot |
| `Inventory.FullMeansNoEmpty` | 4555-3D-game/Assets/Scripts/Inventory.cs:25-35 | the replace-current path is taken exactly when every slot is occupied |
| `Inventory.Next` | 4555-3D-game/Assets/Scripts/Inventory.cs:57 | the next index stays in range and wraps from the last slot to 0 |
| `Inventory.Prev` | 4555-3D-game/Assets/Scripts/Inventory.cs:63 | the previous index stays in range and wraps from 0 to the last slot |
| `Inventory.NextPrevInverse` | 4555-3D-game/Assets/Scripts/Inventory.cs:55-65 | `NextSlot` then `PreviousSlot`, or the reverse, returns to the same slot |
| `Inventory.AdvanceBeforeWrap` | 4555-3D-game/Assets/Scripts/Inventory.cs:57 | before the wrap, k presses of next move k slots: empty slots are not skipped |
| `Inventory.AdvanceComposes` | 4555-3D-game/Assets/Scripts/Inventory.cs:57 | presses of next compose |
| `Inventory.FullCycle` | 4555-3D-game/Assets/Scripts/Inventory.cs:57 | as many presses as slots come back to the start |
| `Inventory.Reaches` | 4555-3D-game/Assets/Scripts/Inventory.cs:57 | every slot is reached from any other in fewer presses than there are slots |
| `Inventory.PickupOf` | 4555-3D-game/Assets/Scripts/Inventory.cs:43-50 | a drop spawns a pickup exactly when the item is non-null and has a pickup prefab |
| `Inventory.Inventory.constructor` | 4555-3D-game/Assets/Scripts/Inventory.cs:10-13 | `defaultSlotCount` slots, all empty |
| `Inventory.Inventory.AddItem` | 4555-3D-game/Assets/Scripts/Inventory.cs:15-39 | equipment replaces the equipment slot only; otherwise the lowest empty slot is filled, or, when full, the current item is dropped and replaced; all other slots unchanged; always true; the index never moves |
| `Inventory.Inventory.DropItem` | 4555-3D-game/Assets/Scripts/Inventory.cs:41-53 | null is a no-op; otherwise a pickup is spawned iff the item has a prefab |
| `Inventory.Inventory.NextSlot` | 4555-3D-game/Assets/Scripts/Inventory.cs:55-59 | the index becomes Next of the old one |
| `Inventory.Inventory.PreviousSlot` | 4555-3D-game/Assets/Scripts/Inventory.cs:61-65 | the index becomes Prev of the old one |
| `Inventory.Inventory.GetCurrentItem` | 4555-3D-game/Assets/Scripts/Inventory.cs:67 | returns the current slot |
| `ItemInstance.InitialDurability` | 4555-3D-game/Assets/Scripts/ItemInstance.cs:12-13 | a weapon starts at its maximum durability, anything else at 0 |
| `ItemInstance.Reduced` | 4555-3D-game/Assets/Scripts/ItemInstance.cs:18 | never below 0 and never below durability minus amount; exactly that difference when 0 <= amount <= durability; non-negative wear never raises durability |
| `ItemInstance.SumNonNegative` | 4555-3D-game/Assets/Scripts/ItemInstance.cs:18 | non-negative amounts add up to a non-negative total |
| `ItemInstance.ReductionsAccumulate` | 4555-3D-game/Assets/Scripts/ItemInstance.cs:18 | from a non-negative start, successive non-negative reductions equal one reduction by their sum |
| `ItemInstance.BrokenStaysBroken` | 4555-3D-game/Assets/Scripts/ItemInstance.cs:18-21 | a broken instance stays broken under non-negative wear |
| `ItemInstance.ItemInstance.constructor` | 4555-3D-game/Assets/Scripts/ItemInstance.cs:8-14 | stores the base item and the initial durability of its kind |
| `ItemInstance.ItemInstance.ReduceDurability` | 4555-3D-game/Assets/Scripts/ItemInstance.cs:16-19 | durability becomes Reduced of the old one; the result is broken iff the amount reached the old durability; `baseItem` untouched |
| `ItemInstance.ItemInstance.IsBroken` | 4555-3D-game/Assets/Scripts/ItemInstance.cs:21 | broken iff durability <= 0 |
| `DemonSpawner.ImpsPerWave` | 4555-3D-game/Assets/Scripts/DemonSpawner.cs:58 | the imp loop runs `impCount` times, or not at all for a negative count |
| `DemonSpawner.SurvivorsMembers` | 4555-3D-game/Assets/Scripts/DemonSpawner.cs:43 | cleaning keeps exactly the tracked imps that still exist |
| `DemonSpawner.SurvivorsIdempotent` | 4555-3D-game/Assets/Scripts/DemonSpawner.cs:43 | cleaning twice removes nothing more |
| `DemonSpawner.SurvivorsAppend` | 4555-3D-game/Assets/Scripts/DemonSpawner.cs:43 | cleaning distributes over a split of the list |
| `DemonSpawner.DemonSpawner.Start` | 4555-3D-game/Assets/Scripts/DemonSpawner.cs:22-25 | a wave is spawned at start |
| `DemonSpawner.DemonSpawner.SpawnWave` | 4555-3D-game/Assets/Scripts/DemonSpawner.cs:47-65 | clears the spawning mark, tracks one new demon and exactly `impCount` new imps, in order |
| `DemonSpawner.DemonSpawner.AllImpsGone` | 4555-3D-game/Assets/Scripts/DemonSpawner.cs:40-45 | removes the destroyed imps in place, keeping order, and reports true iff none remain |
| `DemonSpawner.DemonSpawner.Update` | 4555-3D-game/Assets/Scripts/DemonSpawner.cs:27-38 | a respawn starts only if automatic, not already spawning, the demon is gone and all imps are gone; the imp list is cleaned only when the demon is gone; at most one respawn is pending |
| `DemonSpawner.DemonSpawner.RespawnAfterDelay` | 4555-3D-game/Assets/Scripts/DemonSpawner.cs:67-70 | the spawning mark is set before the delay starts |
| `DemonSpawner.DemonSpawner.Elapse` | 4555-3D-game/Assets/Scripts/DemonSpawner.cs:70-71 | once the delay runs out the next wave is spawned and the mark cleared; otherwise nothing changes; at most one respawn is pending |
| `LevelSpawnController.AllEnemiesCleared` | 4555-3D-game/Assets/Scripts/LevelSpawnController.cs:28-36 | true iff every demon spawner reports cleared; true with none |
| `LevelSpawnController.WaveCallsEachOnce` | 4555-3D-game/Assets/Scripts/LevelSpawnController.cs:45-50 | a wave calls each demon spawner and each item spawner exactly once, all demon spawners first |
| `LevelSpawnController.LevelSpawnController.constructor` | 4555-3D-game/Assets/Scripts/LevelSpawnController.cs:14-18 | the spawners found, not waiting, nothing pending |
| `LevelSpawnController.LevelSpawnController.Update` | 4555-3D-game/Assets/Scripts/LevelSpawnController.cs:20-26 | the next wave starts iff not waiting and all are cleared; at most one wave is pending |
| `LevelSpawnController.LevelSpawnController.StartNextWave` | 4555-3D-game/Assets/Scripts/LevelSpawnController.cs:38-42 | the waiting mark is set before the delay starts |
| `LevelSpawnController.LevelSpawnController.SpawnWave` | 4555-3D-game/Assets/Scripts/LevelSpawnController.cs:44-52 | appends the wave's calls and clears the waiting mark |
| `LevelSpawnController.LevelSpawnController.Elapse` | 4555-3D-game/Assets/Scripts/LevelSpawnController.cs:42-52 | once the delay runs out the wave spawns and the mark returns to false; otherwise nothing changes |
| `LevelLootConfig.FirstMatch` | 4555-3D-game/Assets/ItemData/LevelLootConfig.cs:15-23 | null iff no entry has the level; otherwise the table of a matching entry with no earlier match |
| `LevelLootConfig.EarliestWins` | 4555-3D-game/Assets/ItemData/LevelLootConfig.cs:17-20 | with duplicate level numbers the earliest entry's table is returned |
| `LevelLootConfig.SearchSplits` | 4555-3D-game/Assets/ItemData/LevelLootConfig.cs:17-22 | entries after a match are never consulted; without an earlier match the later entries decide |
| `LevelLootConfig.GetLootTableForLevel` | 4555-3D-game/Assets/ItemData/LevelLootConfig.cs:15-23 | the loop with early return computes FirstMatch; the list is only read |
| `LootTable.GetRandomItem` | 4555-3D-game/Assets/ItemData/LootTable.cs:9-16 | null iff the list is empty; otherwise the drawn entry, an element of the list |
| `LootTable.EveryEntryCanDrop` | 4555-3D-game/Assets/ItemData/LootTable.cs:14-15 | every entry of the list is yielded by some draw in [0, Count) |
| `GameManager.DeathScreensCount` | 4555-3D-game/Assets/Scripts/GameManager.cs:46-55 | among the next n deaths, exactly those numbered at least the player count (and at least 1) show the death screen; there is no single game-over event |
| `GameManager.DeathScreensSnoc` | 4555-3D-game/Assets/Scripts/GameManager.cs:46-55 | the showings over n + 1 deaths are those over the first n plus the one the last death adds, so the per-call count of `OnPlayerDied` adds up to `DeathScreens` over successive calls |
| `GameManager.GameManager.Start` | 4555-3D-game/Assets/Scripts/GameManager.cs:28-44 | without device data nothing changes; otherwise players = device count, no deaths, death screen hidden |
| `GameManager.GameManager.OnPlayerDied` | 4555-3D-game/Assets/Scripts/GameManager.cs:46-55 | exactly one more death; the death screen and time scale 0 iff the deaths reach the player count; the screen is shown `DeathScreens(total, dead, 1)` times, which `DeathScreensSnoc` sums over a run of deaths |
| `GameManager.GameManager.ShowDeathScreen` | 4555-3D-game/Assets/Scripts/GameManager.cs:57-64 | the screen is shown when present, time stops, and one more showing is counted |
| `GameManager.GameManager.Retry` | 4555-3D-game/Assets/Scripts/GameManager.cs:67-71 | time scale back to 1 and the active scene reloaded |
| `GameManager.GameManager.BackToMenu` | 4555-3D-game/Assets/Scripts/GameManager.cs:73-77 | time scale back to 1 and "MainMenu" loaded |
| `DeviceAssignmentManager.FirstCandidate` | 4555-3D-game/Assets/Scripts/DeviceAssignmentManager.cs:22-31 | the first device, in scan order, that is not keyboard or mouse, not yet assigned and used this frame; none iff there is no such device |
| `DeviceAssignmentManager.RemovedAt` | 4555-3D-game/Assets/Scripts/DeviceAssignmentManager.cs:114 | removing an index keeps the other entries in order |
| `DeviceAssignmentManager.KeyboardCountRemovedAt` | 4555-3D-game/Assets/Scripts/DeviceAssignmentManager.cs:111-114 | removing an entry removes a keyboard exactly when that entry is the keyboard |
| `DeviceAssignmentManager.DeviceAssignmentManager.Update` | 4555-3D-game/Assets/Scripts/DeviceAssignmentManager.cs:19-41 | at most one new non-keyboard device (the first candidate), then the keyboard if used and not flagged; never past the target count; the flag matches the keyboard's presence |
| `DeviceAssignmentManager.DeviceAssignmentManager.ScanDevices` | 4555-3D-game/Assets/Scripts/DeviceAssignmentManager.cs:22-32 | the device scan appends the first candidate, and only when there is room; the keyboard count is unchanged |
| `DeviceAssignmentManager.DeviceAssignmentManager.AssignKeyboardMouse` | 4555-3D-game/Assets/Scripts/DeviceAssignmentManager.cs:43-55 | the keyboard is appended, and the flag set, only when there is room and a keyboard exists |
| `DeviceAssignmentManager.DeviceAssignmentManager.AssignDevice` | 4555-3D-game/Assets/Scripts/DeviceAssignmentManager.cs:98-105 | a no-op at or above the target count, otherwise appends exactly that device |
| `DeviceAssignmentManager.DeviceAssignmentManager.UnassignDevice` | 4555-3D-game/Assets/Scripts/DeviceAssignmentManager.cs:107-116 | an out-of-range index is a no-op; otherwise that entry is removed, the others keep their order, and the flag is cleared iff it was the keyboard |
| `DeviceAssignmentUI.AllAssigned` | 4555-3D-game/Assets/Scripts/DeviceAssignmentUI.cs:137-150 | true iff the count equals the target and no entry is null |
| `DeviceAssignmentUI.Refreshed` | 4555-3D-game/Assets/Scripts/DeviceAssignmentUI.cs:79-153 | panels shown iff target >= 1 / >= 2; player 1 ready (and disconnect enabled) iff entry 0 exists and is non-null; player 2 updated only when target >= 2; start iff all assigned |
| `DeviceAssignmentUI.StartMeansEveryoneReady` | 4555-3D-game/Assets/Scripts/DeviceAssignmentUI.cs:82-152 | whenever start can be pressed, every visible player panel reads ready |
| `DeviceAssignmentUI.DeviceAssignmentUI.RefreshUI` | 4555-3D-game/Assets/Scripts/DeviceAssignmentUI.cs:79-153 | the widgets become Refreshed of the manager's state |
| `DeviceAssignmentUI.DeviceAssignmentUI.SelectPlayers` | 4555-3D-game/Assets/Scripts/DeviceAssignmentUI.cs:58-66 | sets the target, switches panels and refreshes |
| `DeviceAssignmentUI.DeviceAssignmentUI.BackToModeSelect` | 4555-3D-game/Assets/Scripts/DeviceAssignmentUI.cs:68-76 | empties the assignments and clears the keyboard flag |
| `DeviceAssignmentUI.DeviceAssignmentUI.StartGame` | 4555-3D-game/Assets/Scripts/DeviceAssignmentUI.cs:156-164 | the data asset receives an exact copy of the assignments, and the level scene is loaded |
| `DeviceAssignmentUI.DeviceAssignmentUI.DisconnectPlayer` | 4555-3D-game/Assets/Scripts/DeviceAssignmentUI.cs:166-170 | UnassignDevice's effect, then a refresh: out of range nothing changes; in range the entry is removed, the keyboard flag is cleared iff that entry was the keyboard, and one more unassigned event is counted |
| `Scheduling.SplitIsPartition` | 4555-3D-game/Assets/Scripts/DemonSpawner.cs:70 | a frame loses or duplicates no pending wait: each resumes now or keeps running |
| `Scheduling.DueExactly` | 4555-3D-game/Assets/Scripts/HurtBox.cs:22 | a wait resumes in the frame its time runs out, and keeps running otherwise |
| `Scheduling.CountdownComposes` | 4555-3D-game/Assets/Scripts/LevelSpawnController.cs:42 | two frames count down as much as one of their combined length |
| `Scheduling.NothingDueEarly` | 4555-3D-game/Assets/Scripts/LevelSpawnController.cs:42 | nothing resumes while every wait still has time left |
| `Geometry.WithinMonotone` | 4555-3D-game/Assets/Scripts/FlyingEnemyController.cs:134-135 | a wider range admits everything a narrower one does |

## Left out

- Rendering, audio and logging are not modelled. This covers sprites and `Image` creation,
  heart size and position, panel `SetActive` (kept as flags), animator calls (kept as
  flags), `Debug.Log`, `print` and `AudioManager` sounds.
- Vector and rotation maths is left out: `MoveToward`, `FaceTarget`, the orbit
  trigonometry of `HoverAroundTarget`, the `Wander` point choice and imp spawn positions.
  The new position is an input (`moved`), and only the orbit angle's increase is kept.
- NavMesh movement is not simulated. `SetDestination`, `isStopped` and the velocity
  parameter are kept as fields.
- Unity's frame order is not modelled: `Update`, one behaviour-loop pass and `Elapse`
  are separate methods that callers interleave. Engine halting after `Destroy` is not
  modelled either; a `destroyed` flag is set instead.
- Float rounding, `Mathf.Infinity` as the initial minimum (an empty search simply finds
  nothing) and 32-bit integer overflow of the health, durability, death and slot counters
  are not modelled. Integers are unbounded.
- `EnemyHealth.cs` declares no `IsInvulnerable`, although `FlyingEnemyController.cs` reads
  it. Its value is an input of `Update` and `Elapse`.
- `DemonSpawner.cs` declares neither `IsWaveCleared` nor `TrySpawn`, and `ItemSpawner.cs`
  has no `TrySpawn`, although `LevelSpawnController.cs` calls them. Their answers are
  inputs, and their calls are recorded in order.
- `Weapon.cs` declares no `maxDurability`, and no script declares an `Equipment` class,
  although `ItemInstance.cs` reads the one and `Inventory.cs` tests for the other. Items are a tagged variant (`Items.ItemKind`) that carries the maximum durability of a
  weapon.
- `AddItem(null)` is outside the model: the model's `AddItem` takes an item. In the source,
  when a slot is empty, it writes null into the first empty slot (changing nothing) and
  then throws on the log line that dereferences the item. When every slot is full, it
  drops the current item, writes null into the current slot and returns true, so a full
  inventory can be given an empty slot this way, which the model cannot express.
- `Inventory.Inventory.AddItem`, `NextSlot`, `PreviousSlot` and `GetCurrentItem` require at
  least one slot. With none, the C# indexes out of range or divides by zero.
- `PlayerUIManager.PlayerUIManager.UpdateHealthUI` takes the panel in heart-number order,
  the order the sort at `PlayerUIManager.cs:126` is meant to give. That sort compares names
  as strings, so it gives that order only up to ten hearts (see Findings).
- `PlayerUIManager.PlayerUIManager.UpdateHealthUI` requires the panel to hold at least
  `MaxHeartIndex(max) + 1` images. With fewer, as after `SetMaxHealth` raises the maximum
  past the hearts `AssignUI` made, the source refills the hearts that exist and then throws
  `IndexOutOfRangeException`. The model does not describe that partial update.
- `PlayerUIManager.PlayerUIManager.AssignUI` requires a maximum above -4. Below that,
  `new Image[...]` throws on the negative size after the panel has been shown. The model
  does not describe that case.
- Binding the inventory UI in `AssignUI` and the `PlayerHealth`-to-`PlayerUIManager`
  refresh call are cross-object UI plumbing, and are not modelled.
- Singletons are not modelled: `GameManager.Awake` and the `Instance` check in
  `PlayerUIManager.Awake` (the duplicate destroying itself).
- Event subscriptions are counted but not run: the `DeviceAssignmentUI.Start` listener
  wiring, `OnDeviceAssigned` triggering a refresh, and `DeviceAssignmentUI.Update`
  calling `RefreshUI` each frame.
- `KeyboardMouseWasUsedThisFrame` and `DeviceWasUsedThisFrame` are inputs. Per-control
  polling is input hardware.
- The per-object `id` of spawned objects stands in for Unity object identity. The scene
  may reuse no id.

## Findings

| source | as written | input that shows it | evidently intended | confidence | as-written member | corrected member |
|---|---|---|---|---|---|---|
| 4555-3D-game/Assets/Scripts/PlayerUIManager.cs:122-126 | the heart images are sorted by `a.name.CompareTo(b.name)`, a string comparison, and position i of the sorted array is filled as heart i | 11 hearts, max = current = 42: "Heart10" sorts between "Heart1" and "Heart2", so heart 10 (the last) is drawn full and heart 9 half | sort by heart number, as the comment at line 123 says, so the hearts fill from the front | not executed; follows from the string order of the names | `PlayerUIManager.NameSortMisplacesHearts` | `PlayerUIManager.NumberRankIsIndex` |

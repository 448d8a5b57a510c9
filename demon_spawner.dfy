/** A spawner of one demon and a ring of imps (DemonSpawner.cs). A wave is spawned at
    start; each frame, when automatic respawning is on and no respawn is pending, the spawner
    checks whether its demon and all its imps are gone and, if so, starts the respawn
    coroutine, which marks the spawner as spawning and spawns the next wave after
    `respawnDelay`. Spawned objects are identified by the order in which they were
    instantiated; a destroyed object compares equal to null in Unity, so which objects still
    exist is an input of each frame. Spawn positions are not modelled. */
module DemonSpawner {
  import opened Wrappers
  import opened Scheduling

  /** The one continuation of `RespawnAfterDelay`: the wave it spawns after the delay. */
  datatype Resume = SpawnNextWave

  /** Ids of `count` objects instantiated one after another, starting with `first`. */
  function Spawned(first: nat, count: nat): (r: seq<nat>)
    ensures |r| == count
    ensures forall i :: 0 <= i < count ==> r[i] == first + i
  {
    seq(count, i => first + i)
  }

  /** How many imps the `for (i = 0; i < impCount; i++)` loop spawns. */
  function ImpsPerWave(impCount: int): (n: nat)
    ensures impCount >= 0 ==> n == impCount
    ensures impCount < 0 ==> n == 0
  {
    if impCount > 0 then impCount else 0
  }

  /** `RemoveAll(imp => imp == null)`: the tracked ids whose object still exists, in order. */
  function Survivors(ids: seq<nat>, existing: set<nat>): (r: seq<nat>)
    ensures |r| <= |ids|
  {
    if ids == [] then []
    else Survivors(ids[..|ids| - 1], existing) + (if ids[|ids| - 1] in existing then [ids[|ids| - 1]] else [])
  }

  /** Cleaning keeps exactly the tracked ids whose object still exists. */
  lemma {:induction false} SurvivorsMembers(ids: seq<nat>, existing: set<nat>)
    ensures forall x :: x in Survivors(ids, existing) <==> x in ids && x in existing
  {
    if ids != [] {
      SurvivorsMembers(ids[..|ids| - 1], existing);
      assert ids == ids[..|ids| - 1] + [ids[|ids| - 1]];
    }
  }

  /** Cleaning twice removes nothing more. */
  lemma {:induction false} SurvivorsIdempotent(ids: seq<nat>, existing: set<nat>)
    ensures Survivors(Survivors(ids, existing), existing) == Survivors(ids, existing)
  {
    if ids != [] {
      var init, last := ids[..|ids| - 1], ids[|ids| - 1];
      SurvivorsIdempotent(init, existing);
      var s := Survivors(init, existing);
      assert ids[..|ids| - 1] == init;
      if last in existing {
        assert (s + [last])[..|s + [last]| - 1] == s;
      } else {
        assert Survivors(ids, existing) == s + [];
        assert s + [] == s;
      }
    }
  }

  /** Cleaning distributes over a split of the list. */
  lemma {:induction false} SurvivorsAppend(a: seq<nat>, b: seq<nat>, existing: set<nat>)
    ensures Survivors(a + b, existing) == Survivors(a, existing) + Survivors(b, existing)
  {
    if b != [] {
      var init, last := b[..|b| - 1], b[|b| - 1];
      assert (a + b)[..|a + b| - 1] == a + init;
      SurvivorsAppend(a, init, existing);
    } else {
      assert a + b == a;
    }
  }

  class DemonSpawner {
    var respawnDelay: real
    var autoRespawn: bool
    var impCount: int
    var currentDemon: Option<nat>
    var currentImps: seq<nat>
    var isSpawning: bool
    /** Id of the next object this spawner instantiates. */
    var nextId: nat
    var waits: seq<Wait<Resume>>

    /** `isSpawning` is set exactly while the one respawn is waiting out its delay. */
    ghost predicate RespawnLatch()
      reads this
    {
      |waits| <= 1 && (isSpawning <==> |waits| == 1)
    }

    /** Inspector defaults; nothing spawned yet. */
    constructor (firstId: nat)
      ensures respawnDelay == 5.0 && autoRespawn && impCount == 3
      ensures currentDemon == None && currentImps == [] && !isSpawning
      ensures nextId == firstId && waits == []
      ensures RespawnLatch()
    {
      respawnDelay, autoRespawn, impCount := 5.0, true, 3;
      currentDemon, currentImps, isSpawning := None, [], false;
      nextId := firstId;
      waits := [];
    }

    /** `Start`: the first wave. */
    method Start()
      requires RespawnLatch() && waits == []
      modifies this`isSpawning, this`currentDemon, this`currentImps, this`nextId
      ensures currentDemon == Some(old(nextId))
      ensures currentImps == Spawned(old(nextId) + 1, ImpsPerWave(impCount))
      ensures RespawnLatch()
    {
      SpawnWave();
    }

    /** `SpawnWave`: clears the spawning mark, instantiates a demon and then `impCount`
        imps, and tracks exactly those. */
    method SpawnWave()
      modifies this`isSpawning, this`currentDemon, this`currentImps, this`nextId
      ensures !isSpawning
      ensures currentDemon == Some(old(nextId))
      ensures currentImps == Spawned(old(nextId) + 1, ImpsPerWave(impCount))
      ensures nextId == old(nextId) + 1 + ImpsPerWave(impCount)
    {
      isSpawning := false;
      currentDemon := Some(nextId);
      nextId := nextId + 1;
      currentImps := [];
      var i := 0;
      while i < impCount
        invariant 0 <= i <= ImpsPerWave(impCount)
        invariant currentImps == Spawned(old(nextId) + 1, i)
        invariant nextId == old(nextId) + 1 + i
        invariant !isSpawning && currentDemon == Some(old(nextId))
      {
        currentImps := currentImps + [nextId];
        nextId := nextId + 1;
        i := i + 1;
      }
    }

    /** `AllImpsGone`: drops the destroyed imps from the list, in place, and reports
        whether none are left. */
    method AllImpsGone(existing: set<nat>) returns (gone: bool)
      modifies this`currentImps
      ensures currentImps == Survivors(old(currentImps), existing)
      ensures gone <==> currentImps == []
      ensures gone <==> forall x :: x in old(currentImps) ==> x !in existing
    {
      var kept := [];
      var i := 0;
      while i < |currentImps|
        invariant 0 <= i <= |currentImps|
        invariant currentImps == old(currentImps)
        invariant kept == Survivors(currentImps[..i], existing)
      {
        assert currentImps[..i + 1][..i] == currentImps[..i];
        if currentImps[i] in existing {
          kept := kept + [currentImps[i]];
        }
        i := i + 1;
      }
      assert currentImps[..i] == currentImps;
      SurvivorsMembers(currentImps, existing);
      currentImps := kept;
      gone := |currentImps| == 0;
      if !gone {
        assert currentImps[0] in currentImps;
      }
    }

    /** The respawn gate. The imp list is cleaned only when the demon is gone (the `&&`
        short-circuits), and the respawn starts only when everything is gone. */
    method Update(existing: set<nat>)
      requires RespawnLatch()
      modifies this`currentImps, this`isSpawning, this`waits
      ensures RespawnLatch()
      ensures var demonGone := old(currentDemon).None? || old(currentDemon).value !in existing;
        var checks := autoRespawn && !old(isSpawning) && demonGone;
        var respawns := checks && Survivors(old(currentImps), existing) == [];
        currentImps == (if checks then Survivors(old(currentImps), existing) else old(currentImps)) &&
        waits == old(waits) + (if respawns then [Wait(respawnDelay, SpawnNextWave)] else []) &&
        isSpawning == (old(isSpawning) || respawns)
    {
      if autoRespawn && !isSpawning {
        var allEnemiesGone := currentDemon.None? || currentDemon.value !in existing;
        if allEnemiesGone {
          allEnemiesGone := AllImpsGone(existing);
        }
        if allEnemiesGone {
          RespawnAfterDelay();
        }
      }
    }

    /** `RespawnAfterDelay` up to its `yield`: the spawning mark is set before the delay. */
    method RespawnAfterDelay()
      modifies this`isSpawning, this`waits
      ensures isSpawning
      ensures waits == old(waits) + [Wait(respawnDelay, SpawnNextWave)]
    {
      isSpawning := true;
      waits := waits + [Wait(respawnDelay, SpawnNextWave)];
    }

    /** `dt` seconds pass; once the delay has run out the pending respawn spawns the next
        wave. */
    method Elapse(dt: real)
      requires RespawnLatch()
      modifies this`isSpawning, this`currentDemon, this`currentImps, this`nextId, this`waits
      ensures RespawnLatch()
      ensures waits == Later(Countdown(old(waits), dt))
      ensures Due(Countdown(old(waits), dt)) != [] ==>
        old(isSpawning) && !isSpawning && currentDemon == Some(old(nextId)) &&
        currentImps == Spawned(old(nextId) + 1, ImpsPerWave(impCount))
      ensures Due(Countdown(old(waits), dt)) == [] ==>
        isSpawning == old(isSpawning) && currentDemon == old(currentDemon) &&
        currentImps == old(currentImps) && nextId == old(nextId)
    {
      var ws := Countdown(waits, dt);
      SplitSizes(ws);
      waits := Later(ws);
      if Due(ws) != [] {
        SpawnWave();
      }
    }
  }
}

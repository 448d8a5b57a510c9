/** The level-wide wave coordinator (LevelSpawnController.cs). Each frame, unless a wave is
    already on its way, it asks every demon spawner whether its wave is cleared; when all
    are, it starts the next-wave coroutine, which marks the controller as waiting and, after
    `waveDelay`, asks every demon spawner and then every item spawner to spawn, once each.
    The spawners found in `Awake` are known here by their position in the arrays the engine
    returned. `DemonSpawner.IsWaveCleared` and the two `TrySpawn` methods are not part of
    this model: their answers are inputs and their calls are recorded in order. */
module LevelSpawnController {
  import opened Scheduling

  datatype Resume = SpawnNextWave

  /** A call the controller makes on a spawner. */
  datatype SpawnCall = DemonTrySpawn(demon: nat) | ItemTrySpawn(item: nat)

  /** `AllEnemiesCleared`, given what each demon spawner's `IsWaveCleared` answers. With no
      spawners it is true. */
  method AllEnemiesCleared(cleared: seq<bool>) returns (r: bool)
    ensures r <==> forall i :: 0 <= i < |cleared| ==> cleared[i]
  {
    var i := 0;
    while i < |cleared|
      invariant 0 <= i <= |cleared|
      invariant forall j :: 0 <= j < i ==> cleared[j]
    {
      if !cleared[i] {
        return false;
      }
      i := i + 1;
    }
    return true;
  }

  /** The calls of one wave: every demon spawner in array order, then every item spawner. */
  function WaveCalls(demons: nat, items: nat): seq<SpawnCall>
  {
    DemonCalls(demons) + ItemCalls(items)
  }

  /** `TrySpawn` on the first `n` demon spawners, in array order. */
  function DemonCalls(n: nat): seq<SpawnCall>
  {
    seq(n, i requires 0 <= i => DemonTrySpawn(i))
  }

  /** `TrySpawn` on the first `n` item spawners, in array order. */
  function ItemCalls(n: nat): seq<SpawnCall>
  {
    seq(n, i requires 0 <= i => ItemTrySpawn(i))
  }

  /** A wave calls each spawner exactly once, all demon spawners before any item spawner. */
  lemma WaveCallsEachOnce(demons: nat, items: nat)
    ensures |WaveCalls(demons, items)| == demons + items
    ensures forall c :: c in WaveCalls(demons, items) <==>
      (c.DemonTrySpawn? && c.demon < demons) || (c.ItemTrySpawn? && c.item < items)
    ensures forall i, j :: 0 <= i < j < |WaveCalls(demons, items)| ==>
      WaveCalls(demons, items)[i] != WaveCalls(demons, items)[j]
    ensures forall i :: 0 <= i < |WaveCalls(demons, items)| ==>
      (WaveCalls(demons, items)[i].DemonTrySpawn? <==> i < demons)
  {
    var w := WaveCalls(demons, items);
    forall c: SpawnCall | (c.DemonTrySpawn? && c.demon < demons) || (c.ItemTrySpawn? && c.item < items)
      ensures c in w
    {
      if c.DemonTrySpawn? {
        assert w[c.demon] == c;
      } else {
        assert w[demons + c.item] == c;
      }
    }
  }

  class LevelSpawnController {
    var waveDelay: real
    var demonSpawners: nat
    var itemSpawners: nat
    var waitingForWave: bool
    var waits: seq<Wait<Resume>>
    /** Every spawner call made so far, in order. */
    var calls: seq<SpawnCall>

    /** `waitingForWave` is set exactly while the one next wave is waiting out its delay. */
    ghost predicate WaveLatch()
      reads this
    {
      |waits| <= 1 && (waitingForWave <==> |waits| == 1)
    }

    /** `Awake`, given how many spawners of each kind the scene holds. */
    constructor (demonSpawners: nat, itemSpawners: nat)
      ensures waveDelay == 5.0 && this.demonSpawners == demonSpawners && this.itemSpawners == itemSpawners
      ensures !waitingForWave && waits == [] && calls == []
      ensures WaveLatch()
    {
      waveDelay := 5.0;
      this.demonSpawners, this.itemSpawners := demonSpawners, itemSpawners;
      waitingForWave, waits, calls := false, [], [];
    }

    /** The next wave starts only when none is on its way and every spawner is cleared;
        while one is on its way the spawners are not even asked. */
    method Update(cleared: seq<bool>)
      requires |cleared| == demonSpawners && WaveLatch()
      modifies this`waitingForWave, this`waits
      ensures WaveLatch()
      ensures var starts := !old(waitingForWave) && forall i :: 0 <= i < |cleared| ==> cleared[i];
        waits == old(waits) + (if starts then [Wait(waveDelay, SpawnNextWave)] else []) &&
        waitingForWave == (old(waitingForWave) || starts)
    {
      if !waitingForWave {
        var allCleared := AllEnemiesCleared(cleared);
        if allCleared {
          StartNextWave();
        }
      }
    }

    /** `StartNextWave` up to its `yield`: the controller is marked waiting before the
        delay. */
    method StartNextWave()
      modifies this`waitingForWave, this`waits
      ensures waitingForWave
      ensures waits == old(waits) + [Wait(waveDelay, SpawnNextWave)]
    {
      waitingForWave := true;
      waits := waits + [Wait(waveDelay, SpawnNextWave)];
    }

    /** `StartNextWave` after its `yield`: the two spawn loops, then the mark is cleared. */
    method SpawnWave()
      modifies this`calls, this`waitingForWave
      ensures calls == old(calls) + WaveCalls(demonSpawners, itemSpawners)
      ensures !waitingForWave
    {
      var i := 0;
      while i < demonSpawners
        invariant 0 <= i <= demonSpawners
        invariant calls == old(calls) + DemonCalls(i)
      {
        calls := calls + [DemonTrySpawn(i)];
        i := i + 1;
      }
      var j := 0;
      while j < itemSpawners
        invariant 0 <= j <= itemSpawners
        invariant calls == old(calls) + DemonCalls(demonSpawners) + ItemCalls(j)
      {
        calls := calls + [ItemTrySpawn(j)];
        j := j + 1;
      }
      waitingForWave := false;
    }

    /** `dt` seconds pass; once the delay has run out the pending wave spawns. */
    method Elapse(dt: real)
      requires WaveLatch()
      modifies this`waitingForWave, this`waits, this`calls
      ensures WaveLatch()
      ensures waits == Later(Countdown(old(waits), dt))
      ensures Due(Countdown(old(waits), dt)) != [] ==>
        old(waitingForWave) && !waitingForWave &&
        calls == old(calls) + WaveCalls(demonSpawners, itemSpawners)
      ensures Due(Countdown(old(waits), dt)) == [] ==>
        waitingForWave == old(waitingForWave) && calls == old(calls)
    {
      var ws := Countdown(waits, dt);
      SplitSizes(ws);
      waits := Later(ws);
      if Due(ws) != [] {
        SpawnWave();
      }
    }
  }
}

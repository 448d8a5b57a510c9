/** The per-level loot configuration asset (LevelLootConfig.cs): a list of entries pairing a
    level number with a loot table, searched front to back. The loot table reference is a
    type parameter; a null table stored in an entry is whatever value of that type stands
    for it. */
module LevelLootConfig {
  import opened Wrappers

  datatype LevelLoot<T> = LevelLoot(levelNumber: int, lootTable: T)

  /** The table of the earliest entry for `level`; `None` (the source's null) when no entry
      has that level number. */
  function FirstMatch<T>(levels: seq<LevelLoot<T>>, level: int): (r: Option<T>)
    ensures r.None? <==> forall i :: 0 <= i < |levels| ==> levels[i].levelNumber != level
    ensures r.Some? ==> exists i :: (0 <= i < |levels| && levels[i].levelNumber == level &&
      r.value == levels[i].lootTable && forall j :: 0 <= j < i ==> levels[j].levelNumber != level)
  {
    if levels == [] then None
    else if levels[0].levelNumber == level then Some(levels[0].lootTable)
    else FirstMatch(levels[1..], level)
  }

  /** With several entries for the same level, the earliest one wins. */
  lemma {:induction false} EarliestWins<T>(levels: seq<LevelLoot<T>>, level: int, i: nat)
    requires i < |levels| && levels[i].levelNumber == level
    requires forall j :: 0 <= j < i ==> levels[j].levelNumber != level
    ensures FirstMatch(levels, level) == Some(levels[i].lootTable)
  {
    if i > 0 {
      EarliestWins(levels[1..], level, i - 1);
    }
  }

  /** Entries after a match are never consulted; when nothing earlier matches the search
      continues into the later entries. */
  lemma {:induction false} SearchSplits<T>(a: seq<LevelLoot<T>>, b: seq<LevelLoot<T>>, level: int)
    ensures FirstMatch(a + b, level) == if FirstMatch(a, level).Some? then FirstMatch(a, level) else FirstMatch(b, level)
  {
    if a == [] {
      assert a + b == b;
    } else {
      assert (a + b)[1..] == a[1..] + b;
      SearchSplits(a[1..], b, level);
    }
  }

  /** `GetLootTableForLevel`: the `foreach` with an early return. The list is only read. */
  method GetLootTableForLevel<T>(levels: seq<LevelLoot<T>>, level: int) returns (r: Option<T>)
    ensures r == FirstMatch(levels, level)
  {
    var i := 0;
    while i < |levels|
      invariant 0 <= i <= |levels|
      invariant forall j :: 0 <= j < i ==> levels[j].levelNumber != level
    {
      if levels[i].levelNumber == level {
        EarliestWins(levels, level, i);
        return Some(levels[i].lootTable);
      }
      i := i + 1;
    }
    return None;
  }
}

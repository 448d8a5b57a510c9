/** A loot table asset (LootTable.cs): a list of possible items, one of which is picked at
    random. The draw of `Random.Range(0, Count)` is an input, and its contract (an index in
    `[0, Count)`) is the one requirement on it. The item type is a parameter; a null entry
    in the list is whatever value of that type stands for it. */
module LootTable {
  import opened Wrappers

  /** `GetRandomItem`: null for an empty list, otherwise the drawn entry. The list is only
      read. */
  function GetRandomItem<T>(possibleItems: seq<T>, draw: int): (r: Option<T>)
    requires possibleItems != [] ==> 0 <= draw < |possibleItems|
    ensures r.None? <==> possibleItems == []
    ensures r.Some? ==> r.value in possibleItems && r.value == possibleItems[draw]
  {
    if |possibleItems| == 0 then None else Some(possibleItems[draw])
  }

  /** Every entry of the list can come out, and nothing else can. */
  lemma EveryEntryCanDrop<T>(possibleItems: seq<T>, item: T) returns (draw: int)
    requires item in possibleItems
    ensures 0 <= draw < |possibleItems| && GetRandomItem(possibleItems, draw) == Some(item)
  {
    draw :| 0 <= draw < |possibleItems| && possibleItems[draw] == item;
  }
}

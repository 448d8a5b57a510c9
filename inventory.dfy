/** The player's inventory (Inventory.cs): a fixed array of item slots, a separate
    equipment slot and a current index. Picking up an ordinary item fills the lowest empty
    slot, or, when every slot is full, drops the current item and takes its place; slot
    selection wraps around the array. Dropping an item with a pickup prefab spawns that
    pickup in the scene; the spawned pickups are recorded in order. */
module Inventory {
  import opened Wrappers
  import opened Items

  /** A slot holds an item or is `null`. */
  type Slot = Option<Item>

  /** The lowest-index empty slot, if there is one. */
  function FirstEmpty(s: seq<Slot>): (r: Option<nat>)
    ensures r.None? <==> forall i :: 0 <= i < |s| ==> s[i].Some?
    ensures r.Some? ==> r.value < |s| && s[r.value].None?
    ensures r.Some? ==> forall i :: 0 <= i < r.value ==> s[i].Some?
  {
    if s == [] then None
    else if s[0].None? then Some(0)
    else match FirstEmpty(s[1..])
      case None => None
      case Some(k) => Some(k + 1)
  }

  /** How many slots hold an item. */
  function Occupied(s: seq<Slot>): (n: nat)
    ensures n <= |s|
  {
    if s == [] then 0 else (if s[0].Some? then 1 else 0) + Occupied(s[1..])
  }

  /** Filling an empty slot makes exactly one more slot occupied. */
  lemma {:induction false} FillingOccupiesOneMore(s: seq<Slot>, k: nat, item: Item)
    requires k < |s| && s[k].None?
    ensures Occupied(s[k := Some(item)]) == Occupied(s) + 1
  {
    if k > 0 {
      FillingOccupiesOneMore(s[1..], k - 1, item);
      assert s[k := Some(item)][1..] == s[1..][k - 1 := Some(item)];
    }
  }

  /** Every slot is occupied exactly when there is no empty one. */
  lemma {:induction false} FullMeansNoEmpty(s: seq<Slot>)
    ensures Occupied(s) == |s| <==> FirstEmpty(s).None?
  {
    if s != [] {
      FullMeansNoEmpty(s[1..]);
    }
  }

  /** `NextSlot`'s index arithmetic: `(i + 1) % n`, where both operands are non-negative,
      so C#'s remainder and Dafny's agree. */
  function Next(i: int, n: int): (r: int)
    requires 0 <= i < n
    ensures 0 <= r < n
    ensures r == if i == n - 1 then 0 else i + 1
  {
    (i + 1) % n
  }

  /** `PreviousSlot`'s index arithmetic: `(i - 1 + n) % n`, with a non-negative left
      operand. */
  function Prev(i: int, n: int): (r: int)
    requires 0 <= i < n
    ensures 0 <= r < n
    ensures r == if i == 0 then n - 1 else i - 1
  {
    (i - 1 + n) % n
  }

  /** Next and previous undo each other. */
  lemma NextPrevInverse(i: int, n: int)
    requires 0 <= i < n
    ensures Prev(Next(i, n), n) == i
    ensures Next(Prev(i, n), n) == i
  {
  }

  /** The index after `k` presses of next. */
  function Advance(i: int, n: int, k: nat): (r: int)
    requires 0 <= i < n
    ensures 0 <= r < n
  {
    if k == 0 then i else Next(Advance(i, n, k - 1), n)
  }

  /** Before the wrap, `k` presses of next move the index `k` places. */
  lemma {:induction false} AdvanceBeforeWrap(i: int, n: int, k: nat)
    requires 0 <= i && i + k < n
    ensures Advance(i, n, k) == i + k
  {
    if k > 0 {
      AdvanceBeforeWrap(i, n, k - 1);
    }
  }

  /** Presses of next compose. */
  lemma {:induction false} AdvanceComposes(i: int, n: int, a: nat, b: nat)
    requires 0 <= i < n
    ensures Advance(i, n, a + b) == Advance(Advance(i, n, a), n, b)
  {
    if b > 0 {
      AdvanceComposes(i, n, a, b - 1);
    }
  }

  /** `n` presses of next come back to the start. */
  lemma FullCycle(i: int, n: int)
    requires 0 <= i < n
    ensures Advance(i, n, n) == i
  {
    AdvanceComposes(i, n, n - 1 - i, i + 1);
    AdvanceBeforeWrap(i, n, n - 1 - i);
    AdvanceComposes(n - 1, n, 1, i);
    AdvanceBeforeWrap(0, n, i);
  }

  /** Every slot is reached from any other in fewer than `n` presses of next: empty
      slots are not skipped. */
  lemma Reaches(i: int, n: int, j: int) returns (k: nat)
    requires 0 <= i < n && 0 <= j < n
    ensures k < n && Advance(i, n, k) == j
  {
    if i <= j {
      k := j - i;
      AdvanceBeforeWrap(i, n, k);
    } else {
      k := n - i + j;
      AdvanceComposes(i, n, n - 1 - i, j + 1);
      AdvanceBeforeWrap(i, n, n - 1 - i);
      AdvanceComposes(n - 1, n, 1, j);
      AdvanceBeforeWrap(0, n, j);
    }
  }

  class Inventory {
    var slots: array<Slot>
    var equipmentSlot: Option<Item>
    var currentIndex: int
    /** Pickups spawned by `DropItem`, in order. */
    var spawnedPickups: seq<Item>

    /** `currentIndex` names a slot, or is 0 when there are none. */
    ghost predicate Valid()
      reads this
    {
      0 <= currentIndex && (currentIndex < slots.Length || currentIndex == 0)
    }

    /** `Awake`: `defaultSlotCount` empty slots. */
    constructor (defaultSlotCount: nat)
      ensures fresh(slots) && slots.Length == defaultSlotCount
      ensures forall i :: 0 <= i < slots.Length ==> slots[i].None?
      ensures equipmentSlot == None && currentIndex == 0 && spawnedPickups == []
      ensures Valid()
    {
      slots := new Slot[defaultSlotCount](_ => None);
      equipmentSlot := None;
      currentIndex := 0;
      spawnedPickups := [];
    }

    /** `AddItem`: equipment goes to the equipment slot; anything else goes to the lowest
        empty slot, or replaces the current item, which is dropped. Always reports success.
        With no slots at all, the full-inventory path indexes out of range. */
    method AddItem(item: Item) returns (added: bool)
      requires Valid()
      requires !item.kind.Equipment? && FirstEmpty(slots[..]).None? ==> slots.Length > 0
      modifies this`equipmentSlot, this`spawnedPickups, slots
      ensures added && Valid()
      ensures currentIndex == old(currentIndex)
      ensures item.kind.Equipment? ==>
        equipmentSlot == Some(item) && slots[..] == old(slots[..]) && spawnedPickups == old(spawnedPickups)
      ensures !item.kind.Equipment? ==> equipmentSlot == old(equipmentSlot)
      ensures !item.kind.Equipment? && FirstEmpty(old(slots[..])).Some? ==>
        slots[..] == old(slots[..])[FirstEmpty(old(slots[..])).value := Some(item)] &&
        spawnedPickups == old(spawnedPickups)
      ensures !item.kind.Equipment? && FirstEmpty(old(slots[..])).None? ==>
        slots[..] == old(slots[..])[old(currentIndex) := Some(item)] &&
        spawnedPickups == old(spawnedPickups) + PickupOf(old(slots[currentIndex]))
    {
      if item.kind.Equipment? {
        equipmentSlot := Some(item);
        return true;
      }
      var i := 0;
      while i < slots.Length
        invariant 0 <= i <= slots.Length
        invariant forall j :: 0 <= j < i ==> slots[j].Some?
        invariant slots[..] == old(slots[..])
      {
        if slots[i].None? {
          slots[i] := Some(item);
          return true;
        }
        i := i + 1;
      }
      DropItem(slots[currentIndex]);
      slots[currentIndex] := Some(item);
      return true;
    }

    /** `DropItem`: nothing for an empty slot; an item with a pickup prefab spawns its
        pickup. */
    method DropItem(item: Slot)
      modifies this`spawnedPickups
      ensures spawnedPickups == old(spawnedPickups) + PickupOf(item)
    {
      if item.None? {
        return;
      }
      if item.value.hasPickupPrefab {
        spawnedPickups := spawnedPickups + [item.value];
      }
    }

    /** `NextSlot`; with no slots the remainder divides by zero. */
    method NextSlot()
      requires Valid() && slots.Length > 0
      modifies this`currentIndex
      ensures currentIndex == Next(old(currentIndex), slots.Length) && Valid()
    {
      currentIndex := (currentIndex + 1) % slots.Length;
    }

    /** `PreviousSlot`; with no slots the remainder divides by zero. */
    method PreviousSlot()
      requires Valid() && slots.Length > 0
      modifies this`currentIndex
      ensures currentIndex == Prev(old(currentIndex), slots.Length) && Valid()
    {
      currentIndex := (currentIndex - 1 + slots.Length) % slots.Length;
    }

    /** `GetCurrentItem`; with no slots the index is out of range. */
    method GetCurrentItem() returns (item: Slot)
      requires Valid() && slots.Length > 0
      ensures item == slots[currentIndex]
    {
      item := slots[currentIndex];
    }
  }

  /** The pickup a dropped slot spawns: none for an empty slot or an item without a pickup
      prefab. */
  function PickupOf(item: Slot): (r: seq<Item>)
    ensures |r| <= 1
    ensures r != [] <==> item.Some? && item.value.hasPickupPrefab
  {
    if item.Some? && item.value.hasPickupPrefab then [item.value] else []
  }
}

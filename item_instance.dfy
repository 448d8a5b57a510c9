/** A picked-up item with its own durability (ItemInstance.cs). A weapon starts at its
    maximum durability and anything else at C#'s default of 0; wear subtracts and clamps at
    0, and an instance is broken at or below 0. */
module ItemInstance {
  import opened Items

  /** The durability the constructor gives an instance of `kind`. */
  function InitialDurability(kind: ItemKind): (d: int)
    ensures kind.Weapon? ==> d == kind.maxDurability
    ensures !kind.Weapon? ==> d == 0
  {
    if kind.Weapon? then kind.maxDurability else 0
  }

  /** `Mathf.Max(0, durability - amount)`. */
  function Reduced(durability: int, amount: int): (r: int)
    ensures r >= 0 && r >= durability - amount
    ensures r == 0 || r == durability - amount
    ensures 0 <= amount <= durability ==> r == durability - amount
    ensures amount >= 0 && durability >= 0 ==> r <= durability
  {
    if durability - amount > 0 then durability - amount else 0
  }

  predicate Broken(durability: int)
  {
    durability <= 0
  }

  /** A run of `ReduceDurability` calls. */
  function ReducedBy(durability: int, amounts: seq<int>): int
    decreases |amounts|
  {
    if amounts == [] then durability else ReducedBy(Reduced(durability, amounts[0]), amounts[1..])
  }

  function Sum(amounts: seq<int>): int
  {
    if amounts == [] then 0 else amounts[0] + Sum(amounts[1..])
  }

  lemma {:induction false} SumNonNegative(amounts: seq<int>)
    requires forall i :: 0 <= i < |amounts| ==> amounts[i] >= 0
    ensures Sum(amounts) >= 0
  {
    if amounts != [] {
      SumNonNegative(amounts[1..]);
    }
  }

  /** With non-negative wear from a non-negative start, a run of reductions equals one
      reduction by the total: the clamp at 0 loses nothing that matters. */
  lemma {:induction false} ReductionsAccumulate(durability: int, amounts: seq<int>)
    requires durability >= 0
    requires forall i :: 0 <= i < |amounts| ==> amounts[i] >= 0
    ensures ReducedBy(durability, amounts) == Reduced(durability, Sum(amounts))
    decreases |amounts|
  {
    if amounts != [] {
      SumNonNegative(amounts[1..]);
      ReductionsAccumulate(Reduced(durability, amounts[0]), amounts[1..]);
    }
  }

  /** Once broken, an instance stays broken under non-negative wear. */
  lemma {:induction false} BrokenStaysBroken(durability: int, amounts: seq<int>)
    requires Broken(durability)
    requires forall i :: 0 <= i < |amounts| ==> amounts[i] >= 0
    ensures Broken(ReducedBy(durability, amounts))
    decreases |amounts|
  {
    if amounts != [] {
      BrokenStaysBroken(Reduced(durability, amounts[0]), amounts[1..]);
    }
  }

  class ItemInstance {
    var baseItem: Item
    var durability: int

    constructor (baseItem: Item)
      ensures this.baseItem == baseItem && durability == InitialDurability(baseItem.kind)
    {
      this.baseItem := baseItem;
      durability := InitialDurability(baseItem.kind);
    }

    /** Never touches `baseItem`. */
    method ReduceDurability(amount: int)
      modifies this`durability
      ensures durability == Reduced(old(durability), amount)
      ensures Broken(durability) <==> old(durability) <= amount
    {
      durability := if durability - amount > 0 then durability - amount else 0;
    }

    function IsBroken(): (b: bool)
      reads this
      ensures b <==> Broken(durability)
    {
      durability <= 0
    }
  }
}

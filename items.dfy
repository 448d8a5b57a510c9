/** Item definitions (the `Item` ScriptableObject and its `Weapon`, `Consumable` and
    `Equipment` subclasses) as a tagged variant. Only the fields the core reads are kept:
    the name, the kind and whether a pickup prefab is set for dropping. */
module Items {

  datatype ItemKind =
    | Weapon(maxDurability: int)
    | Consumable(healthGain: int)
    | Equipment

  datatype Item = Item(itemName: string, kind: ItemKind, hasPickupPrefab: bool)
}

/**
 * Inventory items as the loadout editor sees them: the field values of one
 * item.  The editor only ever changes `equipped` and `amount` of an item.
 */
module Items {

  /** One stat entry of an item (`{id, statHash, value}`). */
  datatype Stat = Stat(id: string, statHash: int, value: int)

  /**
   * The value of an item's fields.  `owner` and `equippingLabel` use the empty
   * string for JavaScript's falsy "absent"; `loadoutEligible` is the item's own
   * answer to `canBeInLoadout()`.
   */
  datatype ItemRecord = ItemRecord(
    hash: int,
    id: string,
    itemType: string,
    equipment: bool,
    equipped: bool,
    amount: int,
    maxStackSize: int,
    dmg: string,
    equippingLabel: string,
    owner: string,
    stats: seq<Stat>,
    loadoutEligible: bool)

  /** An item someone owns; items without an owner surface as warnings. */
  predicate Owned(x: ItemRecord) {
    x.owner != ""
  }

  /** The smaller of two amounts; clicks and stack sizes clamp amounts with it. */
  function Min(a: int, b: int): (r: int)
    ensures r <= a && r <= b && (r == a || r == b)
  {
    if a <= b then a else b
  }

  /** Two item instances are the same stack when hash and instance id agree. */
  predicate SameStack(x: ItemRecord, hash: int, id: string) {
    x.hash == hash && x.id == id
  }
}

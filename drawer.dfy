/**
 * The loadout drawer's controller: the draft loadout it edits, the class-type
 * options it offers and the stat summary it shows.  Each handler is a method
 * that updates the drawer's fields; its contract ties the new state to the
 * rule of the same name in `DraftRules`.
 *
 * The draft's items are held as values.  A handler that the page calls with
 * one of the draft's own item objects (`remove`, `equip`) is given that item's
 * field values together with the position the object occupies in the draft,
 * or `None` when the object is not stored there; it returns the object's new
 * field values.
 */
module Drawer {
  import opened Options
  import opened Text
  import opened Items
  import opened Tables
  import opened ClassTypes
  import opened StatRules
  import opened DraftRules

  /** The synchronous part of `recalculateStats` for a first-edition account. */
  method Summarize(all: seq<ItemRecord>, prior: StatsSummary) returns (s: StatsSummary)
    ensures s == Recalculate(1, all, prior)
  {
    var filtered := TrackedOnly(EquippedStats(all));
    var combined, count := Tally(filtered);
    s := StatsSummary(if |combined| == 0 then None else Some(combined), count > 0, count == CompleteArmorCount);
  }

  /** The pass over the categories, in key order, that the edit handler runs on its copy. */
  method EditTable(order: seq<string>, items: Table, equipAll: bool) returns (t: Table)
    requires KeyOrder(order, items)
    ensures t == map k | k in items :: EditCategory(items[k], equipAll)
  {
    t := items;
    var c := 0;
    while c < |order|
      invariant 0 <= c <= |order|
      invariant t.Keys == items.Keys
      invariant forall j :: 0 <= j < c ==> t[order[j]] == EditCategory(items[order[j]], equipAll)
      invariant forall j :: c <= j < |order| ==> t[order[j]] == items[order[j]]
    {
      var k := order[c];
      var kept := OwnedOnly(t[k]);
      if equipAll && |kept| > 0 {
        kept := kept[0 := kept[0].(equipped := true)];
      }
      t := t[k := kept];
      c := c + 1;
    }
    forall k | k in items
      ensures t[k] == EditCategory(items[k], equipAll)
    {
      var j :| 0 <= j < |order| && order[j] == k;
    }
  }

  /** One unequip pass over every item, category by category in key order. */
  method ClearTable(order: seq<string>, items: Table, target: ItemRecord, byLabel: bool) returns (t: Table)
    requires KeyOrder(order, items)
    ensures t == ClearPass(items, target, byLabel)
  {
    t := items;
    var c := 0;
    while c < |order|
      invariant 0 <= c <= |order|
      invariant t.Keys == items.Keys
      invariant forall j :: 0 <= j < c ==> t[order[j]] == ClearRow(items[order[j]], target, byLabel)
      invariant forall j :: c <= j < |order| ==> t[order[j]] == items[order[j]]
    {
      var k := order[c];
      var row := t[k];
      var i := 0;
      while i < |row|
        invariant 0 <= i <= |row| && |row| == |items[k]|
        invariant forall p :: 0 <= p < |row| ==>
          row[p] == if p < i then ClearOne(target, byLabel, items[k][p]) else items[k][p]
      {
        row := row[i := ClearOne(target, byLabel, row[i])];
        i := i + 1;
      }
      t := t[k := row];
      c := c + 1;
    }
    forall k | k in items
      ensures t[k] == ClearRow(items[k], target, byLabel)
    {
      var j :| 0 <= j < |order| && order[j] == k;
    }
  }

  class LoadoutDrawer {
    /** The bound account: its platform label and Destiny edition. */
    var account: Account
    /** Whether the drawer is open, and the loadout service's `dialogOpen` flag. */
    var show: bool
    var dialogOpen: bool
    var showClass: bool
    var classTypeValues: seq<ClassTypeOption>
    /** The last stat summary: combined stats (or none), `hasArmor` and `completeArmor`. */
    var stats: Option<Combined>
    var hasArmor: bool
    var completeArmor: bool
    /** The draft loadout. */
    var loadoutId: Option<string>
    var name: Option<string>
    var classType: int
    var destinyVersion: Option<int>
    var platform: Option<string>
    /** The category keys in insertion order, and the categories. */
    var categoryOrder: seq<string>
    var items: Table
    var warnItems: seq<ItemRecord>

    /** The key order lists every category once. */
    ghost predicate Valid()
      reads this
    {
      KeyOrder(categoryOrder, items)
    }

    /** The draft as a value. */
    function Snapshot(): Draft
      reads this
    {
      Draft(loadoutId, name, classType, destinyVersion, platform, categoryOrder, items, warnItems)
    }

    function Summary(): StatsSummary
      reads this
    {
      StatsSummary(stats, hasArmor, completeArmor)
    }

    /** The component as constructed: hidden, with an empty draft. */
    constructor (account: Account)
      ensures this.account == account && !show && !dialogOpen && !showClass
      ensures Valid() && Snapshot() == Defaults()
      ensures classTypeValues == [] && Summary() == StatsSummary(None, false, false)
    {
      this.account := account;
      show, dialogOpen, showClass := false, false, false;
      classTypeValues := [];
      stats, hasArmor, completeArmor := None, false, false;
      loadoutId, name, classType, destinyVersion, platform := None, None, AnyClass, None, None;
      categoryOrder, items, warnItems := [], map[], [];
    }

    /** The draft is replaced by a copy of the defaults. */
    method Reset()
      modifies this`loadoutId, this`name, this`classType, this`destinyVersion, this`platform
      modifies this`categoryOrder, this`items, this`warnItems
      ensures Valid() && Snapshot() == Defaults()
    {
      loadoutId, name, classType, destinyVersion, platform := None, None, AnyClass, None, None;
      categoryOrder, items, warnItems := [], map[], [];
    }

    /** The `stores` change: "Any", then one option per class type of the characters. */
    method OnStoresChanged(stores: seq<Store>, anyLabel: string)
      modifies this`classTypeValues
      ensures classTypeValues == ClassTypeList(anyLabel, stores)
    {
      var u := UniqByClassType(NonVault(stores));
      classTypeValues := [ClassTypeOption(anyLabel, AnyClass)];
      var i := 0;
      while i < |u|
        invariant 0 <= i <= |u|
        invariant classTypeValues == [ClassTypeOption(anyLabel, AnyClass)]
          + seq(i, j requires 0 <= j < i => ClassTypeOption(u[j].className, LegacyRemap(u[j].classType)))
      {
        classTypeValues := classTypeValues + [ClassTypeOption(u[i].className, LegacyRemap(u[i].classType))];
        i := i + 1;
      }
    }

    /** The `account` change hides the drawer. */
    method OnAccountChanged(account: Account)
      modifies this`account, this`show
      ensures this.account == account && !show
    {
      this.account := account;
      show := false;
    }

    /** Leaving the current route closes the dialog. */
    method OnTransitionExit()
      modifies this`dialogOpen, this`show
      ensures !dialogOpen && !show
    {
      dialogOpen := false;
      show := false;
    }

    /** `dim-delete-loadout`: hide the drawer and start over with an empty draft, whose stats are then recomputed. */
    method OnDeleteLoadout()
      modifies this`show, this`dialogOpen
      modifies this`loadoutId, this`name, this`classType, this`destinyVersion, this`platform
      modifies this`categoryOrder, this`items, this`warnItems
      modifies this`stats, this`hasArmor, this`completeArmor
      ensures !show && !dialogOpen && Valid() && Snapshot() == Defaults()
      ensures Summary() == Recalculate(account.destinyVersion, [], old(Summary()))
    {
      show := false;
      dialogOpen := false;
      Reset();
      RecalculateStats();
    }

    /**
     * `dim-edit-loadout`: remember `showClass`; given a loadout, open the drawer
     * on a copy of it whose owner-less items are set aside as warn items, and
     * with `equipAll` equip the first item of every category.  Replacing the
     * draft's items makes the drawer recompute its stats.
     */
    method OnEditLoadout(loadout: Option<Loadout>, showClass: bool, equipAll: bool)
      requires loadout.Some? && loadout.value.items.Some? ==>
        KeyOrder(loadout.value.items.value.order, loadout.value.items.value.categories)
      modifies this`showClass, this`show, this`dialogOpen
      modifies this`loadoutId, this`name, this`classType, this`destinyVersion, this`platform
      modifies this`categoryOrder, this`items, this`warnItems
      modifies this`stats, this`hasArmor, this`completeArmor
      ensures this.showClass == showClass
      ensures loadout.None? ==>
        Snapshot() == old(Snapshot()) && show == old(show) && dialogOpen == old(dialogOpen)
        && Summary() == old(Summary())
      ensures loadout.Some? ==> show && dialogOpen && Valid() && Snapshot() == EditDraft(loadout.value, equipAll)
      ensures loadout.Some? ==>
        Summary() == Recalculate(account.destinyVersion, Flatten(items, categoryOrder), old(Summary()))
    {
      this.showClass := showClass;
      if loadout.Some? {
        OpenCopy(loadout.value, equipAll);
        RecalculateStats();
      }
    }

    /** The drawer opens on the edited copy of `l`. */
    method OpenCopy(l: Loadout, equipAll: bool)
      requires l.items.Some? ==> KeyOrder(l.items.value.order, l.items.value.categories)
      modifies this`show, this`dialogOpen
      modifies this`loadoutId, this`name, this`classType, this`destinyVersion, this`platform
      modifies this`categoryOrder, this`items, this`warnItems
      ensures show && dialogOpen && Valid() && Snapshot() == EditDraft(l, equipAll)
    {
      loadoutId, name, classType, destinyVersion, platform := l.id, l.name, l.classType.GetOr(AnyClass), l.destinyVersion, l.platform;
      show := true;
      dialogOpen := true;
      var table := l.items.GetOr(ItemTable([], map[]));
      categoryOrder, items := table.order, table.categories;
      warnItems := WarnItemsOf(items, categoryOrder);
      EditCategories(equipAll);
    }

    /**
     * The `_.each` over the categories of the copy: each keeps only its owned
     * items and, with `equipAll`, has its first item equipped.
     */
    method EditCategories(equipAll: bool)
      requires Valid()
      modifies this`items
      ensures Valid() && items == map k | k in old(items) :: EditCategory(old(items)[k], equipAll)
    {
      items := EditTable(categoryOrder, items, equipAll);
    }

    /** `cancel`: drop the draft and close; the emptied draft's stats are recomputed. */
    method Cancel()
      modifies this`show, this`dialogOpen
      modifies this`loadoutId, this`name, this`classType, this`destinyVersion, this`platform
      modifies this`categoryOrder, this`items, this`warnItems
      modifies this`stats, this`hasArmor, this`completeArmor
      ensures !show && !dialogOpen && Valid() && Snapshot() == Defaults()
      ensures Summary() == Recalculate(account.destinyVersion, [], old(Summary()))
    {
      Reset();
      dialogOpen := false;
      show := false;
      RecalculateStats();
    }

    /**
     * `save`: stamp the account's platform and edition on the draft, hand it to
     * the loadout service (the returned value), then cancel.
     */
    method Save() returns (saved: Draft)
      modifies this`show, this`dialogOpen
      modifies this`loadoutId, this`name, this`classType, this`destinyVersion, this`platform
      modifies this`categoryOrder, this`items, this`warnItems
      modifies this`stats, this`hasArmor, this`completeArmor
      ensures saved == Stamp(old(Snapshot()), account)
      ensures !show && !dialogOpen && Valid() && Snapshot() == Defaults()
      ensures Summary() == Recalculate(account.destinyVersion, [], old(Summary()))
    {
      platform := Some(account.platformLabel);
      destinyVersion := Some(account.destinyVersion);
      saved := Snapshot();
      Cancel();
    }

    /** `saveAsNew`: drop the id so the service assigns a new one, then save. */
    method SaveAsNew() returns (saved: Draft)
      modifies this`show, this`dialogOpen
      modifies this`loadoutId, this`name, this`classType, this`destinyVersion, this`platform
      modifies this`categoryOrder, this`items, this`warnItems
      modifies this`stats, this`hasArmor, this`completeArmor
      ensures saved == Stamp(old(Snapshot()).(id := None), account)
      ensures saved.id == None
      ensures !show && !dialogOpen && Valid() && Snapshot() == Defaults()
      ensures Summary() == Recalculate(account.destinyVersion, [], old(Summary()))
    {
      loadoutId := None;
      saved := Save();
    }

    /** `removeWarnItem`: drop the first warn item of the given item's stack. */
    method RemoveWarnItem(item: ItemRecord)
      modifies this`warnItems
      ensures Snapshot() == RemoveWarnEffect(old(Snapshot()), item.hash, item.id)
    {
      var index := FindStack(warnItems, item.hash, item.id);
      if index.Some? {
        warnItems := Delete(warnItems, index.value);
      }
    }

    /** A missing category is created empty, its key last in the key order. */
    method EnsureCategory(key: string)
      requires Valid()
      modifies this`items, this`categoryOrder
      ensures Valid() && Snapshot() == WithCategory(old(Snapshot()), key)
    {
      if key !in items {
        items := items[key := []];
        categoryOrder := categoryOrder + [key];
      }
    }

    /**
     * `add`, for a click on a store item with the given field values: a copy
     * joins the draft or stacks onto its dupe, or a warning is raised; then the
     * stats are recalculated.
     */
    method Add(item: ItemRecord, shift: bool) returns (outcome: AddOutcome)
      requires Valid()
      modifies this`items, this`categoryOrder
      modifies this`stats, this`hasArmor, this`completeArmor
      ensures Valid()
      ensures Snapshot() == AddEffect(old(Snapshot()), item, shift).draft
      ensures outcome == AddEffect(old(Snapshot()), item, shift).outcome
      ensures Summary() == Recalculate(account.destinyVersion, Flatten(items, categoryOrder), old(Summary()))
    {
      if item.loadoutEligible {
        outcome := AddEligible(item, shift);
      } else {
        outcome := NotLoadoutItem;
      }
      RecalculateStats();
    }

    /** The body of `add` for an item that can be in a loadout. */
    method AddEligible(item: ItemRecord, shift: bool) returns (outcome: AddOutcome)
      requires Valid() && item.loadoutEligible
      modifies this`items, this`categoryOrder
      ensures Valid()
      ensures AddResult(Snapshot(), outcome) == AddEffect(old(Snapshot()), item, shift)
    {
      var key := Lower(item.itemType);
      EnsureCategory(key);
      var clone := item.(amount := Min(item.amount, ClickQuantity(shift)));
      outcome := AddToCategory(key, clone, MaxSlots(item.itemType));
    }

    /** `_.find` for a dupe in category `key`, then append the clone, stack onto the dupe or refuse. */
    method AddToCategory(key: string, clone: ItemRecord, maxSlots: int) returns (outcome: AddOutcome)
      requires Valid() && key in items
      modifies this`items
      ensures Valid()
      ensures AddResult(Snapshot(), outcome) == AddTo(old(Snapshot()), key, clone, maxSlots)
    {
      var typeInventory := items[key];
      var dupe := FindStack(typeInventory, clone.hash, clone.id);
      if dupe.None? {
        if |typeInventory| < maxSlots {
          AppendClone(key, clone);
          outcome := Appended;
        } else {
          outcome := MaxSlotsReached(maxSlots);
        }
      } else if clone.maxStackSize > 1 {
        // The dupe's amount grows by the added amount, but not past its stack size.
        var j := dupe.value;
        var entry := items[key][j];
        var increment := Min(entry.amount + clone.amount, entry.maxStackSize) - entry.amount;
        items := items[key := items[key][j := entry.(amount := entry.amount + increment)]];
        outcome := Stacked;
      } else {
        outcome := AlreadyPresent;
      }
    }

    /** A new stack joins category `key`; a subclass of another damage type first empties the subclass slot. */
    method AppendClone(key: string, clone: ItemRecord)
      requires Valid() && key in items
      modifies this`items
      ensures Valid() && items == InsertNew(old(items), key, clone)
    {
      var c := clone.(equipped := clone.equipment && |items[key]| == 0);
      if c.itemType == ClassType {
        if ClassKey in items && |items[ClassKey]| > 0 && items[ClassKey][0].dmg != c.dmg {
          items := items[ClassKey := []];
        }
        c := c.(equipped := true);
      }
      items := items[key := items[key] + [c]];
    }

    /**
     * `remove(item, {shiftKey: shift})`, for the item object stored at `loc`:
     * the first entry of its stack loses the click quantity (taken off the
     * object itself) and leaves when none is left; an equipped item hands the
     * equipped flag to the first entry of its category.  Returns the object's
     * new field values.
     */
    method Remove(it: ItemRecord, loc: Option<Loc>, shift: bool) returns (item: ItemRecord)
      requires Valid() && StoredAt(items, loc, it)
      modifies this`items, this`categoryOrder
      modifies this`stats, this`hasArmor, this`completeArmor
      ensures Valid()
      ensures ItemUpdate(Snapshot(), item) == RemoveEffect(old(Snapshot()), it, loc, shift)
      ensures Summary() == Recalculate(account.destinyVersion, Flatten(items, categoryOrder), old(Summary()))
    {
      item := RemoveFromDraft(it, loc, shift);
      RecalculateStats();
    }

    /** The body of `remove`, up to the stats. */
    method RemoveFromDraft(it: ItemRecord, loc: Option<Loc>, shift: bool) returns (item: ItemRecord)
      requires Valid()
      modifies this`items, this`categoryOrder
      ensures Valid()
      ensures ItemUpdate(Snapshot(), item) == RemoveEffect(old(Snapshot()), it, loc, shift)
    {
      var key := Lower(it.itemType);
      EnsureCategory(key);
      item := DecrementStack(it, loc, key, shift);
      // An equipped item hands the equipped flag to the first entry of its category.
      if item.equipped && |items[key]| > 0 {
        items := items[key := items[key][0 := items[key][0].(equipped := true)]];
      }
    }

    /**
     * `findIndex` on category `key`: if an entry of the item's stack is found,
     * the object at `loc` loses the click quantity, and the found entry leaves
     * when the object's amount is no longer positive.
     */
    method DecrementStack(it: ItemRecord, loc: Option<Loc>, key: string, shift: bool) returns (item: ItemRecord)
      requires Valid() && key in items
      modifies this`items
      ensures Valid()
      ensures ItemUpdate(Snapshot(), item) == Decrement(old(Snapshot()), key, it, loc, shift)
    {
      var index := FindStack(items[key], it.hash, it.id);
      item := it;
      if index.Some? {
        item := TakeFrom(it, loc, key, index.value, shift);
      }
    }

    /** The object at `loc` loses the click quantity; the entry at `j` of `key` leaves when none is left. */
    method TakeFrom(it: ItemRecord, loc: Option<Loc>, key: string, j: nat, shift: bool) returns (item: ItemRecord)
      requires Valid() && key in items && j < |items[key]|
      modifies this`items
      ensures Valid()
      ensures item == it.(amount := it.amount - ClickQuantity(shift))
      ensures items == Take(old(items), key, it, loc, j, shift)
    {
      item := it.(amount := it.amount - ClickQuantity(shift));
      items := SetAt(items, loc, item);
      if item.amount <= 0 {
        items := items[key := Delete(items[key], j)];
      }
    }

    /**
     * `equip(item)`, for the item object stored at `loc`: equipment that is
     * equipped is unequipped, an unequipped `Class` item is equipped, and any
     * other unequipped equipment is equipped after every equipped item sharing
     * its equipping label, then every equipped item of its type, is unequipped.
     * Returns the object's new field values.
     */
    method Equip(it: ItemRecord, loc: Option<Loc>) returns (item: ItemRecord)
      requires Valid() && StoredAt(items, loc, it)
      modifies this`items
      modifies this`stats, this`hasArmor, this`completeArmor
      ensures Valid()
      ensures ItemUpdate(Snapshot(), item) == EquipEffect(old(Snapshot()), it, loc)
      ensures Summary() == Recalculate(account.destinyVersion, Flatten(items, categoryOrder), old(Summary()))
    {
      item := EquipInDraft(it, loc);
      RecalculateStats();
    }

    /** The body of `equip`, up to the stats. */
    method EquipInDraft(it: ItemRecord, loc: Option<Loc>) returns (item: ItemRecord)
      requires Valid()
      modifies this`items
      ensures Valid()
      ensures ItemUpdate(Snapshot(), item) == EquipEffect(old(Snapshot()), it, loc)
    {
      item := it;
      if it.equipment {
        if it.itemType == ClassType && !it.equipped {
          item := it.(equipped := true);
        } else if it.equipped {
          item := it.(equipped := false);
        } else {
          if it.equippingLabel != "" {
            UnequipPass(it, true);
          }
          UnequipPass(it, false);
          item := it.(equipped := true);
        }
        items := SetAt(items, loc, item);
      }
    }

    /**
     * One pass over every item of the draft, category by category: each
     * equipped item matching `target` (by equipping label, or by type) is
     * unequipped.
     */
    method UnequipPass(target: ItemRecord, byLabel: bool)
      requires Valid()
      modifies this`items
      ensures Valid() && items == ClearPass(old(items), target, byLabel)
    {
      items := ClearTable(categoryOrder, items, target, byLabel);
    }

    /** Store a computed summary. */
    method SetSummary(s: StatsSummary)
      modifies this`stats, this`hasArmor, this`completeArmor
      ensures Summary() == s
    {
      stats, hasArmor, completeArmor := s.stats, s.hasArmor, s.completeArmor;
    }

    /** The stat summary of the equipped items, for the account's edition. */
    method RecalculateStats()
      modifies this`stats, this`hasArmor, this`completeArmor
      ensures Summary() == Recalculate(account.destinyVersion, Flatten(items, categoryOrder), old(Summary()))
    {
      if account.destinyVersion != 1 {
        stats := None;
        return;
      }
      var s := Summarize(Flatten(items, categoryOrder), Summary());
      SetSummary(s);
    }
  }
}

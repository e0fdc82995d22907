/**
 * The editing rules of the loadout drawer, stated on values: what each handler
 * does to the draft loadout.  The drawer's methods are proved to have exactly
 * these effects on its objects; the lemmas here state what the rules promise.
 */
module DraftRules {
  import opened Options
  import opened Text
  import opened Items
  import opened Tables
  import ClassTypes

  const ClassType := "Class"
  const ClassKey := "class"
  const MaterialType := "Material"
  const ConsumableType := "Consumable"

  /** The account whose loadouts are edited. */
  datatype Account = Account(platformLabel: string, destinyVersion: int)

  /** How many units a click moves: 5 with shift held, 1 otherwise. */
  function ClickQuantity(shift: bool): int {
    if shift then 5 else 1
  }

  /** How many entries a category may hold. */
  function MaxSlots(itemType: string): int {
    if itemType == MaterialType then 20
    else if itemType == ConsumableType then 19
    else 10
  }

  /** `vm.defaults`: no id, class type "Any", no items. */
  function Defaults(): Draft {
    Draft(None, None, ClassTypes.AnyClass, None, None, [], map[], [])
  }

  /** A missing category is created empty; the category exists afterwards and a new key goes last. */
  function WithCategory(d: Draft, key: string): (r: Draft)
    ensures key in r.table
  {
    if key in d.table then d
    else d.(table := d.table[key := []], order := d.order + [key])
  }

  // ----- Editing a saved loadout -----

  /** The first item of a non-empty category is equipped. */
  function EquipFirst(s: seq<ItemRecord>): seq<ItemRecord> {
    if |s| > 0 then s[0 := s[0].(equipped := true)] else s
  }

  function EditCategory(s: seq<ItemRecord>, equipAll: bool): seq<ItemRecord> {
    if equipAll then EquipFirst(OwnedOnly(s)) else OwnedOnly(s)
  }

  /** The owner-less items of every category, category by category in key order. */
  function WarnItemsOf(t: Table, order: seq<string>): seq<ItemRecord> {
    if order == [] then []
    else Unowned(Category(t, order[0])) + WarnItemsOf(t, order[1..])
  }

  /** The draft the edit handler builds from a copy of `l`. */
  function EditDraft(l: Loadout, equipAll: bool): (r: Draft)
    ensures r.table.Keys == l.items.GetOr(ItemTable([], map[])).categories.Keys
    ensures var items := l.items.GetOr(ItemTable([], map[]));
      r.warnItems == Unowned(Flatten(items.categories, items.order))
  {
    var items := l.items.GetOr(ItemTable([], map[]));
    WarnItemsAreUnowned(items.categories, items.order);
    Draft(l.id, l.name, l.classType.GetOr(ClassTypes.AnyClass), l.destinyVersion, l.platform,
          items.order,
          map k | k in items.categories :: EditCategory(items.categories[k], equipAll),
          WarnItemsOf(items.categories, items.order))
  }

  // ----- Adding an item -----

  /** The outcome of `add`; the first two are the cases that pop a warning. */
  datatype AddOutcome = NotLoadoutItem | MaxSlotsReached(slots: int) | Appended | Stacked | AlreadyPresent

  predicate Warns(o: AddOutcome) {
    o.NotLoadoutItem? || o.MaxSlotsReached?
  }

  datatype AddResult = AddResult(draft: Draft, outcome: AddOutcome)

  /** Appending a new copy to category `key`; a `Class` item may first clear the subclass slot. */
  function InsertNew(t: Table, key: string, clone: ItemRecord): Table
    requires key in t
  {
    var c := clone.(equipped := clone.equipment && |t[key]| == 0);
    if c.itemType == ClassType then
      var cleared :=
        if ClassKey in t && |t[ClassKey]| > 0 && t[ClassKey][0].dmg != c.dmg then t[ClassKey := []] else t;
      cleared[key := cleared[key] + [c.(equipped := true)]]
    else t[key := t[key] + [c]]
  }

  /** The dupe at `j` of category `key` takes `amount` more units, up to its stack size. */
  function Stack(t: Table, key: string, j: nat, amount: int): Table
    requires key in t && j < |t[key]|
  {
    var dupe := t[key][j];
    t[key := t[key][j := dupe.(amount := Min(dupe.amount + amount, dupe.maxStackSize))]]
  }

  /** `add` on the existing category `key`, for the clone of the clicked item. */
  function AddTo(d: Draft, key: string, clone: ItemRecord, slots: int): AddResult
    requires key in d.table
  {
    var inv := d.table[key];
    match FindStack(inv, clone.hash, clone.id)
    case None =>
      if |inv| < slots then AddResult(d.(table := InsertNew(d.table, key, clone)), Appended)
      else AddResult(d, MaxSlotsReached(slots))
    case Some(j) =>
      if clone.maxStackSize > 1 then AddResult(d.(table := Stack(d.table, key, j, clone.amount)), Stacked)
      else AddResult(d, AlreadyPresent)
  }

  /** The effect of `add(src, {shiftKey: shift})` on the draft. */
  function AddEffect(d: Draft, src: ItemRecord, shift: bool): (r: AddResult)
    ensures r.draft.(table := d.table, order := d.order) == d
    ensures r.draft.table.Keys == d.table.Keys + (if src.loadoutEligible then {Lower(src.itemType)} else {})
    ensures forall k :: k in d.table && k != Lower(src.itemType) && k != ClassKey ==> r.draft.table[k] == d.table[k]
  {
    if !src.loadoutEligible then AddResult(d, NotLoadoutItem)
    else
      var key := Lower(src.itemType);
      AddTo(WithCategory(d, key), key, src.(amount := Min(src.amount, ClickQuantity(shift))), MaxSlots(src.itemType))
  }

  // ----- Removing an item, equipping an item -----

  /** The draft after a handler, and the new value of the item object it was given. */
  datatype ItemUpdate = ItemUpdate(draft: Draft, item: ItemRecord)

  /** An equipped item hands the equipped flag to the first entry of category `key`, if there is one. */
  function Promote(d: Draft, key: string, it: ItemRecord): ItemUpdate
    requires key in d.table
  {
    var inv := d.table[key];
    if it.equipped && |inv| > 0 then
      ItemUpdate(d.(table := d.table[key := inv[0 := inv[0].(equipped := true)]]), it)
    else ItemUpdate(d, it)
  }

  /** The object at `loc` loses the click quantity; entry `j` of `key` leaves when none is left. */
  function Take(t: Table, key: string, it: ItemRecord, loc: Option<Loc>, j: nat, shift: bool): Table
    requires key in t && j < |t[key]|
  {
    var it1 := it.(amount := it.amount - ClickQuantity(shift));
    var t1 := SetAt(t, loc, it1);
    if it1.amount <= 0 then t1[key := Delete(t1[key], j)] else t1
  }

  /**
   * The `findIndex` step of `remove` on category `key`: when an entry of the
   * item's stack is found, the item object (stored at `loc`, if in the draft)
   * loses the click quantity, and the first entry of the stack is spliced out
   * when the item's amount is no longer positive.
   */
  function Decrement(d: Draft, key: string, it: ItemRecord, loc: Option<Loc>, shift: bool): (r: ItemUpdate)
    requires key in d.table
    ensures r.draft.table.Keys == d.table.Keys
  {
    match FindStack(d.table[key], it.hash, it.id)
    case None => ItemUpdate(d, it)
    case Some(j) =>
      ItemUpdate(d.(table := Take(d.table, key, it, loc, j, shift)), it.(amount := it.amount - ClickQuantity(shift)))
  }

  /**
   * The effect of `remove(it, {shiftKey: shift})`, where the item object is
   * stored at `loc` when it is in the draft at all.
   */
  function RemoveEffect(d: Draft, it: ItemRecord, loc: Option<Loc>, shift: bool): (r: ItemUpdate)
    ensures r.draft.(table := d.table, order := d.order) == d
    ensures r.draft.table.Keys == d.table.Keys + {Lower(it.itemType)}
    ensures r.item.(amount := it.amount) == it && r.item.amount <= it.amount
  {
    var key := Lower(it.itemType);
    var d0 := WithCategory(d, key);
    var u := Decrement(d0, key, it, loc, shift);
    Promote(u.draft, key, u.item)
  }

  /** `e` shares the non-empty equipping label of `target` (the exotic pass). */
  predicate LabelHit(target: ItemRecord, e: ItemRecord) {
    target.equippingLabel != "" && e.equippingLabel == target.equippingLabel
  }

  /** `e` has the type of `target` (the slot pass). */
  predicate TypeHit(target: ItemRecord, e: ItemRecord) {
    e.itemType == target.itemType
  }

  /** One unequip pass over an entry: an equipped entry that matches loses its flag. */
  function ClearOne(target: ItemRecord, byLabel: bool, e: ItemRecord): ItemRecord {
    if e.equipped && (if byLabel then LabelHit(target, e) else TypeHit(target, e)) then
      e.(equipped := false)
    else e
  }

  function ClearRow(s: seq<ItemRecord>, target: ItemRecord, byLabel: bool): seq<ItemRecord> {
    seq(|s|, i requires 0 <= i < |s| => ClearOne(target, byLabel, s[i]))
  }

  /** One unequip pass over every item of the table. */
  function ClearPass(t: Table, target: ItemRecord, byLabel: bool): Table {
    map k | k in t :: ClearRow(t[k], target, byLabel)
  }

  /** The exotic pass (only for an item with an equipping label), then the slot pass. */
  function UnequipPasses(t: Table, target: ItemRecord): Table {
    var t1 := if target.equippingLabel != "" then ClearPass(t, target, true) else t;
    ClearPass(t1, target, false)
  }

  /** `e` is unequipped when `target` is equipped: same non-empty equipping label, or same type. */
  predicate Hits(target: ItemRecord, e: ItemRecord) {
    LabelHit(target, e) || TypeHit(target, e)
  }

  /** Reference definition of both passes together, entry by entry. */
  function Unequipped(target: ItemRecord, e: ItemRecord): ItemRecord {
    e.(equipped := e.equipped && !Hits(target, e))
  }

  function UnequipHits(t: Table, target: ItemRecord): Table {
    map k | k in t :: seq(|t[k]|, i requires 0 <= i < |t[k]| => Unequipped(target, t[k][i]))
  }

  function SetEquipped(d: Draft, it: ItemRecord, loc: Option<Loc>, b: bool): ItemUpdate {
    var it1 := it.(equipped := b);
    ItemUpdate(d.(table := SetAt(d.table, loc, it1)), it1)
  }

  /** The effect of `equip(it)`, where the item object is stored at `loc` if it is in the draft. */
  function EquipEffect(d: Draft, it: ItemRecord, loc: Option<Loc>): (r: ItemUpdate)
    ensures r.draft.(table := d.table) == d && r.draft.table.Keys == d.table.Keys
    ensures r.item == if it.equipment then it.(equipped := !it.equipped) else it
  {
    if !it.equipment then ItemUpdate(d, it)
    else if it.itemType == ClassType && !it.equipped then SetEquipped(d, it, loc, true)
    else if it.equipped then SetEquipped(d, it, loc, false)
    else
      var it1 := it.(equipped := true);
      ItemUpdate(d.(table := SetAt(UnequipPasses(d.table, it), loc, it1)), it1)
  }

  // ----- Warn items, saving -----

  /** The effect of `removeWarnItem`: the first warn item of the same stack goes. */
  function RemoveWarnEffect(d: Draft, hash: int, id: string): (r: Draft)
    ensures r.(warnItems := d.warnItems) == d
    ensures |d.warnItems| - 1 <= |r.warnItems| <= |d.warnItems|
  {
    match FindStack(d.warnItems, hash, id)
    case None => d
    case Some(j) => d.(warnItems := Delete(d.warnItems, j))
  }

  /** What `save` stamps on the draft before handing it to the persistence service. */
  function Stamp(d: Draft, account: Account): (r: Draft)
    ensures r.platform == Some(account.platformLabel) && r.destinyVersion == Some(account.destinyVersion)
    ensures r.id == d.id && r.name == d.name && r.classType == d.classType
    ensures r.order == d.order && r.table == d.table && r.warnItems == d.warnItems
  {
    d.(platform := Some(account.platformLabel), destinyVersion := Some(account.destinyVersion))
  }

  // ===== Properties =====

  /** `loc` is where `it` is stored in `t`, or `None` when it is not stored there. */
  predicate StoredAt(t: Table, loc: Option<Loc>, it: ItemRecord) {
    loc.Some? ==> ValidLoc(t, loc.value) && t[loc.value.key][loc.value.index] == it
  }

  /** Only the table (and its key order) of `r` may differ from `d`. */
  predicate SameHeader(r: Draft, d: Draft) {
    r.(table := d.table, order := d.order) == d
  }

  lemma {:induction false} OwnedOnlySpec(s: seq<ItemRecord>)
    ensures forall x :: x in OwnedOnly(s) <==> x in s && Owned(x)
    ensures forall x :: x in Unowned(s) <==> x in s && !Owned(x)
    ensures |OwnedOnly(s)| + |Unowned(s)| == |s|
  {
    if s != [] {
      OwnedOnlySpec(s[1..]);
      assert s == [s[0]] + s[1..];
    }
  }

  lemma {:induction false} UnownedAppend(a: seq<ItemRecord>, b: seq<ItemRecord>)
    ensures Unowned(a + b) == Unowned(a) + Unowned(b)
  {
    if a == [] {
      assert a + b == b;
    } else {
      assert (a + b)[1..] == a[1..] + b;
      UnownedAppend(a[1..], b);
    }
  }

  lemma {:induction false} OwnedOnlyAppend(a: seq<ItemRecord>, b: seq<ItemRecord>)
    ensures OwnedOnly(a + b) == OwnedOnly(a) + OwnedOnly(b)
  {
    if a == [] {
      assert a + b == b;
    } else {
      assert (a + b)[1..] == a[1..] + b;
      OwnedOnlyAppend(a[1..], b);
    }
  }

  /** Collecting warn items one more category at a time. */
  lemma {:induction false} WarnItemsOfSnoc(t: Table, order: seq<string>, key: string)
    ensures WarnItemsOf(t, order + [key]) == WarnItemsOf(t, order) + Unowned(Category(t, key))
  {
    if order == [] {
      assert WarnItemsOf(t, [key][1..]) == [];
    } else {
      assert (order + [key])[1..] == order[1..] + [key];
      WarnItemsOfSnoc(t, order[1..], key);
    }
  }

  /**
   * The warn items are exactly the owner-less items of the loadout, in category
   * order: collecting them category by category is filtering the flattened table.
   */
  lemma {:induction false} WarnItemsAreUnowned(t: Table, order: seq<string>)
    ensures WarnItemsOf(t, order) == Unowned(Flatten(t, order))
    ensures forall x :: x in WarnItemsOf(t, order) <==> x in Flatten(t, order) && !Owned(x)
  {
    if order != [] {
      WarnItemsAreUnowned(t, order[1..]);
      UnownedAppend(Category(t, order[0]), Flatten(t, order[1..]));
    }
    OwnedOnlySpec(Flatten(t, order));
  }

  /**
   * Editing copies the loadout with class type -1 when undefined and no items
   * when undefined; each category keeps exactly its owned items, and with
   * `equipAll` the first of them is equipped.
   */
  lemma EditDraftSpec(l: Loadout, equipAll: bool)
    ensures var r := EditDraft(l, equipAll);
      && r.id == l.id && r.name == l.name && r.platform == l.platform
      && r.destinyVersion == l.destinyVersion
      && (l.classType.None? ==> r.classType == -1)
      && (l.classType.Some? ==> r.classType == l.classType.value)
      && (l.items.None? ==> r.table == map[] && r.order == [] && r.warnItems == [])
      && (l.items.Some? ==> r.table.Keys == l.items.value.categories.Keys && r.order == l.items.value.order)
  {
  }

  /**
   * Each category of the edited draft holds exactly the owned items of the
   * loadout's category, in order, and with `equipAll` the first of them is
   * equipped; every other field of each item is copied.
   */
  lemma {:induction false} EditCategorySpec(s: seq<ItemRecord>, equipAll: bool)
    ensures var r := EditCategory(s, equipAll);
      && |r| == |OwnedOnly(s)|
      && (forall i :: 0 <= i < |r| ==> r[i].(equipped := OwnedOnly(s)[i].equipped) == OwnedOnly(s)[i])
      && (forall i :: 0 <= i < |r| ==> Owned(r[i]))
      && (forall i :: 0 <= i < |r| ==> (r[i].equipped <==> (equipAll && i == 0) || OwnedOnly(s)[i].equipped))
  {
    OwnedOnlySpec(s);
    var o := OwnedOnly(s);
    forall i | 0 <= i < |o|
      ensures Owned(o[i])
    {
      assert o[i] in o;
    }
  }

  /**
   * `add` changes nothing, and warns, exactly when the item cannot be in a
   * loadout or is a new stack for a category already holding its slot count.
   */
  lemma AddRejects(d: Draft, src: ItemRecord, shift: bool)
    ensures var r := AddEffect(d, src, shift);
      var inv := Category(d.table, Lower(src.itemType));
      Warns(r.outcome) <==>
        !src.loadoutEligible
        || (FindStack(inv, src.hash, src.id).None? && |inv| >= MaxSlots(src.itemType))
    ensures Warns(AddEffect(d, src, shift).outcome) ==> AddEffect(d, src, shift).draft == d
    ensures AddEffect(d, src, shift).outcome.MaxSlotsReached? ==>
      AddEffect(d, src, shift).outcome.slots == MaxSlots(src.itemType)
  {
  }

  /**
   * Adding a second copy of a stack never changes the number of entries: a
   * stackable dupe's amount becomes `min(old + added, maxStackSize)`, where the
   * added amount is at most the click quantity; otherwise nothing changes.
   */
  lemma AddDupe(d: Draft, src: ItemRecord, shift: bool, j: nat)
    requires src.loadoutEligible
    requires FindStack(Category(d.table, Lower(src.itemType)), src.hash, src.id) == Some(j)
    ensures var key := Lower(src.itemType);
      var r := AddEffect(d, src, shift).draft;
      && key in d.table
      && SameHeader(r, d) && r.order == d.order && r.table.Keys == d.table.Keys
      && |r.table[key]| == |d.table[key]|
      && (forall k :: k in d.table && k != key ==> r.table[k] == d.table[k])
      && (forall i :: 0 <= i < |d.table[key]| && i != j ==> r.table[key][i] == d.table[key][i])
    ensures var key := Lower(src.itemType);
      var dupe := Category(d.table, key)[j];
      var r := AddEffect(d, src, shift);
      src.maxStackSize > 1 ==>
        && r.outcome == Stacked
        && r.draft.table[key][j] ==
             dupe.(amount := Min(dupe.amount + Min(src.amount, ClickQuantity(shift)), dupe.maxStackSize))
        && r.draft.table[key][j].amount <= dupe.maxStackSize
    ensures src.maxStackSize <= 1 ==>
      AddEffect(d, src, shift) == AddResult(d, AlreadyPresent)
  {
  }

  /**
   * A new non-`Class` item under its category's cap is appended as a copy,
   * equipped iff it is equipment and the category was empty; nothing else changes.
   */
  lemma AddNew(d: Draft, src: ItemRecord, shift: bool)
    requires src.loadoutEligible && src.itemType != ClassType
    requires var inv := Category(d.table, Lower(src.itemType));
      FindStack(inv, src.hash, src.id).None? && |inv| < MaxSlots(src.itemType)
    ensures var key := Lower(src.itemType);
      var prev := Category(d.table, key);
      var r := AddEffect(d, src, shift);
      var c := r.draft.table[key];
      && r.outcome == Appended
      && SameHeader(r.draft, d)
      && r.draft.order == (if key in d.table then d.order else d.order + [key])
      && r.draft.table.Keys == d.table.Keys + {key}
      && (forall k :: k in d.table && k != key ==> r.draft.table[k] == d.table[k])
      && |c| == |prev| + 1 <= MaxSlots(src.itemType)
      && c[..|prev|] == prev
      && c[|prev|].(equipped := src.equipped) == src.(amount := Min(src.amount, ClickQuantity(shift)))
      && (c[|prev|].equipped <==> src.equipment && |prev| == 0)
  {
  }

  /**
   * A new `Class` item replaces the whole subclass slot when the slot's first
   * entry has a different damage type, joins it otherwise, and is always equipped.
   */
  lemma AddNewClass(d: Draft, src: ItemRecord, shift: bool)
    requires src.loadoutEligible && src.itemType == ClassType
    requires var inv := Category(d.table, Lower(src.itemType));
      FindStack(inv, src.hash, src.id).None? && |inv| < MaxSlots(src.itemType)
    ensures Lower(src.itemType) == ClassKey
    ensures var prev := Category(d.table, ClassKey);
      var r := AddEffect(d, src, shift);
      var kept := if |prev| > 0 && prev[0].dmg != src.dmg then [] else prev;
      && r.outcome == Appended
      && SameHeader(r.draft, d)
      && (forall k :: k in d.table && k != ClassKey ==> r.draft.table[k] == d.table[k])
      && r.draft.table[ClassKey] ==
           kept + [src.(amount := Min(src.amount, ClickQuantity(shift)), equipped := true)]
  {
    LowerOfClass();
  }

  /** Category `key` of `after` is `before` with its first entry equipped when `promote` holds. */
  predicate PromotedFrom(after: seq<ItemRecord>, before: seq<ItemRecord>, promote: bool) {
    after == if promote && |before| > 0 then before[0 := before[0].(equipped := true)] else before
  }

  /**
   * Removing a stored entry that is the first of its stack decrements its amount
   * by the click quantity and drops the entry iff the amount reaches zero or
   * below; the other entries keep their order, and if the item was equipped the
   * first remaining entry ends up equipped.  No other category changes.
   */
  lemma RemoveStored(d: Draft, it: ItemRecord, j: nat, shift: bool)
    requires var key := Lower(it.itemType);
      && ValidLoc(d.table, Loc(key, j)) && d.table[key][j] == it
      && FindStack(d.table[key], it.hash, it.id) == Some(j)
    ensures var key := Lower(it.itemType);
      var r := RemoveEffect(d, it, Some(Loc(key, j)), shift);
      var left := it.amount - ClickQuantity(shift);
      var before := if left <= 0 then Delete(d.table[key], j)
                    else d.table[key][j := it.(amount := left)];
      && r.item == it.(amount := left)
      && SameHeader(r.draft, d) && r.draft.order == d.order && r.draft.table.Keys == d.table.Keys
      && (forall k :: k in d.table && k != key ==> r.draft.table[k] == d.table[k])
      && |r.draft.table[key]| == (if left <= 0 then |d.table[key]| - 1 else |d.table[key]|)
      && PromotedFrom(r.draft.table[key], before, it.equipped)
      && (it.equipped && |r.draft.table[key]| > 0 ==> r.draft.table[key][0].equipped)
  {
  }

  /**
   * When the only equipped entry of a category is removed and the category is
   * not left empty, exactly one entry is equipped afterwards: the first.
   */
  lemma RemoveOnlyEquipped(d: Draft, it: ItemRecord, j: nat, shift: bool)
    requires var key := Lower(it.itemType);
      && ValidLoc(d.table, Loc(key, j)) && d.table[key][j] == it
      && FindStack(d.table[key], it.hash, it.id) == Some(j)
      && it.equipped
      && (forall i :: 0 <= i < |d.table[key]| && i != j ==> !d.table[key][i].equipped)
      && it.amount - ClickQuantity(shift) <= 0
    ensures var key := Lower(it.itemType);
      var c := RemoveEffect(d, it, Some(Loc(key, j)), shift).draft.table[key];
      |c| > 0 ==> forall i :: 0 <= i < |c| ==> (c[i].equipped <==> i == 0)
  {
    RemoveStored(d, it, j, shift);
  }

  /**
   * When the removed entry survives the decrement and is not first in its
   * category, the promotion still runs: an equipped entry keeps its flag and
   * the first entry is equipped as well.
   */
  lemma RemoveSurvivorStaysEquipped(d: Draft, it: ItemRecord, j: nat, shift: bool)
    requires var key := Lower(it.itemType);
      && ValidLoc(d.table, Loc(key, j)) && d.table[key][j] == it
      && FindStack(d.table[key], it.hash, it.id) == Some(j)
      && it.equipped && j > 0
      && it.amount - ClickQuantity(shift) > 0
    ensures var key := Lower(it.itemType);
      var c := RemoveEffect(d, it, Some(Loc(key, j)), shift).draft.table[key];
      && |c| == |d.table[key]|
      && c[0] == d.table[key][0].(equipped := true)
      && c[j] == it.(amount := it.amount - ClickQuantity(shift))
      && c[0].equipped && c[j].equipped
  {
    RemoveStored(d, it, j, shift);
  }

  /**
   * An item with no stack in its category only creates the category if missing;
   * amounts stay, and the first entry is equipped when the item is equipped.
   */
  lemma RemoveUnmatched(d: Draft, it: ItemRecord, loc: Option<Loc>, shift: bool)
    requires FindStack(Category(d.table, Lower(it.itemType)), it.hash, it.id).None?
    ensures var key := Lower(it.itemType);
      var r := RemoveEffect(d, it, loc, shift);
      && r.item == it
      && SameHeader(r.draft, d)
      && r.draft.table.Keys == d.table.Keys + {key}
      && (forall k :: k in d.table && k != key ==> r.draft.table[k] == d.table[k])
      && PromotedFrom(r.draft.table[key], Category(d.table, key), it.equipped)
  {
  }

  /**
   * The exotic pass followed by the slot pass unequips exactly the equipped
   * entries that share the target's type or its non-empty equipping label.
   */
  lemma UnequipPassesSpec(t: Table, target: ItemRecord)
    ensures UnequipPasses(t, target) == UnequipHits(t, target)
  {
    var t1 := if target.equippingLabel != "" then ClearPass(t, target, true) else t;
    var r := UnequipPasses(t, target);
    var h := UnequipHits(t, target);
    forall k | k in t
      ensures r[k] == h[k]
    {
      assert |t1[k]| == |t[k]|;
      forall i | 0 <= i < |t[k]|
        ensures r[k][i] == h[k][i]
      {
        assert r[k][i] == ClearOne(target, false, t1[k][i]);
      }
    }
  }

  /** Equipping changes nothing for an item that is not equipment. */
  lemma EquipNonEquipment(d: Draft, it: ItemRecord, loc: Option<Loc>)
    requires !it.equipment
    ensures EquipEffect(d, it, loc) == ItemUpdate(d, it)
  {
  }

  /**
   * On equipment, an equipped item (a `Class` item too) is unequipped and an
   * unequipped `Class` item is equipped; no other entry changes.
   */
  lemma EquipToggle(d: Draft, it: ItemRecord, loc: Option<Loc>)
    requires it.equipment && (it.equipped || it.itemType == ClassType)
    requires StoredAt(d.table, loc, it)
    ensures var r := EquipEffect(d, it, loc);
      && r.item == it.(equipped := !it.equipped)
      && SameHeader(r.draft, d) && r.draft.order == d.order && r.draft.table.Keys == d.table.Keys
      && (forall k :: k in d.table ==> |r.draft.table[k]| == |d.table[k]|)
      && (forall k, i :: k in d.table && 0 <= i < |d.table[k]| ==>
            r.draft.table[k][i] == if loc == Some(Loc(k, i)) then r.item else d.table[k][i])
  {
  }

  /**
   * Equipping any other unequipped equipment leaves it equipped as the only
   * equipped entry of its type, with no other equipped entry sharing its
   * non-empty equipping label; other entries only lose their equipped flag, and
   * only if they share its type or label.
   */
  lemma EquipExclusive(d: Draft, it: ItemRecord, loc: Option<Loc>)
    requires it.equipment && !it.equipped && it.itemType != ClassType
    requires StoredAt(d.table, loc, it)
    ensures var r := EquipEffect(d, it, loc);
      && r.item == it.(equipped := true)
      && SameHeader(r.draft, d) && r.draft.order == d.order && r.draft.table.Keys == d.table.Keys
      && (forall k :: k in d.table ==> |r.draft.table[k]| == |d.table[k]|)
      && (loc.Some? ==> r.draft.table[loc.value.key][loc.value.index] == r.item)
    ensures var r := EquipEffect(d, it, loc).draft;
      forall k, i :: k in d.table && 0 <= i < |d.table[k]| && loc != Some(Loc(k, i)) ==>
        && (r.table[k][i].equipped ==> r.table[k][i].itemType != it.itemType)
        && (r.table[k][i].equipped && it.equippingLabel != "" ==>
              r.table[k][i].equippingLabel != it.equippingLabel)
        && r.table[k][i] == d.table[k][i].(equipped := r.table[k][i].equipped)
        && (r.table[k][i].equipped <==> d.table[k][i].equipped && !Hits(it, d.table[k][i]))
  {
    UnequipPassesSpec(d.table, it);
    SetAtSpec(UnequipHits(d.table, it), loc, it.(equipped := true));
  }

  /** Removing a warn item drops the first warn item of that stack, if any, and nothing else. */
  lemma RemoveWarnSpec(d: Draft, hash: int, id: string)
    ensures var r := RemoveWarnEffect(d, hash, id);
      && r.(warnItems := d.warnItems) == d
      && (forall x :: x in r.warnItems ==> x in d.warnItems)
      && ((exists i :: 0 <= i < |d.warnItems| && SameStack(d.warnItems[i], hash, id)) <==>
            |r.warnItems| == |d.warnItems| - 1)
    ensures var w := d.warnItems;
      (forall i :: 0 <= i < |w| ==> !SameStack(w[i], hash, id)) ==> RemoveWarnEffect(d, hash, id) == d
    ensures var w := d.warnItems;
      forall j :: 0 <= j < |w| && SameStack(w[j], hash, id) && (forall i :: 0 <= i < j ==> !SameStack(w[i], hash, id)) ==>
        RemoveWarnEffect(d, hash, id).warnItems == w[..j] + w[j + 1..]
  {
    match FindStack(d.warnItems, hash, id)
    case None =>
    case Some(j) =>
      assert forall x :: x in Delete(d.warnItems, j) ==> x in d.warnItems;
      forall j' | 0 <= j' < |d.warnItems| && SameStack(d.warnItems[j'], hash, id)
          && (forall i :: 0 <= i < j' ==> !SameStack(d.warnItems[i], hash, id))
        ensures RemoveWarnEffect(d, hash, id).warnItems == d.warnItems[..j'] + d.warnItems[j' + 1..]
      {
        FindStackFirst(d.warnItems, hash, id, j');
      }
  }

  /** Saving stamps the account's platform and edition and changes nothing else of the draft. */
  lemma StampSpec(d: Draft, account: Account)
    ensures var r := Stamp(d, account);
      && r.platform == Some(account.platformLabel)
      && r.destinyVersion == Some(account.destinyVersion)
      && r.(platform := d.platform, destinyVersion := d.destinyVersion) == d
  {
  }
}

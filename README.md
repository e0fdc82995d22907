# Loadout drawer editing rules

A Dafny model of the loadout drawer of a Destiny inventory manager: the
controller `LoadoutDrawerCtrl` that edits one draft loadout. A draft holds a
table from a lowercase category key (the item type, lowercased) to the ordered
items of that category, plus the "warn items", the owner-less items of a saved
loadout that cannot be restored. The controller's handlers build the
class-type selector from the stores, open a saved loadout for editing, add
items (with slot caps, stacking, auto-equip and one subclass per damage type),
remove items (decrement, drop, hand the equipped flag to the first entry),
toggle equipped state (with type and exotic-label exclusivity), drop warn
items, save, save-as-new, cancel, delete, and recompute the stat summary of the
equipped items for first-edition accounts.

Layout:

- `options.dfy`: `Option`, standing for a JavaScript property that may be undefined.
- `text.dfy`: ASCII lowercasing.
- `items.dfy`: the field values of an item (`ItemRecord`) and of a stat entry, and `Min` for clamping amounts.
- `tables.dfy`: the item table, its key order, `Loadout` and `Draft` values, lookup and splice.
- `classtypes.dfy`: the class-type option list and its legacy value remap.
- `stats.dfy`: the synchronous part of the stat recalculation.
- `rules.dfy`: every handler's effect on the draft as a function, with the lemmas that state what the rules promise.
- `drawer.dfy`: the controller as a class. Its fields are the controller's fields. Its methods are the handlers, each proved to have exactly the effect of the rule of the same name.

Items are values. `remove` and `equip` receive one of the draft's own item
objects and update it in place. The model gives them the object's field values
and its position in the draft (`Loc`, category key and index), or `None` when
the object is not stored there; the position given must hold that object's values. They return the object's new field values.

On these points the code does something easy to misread, and the model
follows the code:

- An equipped `Class` item is unequipped by `equip`. It is not kept equipped (`EquipToggle`).
- Equipping an unequipped `Class` item does not unequip anything else.
- The exclusivity pass of `equip` is over items of the same *type* in every category, and over items sharing the exotic equipping label. It is not limited to one category (`EquipExclusive`).
- `remove` takes the click quantity off the passed object, not off the stored entry it finds. It splices the first entry of that stack.
- `remove` promotes the first entry to equipped whenever the passed item is equipped and the category is non-empty. This happens even when no entry matched, and even when the entry survived the decrement. A surviving equipped entry that is not first then leaves two equipped entries (`RemoveSurvivorStaysEquipped`).
- `add` of a dupe that cannot stack changes nothing and does not warn, even when the category is full (`AddDupe`, `AddRejects`).
- `remove` creates an empty category for a missing key even when nothing matches (`RemoveUnmatched`). When `add` refuses, the category already exists or the item is rejected before the lookup, so its draft is unchanged (`AddRejects`).

## Model

| member | source | states |
|---|---|---|
| ClassTypes.LegacyRemapValues | src/app/loadout/loadout-drawer.component.ts:63-78 | a class value 0, 1 or 2 maps to value+1 mod 3; any other value maps to 0; the result is in 0..2 |
| ClassTypes.LegacyRemap | src/app/loadout/loadout-drawer.component.ts:63-78 | the remapped class value is in 0..2, and it is 0 exactly for class 2 and for values the switch has no case for |
| ClassTypes.NonVaultMembers | src/app/loadout/loadout-drawer.component.ts:62 | the filtered stores are exactly the stores that are not the vault |
| ClassTypes.UniqFrom | src/app/loadout/loadout-drawer.component.ts:62 | no more stores than given are kept; none has a class type already seen, and no two kept stores share a class type |
| ClassTypes.UniqFromPicksFirst | src/app/loadout/loadout-drawer.component.ts:62 | every store `_.uniq` keeps has a class type not seen before and is the first store of that class type |
| ClassTypes.UniqFromFirstSeenOrder | src/app/loadout/loadout-drawer.component.ts:62 | the kept stores appear in the order their class types are first seen |
| ClassTypes.UniqFromCovers | src/app/loadout/loadout-drawer.component.ts:62 | every class type present (and not already seen) is kept |
| ClassTypes.UniqFirstSeen | src/app/loadout/loadout-drawer.component.ts:62 | the kept stores are, in increasing order, exactly the first stores of each class type present |
| ClassTypes.ClassTypeListShape | src/app/loadout/loadout-drawer.component.ts:55-81 | the option list is `{Any, -1}` followed by one option per distinct class type among non-vault stores, in first-seen order, labelled with that store's class name and valued by the legacy remap |
| ClassTypes.ClassTypeList | src/app/loadout/loadout-drawer.component.ts:55-81 | the list starts with `{Any, -1}`, holds at most one option per store besides, and every other option's value is in 0..2 |
| ClassTypes.FirstOfClass | src/app/loadout/loadout-drawer.component.ts:62 | the index returned is the first store of that class type, or the length when there is none |
| Drawer.LoadoutDrawer.OnStoresChanged | src/app/loadout/loadout-drawer.component.ts:52-82 | after a stores change the options are the class-type list of those stores |
| Drawer.LoadoutDrawer.constructor | src/app/loadout/loadout-drawer.component.ts:129-137 | the drawer starts hidden, with the dialog closed and the default draft (class type -1, no items) |
| Drawer.LoadoutDrawer.OnAccountChanged | src/app/loadout/loadout-drawer.component.ts:84-88 | an account change hides the drawer |
| Drawer.LoadoutDrawer.OnTransitionExit | src/app/loadout/loadout-drawer.component.ts:42-45 | leaving the route closes the dialog and hides the drawer |
| Drawer.LoadoutDrawer.Reset | src/app/loadout/loadout-drawer.component.ts:133-137 | the draft becomes the defaults and the key order stays consistent |
| Drawer.LoadoutDrawer.OnDeleteLoadout | src/app/loadout/loadout-drawer.component.ts:91-95 | deleting hides the drawer, closes the dialog and resets the draft to the defaults; the stats become those of an empty draft |
| Drawer.LoadoutDrawer.OnEditLoadout | src/app/loadout/loadout-drawer.component.ts:97-127 | `showClass` is always taken; with no loadout the draft, visibility and stats are unchanged; with one, the drawer opens on the edited draft of that loadout and the stats are recomputed from it, as the watch on the items does |
| Drawer.LoadoutDrawer.OpenCopy | src/app/loadout/loadout-drawer.component.ts:100-117 | the drawer is shown, the dialog is open and the draft is the edited copy of the loadout |
| Drawer.LoadoutDrawer.EditCategories | src/app/loadout/loadout-drawer.component.ts:112-117 | each category of the draft becomes its edited category; the key set and order are kept |
| Drawer.EditTable | src/app/loadout/loadout-drawer.component.ts:112-117 | the loop over the keys in order leaves every category with only its owned items, the first equipped under `equipAll` |
| DraftRules.EditDraft | src/app/loadout/loadout-drawer.component.ts:97-119 | the edited draft has the loadout's categories (none when items are undefined), and its warn items are exactly the owner-less items of the flattened table, in key order |
| DraftRules.EditDraftSpec | src/app/loadout/loadout-drawer.component.ts:100-106 | the edited draft copies id, name, platform and edition; an undefined class type becomes -1; undefined items become an empty table with no warn items |
| DraftRules.EditCategorySpec | src/app/loadout/loadout-drawer.component.ts:113-116 | each edited category holds exactly the owned items, in order and otherwise unchanged; an entry is equipped iff it was, or it is first and `equipAll` holds |
| DraftRules.OwnedOnlySpec | src/app/loadout/loadout-drawer.component.ts:109-113 | the owned and owner-less filters keep exactly the owned and the owner-less items, and split the category between them |
| DraftRules.WarnItemsAreUnowned | src/app/loadout/loadout-drawer.component.ts:109 | the warn items are exactly the owner-less items of the loadout, in category order |
| DraftRules.WarnItemsOfSnoc | src/app/loadout/loadout-drawer.component.ts:109 | collecting warn items over one more category appends that category's owner-less items |
| DraftRules.UnownedAppend | src/app/loadout/loadout-drawer.component.ts:109 | filtering out owned items distributes over concatenation |
| DraftRules.OwnedOnlyAppend | src/app/loadout/loadout-drawer.component.ts:113 | keeping owned items distributes over concatenation |
| Drawer.LoadoutDrawer.Add | src/app/loadout/loadout-drawer.component.ts:174-222 | the draft and the outcome are those of the add rule, and the stat summary is recomputed from the new draft |
| DraftRules.AddEffect | src/app/loadout/loadout-drawer.component.ts:174-222 | `add` changes only the table: it gains the item's category when the item can be in a loadout, and no category other than the item's own and the subclass slot changes |
| Drawer.LoadoutDrawer.AddEligible | src/app/loadout/loadout-drawer.component.ts:179-216 | for an item that can be in a loadout, the clamped copy is added to its category as the add rule says |
| Drawer.LoadoutDrawer.EnsureCategory | src/app/loadout/loadout-drawer.component.ts:182 | a missing category is created empty and its key goes last in the key order |
| Drawer.LoadoutDrawer.AddToCategory | src/app/loadout/loadout-drawer.component.ts:186-216 | a new stack is appended under the cap, a stackable dupe grows, otherwise the draft is unchanged with the matching outcome |
| Drawer.LoadoutDrawer.AppendClone | src/app/loadout/loadout-drawer.component.ts:195-208 | the copy is appended, equipped as the first equipment of its category or as a subclass; a subclass of another damage type first empties the subclass slot |
| DraftRules.AddRejects | src/app/loadout/loadout-drawer.component.ts:178-218 | `add` warns iff the item cannot be in a loadout, or is a new stack for a category holding at least 20 (Material), 19 (Consumable) or 10 entries; when it warns the draft is unchanged |
| DraftRules.AddDupe | src/app/loadout/loadout-drawer.component.ts:184-214 | adding a dupe keeps the entry count and every other entry; a stackable dupe's amount becomes min(old + min(amount, 5 or 1), stack size); a non-stackable dupe changes nothing |
| DraftRules.AddNew | src/app/loadout/loadout-drawer.component.ts:179-208 | a new non-Class item under the cap is appended as a copy at the end of its category, equipped iff it is equipment and the category was empty; no other category changes |
| DraftRules.AddNewClass | src/app/loadout/loadout-drawer.component.ts:200-206 | a new Class item empties the `class` category first when its first entry has another damage type, and is always inserted equipped |
| Drawer.LoadoutDrawer.Remove | src/app/loadout/loadout-drawer.component.ts:224-246 | the draft and the item object are those of the remove rule, and the stat summary is recomputed from the new draft |
| DraftRules.RemoveEffect | src/app/loadout/loadout-drawer.component.ts:224-246 | `remove` changes only the table, which gains the item's category if missing; the item object keeps every field but its amount, which never grows |
| Drawer.LoadoutDrawer.RemoveFromDraft | src/app/loadout/loadout-drawer.component.ts:228-243 | the category is created if missing, the stack is decremented, then an equipped item hands the equipped flag to the first entry, as the remove rule says |
| Drawer.LoadoutDrawer.DecrementStack | src/app/loadout/loadout-drawer.component.ts:231-239 | if an entry of the item's stack is found, the item object loses the click quantity and the found entry leaves when the amount is no longer positive; otherwise nothing changes |
| Drawer.LoadoutDrawer.TakeFrom | src/app/loadout/loadout-drawer.component.ts:234-238 | the object loses 5 (shift) or 1 units, and the found entry is spliced out iff the new amount is at most 0 |
| DraftRules.RemoveStored | src/app/loadout/loadout-drawer.component.ts:231-243 | removing a stored entry decrements it by the click quantity, drops it iff the amount reaches 0 or below, keeps the order of the others and the other categories, and leaves the first entry equipped if the item was |
| DraftRules.RemoveOnlyEquipped | src/app/loadout/loadout-drawer.component.ts:236-243 | when the only equipped entry is dropped and the category is not left empty, exactly the first entry is equipped |
| DraftRules.RemoveSurvivorStaysEquipped | src/app/loadout/loadout-drawer.component.ts:235-243 | an equipped entry that survives the decrement and is not first stays equipped while the first entry is also equipped |
| DraftRules.RemoveUnmatched | src/app/loadout/loadout-drawer.component.ts:229-243 | with no entry of the item's stack, amounts stay, the category is created if missing, and the first entry is still promoted when the item is equipped |
| Drawer.LoadoutDrawer.RemoveWarnItem | src/app/loadout/loadout-drawer.component.ts:249-258 | the warn items lose their first entry of the item's stack, if any |
| DraftRules.RemoveWarnEffect | src/app/loadout/loadout-drawer.component.ts:254-256 | only the warn items change, and they lose at most one entry |
| DraftRules.RemoveWarnSpec | src/app/loadout/loadout-drawer.component.ts:254-256 | no warn item is added; one goes iff some warn item has the hash and id; with none the draft is unchanged; otherwise the first such item is cut out and the others keep their order |
| Drawer.LoadoutDrawer.Equip | src/app/loadout/loadout-drawer.component.ts:260-290 | the draft and the item object are those of the equip rule, and the stat summary is recomputed from the new draft |
| DraftRules.EquipEffect | src/app/loadout/loadout-drawer.component.ts:260-290 | `equip` changes only the table's entries, keeping its keys; the item object's equipped flag flips exactly when it is equipment |
| Drawer.LoadoutDrawer.EquipInDraft | src/app/loadout/loadout-drawer.component.ts:265-287 | equipment is toggled as the equip rule says, with both unequip passes before a new item is equipped |
| Drawer.LoadoutDrawer.UnequipPass | src/app/loadout/loadout-drawer.component.ts:271-283 | one pass over all items unequips exactly the equipped items sharing the target's equipping label (or its type) and nothing else |
| Drawer.ClearTable | src/app/loadout/loadout-drawer.component.ts:271-283 | the nested loops over the categories in key order and their entries give exactly one unequip pass over every item |
| DraftRules.UnequipPassesSpec | src/app/loadout/loadout-drawer.component.ts:271-283 | the label pass followed by the type pass equals unequipping every equipped item that shares the target's type or its non-empty label |
| DraftRules.EquipNonEquipment | src/app/loadout/loadout-drawer.component.ts:265 | equipping an item that is not equipment changes nothing |
| DraftRules.EquipToggle | src/app/loadout/loadout-drawer.component.ts:266-269 | an equipped equipment item (Class included) becomes unequipped, an unequipped Class item becomes equipped, and no other entry changes |
| DraftRules.EquipExclusive | src/app/loadout/loadout-drawer.component.ts:270-285 | after equipping other equipment it is equipped, no other equipped entry has its type or its non-empty equipping label, and other entries only lose their equipped flag, exactly when they were hit |
| Drawer.LoadoutDrawer.Cancel | src/app/loadout/loadout-drawer.component.ts:167-172 | cancelling resets the draft to the defaults, closes the dialog and hides the drawer; the stats become those of an empty draft |
| Drawer.LoadoutDrawer.Save | src/app/loadout/loadout-drawer.component.ts:139-156 | the loadout handed to the service is the draft stamped with the account's platform and edition; then the drawer cancels, and the stats become those of an empty draft |
| DraftRules.StampSpec | src/app/loadout/loadout-drawer.component.ts:145-146 | stamping sets the platform label and edition and changes nothing else |
| DraftRules.Stamp | src/app/loadout/loadout-drawer.component.ts:145-146 | the saved draft carries the account's platform label and edition, with id, name, class type, items and warn items kept |
| Drawer.LoadoutDrawer.SaveAsNew | src/app/loadout/loadout-drawer.component.ts:158-165 | the saved loadout has no id and is otherwise the stamped draft; then the drawer cancels, and the stats become those of an empty draft |
| Drawer.LoadoutDrawer.RecalculateStats | src/app/loadout/loadout-drawer.component.ts:292-327 | the summary becomes the recalculation over all items in key order for the account's edition |
| StatRules.Recalculate | src/app/loadout/loadout-drawer.component.ts:292-327 | for an edition other than 1 the stats are null and both flags keep their values; for edition 1 the stats are present iff `hasArmor`, and `completeArmor` implies `hasArmor` |
| Drawer.Summarize | src/app/loadout/loadout-drawer.component.ts:298-327 | for edition 1 the summary built from the filtered stats and their tally is the recalculation |
| StatRules.Tally | src/app/loadout/loadout-drawer.component.ts:306-317 | the `reduce` loop yields the left fold of the accumulator step and counts every entry it folds |
| StatRules.RecalculateOtherEdition | src/app/loadout/loadout-drawer.component.ts:293-296 | for an edition other than 1, `stats` becomes null and `hasArmor` and `completeArmor` keep their values |
| StatRules.RecalculateTwice | src/app/loadout/loadout-drawer.component.ts:125-127 | recomputing the summary of unchanged items, as the watch does after a handler that already recomputed, changes nothing |
| StatRules.RecalculateFlags | src/app/loadout/loadout-drawer.component.ts:301-327 | for edition 1, `hasArmor` iff some tracked stat of an equipped item is counted, `completeArmor` iff exactly 21 are, `stats` null iff none is |
| StatRules.RecalculateEntry | src/app/loadout/loadout-drawer.component.ts:299-317 | the combined stats have an entry exactly for the tracked ids on equipped items, holding the sum of that id's values |
| StatRules.CombineAt | src/app/loadout/loadout-drawer.component.ts:306-317 | the accumulator has an entry for an id iff it occurs; its value is the sum over that id and its stat hash is the first entry's |
| StatRules.CombineEmpty | src/app/loadout/loadout-drawer.component.ts:324 | the accumulator is empty iff no stat was folded in |
| StatRules.TrackedEquippedCount | src/app/loadout/loadout-drawer.component.ts:301-307 | the count of folded entries is the number of tracked stat entries over equipped items |
| StatRules.TrackedOnlySums | src/app/loadout/loadout-drawer.component.ts:299-305 | filtering to tracked stats keeps each tracked id's sum and removes every other id |
| StatRules.TrackedOnlyPresence | src/app/loadout/loadout-drawer.component.ts:299-305 | a tracked id occurs after filtering iff it occurred before |
| StatRules.TrackedOnlyAppend | src/app/loadout/loadout-drawer.component.ts:305 | the tracked filter distributes over concatenation |
| StatRules.TrackedOnlyCount | src/app/loadout/loadout-drawer.component.ts:305 | the filtered length is the number of tracked entries |
| StatRules.SumOfAppend | src/app/loadout/loadout-drawer.component.ts:309 | the per-id sum distributes over concatenation |
| StatRules.SumOfAbsent | src/app/loadout/loadout-drawer.component.ts:309 | an id that does not occur sums to 0 |
| StatRules.FirstWithIdAppend | src/app/loadout/loadout-drawer.component.ts:311-314 | the first entry of an id in a prefix stays the first after appending |
| StatRules.GauntletsExample | src/app/loadout/loadout-drawer.component.ts:319-327 | one equipped item with one Intellect stat gives `hasArmor`, not `completeArmor`, and that one combined entry |
| Tables.FindStack | src/app/loadout/loadout-drawer.component.ts:231 | the index found is the first entry with that hash and id, and none is found iff no entry matches |
| Tables.FindStackFirst | src/app/loadout/loadout-drawer.component.ts:254 | the first entry with that hash and id is the one found |
| Tables.SetAtSpec | src/app/loadout/loadout-drawer.component.ts:267-285 | updating the item object at a position changes that entry and nothing else |
| Tables.Delete | src/app/loadout/loadout-drawer.component.ts:237 | `splice(j, 1)` drops entry j and shifts the later ones down by one |
| Text.LowerOfClass | src/app/loadout/loadout-drawer.component.ts:181 | the category key of an item of type `Class` is `class` |

## Left out

- Angular wiring: the `$onInit` router listener, `$onDestroy`, the `$scope.$on` events and the digest cycle are framework plumbing, and each handler is a plain method. The `$watchCollection` on the items is modelled as a stats recomputation at the end of each handler that replaces the draft's items: edit, cancel, delete, save and save-as-new. The model recomputes even when the items object was already empty before, a case in which the watch sees no change. `add`, `remove` and `equip` recompute the stats themselves, and a second recomputation by the watch changes nothing (`RecalculateTwice`).
- The store-item click event only forwards to `add`, so it is not modelled separately.
- Toaster pop-ups and `$i18next` text are not modelled. `add` returns an `AddOutcome`; `NotLoadoutItem` and `MaxSlotsReached(slots)` are the two warnings. The "Any" label is a parameter of `OnStoresChanged`.
- `fillInDefinitionsForWarnItems` is not modelled. It asynchronously fills in the warn items' icon and name from definition databases.
- The asynchronous tail of `recalculateStats` is not modelled: the D1 definitions fetch and `getCharacterStatsData`. The model keeps the combined-stats accumulator as `stats`. A stale asynchronous update racing a newer one is concurrency and is not captured.
- `saveLoadout` persistence and its error toast are not modelled. `Save` returns the stamped draft it hands over.
- `vm.types`, computed from the D1 and D2 category lists, and `vm.settings` are not modelled. They are external data the rules never read.
- Angular `copy` is modelled as a value copy.
- Items are values, so aliasing is not captured. Nothing models one object stored at two positions, or an object updated in place while also held elsewhere (for instance by the store that was clicked). The object `remove` and `equip` receive is given by its position in the draft.
- `canBeInLoadout()` is taken as the item's `loadoutEligible` field.
- `Lower` lowercases ASCII letters only, while `toLowerCase` is full Unicode.
- An absent or empty `owner` or `equippingLabel` is the empty string.
- `parseInt(classType.toString())` is taken as the integer class type itself.
- A `stats` entry that is null is not modelled; every stat entry is present.
- The `!vm.loadout` guards are not modelled: the draft always exists, so those early returns cannot be reached. The model also starts with an empty key order for the default draft.
- Drawer.LoadoutDrawer.OnEditLoadout: requires the saved loadout's key order to list its categories once each. A JavaScript object always enumerates its keys that way.

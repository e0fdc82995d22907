/**
 * The loadout's item table as a value: a map from a lowercase category key to
 * the ordered items of that category, together with the insertion order of the
 * keys (a JavaScript object enumerates its keys in that order).
 */
module Tables {
  import opened Options
  import opened Items

  type Table = map<string, seq<ItemRecord>>

  /** A position in a table: category key and index within that category. */
  datatype Loc = Loc(key: string, index: nat)

  /** `order` lists every key of `m` exactly once. */
  ghost predicate KeyOrder<V>(order: seq<string>, m: map<string, V>) {
    && (forall i, j :: 0 <= i < j < |order| ==> order[i] != order[j])
    && (forall k :: k in m <==> k in order)
  }

  /** Category `key`, or no items when the table has no such key. */
  function Category(t: Table, key: string): seq<ItemRecord> {
    if key in t then t[key] else []
  }

  /** All items, category by category in key order. */
  function Flatten(t: Table, order: seq<string>): seq<ItemRecord> {
    if order == [] then [] else Category(t, order[0]) + Flatten(t, order[1..])
  }

  /** The index of the first item of `s` in the stack `(hash, id)`, if any. */
  function FindStack(s: seq<ItemRecord>, hash: int, id: string): (r: Option<nat>)
    ensures r.Some? ==> r.value < |s| && SameStack(s[r.value], hash, id)
    ensures r.Some? ==> forall j :: 0 <= j < r.value ==> !SameStack(s[j], hash, id)
    ensures r.None? ==> forall j :: 0 <= j < |s| ==> !SameStack(s[j], hash, id)
  {
    if s == [] then None
    else if SameStack(s[0], hash, id) then Some(0)
    else match FindStack(s[1..], hash, id)
      case None => None
      case Some(j) => Some(j + 1)
  }

  /** `FindStack` finds the first entry of the stack, wherever it is. */
  lemma {:induction false} FindStackFirst(s: seq<ItemRecord>, hash: int, id: string, j: nat)
    requires j < |s| && SameStack(s[j], hash, id)
    requires forall i :: 0 <= i < j ==> !SameStack(s[i], hash, id)
    ensures FindStack(s, hash, id) == Some(j)
  {
    if j > 0 {
      assert !SameStack(s[0], hash, id);
      FindStackFirst(s[1..], hash, id, j - 1);
    }
  }

  /** `loc` names a position that exists in `t`. */
  predicate ValidLoc(t: Table, loc: Loc) {
    loc.key in t && loc.index < |t[loc.key]|
  }

  /** The table after the record at `loc` (if any) is replaced by `r`. */
  function SetAt(t: Table, loc: Option<Loc>, r: ItemRecord): (t': Table)
    ensures t'.Keys == t.Keys
  {
    if loc.Some? && ValidLoc(t, loc.value) then
      t[loc.value.key := t[loc.value.key][loc.value.index := r]]
    else t
  }

  /** `SetAt` changes the record at `loc` and nothing else. */
  lemma SetAtSpec(t: Table, loc: Option<Loc>, r: ItemRecord)
    ensures forall k :: k in t ==> |SetAt(t, loc, r)[k]| == |t[k]|
    ensures forall k, i :: k in t && 0 <= i < |t[k]| ==>
      SetAt(t, loc, r)[k][i] == if loc == Some(Loc(k, i)) then r else t[k][i]
  {
  }

  /** The sequence with entry `j` cut out. */
  function Delete<T>(s: seq<T>, j: nat): (r: seq<T>)
    requires j < |s|
    ensures |r| == |s| - 1
    ensures forall i :: 0 <= i < j ==> r[i] == s[i]
    ensures forall i :: j <= i < |r| ==> r[i] == s[i + 1]
  {
    s[..j] + s[j + 1..]
  }

  /** The items that have an owner, in order. */
  function OwnedOnly(s: seq<ItemRecord>): seq<ItemRecord> {
    if s == [] then []
    else (if Owned(s[0]) then [s[0]] else []) + OwnedOnly(s[1..])
  }

  /** The items without an owner, in order. */
  function Unowned(s: seq<ItemRecord>): seq<ItemRecord> {
    if s == [] then []
    else (if Owned(s[0]) then [] else [s[0]]) + Unowned(s[1..])
  }

  /** A loadout's items as stored in a saved loadout: key order and table. */
  datatype ItemTable = ItemTable(order: seq<string>, categories: Table)

  /** A loadout handed to the editor; `classType` and `items` may be undefined. */
  datatype Loadout = Loadout(
    id: Option<string>,
    name: Option<string>,
    classType: Option<int>,
    destinyVersion: Option<int>,
    platform: Option<string>,
    items: Option<ItemTable>)

  /** The loadout being edited (`vm.loadout`, with its `warnitems`), as a value. */
  datatype Draft = Draft(
    id: Option<string>,
    name: Option<string>,
    classType: int,
    destinyVersion: Option<int>,
    platform: Option<string>,
    order: seq<string>,
    table: Table,
    warnItems: seq<ItemRecord>)
}

/**
 * The synchronous part of the stat recalculation: the stats of equipped items
 * are filtered to the three tracked stats, counted, and summed per stat id.
 */
module StatRules {
  import opened Options
  import opened Items

  const StatIntellect := "STAT_INTELLECT"
  const StatDiscipline := "STAT_DISCIPLINE"
  const StatStrength := "STAT_STRENGTH"

  /** Seven kinds of item contribute the tracked stats, three stats each. */
  const CompleteArmorCount := 7 * 3

  predicate Tracked(id: string) {
    id == StatIntellect || id == StatDiscipline || id == StatStrength
  }

  /** One accumulator entry, `{ statHash, value }`. */
  datatype CombinedStat = CombinedStat(statHash: int, value: int)

  type Combined = map<string, CombinedStat>

  /** What the recalculation leaves in the controller: `stats`, `hasArmor`, `completeArmor`. */
  datatype StatsSummary = StatsSummary(stats: Option<Combined>, hasArmor: bool, completeArmor: bool)

  /** The stat entries of the equipped items, item by item. */
  function EquippedStats(items: seq<ItemRecord>): seq<Stat> {
    if items == [] then []
    else (if items[0].equipped then items[0].stats else []) + EquippedStats(items[1..])
  }

  /** The stat entries whose id is one of the three tracked stats. */
  function TrackedOnly(stats: seq<Stat>): seq<Stat> {
    if stats == [] then []
    else (if Tracked(stats[0].id) then [stats[0]] else []) + TrackedOnly(stats[1..])
  }

  /** One step of the `reduce`: add to the entry for the stat's id, or start it. */
  function Accumulate(acc: Combined, s: Stat): Combined {
    if s.id in acc then acc[s.id := acc[s.id].(value := acc[s.id].value + s.value)]
    else acc[s.id := CombinedStat(s.statHash, s.value)]
  }

  /** The accumulator the `reduce` produces from `{}`, folding from the left. */
  function Combine(stats: seq<Stat>): Combined {
    if stats == [] then map[]
    else Accumulate(Combine(stats[..|stats| - 1]), stats[|stats| - 1])
  }

  /** The `reduce` loop: builds the accumulator and counts the entries it folds in. */
  method Tally(filtered: seq<Stat>) returns (combined: Combined, count: nat)
    ensures combined == Combine(filtered)
    ensures count == |filtered|
  {
    combined, count := map[], 0;
    for n := 0 to |filtered|
      invariant combined == Combine(filtered[..n])
      invariant count == n
    {
      var stat := filtered[n];
      count := count + 1;
      if stat.id in combined {
        combined := combined[stat.id := combined[stat.id].(value := combined[stat.id].value + stat.value)];
      } else {
        combined := combined[stat.id := CombinedStat(stat.statHash, stat.value)];
      }
      assert filtered[..n + 1][..n] == filtered[..n];
    }
    assert filtered[..|filtered|] == filtered;
  }

  /** The synchronous effect of `recalculateStats` for an account of edition `version`. */
  function Recalculate(version: int, all: seq<ItemRecord>, prior: StatsSummary): (r: StatsSummary)
    ensures version != 1 ==>
      r.stats.None? && r.hasArmor == prior.hasArmor && r.completeArmor == prior.completeArmor
    ensures version == 1 ==> (r.stats.Some? <==> r.hasArmor)
    ensures version == 1 && r.completeArmor ==> r.hasArmor
  {
    if version != 1 then prior.(stats := None)
    else
      var filtered := TrackedOnly(EquippedStats(all));
      var combined := Combine(filtered);
      CombineEmpty(filtered);
      StatsSummary(if |combined| == 0 then None else Some(combined),
                   |filtered| > 0, |filtered| == CompleteArmorCount)
  }

  /** Recomputing the summary of unchanged items changes nothing. */
  lemma RecalculateTwice(version: int, all: seq<ItemRecord>, prior: StatsSummary)
    ensures Recalculate(version, all, Recalculate(version, all, prior)) == Recalculate(version, all, prior)
  {
  }

  // Reference definitions, stated over the items directly.

  /** The sum of the values of the entries of `stats` with id `id`. */
  function SumOf(stats: seq<Stat>, id: string): int {
    if stats == [] then 0
    else (if stats[0].id == id then stats[0].value else 0) + SumOf(stats[1..], id)
  }

  /** The index of the first entry of `stats` with id `id`, or `|stats|`. */
  function FirstWithId(stats: seq<Stat>, id: string): (r: nat)
    ensures r <= |stats|
    ensures r < |stats| ==> stats[r].id == id
    ensures forall j :: 0 <= j < r ==> stats[j].id != id
  {
    if stats == [] then 0
    else if stats[0].id == id then 0
    else 1 + FirstWithId(stats[1..], id)
  }

  /** The number of tracked stat entries of one item. */
  function TrackedCount(stats: seq<Stat>): nat {
    if stats == [] then 0
    else (if Tracked(stats[0].id) then 1 else 0) + TrackedCount(stats[1..])
  }

  /** The number of tracked stat entries over all equipped items. */
  function QualifyingCount(items: seq<ItemRecord>): nat {
    if items == [] then 0
    else (if items[0].equipped then TrackedCount(items[0].stats) else 0) + QualifyingCount(items[1..])
  }

  lemma {:induction false} SumOfAppend(a: seq<Stat>, b: seq<Stat>, id: string)
    ensures SumOf(a + b, id) == SumOf(a, id) + SumOf(b, id)
  {
    if a == [] {
      assert a + b == b;
    } else {
      assert (a + b)[1..] == a[1..] + b;
      SumOfAppend(a[1..], b, id);
    }
  }

  lemma {:induction false} SumOfAbsent(stats: seq<Stat>, id: string)
    requires FirstWithId(stats, id) == |stats|
    ensures SumOf(stats, id) == 0
  {
    if stats != [] {
      SumOfAbsent(stats[1..], id);
    }
  }

  lemma {:induction false} FirstWithIdAppend(a: seq<Stat>, b: seq<Stat>, id: string)
    requires FirstWithId(a, id) < |a|
    ensures FirstWithId(a + b, id) == FirstWithId(a, id)
  {
    if a[0].id != id {
      assert (a + b)[1..] == a[1..] + b;
      FirstWithIdAppend(a[1..], b, id);
    }
  }

  /**
   * The accumulator has an entry for `id` exactly when `id` occurs; that entry's
   * value is the sum over the entries with that id, and its `statHash` is the
   * one of the first such entry.
   */
  lemma {:induction false} CombineAt(stats: seq<Stat>, id: string)
    ensures id in Combine(stats) <==> FirstWithId(stats, id) < |stats|
    ensures id in Combine(stats) ==>
      Combine(stats)[id] == CombinedStat(stats[FirstWithId(stats, id)].statHash, SumOf(stats, id))
  {
    if stats != [] {
      var n := |stats| - 1;
      var init := stats[..n];
      var last := stats[n];
      assert stats == init + [last];
      CombineAt(init, id);
      SumOfAppend(init, [last], id);
      assert SumOf([last], id) == if last.id == id then last.value else 0;
      if FirstWithId(init, id) < |init| {
        FirstWithIdAppend(init, [last], id);
      } else if id == last.id {
        SumOfAbsent(init, id);
        assert FirstWithId(stats, id) == n;
      } else {
        assert FirstWithId(stats, id) == |stats|;
      }
    }
  }

  lemma {:induction false} CombineEmpty(stats: seq<Stat>)
    ensures |Combine(stats)| == 0 <==> stats == []
  {
    if stats != [] {
      CombineAt(stats, stats[0].id);
      assert FirstWithId(stats, stats[0].id) == 0;
      assert stats[0].id in Combine(stats);
    }
  }

  lemma {:induction false} TrackedOnlyAppend(a: seq<Stat>, b: seq<Stat>)
    ensures TrackedOnly(a + b) == TrackedOnly(a) + TrackedOnly(b)
  {
    if a == [] {
      assert a + b == b;
    } else {
      var head := if Tracked(a[0].id) then [a[0]] else [];
      assert (a + b)[0] == a[0];
      assert (a + b)[1..] == a[1..] + b;
      TrackedOnlyAppend(a[1..], b);
      assert TrackedOnly(a + b) == head + TrackedOnly(a[1..] + b);
      assert TrackedOnly(a) == head + TrackedOnly(a[1..]);
    }
  }

  lemma {:induction false} TrackedOnlyCount(stats: seq<Stat>)
    ensures |TrackedOnly(stats)| == TrackedCount(stats)
  {
    if stats != [] {
      TrackedOnlyCount(stats[1..]);
    }
  }

  /** The number of tracked entries summed is the number of tracked stats on equipped items. */
  lemma {:induction false} TrackedEquippedCount(items: seq<ItemRecord>)
    ensures |TrackedOnly(EquippedStats(items))| == QualifyingCount(items)
  {
    if items != [] {
      var head := if items[0].equipped then items[0].stats else [];
      TrackedOnlyAppend(head, EquippedStats(items[1..]));
      TrackedOnlyCount(head);
      TrackedEquippedCount(items[1..]);
    }
  }

  /** Filtering to the tracked stats keeps the sums of the tracked ids and drops every other id. */
  lemma {:induction false} TrackedOnlySums(stats: seq<Stat>, id: string)
    ensures Tracked(id) ==> SumOf(TrackedOnly(stats), id) == SumOf(stats, id)
    ensures !Tracked(id) ==> FirstWithId(TrackedOnly(stats), id) == |TrackedOnly(stats)|
  {
    if stats != [] {
      TrackedOnlySums(stats[1..], id);
      var head := if Tracked(stats[0].id) then [stats[0]] else [];
      SumOfAppend(head, TrackedOnly(stats[1..]), id);
      assert TrackedOnly(stats) == head + TrackedOnly(stats[1..]);
      if !Tracked(id) && head != [] {
        assert TrackedOnly(stats)[0].id != id;
        assert TrackedOnly(stats)[1..] == TrackedOnly(stats[1..]);
      }
    }
  }

  /** For an account of any edition but 1, `stats` becomes null and the two flags keep their values. */
  lemma RecalculateOtherEdition(version: int, all: seq<ItemRecord>, prior: StatsSummary)
    requires version != 1
    ensures Recalculate(version, all, prior) == StatsSummary(None, prior.hasArmor, prior.completeArmor)
  {
  }

  /**
   * For an edition-1 account: `hasArmor` iff some tracked stat of an equipped
   * item was counted, `completeArmor` iff exactly 21 were, and `stats` is null
   * iff none was.
   */
  lemma RecalculateFlags(all: seq<ItemRecord>, prior: StatsSummary)
    ensures Recalculate(1, all, prior).hasArmor <==> QualifyingCount(all) > 0
    ensures Recalculate(1, all, prior).completeArmor <==> QualifyingCount(all) == CompleteArmorCount
    ensures Recalculate(1, all, prior).stats.None? <==> QualifyingCount(all) == 0
  {
    var filtered := TrackedOnly(EquippedStats(all));
    TrackedEquippedCount(all);
    CombineEmpty(filtered);
  }

  /**
   * For an edition-1 account the combined stats have an entry for exactly the
   * tracked ids that occur on equipped items, each holding the sum of that id's
   * values over the equipped items.
   */
  lemma RecalculateEntry(all: seq<ItemRecord>, prior: StatsSummary, id: string)
    ensures var equippedStats := EquippedStats(all);
      Recalculate(1, all, prior).stats.Some? ==>
        (id in Recalculate(1, all, prior).stats.value <==>
         Tracked(id) && FirstWithId(equippedStats, id) < |equippedStats|)
    ensures Recalculate(1, all, prior).stats.Some? && id in Recalculate(1, all, prior).stats.value ==>
      Recalculate(1, all, prior).stats.value[id].value == SumOf(EquippedStats(all), id)
  {
    var filtered := TrackedOnly(EquippedStats(all));
    CombineAt(filtered, id);
    TrackedOnlySums(EquippedStats(all), id);
    if Tracked(id) {
      TrackedOnlyPresence(EquippedStats(all), id);
    }
  }

  /** A tracked id occurs in the filtered stats iff it occurs in the unfiltered ones. */
  lemma {:induction false} TrackedOnlyPresence(stats: seq<Stat>, id: string)
    requires Tracked(id)
    ensures FirstWithId(TrackedOnly(stats), id) < |TrackedOnly(stats)| <==> FirstWithId(stats, id) < |stats|
  {
    if stats != [] {
      var rest := TrackedOnly(stats[1..]);
      if stats[0].id == id {
        assert TrackedOnly(stats) == [stats[0]] + rest;
        assert TrackedOnly(stats)[0].id == id;
      } else {
        TrackedOnlyPresence(stats[1..], id);
        if Tracked(stats[0].id) {
          assert TrackedOnly(stats) == [stats[0]] + rest;
          assert TrackedOnly(stats)[1..] == rest;
        } else {
          assert TrackedOnly(stats) == rest;
        }
      }
    }
  }

  /** A single equipped item carrying 10 Intellect. */
  lemma GauntletsExample()
    ensures var gauntlets := ItemRecord(1, "1", "Gauntlets", true, true, 1, 1, "", "", "store",
                                        [Stat(StatIntellect, 144602215, 10)], true);
      var r := Recalculate(1, [gauntlets], StatsSummary(None, false, false));
      && r.hasArmor && !r.completeArmor
      && r.stats == Some(map[StatIntellect := CombinedStat(144602215, 10)])
  {
    var gauntlets := ItemRecord(1, "1", "Gauntlets", true, true, 1, 1, "", "", "store",
                                [Stat(StatIntellect, 144602215, 10)], true);
    var stats := [Stat(StatIntellect, 144602215, 10)];
    assert EquippedStats([gauntlets]) == stats;
    assert TrackedOnly(stats) == stats;
    assert stats[..0] == [];
    assert Combine(stats) == map[StatIntellect := CombinedStat(144602215, 10)];
    assert |Combine(stats)| == 1;
  }
}

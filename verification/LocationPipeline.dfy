/** From flat rows through the seeded table to the rebuilt graph. */
module LocationPipeline {
  import opened Wrappers
  import opened StableSort
  import opened Text
  import opened LocationModel
  import opened LocationGraph
  import opened LocationSeeder
  import opened LocationRoundTrip
  import opened FlatHierarchy
  import opened FlatSeeding

  /** Names and codes read from rows are trimmed already and villages are leaves: seeding drops nothing. */
  lemma {:induction false} HierarchyKept(rows: seq<FlatRecord>, p: Path, codes: seq<string>)
    requires |p| < 5 && forall c :: c in codes ==> c in ChildCodes(rows, p)
    ensures KeptAll(TreesOf(rows, p, codes)) == TreesOf(rows, p, codes)
    decreases 5 - |p|, |codes|
  {
    hide Known, ChildCodes, NameAt, Trim;
    if codes != [] {
      var p0 := p + [codes[0]];
      ChildCodesFacts(rows, p);
      NameTrimmed(rows, p0);
      CodeTrimmed(rows, p0, |p|);
      if |p0| < 5 {
        HierarchyKept(rows, p0, ChildCodes(rows, p0));
      }
      assert Kept(TreeOf(rows, p0)) == TreeOf(rows, p0);
      HierarchyKept(rows, p, codes[1..]);
      var ts := TreesOf(rows, p, codes);
      assert ts[1..] == TreesOf(rows, p, codes[1..]);
    }
  }

  lemma {:induction false} LevelsByDepth(rows: seq<FlatRecord>, p: Path, codes: seq<string>)
    requires |p| < 5
    ensures forall i :: 0 <= i < |codes| ==> TreesOf(rows, p, codes)[i].level == LEVELS[|p|]
  {
    if codes != [] {
      LevelsByDepth(rows, p, codes[1..]);
    }
  }

  /**
   * The graph of the units is the hierarchy that the rows describe, under some distinct ids and up to the
   * order of siblings, which are sorted, and both have the same number of units per level.
   */
  ghost predicate ComesBack(order: KeyOrder, units: seq<Unit>, rows: seq<FlatRecord>) {
    && (exists gs :: && EraseAll(gs) == HierarchyOf(rows) && DistinctIds(FlattenAll(gs, None))
                     && SameForest(Forest(order, units), gs))
    && SiblingsSorted(order, Forest(order, units))
    && forall level: Level :: CountLevel(units, level) == CountAll(HierarchyOf(rows), level)
  }

  /** A flat dataset, folded, seeded and rebuilt from the stored rows in any order, comes back whole. */
  lemma FlatRowsRoundTrip(order: KeyOrder, uuid: nat -> Id, table: seq<Row>, trail: seq<Entry>,
                          rows: seq<FlatRecord>, units: seq<Unit>)
    requires TotalPreorder(order) && Injective(uuid) && Seeded(uuid, table, trail, HierarchyOf(rows))
    requires multiset(units) == multiset(ActiveUnits(table))
    ensures ComesBack(order, units, rows)
  {
    HierarchyKept(rows, [], ChildCodes(rows, []));
    LevelsByDepth(rows, [], ChildCodes(rows, []));
    assert KeptAll(HierarchyOf(rows)) == HierarchyOf(rows);
    assert forall i :: 0 <= i < |HierarchyOf(rows)| ==> HierarchyOf(rows)[i].level == PROVINCE;
    hide HierarchyOf, KeptAll, Seeded, Rebuilt, Forest, SameForest, SiblingsSorted, EraseAll, FlattenAll, DistinctIds,
         CountAll, CountLevel, ActiveUnits, Injective, TotalPreorder;
    SeedThenRebuild(order, uuid, table, trail, HierarchyOf(rows), units);
    ProvincesComeBackWhole(order, units, HierarchyOf(rows));
  }

  /**
   * Seeding flat rows succeeds exactly when they use every code at one place only. Then the graph rebuilt from the
   * new table, read in any order, is the hierarchy of the rows; a failed or an empty seeding leaves the table alone.
   */
  method SeedFlatRows(tx: SeedTransaction, rows: seq<FlatRecord>) returns (ok: bool)
    requires Injective(tx.uuid) && tx.villageBatch == [] && tx.trail == [] && tx.flushSizes == []
    modifies tx
    ensures ok <==> OnePlaceEach(rows)
    ensures !ok || HierarchyOf(rows) == [] ==> tx.table == old(tx.table)
    ensures ok && HierarchyOf(rows) != [] ==>
              forall order, units :: TotalPreorder(order) && multiset(units) == multiset(ActiveUnits(tx.table)) ==>
                ComesBack(order, units, rows)
  {
    hide *;
    FlatRowsSeedIff(rows);
    ok := tx.Run(HierarchyOf(rows));
    if ok && HierarchyOf(rows) != [] {
      forall order, units | TotalPreorder(order) && multiset(units) == multiset(ActiveUnits(tx.table))
        ensures ComesBack(order, units, rows)
      {
        FlatRowsRoundTrip(order, tx.uuid, tx.table, tx.trail, rows, units);
      }
    }
  }
}

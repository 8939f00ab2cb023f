/**
 * Building the location graph with mutable nodes: a node lookup, child lists filled in place, a
 * recursive in-place sort from the roots, and the per-level counts.
 */
module LocationGraphBuilder {
  import opened Wrappers
  import opened Sequences
  import opened StableSort
  import opened LocationModel
  import opened LocationGraph

  class LocationTreeNode {
    const info: Info
    var children: seq<LocationTreeNode>

    constructor (info: Info)
      ensures this.info == info && children == []
    {
      this.info := info;
      children := [];
    }
  }

  type Lookup = map<Id, LocationTreeNode>

  function NodeName(n: LocationTreeNode): string {
    n.info.name
  }

  /** The mutable node n, through its child lists, is the tree t. */
  ghost predicate Denotes(heap: set<LocationTreeNode>, n: LocationTreeNode, t: GraphTree)
    reads heap
    decreases t
  {
    && n in heap && n.info == t.info
    && |n.children| == |t.children|
    && forall i :: 0 <= i < |t.children| ==> Denotes(heap, n.children[i], t.children[i])
  }

  /** There is one node per unit, showing that unit. */
  ghost predicate Indexes(nodes: Lookup, units: seq<Unit>) {
    && (forall u :: u in units ==> u.info.id in nodes && nodes[u.info.id].info == u.info)
    && (forall id :: id in nodes ==> nodes[id].info.id == id)
  }

  /** The references ns are the nodes of the given infos, in order. */
  ghost predicate Shows(nodes: Lookup, ns: seq<LocationTreeNode>, infos: seq<Info>) {
    && |ns| == |infos|
    && forall i :: 0 <= i < |ns| ==> infos[i].id in nodes && nodes[infos[i].id] == ns[i] && ns[i].info == infos[i]
  }

  ghost predicate ChildrenAre(nodes: Lookup, id: Id, infos: seq<Info>)
    requires id in nodes
    reads nodes[id]
  {
    Shows(nodes, nodes[id].children, infos)
  }

  /** The child list of a node: the units that name it as parent, sorted once the sort has been there. */
  function ListOf(order: KeyOrder, units: seq<Unit>, id: Id, isSorted: bool): seq<Info> {
    if isSorted then Sort(order, NameOf, Kids(units, id)) else Kids(units, id)
  }

  /** Every child list is right, and the lists of the ids in `sorted` are in order. */
  ghost predicate Linked(order: KeyOrder, nodes: Lookup, units: seq<Unit>, sorted: set<Id>)
    reads nodes.Values
  {
    forall u :: u in units && u.info.id in nodes ==>
      ChildrenAre(nodes, u.info.id, ListOf(order, units, u.info.id, u.info.id in sorted))
  }

  lemma KidsStep(units: seq<Unit>, k: nat, id: Id)
    requires k < |units|
    ensures Kids(units[..k + 1], id) ==
            Kids(units[..k], id) + if units[k].parentId == Some(id) then [units[k].info] else []
    ensures Roots(units[..k + 1]) == Roots(units[..k]) + if IsRoot(units[k]) then [units[k].info] else []
  {
    assert units[..k + 1] == units[..k] + [units[k]];
    FilterAppend(ChildFilter(id), units[..k], [units[k]]);
    FilterAppend(IsRoot, units[..k], [units[k]]);
    MapAppend(InfoOf, Filter(ChildFilter(id), units[..k]), Filter(ChildFilter(id), [units[k]]));
    MapAppend(InfoOf, Filter(IsRoot, units[..k]), Filter(IsRoot, [units[k]]));
  }

  method CreateNodes(units: seq<Unit>) returns (nodes: Lookup)
    requires DistinctIds(units)
    ensures Indexes(nodes, units)
    ensures forall id :: id in nodes ==> fresh(nodes[id]) && nodes[id].children == []
  {
    nodes := map[];
    for k := 0 to |units|
      invariant Indexes(nodes, units[..k])
      invariant forall id :: id in nodes ==> fresh(nodes[id]) && nodes[id].children == []
    {
      var unit := units[k];
      var node := new LocationTreeNode(unit.info);
      assert units[..k + 1] == units[..k] + [unit];
      assert unit in units[..k + 1];
      nodes := nodes[unit.info.id := node];
      forall u | u in units[..k + 1]
        ensures u.info.id in nodes && nodes[u.info.id].info == u.info
      {
        if u != unit {
          assert u in units[..k];
          var i :| 0 <= i < k && units[i] == u;
        }
      }
    }
    assert units[..|units|] == units;
  }

  /** One round of the linking loop: the unit's node joins its parent's children, or the roots, or neither. */
  method LinkUnit(nodes: Lookup, unit: Unit, roots: seq<LocationTreeNode>,
                  ghost kids: Id -> seq<Info>, ghost rootInfos: seq<Info>)
    returns (newRoots: seq<LocationTreeNode>)
    requires unit.info.id in nodes && nodes[unit.info.id].info == unit.info
    requires forall id :: id in nodes ==> nodes[id].info.id == id && ChildrenAre(nodes, id, kids(id))
    requires Shows(nodes, roots, rootInfos)
    modifies nodes.Values
    ensures forall id :: id in nodes ==>
              ChildrenAre(nodes, id, kids(id) + if unit.parentId == Some(id) then [unit.info] else [])
    ensures Shows(nodes, newRoots, rootInfos + if IsRoot(unit) then [unit.info] else [])
  {
    var currentNode := nodes[unit.info.id];
    newRoots := roots;
    if unit.parentId.Some? {
      if unit.parentId.value in nodes {
        var parentNode := nodes[unit.parentId.value];
        parentNode.children := parentNode.children + [currentNode];
      }
    } else if unit.info.level == PROVINCE {
      newRoots := roots + [currentNode];
    }
  }

  method LinkNodes(nodes: Lookup, units: seq<Unit>) returns (roots: seq<LocationTreeNode>)
    requires DistinctIds(units) && Indexes(nodes, units)
    requires forall id :: id in nodes ==> nodes[id].children == []
    modifies nodes.Values
    ensures forall id :: id in nodes ==> ChildrenAre(nodes, id, Kids(units, id))
    ensures Shows(nodes, roots, Roots(units))
  {
    hide DistinctIds;
    roots := [];
    for k := 0 to |units|
      invariant forall id :: id in nodes ==> ChildrenAre(nodes, id, Kids(units[..k], id))
      invariant Shows(nodes, roots, Roots(units[..k]))
    {
      assert units[k] in units;
      roots := LinkUnit(nodes, units[k], roots, id => Kids(units[..k], id), Roots(units[..k]));
      forall id | id in nodes
        ensures ChildrenAre(nodes, id, Kids(units[..k + 1], id))
      {
        KidsStep(units, k, id);
      }
      KidsStep(units, k, "");
    }
    assert units[..|units|] == units;
  }

  lemma {:induction false} InsertShows(order: KeyOrder, nodes: Lookup, n: LocationTreeNode, info: Info,
                                       ns: seq<LocationTreeNode>, infos: seq<Info>)
    requires Shows(nodes, [n], [info]) && Shows(nodes, ns, infos)
    ensures Shows(nodes, Insert(order, NodeName, n, ns), Insert(order, NameOf, info, infos))
  {
    assert [n][0].info == [info][0];
    if ns != [] && !order(n.info.name, ns[0].info.name) {
      InsertShows(order, nodes, n, info, ns[1..], infos[1..]);
    }
  }

  /** Sorting the references by node name sorts what they show. */
  lemma {:induction false} SortShows(order: KeyOrder, nodes: Lookup, ns: seq<LocationTreeNode>, infos: seq<Info>)
    requires Shows(nodes, ns, infos)
    ensures Shows(nodes, Sort(order, NodeName, ns), Sort(order, NameOf, infos))
  {
    if ns != [] {
      SortShows(order, nodes, ns[1..], infos[1..]);
      InsertShows(order, nodes, ns[0], infos[0], Sort(order, NodeName, ns[1..]), Sort(order, NameOf, infos[1..]));
    }
  }

  /** Every unit from which parent links lead to u is in the set. */
  ghost predicate AllBelow(units: seq<Unit>, u: Unit, ids: set<Id>) {
    forall v, k: nat :: v in units && Up(units, v, k) == Some(u) ==> v.info.id in ids
  }

  /** The last link of a chain that leads to u starts at a unit that names u as its parent. */
  lemma LastLink(units: seq<Unit>, u: Unit, v: Unit, k: nat)
    requires v in units && Up(units, v, k) == Some(u) && k > 0
    ensures var c := Up(units, v, k - 1); c.Some? && c.value in units && c.value.parentId == Some(u.info.id)
  {
    UpAdd(units, v, k - 1, 1);
    var c := Up(units, v, k - 1).value;
    assert Up(units, c, 1) == Some(u);
    assert c.parentId.Some? && Find(units, c.parentId.value).Some?;
    assert Up(units, c, 1) == Up(units, Find(units, c.parentId.value).value, 0);
  }

  lemma AllBelowMore(units: seq<Unit>, us: seq<Unit>, ids: set<Id>, more: set<Id>)
    requires ids <= more && forall u :: u in us ==> AllBelow(units, u, ids)
    ensures forall u :: u in us ==> AllBelow(units, u, more)
  {
  }

  lemma AllBelowFromChildren(units: seq<Unit>, u: Unit, ids: set<Id>)
    requires u.info.id in ids
    requires forall c :: c in units && c.parentId == Some(u.info.id) ==> AllBelow(units, c, ids)
    ensures AllBelow(units, u, ids)
  {
    forall v, k: nat | v in units && Up(units, v, k) == Some(u)
      ensures v.info.id in ids
    {
      if k > 0 {
        LastLink(units, u, v, k);
        assert AllBelow(units, Up(units, v, k - 1).value, ids);
      }
    }
  }

  /** `node.children.sort(...)`: the list becomes the sorted list, and no other list changes. */
  method SortOwnChildren(order: KeyOrder, node: LocationTreeNode,
                         ghost nodes: Lookup, ghost units: seq<Unit>, ghost sorted: set<Id>)
    requires TotalPreorder(order) && Linked(order, nodes, units, sorted)
    requires forall id :: id in nodes ==> nodes[id].info.id == id
    requires node.info.id in nodes && nodes[node.info.id] == node
    requires exists u :: u in units && u.info == node.info
    modifies node
    ensures Linked(order, nodes, units, sorted + {node.info.id})
  {
    ghost var kids := Kids(units, node.info.id);
    SortSorts(order, NameOf, kids);
    SortOfSorted(order, NameOf, Sort(order, NameOf, kids));
    SortShows(order, nodes, node.children, ListOf(order, units, node.info.id, node.info.id in sorted));
    node.children := Sort(order, NodeName, node.children);
  }

  /** What a sorted child list refers to. */
  lemma ChildReferences(order: KeyOrder, nodes: Lookup, units: seq<Unit>, u: Unit, d: nat, sorted: set<Id>)
    requires DistinctIds(units) && u in units && AtDepth(units, u, d)
    requires u.info.id in nodes && u.info.id in sorted && Linked(order, nodes, units, sorted)
    ensures var us := ChildUnits(order, units, u);
            && |us| == |nodes[u.info.id].children|
            && (forall i :: 0 <= i < |us| ==> ChildReference(nodes, units, us[i], d + 1, nodes[u.info.id].children[i]))
            && (forall c :: c in units && c.parentId == Some(u.info.id) ==> c in us)
  {
    ChildUnitsFacts(order, units, u, d);
    assert ChildrenAre(nodes, u.info.id, ListOf(order, units, u.info.id, true));
  }

  ghost predicate ChildReference(nodes: Lookup, units: seq<Unit>, u: Unit, d: nat, node: LocationTreeNode) {
    u in units && AtDepth(units, u, d) && u.info.id in nodes && nodes[u.info.id] == node
  }

  /**
   * The recursive sort walks only from units whose parent chain ends, so it terminates whatever
   * cycles the other units form; it never disturbs a list that is already sorted.
   */
  method SortLocationTreeChildren(order: KeyOrder, node: LocationTreeNode,
                                  ghost nodes: Lookup, ghost units: seq<Unit>, ghost u: Unit, ghost d: nat,
                                  ghost sorted: set<Id>)
    returns (ghost newSorted: set<Id>)
    requires TotalPreorder(order) && DistinctIds(units) && Indexes(nodes, units)
    requires Linked(order, nodes, units, sorted)
    requires ChildReference(nodes, units, u, d, node)
    modifies nodes.Values
    ensures Linked(order, nodes, units, newSorted)
    ensures sorted <= newSorted && AllBelow(units, u, newSorted)
    decreases |units| - d, 1
  {
    hide Kids, Sort, WithParent, Linked, DistinctIds, AtDepth, AllBelow;
    DepthBound(units, u, d);
    SortOwnChildren(order, node, nodes, units, sorted);
    ChildReferences(order, nodes, units, u, d, sorted + {u.info.id});
    newSorted := SortEach(order, node.children, nodes, units, ChildUnits(order, units, u), d + 1,
                          sorted + {u.info.id});
    AllBelowFromChildren(units, u, newSorted);
  }

  /** The loop of the recursive sort over one list of children. */
  method SortEach(order: KeyOrder, children: seq<LocationTreeNode>,
                  ghost nodes: Lookup, ghost units: seq<Unit>, ghost us: seq<Unit>, ghost d: nat,
                  ghost sorted: set<Id>)
    returns (ghost newSorted: set<Id>)
    requires TotalPreorder(order) && DistinctIds(units) && Indexes(nodes, units)
    requires Linked(order, nodes, units, sorted)
    requires |us| == |children|
    requires forall i :: 0 <= i < |us| ==> ChildReference(nodes, units, us[i], d, children[i])
    modifies nodes.Values
    ensures Linked(order, nodes, units, newSorted)
    ensures sorted <= newSorted && forall c :: c in us ==> AllBelow(units, c, newSorted)
    decreases |units| - d, 2
  {
    hide Linked, DistinctIds, Indexes, AtDepth, AllBelow;
    newSorted := sorted;
    for i := 0 to |children|
      invariant Linked(order, nodes, units, newSorted)
      invariant sorted <= newSorted
      invariant forall c :: c in us[..i] ==> AllBelow(units, c, newSorted)
    {
      DepthBound(units, us[i], d);
      ghost var before := newSorted;
      newSorted := SortLocationTreeChildren(order, children[i], nodes, units, us[i], d, before);
      AllBelowMore(units, us[..i], before, newSorted);
      assert us[..i + 1] == us[..i] + [us[i]];
    }
    assert us[..|children|] == us;
  }

  /** Once everything below u is sorted, its node is the tree that grows from u. */
  lemma {:induction false} NodeDenotesGrowth(order: KeyOrder, nodes: Lookup, units: seq<Unit>, sorted: set<Id>,
                                             u: Unit, d: nat, budget: nat)
    requires DistinctIds(units) && Indexes(nodes, units) && Linked(order, nodes, units, sorted)
    requires AllBelow(units, u, sorted) && u in units && AtDepth(units, u, d) && budget == |units| - d
    ensures Denotes(nodes.Values, nodes[u.info.id], Grow(order, units, u.info, budget))
    decreases budget, 0
  {
    hide NoDup, AllBelow, DistinctIds, AtDepth, Up, Kids, Sort, Linked, ChildReference, Denotes, Grow, GrowAll;
    assert ChildUnits(order, units, u) == WithParent(Sort(order, NameOf, Kids(units, u.info.id)), Some(u.info.id));
    hide ChildUnits;
    DepthBound(units, u, d);
    SelfBelow(units, u, sorted);
    ChildReferences(order, nodes, units, u, d, sorted);
    AllBelowChildren(order, units, u, d, sorted);
    var kids := Sort(order, NameOf, Kids(units, u.info.id));
    assert nodes[u.info.id] in nodes.Values && nodes[u.info.id].info == u.info;
    hide Indexes;
    NodesDenoteGrowth(order, nodes, units, sorted, Some(u.info.id), kids, nodes[u.info.id].children, d + 1, budget - 1);
    GrownDenotes(order, nodes.Values, units, nodes[u.info.id], budget);
  }

  lemma GrownDenotes(order: KeyOrder, heap: set<LocationTreeNode>, units: seq<Unit>, n: LocationTreeNode, budget: nat)
    requires budget > 0 && n in heap
    requires var kids := Sort(order, NameOf, Kids(units, n.info.id));
             |n.children| == |kids| &&
             forall i :: 0 <= i < |kids| ==> Denotes(heap, n.children[i], GrowAll(order, units, kids, budget - 1)[i])
    ensures Denotes(heap, n, Grow(order, units, n.info, budget))
  {
    hide Sort, Kids, GrowAll;
  }

  lemma {:induction false} NodesDenoteGrowth(order: KeyOrder, nodes: Lookup, units: seq<Unit>, sorted: set<Id>,
                                             parentId: Option<Id>, infos: seq<Info>, ns: seq<LocationTreeNode>,
                                             d: nat, budget: nat)
    requires DistinctIds(units) && Indexes(nodes, units) && Linked(order, nodes, units, sorted)
    requires budget == |units| - d && |ns| == |infos|
    requires var us := WithParent(infos, parentId);
             forall i :: 0 <= i < |us| ==> ChildReference(nodes, units, us[i], d, ns[i])
    requires forall u :: u in WithParent(infos, parentId) ==> AllBelow(units, u, sorted)
    ensures forall i :: 0 <= i < |ns| ==> Denotes(nodes.Values, ns[i], GrowAll(order, units, infos, budget)[i])
    decreases budget, 1
  {
    hide Linked, AllBelow, DistinctIds, Up, Kids, Sort, Denotes, Grow;
    forall i | 0 <= i < |ns|
      ensures Denotes(nodes.Values, ns[i], GrowAll(order, units, infos, budget)[i])
    {
      var u := WithParent(infos, parentId)[i];
      assert ChildReference(nodes, units, u, d, ns[i]) && u in WithParent(infos, parentId);
      GrowAllAt(order, units, infos, budget, i);
      NodeDenotesGrowth(order, nodes, units, sorted, u, d, budget);
    }
  }

  lemma AllBelowChildren(order: KeyOrder, units: seq<Unit>, u: Unit, d: nat, ids: set<Id>)
    requires DistinctIds(units) && u in units && AtDepth(units, u, d) && AllBelow(units, u, ids)
    ensures forall c :: c in ChildUnits(order, units, u) ==> AllBelow(units, c, ids)
  {
    ChildUnitsFacts(order, units, u, d);
    hide AllBelow, DistinctIds, AtDepth;
    forall c | c in ChildUnits(order, units, u)
      ensures AllBelow(units, c, ids)
    {
      AllBelowChild(units, u, c, ids);
    }
  }

  lemma SelfBelow(units: seq<Unit>, u: Unit, ids: set<Id>)
    requires u in units && AllBelow(units, u, ids)
    ensures u.info.id in ids
  {
    assert Up(units, u, 0) == Some(u);
  }

  lemma AllBelowChild(units: seq<Unit>, u: Unit, c: Unit, ids: set<Id>)
    requires DistinctIds(units) && u in units && c in units && c.parentId == Some(u.info.id)
    requires AllBelow(units, u, ids)
    ensures AllBelow(units, c, ids)
  {
    forall v, k: nat | v in units && Up(units, v, k) == Some(c)
      ensures v.info.id in ids
    {
      UpAdd(units, v, k, 1);
      FindUnique(units, u);
      assert Up(units, c, 1) == Some(u);
    }
  }

  type Buckets = map<Level, seq<Unit>>

  lemma FilterStep(level: Level, units: seq<Unit>, k: nat)
    requires k < |units|
    ensures Filter(LevelFilter(level), units[..k + 1]) ==
            Filter(LevelFilter(level), units[..k]) + if units[k].info.level == level then [units[k]] else []
  {
    assert units[..k + 1] == units[..k] + [units[k]];
    FilterAppend(LevelFilter(level), units[..k], [units[k]]);
  }

  method FillBuckets(units: seq<Unit>) returns (buckets: Buckets)
    ensures forall level: Level :: level in buckets && buckets[level] == Filter(LevelFilter(level), units)
  {
    buckets := map[PROVINCE := [], DISTRICT := [], SECTOR := [], CELL := [], VILLAGE := []];
    forall level: Level
      ensures level in buckets && buckets[level] == []
    {
      match level { case PROVINCE => case DISTRICT => case SECTOR => case CELL => case VILLAGE => }
    }
    for k := 0 to |units|
      invariant forall level: Level :: level in buckets && buckets[level] == Filter(LevelFilter(level), units[..k])
    {
      forall level: Level
        ensures Filter(LevelFilter(level), units[..k + 1]) ==
                Filter(LevelFilter(level), units[..k]) + if units[k].info.level == level then [units[k]] else []
      {
        FilterStep(level, units, k);
      }
      var level := units[k].info.level;
      buckets := buckets[level := buckets[level] + [units[k]]];
    }
    assert units[..|units|] == units;
  }

  /** Units per level, each bucket sorted by name. */
  method PartitionUnitsIntoLevelBuckets(order: KeyOrder, units: seq<Unit>) returns (buckets: Buckets)
    requires TotalPreorder(order)
    ensures forall level: Level :: level in buckets && buckets[level] == SortedBucket(order, units, level)
  {
    hide Sort, Filter, TotalPreorder;
    buckets := FillBuckets(units);
    var levels := [PROVINCE, DISTRICT, SECTOR, CELL, VILLAGE];
    for i := 0 to 5
      invariant forall level: Level :: level in buckets
      invariant forall j :: 0 <= j < i ==> buckets[levels[j]] == SortedBucket(order, units, levels[j])
      invariant forall j :: i <= j < 5 ==> buckets[levels[j]] == Filter(LevelFilter(levels[j]), units)
    {
      buckets := buckets[levels[i] := Sort(order, UnitName, buckets[levels[i]])];
    }
    forall level: Level
      ensures buckets[level] == SortedBucket(order, units, level)
    {
      assert level == levels[0] || level == levels[1] || level == levels[2] || level == levels[3] || level == levels[4];
    }
  }

  function SortedBucket(order: KeyOrder, units: seq<Unit>, level: Level): seq<Unit> {
    Sort(order, UnitName, Filter(LevelFilter(level), units))
  }

  /** A bucket holds the units of its level, each as often as it is stored, sorted by name. */
  lemma BucketFacts(order: KeyOrder, units: seq<Unit>, level: Level)
    requires TotalPreorder(order)
    ensures multiset(SortedBucket(order, units, level)) == multiset(Filter(LevelFilter(level), units))
    ensures |SortedBucket(order, units, level)| == CountLevel(units, level)
    ensures Sorted(order, UnitName, SortedBucket(order, units, level))
  {
    var bucket := Filter(LevelFilter(level), units);
    SortPermutes(order, UnitName, bucket);
    SortSorts(order, UnitName, bucket);
    PermutationFacts(SortedBucket(order, units, level), bucket);
  }

  /** So it holds exactly the units of its level, and their names are in order. */
  lemma BucketByName(order: KeyOrder, units: seq<Unit>, level: Level)
    requires TotalPreorder(order)
    ensures var bucket := SortedBucket(order, units, level);
            && (forall u :: u in bucket <==> u in units && u.info.level == level)
            && forall i, j :: 0 <= i < j < |bucket| ==> order(bucket[i].info.name, bucket[j].info.name)
  {
    BucketFacts(order, units, level);
    FilterMembers(LevelFilter(level), units);
    hide Sort, Filter, TotalPreorder;
    var bucket := SortedBucket(order, units, level);
    hide SortedBucket;
    PermutationFacts(bucket, Filter(LevelFilter(level), units));
    assert forall i :: 0 <= i < |bucket| ==> bucket[i].info.name == UnitName(bucket[i]);
  }

  function UnitName(u: Unit): string {
    u.info.name
  }

  function RootUnits(units: seq<Unit>): seq<Unit> {
    WithParent(Roots(units), None)
  }

  lemma RootUnitsFacts(units: seq<Unit>)
    ensures forall u :: u in RootUnits(units) ==> u in units && AtDepth(units, u, 0)
  {
    var kept := Filter(IsRoot, units);
    FilterMembers(IsRoot, units);
    MapAt(InfoOf, kept);
    forall u | u in RootUnits(units)
      ensures u in units && AtDepth(units, u, 0)
    {
      var i :| 0 <= i < |kept| && kept[i].info == u.info;
      assert kept[i] in kept;
    }
  }

  lemma LinkedUnsorted(order: KeyOrder, nodes: Lookup, units: seq<Unit>)
    requires forall id :: id in nodes ==> ChildrenAre(nodes, id, Kids(units, id))
    ensures Linked(order, nodes, units, {})
  {
  }

  lemma RootReferences(nodes: Lookup, units: seq<Unit>, roots: seq<LocationTreeNode>)
    requires Shows(nodes, roots, Roots(units))
    ensures |RootUnits(units)| == |roots|
    ensures forall i :: 0 <= i < |roots| ==> ChildReference(nodes, units, RootUnits(units)[i], 0, roots[i])
  {
    RootUnitsFacts(units);
    forall i | 0 <= i < |roots|
      ensures ChildReference(nodes, units, RootUnits(units)[i], 0, roots[i])
    {
      assert RootUnits(units)[i] in RootUnits(units);
    }
  }

  lemma RootsDenoteForest(order: KeyOrder, nodes: Lookup, units: seq<Unit>, sorted: set<Id>,
                          roots: seq<LocationTreeNode>)
    requires DistinctIds(units) && Indexes(nodes, units) && Linked(order, nodes, units, sorted)
    requires Shows(nodes, roots, Roots(units))
    requires forall u :: u in RootUnits(units) ==> AllBelow(units, u, sorted)
    ensures var tree := Sort(order, NodeName, roots);
            && |tree| == |Forest(order, units)|
            && forall i :: 0 <= i < |tree| ==> Denotes(nodes.Values, tree[i], Forest(order, units)[i])
  {
    SortShows(order, nodes, roots, Roots(units));
    SortPermutes(order, NameOf, Roots(units));
    var infos := Sort(order, NameOf, Roots(units));
    PermutationFacts(Roots(units), infos);
    RootUnitsFacts(units);
    var us := WithParent(infos, None);
    var tree := Sort(order, NodeName, roots);
    forall i | 0 <= i < |us|
      ensures ChildReference(nodes, units, us[i], 0, tree[i]) && us[i] in RootUnits(units)
    {
      assert infos[i] in Roots(units);
      assert us[i] in RootUnits(units);
    }
    NodesDenoteGrowth(order, nodes, units, sorted, None, infos, tree, 0, |units|);
  }

  /**
   * The whole construction, with its heap: the returned roots are the forest of the units, whatever
   * their parent links, and each level count is the number of units of that level.
   */
  method BuildLocationTreeGraph(order: KeyOrder, units: seq<Unit>)
    returns (tree: seq<LocationTreeNode>, levelCounts: map<Level, nat>, totalActiveUnits: nat, ghost nodes: Lookup)
    requires TotalPreorder(order) && DistinctIds(units)
    ensures |tree| == |Forest(order, units)|
    ensures forall i :: 0 <= i < |tree| ==> Denotes(nodes.Values, tree[i], Forest(order, units)[i])
    ensures forall level: Level :: level in levelCounts && levelCounts[level] == CountLevel(units, level)
    ensures totalActiveUnits == |units|
  {
    hide Linked, Shows, Indexes, Kids, Roots, Sort, DistinctIds, CountLevel, TotalPreorder, SortedBucket;
    var levelBuckets := PartitionUnitsIntoLevelBuckets(order, units);
    var nodeLookup := CreateNodes(units);
    var provinceRoots := LinkNodes(nodeLookup, units);
    nodes := nodeLookup;
    LinkedUnsorted(order, nodes, units);
    RootReferences(nodes, units, provinceRoots);
    ghost var sorted := SortEach(order, provinceRoots, nodes, units, RootUnits(units), 0, {});
    RootsDenoteForest(order, nodes, units, sorted, provinceRoots);
    tree := Sort(order, NodeName, provinceRoots);
    forall level: Level
      ensures |levelBuckets[level]| == CountLevel(units, level)
    {
      BucketFacts(order, units, level);
    }
    levelCounts := map level: Level | level in levelBuckets :: |levelBuckets[level]|;
    totalActiveUnits := |units|;
  }
}

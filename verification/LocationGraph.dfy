/**
 * What the location graph of a list of stored units is: every node's children are the units that
 * name it as parent, sorted by name, starting from the parentless provinces. The units may have
 * dangling or cyclic parents, so growth carries a depth budget that is proved never to run out.
 */
module LocationGraph {
  import opened Wrappers
  import opened Sequences
  import opened StableSort
  import opened LocationModel

  function NameOf(i: Info): string {
    i.name
  }

  function InfoOf(u: Unit): Info {
    u.info
  }

  function ChildFilter(id: Id): Unit -> bool {
    (u: Unit) => u.parentId == Some(id)
  }

  function Kids(units: seq<Unit>, id: Id): (infos: seq<Info>) {
    Map(InfoOf, Filter(ChildFilter(id), units))
  }

  function Roots(units: seq<Unit>): (infos: seq<Info>) {
    Map(InfoOf, Filter(IsRoot, units))
  }

  function Grow(order: KeyOrder, units: seq<Unit>, info: Info, budget: nat): (t: GraphTree)
    ensures t.info == info
    decreases budget, 0
  {
    GraphTree(info, if budget == 0 then [] else
                    GrowAll(order, units, Sort(order, NameOf, Kids(units, info.id)), budget - 1))
  }

  function GrowAll(order: KeyOrder, units: seq<Unit>, infos: seq<Info>, budget: nat): (ts: seq<GraphTree>)
    ensures |ts| == |infos|
    decreases budget, 1, |infos|
  {
    if infos == [] then [] else
    [Grow(order, units, infos[0], budget)] + GrowAll(order, units, infos[1..], budget)
  }

  lemma {:induction false} GrowAllAt(order: KeyOrder, units: seq<Unit>, infos: seq<Info>, budget: nat, i: nat)
    requires i < |infos|
    ensures GrowAll(order, units, infos, budget)[i] == Grow(order, units, infos[i], budget)
  {
    if i > 0 {
      GrowAllAt(order, units, infos[1..], budget, i - 1);
    }
  }

  /** The forest of a list of units. */
  function Forest(order: KeyOrder, units: seq<Unit>): (ts: seq<GraphTree>) {
    GrowAll(order, units, Sort(order, NameOf, Roots(units)), |units|)
  }

  function LevelFilter(level: Level): Unit -> bool {
    (u: Unit) => u.info.level == level
  }

  /** Number of units of one level. */
  function CountLevel(units: seq<Unit>, level: Level): nat {
    |Filter(LevelFilter(level), units)|
  }

  /** The unit reached by following k parent links inside the list. */
  ghost function Up(units: seq<Unit>, u: Unit, k: nat): (r: Option<Unit>)
    ensures u in units && r.Some? ==> r.value in units
    decreases k
  {
    if k == 0 then Some(u)
    else if u.parentId.None? then None
    else
      var p := Find(units, u.parentId.value);
      if p.None? then None else Up(units, p.value, k - 1)
  }

  /** Depth d: following d parent links ends at a parentless province. */
  ghost predicate AtDepth(units: seq<Unit>, u: Unit, d: nat) {
    var top := Up(units, u, d);
    top.Some? && IsRoot(top.value)
  }

  /** The parent chain of u, inside the list, reaches a parentless province. */
  ghost predicate Rooted(units: seq<Unit>, u: Unit) {
    exists d: nat :: AtDepth(units, u, d)
  }

  lemma {:induction false} UpAdd(units: seq<Unit>, u: Unit, i: nat, j: nat)
    decreases i
    ensures Up(units, u, i + j) ==
            if Up(units, u, i).Some? then Up(units, Up(units, u, i).value, j) else None
  {
    if i > 0 && u.parentId.Some? && Find(units, u.parentId.value).Some? {
      UpAdd(units, Find(units, u.parentId.value).value, i - 1, j);
    }
  }

  lemma DepthUnique(units: seq<Unit>, u: Unit, d: nat, e: nat)
    requires AtDepth(units, u, d) && AtDepth(units, u, e)
    ensures d == e
  {
    if d < e {
      UpAdd(units, u, d, e - d);
    } else if e < d {
      UpAdd(units, u, e, d - e);
    }
  }

  /** A parent chain that ends never repeats a unit, so it is shorter than the list. */
  lemma {:induction false} DepthBound(units: seq<Unit>, u: Unit, d: nat)
    requires u in units && AtDepth(units, u, d)
    ensures d < |units|
  {
    forall i: nat | i <= d
      ensures Up(units, u, i).Some?
    {
      UpAdd(units, u, i, d - i);
    }
    var chain := seq(d + 1, i requires 0 <= i <= d => Up(units, u, i).value);
    forall i, j | 0 <= i < j < |chain|
      ensures chain[i] != chain[j]
    {
      UpAdd(units, u, i, d - j);
      UpAdd(units, u, j, d - j);
      if chain[i] == chain[j] {
        DepthUnique(units, u, d, i + d - j);
      }
    }
    NoDupWithin(chain, units);
  }

  /** A child of a unit at depth d is at depth d + 1. */
  lemma ChildDepth(units: seq<Unit>, u: Unit, d: nat, child: Unit)
    requires DistinctIds(units) && u in units && AtDepth(units, u, d)
    requires child in units && child.parentId == Some(u.info.id)
    ensures AtDepth(units, child, d + 1)
    ensures forall k: nat, v :: Up(units, v, k) == Some(child) ==> Up(units, v, k + 1) == Some(u)
  {
    FindUnique(units, u);
    forall k: nat, v | Up(units, v, k) == Some(child)
      ensures Up(units, v, k + 1) == Some(u)
    {
      UpAdd(units, v, k, 1);
      assert Up(units, child, 1) == Some(u);
    }
  }

  /** Rows cover the units below the given tops: every unit below one of them, each once, and nothing else. */
  ghost predicate Covers(units: seq<Unit>, tops: seq<Unit>, rows: seq<Unit>) {
    && NoDup(rows)
    && (forall v :: v in rows ==> v in units && exists k: nat :: Below(units, tops, v, k))
    && (forall v, k: nat :: v in units && Below(units, tops, v, k) ==> v in rows)
  }

  ghost predicate Below(units: seq<Unit>, tops: seq<Unit>, v: Unit, k: nat) {
    var a := Up(units, v, k);
    a.Some? && a.value in tops
  }

  /** The stored form of infos that share a parent. */
  function WithParent(infos: seq<Info>, parentId: Option<Id>): (us: seq<Unit>)
    ensures |us| == |infos|
    ensures forall i :: 0 <= i < |us| ==> us[i] == Unit(infos[i], parentId)
    ensures forall l :: l in infos <==> Unit(l, parentId) in us
    ensures forall u :: u in us ==> u.info in infos && u.parentId == parentId
  {
    if infos == [] then [] else [Unit(infos[0], parentId)] + WithParent(infos[1..], parentId)
  }

  /** Sorting the infos of a filtered list keeps exactly the matching units, each once. */
  lemma SelectedFacts(order: KeyOrder, units: seq<Unit>, keep: Unit -> bool, parentId: Option<Id>)
    requires DistinctIds(units)
    requires forall u :: u in units && keep(u) ==> u.parentId == parentId
    ensures var infos := Sort(order, NameOf, Map(InfoOf, Filter(keep, units)));
            && NoDup(infos)
            && forall u :: u in units && keep(u) <==> u in WithParent(infos, parentId) && keep(u) && u in units
    ensures var infos := Sort(order, NameOf, Map(InfoOf, Filter(keep, units)));
            forall l :: l in infos ==> Unit(l, parentId) in units && keep(Unit(l, parentId))
  {
    var kept := Filter(keep, units);
    var infos := Map(InfoOf, kept);
    var sorted := Sort(order, NameOf, infos);
    FilterNoDup(keep, units);
    FilterMembers(keep, units);
    MapAt(InfoOf, kept);
    forall i, j | 0 <= i < j < |infos|
      ensures infos[i] != infos[j]
    {
      FindUnique(units, kept[i]);
      FindUnique(units, kept[j]);
    }
    SortPermutes(order, NameOf, infos);
    PermutationFacts(infos, sorted);
    forall u | u in units && keep(u)
      ensures u in WithParent(sorted, parentId)
    {
      var i :| 0 <= i < |kept| && kept[i] == u;
      assert infos[i] in sorted;
      var j :| 0 <= j < |sorted| && sorted[j] == infos[i];
      assert WithParent(sorted, parentId)[j] == u;
    }
    forall l | l in sorted
      ensures Unit(l, parentId) in units && keep(Unit(l, parentId))
    {
      var i :| 0 <= i < |infos| && infos[i] == l;
      assert kept[i] in kept && kept[i] == Unit(l, parentId);
    }
  }

  /** The units that name u as parent, in the order the graph shows them. */
  function ChildUnits(order: KeyOrder, units: seq<Unit>, u: Unit): seq<Unit> {
    WithParent(Sort(order, NameOf, Kids(units, u.info.id)), Some(u.info.id))
  }

  lemma ChildUnitsFacts(order: KeyOrder, units: seq<Unit>, u: Unit, d: nat)
    requires DistinctIds(units) && u in units && AtDepth(units, u, d)
    ensures NoDup(Sort(order, NameOf, Kids(units, u.info.id)))
    ensures forall c :: c in ChildUnits(order, units, u) <==> c in units && c.parentId == Some(u.info.id)
    ensures forall c :: c in ChildUnits(order, units, u) ==> AtDepth(units, c, d + 1)
  {
    SelectedFacts(order, units, ChildFilter(u.info.id), Some(u.info.id));
    forall c | c in units && c.parentId == Some(u.info.id)
      ensures c in ChildUnits(order, units, u) && AtDepth(units, c, d + 1)
    {
      assert ChildFilter(u.info.id)(c);
      ChildDepth(units, u, d, c);
    }
  }

  lemma AboveCovers(units: seq<Unit>, u: Unit, d: nat, tops: seq<Unit>, rest: seq<Unit>)
    requires DistinctIds(units) && u in units && AtDepth(units, u, d)
    requires forall c :: c in tops ==> c in units && c.parentId == Some(u.info.id)
    requires forall c :: c in units && c.parentId == Some(u.info.id) ==> c in tops
    requires Covers(units, tops, rest)
    ensures Covers(units, [u], [u] + rest)
  {
    var rows := [u] + rest;
    FindUnique(units, u);
    forall v | v in rest
      ensures v != u && exists k: nat :: Below(units, [u], v, k)
    {
      var k: nat :| Below(units, tops, v, k);
      UpAdd(units, v, k, 1);
      assert Up(units, Up(units, v, k).value, 1) == Some(u);
      assert Below(units, [u], v, k + 1);
      if v == u {
        UpAdd(units, u, k + 1, d);
        DepthUnique(units, u, d, k + 1 + d);
      }
    }
    assert Below(units, [u], u, 0);
    forall v, k: nat | v in units && Below(units, [u], v, k)
      ensures v in rows
    {
      if k > 0 {
        UpAdd(units, v, k - 1, 1);
        var c := Up(units, v, k - 1).value;
        assert c in units && c in tops;
        assert Below(units, tops, v, k - 1);
      }
    }
  }

  /** Subtrees of different units of one depth share nothing. */
  lemma SiblingsDisjoint(units: seq<Unit>, u: Unit, d: nat, tops: seq<Unit>, first: seq<Unit>, rest: seq<Unit>)
    requires u !in tops
    requires forall c :: c in [u] + tops ==> AtDepth(units, c, d)
    requires Covers(units, [u], first) && Covers(units, tops, rest)
    ensures forall v :: v in first ==> v !in rest
  {
    forall v | v in first && v in rest
      ensures false
    {
      var i: nat :| Below(units, [u], v, i);
      var j: nat :| Below(units, tops, v, j);
      assert u in [u] + tops && Up(units, v, j).value in [u] + tops;
      UpAdd(units, v, i, d);
      UpAdd(units, v, j, d);
      DepthUnique(units, v, i + d, j + d);
    }
  }

  lemma {:induction false} GrowCovers(order: KeyOrder, units: seq<Unit>, u: Unit, d: nat, budget: nat)
    requires DistinctIds(units) && u in units && AtDepth(units, u, d)
    requires budget == |units| - d
    ensures Covers(units, [u], Flatten(Grow(order, units, u.info, budget), u.parentId))
    decreases budget, 0, 0
  {
    hide Covers, AtDepth, DistinctIds, NoDup, Kids, Sort, WithParent;
    DepthBound(units, u, d);
    var id := Some(u.info.id);
    var kids := Sort(order, NameOf, Kids(units, u.info.id));
    ChildUnitsFacts(order, units, u, d);
    forall l | l in kids
      ensures Unit(l, id) in units && AtDepth(units, Unit(l, id), d + 1)
    {
      assert Unit(l, id) in ChildUnits(order, units, u);
    }
    GrowAllCovers(order, units, kids, id, d + 1, budget - 1);
    AboveCovers(units, u, d, ChildUnits(order, units, u),
                FlattenAll(GrowAll(order, units, kids, budget - 1), id));
  }

  lemma {:induction false} GrowAllCovers(order: KeyOrder, units: seq<Unit>, infos: seq<Info>, parentId: Option<Id>,
                                         d: nat, budget: nat)
    requires DistinctIds(units) && NoDup(infos)
    requires forall l :: l in infos ==> Unit(l, parentId) in units && AtDepth(units, Unit(l, parentId), d)
    requires budget == |units| - d
    ensures Covers(units, WithParent(infos, parentId),
                   FlattenAll(GrowAll(order, units, infos, budget), parentId))
    decreases budget, 1, |infos|
  {
    if infos != [] {
      var u := Unit(infos[0], parentId);
      GrowCovers(order, units, u, d, budget);
      GrowAllCovers(order, units, infos[1..], parentId, d, budget);
      var restTops := WithParent(infos[1..], parentId);
      var first := Flatten(Grow(order, units, infos[0], budget), parentId);
      var rest := FlattenAll(GrowAll(order, units, infos[1..], budget), parentId);
      assert infos[0] !in infos[1..];
      SiblingsDisjoint(units, u, d, restTops, first, rest);
      CoversJoin(units, [u], restTops, first, rest);
    }
  }

  lemma CoversJoin(units: seq<Unit>, t1: seq<Unit>, t2: seq<Unit>, r1: seq<Unit>, r2: seq<Unit>)
    requires Covers(units, t1, r1) && Covers(units, t2, r2)
    requires forall v :: v in r1 ==> v !in r2
    ensures Covers(units, t1 + t2, r1 + r2)
  {
    forall i, j | 0 <= i < j < |r1 + r2|
      ensures (r1 + r2)[i] != (r1 + r2)[j]
    {
      assert i < |r1| <= j ==> r1[i] in r1 && r2[j - |r1|] in r2;
    }
    forall v | v in r1 + r2
      ensures v in units && exists k: nat :: Below(units, t1 + t2, v, k)
    {
      if v in r1 {
        var k: nat :| Below(units, t1, v, k);
        assert Below(units, t1 + t2, v, k);
      } else {
        var k: nat :| Below(units, t2, v, k);
        assert Below(units, t1 + t2, v, k);
      }
    }
    forall v, k: nat | v in units && Below(units, t1 + t2, v, k)
      ensures v in r1 + r2
    {
      assert Below(units, t1, v, k) || Below(units, t2, v, k);
    }
  }

  /**
   * Whatever the parent links are, the forest holds exactly the units whose parent chain reaches a
   * parentless province, each exactly once and each under the parent it names.
   */
  lemma ForestHoldsRootedUnits(order: KeyOrder, units: seq<Unit>)
    requires DistinctIds(units)
    ensures var rows := FlattenAll(Forest(order, units), None);
            && NoDup(rows)
            && forall u :: u in rows <==> u in units && Rooted(units, u)
  {
    SelectedFacts(order, units, IsRoot, None);
    var infos := Sort(order, NameOf, Roots(units));
    forall l | l in infos
      ensures AtDepth(units, Unit(l, None), 0)
    {
    }
    GrowAllCovers(order, units, infos, None, 0, |units|);
    var tops := WithParent(infos, None);
    var rows := FlattenAll(Forest(order, units), None);
    assert Covers(units, tops, rows);
    forall u | u in units && Rooted(units, u)
      ensures u in rows
    {
      var d: nat :| AtDepth(units, u, d);
      assert Below(units, tops, u, d);
    }
    forall u | u in rows
      ensures Rooted(units, u)
    {
      var k: nat :| Below(units, tops, u, k);
      assert AtDepth(units, u, k);
    }
  }

  // ---- what the counts say about the tree ----

  /** Distinct elements of a distinct list are all of it exactly when they are as many. */
  lemma SameLengthIffAll<T>(s: seq<T>, t: seq<T>)
    requires NoDup(s) && NoDup(t) && forall x :: x in s ==> x in t
    ensures |s| <= |t|
    ensures |s| == |t| <==> forall x :: x in t ==> x in s
  {
    NoDupWithin(s, t);
    if forall x :: x in t ==> x in s {
      SameElementsSameLength(s, t);
    }
    if x :| x in t && x !in s {
      NoDupAppend(s, [x]);
      NoDupWithin(s + [x], t);
    }
  }

  /**
   * The count of a level is the number of units of that level in the tree exactly when the parent chain of
   * each of them reaches a province. Otherwise it is higher.
   */
  lemma LevelCountIsTreesIff(order: KeyOrder, units: seq<Unit>, level: Level)
    requires DistinctIds(units)
    ensures var shown := FlattenAll(Forest(order, units), None);
            && CountLevel(shown, level) <= CountLevel(units, level)
            && (CountLevel(shown, level) == CountLevel(units, level) <==>
                forall u :: u in units && u.info.level == level ==> Rooted(units, u))
  {
    ForestHoldsRootedUnits(order, units);
    hide Forest, FlattenAll, Rooted;
    var shown := FlattenAll(Forest(order, units), None);
    FilterNoDup(LevelFilter(level), shown);
    FilterNoDup(LevelFilter(level), units);
    FilterMembers(LevelFilter(level), shown);
    FilterMembers(LevelFilter(level), units);
    hide DistinctIds, NoDup;
    SameLengthIffAll(Filter(LevelFilter(level), shown), Filter(LevelFilter(level), units));
  }

  /** The total is the number of units in the tree exactly when every parent chain reaches a province. */
  lemma TotalIsTreesIff(order: KeyOrder, units: seq<Unit>)
    requires DistinctIds(units)
    ensures |FlattenAll(Forest(order, units), None)| == |units| <==> forall u :: u in units ==> Rooted(units, u)
  {
    ForestHoldsRootedUnits(order, units);
    hide Forest, FlattenAll, Rooted;
    SameLengthIffAll(FlattenAll(Forest(order, units), None), units);
  }

  /** A unit whose parent was not read, for instance because it is inactive, is counted and not shown. */
  lemma DanglingUnitOnlyCounted(order: KeyOrder, u: Unit)
    requires u.parentId.Some? && u.parentId.value != u.info.id
    ensures FlattenAll(Forest(order, [u]), None) == [] && CountLevel([u], u.info.level) == 1
  {
    ForestHoldsRootedUnits(order, [u]);
    forall d: nat
      ensures !AtDepth([u], u, d)
    {
    }
    hide Forest;
    assert forall v :: v in [u] ==> !Rooted([u], v);
    NothingShown([u], FlattenAll(Forest(order, [u]), None));
    CountOne(u, u.info.level);
  }

  lemma CountOne(u: Unit, level: Level)
    ensures CountLevel([u], level) == if u.info.level == level then 1 else 0
  {
    var keep := LevelFilter(level);
    assert [u][1..] == [] && Filter(keep, []) == [] && keep(u) == (u.info.level == level);
    assert Filter(keep, [u]) == if keep(u) then [u] else [];
  }

  lemma NothingShown(units: seq<Unit>, shown: seq<Unit>)
    requires forall u :: u in shown <==> u in units && Rooted(units, u)
    requires forall u :: u in units ==> !Rooted(units, u)
    ensures shown == []
  {
    if shown != [] {
      HasMember(shown);
    }
  }

  /** So are two units that are each other's parent. */
  lemma CyclicUnitsOnlyCounted(order: KeyOrder, u: Unit, v: Unit)
    requires u.info.id != v.info.id && u.parentId == Some(v.info.id) && v.parentId == Some(u.info.id)
    ensures FlattenAll(Forest(order, [u, v]), None) == []
    ensures CountLevel([u, v], u.info.level) == if v.info.level == u.info.level then 2 else 1
  {
    ForestHoldsRootedUnits(order, [u, v]);
    hide Forest;
    forall d: nat
      ensures !AtDepth([u, v], u, d) && !AtDepth([u, v], v, d)
    {
      CycleNeverEnds(u, v, d);
    }
    NothingShown([u, v], FlattenAll(Forest(order, [u, v]), None));
    CountOne(u, u.info.level);
    CountOne(v, u.info.level);
    FilterAppend(LevelFilter(u.info.level), [u], [v]);
    assert [u, v] == [u] + [v];
  }

  lemma {:induction false} CycleNeverEnds(u: Unit, v: Unit, d: nat)
    requires u.info.id != v.info.id && u.parentId == Some(v.info.id) && v.parentId == Some(u.info.id)
    ensures Up([u, v], u, d) == Some(if d % 2 == 0 then u else v)
    ensures Up([u, v], v, d) == Some(if d % 2 == 0 then v else u)
  {
    FindUnique([u, v], u);
    FindUnique([u, v], v);
    if d > 0 {
      CycleNeverEnds(u, v, d - 1);
    }
  }
}

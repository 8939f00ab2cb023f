/**
 * The round trip: a hierarchy that is seeded into rows and rebuilt from those rows, read back in any
 * order, is the same hierarchy up to the order of siblings, which come back sorted by name.
 */
module LocationRoundTrip {
  import opened Wrappers
  import opened Sequences
  import opened StableSort
  import opened Text
  import opened LocationModel
  import opened LocationGraph
  import opened LocationSeeder

  function StoredUnit(e: Entry): Unit {
    RowOf(if e.id.Some? then e.id.value else "", e.draft).unit
  }

  /** The tree with the ids that its visited entries received. */
  ghost function Labelled(es: seq<Entry>, t: Tree, parentId: Option<Id>): GraphTree
    requires MatchesNode(es, t, parentId)
    decreases t, 1
  {
    GraphTree(StoredUnit(es[0]).info, if t.level == VILLAGE then [] else LabelledAll(es[1..], t.children, es[0].id))
  }

  ghost function LabelledAll(es: seq<Entry>, ts: seq<Tree>, parentId: Option<Id>): (gs: seq<GraphTree>)
    requires Matches(es, ts, parentId)
    ensures |gs| == |ts|
    decreases ts, 0
  {
    if ts == [] then [] else
    [Labelled(es[..Size(ts[0])], ts[0], parentId)] + LabelledAll(es[Size(ts[0])..], ts[1..], parentId)
  }

  /** What seeding keeps of a tree: trimmed names and codes, nothing below villages. */
  function Kept(t: Tree): Tree
    decreases t, 1
  {
    Tree(Trim(t.name), Trim(t.code), t.level, if t.level == VILLAGE then [] else KeptAll(t.children))
  }

  function KeptAll(ts: seq<Tree>): seq<Tree>
    decreases ts, 0
  {
    if ts == [] then [] else [Kept(ts[0])] + KeptAll(ts[1..])
  }

  /** A graph tree without its ids. */
  function Erase(g: GraphTree): Tree
    decreases g, 1
  {
    Tree(g.info.name, if g.info.code.Some? then g.info.code.value else "", g.info.level, EraseAll(g.children))
  }

  function EraseAll(gs: seq<GraphTree>): seq<Tree>
    decreases gs, 0
  {
    if gs == [] then [] else [Erase(gs[0])] + EraseAll(gs[1..])
  }

  function UnitsOf(es: seq<Entry>): seq<Unit> {
    if es == [] then [] else [StoredUnit(es[0])] + UnitsOf(es[1..])
  }

  lemma {:induction false} UnitsOfSplit(es: seq<Entry>, fs: seq<Entry>)
    ensures UnitsOf(es + fs) == UnitsOf(es) + UnitsOf(fs)
  {
    hide StoredUnit;
    if es == [] {
      assert es + fs == fs;
    } else {
      UnitsOfSplit(es[1..], fs);
      TailOfAppend(es, fs);
      Assoc([StoredUnit(es[0])], UnitsOf(es[1..]), UnitsOf(fs));
    }
  }

  /** The labelled tree is the seeded tree, and its rows are the entries' rows. */
  lemma {:induction false} LabelledFacts(es: seq<Entry>, t: Tree, parentId: Option<Id>)
    requires MatchesNode(es, t, parentId)
    ensures Erase(Labelled(es, t, parentId)) == Kept(t)
    ensures Flatten(Labelled(es, t, parentId), parentId) == UnitsOf(es)
    decreases t, 1
  {
    if t.level != VILLAGE {
      LabelledAllFacts(es[1..], t.children, es[0].id);
    } else {
      assert es[1..] == [];
    }
  }

  lemma {:induction false} LabelledAllFacts(es: seq<Entry>, ts: seq<Tree>, parentId: Option<Id>)
    requires Matches(es, ts, parentId)
    ensures EraseAll(LabelledAll(es, ts, parentId)) == KeptAll(ts)
    ensures FlattenAll(LabelledAll(es, ts, parentId), parentId) == UnitsOf(es)
    decreases ts, 0
  {
    if ts != [] {
      var n := Size(ts[0]);
      LabelledFacts(es[..n], ts[0], parentId);
      LabelledAllFacts(es[n..], ts[1..], parentId);
      UnitsOfSplit(es[..n], es[n..]);
      assert es[..n] + es[n..] == es;
      var g, gs := Labelled(es[..n], ts[0], parentId), LabelledAll(es[n..], ts[1..], parentId);
      assert ([g] + gs)[1..] == gs;
    }
  }

  /** Equal up to the order of siblings. With distinct sibling ids the matching is one to one. */
  ghost predicate SameUpToOrder(a: GraphTree, b: GraphTree)
    decreases a, 0
  {
    a.info == b.info && SameForest(a.children, b.children)
  }

  ghost predicate SameForest(xs: seq<GraphTree>, ys: seq<GraphTree>)
    decreases xs, 1
  {
    && |xs| == |ys|
    && (forall i :: 0 <= i < |xs| ==> HasTwin(xs[i], ys))
    && (forall j :: 0 <= j < |ys| ==> IsTwin(xs, ys[j]))
  }

  ghost predicate HasTwin(x: GraphTree, ys: seq<GraphTree>)
    decreases x, 1
  {
    exists j :: 0 <= j < |ys| && SameUpToOrder(x, ys[j])
  }

  ghost predicate IsTwin(xs: seq<GraphTree>, y: GraphTree)
    decreases xs, 0
  {
    exists i :: 0 <= i < |xs| && SameUpToOrder(xs[i], y)
  }

  ghost predicate HasId(rows: seq<Unit>, id: Id) {
    exists u :: u in rows && u.info.id == id
  }

  ghost predicate HasParentIn(rows: seq<Unit>, v: Unit) {
    v.parentId.Some? && HasId(rows, v.parentId.value)
  }

  /** Every stored unit whose parent is one of these rows is one of these rows. */
  ghost predicate Closed(units: seq<Unit>, rows: seq<Unit>) {
    && (forall v :: v in rows ==> v in units)
    && (forall v :: v in units && HasParentIn(rows, v) ==> v in rows)
  }

  function InfosOf(gs: seq<GraphTree>): (infos: seq<Info>)
    ensures |infos| == |gs|
    ensures forall i :: 0 <= i < |gs| ==> infos[i] == gs[i].info
  {
    if gs == [] then [] else [gs[0].info] + InfosOf(gs[1..])
  }

  /** The units that name g's root as parent are exactly its children. */
  ghost predicate ChildrenAreKids(units: seq<Unit>, g: GraphTree) {
    && NoDup(InfosOf(g.children))
    && forall l :: Unit(l, Some(g.info.id)) in units <==> l in InfosOf(g.children)
  }

  ghost predicate Consistent(units: seq<Unit>, g: GraphTree)
    decreases g
  {
    && ChildrenAreKids(units, g)
    && forall i :: 0 <= i < |g.children| ==> Consistent(units, g.children[i])
  }

  lemma {:induction false} ParentInside(gs: seq<GraphTree>, p: Option<Id>, v: Unit)
    requires v in FlattenAll(gs, p)
    ensures v.parentId == p || HasParentIn(FlattenAll(gs, p), v)
    decreases gs
  {
    var g := gs[0];
    var rows := FlattenAll(gs, p);
    if v in FlattenAll(gs[1..], p) {
      ParentInside(gs[1..], p, v);
      assert forall u :: u in FlattenAll(gs[1..], p) ==> u in rows;
    } else if v != Unit(g.info, p) {
      ParentInside(g.children, Some(g.info.id), v);
      assert Unit(g.info, p) in rows;
      assert forall u :: u in FlattenAll(g.children, Some(g.info.id)) ==> u in rows;
    }
  }

  lemma {:induction false} TopOfFlatten(gs: seq<GraphTree>, p: Option<Id>, v: Unit)
    requires v in FlattenAll(gs, p) && v.parentId == p
    requires p.Some? ==> !HasId(FlattenAll(gs, p), p.value)
    ensures exists i :: 0 <= i < |gs| && gs[i].info == v.info
    decreases gs
  {
    var g := gs[0];
    var rows, below, rest := FlattenAll(gs, p), FlattenAll(g.children, Some(g.info.id)), FlattenAll(gs[1..], p);
    assert rows == [Unit(g.info, p)] + below + rest;
    assert Unit(g.info, p) in rows;
    assert forall u :: u in below || u in rest ==> u in rows;
    if v in rest {
      TopOfFlatten(gs[1..], p, v);
      var i :| 0 <= i < |gs[1..]| && gs[1..][i].info == v.info;
      assert gs[i + 1].info == v.info;
    } else if v in below {
      ParentInside(g.children, Some(g.info.id), v);
      assert false;
    }
  }

  lemma {:induction false} TopsAreRows(gs: seq<GraphTree>, p: Option<Id>, i: nat)
    requires i < |gs|
    ensures Unit(gs[i].info, p) in FlattenAll(gs, p)
  {
    if i > 0 {
      TopsAreRows(gs[1..], p, i - 1);
    } else {
      assert Flatten(gs[0], p)[0] == Unit(gs[0].info, p);
    }
  }

  lemma {:induction false} TopsDistinct(gs: seq<GraphTree>, p: Option<Id>)
    requires DistinctIds(FlattenAll(gs, p))
    ensures forall i, j :: 0 <= i < j < |gs| ==> gs[i].info.id != gs[j].info.id
  {
    if gs != [] {
      DistinctSplit(Flatten(gs[0], p), FlattenAll(gs[1..], p));
      TopsDistinct(gs[1..], p);
      forall j | 0 < j < |gs|
        ensures gs[0].info.id != gs[j].info.id
      {
        TopsAreRows(gs[1..], p, j - 1);
        assert Flatten(gs[0], p)[0].info == gs[0].info;
        assert Unit(gs[0].info, p) in Flatten(gs[0], p);
        assert HasId(Flatten(gs[0], p), gs[0].info.id);
      }
    }
  }

  lemma DistinctSplit(a: seq<Unit>, b: seq<Unit>)
    requires DistinctIds(a + b)
    ensures DistinctIds(a) && DistinctIds(b)
    ensures forall id :: HasId(a, id) ==> !HasId(b, id)
  {
    forall i, j | 0 <= i < j < |a|
      ensures a[i].info.id != a[j].info.id
    {
      assert (a + b)[i] == a[i] && (a + b)[j] == a[j];
    }
    forall i, j | 0 <= i < j < |b|
      ensures b[i].info.id != b[j].info.id
    {
      assert (a + b)[|a| + i] == b[i] && (a + b)[|a| + j] == b[j];
    }
    forall u, v | u in a && v in b
      ensures u.info.id != v.info.id
    {
      var i :| 0 <= i < |a| && a[i] == u;
      var j :| 0 <= j < |b| && b[j] == v;
      assert (a + b)[i] == u && (a + b)[|a| + j] == v;
    }
  }

  /** If rows split in two disjoint groups whose parents stay in the group or above it, each group is closed. */
  lemma ClosedPart(units: seq<Unit>, rows: seq<Unit>, part: seq<Unit>, rest: seq<Unit>, p: Option<Id>)
    requires Closed(units, rows)
    requires forall v :: v in rows <==> v in part || v in rest
    requires forall id :: HasId(part, id) ==> !HasId(rest, id)
    requires forall v :: v in rest ==> v.parentId == p || HasParentIn(rest, v)
    requires p.Some? ==> !HasId(part, p.value)
    ensures Closed(units, part)
  {
    forall v | v in units && HasParentIn(part, v)
      ensures v in part
    {
      var u :| u in part && u.info.id == v.parentId.value;
      assert u in rows;
      assert HasParentIn(rows, v);
    }
  }

  lemma {:induction false} FlattenConsistent(units: seq<Unit>, gs: seq<GraphTree>, p: Option<Id>)
    requires DistinctIds(FlattenAll(gs, p)) && Closed(units, FlattenAll(gs, p))
    requires p.Some? ==> !HasId(FlattenAll(gs, p), p.value)
    ensures forall i :: 0 <= i < |gs| ==> Consistent(units, gs[i])
    decreases gs
  {
    if gs != [] {
      var g := gs[0];
      var rows, own, rest := FlattenAll(gs, p), Flatten(g, p), FlattenAll(gs[1..], p);
      assert rows == own + rest;
      DistinctSplit(own, rest);
      forall v | v in own
        ensures v.parentId == p || HasParentIn(own, v)
      {
        assert FlattenAll([g], p) == own;
        ParentInside([g], p, v);
      }
      forall v | v in rest
        ensures v.parentId == p || HasParentIn(rest, v)
      {
        ParentInside(gs[1..], p, v);
      }
      assert forall v :: v in own ==> v in rows;
      assert forall v :: v in rest ==> v in rows;
      ClosedPart(units, rows, own, rest, p);
      ClosedPart(units, rows, rest, own, p);
      FlattenConsistent(units, gs[1..], p);
      ChildrenConsistent(units, g, p);
    }
  }

  lemma {:induction false} ChildrenConsistent(units: seq<Unit>, g: GraphTree, p: Option<Id>)
    requires DistinctIds(Flatten(g, p)) && Closed(units, Flatten(g, p))
    requires p.Some? ==> !HasId(Flatten(g, p), p.value)
    ensures Consistent(units, g)
    decreases g, 0
  {
    var id := Some(g.info.id);
    var head, own, below := Unit(g.info, p), Flatten(g, p), FlattenAll(g.children, id);
    assert own == [head] + below;
    assert head in [head] && head in own && forall v :: v in below ==> v in own;
    DistinctSplit([head], below);
    assert HasId([head], g.info.id) && HasId(own, g.info.id);
    ClosedPart(units, own, below, [head], p);
    FlattenConsistent(units, g.children, id);
    TopsDistinct(g.children, id);
    forall l | Unit(l, id) in units
      ensures l in InfosOf(g.children)
    {
      assert HasParentIn(own, Unit(l, id));
      TopOfFlatten(g.children, id, Unit(l, id));
      var i :| 0 <= i < |g.children| && g.children[i].info == l;
      assert InfosOf(g.children)[i] == l;
    }
    forall i | 0 <= i < |g.children|
      ensures Unit(g.children[i].info, id) in units
    {
      TopsAreRows(g.children, id, i);
    }
  }

  lemma KidsAreChildren(order: KeyOrder, units: seq<Unit>, g: GraphTree)
    requires DistinctIds(units) && Consistent(units, g)
    ensures var kids, infos := Sort(order, NameOf, Kids(units, g.info.id)), InfosOf(g.children);
            |kids| == |infos| && forall l :: l in kids <==> l in infos
  {
    var id := g.info.id;
    var kids, infos := Sort(order, NameOf, Kids(units, id)), InfosOf(g.children);
    SelectedFacts(order, units, ChildFilter(id), Some(id));
    forall l
      ensures l in kids <==> l in infos
    {
      assert Unit(l, Some(id)) in units ==> ChildFilter(id)(Unit(l, Some(id)));
      assert l in kids <==> Unit(l, Some(id)) in units;
    }
    SameElementsSameLength(kids, infos);
  }

  /** Growing a consistent tree from its rows gives the tree back, up to the order of siblings. */
  lemma {:induction false} GrowSame(order: KeyOrder, units: seq<Unit>, g: GraphTree, budget: nat)
    requires DistinctIds(units) && Consistent(units, g) && budget >= |Flatten(g, None)|
    ensures SameUpToOrder(Grow(order, units, g.info, budget), g)
    decreases g, 0
  {
    hide ChildrenAreKids, Kids, Sort, DistinctIds, SameForest, SameUpToOrder, Grow, Flatten, InfosOf, NoDup;
    var kids := Sort(order, NameOf, Kids(units, g.info.id));
    KidsAreChildren(order, units, g);
    forall j | 0 <= j < |g.children|
      ensures budget - 1 >= |Flatten(g.children[j], None)|
    {
      ChildSmaller(g, j);
    }
    NotEmpty(g);
    GrowAllSame(order, units, g.children, kids, budget - 1);
    GrownSame(order, units, g, budget);
  }

  lemma NotEmpty(g: GraphTree)
    ensures |Flatten(g, None)| > 0
  {
  }

  lemma GrownSame(order: KeyOrder, units: seq<Unit>, g: GraphTree, budget: nat)
    requires budget > 0
    requires SameForest(GrowAll(order, units, Sort(order, NameOf, Kids(units, g.info.id)), budget - 1), g.children)
    ensures SameUpToOrder(Grow(order, units, g.info, budget), g)
  {
    hide SameForest, Sort, Kids, GrowAll;
  }

  lemma {:induction false} GrowAllSame(order: KeyOrder, units: seq<Unit>, gs: seq<GraphTree>, kids: seq<Info>,
      budget: nat)
    requires DistinctIds(units)
    requires forall j :: 0 <= j < |gs| ==> Consistent(units, gs[j]) && budget >= |Flatten(gs[j], None)|
    requires |kids| == |gs| && forall l :: l in kids <==> l in InfosOf(gs)
    ensures SameForest(GrowAll(order, units, kids, budget), gs)
    decreases gs, 1
  {
    hide Consistent, SameForest, SameUpToOrder, Flatten, DistinctIds, Grow;
    var grown := GrowAll(order, units, kids, budget);
    forall i, j | 0 <= i < |kids| && 0 <= j < |gs| && kids[i] == InfosOf(gs)[j]
      ensures SameUpToOrder(grown[i], gs[j])
    {
      GrowAllAt(order, units, kids, budget, i);
      GrowSame(order, units, gs[j], budget);
    }
    Matched(grown, gs, kids, InfosOf(gs));
  }

  lemma Matched(xs: seq<GraphTree>, ys: seq<GraphTree>, kids: seq<Info>, infos: seq<Info>)
    requires |kids| == |xs| == |infos| == |ys|
    requires forall l :: l in kids <==> l in infos
    requires forall i, j :: 0 <= i < |kids| && 0 <= j < |infos| && kids[i] == infos[j] ==> SameUpToOrder(xs[i], ys[j])
    ensures SameForest(xs, ys)
  {
    hide SameUpToOrder;
    forall i | 0 <= i < |kids|
      ensures HasTwin(xs[i], ys)
    {
      assert kids[i] in infos;
      var j :| 0 <= j < |infos| && infos[j] == kids[i];
      assert SameUpToOrder(xs[i], ys[j]);
    }
    forall j | 0 <= j < |infos|
      ensures IsTwin(xs, ys[j])
    {
      assert infos[j] in kids;
      var i :| 0 <= i < |kids| && kids[i] == infos[j];
      assert SameUpToOrder(xs[i], ys[j]);
    }
  }

  lemma ChildSmaller(g: GraphTree, j: nat)
    requires j < |g.children|
    ensures |Flatten(g.children[j], None)| < |Flatten(g, None)|
  {
    PartSmaller(g.children, Some(g.info.id), j);
  }

  lemma {:induction false} PartSmaller(gs: seq<GraphTree>, p: Option<Id>, j: nat)
    requires j < |gs|
    ensures |Flatten(gs[j], None)| <= |FlattenAll(gs, p)|
  {
    if j > 0 {
      PartSmaller(gs[1..], p, j - 1);
    }
  }

  /** The number of stored rows of a level is the number of nodes of that level. */
  lemma {:induction false} FlattenCounts(g: GraphTree, p: Option<Id>, level: Level)
    ensures CountLevel(Flatten(g, p), level) == CountNodes(Erase(g), level)
    decreases g, 1
  {
    var below := FlattenAll(g.children, Some(g.info.id));
    FilterAppend(LevelFilter(level), [Unit(g.info, p)], below);
    FlattenAllCounts(g.children, Some(g.info.id), level);
  }

  lemma {:induction false} FlattenAllCounts(gs: seq<GraphTree>, p: Option<Id>, level: Level)
    ensures CountLevel(FlattenAll(gs, p), level) == CountAll(EraseAll(gs), level)
    decreases gs, 0
  {
    if gs != [] {
      FilterAppend(LevelFilter(level), Flatten(gs[0], p), FlattenAll(gs[1..], p));
      FlattenCounts(gs[0], p, level);
      FlattenAllCounts(gs[1..], p, level);
      assert EraseAll(gs)[1..] == EraseAll(gs[1..]);
    }
  }

  // ---- counts of the tree and counts of the table ----

  predicate VillageLeaves(t: Tree)
    decreases t, 1
  {
    if t.level == VILLAGE then t.children == [] else VillageLeavesAll(t.children)
  }

  /** Nothing hangs below a village. */
  predicate VillageLeavesAll(ts: seq<Tree>)
    decreases ts, 0
  {
    ts == [] || (VillageLeaves(ts[0]) && VillageLeavesAll(ts[1..]))
  }

  lemma {:induction false} NodeKeptCounts(t: Tree, level: Level)
    ensures CountNodes(Kept(t), level) <= CountNodes(t, level)
    ensures VillageLeaves(t) ==> CountNodes(Kept(t), level) == CountNodes(t, level)
    decreases t, 1
  {
    hide Trim;
    KeptCounts(t.children, level);
  }

  lemma {:induction false} KeptCounts(ts: seq<Tree>, level: Level)
    ensures CountAll(KeptAll(ts), level) <= CountAll(ts, level)
    ensures VillageLeavesAll(ts) ==> CountAll(KeptAll(ts), level) == CountAll(ts, level)
    decreases ts, 0
  {
    hide Kept;
    if ts != [] {
      NodeKeptCounts(ts[0], level);
      KeptCounts(ts[1..], level);
      assert KeptAll(ts)[1..] == KeptAll(ts[1..]);
    }
  }

  /** Where something hangs below a village, some level is counted too high. */
  lemma {:induction false} NodeLosesBelowVillage(t: Tree) returns (level: Level)
    requires !VillageLeaves(t)
    ensures CountNodes(Kept(t), level) < CountNodes(t, level)
    decreases t, 1
  {
    hide Trim;
    if t.level == VILLAGE {
      level := t.children[0].level;
      assert CountNodes(t.children[0], level) >= 1 && CountAll([], level) == 0;
    } else {
      level := LostBelowVillage(t.children);
    }
  }

  lemma {:induction false} LostBelowVillage(ts: seq<Tree>) returns (level: Level)
    requires !VillageLeavesAll(ts)
    ensures CountAll(KeptAll(ts), level) < CountAll(ts, level)
    decreases ts, 0
  {
    hide Kept, VillageLeaves;
    if VillageLeaves(ts[0]) {
      level := LostBelowVillage(ts[1..]);
      NodeKeptCounts(ts[0], level);
    } else {
      level := NodeLosesBelowVillage(ts[0]);
      KeptCounts(ts[1..], level);
    }
    assert KeptAll(ts)[1..] == KeptAll(ts[1..]);
  }

  /** The levels counted before seeding are the levels in the table exactly when nothing hangs below a village. */
  lemma CountsAgreeIff(tree: seq<Tree>)
    ensures (forall level: Level :: CountAll(KeptAll(tree), level) == CountAll(tree, level)) <==> VillageLeavesAll(tree)
  {
    forall level: Level
      ensures VillageLeavesAll(tree) ==> CountAll(KeptAll(tree), level) == CountAll(tree, level)
    {
      KeptCounts(tree, level);
    }
    if !VillageLeavesAll(tree) {
      var level := LostBelowVillage(tree);
    }
  }

  /** A table of rows is as long as the five level counts together. */
  lemma {:induction false} LevelsCoverUnits(units: seq<Unit>)
    ensures |units| == CountLevel(units, PROVINCE) + CountLevel(units, DISTRICT) + CountLevel(units, SECTOR)
                       + CountLevel(units, CELL) + CountLevel(units, VILLAGE)
  {
    if units != [] {
      LevelsCoverUnits(units[1..]);
    }
  }

  // ---- sorted siblings ----

  /** Siblings are sorted by name at every node. */
  ghost predicate SiblingsSorted(order: KeyOrder, gs: seq<GraphTree>)
    decreases gs
  {
    && (forall i, j :: 0 <= i < j < |gs| ==> order(gs[i].info.name, gs[j].info.name))
    && forall i :: 0 <= i < |gs| ==> SiblingsSorted(order, gs[i].children)
  }

  lemma {:induction false} GrowAllSorted(order: KeyOrder, units: seq<Unit>, infos: seq<Info>, budget: nat)
    requires TotalPreorder(order) && Sorted(order, NameOf, infos)
    ensures SiblingsSorted(order, GrowAll(order, units, infos, budget))
    decreases budget
  {
    var gs := GrowAll(order, units, infos, budget);
    forall i | 0 <= i < |gs|
      ensures gs[i].info == infos[i] && SiblingsSorted(order, gs[i].children)
    {
      GrowAllAt(order, units, infos, budget, i);
      if budget > 0 {
        SortSorts(order, NameOf, Kids(units, infos[i].id));
        GrowAllSorted(order, units, Sort(order, NameOf, Kids(units, infos[i].id)), budget - 1);
      }
    }
    assert forall i :: 0 <= i < |gs| ==> gs[i].info.name == NameOf(infos[i]);
  }

  function ActiveRow(r: Row): bool {
    r.isActive
  }

  function UnitOf(r: Row): Unit {
    r.unit
  }

  function IdOf(u: Unit): Id {
    u.info.id
  }

  /** The rows the graph query selects, in table order; the query returns them in an order of its own. */
  function ActiveUnits(table: seq<Row>): seq<Unit> {
    Map(UnitOf, Filter(ActiveRow, table))
  }

  lemma DistinctIdsPermuted(s: seq<Unit>, t: seq<Unit>)
    requires DistinctIds(s) && multiset(s) == multiset(t)
    ensures DistinctIds(t)
  {
    MapMultiset(IdOf, s, t);
    MapAt(IdOf, s);
    MapAt(IdOf, t);
    PermutationFacts(Map(IdOf, s), Map(IdOf, t));
    forall i, j | 0 <= i < j < |t|
      ensures t[i].info.id != t[j].info.id
    {
      assert Map(IdOf, t)[i] != Map(IdOf, t)[j];
    }
  }

  lemma {:induction false} StoredIsUnits(es: seq<Entry>)
    requires Pending(es) == []
    ensures Map(UnitOf, Stored(es)) == UnitsOf(es)
  {
    if es != [] {
      StoredIsUnits(es[1..]);
      assert Stored(es) == [RowOf(es[0].id.value, es[0].draft)] + Stored(es[1..]);
      MapAppend(UnitOf, [RowOf(es[0].id.value, es[0].draft)], Stored(es[1..]));
    }
  }

  lemma {:induction false} StoredAreActive(es: seq<Entry>, ts: seq<Tree>, parentId: Option<Id>)
    requires Matches(es, ts, parentId)
    ensures forall i :: 0 <= i < |es| ==> es[i].draft.isActive
    decreases ts
  {
    if ts != [] {
      var n := Size(ts[0]);
      var es0 := es[..n];
      if ts[0].level != VILLAGE {
        StoredAreActive(es0[1..], ts[0].children, es0[0].id);
      }
      StoredAreActive(es[n..], ts[1..], parentId);
      forall i | 0 <= i < |es|
        ensures es[i].draft.isActive
      {
        if 0 < i < n {
          assert es[i] == es0[1..][i - 1];
        } else if i == 0 {
          assert es[0] == es0[0];
        } else {
          assert es[i] == es[n..][i - n];
        }
      }
    }
  }

  lemma {:induction false} StoredMembers(es: seq<Entry>, r: Row)
    requires r in Stored(es)
    ensures exists i :: 0 <= i < |es| && es[i].draft.isActive == r.isActive
  {
    if es[0].id.Some? && r == RowOf(es[0].id.value, es[0].draft) {
    } else {
      StoredMembers(es[1..], r);
      var i :| 0 <= i < |es[1..]| && es[1..][i].draft.isActive == r.isActive;
      assert es[i + 1].draft.isActive == r.isActive;
    }
  }

  ghost predicate Injective(uuid: nat -> Id) {
    forall i: nat, j: nat :: i != j ==> uuid(i) != uuid(j)
  }

  /** What the graph query reads after seeding: the rows of the labelled hierarchy, with distinct ids. */
  lemma SeededUnits(uuid: nat -> Id, table: seq<Row>, trail: seq<Entry>, tree: seq<Tree>)
    requires Injective(uuid) && Seeded(uuid, table, trail, tree)
    ensures var rows := FlattenAll(LabelledAll(trail, tree, None), None);
            multiset(ActiveUnits(table)) == multiset(rows) && DistinctIds(rows)
    ensures EraseAll(LabelledAll(trail, tree, None)) == KeptAll(tree)
    ensures |ActiveUnits(table)| == SizeAll(tree)
  {
    LabelledAllFacts(trail, tree, None);
    TableUnits(uuid, table, trail, tree);
    hide Seeded, Stored;
    DistinctIdsPermuted(ActiveUnits(table), UnitsOf(trail));
    PermutationFacts(ActiveUnits(table), UnitsOf(trail));
    UnitsOfLength(trail);
  }

  /** Every stored row is active, and the table is a reordering of the trail's rows. */
  lemma TableUnits(uuid: nat -> Id, table: seq<Row>, trail: seq<Entry>, tree: seq<Tree>)
    requires Injective(uuid) && Seeded(uuid, table, trail, tree)
    ensures multiset(ActiveUnits(table)) == multiset(UnitsOf(trail))
    ensures DistinctIds(ActiveUnits(table)) && |trail| == SizeAll(tree)
  {
    StoredIsUnits(trail);
    AllActive(table, trail, tree);
    FilterAll(ActiveRow, table);
    MapMultiset(UnitOf, table, Stored(trail));
    MapAt(UnitOf, table);
    MatchesSize(trail, tree, None);
  }

  lemma AllActive(table: seq<Row>, trail: seq<Entry>, tree: seq<Tree>)
    requires Matches(trail, tree, None) && multiset(table) == multiset(Stored(trail))
    ensures forall r :: r in table ==> r.isActive
  {
    StoredAreActive(trail, tree, None);
    PermutationFacts(Stored(trail), table);
    forall r | r in table
      ensures r.isActive
    {
      StoredMembers(trail, r);
    }
  }

  lemma UnitsOfLength(es: seq<Entry>)
    ensures |UnitsOf(es)| == |es|
  {
  }

  lemma RootInfos(order: KeyOrder, units: seq<Unit>)
    requires DistinctIds(units)
    ensures NoDup(Sort(order, NameOf, Roots(units)))
    ensures forall l :: l in Sort(order, NameOf, Roots(units)) <==> Unit(l, None) in units && l.level == PROVINCE
  {
    SelectedFacts(order, units, IsRoot, None);
    var infos := Sort(order, NameOf, Roots(units));
    hide Sort, DistinctIds;
    forall l
      ensures l in infos <==> Unit(l, None) in units && l.level == PROVINCE
    {
      assert l.level == PROVINCE <==> IsRoot(Unit(l, None));
    }
  }

  function IsProvinceTree(g: GraphTree): bool {
    g.info.level == PROVINCE
  }

  /** The trees of a forest that the graph shows: those whose root is a province. */
  function Provinces(gs: seq<GraphTree>): seq<GraphTree> {
    Filter(IsProvinceTree, gs)
  }

  lemma ProvinceTops(gs: seq<GraphTree>)
    requires forall i, j :: 0 <= i < j < |gs| ==> gs[i].info.id != gs[j].info.id
    ensures NoDup(InfosOf(Provinces(gs)))
    ensures forall l :: l in InfosOf(Provinces(gs)) <==> l.level == PROVINCE && l in InfosOf(gs)
  {
    ProvinceTopsDistinct(gs);
    forall l
      ensures l in InfosOf(Provinces(gs)) <==> l.level == PROVINCE && l in InfosOf(gs)
    {
      ProvinceTop(gs, l);
    }
  }

  lemma ProvinceTopsDistinct(gs: seq<GraphTree>)
    requires forall i, j :: 0 <= i < j < |gs| ==> gs[i].info.id != gs[j].info.id
    ensures NoDup(InfosOf(Provinces(gs)))
  {
    var ps := Provinces(gs);
    FilterNoDup(IsProvinceTree, gs);
    FilterMembers(IsProvinceTree, gs);
    hide Provinces, Filter;
    forall i, j | 0 <= i < j < |ps|
      ensures InfosOf(ps)[i] != InfosOf(ps)[j]
    {
      assert ps[i] in ps && ps[j] in ps && ps[i] != ps[j];
      SameInfoSameTree(gs, ps[i], ps[j]);
    }
  }

  lemma SameInfoSameTree(gs: seq<GraphTree>, x: GraphTree, y: GraphTree)
    requires forall i, j :: 0 <= i < j < |gs| ==> gs[i].info.id != gs[j].info.id
    requires x in gs && y in gs
    ensures x.info == y.info ==> x == y
  {
    var a :| 0 <= a < |gs| && gs[a] == x;
    var b :| 0 <= b < |gs| && gs[b] == y;
  }

  lemma {:induction false} InfosMember(gs: seq<GraphTree>, l: Info)
    ensures l in InfosOf(gs) <==> exists g :: g in gs && g.info == l
  {
    if l in InfosOf(gs) {
      var i :| 0 <= i < |gs| && InfosOf(gs)[i] == l;
      assert gs[i] in gs;
    }
    if g :| g in gs && g.info == l {
      var i :| 0 <= i < |gs| && gs[i] == g;
      assert InfosOf(gs)[i] == l;
    }
  }

  lemma ProvinceTop(gs: seq<GraphTree>, l: Info)
    ensures l in InfosOf(Provinces(gs)) <==> l.level == PROVINCE && l in InfosOf(gs)
  {
    FilterMembers(IsProvinceTree, gs);
    InfosMember(gs, l);
    InfosMember(Provinces(gs), l);
    hide Filter, InfosOf;
  }

  lemma TopsAreParentless(units: seq<Unit>, gs: seq<GraphTree>, l: Info)
    requires forall u :: u in units <==> u in FlattenAll(gs, None)
    ensures Unit(l, None) in units <==> l in InfosOf(gs)
  {
    if Unit(l, None) in units {
      TopOfFlatten(gs, None, Unit(l, None));
      var i :| 0 <= i < |gs| && gs[i].info == l;
      assert InfosOf(gs)[i] == l;
    }
    if l in InfosOf(gs) {
      var i :| 0 <= i < |gs| && InfosOf(gs)[i] == l;
      TopsAreRows(gs, None, i);
    }
  }

  lemma RootsAreTops(order: KeyOrder, units: seq<Unit>, gs: seq<GraphTree>)
    requires DistinctIds(units) && DistinctIds(FlattenAll(gs, None))
    requires multiset(units) == multiset(FlattenAll(gs, None))
    ensures var infos := Sort(order, NameOf, Roots(units));
            |infos| == |Provinces(gs)| && forall l :: l in infos <==> l in InfosOf(Provinces(gs))
  {
    hide FlattenAll, DistinctIds, Sort, Roots, NoDup, Provinces;
    var infos := Sort(order, NameOf, Roots(units));
    RootInfos(order, units);
    PermutationFacts(units, FlattenAll(gs, None));
    TopsDistinct(gs, None);
    ProvinceTops(gs);
    forall l
      ensures l in infos <==> l in InfosOf(Provinces(gs))
    {
      TopsAreParentless(units, gs, l);
    }
    SameElementsSameLength(infos, InfosOf(Provinces(gs)));
  }

  /** Rebuilding from the rows of an id-labelled forest, in any order, gives its province trees back. */
  lemma RebuildLabelled(order: KeyOrder, units: seq<Unit>, gs: seq<GraphTree>)
    requires DistinctIds(FlattenAll(gs, None))
    requires multiset(units) == multiset(FlattenAll(gs, None))
    ensures DistinctIds(units) && SameForest(Forest(order, units), Provinces(gs))
  {
    var rows, ps := FlattenAll(gs, None), Provinces(gs);
    DistinctIdsPermuted(rows, units);
    PermutationFacts(units, rows);
    FlattenConsistent(units, gs, None);
    RootsAreTops(order, units, gs);
    FilterMembers(IsProvinceTree, gs);
    forall j | 0 <= j < |ps|
      ensures Consistent(units, ps[j]) && |units| >= |Flatten(ps[j], None)|
    {
      assert ps[j] in ps;
      var i :| 0 <= i < |gs| && gs[i] == ps[j];
      PartSmaller(gs, None, i);
    }
    hide Consistent, Flatten, SameForest, DistinctIds;
    GrowAllSame(order, units, ps, Sort(order, NameOf, Roots(units)), |units|);
  }

  /**
   * Seeding a hierarchy and rebuilding the graph from the rows, in whatever order they are read, gives
   * the hierarchy that was kept, except for trees whose root is not a province: the same trees up to
   * sibling order, siblings sorted by name. The level counts are those of everything that was kept, and
   * those announced before seeding exactly when nothing hangs below a village.
   */
  lemma SeedThenRebuild(order: KeyOrder, uuid: nat -> Id, table: seq<Row>, trail: seq<Entry>, tree: seq<Tree>,
                        units: seq<Unit>)
    requires TotalPreorder(order) && Injective(uuid) && Seeded(uuid, table, trail, tree)
    requires multiset(units) == multiset(ActiveUnits(table))
    ensures DistinctIds(units)
    ensures exists gs :: Rebuilt(order, units, tree, gs)
    ensures SiblingsSorted(order, Forest(order, units))
    ensures forall level: Level :: CountLevel(units, level) == CountAll(KeptAll(tree), level)
    ensures (forall level: Level :: CountLevel(units, level) == CountAll(tree, level)) <==> VillageLeavesAll(tree)
    ensures |units| == SizeAll(tree) == CountLevel(units, PROVINCE) + CountLevel(units, DISTRICT)
                       + CountLevel(units, SECTOR) + CountLevel(units, CELL) + CountLevel(units, VILLAGE)
  {
    CountsAgreeIff(tree);
    LevelsCoverUnits(units);
    var gs := LabelledAll(trail, tree, None);
    SeededUnits(uuid, table, trail, tree);
    RebuildLabelled(order, units, gs);
    SortSorts(order, NameOf, Roots(units));
    GrowAllSorted(order, units, Sort(order, NameOf, Roots(units)), |units|);
    forall level: Level
      ensures CountLevel(units, level) == CountAll(KeptAll(tree), level)
    {
      FlattenAllCounts(gs, None, level);
      FilterMultiset(LevelFilter(level), units, FlattenAll(gs, None));
    }
    PermutationFacts(units, ActiveUnits(table));
    assert Rebuilt(order, units, tree, gs);
  }

  /** gs is the kept hierarchy under some distinct ids, and the units' forest is its province trees. */
  ghost predicate Rebuilt(order: KeyOrder, units: seq<Unit>, tree: seq<Tree>, gs: seq<GraphTree>) {
    && EraseAll(gs) == KeptAll(tree) && DistinctIds(FlattenAll(gs, None))
    && SameForest(Forest(order, units), Provinces(gs))
  }

  lemma {:induction false} ErasedLevels(gs: seq<GraphTree>, tree: seq<Tree>)
    requires EraseAll(gs) == KeptAll(tree)
    ensures |gs| == |tree| && forall i :: 0 <= i < |gs| ==> gs[i].info.level == tree[i].level
    decreases |gs|
  {
    if gs != [] && tree != [] {
      assert EraseAll(gs)[1..] == EraseAll(gs[1..]) && KeptAll(tree)[1..] == KeptAll(tree[1..]);
      assert EraseAll(gs)[0] == Erase(gs[0]) && KeptAll(tree)[0] == Kept(tree[0]);
      ErasedLevels(gs[1..], tree[1..]);
    }
  }

  lemma RebuiltFacts(order: KeyOrder, units: seq<Unit>, tree: seq<Tree>, gs: seq<GraphTree>)
    requires Rebuilt(order, units, tree, gs)
    ensures EraseAll(gs) == KeptAll(tree) && DistinctIds(FlattenAll(gs, None))
    ensures SameForest(Forest(order, units), Provinces(gs))
  {
  }

  lemma AllProvinces(gs: seq<GraphTree>)
    requires forall i :: 0 <= i < |gs| ==> gs[i].info.level == PROVINCE
    ensures Provinces(gs) == gs
  {
    FilterAll(IsProvinceTree, gs);
  }

  /** A hierarchy of provinces comes back whole. */
  lemma ProvincesComeBackWhole(order: KeyOrder, units: seq<Unit>, tree: seq<Tree>)
    requires exists gs :: Rebuilt(order, units, tree, gs)
    requires forall i :: 0 <= i < |tree| ==> tree[i].level == PROVINCE
    ensures exists gs ::
              && EraseAll(gs) == KeptAll(tree) && DistinctIds(FlattenAll(gs, None))
              && SameForest(Forest(order, units), gs)
  {
    var gs :| Rebuilt(order, units, tree, gs);
    ErasedLevels(gs, tree);
    AllProvinces(gs);
  }
}

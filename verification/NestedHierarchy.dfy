/** A nested dataset, read node by node into the hierarchy that is seeded, or refused for its first incomplete node. */
module NestedHierarchy {
  import opened Wrappers
  import opened Sequences
  import opened StableSort
  import opened Text
  import opened LocationModel
  import opened LocationGraph
  import opened LocationSeeder
  import opened LocationRoundTrip

  /** A node as the dataset spells it; numbers are taken as they print. Any child list may be missing. */
  datatype RawNode = RawNode(
    name: Option<string>, code: Option<string>, level: Option<Level>, children: Option<seq<RawNode>>,
    districts: Option<seq<RawNode>>, sectors: Option<seq<RawNode>>, cells: Option<seq<RawNode>>,
    villages: Option<seq<RawNode>>)

  datatype Problem = NoName(level: Level) | NoCode(level: Level, name: string)

  function ChildLevel(level: Level): Level {
    match level case PROVINCE => DISTRICT case DISTRICT => SECTOR case SECTOR => CELL case _ => VILLAGE
  }

  function Rank(level: Level): nat {
    match level case PROVINCE => 4 case DISTRICT => 3 case SECTOR => 2 case CELL => 1 case VILLAGE => 0
  }

  /** The list named after the child level, or else the generic one. */
  function ResolveNestedChildren(node: RawNode, level: Level): seq<RawNode> {
    var keyed := match level
                 case PROVINCE => node.districts
                 case DISTRICT => node.sectors
                 case SECTOR => node.cells
                 case _ => node.villages;
    if keyed.Some? then keyed.value else if node.children.Some? then node.children.value else []
  }

  function NormalizeNestedNode(node: RawNode, level: Level): Result<Tree, Problem>
    decreases Rank(level), 0
  {
    var name, code := TrimValue(node.name), TrimValue(node.code);
    if name == "" then Err(NoName(level))
    else if code == "" then Err(NoCode(level, name))
    else if level == VILLAGE then Ok(Tree(name, code, level, []))
    else match NormalizeAll(ResolveNestedChildren(node, level), ChildLevel(level))
         case Ok(children) => Ok(Tree(name, code, level, children))
         case Err(e) => Err(e)
  }

  function NormalizeAll(nodes: seq<RawNode>, level: Level): Result<seq<Tree>, Problem>
    decreases Rank(level), 1, nodes
  {
    if nodes == [] then Ok([]) else
    match NormalizeNestedNode(nodes[0], level)
    case Err(e) => Err(e)
    case Ok(t) =>
      match NormalizeAll(nodes[1..], level)
      case Err(e) => Err(e)
      case Ok(ts) => Ok([t] + ts)
  }

  /** Root nodes may name their own level; most do not, and are provinces. */
  function RootLevel(node: RawNode): Level {
    if node.level.Some? then node.level.value else PROVINCE
  }

  function NormalizeRoots(nodes: seq<RawNode>): Result<seq<Tree>, Problem> {
    if nodes == [] then Ok([]) else
    match NormalizeNestedNode(nodes[0], RootLevel(nodes[0]))
    case Err(e) => Err(e)
    case Ok(t) =>
      match NormalizeRoots(nodes[1..])
      case Err(e) => Err(e)
      case Ok(ts) => Ok([t] + ts)
  }

  // ---- which datasets are accepted ----

  /** What a node of the hierarchy is called. */
  datatype Label = Label(level: Level, name: string, code: string)

  /** The labels of the nodes that are looked at, parents before children. */
  function Reached(node: RawNode, level: Level): seq<Label>
    decreases Rank(level), 0
  {
    [Label(level, TrimValue(node.name), TrimValue(node.code))] +
    if level == VILLAGE then [] else ReachedAll(ResolveNestedChildren(node, level), ChildLevel(level))
  }

  function ReachedAll(nodes: seq<RawNode>, level: Level): seq<Label>
    decreases Rank(level), 1, nodes
  {
    if nodes == [] then [] else Reached(nodes[0], level) + ReachedAll(nodes[1..], level)
  }

  /** The labels of a tree, parents before children. */
  function Labels(t: Tree): seq<Label>
    decreases t, 1
  {
    [Label(t.level, t.name, t.code)] + LabelsOf(t.children)
  }

  function LabelsOf(ts: seq<Tree>): seq<Label>
    decreases ts, 0
  {
    if ts == [] then [] else Labels(ts[0]) + LabelsOf(ts[1..])
  }

  function Complaint(l: Label): Option<Problem> {
    if l.name == "" then Some(NoName(l.level)) else if l.code == "" then Some(NoCode(l.level, l.name)) else None
  }

  /** What is wrong with the first incomplete label, if one is. */
  function FirstComplaint(labels: seq<Label>): Option<Problem> {
    if labels == [] then None
    else if Complaint(labels[0]).Some? then Complaint(labels[0])
    else FirstComplaint(labels[1..])
  }

  lemma {:induction false} FirstComplaintAppend(a: seq<Label>, b: seq<Label>)
    ensures FirstComplaint(a + b) == if FirstComplaint(a).Some? then FirstComplaint(a) else FirstComplaint(b)
  {
    if a == [] {
      assert a + b == b;
    } else {
      TailOfAppend(a, b);
      FirstComplaintAppend(a[1..], b);
    }
  }

  /** The result agrees with the labels that were reached: all of them, or the first incomplete one. */
  predicate Reports<T>(complaint: Option<Problem>, r: Result<T, Problem>) {
    match r case Ok(_) => complaint.None? case Err(e) => complaint == Some(e)
  }

  /**
   * A dataset is accepted exactly when every node reached has a name and a code; the tree then has exactly
   * those labels in that order. Otherwise the error is about the first incomplete node.
   */
  lemma {:induction false} NormalizedLabels(node: RawNode, level: Level)
    ensures Reports(FirstComplaint(Reached(node, level)), NormalizeNestedNode(node, level))
    ensures NormalizeNestedNode(node, level).Ok? ==>
            Labels(NormalizeNestedNode(node, level).value) == Reached(node, level)
    decreases Rank(level), 0
  {
    var l := Label(level, TrimValue(node.name), TrimValue(node.code));
    var below := if level == VILLAGE then [] else ReachedAll(ResolveNestedChildren(node, level), ChildLevel(level));
    assert ([l] + below)[1..] == below;
    if level != VILLAGE {
      NormalizedAllLabels(ResolveNestedChildren(node, level), ChildLevel(level));
    }
  }

  lemma {:induction false} NormalizedAllLabels(nodes: seq<RawNode>, level: Level)
    ensures Reports(FirstComplaint(ReachedAll(nodes, level)), NormalizeAll(nodes, level))
    ensures NormalizeAll(nodes, level).Ok? ==> LabelsOf(NormalizeAll(nodes, level).value) == ReachedAll(nodes, level)
    decreases Rank(level), 1, nodes
  {
    if nodes != [] {
      NormalizedLabels(nodes[0], level);
      NormalizedAllLabels(nodes[1..], level);
      FirstComplaintAppend(Reached(nodes[0], level), ReachedAll(nodes[1..], level));
      if NormalizeAll(nodes, level).Ok? {
        assert NormalizeAll(nodes, level).value[1..] == NormalizeAll(nodes[1..], level).value;
      }
    }
  }

  // ---- what an accepted dataset is like ----

  /** Levels go down by one, villages are leaves, names and codes are trimmed and not empty. */
  predicate Proper(t: Tree, level: Level)
    decreases t, 1
  {
    && t.level == level && t.name != "" && t.code != "" && Trim(t.name) == t.name && Trim(t.code) == t.code
    && (if level == VILLAGE then t.children == [] else ProperAll(t.children, ChildLevel(level)))
  }

  predicate ProperAll(ts: seq<Tree>, level: Level)
    decreases ts, 0
  {
    ts == [] || (Proper(ts[0], level) && ProperAll(ts[1..], level))
  }

  lemma {:induction false} NormalizedIsProper(node: RawNode, level: Level)
    requires NormalizeNestedNode(node, level).Ok?
    ensures Proper(NormalizeNestedNode(node, level).value, level)
    decreases Rank(level), 0
  {
    if node.name.Some? {
      TrimIdempotent(node.name.value);
    }
    if node.code.Some? {
      TrimIdempotent(node.code.value);
    }
    hide Trim;
    if level != VILLAGE {
      NormalizedAllAreProper(ResolveNestedChildren(node, level), ChildLevel(level));
    }
  }

  lemma {:induction false} NormalizedAllAreProper(nodes: seq<RawNode>, level: Level)
    requires NormalizeAll(nodes, level).Ok?
    ensures ProperAll(NormalizeAll(nodes, level).value, level)
    decreases Rank(level), 1, nodes
  {
    if nodes != [] {
      NormalizedIsProper(nodes[0], level);
      NormalizedAllAreProper(nodes[1..], level);
      assert NormalizeAll(nodes, level).value[1..] == NormalizeAll(nodes[1..], level).value;
    }
  }

  /** The nodes have the same labels and the same list of children under the key for this level. */
  predicate SameKeyed(node: RawNode, other: RawNode, level: Level) {
    && node.name == other.name && node.code == other.code
    && match level
       case PROVINCE => node.districts.Some? && node.districts == other.districts
       case DISTRICT => node.sectors.Some? && node.sectors == other.sectors
       case SECTOR => node.cells.Some? && node.cells == other.cells
       case CELL => node.villages.Some? && node.villages == other.villages
       case VILLAGE => true
  }

  /** Where a list stands under the key for the level, nothing else in the node is looked at for children. */
  lemma KeyedListDecides(node: RawNode, other: RawNode, level: Level)
    requires SameKeyed(node, other, level)
    ensures NormalizeNestedNode(node, level) == NormalizeNestedNode(other, level)
  {
    hide TrimValue, NormalizeAll;
    assert level != VILLAGE ==> ResolveNestedChildren(node, level) == ResolveNestedChildren(other, level);
  }

  // ---- writing a hierarchy and reading it back ----

  /** A tree as a nested dataset: with its children under the key of their level, or under the generic key. */
  function Render(t: Tree, keyed: bool): RawNode
    decreases t, 1
  {
    var children := RenderAll(t.children, keyed);
    var none: Option<seq<RawNode>> := None;
    var own := Some(children);
    if !keyed then RawNode(Some(t.name), Some(t.code), None, own, None, None, None, None)
    else match t.level
         case PROVINCE => RawNode(Some(t.name), Some(t.code), None, none, own, none, none, none)
         case DISTRICT => RawNode(Some(t.name), Some(t.code), None, none, none, own, none, none)
         case SECTOR => RawNode(Some(t.name), Some(t.code), None, none, none, none, own, none)
         case _ => RawNode(Some(t.name), Some(t.code), None, none, none, none, none, own)
  }

  function RenderAll(ts: seq<Tree>, keyed: bool): seq<RawNode>
    decreases ts, 0
  {
    if ts == [] then [] else [Render(ts[0], keyed)] + RenderAll(ts[1..], keyed)
  }

  /** Every proper hierarchy, written in either style, is read back as it was: reading is onto. */
  lemma {:induction false} ReadsBack(t: Tree, keyed: bool)
    requires Proper(t, t.level)
    ensures NormalizeNestedNode(Render(t, keyed), t.level) == Ok(t)
    decreases t, 1
  {
    hide Trim;
    if t.level != VILLAGE {
      ReadsBackAll(t.children, ChildLevel(t.level), keyed);
      assert ResolveNestedChildren(Render(t, keyed), t.level) == RenderAll(t.children, keyed);
    }
  }

  lemma {:induction false} ReadsBackAll(ts: seq<Tree>, level: Level, keyed: bool)
    requires ProperAll(ts, level)
    ensures NormalizeAll(RenderAll(ts, keyed), level) == Ok(ts)
    decreases ts, 0
  {
    hide Render, NormalizeNestedNode;
    if ts != [] {
      ProperLevel(ts[0], level);
      ReadsBack(ts[0], keyed);
      ReadsBackAll(ts[1..], level, keyed);
      assert RenderAll(ts, keyed)[1..] == RenderAll(ts[1..], keyed);
      assert [ts[0]] + ts[1..] == ts;
    }
  }

  // ---- through the seeder ----

  /** A hierarchy of proper trees, each from its own level down. */
  predicate ProperRoots(ts: seq<Tree>) {
    ts == [] || (Proper(ts[0], ts[0].level) && ProperRoots(ts[1..]))
  }

  /** The labels of all nodes reached from the roots, and what the roots' levels are. */
  function ReachedRoots(nodes: seq<RawNode>): seq<Label> {
    if nodes == [] then [] else Reached(nodes[0], RootLevel(nodes[0])) + ReachedRoots(nodes[1..])
  }

  lemma {:induction false} NormalizedRoots(nodes: seq<RawNode>)
    ensures Reports(FirstComplaint(ReachedRoots(nodes)), NormalizeRoots(nodes))
    ensures NormalizeRoots(nodes).Ok? ==>
              var ts := NormalizeRoots(nodes).value;
              && ProperRoots(ts) && LabelsOf(ts) == ReachedRoots(nodes) && |ts| == |nodes|
              && forall i :: 0 <= i < |nodes| ==> ts[i].level == RootLevel(nodes[i])
  {
    hide NormalizeNestedNode, Reached, Labels, Proper, RootLevel;
    if nodes != [] {
      var level := RootLevel(nodes[0]);
      NormalizedLabels(nodes[0], level);
      NormalizedRoots(nodes[1..]);
      FirstComplaintAppend(Reached(nodes[0], level), ReachedRoots(nodes[1..]));
      if NormalizeRoots(nodes).Ok? {
        NormalizedIsProper(nodes[0], level);
        ProperLevel(NormalizeNestedNode(nodes[0], level).value, level);
        assert NormalizeRoots(nodes).value[1..] == NormalizeRoots(nodes[1..]).value;
      }
    }
  }

  lemma ProperLevel(t: Tree, level: Level)
    requires Proper(t, level)
    ensures t.level == level
  {
  }

  predicate ProvinceRoots(nodes: seq<RawNode>) {
    forall i :: 0 <= i < |nodes| ==> RootLevel(nodes[i]) == PROVINCE
  }

  lemma AllRootsProvinces(nodes: seq<RawNode>)
    requires ProvinceRoots(nodes)
    ensures forall i :: 0 <= i < |nodes| ==> RootLevel(nodes[i]) == PROVINCE
  {
  }

  function LabelCode(l: Label): string {
    l.code
  }

  /** Seeding keeps all of a proper tree, and needs the codes of its labels. */
  lemma {:induction false} ProperTreeKept(t: Tree, level: Level)
    requires Proper(t, level)
    ensures Kept(t) == t && VillageLeaves(t) && StoredCodes(t) == Map(LabelCode, Labels(t))
    decreases t, 1
  {
    hide Trim;
    var own := Label(t.level, t.name, t.code);
    if level != VILLAGE {
      ProperKept(t.children, ChildLevel(level));
    }
    MapAppend(LabelCode, [own], LabelsOf(t.children));
  }

  lemma {:induction false} ProperKept(ts: seq<Tree>, level: Level)
    requires ProperAll(ts, level)
    ensures KeptAll(ts) == ts && VillageLeavesAll(ts) && StoredCodesAll(ts) == Map(LabelCode, LabelsOf(ts))
    decreases ts, 0
  {
    hide Proper, Kept, VillageLeaves, StoredCodes, Labels;
    if ts != [] {
      ProperTreeKept(ts[0], level);
      ProperKept(ts[1..], level);
      MapAppend(LabelCode, Labels(ts[0]), LabelsOf(ts[1..]));
      assert [ts[0]] + ts[1..] == ts;
    }
  }

  lemma {:induction false} ProperRootsKept(ts: seq<Tree>)
    requires ProperRoots(ts)
    ensures KeptAll(ts) == ts && VillageLeavesAll(ts) && StoredCodesAll(ts) == Map(LabelCode, LabelsOf(ts))
  {
    hide Proper, Kept, VillageLeaves, StoredCodes, Labels;
    if ts != [] {
      ProperTreeKept(ts[0], ts[0].level);
      ProperRootsKept(ts[1..]);
      MapAppend(LabelCode, Labels(ts[0]), LabelsOf(ts[1..]));
      assert [ts[0]] + ts[1..] == ts;
    }
  }

  /** The table takes an accepted nested dataset exactly when no two nodes reached have the same code. */
  lemma NestedSeedsIff(nodes: seq<RawNode>)
    requires NormalizeRoots(nodes).Ok?
    ensures NoDup(StoredCodesAll(NormalizeRoots(nodes).value)) <==> NoDup(Map(LabelCode, ReachedRoots(nodes)))
  {
    hide *;
    NormalizedRoots(nodes);
    ProperRootsKept(NormalizeRoots(nodes).value);
  }

  /**
   * An accepted nested dataset, seeded and rebuilt from the stored rows in any order, comes back up to the
   * order of siblings, except for roots that the dataset puts at another level than province; those are in the
   * table and its level counts, which agree with the counts made before seeding, but not in the forest.
   */
  lemma NestedRoundTrip(order: KeyOrder, uuid: nat -> Id, table: seq<Row>, trail: seq<Entry>,
                        nodes: seq<RawNode>, units: seq<Unit>)
    requires TotalPreorder(order) && Injective(uuid) && NormalizeRoots(nodes).Ok?
    requires Seeded(uuid, table, trail, NormalizeRoots(nodes).value)
    requires multiset(units) == multiset(ActiveUnits(table))
    ensures var tree := NormalizeRoots(nodes).value;
            exists gs :: EraseAll(gs) == tree && DistinctIds(FlattenAll(gs, None))
                         && SameForest(Forest(order, units), Provinces(gs))
                         && (ProvinceRoots(nodes) ==> Provinces(gs) == gs)
    ensures SiblingsSorted(order, Forest(order, units))
    ensures forall level: Level :: CountLevel(units, level) == CountAll(NormalizeRoots(nodes).value, level)
  {
    var tree := NormalizeRoots(nodes).value;
    hide *;
    NormalizedRoots(nodes);
    ProperRootsKept(tree);
    SeedThenRebuild(order, uuid, table, trail, tree, units);
    NestedComesBack(order, nodes, units);
  }

  lemma NestedComesBack(order: KeyOrder, nodes: seq<RawNode>, units: seq<Unit>)
    requires NormalizeRoots(nodes).Ok? && exists gs :: Rebuilt(order, units, NormalizeRoots(nodes).value, gs)
    ensures var tree := NormalizeRoots(nodes).value;
            exists gs :: EraseAll(gs) == tree && DistinctIds(FlattenAll(gs, None))
                         && SameForest(Forest(order, units), Provinces(gs))
                         && (ProvinceRoots(nodes) ==> Provinces(gs) == gs)
  {
    var tree := NormalizeRoots(nodes).value;
    hide *;
    NormalizedRoots(nodes);
    ProperRootsKept(tree);
    var gs :| Rebuilt(order, units, tree, gs);
    RebuiltFacts(order, units, tree, gs);
    ErasedLevels(gs, tree);
    if ProvinceRoots(nodes) {
      AllRootsProvinces(nodes);
      AllProvinces(gs);
    }
  }
}

/**
 * The row loop over mutable nodes: an insertion-ordered province map, and below it child lists that
 * are searched by code and pushed to in place.
 */
module FlatHierarchyBuilder {
  import opened Wrappers
  import opened LocationModel
  import opened LocationSeeder
  import opened FlatHierarchy

  class LocationNode {
    const name: string
    const code: string
    const level: Level
    ghost const path: Path
    var children: seq<LocationNode>

    constructor (name: string, code: string, level: Level, ghost path: Path)
      ensures this.name == name && this.code == code && this.level == level && this.path == path && children == []
    {
      this.name, this.code, this.level, this.path := name, code, level, path;
      children := [];
    }
  }

  type Arena = map<Path, LocationNode>

  /** The references are the nodes below p with these codes, in order. */
  ghost predicate Refs(arena: Arena, p: Path, codes: seq<string>, ns: seq<LocationNode>) {
    && |ns| == |codes|
    && forall i :: 0 <= i < |ns| ==> ns[i].code == codes[i] && IsNode(arena, p + [codes[i]], ns[i])
  }

  ghost predicate IsNode(arena: Arena, q: Path, n: LocationNode) {
    q in arena && arena[q] == n
  }

  ghost predicate NodeShape(arena: Arena, o: Outline, q: Path)
    requires q in arena
    reads arena[q]
  {
    var n := arena[q];
    && n.path == q && 1 <= |q| <= 5 && q in o.names && q in o.kids
    && n.code == q[|q| - 1] && n.name == o.names[q] && n.level == LEVELS[|q| - 1]
    && Refs(arena, q, o.kids[q], n.children)
  }

  /** The mutable nodes realise the outline: one node per path, in the outline's order. */
  ghost predicate Shape(arena: Arena, provinces: seq<LocationNode>, o: Outline)
    reads arena.Values
  {
    && (forall q :: q in arena <==> q in o.names)
    && (forall q :: q in arena ==> NodeShape(arena, o, q))
    && [] in o.kids && Refs(arena, [], o.kids[[]], provinces)
  }

  /** `children.find((node) => node.code === code)` */
  method FindChild(children: seq<LocationNode>, code: string) returns (r: Option<LocationNode>)
    ensures r.None? ==> forall i :: 0 <= i < |children| ==> children[i].code != code
    ensures r.Some? ==> exists i :: 0 <= i < |children| && children[i] == r.value && r.value.code == code &&
                                    forall j :: 0 <= j < i ==> children[j].code != code
  {
    for k := 0 to |children|
      invariant forall i :: 0 <= i < k ==> children[i].code != code
    {
      if children[k].code == code {
        return Some(children[k]);
      }
    }
    return None;
  }

  lemma FoundByCode(arena: Arena, p: Path, codes: seq<string>, ns: seq<LocationNode>, n: LocationNode)
    requires Refs(arena, p, codes, ns) && n in ns
    ensures n.code in codes && IsNode(arena, p + [n.code], n)
  {
    var i :| 0 <= i < |ns| && ns[i] == n;
    assert codes[i] == n.code;
  }

  lemma NotFoundByCode(arena: Arena, p: Path, codes: seq<string>, ns: seq<LocationNode>, code: string)
    requires Refs(arena, p, codes, ns) && forall i :: 0 <= i < |ns| ==> ns[i].code != code
    ensures code !in codes
  {
  }

  /** A new node changes no reference list. */
  lemma RefsExtend(arena: Arena, q: Path, n: LocationNode, p: Path, codes: seq<string>, ns: seq<LocationNode>)
    requires Refs(arena, p, codes, ns) && q !in arena
    ensures Refs(arena[q := n], p, codes, ns)
  {
    forall i | 0 <= i < |ns|
      ensures IsNode(arena[q := n], p + [codes[i]], ns[i])
    {
      assert IsNode(arena, p + [codes[i]], ns[i]);
    }
  }

  /** Before the push: the new node is in the arena, but not in its parent's list yet. */
  lemma ShapeWithSpare(arena: Arena, provinces: seq<LocationNode>, o: Outline, q: Path, n: LocationNode, r: Path)
    requires Shape(arena, provinces, o) && q !in arena && r in arena
    ensures NodeShape(arena[q := n], o, r)
  {
    assert NodeShape(arena, o, r);
    RefsExtend(arena, q, n, r, o.kids[r], arena[r].children);
  }

  lemma RefsPush(arena: Arena, p: Path, codes: seq<string>, ns: seq<LocationNode>, n: LocationNode)
    requires Refs(arena, p, codes, ns) && IsNode(arena, p + [n.code], n)
    ensures Refs(arena, p, codes + [n.code], ns + [n])
  {
  }

  lemma NoRefs(arena: Arena, p: Path)
    ensures Refs(arena, p, [], [])
  {
  }

  method PushNew(parent: LocationNode, code: string, name: string, level: Level,
                 ghost arena: Arena, ghost provinces: seq<LocationNode>, ghost o: Outline)
    returns (child: LocationNode, ghost arena': Arena)
    requires Shape(arena, provinces, o)
    requires IsNode(arena, parent.path, parent) && |parent.path| < 5 && level == LEVELS[|parent.path|]
    requires code !in o.kids[parent.path] && parent.path + [code] !in o.names && parent.path + [code] !in o.kids
    modifies parent
    ensures Shape(arena', provinces, AddChild(o, parent.path, code, name))
    ensures forall q :: q in arena ==> IsNode(arena', q, arena[q])
    ensures forall q :: q in arena' && q !in arena ==> fresh(arena'[q])
    ensures IsNode(arena', parent.path + [code], child) && child.path == parent.path + [code]
  {
    ghost var p, q := parent.path, parent.path + [code];
    ghost var o' := AddChild(o, p, code, name);
    child := new LocationNode(name, code, level, q);
    arena' := arena[q := child];
    forall r | r in arena
      ensures NodeShape(arena', o, r)
    {
      ShapeWithSpare(arena, provinces, o, q, child, r);
    }
    RefsExtend(arena, q, child, [], o.kids[[]], provinces);
    RefsPush(arena', p, o.kids[p], parent.children, child);
    hide Refs;
    parent.children := parent.children + [child];
    forall r | r in arena'
      ensures NodeShape(arena', o', r)
    {
      if r == q {
        NoRefs(arena', q);
      } else if r != p {
        assert arena[r].path == r;
        ShapeElsewhere(arena', o, p, code, name, r);
      }
    }
  }

  lemma ShapeElsewhere(arena: Arena, o: Outline, p: Path, code: string, name: string, r: Path)
    requires r in arena && NodeShape(arena, o, r) && p in o.kids && r != p && r != p + [code]
    ensures NodeShape(arena, AddChild(o, p, code, name), r)
  {
  }

  method FindOrPush(parent: LocationNode, code: string, name: string, level: Level,
                    ghost arena: Arena, ghost provinces: seq<LocationNode>, ghost o: Outline)
    returns (child: LocationNode, ghost arena': Arena)
    requires WellFormed(o) && Shape(arena, provinces, o)
    requires IsNode(arena, parent.path, parent) && |parent.path| < 5 && level == LEVELS[|parent.path|]
    requires parent.path in o.kids
    modifies parent
    ensures Shape(arena', provinces, AddChild(o, parent.path, code, name))
    ensures forall q :: q in arena ==> IsNode(arena', q, arena[q])
    ensures forall q :: q in arena' && q !in arena ==> fresh(arena'[q])
    ensures IsNode(arena', parent.path + [code], child) && child.path == parent.path + [code]
  {
    hide WellFormed, Refs, Shape;
    ghost var p := parent.path;
    ShapeAt(arena, provinces, o, p);
    var found := FindChild(parent.children, code);
    if found.Some? {
      child, arena' := found.value, arena;
      FoundByCode(arena, p, o.kids[p], parent.children, child);
      ShapeAt(arena, provinces, o, p + [code]);
    } else {
      NotFoundByCode(arena, p, o.kids[p], parent.children, code);
      AddChildWellFormed(o, p, code, name);
      NotNamed(o, p + [code]);
      child, arena' := PushNew(parent, code, name, level, arena, provinces, o);
    }
  }

  lemma ShapeAt(arena: Arena, provinces: seq<LocationNode>, o: Outline, p: Path)
    requires Shape(arena, provinces, o) && p in arena
    ensures arena[p].path == p && p in o.kids && Refs(arena, p, o.kids[p], arena[p].children)
  {
    assert NodeShape(arena, o, p);
  }

  lemma NotNamed(o: Outline, q: Path)
    requires WellFormed(o) && q !in o.kids
    ensures q !in o.names
  {
  }

  /** The province map holds the root nodes by code; a JavaScript map also remembers insertion order. */
  ghost predicate MapShape(arena: Arena, provinceMap: map<string, LocationNode>, o: Outline) {
    && [] in o.kids
    && (forall c :: c in provinceMap <==> c in o.kids[[]])
    && (forall c :: c in provinceMap ==> IsNode(arena, [] + [c], provinceMap[c]))
  }

  lemma ProvinceKnown(arena: Arena, provinceMap: map<string, LocationNode>, o: Outline, code: string, name: string)
    requires MapShape(arena, provinceMap, o) && code in provinceMap
    ensures AddChild(o, [], code, name) == o && IsNode(arena, [] + [code], provinceMap[code])
  {
  }

  lemma ProvinceUnknown(arena: Arena, provinces: seq<LocationNode>, provinceMap: map<string, LocationNode>,
      o: Outline, code: string)
    requires WellFormed(o) && Shape(arena, provinces, o) && MapShape(arena, provinceMap, o) && code !in provinceMap
    ensures [] + [code] !in o.names && [] + [code] !in arena && [] in o.kids && code !in o.kids[[]]
  {
    AddChildWellFormed(o, [], code, "");
    NotNamed(o, [] + [code]);
    hide WellFormed;
  }

  /** `provinceMap.get(code)`, and `set` when there is none yet. */
  method GetOrSetProvince(provinceMap: map<string, LocationNode>, provinces: seq<LocationNode>,
                          code: string, name: string, ghost arena: Arena, ghost o: Outline)
    returns (province: LocationNode, provinceMap': map<string, LocationNode>, provinces': seq<LocationNode>,
             ghost arena': Arena)
    requires WellFormed(o) && Shape(arena, provinces, o) && MapShape(arena, provinceMap, o)
    ensures Shape(arena', provinces', AddChild(o, [], code, name))
    ensures MapShape(arena', provinceMap', AddChild(o, [], code, name))
    ensures forall q :: q in arena ==> IsNode(arena', q, arena[q])
    ensures forall q :: q in arena' && q !in arena ==> fresh(arena'[q])
    ensures IsNode(arena', [] + [code], province) && province.path == [] + [code]
  {
    hide WellFormed, Shape, MapShape, AddChild;
    if code in provinceMap {
      ProvinceKnown(arena, provinceMap, o, code, name);
      province, provinceMap', provinces', arena' := provinceMap[code], provinceMap, provinces, arena;
      ShapeAt(arena, provinces, o, [] + [code]);
    } else {
      ghost var q: Path := [] + [code];
      ProvinceUnknown(arena, provinces, provinceMap, o, code);
      province := new LocationNode(name, code, PROVINCE, q);
      provinceMap', provinces', arena' := provinceMap[code := province], provinces + [province], arena[q := province];
      ProvinceAdded(arena, provinces, o, code, name, province);
      MapExtend(arena, provinceMap, o, code, name, province);
    }
  }

  lemma ProvinceAdded(arena: Arena, provinces: seq<LocationNode>, o: Outline, code: string, name: string,
                      n: LocationNode)
    requires Shape(arena, provinces, o) && [] + [code] !in o.names && code !in o.kids[[]]
    requires n.name == name && n.code == code && n.level == PROVINCE && n.path == [] + [code] && n.children == []
    ensures Shape(arena[[] + [code] := n], provinces + [n], AddChild(o, [], code, name))
  {
    var q: Path := [] + [code];
    var arena', o' := arena[q := n], AddChild(o, [], code, name);
    RefsExtend(arena, q, n, [], o.kids[[]], provinces);
    RefsPush(arena', [], o.kids[[]], provinces, n);
    NoRefs(arena', q);
    forall r | r in arena
      ensures NodeShape(arena', o', r)
    {
      ShapeWithSpare(arena, provinces, o, q, n, r);
    }
    hide Refs;
    assert NodeShape(arena', o', q);
  }

  lemma MapExtend(arena: Arena, provinceMap: map<string, LocationNode>, o: Outline, code: string, name: string,
                  n: LocationNode)
    requires MapShape(arena, provinceMap, o) && code !in o.kids[[]]
    ensures MapShape(arena[[] + [code] := n], provinceMap[code := n], AddChild(o, [], code, name))
  {
    forall c | c in provinceMap
      ensures [] + [c] != [] + [code]
    {
      assert ([] + [c])[0] == c && ([] + [code])[0] == code;
    }
  }

  /** Deeper levels leave the provinces as they are. */
  lemma MapKept(arena: Arena, arena': Arena, provinceMap: map<string, LocationNode>, o: Outline, p: Path,
                code: string, name: string)
    requires MapShape(arena, provinceMap, o) && p in o.kids && p != []
    requires forall q :: q in arena ==> IsNode(arena', q, arena[q])
    ensures MapShape(arena', provinceMap, AddChild(o, p, code, name))
  {
    forall c | c in provinceMap
      ensures IsNode(arena', [] + [c], provinceMap[c])
    {
      assert IsNode(arena, [] + [c], provinceMap[c]);
    }
  }

  /** The row's path exists down to depth j, and `node` is its end. */
  ghost predicate Reached(arena: Arena, provinceMap: map<string, LocationNode>, provinces: seq<LocationNode>,
                          o: Outline, row: FlatRecord, j: nat, node: LocationNode)
    reads arena.Values
  {
    && WellFormed(o) && 1 <= j <= 5
    && Shape(arena, provinces, AddPath(o, row, j))
    && MapShape(arena, provinceMap, AddPath(o, row, j))
    && IsNode(arena, Codes(row)[..j], node) && node.path == Codes(row)[..j]
  }

  /** One level: the child with the row's code at depth j, found or pushed. */
  method Descend(parent: LocationNode, code: string, name: string, level: Level, row: FlatRecord, ghost j: nat,
                 provinceMap: map<string, LocationNode>, provinces: seq<LocationNode>,
                 ghost arena: Arena, ghost o: Outline)
    returns (child: LocationNode, ghost arena': Arena)
    requires 2 <= j <= 5 && Reached(arena, provinceMap, provinces, o, row, j - 1, parent)
    requires code == Codes(row)[j - 1] && name == Names(row)[j - 1] && level == LEVELS[j - 1]
    modifies parent
    ensures Reached(arena', provinceMap, provinces, o, row, j, child)
    ensures forall q :: q in arena ==> IsNode(arena', q, arena[q])
    ensures forall q :: q in arena' && q !in arena ==> fresh(arena'[q])
  {
    hide WellFormed, Shape, MapShape, AddChild, Codes, Names;
    ghost var above := AddPath(o, row, j - 1);
    child, arena' := FindOrPush(parent, code, name, level, arena, provinces, above);
    assert Codes(row)[..j] == Codes(row)[..j - 1] + [code];
    MapKept(arena, arena', provinceMap, above, Codes(row)[..j - 1], code, name);
  }

  lemma FirstStep(o: Outline, row: FlatRecord)
    requires WellFormed(o)
    ensures [] in o.kids && AddPath(o, row, 1) == AddChild(o, [], Codes(row)[0], Names(row)[0])
    ensures [] + [Codes(row)[0]] == Codes(row)[..1]
  {
    hide Codes, Names;
    assert Codes(row)[..0] == [];
    assert AddPath(o, row, 0) == o;
  }

  /** One complete row: province, district, sector, cell and village, each found or created. */
  method AddRecord(row: FlatRecord, provinceMap: map<string, LocationNode>, provinces: seq<LocationNode>,
                   ghost arena: Arena, ghost o: Outline)
    returns (provinceMap': map<string, LocationNode>, provinces': seq<LocationNode>, ghost arena': Arena)
    requires WellFormed(o) && Shape(arena, provinces, o) && MapShape(arena, provinceMap, o) && Complete(row)
    modifies arena.Values
    ensures Shape(arena', provinces', AddRow(o, row)) && MapShape(arena', provinceMap', AddRow(o, row))
    ensures forall q :: q in arena ==> IsNode(arena', q, arena[q])
    ensures forall q :: q in arena' && q !in arena ==> fresh(arena'[q])
  {
    hide Complete, Codes, Names, WellFormed, Shape, MapShape, AddChild, AddPath;
    var codes, names := Codes(row), Names(row);
    FirstStep(o, row);
    var province;
    province, provinceMap', provinces', arena' :=
        GetOrSetProvince(provinceMap, provinces, codes[0], names[0], arena, o);
    var district, sector, cell, village;
    district, arena' := Descend(province, codes[1], names[1], DISTRICT, row, 2, provinceMap', provinces', arena', o);
    sector, arena' := Descend(district, codes[2], names[2], SECTOR, row, 3, provinceMap', provinces', arena', o);
    cell, arena' := Descend(sector, codes[3], names[3], CELL, row, 4, provinceMap', provinces', arena', o);
    village, arena' := Descend(cell, codes[4], names[4], VILLAGE, row, 5, provinceMap', provinces', arena', o);
  }

  /** The mutable node n, through its child lists, is the tree t. */
  ghost predicate Denotes(heap: set<LocationNode>, n: LocationNode, t: Tree)
    reads heap
    decreases t
  {
    && n in heap && n.name == t.name && n.code == t.code && n.level == t.level
    && |n.children| == |t.children|
    && forall i :: 0 <= i < |t.children| ==> Denotes(heap, n.children[i], t.children[i])
  }

  lemma {:induction false} NodeDenotes(arena: Arena, provinces: seq<LocationNode>, o: Outline, rows: seq<FlatRecord>,
                                       p: Path)
    requires WellFormed(o) && Shape(arena, provinces, o) && Reads(o, rows) && p in arena
    ensures 1 <= |p| <= 5 && Denotes(arena.Values, arena[p], TreeOf(rows, p))
    decreases 5 - |p|, 1, 0
  {
    hide NameAt, ChildCodes, Known, WellFormed, Shape, Denotes, Reads, Refs;
    NodeFacts(arena, provinces, o, rows, p);
    if |p| < 5 {
      NodesDenote(arena, provinces, o, rows, p, o.kids[p], arena[p].children);
    }
    DenotesNode(arena.Values, arena[p], TreeOf(rows, p));
  }

  lemma NodeFacts(arena: Arena, provinces: seq<LocationNode>, o: Outline, rows: seq<FlatRecord>, p: Path)
    requires WellFormed(o) && Shape(arena, provinces, o) && Reads(o, rows) && p in arena
    ensures 1 <= |p| <= 5 && p in o.kids && o.kids[p] == ChildCodes(rows, p) && (|p| == 5 ==> o.kids[p] == [])
    ensures var n := arena[p];
            && n in arena.Values && n.name == NameAt(rows, p) && n.code == p[|p| - 1] && n.level == LEVELS[|p| - 1]
            && |n.children| == |o.kids[p]| && Refs(arena, p, o.kids[p], n.children)
  {
    assert NodeShape(arena, o, p) && GoodPath(o, p);
    hide ChildCodes, NameAt, Known;
  }

  lemma DenotesNode(heap: set<LocationNode>, n: LocationNode, t: Tree)
    requires n in heap && n.name == t.name && n.code == t.code && n.level == t.level
    requires |n.children| == |t.children|
    requires forall i :: 0 <= i < |t.children| ==> Denotes(heap, n.children[i], t.children[i])
    ensures Denotes(heap, n, t)
  {
  }

  lemma {:induction false} NodesDenote(arena: Arena, provinces: seq<LocationNode>, o: Outline, rows: seq<FlatRecord>,
                                       p: Path, codes: seq<string>, ns: seq<LocationNode>)
    requires WellFormed(o) && Shape(arena, provinces, o) && Reads(o, rows)
    requires |p| < 5 && Refs(arena, p, codes, ns)
    ensures forall i :: 0 <= i < |ns| ==> Denotes(arena.Values, ns[i], TreesOf(rows, p, codes)[i])
    decreases 5 - |p|, 0, |codes|
  {
    hide NameAt, ChildCodes, Known, WellFormed, Shape, Denotes, TreeOf, Reads;
    if codes != [] {
      assert IsNode(arena, p + [codes[0]], ns[0]);
      NodeDenotes(arena, provinces, o, rows, p + [codes[0]]);
      assert Refs(arena, p, codes[1..], ns[1..]) by {
        forall i | 0 <= i < |ns[1..]|
          ensures ns[1..][i].code == codes[1..][i] && IsNode(arena, p + [codes[1..][i]], ns[1..][i])
        {
          assert ns[1..][i] == ns[i + 1] && codes[1..][i] == codes[i + 1];
        }
      }
      NodesDenote(arena, provinces, o, rows, p, codes[1..], ns[1..]);
      forall i | 0 <= i < |ns|
        ensures Denotes(arena.Values, ns[i], TreesOf(rows, p, codes)[i])
      {
        if i > 0 {
          assert ns[i] == ns[1..][i - 1];
        }
      }
    }
  }

  /** The whole fold: the returned roots are the hierarchy that the rows describe. */
  method BuildTreeFromFlatRecords(records: seq<FlatRecord>)
    returns (tree: seq<LocationNode>, ghost arena: Arena)
    ensures |tree| == |HierarchyOf(records)|
    ensures forall i :: 0 <= i < |tree| ==> Denotes(arena.Values, tree[i], HierarchyOf(records)[i])
  {
    hide WellFormed, AddRow, Complete, HierarchyOf;
    var provinceMap: map<string, LocationNode> := map[];
    tree, arena := [], map[];
    NothingYet(arena, provinceMap);
    for k := 0 to |records|
      invariant Shape(arena, tree, OutlineOf(records[..k])) && MapShape(arena, provinceMap, OutlineOf(records[..k]))
      invariant forall q :: q in arena ==> fresh(arena[q])
    {
      NextOutline(records, k);
      if Complete(records[k]) {
        provinceMap, tree, arena := AddRecord(records[k], provinceMap, tree, arena, OutlineOf(records[..k]));
      }
    }
    assert records[..|records|] == records;
    RootsDenote(arena, tree, records);
  }

  lemma NothingYet(arena: Arena, provinceMap: map<string, LocationNode>)
    requires arena == map[] && provinceMap == map[]
    ensures Shape(arena, [], OutlineOf([])) && MapShape(arena, provinceMap, OutlineOf([]))
  {
  }

  lemma NextOutline(records: seq<FlatRecord>, k: nat)
    requires k < |records|
    ensures OutlineOf(records[..k + 1]) == AddRow(OutlineOf(records[..k]), records[k])
    ensures !Complete(records[k]) ==> OutlineOf(records[..k + 1]) == OutlineOf(records[..k])
  {
    assert records[..k + 1][..k] == records[..k];
  }

  lemma RootsDenote(arena: Arena, provinces: seq<LocationNode>, records: seq<FlatRecord>)
    requires Shape(arena, provinces, OutlineOf(records))
    ensures |provinces| == |HierarchyOf(records)|
    ensures forall i :: 0 <= i < |provinces| ==> Denotes(arena.Values, provinces[i], HierarchyOf(records)[i])
  {
    var o := OutlineOf(records);
    OutlineReads(records);
    assert o.kids[[]] == ChildCodes(records, []);
    hide OutlineOf, ChildCodes, WellFormed, Reads;
    NodesDenote(arena, provinces, o, records, [], o.kids[[]], provinces);
  }
}

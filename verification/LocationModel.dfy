/** The administrative hierarchy: five levels, stored units and the trees built from them. */
module LocationModel {
  import opened Wrappers

  type Id = string

  datatype Level = PROVINCE | DISTRICT | SECTOR | CELL | VILLAGE

  /** The columns of a unit that a tree node shows. */
  datatype Info = Info(id: Id, name: string, level: Level, code: Option<string>)

  /** A stored administrative unit. */
  datatype Unit = Unit(info: Info, parentId: Option<Id>)

  /** A tree node of the location graph, children included. */
  datatype GraphTree = GraphTree(info: Info, children: seq<GraphTree>)

  predicate IsRoot(u: Unit) {
    u.parentId.None? && u.info.level == PROVINCE
  }

  ghost predicate DistinctIds(units: seq<Unit>) {
    forall i, j :: 0 <= i < j < |units| ==> units[i].info.id != units[j].info.id
  }

  /** The units of a tree in preorder, each pointing at its tree parent. */
  function Flatten(t: GraphTree, parentId: Option<Id>): (rows: seq<Unit>)
    decreases t, 1
  {
    [Unit(t.info, parentId)] + FlattenAll(t.children, Some(t.info.id))
  }

  function FlattenAll(ts: seq<GraphTree>, parentId: Option<Id>): (rows: seq<Unit>)
    decreases ts, 0
  {
    if ts == [] then [] else Flatten(ts[0], parentId) + FlattenAll(ts[1..], parentId)
  }

  /** The stored unit with a given id, if there is one. */
  ghost function Find(units: seq<Unit>, id: Id): (r: Option<Unit>)
    ensures r.Some? ==> r.value in units && r.value.info.id == id
    ensures r.None? ==> forall u :: u in units ==> u.info.id != id
  {
    if exists u :: u in units && u.info.id == id then
      var u :| u in units && u.info.id == id;
      Some(u)
    else None
  }

  lemma FindUnique(units: seq<Unit>, u: Unit)
    requires DistinctIds(units) && u in units
    ensures Find(units, u.info.id) == Some(u)
  {
  }
}

/**
 * Seeding a hierarchy into parent-pointer rows: a preorder walk that saves inner nodes at once and
 * villages through a bounded buffer. Generated ids come from an injective generator. The table has a
 * unique index on codes, so a repeated code makes an insert fail and the whole transaction roll back.
 */
module LocationSeeder {
  import opened Wrappers
  import opened Sequences
  import opened Text
  import opened LocationModel

  const VILLAGE_BATCH_SIZE: nat := 1000

  /** A node of the in-memory hierarchy, which has no id yet. */
  datatype Tree = Tree(name: string, code: string, level: Level, children: seq<Tree>)

  /** A row about to be inserted. */
  datatype Draft = Draft(name: string, code: string, level: Level, isActive: bool, parentId: Option<Id>)

  /** A stored row. */
  datatype Row = Row(unit: Unit, isActive: bool)

  /** A visited node: its draft, and its id once it is stored. */
  datatype Entry = Entry(id: Option<Id>, draft: Draft)

  function DraftOf(node: Tree, parentId: Option<Id>): Draft {
    Draft(Trim(node.name), Trim(node.code), node.level, true, parentId)
  }

  function RowOf(id: Id, d: Draft): Row {
    Row(Unit(Info(id, d.name, d.level, Some(d.code)), d.parentId), d.isActive)
  }

  /** Number of rows a tree needs; what hangs below a village is never stored. */
  function Size(t: Tree): nat
    decreases t, 1
  {
    if t.level == VILLAGE then 1 else 1 + SizeAll(t.children)
  }

  function SizeAll(ts: seq<Tree>): nat
    decreases ts, 0
  {
    if ts == [] then 0 else Size(ts[0]) + SizeAll(ts[1..])
  }

  /** The codes a tree needs, parents before children. */
  function StoredCodes(t: Tree): seq<string>
    decreases t, 1
  {
    [Trim(t.code)] + if t.level == VILLAGE then [] else StoredCodesAll(t.children)
  }

  function StoredCodesAll(ts: seq<Tree>): seq<string>
    decreases ts, 0
  {
    if ts == [] then [] else StoredCodes(ts[0]) + StoredCodesAll(ts[1..])
  }

  lemma {:induction false} StoredCodesAppend(ts: seq<Tree>, us: seq<Tree>)
    ensures StoredCodesAll(ts + us) == StoredCodesAll(ts) + StoredCodesAll(us)
  {
    if ts == [] {
      assert ts + us == us;
    } else {
      TailOfAppend(ts, us);
      StoredCodesAppend(ts[1..], us);
      Assoc(StoredCodes(ts[0]), StoredCodesAll(ts[1..]), StoredCodesAll(us));
    }
  }

  /** Number of nodes of one level, children included. */
  function CountNodes(t: Tree, level: Level): nat
    decreases t, 1
  {
    (if t.level == level then 1 else 0) + CountAll(t.children, level)
  }

  function CountAll(ts: seq<Tree>, level: Level): nat
    decreases ts, 0
  {
    if ts == [] then 0 else CountNodes(ts[0], level) + CountAll(ts[1..], level)
  }

  lemma {:induction false} CountAllAppend(ts: seq<Tree>, t: Tree, level: Level)
    ensures CountAll(ts + [t], level) == CountAll(ts, level) + CountNodes(t, level)
  {
    if ts == [] {
      assert (ts + [t])[1..] == [];
    } else {
      assert (ts + [t])[1..] == ts[1..] + [t];
      CountAllAppend(ts[1..], t, level);
    }
  }

  /** The record of counters that the level count adds to. */
  class LevelAccumulator {
    var counts: map<Level, nat>

    constructor ()
      ensures forall level: Level :: level in counts && counts[level] == 0
    {
      counts := map[PROVINCE := 0, DISTRICT := 0, SECTOR := 0, CELL := 0, VILLAGE := 0];
      new;
      forall level: Level
        ensures level in counts && counts[level] == 0
      {
        match level { case PROVINCE => case DISTRICT => case SECTOR => case CELL => case VILLAGE => }
      }
    }
  }

  method CountNodesByLevel(nodes: seq<Tree>, accumulator: LevelAccumulator)
    requires forall level: Level :: level in accumulator.counts
    modifies accumulator
    ensures forall level: Level :: level in accumulator.counts
    ensures forall level: Level :: accumulator.counts[level] == old(accumulator.counts)[level] + CountAll(nodes, level)
    decreases nodes
  {
    for i := 0 to |nodes|
      invariant forall level: Level :: level in accumulator.counts
      invariant forall level: Level ::
          accumulator.counts[level] == old(accumulator.counts)[level] + CountAll(nodes[..i], level)
    {
      var node := nodes[i];
      forall level: Level
        ensures CountAll(nodes[..i + 1], level) == CountAll(nodes[..i], level) + CountNodes(node, level)
      {
        CountAllAppend(nodes[..i], node, level);
        assert nodes[..i + 1] == nodes[..i] + [node];
      }
      accumulator.counts := accumulator.counts[node.level := accumulator.counts[node.level] + 1];
      if |node.children| > 0 {
        CountNodesByLevel(node.children, accumulator);
      }
    }
    assert nodes[..|nodes|] == nodes;
  }

  /** The entries are the nodes of one tree in preorder, each pointing at the stored id of its parent. */
  ghost predicate MatchesNode(es: seq<Entry>, t: Tree, parentId: Option<Id>)
    decreases t, 1
  {
    && |es| >= 1
    && es[0].draft == DraftOf(t, parentId)
    && if t.level == VILLAGE then |es| == 1
       else es[0].id.Some? && Matches(es[1..], t.children, es[0].id)
  }

  ghost predicate Matches(es: seq<Entry>, ts: seq<Tree>, parentId: Option<Id>)
    decreases ts, 0
  {
    if ts == [] then es == []
    else
      && |es| >= Size(ts[0])
      && MatchesNode(es[..Size(ts[0])], ts[0], parentId)
      && Matches(es[Size(ts[0])..], ts[1..], parentId)
  }

  /** Drafts visited but not stored yet, in visiting order. */
  function Pending(es: seq<Entry>): seq<Draft> {
    if es == [] then [] else
    (if es[0].id.None? then [es[0].draft] else []) + Pending(es[1..])
  }

  /** Rows stored so far, in visiting order. */
  function Stored(es: seq<Entry>): seq<Row> {
    if es == [] then [] else
    (if es[0].id.Some? then [RowOf(es[0].id.value, es[0].draft)] else []) + Stored(es[1..])
  }

  function FillFirst(es: seq<Entry>, id: Id): seq<Entry> {
    if es == [] then []
    else if es[0].id.None? then [Entry(Some(id), es[0].draft)] + es[1..]
    else [es[0]] + FillFirst(es[1..], id)
  }

  /** The second list is the first with some of the missing ids filled in. */
  ghost predicate Refines(es: seq<Entry>, fs: seq<Entry>) {
    && |es| == |fs|
    && forall i :: 0 <= i < |es| ==> es[i].draft == fs[i].draft && (es[i].id.Some? ==> fs[i].id == es[i].id)
  }

  lemma {:induction false} FillFirstFacts(es: seq<Entry>, id: Id)
    requires Pending(es) != []
    ensures Pending(FillFirst(es, id)) == Pending(es)[1..]
    ensures multiset(Stored(FillFirst(es, id))) == multiset(Stored(es)) + multiset{RowOf(id, Pending(es)[0])}
    ensures Refines(es, FillFirst(es, id))
  {
    var fs := FillFirst(es, id);
    if es[0].id.None? {
      assert fs[1..] == es[1..];
    } else {
      FillFirstFacts(es[1..], id);
      assert fs[1..] == FillFirst(es[1..], id);
      forall i | 0 <= i < |es|
        ensures es[i].draft == fs[i].draft && (es[i].id.Some? ==> fs[i].id == es[i].id)
      {
        if i > 0 {
          assert es[i] == es[1..][i - 1] && fs[i] == fs[1..][i - 1];
        }
      }
    }
  }

  lemma {:induction false} AppendFacts(es: seq<Entry>, e: Entry)
    ensures Pending(es + [e]) == Pending(es) + (if e.id.None? then [e.draft] else [])
    ensures Stored(es + [e]) == Stored(es) + (if e.id.Some? then [RowOf(e.id.value, e.draft)] else [])
  {
    if es != [] {
      AppendFacts(es[1..], e);
      assert (es + [e])[1..] == es[1..] + [e];
    }
  }

  lemma {:induction false} MatchesSize(es: seq<Entry>, ts: seq<Tree>, parentId: Option<Id>)
    requires Matches(es, ts, parentId)
    ensures |es| == SizeAll(ts)
  {
    if ts != [] {
      MatchesSize(es[Size(ts[0])..], ts[1..], parentId);
    }
  }

  lemma {:induction false} MatchesAppend(es: seq<Entry>, ts: seq<Tree>, fs: seq<Entry>, t: Tree, parentId: Option<Id>)
    requires Matches(es, ts, parentId) && MatchesNode(fs, t, parentId) && |fs| == Size(t)
    ensures Matches(es + fs, ts + [t], parentId)
  {
    hide MatchesNode, Size;
    if ts == [] {
      assert es + fs == fs && (ts + [t])[1..] == [];
      assert fs[..Size(t)] == fs;
      assert Matches(fs[Size(t)..], [], parentId);
    } else {
      var n := Size(ts[0]);
      MatchesAppend(es[n..], ts[1..], fs, t, parentId);
      assert (es + fs)[..n] == es[..n];
      assert (es + fs)[n..] == es[n..] + fs;
      assert (ts + [t])[1..] == ts[1..] + [t];
    }
  }

  /** Filling in village ids later does not disturb the correspondence. */
  lemma {:induction false} MatchesRefined(es: seq<Entry>, fs: seq<Entry>, ts: seq<Tree>, parentId: Option<Id>)
    requires Matches(es, ts, parentId) && Refines(es, fs)
    ensures Matches(fs, ts, parentId)
    decreases ts
  {
    if ts != [] {
      var n := Size(ts[0]);
      var es0, fs0 := es[..n], fs[..n];
      if ts[0].level != VILLAGE {
        MatchesRefined(es0[1..], fs0[1..], ts[0].children, es0[0].id);
      }
      MatchesRefined(es[n..], fs[n..], ts[1..], parentId);
    }
  }

  // ---- the unique index on codes ----

  predicate CodeTaken(table: seq<Row>, code: string) {
    exists j :: 0 <= j < |table| && table[j].unit.info.code == Some(code)
  }

  /** What the index guarantees: no code is stored twice. */
  ghost predicate DistinctCodes(table: seq<Row>) {
    forall i, j :: 0 <= i < j < |table| && table[i].unit.info.code.Some? ==>
      table[i].unit.info.code != table[j].unit.info.code
  }

  /** The codes of the visited nodes, in visiting order. */
  function DraftCodes(es: seq<Entry>): (cs: seq<string>)
    ensures |cs| == |es|
  {
    seq(|es|, i requires 0 <= i < |es| => es[i].draft.code)
  }

  lemma {:induction false} MatchesCodes(es: seq<Entry>, ts: seq<Tree>, parentId: Option<Id>)
    requires Matches(es, ts, parentId)
    ensures DraftCodes(es) == StoredCodesAll(ts)
    decreases ts
  {
    hide Trim;
    if ts != [] {
      var n := Size(ts[0]);
      var es0 := es[..n];
      MatchesCodes(es[n..], ts[1..], parentId);
      assert DraftCodes(es) == DraftCodes(es0) + DraftCodes(es[n..]);
      assert DraftCodes(es0) == [es0[0].draft.code] + DraftCodes(es0[1..]);
      if ts[0].level != VILLAGE {
        MatchesCodes(es0[1..], ts[0].children, es0[0].id);
      }
    }
  }

  lemma {:induction false} StoredAt(es: seq<Entry>, r: Row)
    requires r in Stored(es)
    ensures exists i :: 0 <= i < |es| && es[i].id.Some? && RowOf(es[i].id.value, es[i].draft) == r
  {
    if es[0].id.Some? && RowOf(es[0].id.value, es[0].draft) == r {
    } else {
      StoredAt(es[1..], r);
      var i :| 0 <= i < |es[1..]| && es[1..][i].id.Some? && RowOf(es[1..][i].id.value, es[1..][i].draft) == r;
      assert es[i + 1] == es[1..][i];
    }
  }

  lemma {:induction false} PendingAt(es: seq<Entry>, d: Draft)
    requires d in Pending(es)
    ensures exists i :: 0 <= i < |es| && es[i].id.None? && es[i].draft == d
  {
    if es[0].id.None? && es[0].draft == d {
    } else {
      PendingAt(es[1..], d);
      var i :| 0 <= i < |es[1..]| && es[1..][i].id.None? && es[1..][i].draft == d;
      assert es[i + 1] == es[1..][i];
    }
  }

  /** A refused draft repeats the code of a visited node. */
  lemma TakenByVisited(table: seq<Row>, es: seq<Entry>, code: string) returns (i: nat)
    requires multiset(table) == multiset(Stored(es)) && CodeTaken(table, code)
    ensures i < |es| && es[i].id.Some? && es[i].draft.code == code
  {
    var j :| 0 <= j < |table| && table[j].unit.info.code == Some(code);
    PermutationFacts(table, Stored(es));
    StoredAt(es, table[j]);
    i :| 0 <= i < |es| && es[i].id.Some? && RowOf(es[i].id.value, es[i].draft) == table[j];
  }

  lemma WaitingClash(table: seq<Row>, es: seq<Entry>, d: Draft)
    requires multiset(table) == multiset(Stored(es)) && CodeTaken(table, d.code) && d in Pending(es)
    ensures !NoDup(DraftCodes(es))
  {
    var i := TakenByVisited(table, es, d.code);
    PendingAt(es, d);
    var k :| 0 <= k < |es| && es[k].id.None? && es[k].draft == d;
    hide NoDup, Stored, Pending;
    RepeatFound(DraftCodes(es), i, k);
  }

  lemma NewClash(table: seq<Row>, es: seq<Entry>, e: Entry)
    requires multiset(table) == multiset(Stored(es)) && CodeTaken(table, e.draft.code)
    ensures !NoDup(DraftCodes(es + [e]))
  {
    hide NoDup, Stored, CodeTaken;
    var i := TakenByVisited(table, es, e.draft.code);
    RepeatFound(DraftCodes(es + [e]), i, |es|);
  }

  lemma SaveKeepsDistinct(table: seq<Row>, r: Row)
    requires DistinctCodes(table) && r.unit.info.code.Some? && !CodeTaken(table, r.unit.info.code.value)
    ensures DistinctCodes(table + [r])
  {
  }

  /** A finished table without repeated codes comes from a hierarchy without repeated codes. */
  lemma DistinctRowsDistinctCodes(table: seq<Row>, es: seq<Entry>)
    requires multiset(table) == multiset(Stored(es)) && Pending(es) == [] && DistinctCodes(table)
    ensures NoDup(DraftCodes(es))
  {
    StoredIsAll(es);
    PermutationFacts(table, Stored(es));
    MapAt(RowCode, table);
    MapAt(RowCode, Stored(es));
    forall i | 0 <= i < |table|
      ensures table[i].unit.info.code.Some?
    {
      StoredAt(es, table[i]);
    }
    MapMultiset(RowCode, table, Stored(es));
    PermutationFacts(Map(RowCode, table), Map(RowCode, Stored(es)));
    forall i, j | 0 <= i < j < |es|
      ensures DraftCodes(es)[i] != DraftCodes(es)[j]
    {
      assert Map(RowCode, Stored(es))[i] != Map(RowCode, Stored(es))[j];
    }
  }

  function RowCode(r: Row): Option<string> {
    r.unit.info.code
  }

  lemma {:induction false} StoredIsAll(es: seq<Entry>)
    requires Pending(es) == []
    ensures |Stored(es)| == |es|
    ensures forall i :: 0 <= i < |es| ==> es[i].id.Some? && Stored(es)[i] == RowOf(es[i].id.value, es[i].draft)
  {
    if es != [] {
      StoredIsAll(es[1..]);
      forall i | 0 < i < |es|
        ensures es[i] == es[1..][i - 1] && Stored(es)[i] == Stored(es[1..])[i - 1]
      {
      }
    }
  }

  /** Two roots with one code are enough to make the seeding fail. */
  lemma RepeatedCodeRefused(a: Tree, b: Tree, rest: seq<Tree>)
    requires Trim(a.code) == Trim(b.code)
    ensures !NoDup(StoredCodesAll([a, b] + rest))
  {
    var cs := StoredCodesAll([a, b] + rest);
    StoredCodesAppend([a, b], rest);
    StoredCodesAppend([a], [b]);
    assert [a] + [b] == [a, b] && [a][1..] == [] && [b][1..] == [];
    assert cs[0] == Trim(a.code) && cs[|StoredCodes(a)|] == Trim(b.code);
  }

  /** One run of the seeder inside its transaction. */
  class SeedTransaction {
    const uuid: nat -> Id
    var table: seq<Row>
    var villageBatch: seq<Draft>
    var persistedVillages: nat
    ghost var trail: seq<Entry>
    ghost var flushSizes: seq<nat>

    constructor (uuid: nat -> Id, existing: seq<Row>)
      ensures this.uuid == uuid && table == existing && villageBatch == [] && trail == [] && flushSizes == []
    {
      this.uuid := uuid;
      table, villageBatch, persistedVillages := existing, [], 0;
      trail, flushSizes := [], [];
    }

    /** A parent reference is empty or the id of a row that is already stored. */
    ghost predicate Referable(parentId: Option<Id>)
      reads this
    {
      parentId.Some? ==> exists j :: 0 <= j < |table| && table[j].unit.info.id == parentId.value
    }

    /** The table holds exactly the visited rows except the given ones, which are still waiting. */
    ghost predicate Consistent(waiting: seq<Draft>)
      reads this
    {
      && (forall i :: 0 <= i < |table| ==> table[i].unit.info.id == uuid(i))
      && multiset(table) == multiset(Stored(trail))
      && (forall i :: 0 <= i < |table| ==> ParentStoredBefore(table, i))
      && DistinctCodes(table)
      && waiting == Pending(trail)
      && (forall d :: d in waiting ==> Referable(d.parentId))
    }

    /** Between visits the buffer is below its bound, and every flush so far was a full batch. */
    ghost predicate Valid()
      reads this
    {
      && Consistent(villageBatch)
      && |villageBatch| < VILLAGE_BATCH_SIZE
      && (forall n :: n in flushSizes ==> n == VILLAGE_BATCH_SIZE)
    }

    /** The insert is refused when the code is stored already. */
    method Save(d: Draft) returns (id: Option<Id>)
      modifies this`table
      ensures id.None? <==> CodeTaken(old(table), d.code)
      ensures id.None? ==> table == old(table)
      ensures id.Some? ==> table == old(table) + [RowOf(id.value, d)] && id.value == uuid(|old(table)|)
    {
      if exists j :: 0 <= j < |table| && table[j].unit.info.code == Some(d.code) {
        return None;
      }
      id := Some(uuid(|table|));
      table := table + [RowOf(id.value, d)];
    }

    /** Stores the oldest waiting draft; the visited entry it came from learns its id. */
    method SaveWaiting(d: Draft, ghost rest: seq<Draft>) returns (ok: bool)
      requires Consistent([d] + rest)
      modifies this`table, this`trail
      ensures ok ==> Consistent(rest) && old(table) <= table
      ensures Refines(old(trail), trail)
      ensures !ok ==> !NoDup(DraftCodes(trail))
    {
      hide Stored, Pending, FillFirst, NoDup, DraftCodes, DistinctCodes, ParentStoredBefore;
      assert ([d] + rest)[1..] == rest && d in [d] + rest;
      ghost var before := table;
      FillFirstFacts(trail, uuid(|table|));
      var id := Save(d);
      if id.None? {
        WaitingClash(table, trail, d);
        RefinesReflexive(trail);
        return false;
      }
      trail := FillFirst(trail, id.value);
      SaveKeepsParents(before, table);
      SaveKeepsDistinct(before, RowOf(id.value, d));
      ok := true;
      assert forall e :: e in rest ==> e in [d] + rest;
      ReferableKept(before);
    }

    lemma ReferableKept(before: seq<Row>)
      requires before <= table
      ensures forall p: Option<Id> :: (p.Some? ==> exists j :: 0 <= j < |before| && before[j].unit.info.id == p.value)
                                      ==> Referable(p)
    {
      forall p: Option<Id> | p.Some? && exists j :: 0 <= j < |before| && before[j].unit.info.id == p.value
        ensures Referable(p)
      {
        var j :| 0 <= j < |before| && before[j].unit.info.id == p.value;
        assert table[j] == before[j];
      }
    }

    method FlushVillageBatch() returns (ok: bool)
      requires Consistent(villageBatch)
      modifies this
      ensures Refines(old(trail), trail)
      ensures ok ==> Consistent([]) && villageBatch == [] && old(table) <= table
      ensures ok ==> flushSizes == old(flushSizes) + if old(villageBatch) == [] then [] else [|old(villageBatch)|]
      ensures ok ==> persistedVillages == old(persistedVillages) + |old(villageBatch)|
      ensures !ok ==> !NoDup(DraftCodes(trail))
    {
      hide Stored, Pending, Refines, NoDup, DraftCodes, DistinctCodes, ParentStoredBefore;
      RefinesReflexive(trail);
      if |villageBatch| == 0 {
        return true;
      }
      for k := 0 to |villageBatch|
        invariant villageBatch == old(villageBatch) && flushSizes == old(flushSizes)
        invariant persistedVillages == old(persistedVillages)
        invariant Consistent(villageBatch[k..])
        invariant Refines(old(trail), trail) && old(table) <= table
      {
        assert villageBatch[k..] == [villageBatch[k]] + villageBatch[k + 1..];
        ghost var before := trail;
        var saved := SaveWaiting(villageBatch[k], villageBatch[k + 1..]);
        RefinesTransitive(old(trail), before, trail);
        if !saved {
          return false;
        }
      }
      persistedVillages := persistedVillages + |villageBatch|;
      flushSizes := flushSizes + [|villageBatch|];
      villageBatch := [];
      return true;
    }

    /** A village joins the buffer, which is flushed when it is full. */
    method VisitVillage(node: Tree, parentId: Option<Id>) returns (ok: bool)
      requires Valid() && Referable(parentId) && node.level == VILLAGE
      modifies this
      ensures ok ==> Valid() && old(table) <= table && Visited(old(trail), trail, node, parentId)
      ensures !ok ==> Clash(old(trail), trail, StoredCodes(node))
    {
      hide NoDup, DistinctCodes;
      hide Pending, Stored, MatchesNode, Refines, DraftOf, ParentStoredBefore;
      var d := DraftOf(node, parentId);
      AppendFacts(trail, Entry(None, d));
      villageBatch := villageBatch + [d];
      trail := trail + [Entry(None, d)];
      RefinesReflexive(trail);
      ghost var visited := trail;
      DraftParent(node, parentId);
      assert Consistent(villageBatch);
      ok := true;
      if |villageBatch| >= VILLAGE_BATCH_SIZE {
        ok := FlushVillageBatch();
      }
      if ok {
        VisitedVillage(old(trail), visited, trail, node, parentId);
      } else {
        VillageClash(old(trail), visited, trail, node, parentId);
      }
    }

    /** Stores an inner node's row and notes the visit; a refused row is noted without an id. */
    method SaveInner(d: Draft) returns (id: Option<Id>)
      requires Valid() && Referable(d.parentId)
      modifies this
      ensures trail == old(trail) + [Entry(id, d)]
      ensures id.Some? ==> Valid() && old(table) <= table && Referable(id)
      ensures id.None? ==> !NoDup(DraftCodes(trail))
    {
      hide Pending, Stored, ParentStoredBefore, NoDup, DistinctCodes, DraftCodes;
      ghost var before := table;
      id := Save(d);
      AppendFacts(trail, Entry(id, d));
      if id.None? {
        NewClash(table, trail, Entry(None, d));
      } else {
        SaveKeepsParents(before, table);
        SaveKeepsDistinct(before, RowOf(id.value, d));
        ReferableKept(before);
        assert table[|before|].unit.info.id == id.value;
      }
      trail := trail + [Entry(id, d)];
    }

    /** An inner node is stored at once, then its children are visited under its new id. */
    method VisitInner(node: Tree, parentId: Option<Id>) returns (ok: bool)
      requires Valid() && Referable(parentId) && node.level != VILLAGE
      modifies this
      ensures ok ==> Valid() && old(table) <= table && Visited(old(trail), trail, node, parentId)
      ensures !ok ==> Clash(old(trail), trail, StoredCodes(node))
      decreases node, 0
    {
      hide Pending, Stored, Matches, MatchesNode, Refines, DraftOf, ParentStoredBefore, NoDup, DistinctCodes, Clash,
           DraftCodes, StoredCodes;
      var d := DraftOf(node, parentId);
      DraftParent(node, parentId);
      var id := SaveInner(d);
      if id.None? {
        InnerClash(old(trail), trail, node, parentId);
        return false;
      }
      ghost var visited := trail;
      VisitedNothing(trail, id);
      ok := true;
      if |node.children| > 0 {
        ok := ProcessNodesRecursively(node.children, id);
      }
      if ok {
        VisitedInner(old(trail), visited, trail, node, parentId);
      } else {
        BelowClash(old(trail), visited, trail, node, parentId);
      }
    }

    method ProcessNodesRecursively(nodes: seq<Tree>, parentId: Option<Id>) returns (ok: bool)
      requires Valid() && Referable(parentId)
      modifies this
      ensures ok ==> Valid() && old(table) <= table && VisitedAll(old(trail), trail, nodes, parentId)
      ensures !ok ==> Clash(old(trail), trail, StoredCodesAll(nodes))
      decreases nodes, 1
    {
      hide Clash, StoredCodes, StoredCodesAll, DistinctCodes, Visited, VisitedAll, Consistent;
      VisitedNothing(trail, parentId);
      for i := 0 to |nodes|
        invariant Valid() && old(table) <= table
        invariant VisitedAll(old(trail), trail, nodes[..i], parentId)
      {
        ghost var before := trail;
        ReferableKept(old(table));
        if nodes[i].level == VILLAGE {
          ok := VisitVillage(nodes[i], parentId);
        } else {
          ok := VisitInner(nodes[i], parentId);
        }
        if !ok {
          NextClash(old(trail), before, trail, nodes, i, parentId);
          return;
        }
        VisitedNext(old(trail), before, trail, nodes[..i], nodes[i], parentId);
        assert nodes[..i + 1] == nodes[..i] + [nodes[i]];
      }
      assert nodes[..|nodes|] == nodes;
      return true;
    }

    /**
     * The transaction: clears the table, walks the hierarchy and flushes the rest of the buffer. It
     * succeeds exactly when the hierarchy repeats no code. Then the table holds one row per node, in an
     * order that stores parents first; otherwise everything, the clearing included, is rolled back.
     */
    method Run(tree: seq<Tree>) returns (ok: bool)
      requires villageBatch == [] && trail == [] && flushSizes == []
      modifies this
      ensures ok <==> NoDup(StoredCodesAll(tree))
      ensures !ok || tree == [] ==> table == old(table)
      ensures ok && tree != [] ==> Seeded(uuid, table, trail, tree) && DistinctCodes(table) && villageBatch == []
      ensures ok && tree != [] ==> forall i :: 0 <= i < |flushSizes| ==>
                && 0 < flushSizes[i] <= VILLAGE_BATCH_SIZE
                && (i + 1 < |flushSizes| ==> flushSizes[i] == VILLAGE_BATCH_SIZE)
    {
      hide Stored, Matches, Refines, ParentStoredBefore, StoredCodes, NoDup, DraftCodes, DistinctCodes, Clash;
      NoTreesNoCodes();
      hide StoredCodesAll;
      if |tree| == 0 {
        return true;
      }
      var snapshot := table;
      table := [];
      EmptyTrail();
      ok := ProcessNodesRecursively(tree, None);
      if !ok {
        ClashRepeats([], trail, StoredCodesAll(tree));
        table := snapshot;
        return;
      }
      assert trail[0..] == trail;
      ghost var visited, full := trail, flushSizes;
      assert forall i :: 0 <= i < |full| ==> full[i] in full;
      MatchesCodes(visited, tree, None);
      ok := FlushVillageBatch();
      SameCodes(visited, trail);
      if !ok {
        table := snapshot;
        return;
      }
      MatchesRefined(visited, trail, tree, None);
      DistinctRowsDistinctCodes(table, trail);
    }
  }

  /** The visit stopped at a repeated code, before it had seen more than the given codes. */
  ghost predicate Clash(before: seq<Entry>, after: seq<Entry>, codes: seq<string>) {
    !NoDup(DraftCodes(after)) && DraftCodes(after) <= DraftCodes(before) + codes
  }

  lemma SameCodes(es: seq<Entry>, fs: seq<Entry>)
    requires Refines(es, fs)
    ensures DraftCodes(es) == DraftCodes(fs)
  {
  }

  lemma VillageClash(before: seq<Entry>, own: seq<Entry>, after: seq<Entry>, t: Tree, parentId: Option<Id>)
    requires t.level == VILLAGE && own == before + [Entry(None, DraftOf(t, parentId))] && Refines(own, after)
    requires !NoDup(DraftCodes(after))
    ensures Clash(before, after, StoredCodes(t))
  {
    hide NoDup, Trim;
    SameCodes(own, after);
    assert DraftCodes(own) == DraftCodes(before) + StoredCodes(t);
  }

  lemma InnerClash(before: seq<Entry>, after: seq<Entry>, t: Tree, parentId: Option<Id>)
    requires after == before + [Entry(None, DraftOf(t, parentId))] && !NoDup(DraftCodes(after))
    ensures Clash(before, after, StoredCodes(t))
  {
    hide NoDup, Trim;
    assert DraftCodes(after) == DraftCodes(before) + [StoredCodes(t)[0]];
  }

  lemma BelowClash(before: seq<Entry>, own: seq<Entry>, after: seq<Entry>, t: Tree, parentId: Option<Id>)
    requires t.level != VILLAGE && own != []
    requires own[..|own| - 1] == before && own[|own| - 1].draft == DraftOf(t, parentId)
    requires Clash(own, after, StoredCodesAll(t.children))
    ensures Clash(before, after, StoredCodes(t))
  {
    hide NoDup, Trim;
    assert DraftCodes(own) == DraftCodes(before) + [Trim(t.code)];
    assert DraftCodes(own) + StoredCodesAll(t.children) == DraftCodes(before) + StoredCodes(t);
  }

  lemma NextClash(first: seq<Entry>, before: seq<Entry>, after: seq<Entry>, ts: seq<Tree>, i: nat, parentId: Option<Id>)
    requires i < |ts| && VisitedAll(first, before, ts[..i], parentId) && Clash(before, after, StoredCodes(ts[i]))
    ensures Clash(first, after, StoredCodesAll(ts))
  {
    hide NoDup, StoredCodes;
    VisitedCodes(first, before, ts[..i], parentId);
    StoredCodesAppend(ts[..i], ts[i..]);
    assert ts == ts[..i] + ts[i..];
    Assoc(DraftCodes(first), StoredCodesAll(ts[..i]), StoredCodesAll(ts[i..]));
    Assoc(DraftCodes(before), StoredCodes(ts[i]), StoredCodesAll(ts[i..][1..]));
    hide VisitedAll, DraftCodes;
  }

  lemma VisitedCodes(before: seq<Entry>, after: seq<Entry>, ts: seq<Tree>, parentId: Option<Id>)
    requires VisitedAll(before, after, ts, parentId)
    ensures DraftCodes(after) == DraftCodes(before) + StoredCodesAll(ts)
  {
    hide Matches;
    MatchesCodes(after[|before|..], ts, parentId);
    SameCodes(before, after[..|before|]);
    hide StoredCodesAll, Refines;
    assert DraftCodes(after) == DraftCodes(after[..|before|]) + DraftCodes(after[|before|..]);
  }

  lemma ClashRepeats(before: seq<Entry>, after: seq<Entry>, codes: seq<string>)
    requires before == [] && Clash(before, after, codes)
    ensures !NoDup(codes)
  {
    hide NoDup;
    assert DraftCodes(before) + codes == codes;
    if NoDup(codes) {
      PrefixDistinct(DraftCodes(after), codes);
    }
  }

  /** The trail grew by the entries of one tree, and otherwise only learned ids. */
  ghost predicate Visited(before: seq<Entry>, after: seq<Entry>, t: Tree, parentId: Option<Id>) {
    && |after| == |before| + Size(t)
    && Refines(before, after[..|before|])
    && MatchesNode(after[|before|..], t, parentId)
  }

  ghost predicate VisitedAll(before: seq<Entry>, after: seq<Entry>, ts: seq<Tree>, parentId: Option<Id>) {
    && |after| >= |before|
    && Refines(before, after[..|before|])
    && Matches(after[|before|..], ts, parentId)
  }

  lemma DraftParent(t: Tree, parentId: Option<Id>)
    ensures DraftOf(t, parentId).parentId == parentId
  {
  }

  lemma RefinesReflexive(es: seq<Entry>)
    ensures Refines(es, es)
  {
  }

  lemma RefinesTransitive(es: seq<Entry>, fs: seq<Entry>, gs: seq<Entry>)
    requires Refines(es, fs) && Refines(fs, gs)
    ensures Refines(es, gs)
  {
  }

  lemma EmptyTrail()
    ensures Pending([]) == [] && Stored([]) == [] && DistinctCodes([])
  {
  }

  lemma NoTreesNoCodes()
    ensures NoDup(StoredCodesAll([]))
  {
  }

  lemma VisitedNothing(es: seq<Entry>, parentId: Option<Id>)
    ensures VisitedAll(es, es, [], parentId)
  {
    assert es[..|es|] == es && es[|es|..] == [];
  }

  lemma VisitedVillage(before: seq<Entry>, own: seq<Entry>, after: seq<Entry>, t: Tree, parentId: Option<Id>)
    requires t.level == VILLAGE && own == before + [Entry(None, DraftOf(t, parentId))] && Refines(own, after)
    ensures Visited(before, after, t, parentId)
  {
  }

  lemma VisitedInner(before: seq<Entry>, own: seq<Entry>, after: seq<Entry>, t: Tree, parentId: Option<Id>)
    requires t.level != VILLAGE && own != []
    requires own[..|own| - 1] == before && own[|own| - 1].draft == DraftOf(t, parentId) && own[|own| - 1].id.Some?
    requires VisitedAll(own, after, t.children, own[|own| - 1].id)
    ensures Visited(before, after, t, parentId)
  {
    var n := |before|;
    MatchesSize(after[n + 1..], t.children, own[n].id);
    assert after[n..][1..] == after[n + 1..];
    assert after[..n + 1][n] == after[n];
    forall i | 0 <= i < n
      ensures before[i].draft == after[i].draft && (before[i].id.Some? ==> after[i].id == before[i].id)
    {
      assert own[i] == before[i] && after[..n + 1][i] == after[i];
    }
  }

  lemma VisitedNext(first: seq<Entry>, before: seq<Entry>, after: seq<Entry>, ts: seq<Tree>, t: Tree,
                    parentId: Option<Id>)
    requires VisitedAll(first, before, ts, parentId) && Visited(before, after, t, parentId)
    ensures VisitedAll(first, after, ts + [t], parentId)
  {
    var m, n := |first|, |before|;
    assert Refines(before[m..], after[m..n]);
    MatchesRefined(before[m..], after[m..n], ts, parentId);
    MatchesAppend(after[m..n], ts, after[n..], t, parentId);
    assert after[m..n] + after[n..] == after[m..];
    forall i | 0 <= i < m
      ensures first[i].draft == after[i].draft && (first[i].id.Some? ==> after[i].id == first[i].id)
    {
      assert before[..m][i] == before[i] && after[..n][i] == after[i];
    }
  }

  /**
   * A table that holds a hierarchy: the trail lists its nodes in preorder with their stored ids, the
   * table holds exactly the trail's rows under distinct generated ids, and parents precede children.
   */
  ghost predicate Seeded(uuid: nat -> Id, table: seq<Row>, trail: seq<Entry>, tree: seq<Tree>) {
    && Matches(trail, tree, None)
    && Pending(trail) == []
    && multiset(table) == multiset(Stored(trail))
    && (forall i :: 0 <= i < |table| ==> table[i].unit.info.id == uuid(i) && ParentStoredBefore(table, i))
  }

  ghost predicate ParentStoredBefore(table: seq<Row>, i: nat)
    requires i < |table|
  {
    var parentId := table[i].unit.parentId;
    parentId.Some? ==> exists j :: 0 <= j < i && table[j].unit.info.id == parentId.value
  }

  lemma SaveKeepsParents(before: seq<Row>, after: seq<Row>)
    requires |after| == |before| + 1 && before <= after
    requires forall i :: 0 <= i < |before| ==> ParentStoredBefore(before, i)
    requires var p := after[|before|].unit.parentId;
             p.Some? ==> exists j :: 0 <= j < |before| && before[j].unit.info.id == p.value
    ensures forall i :: 0 <= i < |after| ==> ParentStoredBefore(after, i)
  {
    forall i | 0 <= i < |after|
      ensures ParentStoredBefore(after, i)
    {
      if i < |before| {
        assert ParentStoredBefore(before, i);
        if after[i].unit.parentId.Some? {
          var j :| 0 <= j < i && before[j].unit.info.id == after[i].unit.parentId.value;
          assert after[j] == before[j];
        }
      } else if after[i].unit.parentId.Some? {
        var j :| 0 <= j < |before| && before[j].unit.info.id == after[i].unit.parentId.value;
        assert after[j] == before[j];
      }
    }
  }
}

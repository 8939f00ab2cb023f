/** Which flat datasets the table takes: its unique index on codes refuses a hierarchy that repeats one. */
module FlatSeeding {
  import opened Sequences
  import opened Text
  import opened LocationSeeder
  import opened FlatHierarchy

  /** The paths of all nodes below p that start with one of the codes, parents before children. */
  function NodePaths(rows: seq<FlatRecord>, p: Path, codes: seq<string>): seq<Path>
    requires |p| < 5
    decreases 5 - |p|, |codes|
  {
    if codes == [] then [] else
    var p0 := p + [codes[0]];
    [p0] + (if |p0| == 5 then [] else NodePaths(rows, p0, ChildCodes(rows, p0))) + NodePaths(rows, p, codes[1..])
  }

  function LastCode(p: Path): string {
    if p == [] then "" else p[|p| - 1]
  }

  lemma {:induction false} NodeCodes(rows: seq<FlatRecord>, p: Path, codes: seq<string>)
    requires |p| < 5 && forall c :: c in codes ==> c in ChildCodes(rows, p)
    ensures StoredCodesAll(TreesOf(rows, p, codes)) == Map(LastCode, NodePaths(rows, p, codes))
    decreases 5 - |p|, |codes|
  {
    hide Known, ChildCodes, NameAt, Trim;
    if codes != [] {
      var p0 := p + [codes[0]];
      ChildCodesFacts(rows, p);
      CodeTrimmed(rows, p0, |p|);
      var below := if |p0| == 5 then [] else NodePaths(rows, p0, ChildCodes(rows, p0));
      if |p0| < 5 {
        NodeCodes(rows, p0, ChildCodes(rows, p0));
      }
      NodeCodes(rows, p, codes[1..]);
      assert TreesOf(rows, p, codes)[1..] == TreesOf(rows, p, codes[1..]);
      assert StoredCodes(TreeOf(rows, p0)) == [codes[0]] + Map(LastCode, below);
      MapAppend(LastCode, [p0], below);
      MapAppend(LastCode, [p0] + below, NodePaths(rows, p, codes[1..]));
    }
  }

  lemma {:induction false} NodePathMember(rows: seq<FlatRecord>, p: Path, codes: seq<string>, q: Path)
    requires |p| < 5 && forall c :: c in codes ==> c in ChildCodes(rows, p)
    ensures q in NodePaths(rows, p, codes) <==> |p| < |q| <= 5 && Known(rows, q) && p <= q && q[|p|] in codes
    decreases 5 - |p|, |codes|
  {
    hide Known, ChildCodes;
    if codes != [] {
      var p0 := p + [codes[0]];
      ChildCodesFacts(rows, p);
      NodePathMember(rows, p, codes[1..], q);
      assert p0 <= q <==> p <= q && |q| > |p| && q[|p|] == codes[0];
      if |p0| < 5 {
        NodePathMember(rows, p0, ChildCodes(rows, p0), q);
        if |q| > |p0| && Known(rows, q) && p0 <= q {
          ContinuesThroughChild(rows, p0, q);
        }
      }
      assert q == p0 <==> |q| == |p0| && p0 <= q;
    }
  }

  lemma ContinuesThroughChild(rows: seq<FlatRecord>, p: Path, q: Path)
    requires |p| < 5 && |p| < |q| && p <= q && Known(rows, q)
    ensures q[|p|] in ChildCodes(rows, p)
  {
    hide ChildCodes, Known;
    assert p + [q[|p|]] <= q;
    KnownPrefix(rows, p + [q[|p|]], q);
    ChildCodesFacts(rows, p);
  }

  lemma {:induction false} NodePathsDistinct(rows: seq<FlatRecord>, p: Path, codes: seq<string>)
    requires |p| < 5 && NoDup(codes) && forall c :: c in codes ==> c in ChildCodes(rows, p)
    ensures NoDup(NodePaths(rows, p, codes))
    decreases 5 - |p|, |codes|
  {
    hide Known, ChildCodes;
    if codes != [] {
      var p0 := p + [codes[0]];
      var below := if |p0| == 5 then [] else NodePaths(rows, p0, ChildCodes(rows, p0));
      var rest := NodePaths(rows, p, codes[1..]);
      if |p0| < 5 {
        ChildCodesFacts(rows, p0);
        NodePathsDistinct(rows, p0, ChildCodes(rows, p0));
      }
      NodePathsDistinct(rows, p, codes[1..]);
      hide NoDup;
      forall q | q in below
        ensures q != p0 && p0 <= q
      {
        NodePathMember(rows, p0, ChildCodes(rows, p0), q);
      }
      forall q | q in rest
        ensures !(p0 <= q)
      {
        NodePathMember(rows, p, codes[1..], q);
        FirstNotAgain(codes);
      }
      NoDupAppend([p0], below);
      NoDupAppend([p0] + below, rest);
    }
  }

  lemma DistinctImages(ps: seq<Path>)
    requires NoDup(ps)
    ensures NoDup(Map(LastCode, ps)) <==> forall x, y :: x in ps && y in ps && LastCode(x) == LastCode(y) ==> x == y
  {
    MapAt(LastCode, ps);
    var cs := Map(LastCode, ps);
    if forall x, y :: x in ps && y in ps && LastCode(x) == LastCode(y) ==> x == y {
      forall i, j | 0 <= i < j < |cs|
        ensures cs[i] != cs[j]
      {
        assert ps[i] in ps && ps[j] in ps && ps[i] != ps[j];
      }
    }
    if NoDup(cs) {
      forall x, y | x in ps && y in ps && LastCode(x) == LastCode(y)
        ensures x == y
      {
        var i :| 0 <= i < |ps| && ps[i] == x;
        var j :| 0 <= j < |ps| && ps[j] == y;
        assert cs[i] == cs[j];
      }
    }
  }

  /** A code that both paths contain stands at the same depth, below the same codes. */
  ghost predicate AgreeOnPlaces(p: Path, q: Path) {
    forall a, b :: 0 <= a < |p| && 0 <= b < |q| && p[a] == q[b] ==> a == b && p[..a] == q[..b]
  }

  /** Complete rows use a code only at one level and below one parent path. */
  ghost predicate OnePlaceEach(rows: seq<FlatRecord>) {
    forall i, j :: 0 <= i < |rows| && 0 <= j < |rows| && Complete(rows[i]) && Complete(rows[j]) ==>
      AgreeOnPlaces(Codes(rows[i]), Codes(rows[j]))
  }

  /** A known path, and the row and depth it comes from. */
  lemma PathOfRow(rows: seq<FlatRecord>, q: Path) returns (i: nat, a: nat)
    requires Known(rows, q) && 0 < |q| <= 5
    ensures i < |rows| && Complete(rows[i]) && a == |q| - 1 && q == Codes(rows[i])[..a + 1]
            && LastCode(q) == Codes(rows[i])[a]
  {
    hide Complete, Codes;
    i :| 0 <= i < |rows| && Covers(rows[i], q);
    a := |q| - 1;
  }

  lemma RowHasPath(rows: seq<FlatRecord>, i: nat, a: nat)
    requires i < |rows| && Complete(rows[i]) && a < 5
    ensures Known(rows, Codes(rows[i])[..a + 1]) && LastCode(Codes(rows[i])[..a + 1]) == Codes(rows[i])[a]
  {
    hide Complete, Codes;
    assert Covers(rows[i], Codes(rows[i])[..a + 1]);
  }

  /** The nodes of the hierarchy are the known paths, each once. */
  lemma AllNodePaths(rows: seq<FlatRecord>) returns (ps: seq<Path>)
    ensures NoDup(ps) && StoredCodesAll(HierarchyOf(rows)) == Map(LastCode, ps)
    ensures forall q :: q in ps <==> 0 < |q| <= 5 && Known(rows, q)
  {
    hide ChildCodes, Known, Complete, Codes, NodePaths, NoDup, TreesOf, StoredCodesAll, Map;
    var codes := ChildCodes(rows, []);
    ps := NodePaths(rows, [], codes);
    ChildCodesFacts(rows, []);
    NodeCodes(rows, [], codes);
    NodePathsDistinct(rows, [], codes);
    forall q
      ensures q in ps <==> 0 < |q| <= 5 && Known(rows, q)
    {
      NodePathMember(rows, [], codes, q);
      if 0 < |q| <= 5 && Known(rows, q) {
        ContinuesThroughChild(rows, [], q);
      }
    }
  }

  lemma OnePlaceOnePath(rows: seq<FlatRecord>, x: Path, y: Path)
    requires OnePlaceEach(rows) && Known(rows, x) && Known(rows, y) && 0 < |x| <= 5 && 0 < |y| <= 5
    requires LastCode(x) == LastCode(y)
    ensures x == y
  {
    hide Complete, Codes, Known, LastCode;
    var i, a := PathOfRow(rows, x);
    var j, b := PathOfRow(rows, y);
    assert AgreeOnPlaces(Codes(rows[i]), Codes(rows[j])) && Codes(rows[i])[a] == Codes(rows[j])[b];
    assert x == Codes(rows[i])[..a] + [Codes(rows[i])[a]];
    assert y == Codes(rows[j])[..b] + [Codes(rows[j])[b]];
  }

  /** The table takes a flat dataset exactly when its complete rows use every code at one place only. */
  lemma FlatRowsSeedIff(rows: seq<FlatRecord>)
    ensures NoDup(StoredCodesAll(HierarchyOf(rows))) <==> OnePlaceEach(rows)
  {
    var ps := AllNodePaths(rows);
    DistinctImages(ps);
    hide NoDup, Known, Complete, Codes, StoredCodesAll, HierarchyOf, Map, LastCode;
    if OnePlaceEach(rows) {
      forall x, y | x in ps && y in ps && LastCode(x) == LastCode(y)
        ensures x == y
      {
        OnePlaceOnePath(rows, x, y);
      }
    }
    hide OnePlaceEach;
    if NoDup(Map(LastCode, ps)) {
      PathsOnePlace(rows, ps);
    }
  }

  /** Two complete rows that give one village code to villages in different cells are enough to refuse a dataset. */
  lemma VillageCodeReusedRefused(a: FlatRecord, b: FlatRecord)
    requires Complete(a) && Complete(b) && Codes(a)[4] == Codes(b)[4] && Codes(a)[..4] != Codes(b)[..4]
    ensures !NoDup(StoredCodesAll(HierarchyOf([a, b])))
  {
    FlatRowsSeedIff([a, b]);
    hide Complete, Codes, StoredCodesAll, HierarchyOf, NoDup;
    var rows := [a, b];
    assert rows[0] == a && rows[1] == b;
    assert !AgreeOnPlaces(Codes(a), Codes(b));
  }

  lemma PathsOnePlace(rows: seq<FlatRecord>, ps: seq<Path>)
    requires forall x, y :: x in ps && y in ps && LastCode(x) == LastCode(y) ==> x == y
    requires forall q :: q in ps <==> 0 < |q| <= 5 && Known(rows, q)
    ensures OnePlaceEach(rows)
  {
    hide Known, Complete, Codes, LastCode;
    forall i, j | 0 <= i < |rows| && 0 <= j < |rows| && Complete(rows[i]) && Complete(rows[j])
      ensures AgreeOnPlaces(Codes(rows[i]), Codes(rows[j]))
    {
      forall a, b | 0 <= a < 5 && 0 <= b < 5 && Codes(rows[i])[a] == Codes(rows[j])[b]
        ensures a == b && Codes(rows[i])[..a] == Codes(rows[j])[..b]
      {
        SamePlace(rows, ps, i, j, a, b);
      }
    }
  }

  lemma SamePlace(rows: seq<FlatRecord>, ps: seq<Path>, i: nat, j: nat, a: nat, b: nat)
    requires forall x, y :: x in ps && y in ps && LastCode(x) == LastCode(y) ==> x == y
    requires forall q :: q in ps <==> 0 < |q| <= 5 && Known(rows, q)
    requires i < |rows| && j < |rows| && Complete(rows[i]) && Complete(rows[j]) && a < 5 && b < 5
    requires Codes(rows[i])[a] == Codes(rows[j])[b]
    ensures a == b && Codes(rows[i])[..a] == Codes(rows[j])[..b]
  {
    hide Complete, Codes, Known;
    RowHasPath(rows, i, a);
    RowHasPath(rows, j, b);
    var x, y := Codes(rows[i])[..a + 1], Codes(rows[j])[..b + 1];
    assert x in ps && y in ps;
    assert Codes(rows[i])[..a] == x[..a] && Codes(rows[j])[..b] == y[..b];
  }
}

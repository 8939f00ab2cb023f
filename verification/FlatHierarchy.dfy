/**
 * Folding flat rows into the five-level hierarchy. The outline of a hierarchy maps every code path to
 * the codes below it, in order; the specification reads the outline straight off the rows.
 */
module FlatHierarchy {
  import opened Wrappers
  import opened Sequences
  import opened Text
  import opened LocationModel
  import opened LocationSeeder

  /** A code path from a province down. */
  type Path = seq<string>

  const LEVELS: seq<Level> := [PROVINCE, DISTRICT, SECTOR, CELL, VILLAGE]

  /** One row of the flat dataset; absent values are None, numbers are already strings. */
  datatype FlatRecord = FlatRecord(
    provinceCode: Option<string>, provinceName: Option<string>,
    districtCode: Option<string>, districtName: Option<string>,
    sectorCode: Option<string>, sectorName: Option<string>,
    cellCode: Option<string>, cellName: Option<string>,
    villageCode: Option<string>, villageName: Option<string>)

  function Codes(r: FlatRecord): (p: Path)
    ensures |p| == 5
  {
    [TrimValue(r.provinceCode), TrimValue(r.districtCode), TrimValue(r.sectorCode),
     TrimValue(r.cellCode), TrimValue(r.villageCode)]
  }

  function Names(r: FlatRecord): (ns: seq<string>)
    ensures |ns| == 5
  {
    [TrimValue(r.provinceName), TrimValue(r.districtName), TrimValue(r.sectorName),
     TrimValue(r.cellName), TrimValue(r.villageName)]
  }

  /** Only rows with all five codes and all five names count. */
  predicate Complete(r: FlatRecord) {
    "" !in Codes(r) && "" !in Names(r)
  }

  /** A complete row that lies at or below the path. */
  predicate Covers(r: FlatRecord, p: Path) {
    Complete(r) && p <= Codes(r)
  }

  predicate Known(rows: seq<FlatRecord>, p: Path) {
    exists i :: 0 <= i < |rows| && Covers(rows[i], p)
  }

  /** The distinct codes seen directly below a path, in the order in which they first appear. */
  function ChildCodes(rows: seq<FlatRecord>, p: Path): seq<string> {
    if rows == [] then [] else
    var seen := ChildCodes(rows[..|rows| - 1], p);
    var r := rows[|rows| - 1];
    if Covers(r, p) && |p| < 5 && Codes(r)[|p|] !in seen then seen + [Codes(r)[|p|]] else seen
  }

  /** The name the first covering row gives to the unit at the end of a path. */
  function NameAt(rows: seq<FlatRecord>, p: Path): string {
    if rows == [] || |p| == 0 then ""
    else if Covers(rows[0], p) then Names(rows[0])[|p| - 1]
    else NameAt(rows[1..], p)
  }

  // ---- the outline, as the row loop builds it ----

  datatype Outline = Outline(kids: map<Path, seq<string>>, names: map<Path, string>)

  const EMPTY: Outline := Outline(map[[] := []], map[])

  /** Find the child with this code below p, or append it. */
  function AddChild(o: Outline, p: Path, code: string, name: string): Outline
    requires p in o.kids
  {
    if code in o.kids[p] then o
    else Outline(o.kids[p := o.kids[p] + [code]][p + [code] := []], o.names[p + [code] := name])
  }

  ghost predicate GoodPath(o: Outline, p: Path)
    requires p in o.kids
  {
    && |p| <= 5 && NoDup(o.kids[p]) && (|p| == 5 ==> o.kids[p] == [])
    && (forall c :: c in o.kids[p] ==> p + [c] in o.kids)
    && (p != [] ==> p in o.names && HasParent(o, p))
  }

  ghost predicate HasParent(o: Outline, p: Path)
    requires p != []
  {
    var parent := p[..|p| - 1];
    parent in o.kids && p[|p| - 1] in o.kids[parent]
  }

  /** Every child of a path is a path of the outline, and every path is a child of its prefix. */
  ghost predicate WellFormed(o: Outline) {
    && [] in o.kids && [] !in o.names
    && (forall p :: p in o.names ==> p in o.kids)
    && (forall p :: p in o.kids ==> GoodPath(o, p))
  }

  lemma AddChildWellFormed(o: Outline, p: Path, code: string, name: string)
    requires WellFormed(o) && p in o.kids && |p| < 5
    ensures WellFormed(AddChild(o, p, code, name))
    ensures p + [code] in AddChild(o, p, code, name).kids
    ensures code !in o.kids[p] ==> p + [code] !in o.kids
  {
    var o' := AddChild(o, p, code, name);
    var q := p + [code];
    assert q[..|q| - 1] == p && q[|q| - 1] == code;
    assert GoodPath(o, p);
    assert q in o.kids ==> GoodPath(o, q);
    if code !in o.kids[p] {
      NewPathGood(o, p, code, name);
      hide GoodPath;
      forall r | r in o'.kids
        ensures GoodPath(o', r)
      {
        if r != q {
          AddChildGood(o, p, code, name, r);
        }
      }
    }
  }

  lemma NewPathGood(o: Outline, p: Path, code: string, name: string)
    requires p in o.kids && |p| < 5 && code !in o.kids[p]
    ensures GoodPath(AddChild(o, p, code, name), p + [code])
  {
    var q := p + [code];
    assert q[..|q| - 1] == p && q[|q| - 1] == code;
    assert p != q;
  }

  lemma AddChildGood(o: Outline, p: Path, code: string, name: string, r: Path)
    requires WellFormed(o) && p in o.kids && |p| < 5 && code !in o.kids[p] && r in o.kids
    requires p + [code] !in o.kids
    ensures GoodPath(AddChild(o, p, code, name), r)
  {
    var o' := AddChild(o, p, code, name);
    assert GoodPath(o, r);
    hide WellFormed;
    AddChildDistinct(o, p, code, name, r);
    AddChildParent(o, p, code, name, r);
    forall c | c in o'.kids[r]
      ensures r + [c] in o'.kids
    {
      AddChildBelow(o, p, code, name, r, c);
    }
    AddChildShort(o, p, code, name, r);
    hide NoDup, HasParent, AddChild;
  }

  lemma AddChildDistinct(o: Outline, p: Path, code: string, name: string, r: Path)
    requires p in o.kids && code !in o.kids[p] && r in o.kids && r != p + [code] && NoDup(o.kids[r])
    ensures r in AddChild(o, p, code, name).kids && NoDup(AddChild(o, p, code, name).kids[r])
  {
    if r == p {
      NoDupAppend(o.kids[p], [code]);
    }
    hide NoDup;
  }

  lemma AddChildParent(o: Outline, p: Path, code: string, name: string, r: Path)
    requires p in o.kids && code !in o.kids[p] && p + [code] !in o.kids
    requires r != [] ==> r in o.names && HasParent(o, r)
    ensures r != [] ==>
              r in AddChild(o, p, code, name).names && HasParent(AddChild(o, p, code, name), r)
  {
  }

  lemma AddChildBelow(o: Outline, p: Path, code: string, name: string, r: Path, c: string)
    requires p in o.kids && p + [code] !in o.kids && r in o.kids && code !in o.kids[p]
    requires forall d :: d in o.kids[r] ==> r + [d] in o.kids
    requires r in AddChild(o, p, code, name).kids && c in AddChild(o, p, code, name).kids[r]
    ensures r + [c] in AddChild(o, p, code, name).kids
  {
  }

  lemma AddChildShort(o: Outline, p: Path, code: string, name: string, r: Path)
    requires p in o.kids && |p| < 5 && r in o.kids && r != p + [code] && (|r| == 5 ==> o.kids[r] == [])
    ensures r in AddChild(o, p, code, name).kids && (|r| == 5 ==> AddChild(o, p, code, name).kids[r] == [])
  {
  }

  /** The row's path, level by level, up to depth j. */
  function AddPath(o: Outline, r: FlatRecord, j: nat): (o': Outline)
    requires WellFormed(o) && j <= 5
    ensures WellFormed(o') && Codes(r)[..j] in o'.kids
    decreases j
  {
    if j == 0 then o else
    var o1 := AddPath(o, r, j - 1);
    AddPathStep(o1, r, j);
    AddChild(o1, Codes(r)[..j - 1], Codes(r)[j - 1], Names(r)[j - 1])
  }

  lemma AddPathStep(o: Outline, r: FlatRecord, j: nat)
    requires WellFormed(o) && 0 < j <= 5 && Codes(r)[..j - 1] in o.kids
    ensures var o' := AddChild(o, Codes(r)[..j - 1], Codes(r)[j - 1], Names(r)[j - 1]);
            WellFormed(o') && Codes(r)[..j] in o'.kids
  {
    hide Codes, Names, WellFormed;
    var p := Codes(r)[..j - 1];
    assert Codes(r)[..j] == p + [Codes(r)[j - 1]];
    AddChildWellFormed(o, p, Codes(r)[j - 1], Names(r)[j - 1]);
  }

  function AddRow(o: Outline, r: FlatRecord): (o': Outline)
    requires WellFormed(o)
    ensures WellFormed(o')
  {
    if Complete(r) then AddPath(o, r, 5) else o
  }

  function OutlineOf(rows: seq<FlatRecord>): (o: Outline)
    ensures WellFormed(o)
  {
    if rows == [] then EMPTY else AddRow(OutlineOf(rows[..|rows| - 1]), rows[|rows| - 1])
  }

  // ---- the outline is what the rows say ----

  /** The outline agrees with the rows. */
  ghost predicate Reads(o: Outline, rows: seq<FlatRecord>) {
    && (forall p :: p in o.kids <==> p == [] || Known(rows, p))
    && (forall p :: p in o.kids ==> o.kids[p] == ChildCodes(rows, p))
    && (forall p :: p in o.names ==> o.names[p] == NameAt(rows, p))
  }

  lemma {:induction false} ChildCodesFacts(rows: seq<FlatRecord>, p: Path)
    ensures NoDup(ChildCodes(rows, p))
    ensures forall c :: c in ChildCodes(rows, p) <==> |p| < 5 && Known(rows, p + [c])
  {
    hide Covers, Codes, Complete;
    if rows == [] {
      assert forall c :: !Known(rows, p + [c]);
    } else {
      hide Known;
      var init, r := rows[..|rows| - 1], rows[|rows| - 1];
      ChildCodesFacts(init, p);
      forall c
        ensures Known(rows, p + [c]) <==> Known(init, p + [c]) || Covers(r, p + [c])
      {
        KnownStep(rows, p + [c]);
      }
      forall c
        ensures |p| < 5 ==> (Covers(r, p + [c]) <==> Covers(r, p) && Codes(r)[|p|] == c)
      {
        CoversNext(r, p, c);
      }
    }
  }

  lemma CoversNext(r: FlatRecord, p: Path, c: string)
    ensures |p| < 5 ==> (Covers(r, p + [c]) <==> Covers(r, p) && Codes(r)[|p|] == c)
  {
    hide Complete, Codes;
    if |p| < 5 {
      assert (p + [c])[..|p|] == p && (p + [c])[|p|] == c;
      if Covers(r, p) && Codes(r)[|p|] == c {
        assert p + [c] == Codes(r)[..|p| + 1];
      }
    }
  }

  lemma KnownStep(rows: seq<FlatRecord>, p: Path)
    requires rows != []
    ensures Known(rows, p) <==> Known(rows[..|rows| - 1], p) || Covers(rows[|rows| - 1], p)
  {
    hide Covers;
    var init := rows[..|rows| - 1];
    if Known(init, p) {
      var i :| 0 <= i < |init| && Covers(init[i], p);
      assert Covers(rows[i], p);
    }
    if Known(rows, p) && !Covers(rows[|rows| - 1], p) {
      var i :| 0 <= i < |rows| && Covers(rows[i], p);
      assert Covers(init[i], p);
    }
  }

  lemma CoversExactly(r: FlatRecord, p: Path)
    requires |p| <= 5
    ensures Covers(r, p) <==> Complete(r) && p == Codes(r)[..|p|]
  {
  }

  lemma KnownAppend(rows: seq<FlatRecord>, r: FlatRecord, p: Path)
    ensures Known(rows + [r], p) <==> Known(rows, p) || Covers(r, p)
  {
    KnownStep(rows + [r], p);
    assert (rows + [r])[..|rows|] == rows;
  }

  lemma ChildCodesAppend(rows: seq<FlatRecord>, r: FlatRecord, p: Path)
    ensures ChildCodes(rows + [r], p) ==
            var seen := ChildCodes(rows, p);
            if Covers(r, p) && |p| < 5 && Codes(r)[|p|] !in seen then seen + [Codes(r)[|p|]] else seen
  {
    assert (rows + [r])[..|rows|] == rows;
  }

  lemma {:induction false} NameAtAppend(rows: seq<FlatRecord>, r: FlatRecord, p: Path)
    requires 0 < |p| <= 5
    ensures NameAt(rows + [r], p) ==
            if Known(rows, p) then NameAt(rows, p) else if Covers(r, p) then Names(r)[|p| - 1] else ""
  {
    hide Covers;
    if rows == [] {
      assert (rows + [r])[1..] == [];
    } else {
      assert (rows + [r])[1..] == rows[1..] + [r];
      NameAtAppend(rows[1..], r, p);
      if Known(rows[1..], p) {
        var i :| 0 <= i < |rows[1..]| && Covers(rows[1..][i], p);
        assert Covers(rows[i + 1], p);
      }
      if Known(rows, p) && !Covers(rows[0], p) {
        var i :| 0 <= i < |rows| && Covers(rows[i], p);
        assert Covers(rows[1..][i - 1], p);
      }
    }
  }

  /** The rows a path of the outline has seen while the last row is added down to depth j. */
  function Upto(rows: seq<FlatRecord>, r: FlatRecord, included: bool): seq<FlatRecord> {
    if included then rows + [r] else rows
  }

  ghost predicate ReadsUpto(o: Outline, rows: seq<FlatRecord>, r: FlatRecord, j: nat) {
    && (forall p :: p in o.kids <==> p == [] || Known(Upto(rows, r, |p| <= j), p))
    && (forall p :: p in o.kids ==> o.kids[p] == ChildCodes(Upto(rows, r, |p| < j), p))
    && (forall p :: p in o.names ==> o.names[p] == NameAt(Upto(rows, r, |p| <= j), p))
  }

  /** The outline one level further down the row's path. */
  function Deeper(o: Outline, r: FlatRecord, j: nat): Outline
    requires 0 < j <= 5 && Codes(r)[..j - 1] in o.kids
  {
    AddChild(o, Codes(r)[..j - 1], Codes(r)[j - 1], Names(r)[j - 1])
  }

  lemma NextIsKnown(o: Outline, rows: seq<FlatRecord>, r: FlatRecord, j: nat)
    requires 0 < j <= 5 && ReadsUpto(o, rows, r, j - 1) && Codes(r)[..j - 1] in o.kids
    ensures Codes(r)[..j] == Codes(r)[..j - 1] + [Codes(r)[j - 1]]
    ensures Codes(r)[j - 1] in o.kids[Codes(r)[..j - 1]] <==> Known(rows, Codes(r)[..j])
    ensures !Known(rows, Codes(r)[..j]) ==> ChildCodes(rows, Codes(r)[..j]) == []
  {
    hide Codes, Names, ChildCodes, Known, NameAt;
    ChildCodesFacts(rows, Codes(r)[..j - 1]);
    UnknownHasNoChildren(rows, Codes(r)[..j]);
  }

  lemma UnknownHasNoChildren(rows: seq<FlatRecord>, p: Path)
    ensures ChildCodes(rows, p) != [] ==> Known(rows, p)
  {
    ChildCodesFacts(rows, p);
    hide ChildCodes, Codes, Complete;
    if ChildCodes(rows, p) != [] {
      var q := p + [ChildCodes(rows, p)[0]];
      assert Known(rows, q);
      var i :| 0 <= i < |rows| && Covers(rows[i], q);
      assert Covers(rows[i], p);
    }
  }

  lemma DeeperKeys(o: Outline, rows: seq<FlatRecord>, r: FlatRecord, j: nat, p: Path)
    requires Complete(r) && 0 < j <= 5
    requires ReadsUpto(o, rows, r, j - 1) && Codes(r)[..j - 1] in o.kids
    ensures p in Deeper(o, r, j).kids <==> p == [] || Known(Upto(rows, r, |p| <= j), p)
  {
    hide Complete, Covers, ChildCodes, NameAt, Codes, Names, Known;
    NextIsKnown(o, rows, r, j);
    KnownAppend(rows, r, p);
    if |p| == j {
      CoversExactly(r, p);
    }
  }

  lemma DeeperKids(o: Outline, rows: seq<FlatRecord>, r: FlatRecord, j: nat, p: Path)
    requires Complete(r) && 0 < j <= 5
    requires ReadsUpto(o, rows, r, j - 1) && Codes(r)[..j - 1] in o.kids
    requires p in Deeper(o, r, j).kids
    ensures Deeper(o, r, j).kids[p] == ChildCodes(Upto(rows, r, |p| < j), p)
  {
    hide Complete, Covers, ChildCodes, NameAt, Codes, Names, Known;
    NextIsKnown(o, rows, r, j);
    ChildCodesAppend(rows, r, p);
    if |p| == j - 1 {
      CoversExactly(r, p);
    }
  }

  lemma NamesHavePaths(o: Outline, p: Path)
    requires WellFormed(o) && p in o.names
    ensures p in o.kids && 0 < |p| <= 5
  {
    assert GoodPath(o, p);
  }

  lemma DeeperNames(o: Outline, rows: seq<FlatRecord>, r: FlatRecord, j: nat, p: Path)
    requires WellFormed(o) && Complete(r) && 0 < j <= 5
    requires ReadsUpto(o, rows, r, j - 1) && Codes(r)[..j - 1] in o.kids
    requires p in Deeper(o, r, j).names
    ensures Deeper(o, r, j).names[p] == NameAt(Upto(rows, r, |p| <= j), p)
  {
    hide Complete, Covers, ChildCodes, NameAt, Codes, Names, Known, WellFormed;
    NextIsKnown(o, rows, r, j);
    if p in o.names {
      NamesHavePaths(o, p);
    }
    if |p| == j {
      NameAtAppend(rows, r, p);
      CoversExactly(r, p);
    }
  }

  lemma DeeperReads(o: Outline, rows: seq<FlatRecord>, r: FlatRecord, j: nat)
    requires WellFormed(o) && Complete(r) && 0 < j <= 5
    requires ReadsUpto(o, rows, r, j - 1) && Codes(r)[..j - 1] in o.kids
    ensures ReadsUpto(Deeper(o, r, j), rows, r, j)
  {
    hide WellFormed, Complete, Deeper, Codes, Names, Known, ChildCodes, NameAt;
    var o' := Deeper(o, r, j);
    forall p
      ensures p in o'.kids <==> p == [] || Known(Upto(rows, r, |p| <= j), p)
    {
      DeeperKeys(o, rows, r, j, p);
    }
    forall p | p in o'.kids
      ensures o'.kids[p] == ChildCodes(Upto(rows, r, |p| < j), p)
    {
      DeeperKids(o, rows, r, j, p);
    }
    forall p | p in o'.names
      ensures o'.names[p] == NameAt(Upto(rows, r, |p| <= j), p)
    {
      DeeperNames(o, rows, r, j, p);
    }
  }

  lemma {:induction false} AddPathReads(o: Outline, rows: seq<FlatRecord>, r: FlatRecord, j: nat)
    requires WellFormed(o) && Complete(r) && j <= 5 && Reads(o, rows)
    ensures ReadsUpto(AddPath(o, r, j), rows, r, j)
  {
    hide WellFormed, Complete, ReadsUpto, Reads, Codes, Names;
    if j == 0 {
      StartReads(o, rows, r);
    } else {
      AddPathReads(o, rows, r, j - 1);
      DeeperReads(AddPath(o, r, j - 1), rows, r, j);
    }
  }

  lemma StartReads(o: Outline, rows: seq<FlatRecord>, r: FlatRecord)
    requires Reads(o, rows) && WellFormed(o)
    ensures ReadsUpto(o, rows, r, 0)
  {
    hide Known, ChildCodes, NameAt, GoodPath;
  }

  /** The outline the row loop builds is the outline the rows specify. */
  lemma {:induction false} OutlineReads(rows: seq<FlatRecord>)
    ensures Reads(OutlineOf(rows), rows)
  {
    if rows != [] {
      var init, r := rows[..|rows| - 1], rows[|rows| - 1];
      assert rows == init + [r];
      OutlineReads(init);
      if Complete(r) {
        AddPathReads(OutlineOf(init), init, r, 5);
        FullDepth(OutlineOf(rows), init, r);
      } else {
        IncompleteRow(OutlineOf(init), init, r);
      }
    }
  }

  lemma BeyondVillages(r: FlatRecord, p: Path)
    ensures Covers(r, p) ==> |p| <= 5
  {
  }

  lemma PathsAreShort(o: Outline)
    requires WellFormed(o)
    ensures forall p :: p in o.kids ==> |p| <= 5
    ensures forall p :: p in o.names ==> |p| <= 5
  {
    forall p | p in o.kids
      ensures |p| <= 5
    {
      assert GoodPath(o, p);
    }
  }

  lemma FullDepth(o: Outline, rows: seq<FlatRecord>, r: FlatRecord)
    requires ReadsUpto(o, rows, r, 5) && WellFormed(o)
    ensures Reads(o, rows + [r])
  {
    hide Known, ChildCodes, NameAt, ReadsUpto, WellFormed;
    forall p
      ensures p in o.kids <==> p == [] || Known(rows + [r], p)
    {
      FullDepthKnown(o, rows, r, p);
    }
    forall p | p in o.kids
      ensures o.kids[p] == ChildCodes(rows + [r], p)
    {
      FullDepthCodes(o, rows, r, p);
    }
    forall p | p in o.names
      ensures o.names[p] == NameAt(rows + [r], p)
    {
      FullDepthNames(o, rows, r, p);
    }
  }

  lemma FullDepthNames(o: Outline, rows: seq<FlatRecord>, r: FlatRecord, p: Path)
    requires ReadsUpto(o, rows, r, 5) && WellFormed(o) && p in o.names
    ensures o.names[p] == NameAt(rows + [r], p)
  {
    PathsAreShort(o);
    hide Known, ChildCodes, NameAt, WellFormed;
    assert Upto(rows, r, |p| <= 5) == rows + [r];
  }

  lemma FullDepthCodes(o: Outline, rows: seq<FlatRecord>, r: FlatRecord, p: Path)
    requires ReadsUpto(o, rows, r, 5) && WellFormed(o) && p in o.kids
    ensures o.kids[p] == ChildCodes(rows + [r], p)
  {
    PathsAreShort(o);
    hide Known, ChildCodes, NameAt, Covers, Codes, Complete, WellFormed;
    BeyondVillages(r, p);
    ChildCodesAppend(rows, r, p);
  }

  lemma FullDepthKnown(o: Outline, rows: seq<FlatRecord>, r: FlatRecord, p: Path)
    requires ReadsUpto(o, rows, r, 5) && WellFormed(o)
    ensures p in o.kids <==> p == [] || Known(rows + [r], p)
  {
    PathsAreShort(o);
    hide Known, ChildCodes, NameAt, Covers, GoodPath, WellFormed, Codes, Complete;
    KnownAppend(rows, r, p);
    BeyondVillages(r, p);
    assert Upto(rows, r, |p| <= 5) == if |p| <= 5 then rows + [r] else rows;
  }

  lemma IncompleteRow(o: Outline, rows: seq<FlatRecord>, r: FlatRecord)
    requires Reads(o, rows) && !Complete(r) && WellFormed(o)
    ensures Reads(o, rows + [r])
  {
    forall p
      ensures Known(rows + [r], p) == Known(rows, p) && ChildCodes(rows + [r], p) == ChildCodes(rows, p)
    {
      KnownAppend(rows, r, p);
      ChildCodesAppend(rows, r, p);
    }
    forall p | p in o.names
      ensures o.names[p] == NameAt(rows + [r], p)
    {
      assert GoodPath(o, p);
      NameAtAppend(rows, r, p);
    }
  }

  // ---- the hierarchy the rows describe ----

  function TreeOf(rows: seq<FlatRecord>, p: Path): Tree
    requires 1 <= |p| <= 5
    decreases 5 - |p|, 1, 0
  {
    var codes := ChildCodes(rows, p);
    Tree(NameAt(rows, p), p[|p| - 1], LEVELS[|p| - 1], if |p| == 5 then [] else TreesOf(rows, p, codes))
  }

  function TreesOf(rows: seq<FlatRecord>, p: Path, codes: seq<string>): (ts: seq<Tree>)
    requires |p| < 5
    ensures |ts| == |codes|
    decreases 5 - |p|, 0, |codes|
  {
    if codes == [] then [] else [TreeOf(rows, p + [codes[0]])] + TreesOf(rows, p, codes[1..])
  }

  function HierarchyOf(rows: seq<FlatRecord>): seq<Tree> {
    TreesOf(rows, [], ChildCodes(rows, []))
  }

  /** The code paths from the roots to the leaves, left to right. */
  function LeafPaths(t: Tree, prefix: Path): seq<Path>
    decreases t, 1
  {
    if t.children == [] then [prefix + [t.code]] else LeafPathsAll(t.children, prefix + [t.code])
  }

  function LeafPathsAll(ts: seq<Tree>, prefix: Path): seq<Path>
    decreases ts, 0
  {
    if ts == [] then [] else LeafPaths(ts[0], prefix) + LeafPathsAll(ts[1..], prefix)
  }

  lemma KnownPrefix(rows: seq<FlatRecord>, p: Path, q: Path)
    requires p <= q && Known(rows, q)
    ensures Known(rows, p)
  {
    hide Complete, Codes;
    var i :| 0 <= i < |rows| && Covers(rows[i], q);
    assert Covers(rows[i], p);
  }

  /** A known path above village level always has a known continuation. */
  lemma KnownHasChild(rows: seq<FlatRecord>, p: Path)
    requires |p| < 5 && Known(rows, p)
    ensures ChildCodes(rows, p) != []
  {
    hide Complete, Codes;
    var i :| 0 <= i < |rows| && Covers(rows[i], p);
    var c := Codes(rows[i])[|p|];
    assert p + [c] == Codes(rows[i])[..|p| + 1];
    assert Covers(rows[i], p + [c]);
    ChildCodesFacts(rows, p);
    assert c in ChildCodes(rows, p);
  }

  lemma {:induction false} LeafMember(rows: seq<FlatRecord>, p: Path, q: Path)
    requires 1 <= |p| <= 5 && Known(rows, p)
    ensures q in LeafPaths(TreeOf(rows, p), p[..|p| - 1]) <==> |q| == 5 && Known(rows, q) && p <= q
    decreases 5 - |p|, 1, 0
  {
    hide Known, ChildCodes;
    assert p == p[..|p| - 1] + [p[|p| - 1]];
    var leaves := LeafPaths(TreeOf(rows, p), p[..|p| - 1]);
    if |p| == 5 {
      assert leaves == [p];
      assert |q| == 5 && p <= q ==> q == p;
    } else {
      KnownHasChild(rows, p);
      assert leaves == LeafPathsAll(TreesOf(rows, p, ChildCodes(rows, p)), p);
      LeafMembers(rows, p, ChildCodes(rows, p), q);
      if |q| == 5 && Known(rows, q) && p <= q {
        KnownPrefix(rows, p + [q[|p|]], q);
        ChildCodesFacts(rows, p);
      }
    }
  }

  lemma {:induction false} LeafMembers(rows: seq<FlatRecord>, p: Path, codes: seq<string>, q: Path)
    requires |p| < 5 && forall c :: c in codes ==> c in ChildCodes(rows, p)
    ensures q in LeafPathsAll(TreesOf(rows, p, codes), p) <==>
            |q| == 5 && Known(rows, q) && p <= q && q[|p|] in codes
    decreases 5 - |p|, 0, |codes|
  {
    hide Known, ChildCodes;
    if codes != [] {
      var p0 := p + [codes[0]];
      assert p0[..|p0| - 1] == p;
      ChildCodesFacts(rows, p);
      LeafMember(rows, p0, q);
      LeafMembers(rows, p, codes[1..], q);
      assert p0 <= q <==> p <= q && |q| > |p| && q[|p|] == codes[0];
    }
  }

  /** Some initial part of the rows knows x but not y. */
  ghost predicate SeenBefore(rows: seq<FlatRecord>, x: Path, y: Path) {
    exists k :: 0 <= k <= |rows| && Known(rows[..k], x) && !Known(rows[..k], y)
  }

  /** Where two paths part, the rows saw a's branch first. */
  ghost predicate Precedes(rows: seq<FlatRecord>, a: Path, b: Path) {
    exists d :: 0 <= d < |a| && d < |b| && a[..d] == b[..d] && SeenBefore(rows, a[..d + 1], b[..d + 1])
  }

  lemma {:induction false} ChildCodesOrder(rows: seq<FlatRecord>, p: Path, i: nat, j: nat)
    requires i < j < |ChildCodes(rows, p)|
    ensures SeenBefore(rows, p + [ChildCodes(rows, p)[i]], p + [ChildCodes(rows, p)[j]])
  {
    hide Known, Covers, Codes, NoDup, SeenBefore;
    var init, r := rows[..|rows| - 1], rows[|rows| - 1];
    var seen, codes := ChildCodes(init, p), ChildCodes(rows, p);
    if j < |seen| {
      ChildCodesOrder(init, p, i, j);
      SeenBeforeMore(init, r, p + [seen[i]], p + [seen[j]]);
      assert rows == init + [r];
    } else {
      assert codes == seen + [Codes(r)[|p|]] && codes[j] !in seen && codes[i] in seen;
      LastSeen(rows, p, codes[i], codes[j]);
    }
  }

  lemma LastSeen(rows: seq<FlatRecord>, p: Path, x: string, y: string)
    requires rows != [] && |p| < 5
    requires x in ChildCodes(rows[..|rows| - 1], p) && y !in ChildCodes(rows[..|rows| - 1], p)
    ensures SeenBefore(rows, p + [x], p + [y])
  {
    ChildCodesFacts(rows[..|rows| - 1], p);
  }

  lemma SeenBeforeMore(rows: seq<FlatRecord>, r: FlatRecord, x: Path, y: Path)
    requires SeenBefore(rows, x, y)
    ensures SeenBefore(rows + [r], x, y)
  {
    hide Known;
    var k :| 0 <= k <= |rows| && Known(rows[..k], x) && !Known(rows[..k], y);
    assert (rows + [r])[..k] == rows[..k];
  }

  ghost predicate Ordered(rows: seq<FlatRecord>, ps: seq<Path>) {
    forall i, j :: 0 <= i < j < |ps| ==> Precedes(rows, ps[i], ps[j])
  }

  lemma {:induction false} TreeLeavesOrdered(rows: seq<FlatRecord>, p: Path)
    requires 1 <= |p| <= 5 && Known(rows, p)
    ensures Ordered(rows, LeafPaths(TreeOf(rows, p), p[..|p| - 1]))
    decreases 5 - |p|, 1, 0
  {
    hide Known, ChildCodes, Precedes, NameAt;
    assert p == p[..|p| - 1] + [p[|p| - 1]];
    var leaves := LeafPaths(TreeOf(rows, p), p[..|p| - 1]);
    if |p| == 5 {
      assert leaves == [p];
    } else {
      KnownHasChild(rows, p);
      LeavesOrdered(rows, p, 0);
      assert ChildCodes(rows, p)[0..] == ChildCodes(rows, p);
      assert leaves == LeafPathsAll(TreesOf(rows, p, ChildCodes(rows, p)), p);
    }
  }

  lemma {:induction false} LeavesOrdered(rows: seq<FlatRecord>, p: Path, k: nat)
    requires |p| < 5 && k <= |ChildCodes(rows, p)|
    ensures Ordered(rows, LeafPathsAll(TreesOf(rows, p, ChildCodes(rows, p)[k..]), p))
    decreases 5 - |p|, 0, |ChildCodes(rows, p)| - k
  {
    var codes := ChildCodes(rows, p);
    hide Known, ChildCodes, Precedes, NoDup, TreeOf, LeafPaths;
    if k < |codes| {
      assert codes[k..][1..] == codes[k + 1..] && codes[k..][0] == codes[k];
      var p0 := p + [codes[k]];
      var first := LeafPaths(TreeOf(rows, p0), p);
      var rest := LeafPathsAll(TreesOf(rows, p, codes[k + 1..]), p);
      assert p0[..|p0| - 1] == p;
      ChildCodesFacts(rows, p);
      TreeLeavesOrdered(rows, p0);
      LeavesOrdered(rows, p, k + 1);
      forall a, b | a in first && b in rest
        ensures Precedes(rows, a, b)
      {
        FirstPrecedesRest(rows, p, k, a, b);
      }
      OrderedAppend(rows, first, rest);
    }
  }

  /** Leaves below an earlier child precede leaves below a later one. */
  lemma FirstPrecedesRest(rows: seq<FlatRecord>, p: Path, k: nat, a: Path, b: Path)
    requires |p| < 5 && k < |ChildCodes(rows, p)|
    requires var codes := ChildCodes(rows, p);
             && a in LeafPaths(TreeOf(rows, p + [codes[k]]), p)
             && b in LeafPathsAll(TreesOf(rows, p, codes[k + 1..]), p)
    ensures Precedes(rows, a, b)
  {
    hide Known, ChildCodes, SeenBefore, NoDup, TreeOf, TreesOf, LeafPaths, LeafPathsAll, Precedes;
    var codes := ChildCodes(rows, p);
    var p0 := p + [codes[k]];
    assert p0[..|p0| - 1] == p;
    assert Known(rows, p0) by {
      ChildCodesFacts(rows, p);
    }
    LeafMember(rows, p0, a);
    LeafMembers(rows, p, codes[k + 1..], b);
    var m :| 0 <= m < |codes[k + 1..]| && codes[k + 1..][m] == b[|p|];
    ChildCodesOrder(rows, p, k, k + 1 + m);
    PartAt(rows, p, codes[k], codes[k + 1 + m], a, b);
  }

  lemma PartAt(rows: seq<FlatRecord>, p: Path, x: string, y: string, a: Path, b: Path)
    requires p + [x] <= a && p <= b && |b| > |p| && b[|p|] == y
    requires SeenBefore(rows, p + [x], p + [y])
    ensures Precedes(rows, a, b)
  {
    hide SeenBefore;
    var d := |p|;
    assert a[..d] == p == b[..d];
    assert a[..d + 1] == p + [x] && b[..d + 1] == p + [y];
  }

  lemma OrderedAppend(rows: seq<FlatRecord>, s: seq<Path>, t: seq<Path>)
    requires Ordered(rows, s) && Ordered(rows, t)
    requires forall a, b :: a in s && b in t ==> Precedes(rows, a, b)
    ensures Ordered(rows, s + t)
  {
    hide Precedes;
    forall i, j | 0 <= i < j < |s + t|
      ensures Precedes(rows, (s + t)[i], (s + t)[j])
    {
      if i < |s| <= j {
        assert s[i] in s && t[j - |s|] in t;
      }
    }
  }

  lemma OrderedDistinct(rows: seq<FlatRecord>, ps: seq<Path>)
    requires Ordered(rows, ps)
    ensures NoDup(ps)
  {
    forall i, j | 0 <= i < j < |ps|
      ensures ps[i] != ps[j]
    {
      assert Precedes(rows, ps[i], ps[j]);
    }
  }

  /**
   * The leaves of the hierarchy are exactly the paths of the complete rows, each once, grouped by
   * prefix in the order in which the rows first show each branch.
   */
  lemma LeavesAreCompleteRows(rows: seq<FlatRecord>)
    ensures var ps := LeafPathsAll(HierarchyOf(rows), []);
            && NoDup(ps)
            && (forall q :: q in ps <==> exists i :: 0 <= i < |rows| && Complete(rows[i]) && Codes(rows[i]) == q)
            && Ordered(rows, ps)
  {
    hide ChildCodes, Known, Complete, Codes, Precedes, NoDup;
    var codes := ChildCodes(rows, []);
    var ps := LeafPathsAll(HierarchyOf(rows), []);
    assert ps == LeafPathsAll(TreesOf(rows, [], codes), []);
    assert codes[0..] == codes;
    hide TreesOf, LeafPathsAll;
    LeavesOrdered(rows, [], 0);
    OrderedDistinct(rows, ps);
    forall q
      ensures q in ps <==> exists i :: 0 <= i < |rows| && Complete(rows[i]) && Codes(rows[i]) == q
    {
      LeafMembers(rows, [], codes, q);
      VillagePath(rows, q);
      if |q| == 5 && Known(rows, q) {
        KnownPrefix(rows, [q[0]], q);
        ChildCodesFacts(rows, []);
        assert [] + [q[0]] == [q[0]];
      }
    }
  }

  /** A known path of five codes is the path of a complete row. */
  lemma VillagePath(rows: seq<FlatRecord>, q: Path)
    ensures |q| == 5 && Known(rows, q) <==> exists i :: 0 <= i < |rows| && Complete(rows[i]) && Codes(rows[i]) == q
  {
    hide Complete, Codes;
    if |q| == 5 && Known(rows, q) {
      var i :| 0 <= i < |rows| && Covers(rows[i], q);
      assert Codes(rows[i]) == q;
    }
    if i :| 0 <= i < |rows| && Complete(rows[i]) && Codes(rows[i]) == q {
      assert Covers(rows[i], q);
    }
  }

  // ---- rows that add nothing ----

  /** A row that is incomplete or whose five codes a complete row has shown before. */
  ghost predicate Seen(rows: seq<FlatRecord>, r: FlatRecord) {
    Complete(r) ==> Known(rows, Codes(r))
  }

  lemma SeenRowChanges(rows: seq<FlatRecord>, r: FlatRecord, p: Path)
    requires Seen(rows, r) && |p| <= 5
    ensures ChildCodes(rows + [r], p) == ChildCodes(rows, p)
    ensures Known(rows + [r], p) <==> Known(rows, p)
    ensures |p| > 0 && Known(rows, p) ==> NameAt(rows + [r], p) == NameAt(rows, p)
  {
    hide Complete, Codes, Known, ChildCodes, NameAt;
    ChildCodesAppend(rows, r, p);
    KnownAppend(rows, r, p);
    if |p| > 0 {
      NameAtAppend(rows, r, p);
    }
    if Covers(r, p) {
      KnownPrefix(rows, p, Codes(r));
      if |p| < 5 {
        assert p + [Codes(r)[|p|]] == Codes(r)[..|p| + 1];
        KnownPrefix(rows, p + [Codes(r)[|p|]], Codes(r));
        ChildCodesFacts(rows, p);
      }
    }
  }

  lemma {:induction false} SeenRowSameTrees(rows: seq<FlatRecord>, r: FlatRecord, p: Path, codes: seq<string>)
    requires Seen(rows, r) && |p| < 5 && forall c :: c in codes ==> c in ChildCodes(rows, p)
    ensures TreesOf(rows + [r], p, codes) == TreesOf(rows, p, codes)
    decreases 5 - |p|, |codes|
  {
    hide Seen, Known, ChildCodes, NameAt;
    if codes != [] {
      var p0 := p + [codes[0]];
      ChildCodesFacts(rows, p);
      SeenRowChanges(rows, r, p0);
      if |p0| < 5 {
        SeenRowSameTrees(rows, r, p0, ChildCodes(rows, p0));
      }
      SeenRowSameTrees(rows, r, p, codes[1..]);
    }
  }

  lemma SeenRowSameHierarchy(rows: seq<FlatRecord>, r: FlatRecord)
    requires Seen(rows, r)
    ensures HierarchyOf(rows + [r]) == HierarchyOf(rows)
    ensures forall s :: Seen(rows, s) ==> Seen(rows + [r], s)
  {
    SeenRowChanges(rows, r, []);
    SeenRowSameTrees(rows, r, [], ChildCodes(rows, []));
    forall s | Seen(rows, s)
      ensures Seen(rows + [r], s)
    {
      KnownAppend(rows, r, Codes(s));
    }
  }

  lemma {:induction false} SeenRowsSameHierarchy(rows: seq<FlatRecord>, more: seq<FlatRecord>)
    requires forall r :: r in more ==> Seen(rows, r)
    ensures HierarchyOf(rows + more) == HierarchyOf(rows)
    decreases more
  {
    hide HierarchyOf, Seen;
    if more == [] {
      assert rows + more == rows;
    } else {
      SeenRowSameHierarchy(rows, more[0]);
      assert rows + more == (rows + [more[0]]) + more[1..];
      SeenRowsSameHierarchy(rows + [more[0]], more[1..]);
    }
  }

  /** Appending rows leaves the hierarchy alone exactly when each of them is incomplete or repeats a path. */
  lemma AppendedRowsChangeNothingIffSeen(rows: seq<FlatRecord>, more: seq<FlatRecord>)
    ensures HierarchyOf(rows + more) == HierarchyOf(rows) <==> forall r :: r in more ==> Seen(rows, r)
  {
    hide HierarchyOf, Codes, Complete, LeafPathsAll, Precedes, NoDup;
    if forall r :: r in more ==> Seen(rows, r) {
      SeenRowsSameHierarchy(rows, more);
    }
    if HierarchyOf(rows + more) == HierarchyOf(rows) {
      LeavesAreCompleteRows(rows);
      LeavesAreCompleteRows(rows + more);
      forall r | r in more && Complete(r)
        ensures Known(rows, Codes(r))
      {
        var i :| 0 <= i < |more| && more[i] == r;
        assert (rows + more)[|rows| + i] == r;
        assert Codes(r) in LeafPathsAll(HierarchyOf(rows), []);
        VillagePath(rows, Codes(r));
      }
    }
  }

  // ---- seeding keeps such a hierarchy unchanged ----

  lemma {:induction false} NameTrimmed(rows: seq<FlatRecord>, p: Path)
    requires |p| <= 5
    ensures Trim(NameAt(rows, p)) == NameAt(rows, p)
  {
    hide Trim, Covers;
    if rows != [] && |p| > 0 {
      if Covers(rows[0], p) {
        ValueTrimmed(rows[0]);
      } else {
        NameTrimmed(rows[1..], p);
      }
    }
    EmptyTrimmed();
  }

  lemma EmptyTrimmed()
    ensures Trim("") == ""
  {
  }

  lemma ValueTrimmed(r: FlatRecord)
    ensures forall i :: 0 <= i < 5 ==> Trim(Codes(r)[i]) == Codes(r)[i] && Trim(Names(r)[i]) == Names(r)[i]
  {
    hide Trim;
    EmptyTrimmed();
    forall v: Option<string>
      ensures Trim(TrimValue(v)) == TrimValue(v)
    {
      if v.Some? {
        TrimIdempotent(v.value);
      }
    }
  }

  lemma CodeTrimmed(rows: seq<FlatRecord>, p: Path, i: nat)
    requires Known(rows, p) && i < |p|
    ensures Trim(p[i]) == p[i]
  {
    hide Trim, Complete, Codes;
    var k :| 0 <= k < |rows| && Covers(rows[k], p);
    ValueTrimmed(rows[k]);
    assert p[i] == Codes(rows[k])[i];
  }
}

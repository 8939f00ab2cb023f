/** A hierarchy written as flat rows, one for each village, is the hierarchy that those rows are folded into. */
module FlatRoundTrip {
  import opened Wrappers
  import opened Sequences
  import opened Text
  import opened LocationModel
  import opened LocationSeeder
  import opened FlatHierarchy

  predicate Trimmed(s: string) {
    s != "" && Trim(s) == s
  }

  function CodesOf(ts: seq<Tree>): (codes: seq<string>)
    ensures |codes| == |ts|
  {
    if ts == [] then [] else [ts[0].code] + CodesOf(ts[1..])
  }

  /** The tree stands k levels below a root and goes down to villages everywhere. */
  ghost predicate Deep(t: Tree, k: nat)
    decreases t, 1
  {
    && k < 5 && t.level == LEVELS[k] && Trimmed(t.name) && Trimmed(t.code)
    && (t.children == [] <==> k == 4)
    && DeepAll(t.children, k + 1)
  }

  /** So do all these siblings, and no two of them have the same code. */
  ghost predicate DeepAll(ts: seq<Tree>, k: nat)
    decreases ts, 0
  {
    NoDup(CodesOf(ts)) && forall i :: 0 <= i < |ts| ==> Deep(ts[i], k)
  }

  /** The row of a village, given the units it lies in from the province down. */
  function VillageRow(above: seq<Tree>, village: Tree): FlatRecord
    requires |above| == 4
  {
    FlatRecord(
      provinceCode := Some(above[0].code), provinceName := Some(above[0].name),
      districtCode := Some(above[1].code), districtName := Some(above[1].name),
      sectorCode := Some(above[2].code), sectorName := Some(above[2].name),
      cellCode := Some(above[3].code), cellName := Some(above[3].name),
      villageCode := Some(village.code), villageName := Some(village.name))
  }

  /** One row for each village of the tree, from left to right. */
  function RowsOf(above: seq<Tree>, t: Tree): seq<FlatRecord>
    decreases t, 1
  {
    if |above| == 4 then [VillageRow(above, t)] else RowsOfAll(above + [t], t.children)
  }

  function RowsOfAll(above: seq<Tree>, ts: seq<Tree>): seq<FlatRecord>
    decreases ts, 0
  {
    if ts == [] then [] else RowsOf(above, ts[0]) + RowsOfAll(above, ts[1..])
  }

  // ---- only the rows below a unit decide what is read of it ----

  ghost predicate NoneCovers(rows: seq<FlatRecord>, p: Path) {
    forall i :: 0 <= i < |rows| ==> !Covers(rows[i], p)
  }

  lemma {:induction false} CodesFromCovering(a: seq<FlatRecord>, mid: seq<FlatRecord>, b: seq<FlatRecord>, p: Path)
    requires NoneCovers(a, p) && NoneCovers(b, p)
    ensures ChildCodes(a + mid + b, p) == ChildCodes(mid, p)
    decreases |a| + |mid| + |b|
  {
    hide Covers, Codes;
    var rows := a + mid + b;
    if b != [] {
      assert rows[..|rows| - 1] == a + mid + b[..|b| - 1] && rows[|rows| - 1] == b[|b| - 1];
      CodesFromCovering(a, mid, b[..|b| - 1], p);
    } else if mid != [] {
      assert rows[..|rows| - 1] == a + mid[..|mid| - 1] + [] && rows[|rows| - 1] == mid[|mid| - 1];
      CodesFromCovering(a, mid[..|mid| - 1], [], p);
    } else if a != [] {
      assert rows[..|rows| - 1] == a[..|a| - 1] + [] + [] && rows[|rows| - 1] == a[|a| - 1];
      CodesFromCovering(a[..|a| - 1], [], [], p);
    } else {
      assert rows == [];
    }
  }

  lemma {:induction false} NameFromCovering(a: seq<FlatRecord>, mid: seq<FlatRecord>, b: seq<FlatRecord>, p: Path)
    requires NoneCovers(a, p) && NoneCovers(b, p) && 0 < |p| <= 5
    ensures NameAt(a + mid + b, p) == NameAt(mid, p)
    decreases |a| + |mid| + |b|
  {
    hide Covers, Names;
    var rows := a + mid + b;
    if a != [] {
      assert rows[1..] == a[1..] + mid + b && rows[0] == a[0];
      NameFromCovering(a[1..], mid, b, p);
    } else if mid != [] {
      assert rows[1..] == [] + mid[1..] + b && rows[0] == mid[0];
      NameFromCovering([], mid[1..], b, p);
    } else if b != [] {
      assert rows[1..] == [] + [] + b[1..] && rows[0] == b[0];
      NameFromCovering([], [], b[1..], p);
    } else {
      assert rows == [];
    }
  }

  lemma NoneCoversLonger(rows: seq<FlatRecord>, p: Path, c: string)
    requires NoneCovers(rows, p)
    ensures NoneCovers(rows, p + [c])
  {
    hide Codes, Complete;
    forall i | 0 <= i < |rows|
      ensures !Covers(rows[i], p + [c])
    {
      assert !Covers(rows[i], p);
      assert p <= p + [c];
    }
  }

  lemma {:induction false} TreeFromCovering(a: seq<FlatRecord>, mid: seq<FlatRecord>, b: seq<FlatRecord>, p: Path)
    requires NoneCovers(a, p) && NoneCovers(b, p) && 1 <= |p| <= 5
    ensures TreeOf(a + mid + b, p) == TreeOf(mid, p)
    decreases 5 - |p|, 1, 0
  {
    hide NoneCovers, ChildCodes, NameAt;
    CodesFromCovering(a, mid, b, p);
    NameFromCovering(a, mid, b, p);
    if |p| < 5 {
      TreesFromCovering(a, mid, b, p, ChildCodes(mid, p));
    }
  }

  lemma {:induction false} TreesFromCovering(a: seq<FlatRecord>, mid: seq<FlatRecord>, b: seq<FlatRecord>, p: Path,
                                             codes: seq<string>)
    requires NoneCovers(a, p) && NoneCovers(b, p) && |p| < 5
    ensures TreesOf(a + mid + b, p, codes) == TreesOf(mid, p, codes)
    decreases 5 - |p|, 0, |codes|
  {
    hide NoneCovers, TreeOf;
    if codes != [] {
      NoneCoversLonger(a, p, codes[0]);
      NoneCoversLonger(b, p, codes[0]);
      TreeFromCovering(a, mid, b, p + [codes[0]]);
      TreesFromCovering(a, mid, b, p, codes[1..]);
    }
  }

  // ---- the rows of a tree ----

  /** The units above a tree have proper labels. */
  ghost predicate Above(above: seq<Tree>, k: nat) {
    |above| == k && forall i :: 0 <= i < k ==> Trimmed(above[i].name) && Trimmed(above[i].code)
  }

  /** The row is complete and says what the units on its way are called. */
  ghost predicate RowBelow(r: FlatRecord, units: seq<Tree>) {
    && Complete(r) && |units| <= 5
    && forall i :: 0 <= i < |units| ==> Codes(r)[i] == units[i].code && Names(r)[i] == units[i].name
  }

  lemma VillageRowBelow(above: seq<Tree>, t: Tree)
    requires Above(above, 4) && Deep(t, 4)
    ensures RowBelow(VillageRow(above, t), above + [t])
  {
    hide Trim, DeepAll;
  }

  lemma RowBelowFewer(r: FlatRecord, units: seq<Tree>, t: Tree)
    requires RowBelow(r, units + [t])
    ensures RowBelow(r, units)
  {
    hide Codes, Names, Complete;
    assert forall i :: 0 <= i < |units| ==> (units + [t])[i] == units[i];
  }

  lemma {:induction false} RowsBelow(above: seq<Tree>, t: Tree)
    requires |above| < 5 && Above(above, |above|) && Deep(t, |above|)
    ensures RowsOf(above, t) != []
    ensures forall r :: r in RowsOf(above, t) ==> RowBelow(r, above + [t])
    decreases t, 1
  {
    hide Trim, RowBelow, Trimmed;
    if |above| == 4 {
      VillageRowBelow(above, t);
    } else {
      RowsBelowAll(above + [t], t.children);
      forall r | r in RowsOf(above, t)
        ensures RowBelow(r, above + [t])
      {
        assert r in RowsOfAll(above + [t], t.children);
      }
    }
  }

  lemma {:induction false} RowsBelowAll(above: seq<Tree>, ts: seq<Tree>)
    requires |above| < 5 && Above(above, |above|) && DeepAll(ts, |above|)
    ensures ts != [] ==> RowsOfAll(above, ts) != []
    ensures forall r :: r in RowsOfAll(above, ts) ==> RowBelow(r, above)
    decreases ts, 0
  {
    hide Trim, RowBelow, Above, NoDup, Deep;
    if ts != [] {
      RowsBelow(above, ts[0]);
      RestDeep(ts, |above|);
      RowsBelowAll(above, ts[1..]);
      forall r | r in RowsOfAll(above, ts)
        ensures RowBelow(r, above)
      {
        if r in RowsOf(above, ts[0]) {
          RowBelowFewer(r, above, ts[0]);
        }
      }
    }
  }

  lemma RestDeep(ts: seq<Tree>, k: nat)
    requires ts != [] && DeepAll(ts, k)
    ensures Deep(ts[0], k) && DeepAll(ts[1..], k)
    ensures forall c :: c in CodesOf(ts[1..]) ==> c != ts[0].code
  {
    hide Deep;
    assert CodesOf(ts)[1..] == CodesOf(ts[1..]);
    assert forall i :: 0 <= i < |ts[1..]| ==> ts[1..][i] == ts[i + 1];
    FirstNotAgain(CodesOf(ts));
  }

  /** Exactly the rows of a tree lie below its path. */
  lemma BelowCovers(r: FlatRecord, units: seq<Tree>, p: Path)
    requires RowBelow(r, units) && |p| <= |units|
    ensures Covers(r, p) <==> p == CodesOf(units)[..|p|]
  {
    BelowCodes(r, units);
    hide *;
    CoversExactly(r, p);
    PrefixOfPrefix(Codes(r), CodesOf(units), |p|);
  }

  lemma PrefixOfPrefix<T>(s: seq<T>, t: seq<T>, n: nat)
    requires n <= |t| <= |s| && t == s[..|t|]
    ensures t[..n] == s[..n]
  {
  }

  lemma BelowCodes(r: FlatRecord, units: seq<Tree>)
    requires RowBelow(r, units)
    ensures Complete(r) && |units| <= 5 && CodesOf(units) == Codes(r)[..|units|]
  {
    hide Codes, Names, Complete;
    CodeAt(units);
  }

  lemma {:induction false} CodeAt(ts: seq<Tree>)
    ensures forall i :: 0 <= i < |ts| ==> CodesOf(ts)[i] == ts[i].code
  {
    if ts != [] {
      CodeAt(ts[1..]);
    }
  }

  lemma CodesMore(ts: seq<Tree>, t: Tree)
    ensures CodesOf(ts + [t]) == CodesOf(ts) + [t.code]
  {
    CodeAt(ts);
    CodeAt(ts + [t]);
  }

  // ---- reading the rows back ----

  /** A run of rows that all lie below one child adds this child, if it is new. */
  lemma {:induction false} BlockCodes(a: seq<FlatRecord>, block: seq<FlatRecord>, p: Path, c: string)
    requires block != [] && |p| < 5 && forall r :: r in block ==> Covers(r, p) && Codes(r)[|p|] == c
    ensures var seen := ChildCodes(a, p);
            ChildCodes(a + block, p) == if c in seen then seen else seen + [c]
    decreases |block|
  {
    hide Covers, Codes;
    var init, r := block[..|block| - 1], block[|block| - 1];
    assert r in block && (a + block)[..|a + block| - 1] == a + init && (a + block)[|a + block| - 1] == r;
    if init == [] {
      assert a + init == a;
    } else {
      assert forall r :: r in init ==> r in block;
      BlockCodes(a, init, p, c);
    }
  }

  lemma BlockOfTree(above: seq<Tree>, t: Tree)
    requires |above| < 5 && Above(above, |above|) && Deep(t, |above|)
    ensures forall r :: r in RowsOf(above, t) ==>
              Covers(r, CodesOf(above)) && Covers(r, CodesOf(above + [t])) && Codes(r)[|above|] == t.code
    ensures forall r, c :: r in RowsOf(above, t) && c != t.code ==> !Covers(r, CodesOf(above) + [c])
  {
    hide Above, Deep, RowsOf, Complete, Codes, Names, RowBelow, Covers;
    RowsBelow(above, t);
    CodesMore(above, t);
    var units := above + [t];
    assert CodesOf(units)[..|above|] == CodesOf(above) && CodesOf(units)[..|units|] == CodesOf(units);
    forall r | r in RowsOf(above, t)
      ensures Covers(r, CodesOf(above)) && Covers(r, CodesOf(units)) && Codes(r)[|above|] == t.code
    {
      BelowCovers(r, units, CodesOf(above));
      BelowCovers(r, units, CodesOf(units));
      LastUnit(r, above, t);
    }
    forall r, c | r in RowsOf(above, t) && c != t.code
      ensures !Covers(r, CodesOf(above) + [c])
    {
      BelowCovers(r, units, CodesOf(above) + [c]);
      assert (CodesOf(above) + [c])[|above|] != CodesOf(units)[|above|];
    }
  }

  lemma LastUnit(r: FlatRecord, above: seq<Tree>, t: Tree)
    requires RowBelow(r, above + [t])
    ensures Codes(r)[|above|] == t.code && Names(r)[|above|] == t.name
  {
    hide Complete, Codes, Names;
    assert (above + [t])[|above|] == t;
  }

  /** The children that the rows of some siblings add to those already seen. */
  lemma {:induction false} CodesBack(above: seq<Tree>, a: seq<FlatRecord>, ts: seq<Tree>)
    requires |above| < 5 && Above(above, |above|) && DeepAll(ts, |above|)
    requires forall c :: c in CodesOf(ts) ==> c !in ChildCodes(a, CodesOf(above))
    ensures ChildCodes(a + RowsOfAll(above, ts), CodesOf(above)) == ChildCodes(a, CodesOf(above)) + CodesOf(ts)
    decreases |ts|
  {
    hide Above, Deep, DeepAll, RowsOf, Complete, Codes, Names, RowBelow, Covers, ChildCodes;
    var p := CodesOf(above);
    if ts == [] {
      assert a + [] == a;
    } else {
      var mid := RowsOf(above, ts[0]);
      RestDeep(ts, |above|);
      RowsBelow(above, ts[0]);
      BlockOfTree(above, ts[0]);
      BlockCodes(a, mid, p, ts[0].code);
      CodesBack(above, a + mid, ts[1..]);
      assert a + RowsOfAll(above, ts) == a + mid + RowsOfAll(above, ts[1..]);
    }
  }

  lemma BlockDoesNotCover(above: seq<Tree>, t: Tree, c: string)
    requires |above| < 5 && Above(above, |above|) && Deep(t, |above|) && c != t.code
    ensures NoneCovers(RowsOf(above, t), CodesOf(above) + [c])
  {
    hide Above, Deep, RowsOf, Covers, CodesOf;
    BlockOfTree(above, t);
    var rows := RowsOf(above, t);
    assert forall i :: 0 <= i < |rows| ==> rows[i] in rows;
  }

  lemma NoneCoversAppend(a: seq<FlatRecord>, b: seq<FlatRecord>, p: Path)
    requires NoneCovers(a, p) && NoneCovers(b, p)
    ensures NoneCovers(a + b, p)
  {
    hide Covers;
  }

  lemma {:induction false} OthersDoNotCover(above: seq<Tree>, ts: seq<Tree>, c: string)
    requires |above| < 5 && Above(above, |above|) && DeepAll(ts, |above|) && c !in CodesOf(ts)
    ensures NoneCovers(RowsOfAll(above, ts), CodesOf(above) + [c])
    decreases |ts|
  {
    hide Above, Deep, DeepAll, RowsOf, Covers;
    if ts != [] {
      RestDeep(ts, |above|);
      BlockDoesNotCover(above, ts[0], c);
      OthersDoNotCover(above, ts[1..], c);
      hide NoneCovers;
      NoneCoversAppend(RowsOf(above, ts[0]), RowsOfAll(above, ts[1..]), CodesOf(above) + [c]);
    }
  }

  /** The first row below a unit gives its name. */
  lemma NameBack(above: seq<Tree>, t: Tree)
    requires |above| < 5 && Above(above, |above|) && Deep(t, |above|)
    ensures NameAt(RowsOf(above, t), CodesOf(above + [t])) == t.name
  {
    hide Above, Deep, RowsOf, Codes, Names, Covers, RowBelow;
    var rows := RowsOf(above, t);
    RowsBelow(above, t);
    BlockOfTree(above, t);
    assert rows[0] in rows;
    LastUnit(rows[0], above, t);
  }

  lemma {:induction false} TreeBack(above: seq<Tree>, t: Tree)
    requires |above| < 5 && Above(above, |above|) && Deep(t, |above|)
    ensures TreeOf(RowsOf(above, t), CodesOf(above + [t])) == t
    decreases t, 1
  {
    hide NameAt, Covers, Codes, Names, Complete;
    NameBack(above, t);
    CodesMore(above, t);
    if |above| < 4 {
      ChildrenBack(above + [t], t.children);
      hide DeepAll, Above, ChildCodes, RowsOfAll;
    }
    hide ChildCodes, Above, DeepAll;
  }

  lemma ChildrenBack(above: seq<Tree>, ts: seq<Tree>)
    requires |above| < 5 && Above(above, |above|) && DeepAll(ts, |above|)
    ensures ChildCodes(RowsOfAll(above, ts), CodesOf(above)) == CodesOf(ts)
    ensures TreesOf(RowsOfAll(above, ts), CodesOf(above), CodesOf(ts)) == ts
    decreases ts, 2
  {
    assert ChildCodes([], CodesOf(above)) == [];
    hide Above, DeepAll, ChildCodes, RowsOfAll, TreesOf;
    NothingSeen();
    CodesBack(above, [], ts);
    TreesBack(above, [], ts);
    assert [] + RowsOfAll(above, ts) == RowsOfAll(above, ts) && [] + CodesOf(ts) == CodesOf(ts);
  }

  lemma {:induction false} TreesBack(above: seq<Tree>, a: seq<FlatRecord>, ts: seq<Tree>)
    requires |above| < 5 && Above(above, |above|) && DeepAll(ts, |above|)
    requires forall c :: c in CodesOf(ts) ==> NoneCovers(a, CodesOf(above) + [c])
    ensures TreesOf(a + RowsOfAll(above, ts), CodesOf(above), CodesOf(ts)) == ts
    decreases ts, 1
  {
    hide Above, Deep, DeepAll, RowsOf, Covers, NoneCovers, TreeOf;
    if ts != [] {
      MidDoesNotCover(above, a, ts);
      RestDeep(ts, |above|);
      TreesBack(above, a + RowsOf(above, ts[0]), ts[1..]);
      FirstBack(above, a, ts);
      assert a + RowsOfAll(above, ts) == a + RowsOf(above, ts[0]) + RowsOfAll(above, ts[1..]);
      assert [ts[0]] + ts[1..] == ts;
    }
  }

  lemma FirstBack(above: seq<Tree>, a: seq<FlatRecord>, ts: seq<Tree>)
    requires |above| < 5 && Above(above, |above|) && ts != [] && DeepAll(ts, |above|)
    requires NoneCovers(a, CodesOf(above) + [ts[0].code])
    ensures TreeOf(a + RowsOf(above, ts[0]) + RowsOfAll(above, ts[1..]), CodesOf(above) + [ts[0].code]) == ts[0]
    decreases ts, 0
  {
    hide Above, Deep, DeepAll, RowsOf, Covers, NoneCovers, TreeOf;
    RestDeep(ts, |above|);
    OthersDoNotCover(above, ts[1..], ts[0].code);
    TreeFromCovering(a, RowsOf(above, ts[0]), RowsOfAll(above, ts[1..]), CodesOf(above) + [ts[0].code]);
    TreeBack(above, ts[0]);
    CodesMore(above, ts[0]);
  }

  lemma MidDoesNotCover(above: seq<Tree>, a: seq<FlatRecord>, ts: seq<Tree>)
    requires |above| < 5 && Above(above, |above|) && ts != [] && DeepAll(ts, |above|)
    requires forall c :: c in CodesOf(ts) ==> NoneCovers(a, CodesOf(above) + [c])
    ensures forall c :: c in CodesOf(ts[1..]) ==> NoneCovers(a + RowsOf(above, ts[0]), CodesOf(above) + [c])
  {
    hide Above, Deep, DeepAll, RowsOf, NoneCovers;
    RestDeep(ts, |above|);
    forall c | c in CodesOf(ts[1..])
      ensures NoneCovers(a + RowsOf(above, ts[0]), CodesOf(above) + [c])
    {
      BlockDoesNotCover(above, ts[0], c);
      NoneCoversAppend(a, RowsOf(above, ts[0]), CodesOf(above) + [c]);
    }
  }

  // ---- white space around the fields ----

  /** The row with every field trimmed; missing fields become empty. */
  function Cleaned(r: FlatRecord): FlatRecord {
    FlatRecord(
      provinceCode := Some(TrimValue(r.provinceCode)), provinceName := Some(TrimValue(r.provinceName)),
      districtCode := Some(TrimValue(r.districtCode)), districtName := Some(TrimValue(r.districtName)),
      sectorCode := Some(TrimValue(r.sectorCode)), sectorName := Some(TrimValue(r.sectorName)),
      cellCode := Some(TrimValue(r.cellCode)), cellName := Some(TrimValue(r.cellName)),
      villageCode := Some(TrimValue(r.villageCode)), villageName := Some(TrimValue(r.villageName)))
  }

  lemma CleanedReadsSame(r: FlatRecord)
    ensures Codes(Cleaned(r)) == Codes(r) && Names(Cleaned(r)) == Names(r)
  {
    hide Trim;
    forall v: Option<string>
      ensures TrimValue(Some(TrimValue(v))) == TrimValue(v)
    {
      CleanTwice(v);
    }
    hide TrimValue;
  }

  lemma CleanTwice(v: Option<string>)
    ensures TrimValue(Some(TrimValue(v))) == TrimValue(v)
  {
    if v.Some? {
      TrimIdempotent(v.value);
    }
  }

  lemma {:induction false} CleanedCodes(rows: seq<FlatRecord>, p: Path)
    ensures ChildCodes(Map(Cleaned, rows), p) == ChildCodes(rows, p)
  {
    if rows != [] {
      var init, r := rows[..|rows| - 1], rows[|rows| - 1];
      assert rows == init + [r];
      MapAppend(Cleaned, init, [r]);
      assert Map(Cleaned, [r]) == [Cleaned(r)];
      CleanedCodes(init, p);
      CleanedReadsSame(r);
      hide Codes, Names, Cleaned, Map;
      ChildCodesAppend(Map(Cleaned, init), Cleaned(r), p);
      ChildCodesAppend(init, r, p);
      hide ChildCodes;
    }
  }

  lemma CleanedCovers(r: FlatRecord, p: Path)
    ensures Covers(Cleaned(r), p) <==> Covers(r, p)
  {
    CleanedReadsSame(r);
    hide Codes, Names, Cleaned;
  }

  lemma {:induction false} CleanedName(rows: seq<FlatRecord>, p: Path)
    requires |p| <= 5
    ensures NameAt(Map(Cleaned, rows), p) == NameAt(rows, p)
  {
    if rows != [] {
      CleanedName(rows[1..], p);
      CleanedReadsSame(rows[0]);
      CleanedCovers(rows[0], p);
      hide Codes, Names, Cleaned, Covers;
    }
  }

  lemma {:induction false} CleanedTree(rows: seq<FlatRecord>, p: Path)
    requires 1 <= |p| <= 5
    ensures TreeOf(Map(Cleaned, rows), p) == TreeOf(rows, p)
    decreases 5 - |p|, 1, 0
  {
    hide ChildCodes, NameAt, Map;
    CleanedCodes(rows, p);
    CleanedName(rows, p);
    if |p| < 5 {
      CleanedTrees(rows, p, ChildCodes(rows, p));
    }
  }

  lemma {:induction false} CleanedTrees(rows: seq<FlatRecord>, p: Path, codes: seq<string>)
    requires |p| < 5
    ensures TreesOf(Map(Cleaned, rows), p, codes) == TreesOf(rows, p, codes)
    decreases 5 - |p|, 0, |codes|
  {
    hide TreeOf, Map;
    if codes != [] {
      CleanedTree(rows, p + [codes[0]]);
      CleanedTrees(rows, p, codes[1..]);
    }
  }

  /**
   * Every hierarchy that goes down to villages everywhere, with distinct codes among siblings, is what is read from
   * its rows, one for each village from left to right, whatever white space stands around their fields.
   */
  lemma FlatRowsReadBack(ts: seq<Tree>, rows: seq<FlatRecord>)
    requires DeepAll(ts, 0) && Map(Cleaned, rows) == RowsOfAll([], ts)
    ensures HierarchyOf(rows) == ts
  {
    hide TreesOf, ChildCodes, DeepAll, RowsOfAll, Map;
    CleanedCodes(rows, []);
    CleanedTrees(rows, [], ChildCodes(rows, []));
    ChildrenBack([], ts);
    assert CodesOf([]) == [];
  }

  lemma NothingSeen()
    ensures forall p: Path :: NoneCovers([], p)
  {
    forall p: Path
      ensures NoneCovers([], p)
    {
    }
  }
}

/** Facts about sequences: duplicates, filtering, mapping and stable sorting. */
module Sequences {

  ghost predicate NoDup<T>(s: seq<T>) {
    forall i, j :: 0 <= i < j < |s| ==> s[i] != s[j]
  }

  lemma Assoc<T>(a: seq<T>, b: seq<T>, c: seq<T>)
    ensures a + (b + c) == (a + b) + c
  {
  }

  lemma TailOfAppend<T>(s: seq<T>, t: seq<T>)
    requires s != []
    ensures s + t != [] && (s + t)[0] == s[0] && (s + t)[1..] == s[1..] + t
  {
  }

  function Map<A, B>(f: A -> B, s: seq<A>): seq<B> {
    if s == [] then [] else [f(s[0])] + Map(f, s[1..])
  }

  lemma MapAt<A, B>(f: A -> B, s: seq<A>)
    ensures |Map(f, s)| == |s|
    ensures forall i :: 0 <= i < |s| ==> Map(f, s)[i] == f(s[i])
  {
  }

  function Filter<T>(keep: T -> bool, s: seq<T>): seq<T> {
    if s == [] then [] else
    (if keep(s[0]) then [s[0]] else []) + Filter(keep, s[1..])
  }

  lemma FilterMembers<T>(keep: T -> bool, s: seq<T>)
    ensures |Filter(keep, s)| <= |s|
    ensures forall x :: x in Filter(keep, s) ==> x in s && keep(x)
    ensures forall x :: x in s && keep(x) ==> x in Filter(keep, s)
  {
  }

  lemma FilterNoDup<T>(keep: T -> bool, s: seq<T>)
    requires NoDup(s)
    ensures NoDup(Filter(keep, s))
  {
    if s != [] {
      FilterNoDup(keep, s[1..]);
      FilterMembers(keep, s[1..]);
      assert s[0] !in s[1..];
      assert s[0] !in Filter(keep, s[1..]);
    }
  }

  lemma {:induction false} FilterAppend<T>(keep: T -> bool, s: seq<T>, t: seq<T>)
    ensures Filter(keep, s + t) == Filter(keep, s) + Filter(keep, t)
  {
    if s == [] {
      assert s + t == t;
    } else {
      FilterAppend(keep, s[1..], t);
      TailOfAppend(s, t);
      Assoc(if keep(s[0]) then [s[0]] else [], Filter(keep, s[1..]), Filter(keep, t));
    }
  }

  lemma MapAppend<A, B>(f: A -> B, s: seq<A>, t: seq<A>)
    ensures Map(f, s + t) == Map(f, s) + Map(f, t)
  {
    if s == [] {
      assert s + t == t;
    } else {
      MapAppend(f, s[1..], t);
      TailOfAppend(s, t);
      Assoc([f(s[0])], Map(f, s[1..]), Map(f, t));
    }
  }

  lemma FirstNotAgain<T>(s: seq<T>)
    requires NoDup(s) && s != []
    ensures s[0] !in s[1..]
  {
  }

  lemma NoDupAppend<T>(s: seq<T>, t: seq<T>)
    requires NoDup(s) && NoDup(t) && forall x :: x in s ==> x !in t
    ensures NoDup(s + t)
  {
    forall i, j | 0 <= i < j < |s + t|
      ensures (s + t)[i] != (s + t)[j]
    {
      if i < |s| <= j {
        assert s[i] in s && t[j - |s|] in t;
      }
    }
  }

  lemma RepeatFound<T>(s: seq<T>, i: nat, j: nat)
    requires i < |s| && j < |s| && i != j && s[i] == s[j]
    ensures !NoDup(s)
  {
    if i < j {
      assert s[i] == s[j];
    } else {
      assert s[j] == s[i];
    }
  }

  lemma PrefixDistinct<T>(s: seq<T>, t: seq<T>)
    requires NoDup(t) && s <= t
    ensures NoDup(s)
  {
    forall i, j | 0 <= i < j < |s|
      ensures s[i] != s[j]
    {
      assert s[i] == t[i] && s[j] == t[j];
    }
  }

  lemma HasMember<T>(s: seq<T>)
    requires s != []
    ensures exists x :: x in s
  {
    assert s[0] in s;
  }

  /** Two duplicate-free sequences with the same elements are equally long. */
  lemma SameElementsSameLength<T>(s: seq<T>, t: seq<T>)
    requires NoDup(s) && NoDup(t)
    requires forall x :: x in s <==> x in t
    ensures |s| == |t| && multiset(s) == multiset(t)
  {
    forall x
      ensures multiset(s)[x] == multiset(t)[x]
    {
      NoDupMultiplicity(s, x);
      NoDupMultiplicity(t, x);
    }
    assert multiset(s) == multiset(t);
    assert |s| == |multiset(s)| == |multiset(t)| == |t|;
  }

  lemma {:induction false} NoDupMultiplicity<T>(s: seq<T>, x: T)
    requires NoDup(s)
    ensures multiset(s)[x] == if x in s then 1 else 0
  {
    if s != [] {
      NoDupMultiplicity(s[1..], x);
      assert s == [s[0]] + s[1..];
      assert s[0] !in s[1..];
    }
  }

  lemma {:induction false} MultiplicityNoDup<T>(s: seq<T>)
    requires forall x :: x in s ==> multiset(s)[x] == 1
    ensures NoDup(s)
  {
    forall i, j | 0 <= i < j < |s|
      ensures s[i] != s[j]
    {
      assert s == s[..i] + [s[i]] + s[i + 1..j] + [s[j]] + s[j + 1..];
      assert s[i] == s[j] ==> multiset(s)[s[i]] >= 2;
    }
  }

  /** Reordering keeps membership, length and freedom from duplicates. */
  lemma PermutationFacts<T>(s: seq<T>, t: seq<T>)
    requires multiset(s) == multiset(t)
    ensures |s| == |t|
    ensures forall x :: x in s <==> x in t
    ensures NoDup(s) ==> NoDup(t)
  {
    assert |multiset(s)| == |s| && |multiset(t)| == |t|;
    forall x
      ensures x in s <==> x in t
    {
      assert x in s <==> x in multiset(s);
      assert x in t <==> x in multiset(t);
    }
    if NoDup(s) {
      forall x | x in t
        ensures multiset(t)[x] == 1
      {
        NoDupMultiplicity(s, x);
      }
      MultiplicityNoDup(t);
    }
  }

  /** A duplicate-free sequence of elements of t is no longer than t. */
  lemma NoDupWithin<T>(s: seq<T>, t: seq<T>)
    requires NoDup(s)
    requires forall x :: x in s ==> x in t
    ensures |s| <= |t|
  {
    forall x
      ensures multiset(s)[x] <= multiset(t)[x]
    {
      NoDupMultiplicity(s, x);
    }
    assert multiset(t) == multiset(s) + (multiset(t) - multiset(s));
    assert |multiset(s)| == |s| && |multiset(t)| == |t|;
  }

  lemma RemoveAt<T>(s: seq<T>, t: seq<T>) returns (k: nat)
    requires s != [] && multiset(s) == multiset(t)
    ensures k < |t| && t[k] == s[0] && t == t[..k] + [s[0]] + t[k + 1..]
    ensures multiset(s[1..]) == multiset(t[..k] + t[k + 1..])
  {
    assert s[0] in multiset(t);
    k :| 0 <= k < |t| && t[k] == s[0];
    assert s == [s[0]] + s[1..];
    assert t == t[..k] + [t[k]] + t[k + 1..];
    assert multiset(s) == multiset{s[0]} + multiset(s[1..]);
    assert multiset(t) == multiset{s[0]} + multiset(t[..k] + t[k + 1..]);
    assert multiset(s[1..]) == multiset(s) - multiset{s[0]};
    assert multiset(t[..k] + t[k + 1..]) == multiset(t) - multiset{s[0]};
  }

  lemma {:induction false} MapMultiset<A, B>(f: A -> B, s: seq<A>, t: seq<A>)
    requires multiset(s) == multiset(t)
    ensures multiset(Map(f, s)) == multiset(Map(f, t))
  {
    if s == [] {
      PermutationFacts(s, t);
    } else {
      var k := RemoveAt(s, t);
      MapMultiset(f, s[1..], t[..k] + t[k + 1..]);
      MapAppend(f, t[..k], t[k + 1..]);
      MapAppend(f, t[..k] + [s[0]], t[k + 1..]);
      MapAppend(f, t[..k], [s[0]]);
    }
  }

  lemma {:induction false} FilterMultiset<T>(keep: T -> bool, s: seq<T>, t: seq<T>)
    requires multiset(s) == multiset(t)
    ensures multiset(Filter(keep, s)) == multiset(Filter(keep, t))
    ensures |Filter(keep, s)| == |Filter(keep, t)|
  {
    if s == [] {
      PermutationFacts(s, t);
    } else {
      var k := RemoveAt(s, t);
      FilterMultiset(keep, s[1..], t[..k] + t[k + 1..]);
      FilterAppend(keep, t[..k], t[k + 1..]);
      FilterAppend(keep, t[..k] + [s[0]], t[k + 1..]);
      FilterAppend(keep, t[..k], [s[0]]);
    }
    PermutationFacts(Filter(keep, s), Filter(keep, t));
  }

  lemma {:induction false} FilterAll<T>(keep: T -> bool, s: seq<T>)
    requires forall x :: x in s ==> keep(x)
    ensures Filter(keep, s) == s
  {
    if s != [] {
      FilterAll(keep, s[1..]);
    }
  }
}

/**
 * The stable sort that `Array.prototype.sort` performs when its comparator compares one
 * string key of the elements. The order on keys is a parameter: `order(x, y)` reads "x does not come after y".
 */
module StableSort {

  type KeyOrder = (string, string) -> bool

  ghost predicate TotalPreorder(order: KeyOrder) {
    && (forall x, y :: order(x, y) || order(y, x))
    && (forall x, y, z :: order(x, y) && order(y, z) ==> order(x, z))
  }

  ghost predicate Sorted<T>(order: KeyOrder, key: T -> string, s: seq<T>) {
    forall i, j :: 0 <= i < j < |s| ==> order(key(s[i]), key(s[j]))
  }

  function Insert<T>(order: KeyOrder, key: T -> string, x: T, s: seq<T>): seq<T> {
    if s == [] then [x]
    else if order(key(x), key(s[0])) then [x] + s
    else [s[0]] + Insert(order, key, x, s[1..])
  }

  function Sort<T>(order: KeyOrder, key: T -> string, s: seq<T>): seq<T> {
    if s == [] then [] else Insert(order, key, s[0], Sort(order, key, s[1..]))
  }

  lemma {:induction false} InsertPermutes<T>(order: KeyOrder, key: T -> string, x: T, s: seq<T>)
    ensures multiset(Insert(order, key, x, s)) == multiset{x} + multiset(s)
  {
    if s != [] && !order(key(x), key(s[0])) {
      InsertPermutes(order, key, x, s[1..]);
      assert s == [s[0]] + s[1..];
    }
  }

  lemma {:induction false} SortPermutes<T>(order: KeyOrder, key: T -> string, s: seq<T>)
    ensures multiset(Sort(order, key, s)) == multiset(s)
  {
    if s != [] {
      SortPermutes(order, key, s[1..]);
      InsertPermutes(order, key, s[0], Sort(order, key, s[1..]));
      assert s == [s[0]] + s[1..];
    }
  }

  lemma {:induction false} InsertSorts<T>(order: KeyOrder, key: T -> string, x: T, s: seq<T>)
    requires TotalPreorder(order) && Sorted(order, key, s)
    ensures Sorted(order, key, Insert(order, key, x, s))
  {
    if s != [] && !order(key(x), key(s[0])) {
      InsertSorts(order, key, x, s[1..]);
      var t := Insert(order, key, x, s[1..]);
      InsertPermutes(order, key, x, s[1..]);
      forall k | 0 <= k < |t|
        ensures order(key(s[0]), key(t[k]))
      {
        assert t[k] in multiset(t);
        assert t[k] == x || t[k] in s[1..];
      }
    }
  }

  /** Under a total preorder of the keys the result is sorted. */
  lemma {:induction false} SortSorts<T>(order: KeyOrder, key: T -> string, s: seq<T>)
    requires TotalPreorder(order)
    ensures Sorted(order, key, Sort(order, key, s))
  {
    if s != [] {
      SortSorts(order, key, s[1..]);
      InsertSorts(order, key, s[0], Sort(order, key, s[1..]));
    }
  }

  /** Sorting a sorted sequence changes nothing, so a second sort is harmless. */
  lemma {:induction false} SortOfSorted<T>(order: KeyOrder, key: T -> string, s: seq<T>)
    requires Sorted(order, key, s)
    ensures Sort(order, key, s) == s
  {
    if s != [] {
      SortOfSorted(order, key, s[1..]);
      assert |s| > 1 ==> order(key(s[0]), key(s[1]));
    }
  }
}

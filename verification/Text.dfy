/** String helpers the source takes from JavaScript: `trim` (section 22.1.3.32 of ECMA-262) and decimal digits. */
module Text {
  import opened Wrappers

  /** White space and line terminators in the sense of ECMA-262, sections 12.2 and 12.3. */
  predicate IsSpace(c: char) {
    var n := c as int;
    || 9 <= n <= 13 || n == 32 || n == 0xA0 || n == 0x1680 || 0x2000 <= n <= 0x200A
    || n == 0x2028 || n == 0x2029 || n == 0x202F || n == 0x205F || n == 0x3000 || n == 0xFEFF
  }

  function TrimStart(s: string): (r: string)
    ensures r == [] || !IsSpace(r[0])
  {
    if s != [] && IsSpace(s[0]) then TrimStart(s[1..]) else s
  }

  function TrimEnd(s: string): (r: string)
    ensures r == [] || !IsSpace(r[|r| - 1])
    ensures r <= s
  {
    if s != [] && IsSpace(s[|s| - 1]) then TrimEnd(s[..|s| - 1]) else s
  }

  function Trim(s: string): string {
    TrimEnd(TrimStart(s))
  }

  /** Missing values read as the empty string. */
  function TrimValue(v: Option<string>): string {
    if v.None? then "" else Trim(v.value)
  }

  lemma TrimIdempotent(s: string)
    ensures Trim(Trim(s)) == Trim(s)
  {
    var t := Trim(s);
    assert t <= TrimStart(s);
    assert t != [] ==> t[0] == TrimStart(s)[0];
    assert TrimStart(t) == t;
  }

  ghost predicate AllSpaces(s: string) {
    forall i :: 0 <= i < |s| ==> IsSpace(s[i])
  }

  lemma {:induction false} TrimStartCut(s: string) returns (n: nat)
    ensures n <= |s| && TrimStart(s) == s[n..] && AllSpaces(s[..n])
  {
    if s != [] && IsSpace(s[0]) {
      var k := TrimStartCut(s[1..]);
      n := k + 1;
      assert forall i :: 0 < i < n ==> s[i] == s[1..][..k][i - 1];
    } else {
      n := 0;
    }
  }

  lemma {:induction false} TrimEndCut(s: string)
    ensures TrimEnd(s) <= s && AllSpaces(s[|TrimEnd(s)|..])
    decreases |s|
  {
    if s != [] && IsSpace(s[|s| - 1]) {
      var init := s[..|s| - 1];
      TrimEndCut(init);
      var n := |TrimEnd(init)|;
      assert forall i :: n <= i < |init| ==> s[i] == init[n..][i - n];
    }
  }

  /** Trimming cuts off white space on either side, all of it, and nothing else. */
  lemma TrimCuts(s: string)
    ensures exists left, right :: && AllSpaces(left) && AllSpaces(right) && s == left + Trim(s) + right
    ensures Trim(s) != "" ==> !IsSpace(Trim(s)[0]) && !IsSpace(Trim(s)[|Trim(s)| - 1])
  {
    var n := TrimStartCut(s);
    var rest := TrimStart(s);
    TrimEndCut(rest);
    var left, right := s[..n], rest[|Trim(s)|..];
    assert s == left + rest && rest == Trim(s) + right;
    assert s == left + Trim(s) + right;
    assert Trim(s) != "" ==> Trim(s)[0] == rest[0];
  }

  // ---- decimal notation ----

  predicate IsDigit(c: char) {
    '0' <= c <= '9'
  }

  function Digits(n: nat): (s: string)
    ensures s != [] && forall i :: 0 <= i < |s| ==> IsDigit(s[i])
  {
    var last := ('0' as int + n % 10) as char;
    if n < 10 then [last] else Digits(n / 10) + [last]
  }

  /** An integer as JavaScript prints it. */
  function Decimal(n: int): (s: string)
    ensures s != [] && forall i :: 0 <= i < |s| ==> IsDigit(s[i]) || s[i] == '-'
  {
    if n < 0 then "-" + Digits(-n) else Digits(n)
  }

  predicate AllDigits(s: string) {
    forall i :: 0 <= i < |s| ==> IsDigit(s[i])
  }

  function DigitsValue(s: string): nat
    requires AllDigits(s)
  {
    if s == [] then 0 else DigitsValue(s[..|s| - 1]) * 10 + (s[|s| - 1] as int - '0' as int)
  }

  predicate IsDecimal(s: string) {
    if s != [] && s[0] == '-' then s[1..] != [] && AllDigits(s[1..]) else s != [] && AllDigits(s)
  }

  /** The value of an optionally signed string of decimal digits (section 7.1.4.1 of ECMA-262). */
  function DecimalValue(s: string): int
    requires IsDecimal(s)
  {
    if s[0] == '-' then -(DigitsValue(s[1..]) as int) else DigitsValue(s)
  }

  lemma {:induction false} DigitsRoundTrip(n: nat)
    ensures DigitsValue(Digits(n)) == n
  {
    var s := Digits(n);
    if n >= 10 {
      assert s[..|s| - 1] == Digits(n / 10);
      DigitsRoundTrip(n / 10);
    } else {
      assert s[..|s| - 1] == [];
    }
  }

  lemma DecimalRoundTrip(n: int)
    ensures IsDecimal(Decimal(n)) && DecimalValue(Decimal(n)) == n
  {
    if n < 0 {
      DigitsRoundTrip(-n);
      assert Decimal(n)[1..] == Digits(-n);
    } else {
      DigitsRoundTrip(n);
      assert IsDigit(Decimal(n)[0]);
    }
  }

  // ---- split and join ----

  /** Position of the first occurrence of c, or the length. */
  function IndexOf(s: string, c: char): (i: nat)
    ensures i <= |s| && c !in s[..i] && (i < |s| ==> s[i] == c)
    ensures i == |s| <==> c !in s
  {
    if s == [] || s[0] == c then 0 else
    var j := IndexOf(s[1..], c);
    assert s[..j + 1] == [s[0]] + s[1..][..j];
    assert s == [s[0]] + s[1..];
    j + 1
  }

  function Split(s: string, c: char): (parts: seq<string>)
    ensures parts != [] && forall p :: p in parts ==> c !in p
    decreases |s|
  {
    var i := IndexOf(s, c);
    if i == |s| then [s] else [s[..i]] + Split(s[i + 1..], c)
  }

  function Join(parts: seq<string>, c: char): string {
    if parts == [] then "" else if |parts| == 1 then parts[0] else parts[0] + [c] + Join(parts[1..], c)
  }

  lemma {:induction false} JoinSplit(s: string, c: char)
    ensures Join(Split(s, c), c) == s
    decreases |s|
  {
    hide IndexOf;
    var i := IndexOf(s, c);
    if i < |s| {
      var rest := s[i + 1..];
      JoinSplit(rest, c);
      JoinFirst(s[..i], Split(rest, c), c);
      assert Split(s, c) == [s[..i]] + Split(rest, c);
      hide Join, Split;
      assert s == s[..i] + [c] + rest;
    }
  }

  lemma JoinFirst(part: string, parts: seq<string>, c: char)
    requires parts != []
    ensures Join([part] + parts, c) == part + [c] + Join(parts, c)
  {
    assert ([part] + parts)[1..] == parts;
  }

  lemma {:induction false} IndexOfFirst(a: string, c: char, b: string)
    requires c !in a
    ensures IndexOf(a + [c] + b, c) == |a|
    ensures IndexOf(a, c) == |a|
  {
    if a != [] {
      assert (a + [c] + b)[1..] == a[1..] + [c] + b;
      IndexOfFirst(a[1..], c, b);
    }
  }

  lemma SplitFirst(a: string, c: char, rest: string)
    requires c !in a
    ensures Split(a, c) == [a] && Split(a + [c] + rest, c) == [a] + Split(rest, c)
  {
    hide IndexOf;
    IndexOfFirst(a, c, rest);
    var s := a + [c] + rest;
    assert s[..|a|] == a && s[|a| + 1..] == rest;
  }

  lemma {:induction false} SplitJoin(parts: seq<string>, c: char)
    requires parts != [] && forall p :: p in parts ==> c !in p
    ensures Split(Join(parts, c), c) == parts
  {
    hide Split;
    assert parts[0] in parts;
    SplitFirst(parts[0], c, Join(parts[1..], c));
    assert parts == [parts[0]] + parts[1..];
    if |parts| > 1 {
      SplitJoin(parts[1..], c);
    }
  }

  /** White space around a string does not survive trimming. */
  lemma {:induction false} TrimPadding(left: string, s: string, right: string)
    requires forall i :: 0 <= i < |left| ==> IsSpace(left[i])
    requires forall i :: 0 <= i < |right| ==> IsSpace(right[i])
    ensures Trim(left + s + right) == Trim(s)
  {
    if left != [] {
      assert (left + s + right)[1..] == left[1..] + s + right;
      TrimPadding(left[1..], s, right);
    } else {
      assert left + s + right == s + right;
      TrimRight(s, right);
    }
  }

  lemma {:induction false} TrimEndRight(s: string, right: string)
    requires forall i :: 0 <= i < |right| ==> IsSpace(right[i])
    ensures TrimEnd(s + right) == TrimEnd(s)
  {
    if right != [] {
      assert (s + right)[..|s + right| - 1] == s + right[..|right| - 1];
      assert (s + right)[|s + right| - 1] == right[|right| - 1];
      TrimEndRight(s, right[..|right| - 1]);
    } else {
      assert s + right == s;
    }
  }

  lemma {:induction false} TrimRight(s: string, right: string)
    requires forall i :: 0 <= i < |right| ==> IsSpace(right[i])
    ensures Trim(s + right) == Trim(s)
  {
    if s == [] {
      assert s + right == right;
      AllSpace(right);
    } else if IsSpace(s[0]) {
      assert (s + right)[1..] == s[1..] + right;
      TrimRight(s[1..], right);
    } else {
      assert (s + right)[0] == s[0];
      TrimEndRight(s, right);
    }
  }

  lemma {:induction false} AllSpace(s: string)
    requires forall i :: 0 <= i < |s| ==> IsSpace(s[i])
    ensures Trim(s) == ""
  {
    if s != [] {
      AllSpace(s[1..]);
    }
  }

  lemma TrimClean(s: string)
    requires s != [] && !IsSpace(s[0]) && !IsSpace(s[|s| - 1])
    ensures Trim(s) == s
  {
  }
}

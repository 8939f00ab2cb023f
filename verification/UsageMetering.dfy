/**
 * Daily usage rows: request and error counters and a running average latency that is rounded to
 * hundredths of a millisecond at every update, as the column stores two decimals.
 */
module UsageMetering {
  import opened Wrappers
  import opened Arithmetic
  import opened Sequences

  /** Averages are kept in hundredths of a millisecond. */
  datatype Row = Row(requests: nat, average: nat, errors: nat)

  datatype Key = Key(apiKeyId: string, endpoint: string, date: string)

  datatype Record = Record(key: Key, latencyMs: nat, statusCode: int)

  /** The quotient rounded to the nearest whole number, halves away from zero, for non-negative values. */
  function RoundQuotient(p: nat, q: nat): nat
    requires q > 0
  {
    (2 * p + q) / (2 * q)
  }

  function IsError(statusCode: int): nat {
    if statusCode >= 400 then 1 else 0
  }

  /** INSERT ... ON CONFLICT DO UPDATE on one row. */
  function Upsert(row: Option<Row>, r: Record): Row {
    match row
    case None => Row(1, 100 * r.latencyMs, IsError(r.statusCode))
    case Some(o) => Row(o.requests + 1, RoundQuotient(o.average * o.requests + 100 * r.latencyMs, o.requests + 1),
                        o.errors + IsError(r.statusCode))
  }

  class UsageTable {
    var rows: map<Key, Row>

    constructor ()
      ensures rows == map[]
    {
      rows := map[];
    }

    method RecordRequest(r: Record)
      modifies this
      ensures rows == old(rows)[r.key := Upsert(if r.key in old(rows) then Some(old(rows)[r.key]) else None, r)]
    {
      var isError := if r.statusCode >= 400 then 1 else 0;
      if r.key in rows {
        var row := rows[r.key];
        var weighted := row.average * row.requests + 100 * r.latencyMs;
        row := Row(row.requests + 1, RoundQuotient(weighted, row.requests + 1), row.errors + isError);
        rows := rows[r.key := row];
      } else {
        rows := rows[r.key := Row(1, 100 * r.latencyMs, isError)];
      }
    }
  }

  function TableAfter(records: seq<Record>): map<Key, Row>
    decreases |records|
  {
    if records == [] then map[] else
    var t, r := TableAfter(records[..|records| - 1]), records[|records| - 1];
    t[r.key := Upsert(if r.key in t then Some(t[r.key]) else None, r)]
  }

  // ---- what a row should say ----

  function WithKey(k: Key): Record -> bool {
    (r: Record) => r.key == k
  }

  function Sum(rs: seq<Record>): nat {
    if rs == [] then 0 else Sum(rs[..|rs| - 1]) + rs[|rs| - 1].latencyMs
  }

  function Errors(rs: seq<Record>): nat {
    if rs == [] then 0 else Errors(rs[..|rs| - 1]) + IsError(rs[|rs| - 1].statusCode)
  }

  /** The errors of some requests are those that were answered with 400 or above. */
  lemma {:induction false} ErrorsAreFailures(rs: seq<Record>)
    ensures Errors(rs) == |Filter((r: Record) => r.statusCode >= 400, rs)|
    decreases |rs|
  {
    var failed := (r: Record) => r.statusCode >= 400;
    if rs != [] {
      var init, r := rs[..|rs| - 1], rs[|rs| - 1];
      assert rs == init + [r] && [r][1..] == [];
      ErrorsAreFailures(init);
      FilterAppend(failed, init, [r]);
    }
  }

  /** The row of the samples of one key, computed one update at a time. */
  function RowOf(rs: seq<Record>): Option<Row> {
    if rs == [] then None else Some(Upsert(RowOf(rs[..|rs| - 1]), rs[|rs| - 1]))
  }

  /** Each key's row depends on that key's requests alone. */
  lemma {:induction false} RowsAreIndependent(records: seq<Record>, k: Key)
    ensures RowOf(Filter(WithKey(k), records)) ==
            if k in TableAfter(records) then Some(TableAfter(records)[k]) else None
    decreases |records|
  {
    hide Upsert;
    if records != [] {
      var init, r := records[..|records| - 1], records[|records| - 1];
      RowsAreIndependent(init, k);
      assert records == init + [r];
      FilterAppend(WithKey(k), init, [r]);
      var own := Filter(WithKey(k), init);
      if r.key == k {
        assert Filter(WithKey(k), [r]) == [r];
        assert (own + [r])[..|own + [r]| - 1] == own;
      } else {
        assert Filter(WithKey(k), [r]) == [] && own + [] == own;
      }
    }
  }

  // ---- accuracy ----

  function Abs(x: int): nat {
    if x < 0 then -x else x
  }

  /** Rounding moves a quotient by at most half a unit. */
  lemma RoundQuotientNear(p: nat, q: nat)
    requires q > 0
    ensures Abs(2 * (q * RoundQuotient(p, q) - p)) <= q
  {
    var r := RoundQuotient(p, q);
    assert 2 * p + q == 2 * q * r + (2 * p + q) % (2 * q);
    assert 2 * (q * r) == 2 * q * r;
  }

  /**
   * After n requests the stored average times n differs from the true total by at most
   * (n(n+1) - 2)/4 hundredths: the average itself is off by less than (n+1)/4 hundredths.
   */
  lemma {:induction false} AverageNearTrue(rs: seq<Record>)
    requires rs != []
    ensures RowOf(rs).Some? && RowOf(rs).value.requests == |rs|
    ensures var n := |rs|; Abs(4 * (n * RowOf(rs).value.average - 100 * Sum(rs))) <= n * (n + 1) - 2
  {
    var init, r := rs[..|rs| - 1], rs[|rs| - 1];
    var n := |rs|;
    if n == 1 {
      assert RowOf(init) == None && Sum(init) == 0;
    } else {
      AverageNearTrue(init);
      AverageStep(RowOf(init).value.average, n, r.latencyMs, Sum(init));
      hide RoundQuotient, Abs;
    }
  }

  lemma AverageStep(a: nat, n: nat, x: nat, sum: nat)
    requires n > 1 && Abs(4 * ((n - 1) * a - 100 * sum)) <= (n - 1) * n - 2
    ensures var b := RoundQuotient(a * (n - 1) + 100 * x, n); Abs(4 * (n * b - 100 * (sum + x))) <= n * (n + 1) - 2
  {
    hide RoundQuotient, Abs;
    var p := a * (n - 1) + 100 * x;
    var b := RoundQuotient(p, n);
    RoundQuotientNear(p, n);
    assert a * (n - 1) == (n - 1) * a;
    assert n * b - 100 * (sum + x) == (n * b - p) + ((n - 1) * a - 100 * sum);
    AddErrors(n * b - p, (n - 1) * a - 100 * sum, n);
  }

  lemma AddErrors(x: int, y: int, n: nat)
    requires n > 1 && Abs(2 * x) <= n && Abs(4 * y) <= (n - 1) * n - 2
    ensures Abs(4 * (x + y)) <= n * (n + 1) - 2
  {
    assert n * (n + 1) == (n - 1) * n + 2 * n;
  }

  /** The stored average never leaves the range of the samples. */
  lemma {:induction false} AverageWithinSamples(rs: seq<Record>, low: nat, high: nat)
    requires rs != [] && forall i :: 0 <= i < |rs| ==> low <= rs[i].latencyMs <= high
    ensures RowOf(rs).Some? && 100 * low <= RowOf(rs).value.average <= 100 * high
  {
    var init, r := rs[..|rs| - 1], rs[|rs| - 1];
    if init == [] {
      assert RowOf(init) == None;
    } else {
      AverageWithinSamples(init, low, high);
      AverageNearTrue(init);
      var a, n := RowOf(init).value.average, |rs|;
      RoundWithin(a * (n - 1) + 100 * r.latencyMs, n, 100 * low, 100 * high) by {
        WeightedWithin(a, n - 1, 100 * r.latencyMs, 100 * low, 100 * high);
      }
    }
  }

  lemma WeightedWithin(a: nat, m: nat, x: nat, low: nat, high: nat)
    requires low <= a <= high && low <= x <= high
    ensures low * (m + 1) <= a * m + x <= high * (m + 1)
  {
    assert low * m <= a * m <= high * m;
  }

  lemma RoundWithin(p: nat, q: nat, low: nat, high: nat)
    requires q > 0 && low * q <= p <= high * q
    ensures low <= RoundQuotient(p, q) <= high
  {
    assert low * (2 * q) == 2 * (low * q) && (high + 1) * (2 * q) == 2 * (high * q) + 2 * q;
    DivBounds(2 * p + q, 2 * q, low, high);
  }

  lemma {:induction false} CountersExact(rs: seq<Record>)
    requires rs != []
    ensures RowOf(rs).Some? && RowOf(rs).value.requests == |rs|
    ensures RowOf(rs).value.errors == Errors(rs) && Errors(rs) <= |rs|
  {
    if |rs| > 1 {
      CountersExact(rs[..|rs| - 1]);
    } else {
      assert RowOf(rs[..0]) == None && Errors(rs[..0]) == 0;
    }
  }

  // ---- the weighted aggregate over several rows ----

  /** SUM(average * requests) over the rows of several keys. */
  function WeightedTotal(groups: seq<seq<Record>>): nat
    requires forall i :: 0 <= i < |groups| ==> groups[i] != []
  {
    if groups == [] then 0 else RowOf(groups[0]).value.average * |groups[0]| + WeightedTotal(groups[1..])
  }

  function Requests(groups: seq<seq<Record>>): nat {
    if groups == [] then 0 else |groups[0]| + Requests(groups[1..])
  }

  function TrueTotal(groups: seq<seq<Record>>): nat {
    if groups == [] then 0 else Sum(groups[0]) + TrueTotal(groups[1..])
  }

  lemma AddRow(n: nat, a: nat, s: nat, weighted: nat, total: nat, requests: nat, m: nat)
    requires n <= m && Abs(4 * (n * a - 100 * s)) <= n * (n + 1) - 2
    requires Abs(4 * (weighted - 100 * total)) <= requests * (m + 1)
    ensures Abs(4 * (a * n + weighted - 100 * (s + total))) <= (n + requests) * (m + 1)
  {
    assert n * (n + 1) <= n * (m + 1);
    assert (n + requests) * (m + 1) == n * (m + 1) + requests * (m + 1);
    assert a * n == n * a;
  }

  /** If no row has more than m requests, the weighted average is off by at most (m+1)/4 hundredths. */
  lemma {:induction false} WeightedAverageNearTrue(groups: seq<seq<Record>>, m: nat)
    requires forall i :: 0 <= i < |groups| ==> groups[i] != [] && |groups[i]| <= m
    ensures Abs(4 * (WeightedTotal(groups) - 100 * TrueTotal(groups))) <= Requests(groups) * (m + 1)
  {
    if groups != [] {
      var rs, rest := groups[0], groups[1..];
      WeightedAverageNearTrue(rest, m);
      AverageNearTrue(rs);
      AddRow(|rs|, RowOf(rs).value.average, Sum(rs), WeightedTotal(rest), TrueTotal(rest), Requests(rest), m);
      hide RowOf, Sum;
    }
  }
}

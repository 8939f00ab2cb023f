/**
 * The webhook signature header: printing, parsing and verification. The keyed hash and JavaScript's
 * string-to-number conversion are parameters of which only what the code relies on is assumed.
 */
module WebhookSigning {
  import opened Wrappers
  import opened Sequences
  import opened Text

  /** What the surrounding runtime computes. */
  datatype Runtime = Runtime(
    hmac: (string, string) -> string,        // secret and content to digest, in hexadecimal
    number: string -> Option<real>,          // Number(s), None when it is not finite
    show: real -> string)                    // a number inside a template string

  predicate IsHexDigit(c: char) {
    '0' <= c <= '9' || 'a' <= c <= 'f'
  }

  predicate IsDigest(s: string) {
    |s| == 64 && forall i :: 0 <= i < |s| ==> IsHexDigit(s[i])
  }

  const TWO_TO_53 := 9_007_199_254_740_992

  /** Integers in the range where JavaScript's numbers are exact. */
  predicate Exact(n: int) {
    -TWO_TO_53 <= n <= TWO_TO_53
  }

  /** A SHA-256 digest has 64 hexadecimal digits; exact decimal integers convert as ECMA-262 says, both ways. */
  ghost predicate Faithful(rt: Runtime) {
    && (forall secret, content :: IsDigest(rt.hmac(secret, content)))
    && (forall s :: IsDecimal(s) && Exact(DecimalValue(s)) ==> rt.number(s) == Some(DecimalValue(s) as real))
    && (forall n: int :: Exact(n) ==> rt.show(n as real) == Decimal(n))
  }

  datatype Signature = Signature(timestamp: real, signature: string)

  function ComputeHmac(rt: Runtime, secret: string, body: string, timestamp: real): string {
    rt.hmac(secret, rt.show(timestamp) + "." + body)
  }

  function BuildHeader(rt: Runtime, secret: string, body: string, timestamp: int): string {
    "t=" + rt.show(timestamp as real) + ",v1=" + ComputeHmac(rt, secret, body, timestamp as real)
  }

  /** `const [key, ...rest] = part.trim().split('=')`, kept when there is a key and a rest. */
  function Field(part: string): Option<(string, string)> {
    var pieces := Split(Trim(part), '=');
    if pieces[0] != "" && |pieces| > 1 then Some((pieces[0], Join(pieces[1..], '='))) else None
  }

  /** The reduction over the parts: a later field replaces an earlier one with the same key. */
  function Collect(parts: seq<string>): map<string, string> {
    if parts == [] then map[] else
    var acc := Collect(parts[..|parts| - 1]);
    var f := Field(parts[|parts| - 1]);
    if f.Some? then acc[f.value.0 := f.value.1] else acc
  }

  function ParseFields(rt: Runtime, fields: map<string, string>): Option<Signature> {
    var timestamp := if "t" in fields then rt.number(fields["t"]) else None;
    if timestamp.None? || "v1" !in fields || fields["v1"] == "" then None
    else Some(Signature(timestamp.value, fields["v1"]))
  }

  function ParseHeader(rt: Runtime, header: string): Option<Signature> {
    ParseFields(rt, Collect(Split(header, ',')))
  }

  datatype Verdict = Valid | Malformed | OutsideTolerance | LengthMismatch | Mismatch | Throws

  function Distance(now: int, timestamp: real): real {
    if now as real >= timestamp then now as real - timestamp else timestamp - now as real
  }

  /** The constant-time comparison works on UTF-8 bytes and throws when the byte lengths differ. */
  function CompareDigests(expected: string, signature: string): Verdict {
    if exists i :: 0 <= i < |signature| && signature[i] as int >= 128 then Throws
    else if expected == signature then Valid
    else Mismatch
  }

  function Verify(rt: Runtime, secret: string, body: string, header: string, tolerance: nat, now: int): Verdict {
    var parsed := ParseHeader(rt, header);
    if parsed.None? then Malformed
    else if Distance(now, parsed.value.timestamp) > tolerance as real then OutsideTolerance
    else
      var expected := ComputeHmac(rt, secret, body, parsed.value.timestamp);
      if |expected| != |parsed.value.signature| then LengthMismatch
      else CompareDigests(expected, parsed.value.signature)
  }

  // ---- fields ----

  /** The value a part list gives to a key: that of the last part with this key. */
  function LastValue(parts: seq<string>, key: string): Option<string> {
    if parts == [] then None else
    var f := Field(parts[|parts| - 1]);
    if f.Some? && f.value.0 == key then Some(f.value.1) else LastValue(parts[..|parts| - 1], key)
  }

  lemma {:induction false} CollectLooksUp(parts: seq<string>, key: string)
    ensures LastValue(parts, key) == if key in Collect(parts) then Some(Collect(parts)[key]) else None
  {
    hide Field;
    if parts != [] {
      CollectLooksUp(parts[..|parts| - 1], key);
    }
  }

  /** Only the two fields matter: headers that agree on them parse alike. */
  lemma ParseDependsOnFields(rt: Runtime, a: seq<string>, b: seq<string>)
    requires LastValue(a, "t") == LastValue(b, "t") && LastValue(a, "v1") == LastValue(b, "v1")
    ensures ParseFields(rt, Collect(a)) == ParseFields(rt, Collect(b))
  {
    hide LastValue, Collect;
    CollectLooksUp(a, "t");
    CollectLooksUp(b, "t");
    CollectLooksUp(a, "v1");
    CollectLooksUp(b, "v1");
  }

  lemma {:induction false} LastValueAppend(a: seq<string>, b: seq<string>, key: string)
    ensures LastValue(a + b, key) == if LastValue(b, key).Some? then LastValue(b, key) else LastValue(a, key)
  {
    hide Field;
    if b == [] {
      assert a + b == a;
    } else {
      assert (a + b)[..|a + b| - 1] == a + b[..|b| - 1];
      assert (a + b)[|a + b| - 1] == b[|b| - 1];
      LastValueAppend(a, b[..|b| - 1], key);
    }
  }

  predicate CommaFree(parts: seq<string>) {
    forall p :: p in parts ==> ',' !in p
  }

  lemma ParseJoined(rt: Runtime, parts: seq<string>)
    requires parts != [] && CommaFree(parts)
    ensures ParseHeader(rt, Join(parts, ',')) == ParseFields(rt, Collect(parts))
  {
    SplitJoin(parts, ',');
  }

  /** White space around a part makes no difference. */
  lemma PaddingIgnored(rt: Runtime, a: seq<string>, left: string, p: string, right: string, b: seq<string>)
    requires CommaFree(a + [p] + b)
    requires forall i :: 0 <= i < |left| ==> IsSpace(left[i])
    requires forall i :: 0 <= i < |right| ==> IsSpace(right[i])
    ensures ParseHeader(rt, Join(a + [left + p + right] + b, ',')) == ParseHeader(rt, Join(a + [p] + b, ','))
  {
    hide Trim, IsSpace;
    TrimPadding(left, p, right);
    assert p in a + [p] + b;
    var padded := a + [left + p + right] + b;
    assert CommaFree(padded) by {
      forall q | q in padded
        ensures ',' !in q
      {
        if q == left + p + right {
          SpaceIsNoComma(left);
          SpaceIsNoComma(right);
        } else {
          assert q in a + [p] + b;
        }
      }
    }
    ParseJoined(rt, padded);
    ParseJoined(rt, a + [p] + b);
    forall key
      ensures LastValue(padded, key) == LastValue(a + [p] + b, key)
    {
      SameFieldSameValue(a, left + p + right, p, b, key);
    }
    ParseDependsOnFields(rt, padded, a + [p] + b);
  }

  lemma SpaceIsNoComma(s: string)
    requires forall i :: 0 <= i < |s| ==> IsSpace(s[i])
    ensures ',' !in s
  {
  }

  lemma SameFieldSameValue(a: seq<string>, x: string, y: string, b: seq<string>, key: string)
    requires Trim(x) == Trim(y)
    ensures LastValue(a + [x] + b, key) == LastValue(a + [y] + b, key)
  {
    assert Field(x) == Field(y);
    hide Field;
    LastValueAppend(a + [x], b, key);
    LastValueAppend(a, [x], key);
    LastValueAppend(a + [y], b, key);
    LastValueAppend(a, [y], key);
    assert [x][..0] == [y][..0] == [];
  }

  /** A part with another key, or with no key at all, can be added anywhere. */
  lemma UnrelatedFieldIgnored(rt: Runtime, a: seq<string>, p: string, b: seq<string>)
    requires a + b != [] && CommaFree(a + [p] + b)
    requires Field(p).Some? ==> Field(p).value.0 != "t" && Field(p).value.0 != "v1"
    ensures ParseHeader(rt, Join(a + [p] + b, ',')) == ParseHeader(rt, Join(a + b, ','))
  {
    hide Field;
    assert forall q :: q in a + b ==> q in a + [p] + b;
    ParseJoined(rt, a + [p] + b);
    ParseJoined(rt, a + b);
    forall key | key == "t" || key == "v1"
      ensures LastValue(a + [p] + b, key) == LastValue(a + b, key)
    {
      LastValueAppend(a + [p], b, key);
      LastValueAppend(a, [p], key);
      LastValueAppend(a, b, key);
      assert [p][..0] == [];
    }
    ParseDependsOnFields(rt, a + [p] + b, a + b);
  }

  function HasKey(key: string): string -> bool {
    (p: string) => Field(p).Some? && Field(p).value.0 == key
  }

  function ValueOf(p: string): string {
    if Field(p).Some? then Field(p).value.1 else ""
  }

  lemma {:induction false} LastValueIsFiltered(parts: seq<string>, key: string)
    ensures var carriers := Filter(HasKey(key), parts);
            LastValue(parts, key) ==
            if carriers == [] then None else Some(ValueOf(carriers[|carriers| - 1]))
  {
    hide Field;
    if parts != [] {
      var init, p := parts[..|parts| - 1], parts[|parts| - 1];
      LastValueIsFiltered(init, key);
      assert parts == init + [p];
      FilterAppend(HasKey(key), init, [p]);
      assert [p][1..] == [];
    }
  }

  /** When no key that matters is given twice, the order of the parts does not matter. */
  lemma OrderIgnored(rt: Runtime, a: seq<string>, b: seq<string>)
    requires a != [] && CommaFree(a) && multiset(a) == multiset(b)
    requires |Filter(HasKey("t"), a)| <= 1 && |Filter(HasKey("v1"), a)| <= 1
    ensures b != [] && ParseHeader(rt, Join(a, ',')) == ParseHeader(rt, Join(b, ','))
  {
    hide Field, LastValue, Collect, Filter;
    PermutationFacts(a, b);
    ParseJoined(rt, a);
    ParseJoined(rt, b);
    forall key | key == "t" || key == "v1"
      ensures LastValue(a, key) == LastValue(b, key)
    {
      LastValueIsFiltered(a, key);
      LastValueIsFiltered(b, key);
      FilterMultiset(HasKey(key), a, b);
      var fa, fb := Filter(HasKey(key), a), Filter(HasKey(key), b);
      if |fa| == 1 {
        assert fa == [fa[0]] && fb == [fb[0]];
        assert fa[0] in multiset(fb);
      }
    }
    ParseDependsOnFields(rt, a, b);
  }

  // ---- the round trip ----

  lemma FieldOf(key: string, value: string)
    requires key != "" && '=' !in key && !IsSpace(key[0])
    requires value != "" && !IsSpace(value[|value| - 1])
    ensures Field(key + "=" + value) == Some((key, value))
  {
    var part := key + "=" + value;
    TrimClean(part);
    IndexOfFirst(key, '=', value);
    assert part == key + ['='] + value;
    assert part[|key| + 1..] == value;
    var pieces := Split(part, '=');
    assert pieces[0] == key && pieces[1..] == Split(value, '=');
    JoinSplit(value, '=');
  }

  /** Parsing a header the service built gives back its timestamp and digest. */
  lemma ParseBuilt(rt: Runtime, secret: string, body: string, timestamp: int)
    requires Faithful(rt) && Exact(timestamp)
    ensures ParseHeader(rt, BuildHeader(rt, secret, body, timestamp)) ==
            Some(Signature(timestamp as real, ComputeHmac(rt, secret, body, timestamp as real)))
  {
    hide ComputeHmac, Decimal, ParseHeader, Plain;
    var digest := ComputeHmac(rt, secret, body, timestamp as real);
    DigestIsPlain(rt, secret, body, timestamp as real);
    ParseTwo(rt, timestamp, digest);
  }

  /** A signature that the header's syntax cannot confuse with anything else. */
  predicate Plain(signature: string) {
    signature != "" && ',' !in signature && !IsSpace(signature[|signature| - 1])
  }

  lemma DigestIsPlain(rt: Runtime, secret: string, body: string, timestamp: real)
    requires Faithful(rt)
    ensures Plain(ComputeHmac(rt, secret, body, timestamp)) && |ComputeHmac(rt, secret, body, timestamp)| == 64
  {
    var digest := ComputeHmac(rt, secret, body, timestamp);
    assert IsDigest(digest);
    assert IsHexDigit(digest[63]);
  }

  lemma ParseTwo(rt: Runtime, timestamp: int, signature: string)
    requires Faithful(rt) && Exact(timestamp) && Plain(signature)
    ensures ParseHeader(rt, "t=" + Decimal(timestamp) + ",v1=" + signature)
            == Some(Signature(timestamp as real, signature))
  {
    hide Field, Decimal, Plain, Split, Join, Collect, ParseFields, IsDecimal, DecimalValue;
    var time := Decimal(timestamp);
    DecimalRoundTrip(timestamp);
    TwoFields(time, signature);
    ParseJoined(rt, ["t=" + time, "v1=" + signature]);
    TwoJoined(time, signature);
    BothPresent(rt, time, signature, timestamp);
  }

  lemma TwoJoined(time: string, digest: string)
    ensures Join(["t=" + time, "v1=" + digest], ',') == "t=" + time + ",v1=" + digest
  {
    var parts := ["t=" + time, "v1=" + digest];
    assert parts[1..] == [parts[1]];
    assert [','] + ("v1=" + digest) == ",v1=" + digest;
  }

  lemma TwoFields(time: string, digest: string)
    requires IsDecimal(time) && Plain(digest)
    ensures CommaFree(["t=" + time, "v1=" + digest])
    ensures Collect(["t=" + time, "v1=" + digest]) == map["t" := time, "v1" := digest]
  {
    hide Field, IsDecimal, Plain, Collect;
    FieldT(time);
    FieldV1(digest);
    PlainText(time, digest);
    CollectTwo("t=" + time, "v1=" + digest, time, digest);
  }

  lemma FieldT(time: string)
    requires IsDecimal(time)
    ensures Field("t=" + time) == Some(("t", time))
  {
    hide Field;
    assert time != "" && IsDigit(time[|time| - 1]);
    FieldOf("t", time);
    assert "t" + "=" + time == "t=" + time;
  }

  lemma FieldV1(digest: string)
    requires Plain(digest)
    ensures Field("v1=" + digest) == Some(("v1", digest))
  {
    hide Field;
    FieldOf("v1", digest);
    assert "v1" + "=" + digest == "v1=" + digest;
  }

  lemma CollectTwo(x: string, y: string, time: string, digest: string)
    requires Field(x) == Some(("t", time)) && Field(y) == Some(("v1", digest))
    ensures Collect([x, y]) == map["t" := time, "v1" := digest]
  {
    hide Field;
    assert [x, y][..1] == [x] && [x][..0] == [];
    assert Collect([]) == map[];
    assert Collect([x]) == map["t" := time];
  }

  lemma BothPresent(rt: Runtime, time: string, digest: string, timestamp: int)
    requires Faithful(rt) && IsDecimal(time) && DecimalValue(time) == timestamp && Exact(timestamp) && Plain(digest)
    ensures ParseFields(rt, map["t" := time, "v1" := digest]) == Some(Signature(timestamp as real, digest))
  {
    hide IsDecimal, DecimalValue, IsDigest;
  }

  lemma PlainText(time: string, digest: string)
    requires IsDecimal(time) && Plain(digest)
    ensures ',' !in "t=" + time && ',' !in "v1=" + digest
  {
  }

  /** A header is accepted exactly when it parses, is fresh enough and carries the digest of its own timestamp. */
  lemma VerifyAccepts(rt: Runtime, secret: string, body: string, header: string, tolerance: nat, now: int)
    requires Faithful(rt)
    ensures var p := ParseHeader(rt, header);
            Verify(rt, secret, body, header, tolerance, now) == Valid <==>
            p.Some? && Distance(now, p.value.timestamp) <= tolerance as real
            && p.value.signature == ComputeHmac(rt, secret, body, p.value.timestamp)
  {
    hide ParseHeader;
    var p := ParseHeader(rt, header);
    if p.Some? {
      assert IsDigest(ComputeHmac(rt, secret, body, p.value.timestamp));
    }
  }

  /**
   * Verification throws, where it promises a verdict, exactly for a fresh header whose signature has the length
   * of a digest and a character outside ASCII: then the comparison meets buffers of different lengths.
   */
  lemma VerifyThrowsIff(rt: Runtime, secret: string, body: string, header: string, tolerance: nat, now: int)
    requires Faithful(rt)
    ensures var p := ParseHeader(rt, header);
            Verify(rt, secret, body, header, tolerance, now) == Throws <==>
            p.Some? && Distance(now, p.value.timestamp) <= tolerance as real && |p.value.signature| == 64
            && exists i :: 0 <= i < |p.value.signature| && p.value.signature[i] as int >= 128
  {
    var p := ParseHeader(rt, header);
    hide ParseHeader, Plain;
    if p.Some? {
      DigestIsPlain(rt, secret, body, p.value.timestamp);
    }
  }

  const E_ACUTE := 233 as char

  /** A header that reaches it: the current time, and sixty-four times the same accented letter. */
  lemma AccentedSignatureThrows(rt: Runtime, secret: string, body: string, tolerance: nat, now: int)
    requires Faithful(rt) && Exact(now)
    ensures var signature := seq(64, i requires 0 <= i < 64 => E_ACUTE);
            Verify(rt, secret, body, "t=" + Decimal(now) + ",v1=" + signature, tolerance, now) == Throws
  {
    var signature := seq(64, i requires 0 <= i < 64 => E_ACUTE);
    assert signature[0] == E_ACUTE && Plain(signature);
    hide ParseHeader, Decimal, Plain;
    ParseTwo(rt, now, signature);
    VerifyThrowsIff(rt, secret, body, "t=" + Decimal(now) + ",v1=" + signature, tolerance, now);
  }

  /** The built header is accepted exactly within the tolerance, in either direction. */
  lemma BuiltHeaderAccepted(rt: Runtime, secret: string, body: string, timestamp: int, tolerance: nat, now: int)
    requires Faithful(rt) && Exact(timestamp)
    ensures Verify(rt, secret, body, BuildHeader(rt, secret, body, timestamp), tolerance, now) == Valid <==>
            -(tolerance as int) <= now - timestamp <= tolerance
  {
    hide ParseHeader, BuildHeader, ComputeHmac, Faithful;
    ParseBuilt(rt, secret, body, timestamp);
    VerifyAccepts(rt, secret, body, BuildHeader(rt, secret, body, timestamp), tolerance, now);
  }

  // ---- what a signature covers ----

  /** The secret and the content that a signature is made of: the time in decimal digits, a point, and the body. */
  function Signed(secret: string, timestamp: int, body: string): (string, string) {
    (secret, Decimal(timestamp) + "." + body)
  }

  /** No two of these inputs have the same digest. */
  ghost predicate CollisionFree(rt: Runtime, inputs: set<(string, string)>) {
    forall x, y :: x in inputs && y in inputs && rt.hmac(x.0, x.1) == rt.hmac(y.0, y.1) ==> x == y
  }

  lemma SignedInjective(a: string, t: int, b: string, u: int)
    requires Decimal(t) + "." + a == Decimal(u) + "." + b
    ensures t == u && a == b
  {
    hide Decimal;
    var x, y := Decimal(t), Decimal(u);
    NoPoint(t);
    NoPoint(u);
    IndexOfFirst(x, '.', a);
    IndexOfFirst(y, '.', b);
    assert x + ['.'] + a == x + "." + a && y + ['.'] + b == y + "." + b;
    var all := x + ['.'] + a;
    assert |x| == |y| && x == all[..|x|] && y == all[..|y|] && a == all[|x| + 1..] && b == all[|y| + 1..];
    DecimalRoundTrip(t);
    DecimalRoundTrip(u);
  }

  lemma NoPoint(n: int)
    ensures '.' !in Decimal(n)
  {
  }

  /**
   * A header with the digest for one secret, time and body, and any time in its t field, is accepted for a secret and
   * a body exactly if all three are those that were signed and the clock is within tolerance.
   */
  lemma SignatureCovers(rt: Runtime, inputs: set<(string, string)>, secret: string, timestamp: int, body: string,
                        t: int, checked: string, received: string, tolerance: nat, now: int)
    requires Faithful(rt) && Exact(t) && CollisionFree(rt, inputs)
    requires Signed(secret, timestamp, body) in inputs && Signed(checked, t, received) in inputs
    ensures var signed := Signed(secret, timestamp, body);
            var header := "t=" + Decimal(t) + ",v1=" + rt.hmac(signed.0, signed.1);
            Verify(rt, checked, received, header, tolerance, now) == Valid <==>
            && t == timestamp && checked == secret && received == body
            && -(tolerance as int) <= now - t <= tolerance
  {
    var digest := rt.hmac(secret, Decimal(timestamp) + "." + body);
    var header := "t=" + Decimal(t) + ",v1=" + digest;
    PlainDigest(digest, rt, secret, Decimal(timestamp) + "." + body);
    ParseTwo(rt, t, digest);
    VerifyAccepts(rt, checked, received, header, tolerance, now);
    ContentOf(rt, checked, received, t);
    hide ParseHeader, Verify, Decimal, Plain, Faithful, ComputeHmac;
    if rt.hmac(checked, Decimal(t) + "." + received) == digest {
      assert Signed(checked, t, received) == Signed(secret, timestamp, body);
      SignedInjective(received, t, body, timestamp);
    }
  }

  lemma PlainDigest(digest: string, rt: Runtime, secret: string, content: string)
    requires Faithful(rt) && digest == rt.hmac(secret, content)
    ensures Plain(digest)
  {
    assert IsDigest(digest);
    assert IsHexDigit(digest[63]);
  }

  lemma ContentOf(rt: Runtime, secret: string, body: string, timestamp: int)
    requires Faithful(rt) && Exact(timestamp)
    ensures ComputeHmac(rt, secret, body, timestamp as real) == rt.hmac(secret, Decimal(timestamp) + "." + body)
  {
    hide Decimal;
  }

  /** The header that the service builds for a body is accepted for this body, under this secret, and for no other. */
  lemma BuiltHeaderCovers(rt: Runtime, inputs: set<(string, string)>, secret: string, timestamp: int, body: string,
                          checked: string, received: string, tolerance: nat, now: int)
    requires Faithful(rt) && Exact(timestamp) && CollisionFree(rt, inputs)
    requires Signed(secret, timestamp, body) in inputs && Signed(checked, timestamp, received) in inputs
    ensures Verify(rt, checked, received, BuildHeader(rt, secret, body, timestamp), tolerance, now) == Valid <==>
            checked == secret && received == body && -(tolerance as int) <= now - timestamp <= tolerance
  {
    ContentOf(rt, secret, body, timestamp);
    BuiltText(rt, secret, body, timestamp);
    hide ParseHeader, Verify, Decimal, Plain, Faithful, ComputeHmac, BuildHeader, CollisionFree;
    SignatureCovers(rt, inputs, secret, timestamp, body, timestamp, checked, received, tolerance, now);
  }

  lemma BuiltText(rt: Runtime, secret: string, body: string, timestamp: int)
    requires Faithful(rt) && Exact(timestamp)
    ensures BuildHeader(rt, secret, body, timestamp)
            == "t=" + Decimal(timestamp) + ",v1=" + ComputeHmac(rt, secret, body, timestamp as real)
  {
    hide Decimal, ComputeHmac;
  }
}

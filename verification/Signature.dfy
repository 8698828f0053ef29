// The Stripe-Signature header: services/payments/internal/webhook/stripe.go,
// parseSignatureHeader and VerifySignature.
module Signature {
  import opened Common
  import opened Machine
  import opened Text

  datatype SignatureError = InvalidSignature | BadTimestamp | ExpiredSignature

  // ---------- parsing the header ----------

  /** One comma-separated part of the header, read on its own. */
  datatype Field = Timestamp(value: string) | Candidate(value: string) | Unknown

  function FieldOf(part: string): Field {
    match Cut(TrimSpace(part), '=')
    case None => Unknown
    case Some((key, value)) =>
      if key == "t" then Timestamp(value) else if key == "v1" then Candidate(value) else Unknown
  }

  /** A part is a timestamp exactly if, trimmed, it starts with "t=", and a candidate exactly if with "v1=". */
  lemma FieldMeaning(part: string)
    ensures FieldOf(part).Timestamp? <==> "t=" <= TrimSpace(part)
    ensures FieldOf(part).Candidate? <==> "v1=" <= TrimSpace(part)
    ensures FieldOf(part).Timestamp? ==> TrimSpace(part) == "t=" + FieldOf(part).value
    ensures FieldOf(part).Candidate? ==> TrimSpace(part) == "v1=" + FieldOf(part).value
  {
    var trimmed := TrimSpace(part);
    var i := IndexOf(trimmed, '=');
    if i < |trimmed| {
      assert trimmed == trimmed[..i] + ['='] + trimmed[i + 1..];
    }
    if "t=" <= trimmed {
      CutFirst("t", '=', trimmed[2..]);
      assert trimmed == "t" + ['='] + trimmed[2..];
    }
    if "v1=" <= trimmed {
      CutFirst("v1", '=', trimmed[3..]);
      assert trimmed == "v1" + ['='] + trimmed[3..];
    }
  }

  datatype Scan = Scan(timestamp: Int64, signatures: seq<string>, hasTime: bool)

  function Fields(parts: seq<string>): seq<Field> {
    Map(FieldOf, parts)
  }

  /** The state of the scan after `fields`; None once a timestamp did not parse. */
  function ScanFields(fields: seq<Field>): Option<Scan> {
    if fields == [] then Some(Scan(0, [], false))
    else
      match ScanFields(fields[..|fields| - 1])
      case None => None
      case Some(scan) => ScanOne(scan, fields[|fields| - 1])
  }

  function ScanParts(parts: seq<string>): Option<Scan> {
    ScanFields(Fields(parts))
  }

  function ScanOne(scan: Scan, field: Field): Option<Scan> {
    match field
    case Unknown => Some(scan)
    case Candidate(value) => Some(scan.(signatures := scan.signatures + [value]))
    case Timestamp(value) =>
      match ParseInt64(value)
      case None => None
      case Some(t) => Some(scan.(timestamp := t, hasTime := true))
  }

  type Header = (Int64, seq<string>)

  function ParsedHeader(header: string): Result<Header, SignatureError> {
    match ScanParts(Split(header, ','))
    case None => Failure(BadTimestamp)
    case Some(scan) =>
      if !scan.hasTime || scan.signatures == [] then Failure(InvalidSignature)
      else Success((scan.timestamp, scan.signatures))
  }

  method ParseSignatureHeader(header: string) returns (r: Result<Header, SignatureError>)
    ensures r == ParsedHeader(header)
  {
    var timestamp: Int64 := 0;
    var signatures: seq<string> := [];
    var hasTime := false;
    var parts := Split(header, ',');
    for i := 0 to |parts|
      invariant ScanParts(parts[..i]) == Some(Scan(timestamp, signatures, hasTime))
    {
      ScanNext(parts, i);
      var cut := Cut(TrimSpace(parts[i]), '=');
      if cut.Some? {
        var (key, value) := cut.value;
        if key == "t" {
          var parsed := ParseInt64(value);
          if parsed.None? {
            ScanStaysFailed(parts, i + 1);
            return Failure(BadTimestamp);
          }
          timestamp := parsed.value;
          hasTime := true;
        } else if key == "v1" {
          signatures := signatures + [value];
        }
      }
    }
    assert parts[..|parts|] == parts;
    if !hasTime || |signatures| == 0 {
      return Failure(InvalidSignature);
    }
    r := Success((timestamp, signatures));
  }

  lemma ScanNext(parts: seq<string>, i: nat)
    requires i < |parts|
    ensures ScanParts(parts[..i + 1]) ==
            match ScanParts(parts[..i]) case None => None case Some(scan) => ScanOne(scan, FieldOf(parts[i]))
  {
    assert Fields(parts[..i + 1])[..i] == Fields(parts[..i]);
  }

  lemma {:induction false} ScanStaysFailed(parts: seq<string>, i: nat)
    requires i <= |parts| && ScanParts(parts[..i]) == None
    ensures ScanParts(parts) == None
    decreases |parts| - i
  {
    if i == |parts| {
      assert parts[..i] == parts;
    } else {
      ScanNext(parts, i);
      ScanStaysFailed(parts, i + 1);
    }
  }

  // ---------- round trip ----------

  /** The parts of a header carrying one timestamp and the given signatures. */
  function HeaderParts(timestamp: Int64, signatures: seq<string>): seq<string> {
    ["t=" + FormatInt(timestamp)] + seq(|signatures|, i requires 0 <= i < |signatures| => "v1=" + signatures[i])
  }

  function PrintHeader(timestamp: Int64, signatures: seq<string>): string {
    Join(HeaderParts(timestamp, signatures), ',')
  }

  /** What a signature must satisfy to survive inside a header. */
  predicate Carriable(signature: string) {
    ',' !in signature && (signature == "" || !IsSpace(signature[|signature| - 1]))
  }

  lemma {:induction false} NumberFieldText(n: int)
    ensures forall i :: 0 <= i < |FormatInt(n)| ==> FormatInt(n)[i] == '-' || IsDigit(FormatInt(n)[i])
    ensures FormatInt(n) != ""
  {
  }

  lemma TimestampField(t: Int64)
    ensures ',' !in "t=" + FormatInt(t)
    ensures FieldOf("t=" + FormatInt(t)) == Timestamp(FormatInt(t))
  {
    var text := FormatInt(t);
    NumberFieldText(t);
    var part := "t=" + text;
    assert forall i :: 0 <= i < |part| ==> i < 2 || part[i] == text[i - 2];
    assert TrimSpace(part) == part;
    CutFirst("t", '=', text);
    assert part == "t" + ['='] + text;
  }

  lemma CandidateField(signature: string)
    requires Carriable(signature)
    ensures ',' !in "v1=" + signature
    ensures FieldOf("v1=" + signature) == Candidate(signature)
  {
    var part := "v1=" + signature;
    assert forall i :: 0 <= i < |part| ==> i < 3 || part[i] == signature[i - 3];
    assert TrimSpace(part) == part;
    CutFirst("v1", '=', signature);
    assert part == "v1" + ['='] + signature;
  }

  lemma HeaderPartsSnoc(t: Int64, signatures: seq<string>, signature: string)
    ensures HeaderParts(t, signatures + [signature]) == HeaderParts(t, signatures) + ["v1=" + signature]
  {
  }

  lemma ScanSnoc(parts: seq<string>, part: string)
    requires ScanParts(parts).Some?
    ensures ScanParts(parts + [part]) == ScanOne(ScanParts(parts).value, FieldOf(part))
  {
    assert Fields(parts + [part])[..|parts|] == Fields(parts);
  }

  lemma {:induction false} ScanPrinted(t: Int64, signatures: seq<string>)
    requires forall i :: 0 <= i < |signatures| ==> Carriable(signatures[i])
    ensures ScanParts(HeaderParts(t, signatures)) == Some(Scan(t, signatures, true))
    ensures forall i :: 0 <= i < |HeaderParts(t, signatures)| ==> ',' !in HeaderParts(t, signatures)[i]
  {
    if signatures == [] {
      TimestampField(t);
      FormatIntRoundTrip(t);
      ScanSnoc([], "t=" + FormatInt(t));
      assert HeaderParts(t, []) == [] + ["t=" + FormatInt(t)];
    } else {
      var last := |signatures| - 1;
      var before, signature := signatures[..last], signatures[last];
      assert signatures == before + [signature];
      ScanPrinted(t, before);
      CandidateField(signature);
      HeaderPartsSnoc(t, before, signature);
      ScanSnoc(HeaderParts(t, before), "v1=" + signature);
    }
  }

  /** Every signature a header yields was comma-free and ended in no space. */
  lemma {:induction false} ScannedAreCarriable(fields: seq<Field>)
    requires forall k :: 0 <= k < |fields| ==> fields[k].Candidate? ==> Carriable(fields[k].value)
    requires ScanFields(fields).Some?
    ensures forall i :: 0 <= i < |ScanFields(fields).value.signatures| ==>
                          Carriable(ScanFields(fields).value.signatures[i])
  {
    if fields != [] {
      ScannedAreCarriable(fields[..|fields| - 1]);
    }
  }

  lemma FieldIsCarriable(part: string)
    requires ',' !in part
    ensures FieldOf(part).Candidate? ==> Carriable(FieldOf(part).value)
  {
    TrimKeepsClean(part, ',');
    var trimmed := TrimSpace(part);
    var i := IndexOf(trimmed, '=');
    if i < |trimmed| {
      var value := trimmed[i + 1..];
      assert value != "" ==> value[|value| - 1] == trimmed[|trimmed| - 1];
      assert forall k :: 0 <= k < |value| ==> value[k] == trimmed[i + 1 + k];
    }
  }

  lemma TrimKeepsClean(s: string, c: char)
    requires c !in s
    ensures c !in TrimSpace(s)
  {
    TrimLeftKeepsClean(s, c);
  }

  lemma {:induction false} TrimLeftKeepsClean(s: string, c: char)
    requires c !in s
    ensures c !in TrimLeft(s)
  {
    if s != "" && IsSpace(s[0]) {
      TrimLeftKeepsClean(s[1..], c);
    }
  }

  /**
   * A printed header parses back to exactly its timestamp and signatures if and only if it carries at
   * least one signature, and every one is comma-free and does not end in a space.
   */
  lemma HeaderRoundTrip(t: Int64, signatures: seq<string>)
    ensures ParsedHeader(PrintHeader(t, signatures)) == Success((t, signatures)) <==>
            (signatures != [] && forall i :: 0 <= i < |signatures| ==> Carriable(signatures[i]))
  {
    var header := PrintHeader(t, signatures);
    if signatures != [] && forall i :: 0 <= i < |signatures| ==> Carriable(signatures[i]) {
      ScanPrinted(t, signatures);
      SplitJoin(HeaderParts(t, signatures), ',');
    } else if ParsedHeader(header) == Success((t, signatures)) {
      var parts := Split(header, ',');
      forall k | 0 <= k < |parts|
        ensures FieldOf(parts[k]).Candidate? ==> Carriable(FieldOf(parts[k]).value)
      {
        FieldIsCarriable(parts[k]);
      }
      ScannedAreCarriable(Fields(parts));
    }
  }

  // ---------- unknown fields ----------

  lemma {:induction false} ScanSkipsUnknown(a: seq<Field>, b: seq<Field>)
    ensures ScanFields(a + [Unknown] + b) == ScanFields(a + b)
  {
    if b == [] {
      assert (a + [Unknown] + b)[..|a|] == a && a + b == a;
    } else {
      var last := |b| - 1;
      ScanSkipsUnknown(a, b[..last]);
      assert (a + [Unknown] + b)[..|a| + 1 + last] == a + [Unknown] + b[..last];
      assert (a + b)[..|a| + last] == a + b[..last];
    }
  }

  lemma UnknownBetween(before: string, field: string, after: string)
    requires ',' !in field && FieldOf(field) == Unknown
    ensures ParsedHeader(before + [','] + (field + [','] + after)) == ParsedHeader(before + [','] + after)
  {
    SplitConcat(before, ',', field + [','] + after);
    SplitHead(field, ',', after);
    SplitConcat(before, ',', after);
    PartsIgnoreUnknown(Split(before, ','), field, Split(after, ','));
  }

  lemma UnknownInFront(field: string, after: string)
    requires ',' !in field && FieldOf(field) == Unknown
    ensures ParsedHeader(field + [','] + after) == ParsedHeader(after)
  {
    var b := Split(after, ',');
    SplitHead(field, ',', after);
    PartsIgnoreUnknown([], field, b);
    assert [] + ([field] + b) == [field] + b && [] + b == b;
  }

  lemma UnknownAtEnd(before: string, field: string)
    requires ',' !in field && FieldOf(field) == Unknown
    ensures ParsedHeader(before + [','] + field) == ParsedHeader(before)
  {
    var a := Split(before, ',');
    SplitConcat(before, ',', field);
    IndexOfFirst(field, ',', "");
    PartsIgnoreUnknown(a, field, []);
    assert a + ([field] + []) == a + [field] && a + [] == a;
  }

  /** Adding a field the parser does not know - between two parts, in front or at the end - changes nothing. */
  lemma UnknownFieldIgnored(before: string, field: string, after: string)
    requires ',' !in field && FieldOf(field) == Unknown
    ensures ParsedHeader(before + [','] + (field + [','] + after)) == ParsedHeader(before + [','] + after)
    ensures ParsedHeader(field + [','] + after) == ParsedHeader(after)
    ensures ParsedHeader(before + [','] + field) == ParsedHeader(before)
  {
    UnknownBetween(before, field, after);
    UnknownInFront(field, after);
    UnknownAtEnd(before, field);
  }

  lemma PartsIgnoreUnknown(a: seq<string>, unknown: string, b: seq<string>)
    requires FieldOf(unknown) == Unknown
    ensures ScanParts(a + ([unknown] + b)) == ScanParts(a + b)
  {
    ScanSkipsUnknown(Fields(a), Fields(b));
    MapConcat(FieldOf, a, b);
    MapConcat(FieldOf, a, [unknown] + b);
    MapConcat(FieldOf, [unknown], b);
    assert Fields([unknown]) == [Unknown];
    assert Fields(a) + ([Unknown] + Fields(b)) == Fields(a) + [Unknown] + Fields(b);
  }

  // ---------- verification ----------

  /** The text the MAC is computed over. */
  function SignedText(timestamp: Int64, payload: string): string {
    FormatInt(timestamp) + ['.'] + payload
  }

  /** The signed text determines both the timestamp and the payload. */
  lemma SignedTextInjective(t1: Int64, p1: string, t2: Int64, p2: string)
    requires SignedText(t1, p1) == SignedText(t2, p2)
    ensures t1 == t2 && p1 == p2
  {
    NumberFieldText(t1);
    NumberFieldText(t2);
    CutFirst(FormatInt(t1), '.', p1);
    CutFirst(FormatInt(t2), '.', p2);
    FormatIntRoundTrip(t1);
    FormatIntRoundTrip(t2);
  }

  const NANOSECONDS: int := 1_000_000_000

  /** time.Since(time.Unix(t, 0)): Unix seconds are rebased with wrap-around and a Duration saturates. */
  function Age(nowNanoseconds: int, t: Int64): Int64 {
    var elapsed := nowNanoseconds - Wrap(t + UNIX_EPOCH) * NANOSECONDS;
    if elapsed < -TWO_63 then -TWO_63 else if elapsed >= TWO_63 then TWO_63 - 1 else elapsed
  }

  predicate Expired(nowNanoseconds: int, t: Int64, tolerance: Int64) {
    tolerance > 0 && Age(nowNanoseconds, t) > tolerance
  }

  /** While rebasing does not wrap and the tolerance is below the largest Duration, saturation is invisible. */
  lemma ExpiryWindow(nowNanoseconds: int, t: Int64, tolerance: Int64)
    requires t < TWO_63 - UNIX_EPOCH && 0 < tolerance < TWO_63 - 1
    ensures Expired(nowNanoseconds, t, tolerance) <==>
            nowNanoseconds > (t + UNIX_EPOCH) * NANOSECONDS + tolerance
  {
    assert Wrap(t + UNIX_EPOCH) == t + UNIX_EPOCH;
  }

  type Digest = seq<nat>

  /** The keyed hash and the hexadecimal decoder, both left abstract. */
  datatype Crypto = Crypto(mac: (string, string) -> Digest, unhex: string -> Option<Digest>)

  /** A signature in the header decodes to the expected MAC. */
  predicate SomeMatch(crypto: Crypto, signatures: seq<string>, expected: Digest) {
    exists i :: 0 <= i < |signatures| && crypto.unhex(signatures[i]) == Some(expected)
  }

  method Search(crypto: Crypto, signatures: seq<string>, expected: Digest) returns (found: bool)
    ensures found <==> SomeMatch(crypto, signatures, expected)
  {
    for i := 0 to |signatures|
      invariant forall k :: 0 <= k < i ==> crypto.unhex(signatures[k]) != Some(expected)
    {
      var got := crypto.unhex(signatures[i]);
      if got.None? {
        continue;
      }
      if got.value == expected {
        return true;
      }
    }
    found := false;
  }

  predicate Accepted(
    crypto: Crypto, payload: string, parsed: Header, secret: string, tolerance: Int64, nowNanoseconds: int)
  {
    && !Expired(nowNanoseconds, parsed.0, tolerance)
    && SomeMatch(crypto, parsed.1, crypto.mac(secret, SignedText(parsed.0, payload)))
  }

  method VerifySignature(
    crypto: Crypto, payload: string, header: string, secret: string, tolerance: Int64, nowNanoseconds: int)
    returns (r: Result<(), SignatureError>)
    // accepted exactly when the header parses, is young enough and carries the expected MAC
    ensures r.Success? <==>
            && ParsedHeader(header).Success?
            && Accepted(crypto, payload, ParsedHeader(header).value, secret, tolerance, nowNanoseconds)
    // that is: not older than a positive tolerance, and some signature is the MAC of decimal time, dot, payload
    ensures r.Success? <==>
            && ParsedHeader(header).Success?
            && var (timestamp, signatures) := ParsedHeader(header).value;
            && (tolerance <= 0 || Age(nowNanoseconds, timestamp) <= tolerance)
            && exists i :: 0 <= i < |signatures| &&
                           crypto.unhex(signatures[i]) ==
                           Some(crypto.mac(secret, FormatInt(timestamp) + ['.'] + payload))
    ensures ParsedHeader(header).Failure? ==> r == Failure(ParsedHeader(header).error)
    ensures ParsedHeader(header).Success? && r.Failure? ==>
              r.error == (if Expired(nowNanoseconds, ParsedHeader(header).value.0, tolerance)
                          then ExpiredSignature else InvalidSignature)
  {
    var parsed := ParseSignatureHeader(header);
    if parsed.Failure? {
      return Failure(parsed.error);
    }
    var (timestamp, signatures) := parsed.value;
    if tolerance > 0 && Age(nowNanoseconds, timestamp) > tolerance {
      return Failure(ExpiredSignature);
    }
    var expected := crypto.mac(secret, SignedText(timestamp, payload));
    var found := Search(crypto, signatures, expected);
    r := if found then Success(()) else Failure(InvalidSignature);
  }
}

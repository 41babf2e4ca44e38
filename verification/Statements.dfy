/** The statements that endpoints sign, as bytes. Each kind has its own domain prefix and
    every variable-length field carries its length, so that bytes determine the statement. */
module Statements {

  type Byte = b: int | 0 <= b < 256 witness 0
  type ByteString = seq<Byte>

  /** A field whose length fits the eight bytes it is written in. */
  type Field = b: ByteString | |b| < 0x1_0000_0000_0000_0000 witness []

  type U64 = n: int | 0 <= n < 0x1_0000_0000_0000_0000 witness 0

  /** An Ed25519 public key. */
  type KeyBytes = b: ByteString | |b| == 32 witness seq(32, _ => 0)

  /** What an endpoint key signs; `F` is the type of its texts and `R` of resource ids. */
  datatype Statement<F, R> =
    | EndpointProof(endpoint: KeyBytes)
    | GrantRequest(requestId: F, service: F, requester: KeyBytes, expiresAt: nat)
    | GrantIssue(requestId: F, resourceId: R, requester: KeyBytes, expiresAt: nat)

  /** A statement whose texts are bytes and whose times fit eight bytes. */
  type Encodable = s: Statement<Field, Field> | s.EndpointProof? || s.expiresAt < 0x1_0000_0000_0000_0000
    witness EndpointProof(seq(32, _ => 0))

  // -- encoding --------------------------------------------------------------------------------

  function Ascii(s: string): (r: ByteString)
    requires forall i :: 0 <= i < |s| ==> s[i] < 128 as char
    ensures |r| == |s| && forall i :: 0 <= i < |s| ==> r[i] == s[i] as int
  {
    seq(|s|, i requires 0 <= i < |s| => s[i] as int)
  }

  const PROOF_DOMAIN: ByteString := Ascii("dev.site machine endpoint proof v1") + [0]
  const REQUEST_DOMAIN: ByteString := Ascii("dev.site service grant request v1") + [0]
  const ISSUE_DOMAIN: ByteString := Ascii("dev.site service grant issue v1") + [0]

  /** `n` written big-endian in `width` bytes. */
  function BigEndian(n: nat, width: nat): (r: ByteString)
    ensures |r| == width
  {
    if width == 0 then [] else BigEndian(n / 256, width - 1) + [n % 256]
  }

  function PushField(message: ByteString, field: Field): ByteString {
    message + BigEndian(|field|, 8) + field
  }

  method PushFieldInPlace(message: ByteString, field: Field) returns (extended: ByteString)
    ensures extended == PushField(message, field)
  {
    extended := message;
    extended := extended + BigEndian(|field|, 8);
    extended := extended + field;
  }

  function Encode(s: Encodable): ByteString {
    match s
    case EndpointProof(endpoint) => PROOF_DOMAIN + endpoint
    case GrantRequest(requestId, service, requester, expiresAt) =>
      PushField(PushField(PushField(REQUEST_DOMAIN, requestId), service), requester) + BigEndian(expiresAt, 8)
    case GrantIssue(requestId, resourceId, requester, expiresAt) =>
      PushField(PushField(PushField(ISSUE_DOMAIN, requestId), resourceId), requester) + BigEndian(expiresAt, 8)
  }

  method MachineEndpointProofMessage(endpoint: KeyBytes) returns (message: ByteString)
    ensures message == Encode(EndpointProof(endpoint))
  {
    message := PROOF_DOMAIN;
    message := message + endpoint;
  }

  method ServiceGrantRequestMessage(requestId: Field, service: Field, requester: KeyBytes, expiresAt: U64) returns (message: ByteString)
    ensures message == Encode(GrantRequest(requestId, service, requester, expiresAt))
  {
    message := REQUEST_DOMAIN;
    message := PushFieldInPlace(message, requestId);
    message := PushFieldInPlace(message, service);
    message := PushFieldInPlace(message, requester);
    message := message + BigEndian(expiresAt, 8);
  }

  method ServiceGrantIssueMessage(requestId: Field, resourceId: Field, requester: KeyBytes, expiresAt: U64) returns (message: ByteString)
    ensures message == Encode(GrantIssue(requestId, resourceId, requester, expiresAt))
  {
    message := ISSUE_DOMAIN;
    message := PushFieldInPlace(message, requestId);
    message := PushFieldInPlace(message, resourceId);
    message := PushFieldInPlace(message, requester);
    message := message + BigEndian(expiresAt, 8);
  }

  // -- bytes determine the statement --------------------------------------------------------------

  function Power(width: nat): nat {
    if width == 0 then 1 else 256 * Power(width - 1)
  }

  lemma {:induction false} BigEndianInjective(a: nat, b: nat, width: nat)
    requires a < Power(width) && b < Power(width)
    requires BigEndian(a, width) == BigEndian(b, width)
    ensures a == b
  {
    if width > 0 {
      var x, y := BigEndian(a, width), BigEndian(b, width);
      assert x[..width - 1] == BigEndian(a / 256, width - 1);
      assert y[..width - 1] == BigEndian(b / 256, width - 1);
      assert x[width - 1] == a % 256 && y[width - 1] == b % 256;
      BigEndianInjective(a / 256, b / 256, width - 1);
    }
  }

  lemma EightBytes()
    ensures Power(8) == 0x1_0000_0000_0000_0000
  {
    assert Power(2) == 0x1_0000 && Power(4) == 0x1_0000_0000 && Power(6) == 0x1_0000_0000_0000;
  }

  /** Equal texts with equal prefixes have equal remainders. */
  lemma SamePrefix(p: ByteString, a: ByteString, b: ByteString)
    requires p + a == p + b
    ensures a == b
  {
    assert (p + a)[|p|..] == a && (p + b)[|p|..] == b;
  }

  /** Two texts that agree, cut at the same places, agree in every part. */
  lemma Cut(p: ByteString, a: ByteString, restA: ByteString, q: ByteString, b: ByteString, restB: ByteString)
    requires p + a + restA == q + b + restB && |p| == |q|
    ensures p == q && (|a| == |b| ==> a == b && restA == restB)
  {
    assert (p + a + restA)[..|p|] == p && (q + b + restB)[..|p|] == q;
    if |a| == |b| {
      assert p + (a + restA) == p + a + restA && q + (b + restB) == q + b + restB;
      SamePrefix(p, a + restA, b + restB);
      assert (a + restA)[..|a|] == a && (b + restB)[..|a|] == b;
      SamePrefix(a, restA, restB);
    }
  }

  lemma EightBytesInjective(a: U64, b: U64)
    requires BigEndian(a, 8) == BigEndian(b, 8)
    ensures a == b
  {
    EightBytes();
    BigEndianInjective(a, b, 8);
  }

  /** A length-prefixed field can be cut off the front in one way only. */
  lemma FieldInjective(a: Field, restA: ByteString, b: Field, restB: ByteString)
    requires BigEndian(|a|, 8) + a + restA == BigEndian(|b|, 8) + b + restB
    ensures a == b && restA == restB
  {
    Cut(BigEndian(|a|, 8), a, restA, BigEndian(|b|, 8), b, restB);
    EightBytesInjective(|a|, |b|);
  }

  /** What follows the domain of a grant statement. */
  function Fields(a: Field, b: Field, c: Field, expiresAt: U64): ByteString {
    BigEndian(|a|, 8) + a + (BigEndian(|b|, 8) + b + (BigEndian(|c|, 8) + c + BigEndian(expiresAt, 8)))
  }

  lemma PushedFields(domain: ByteString, a: Field, b: Field, c: Field, expiresAt: U64)
    ensures PushField(PushField(PushField(domain, a), b), c) + BigEndian(expiresAt, 8) == domain + Fields(a, b, c, expiresAt)
  {
  }

  lemma FieldsInjective(a: Field, b: Field, c: Field, n: U64, x: Field, y: Field, z: Field, m: U64)
    requires Fields(a, b, c, n) == Fields(x, y, z, m)
    ensures a == x && b == y && c == z && n == m
  {
    FieldInjective(a, BigEndian(|b|, 8) + b + (BigEndian(|c|, 8) + c + BigEndian(n, 8)),
                   x, BigEndian(|y|, 8) + y + (BigEndian(|z|, 8) + z + BigEndian(m, 8)));
    FieldInjective(b, BigEndian(|c|, 8) + c + BigEndian(n, 8), y, BigEndian(|z|, 8) + z + BigEndian(m, 8));
    FieldInjective(c, BigEndian(n, 8), z, BigEndian(m, 8));
    EightBytesInjective(n, m);
  }

  /** The byte at which the domain of a statement differs from the others, and its value. */
  lemma Domains(s: Encodable)
    ensures |Encode(s)| > 23
    ensures s.EndpointProof? ==> Encode(s)[9] == 'm' as int
    ensures s.GrantRequest? ==> Encode(s)[9] == 's' as int && Encode(s)[23] == 'r' as int
    ensures s.GrantIssue? ==> Encode(s)[9] == 's' as int && Encode(s)[23] == 'i' as int
  {
    assert PROOF_DOMAIN[9] == 'm' as int;
    assert REQUEST_DOMAIN[9] == 's' as int && REQUEST_DOMAIN[23] == 'r' as int;
    assert ISSUE_DOMAIN[9] == 's' as int && ISSUE_DOMAIN[23] == 'i' as int;
    match s {
      case EndpointProof(endpoint) =>
      case GrantRequest(a, b, c, n) => PushedFields(REQUEST_DOMAIN, a, b, c, n);
      case GrantIssue(a, b, c, n) => PushedFields(ISSUE_DOMAIN, a, b, c, n);
    }
  }

  /** The bytes determine the statement: every encoder is injective in all its fields, and no two
      kinds of statement share an encoding. */
  lemma EncodeInjective(s: Encodable, t: Encodable)
    requires Encode(s) == Encode(t)
    ensures s == t
  {
    Domains(s);
    Domains(t);
    match s {
      case EndpointProof(endpoint) => SamePrefix(PROOF_DOMAIN, endpoint, t.endpoint);
      case GrantRequest(a, b, c, n) =>
        PushedFields(REQUEST_DOMAIN, a, b, c, n);
        PushedFields(REQUEST_DOMAIN, t.requestId, t.service, t.requester, t.expiresAt);
        SamePrefix(REQUEST_DOMAIN, Fields(a, b, c, n), Fields(t.requestId, t.service, t.requester, t.expiresAt));
        FieldsInjective(a, b, c, n, t.requestId, t.service, t.requester, t.expiresAt);
      case GrantIssue(a, b, c, n) =>
        PushedFields(ISSUE_DOMAIN, a, b, c, n);
        PushedFields(ISSUE_DOMAIN, t.requestId, t.resourceId, t.requester, t.expiresAt);
        SamePrefix(ISSUE_DOMAIN, Fields(a, b, c, n), Fields(t.requestId, t.resourceId, t.requester, t.expiresAt));
        FieldsInjective(a, b, c, n, t.requestId, t.resourceId, t.requester, t.expiresAt);
    }
  }

  // -- the layout -----------------------------------------------------------------------------------

  /** The number that some bytes write, the most significant first. */
  function Value(bytes: ByteString): nat {
    if bytes == [] then 0 else 256 * Value(bytes[..|bytes| - 1]) + bytes[|bytes| - 1]
  }

  lemma {:induction false} BigEndianValue(n: nat, width: nat)
    requires n < Power(width)
    ensures Value(BigEndian(n, width)) == n
  {
    if width > 0 {
      BigEndianValue(n / 256, width - 1);
      assert BigEndian(n, width)[..width - 1] == BigEndian(n / 256, width - 1);
    }
  }

  lemma {:induction false} ValueBytes(bytes: ByteString)
    ensures Value(bytes) < Power(|bytes|) && BigEndian(Value(bytes), |bytes|) == bytes
  {
    if bytes != [] {
      var k := |bytes| - 1;
      ValueBytes(bytes[..k]);
      assert Value(bytes) / 256 == Value(bytes[..k]) && Value(bytes) % 256 == bytes[k];
      assert bytes == bytes[..k] + [bytes[k]];
    }
  }

  lemma BigEndianExact(n: nat, width: nat, bytes: ByteString)
    requires n < Power(width)
    ensures BigEndian(n, width) == bytes <==> |bytes| == width && Value(bytes) == n
  {
    BigEndianValue(n, width);
    ValueBytes(bytes);
  }

  lemma EightBytesExact(n: U64, bytes: ByteString)
    ensures BigEndian(n, 8) == bytes <==> |bytes| == 8 && Value(bytes) == n
  {
    EightBytes();
    BigEndianExact(n, 8, bytes);
  }

  /** Eight bytes that say how long the field is, the field, and the rest. */
  ghost predicate Framed(message: ByteString, field: Field, rest: ByteString) {
    |message| >= 8 && Value(message[..8]) == |field| && message[8..] == field + rest
  }

  lemma Apart(message: ByteString, length: ByteString, field: ByteString, rest: ByteString)
    requires |length| == 8
    ensures message == length + field + rest <==> |message| >= 8 && message[..8] == length && message[8..] == field + rest
  {
    assert length + field + rest == length + (field + rest);
    if |message| >= 8 { assert message == message[..8] + message[8..]; }
  }

  lemma FramedExact(message: ByteString, field: Field, rest: ByteString)
    ensures Framed(message, field, rest) <==> message == BigEndian(|field|, 8) + field + rest
  {
    Apart(message, BigEndian(|field|, 8), field, rest);
    if |message| >= 8 { EightBytesExact(|field|, message[..8]); }
  }

  /** Three framed fields and a time of eight bytes. */
  ghost predicate LaidOut(message: ByteString, a: Field, b: Field, c: Field, expiresAt: U64) {
    exists second, third, time ::
      Framed(message, a, second) && Framed(second, b, third) && Framed(third, c, time) && |time| == 8 && Value(time) == expiresAt
  }

  lemma LaidOutExact(message: ByteString, a: Field, b: Field, c: Field, expiresAt: U64)
    ensures LaidOut(message, a, b, c, expiresAt) <==> message == Fields(a, b, c, expiresAt)
  {
    var time := BigEndian(expiresAt, 8);
    var third := BigEndian(|c|, 8) + c + time;
    var second := BigEndian(|b|, 8) + b + third;
    EightBytesExact(expiresAt, time);
    FramedExact(message, a, second);
    FramedExact(second, b, third);
    FramedExact(third, c, time);
    if second1, third1, time1 :| Framed(message, a, second1) && Framed(second1, b, third1) && Framed(third1, c, time1)
                                 && |time1| == 8 && Value(time1) == expiresAt
    {
      EightBytesExact(expiresAt, time1);
      FramedExact(third1, c, time1);
      FramedExact(second1, b, third1);
      FramedExact(message, a, second1);
    }
  }

  /** A message of each kind, byte for byte. */
  ghost predicate Layout(message: ByteString, s: Encodable) {
    match s
    case EndpointProof(endpoint) => message == Ascii("dev.site machine endpoint proof v1") + [0] + endpoint
    case GrantRequest(requestId, service, requester, expiresAt) =>
      var domain := Ascii("dev.site service grant request v1") + [0];
      domain <= message && LaidOut(message[|domain|..], requestId, service, requester, expiresAt)
    case GrantIssue(requestId, resourceId, requester, expiresAt) =>
      var domain := Ascii("dev.site service grant issue v1") + [0];
      domain <= message && LaidOut(message[|domain|..], requestId, resourceId, requester, expiresAt)
  }

  lemma AfterDomain(domain: ByteString, message: ByteString, fields: ByteString)
    ensures message == domain + fields <==> domain <= message && message[|domain|..] == fields
  {
    if domain <= message { assert message == domain + message[|domain|..]; }
  }

  /** The bytes of a statement are exactly its layout: a domain with a zero byte, fields behind their
      lengths, and a time, numbers being eight bytes with the most significant first. */
  lemma EncodeExact(message: ByteString, s: Encodable)
    ensures message == Encode(s) <==> Layout(message, s)
  {
    match s {
      case EndpointProof(_) =>
      case GrantRequest(a, b, c, n) =>
        PushedFields(REQUEST_DOMAIN, a, b, c, n);
        AfterDomain(REQUEST_DOMAIN, message, Fields(a, b, c, n));
        if REQUEST_DOMAIN <= message { LaidOutExact(message[|REQUEST_DOMAIN|..], a, b, c, n); }
      case GrantIssue(a, b, c, n) =>
        PushedFields(ISSUE_DOMAIN, a, b, c, n);
        AfterDomain(ISSUE_DOMAIN, message, Fields(a, b, c, n));
        if ISSUE_DOMAIN <= message { LaidOutExact(message[|ISSUE_DOMAIN|..], a, b, c, n); }
    }
  }
}

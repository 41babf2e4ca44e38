/** Signed grants: what the control plane puts into one and what a daemon checks of it. */
module Capability {
  import opened Text
  import opened Statements
  import opened State

  const LIFETIME: nat := 180
  const MAX_CLOCK_SKEW: nat := 30
  const MAX_U64: nat := 0xFFFF_FFFF_FFFF_FFFF

  function SaturatingAdd(a: nat, b: nat): nat {
    if a + b > MAX_U64 then MAX_U64 else a + b
  }

  datatype Permission = TcpConnect

  type Nonce = nat

  datatype Claims = Claims(
    issuer: string,
    viewer: AccountId,
    resource: ResourceId,
    audience: KeyBytes,
    clientKey: KeyBytes,
    permission: Permission,
    issuedAt: nat,
    expiresAt: nat,
    nonce: Nonce)

  datatype PlanClaims = PlanClaims(
    schemaVersion: nat,
    issuerCredential: CredentialId,
    requestId: string,
    service: string,
    resource: string,
    requester: string,
    requestExpiresAt: nat,
    grantExpiresAt: nat)

  /** What the control plane's key signs, by what the signed bytes decode to. */
  datatype Payload = Grant(claims: Claims) | GrantPlan(plan: PlanClaims) | Undecodable(bytes: ByteString)

  datatype Signed = Signed(payload: Payload, signature: ByteString)

  /** Signature verification under one key is a library call. */
  type VerifyingKey = (Payload, ByteString) -> bool

  /** Nobody but the holder of the key makes signatures: one that verifies is on a payload
      that has been signed. */
  ghost predicate Unforgeable(key: VerifyingKey, signed: set<Payload>, s: Signed) {
    key(s.payload, s.signature) ==> s.payload in signed
  }

  datatype CapabilityError = BadSignature | Malformed | Expired | NotYetValid | WrongAudience | WrongClientKey

  function Verify(key: VerifyingKey, s: Signed): Result<Claims, CapabilityError> {
    if |s.signature| != 64 then Err(Malformed)
    else if !key(s.payload, s.signature) then Err(BadSignature)
    else if s.payload.Grant? then Ok(s.payload.claims)
    else Err(Malformed)
  }

  function VerifyFor(key: VerifyingKey, s: Signed, audience: KeyBytes, peer: KeyBytes, now: nat): Result<Claims, CapabilityError> {
    match Verify(key, s)
    case Err(e) => Err(e)
    case Ok(claims) =>
      if claims.audience != audience then Err(WrongAudience)
      else if claims.clientKey != peer then Err(WrongClientKey)
      else if now > claims.expiresAt then Err(Expired)
      else if claims.issuedAt > SaturatingAdd(now, MAX_CLOCK_SKEW) then Err(NotYetValid)
      else Ok(claims)
  }

  /** Everything in a grant but the client key comes from state the server has checked. */
  function Issue(issuer: string, viewer: AccountId, resource: ResourceId, audience: KeyBytes, clientKey: KeyBytes,
                 now: nat, nonce: Nonce): Claims
  {
    Claims(issuer, viewer, resource, audience, clientKey, TcpConnect, now, now + LIFETIME, nonce)
  }

  /** A grant is good from thirty seconds before it is issued to its last second, for one
      daemon and one peer, and for nobody else at any time. */
  lemma IssuedWindow(key: VerifyingKey, signature: ByteString, issuer: string, viewer: AccountId, resource: ResourceId,
                     audience: KeyBytes, clientKey: KeyBytes, issued: nat, nonce: Nonce,
                     endpoint: KeyBytes, peer: KeyBytes, now: nat)
    requires |signature| == 64 && issued + LIFETIME <= MAX_U64
    requires key(Grant(Issue(issuer, viewer, resource, audience, clientKey, issued, nonce)), signature)
    ensures var s := Signed(Grant(Issue(issuer, viewer, resource, audience, clientKey, issued, nonce)), signature);
            VerifyFor(key, s, endpoint, peer, now).Ok?
            <==> endpoint == audience && peer == clientKey && issued <= now + 30 && now <= issued + 180
  {
  }

  // -- plans -----------------------------------------------------------------------------

  /** `verify_access_plan`: the claims of a plan that the server approved. */
  function VerifyPlan(key: VerifyingKey, s: Signed): Option<PlanClaims> {
    if |s.signature| == 64 && key(s.payload, s.signature) && s.payload.GrantPlan? then Some(s.payload.plan) else None
  }
}

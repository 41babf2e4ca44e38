/** Reaching a service: connection tickets, tunnel sessions, brokered grants and the check
    before a grant is minted. Each function is what the server does while it holds the
    database lock; each method is the same on the database in place. */
module Access {
  import opened Text
  import opened State
  import opened Statements
  import opened Capability
  import opened Requests
  import opened Endpoints
  import Database

  const TICKET_LIFETIME: nat := 120
  const SESSION_LIFETIME: nat := 28800
  const REQUEST_LIFETIME: nat := 600
  const GRANT_LIFETIME: nat := 900
  const MAX_ACTIVE_GRANTS: nat := 32
  const GRANT_SCOPE: string := "service_grants:issue"

  // -- tickets -----------------------------------------------------------------------------

  /** Whether `viewer` may now reach the service `id`. */
  predicate Reaches(t: Tables, viewer: AccountId, id: ResourceId) {
    id in t.resources && t.resources[id].kind == Service && Sees(t, viewer, id)
  }

  function IssueTicket(t: Tables, viewer: AccountId, id: ResourceId, hash: TokenHash, now: nat): Result<Tables, ApiError> {
    if !Reaches(t, viewer, id) then Err(NotFound)
    else Ok(CreateTicket(t, hash, Ticket(viewer, id, now + TICKET_LIFETIME), now))
  }

  method CreateConnectionTicket(db: Database.Db, viewer: AccountId, id: ResourceId, hash: TokenHash, now: nat)
    returns (r: Result<nat, ApiError>)
    modifies db
    ensures match IssueTicket(old(db.View()), viewer, id, hash, now)
            case Err(e) => r == Err(e) && db.View() == old(db.View())
            case Ok(t) => r == Ok(now + TICKET_LIFETIME) && db.View() == t
  {
    if !Reaches(db.View(), viewer, id) { return Err(NotFound); }
    db.CreateConnectionTicket(hash, viewer, id, now, now + TICKET_LIFETIME);
    return Ok(now + TICKET_LIFETIME);
  }

  /** The session a redeemed ticket turns into. */
  function TicketSession(ticket: Ticket, client: KeyBytes, now: nat): Session {
    Session(ticket.viewer, ticket.resource, HexLower(client), now + SESSION_LIFETIME, None, None)
  }

  /** `redeem_connection_ticket`: the ticket is used up even when its holder can no longer
      reach the service. */
  function Redeem(t: Tables, hash: TokenHash, client: KeyBytes, session: TokenHash, now: nat): (Result<Session, ApiError>, Tables) {
    if !CanConsume(t, hash, now) then (Err(Unauthorized), t)
    else
      var ticket := t.tickets[hash];
      var consumed := ConsumeTicket(t, hash, now);
      if !Reaches(consumed, ticket.viewer, ticket.resource) then (Err(Unauthorized), consumed)
      else
        var s := TicketSession(ticket, client, now);
        (Ok(s), CreateSession(consumed, session, s, now))
  }

  method RedeemConnectionTicket(db: Database.Db, hash: TokenHash, client: string, session: TokenHash, now: nat)
    returns (r: Result<Session, ApiError>)
    modifies db
    ensures match ParseEndpoint(client)
            case None => r == Err(BadRequest) && db.View() == old(db.View())
            case Some(key) => (r, db.View()) == Redeem(old(db.View()), hash, key, session, now)
  {
    var key := ParseEndpoint(client);
    if key.None? { return Err(BadRequest); }
    var consumed := db.ConsumeConnectionTicket(hash, now);
    if consumed.None? { return Err(Unauthorized); }
    var (viewer, id) := consumed.value;
    if !Reaches(db.View(), viewer, id) { return Err(Unauthorized); }
    db.CreateTunnelSession(session, viewer, id, HexLower(key.value), now, now + SESSION_LIFETIME);
    return Ok(Session(viewer, id, HexLower(key.value), now + SESSION_LIFETIME, None, None));
  }

  // -- minting --------------------------------------------------------------------------------

  /** What the capability check read under the lock, and the time it read the clock at. */
  datatype Clearance = Clearance(session: Session, owner: AccountId, endpoint: Option<string>, at: nat)

  function Clear(t: Tables, hash: TokenHash, now: nat): Result<Clearance, ApiError> {
    if !LiveSession(t, hash, now) then Err(Unauthorized)
    else
      var s := t.sessions[hash];
      if s.resource !in t.resources || !Sees(t, s.viewer, s.resource) then Err(NotFound)
      else if t.resources[s.resource].kind != Service then Err(BadRequest)
      else
        var owner := t.resources[s.resource].owner;
        Ok(Clearance(s, owner, if owner in t.daemons then Some(t.daemons[owner]) else None, now))
  }

  /** The grant minted from a clearance, after the lock is released. */
  function Mint(issuer: string, c: Clearance, nonce: Nonce): Result<Claims, ApiError> {
    match ParseEndpoint(c.session.client)
    case None => Err(Internal)
    case Some(client) =>
      match c.endpoint
      case None => Err(Unavailable)
      case Some(text) =>
        match ParseEndpoint(text)
        case None => Err(Internal)
        case Some(audience) => Ok(Issue(issuer, c.session.viewer, c.session.resource, audience, client, c.at, nonce))
  }

  method ClearCapability(db: Database.Db, hash: TokenHash, now: nat) returns (r: Result<Clearance, ApiError>)
    ensures r == Clear(db.View(), hash, now)
  {
    var session := db.TunnelSession(hash, now);
    if session.None? { return Err(Unauthorized); }
    var s := session.value;
    if s.resource !in db.resources { return Err(NotFound); }
    var resource := db.resources[s.resource];
    if !CanView(Some(s.viewer), resource.owner, resource.visibility, SharedWith(db.View(), s.resource)) {
      return Err(NotFound);
    }
    if resource.kind != Service { return Err(BadRequest); }
    var endpoint := if resource.owner in db.daemons then Some(db.daemons[resource.owner]) else None;
    return Ok(Clearance(s, resource.owner, endpoint, now));
  }

  // -- brokered grants ----------------------------------------------------------------------------

  /** What `require_machine` read: an enrolled credential as it was at that moment. */
  datatype Machine = Machine(account: AccountId, credential: CredentialId, endpoint: string, scopes: set<string>)

  datatype GrantBody = GrantBody(
    schemaVersion: nat, requestId: string, service: string, requester: string, requestExpiresAt: U64, proof: ByteString,
    resource: string, expiresAt: U64, brokerProof: ByteString)

  predicate IsIdChar(c: char) { IsLetter(c) || IsDigit(c) || c == '_' || c == '-' }

  predicate ValidRequestId(id: string) {
    HasPrefix(id, "agr_") && 12 <= |id| <= 100 && forall i :: 0 <= i < |id| ==> IsIdChar(id[i])
  }

  predicate Contains(text: string, part: string) {
    HasPrefix(text, part) || (text != [] && Contains(text[1..], part))
  }

  /** Whether a keyword is part of the name of a service, or of its owner's handle when that
      is somebody else. */
  predicate NamedBy(lib: Libraries, t: Tables, viewer: AccountId, id: ResourceId, keyword: string)
    requires id in t.resources
  {
    var r := t.resources[id];
    var handle := HandleOf(t, r.owner);
    || Contains(lib.lowercase(r.name), lib.lowercase(keyword))
    || (r.owner != viewer && handle.Some? && Contains(lib.lowercase(handle.value), lib.lowercase(keyword)))
  }

  predicate ValidKeyword(service: string) {
    Trim(service) == service && service != [] && |service| <= MAX_RESOURCE_NAME
  }

  function RequestMessage(lib: Libraries, body: GrantBody, requester: KeyBytes): Encodable {
    GrantRequest(lib.utf8(body.requestId), lib.utf8(body.service), requester, body.requestExpiresAt)
  }

  function IssueMessage(lib: Libraries, body: GrantBody, requester: KeyBytes): Encodable {
    GrantIssue(lib.utf8(body.requestId), lib.utf8(body.resource), requester, body.expiresAt)
  }

  function ClaimsOf(machine: Machine, body: GrantBody): PlanClaims {
    PlanClaims(body.schemaVersion, machine.credential, body.requestId, body.service, body.resource, body.requester,
               body.requestExpiresAt, body.expiresAt)
  }

  predicate BadlyTimed(body: GrantBody, now: nat) {
    || body.requestExpiresAt <= now || body.requestExpiresAt > SaturatingAdd(now, REQUEST_LIFETIME)
    || body.expiresAt <= now || body.expiresAt > SaturatingAdd(now, GRANT_LIFETIME)
  }

  function ValidateGrant(lib: Libraries, t: Tables, machine: Machine, body: GrantBody, now: nat): Result<ResourceId, ApiError> {
    var requester := ParseEndpoint(body.requester);
    var resource := lib.parseResource(body.resource);
    var broker := ParseEndpoint(machine.endpoint);
    if body.schemaVersion != 1 || !ValidRequestId(body.requestId) || !ValidKeyword(body.service) || BadlyTimed(body, now) then
      Err(BadRequest)
    else if requester.None? || !lib.endpointSigned(requester.value, Encode(RequestMessage(lib, body, requester.value)), body.proof) then
      Err(BadRequest)
    else if resource.None? || resource.value !in AccessibleServices(t, machine.account)
            || !NamedBy(lib, t, machine.account, resource.value, body.service) then Err(NotFound)
    else if broker.None? then Err(Internal)
    else if !lib.endpointSigned(broker.value, Encode(IssueMessage(lib, body, requester.value)), body.brokerProof) then
      Err(BadRequest)
    else Ok(resource.value)
  }

  function PlanGrant(lib: Libraries, t: Tables, machine: Machine, body: GrantBody, now: nat): Result<PlanClaims, ApiError> {
    if GRANT_SCOPE !in machine.scopes then Err(Forbidden)
    else
      match ValidateGrant(lib, t, machine, body, now)
      case Err(e) => Err(e)
      case Ok(_) => Ok(ClaimsOf(machine, body))
  }

  function BrokeredSession(machine: Machine, body: GrantBody, id: ResourceId): Session {
    Session(machine.account, id, body.requester, body.expiresAt, Some(machine.credential), Some(body.requestId))
  }

  /** Everything `issue_service_grant` checks before it inserts a session. An approved plan
      that does not decode is one that does not verify. */
  function CheckGrant(lib: Libraries, t: Tables, machine: Machine, body: GrantBody, approved: Option<Signed>, now: nat)
    : Result<ResourceId, ApiError>
  {
    if GRANT_SCOPE !in machine.scopes then Err(Forbidden)
    else
      match ValidateGrant(lib, t, machine, body, now)
      case Err(e) => Err(e)
      case Ok(id) =>
        if approved.None? || VerifyPlan(lib.serverKey, approved.value) != Some(ClaimsOf(machine, body)) then Err(BadRequest)
        else if |ActiveGrants(t, machine.credential, now)| >= MAX_ACTIVE_GRANTS then Err(TooManyRequests)
        else Ok(id)
  }

  /** The insert, and what the caller hears of it. */
  function InsertGrant(t: Tables, machine: Machine, body: GrantBody, id: ResourceId, hash: TokenHash, now: nat)
    : (Result<ResourceId, ApiError>, Tables)
  {
    var after := CreateBrokerSession(t, hash, BrokeredSession(machine, body, id), now);
    if machine.credential !in t.credentials then (Err(Internal), after)
    else if !CanBroker(t, hash, machine.credential, body.requestId, now) then (Err(BadRequest), after)
    else (Ok(id), after)
  }

  method IssueServiceGrant(lib: Libraries, db: Database.Db, machine: Machine, body: GrantBody, approved: Option<Signed>,
                           hash: TokenHash, now: nat) returns (r: Result<ResourceId, ApiError>)
    modifies db
    ensures match CheckGrant(lib, old(db.View()), machine, body, approved, now)
            case Err(e) => r == Err(e) && db.View() == old(db.View())
            case Ok(id) => (r, db.View()) == InsertGrant(old(db.View()), machine, body, id, hash, now)
  {
    if GRANT_SCOPE !in machine.scopes { return Err(Forbidden); }
    var valid := ValidateGrant(lib, db.View(), machine, body, now);
    if valid.Err? { return Err(valid.error); }
    if approved.None? { return Err(BadRequest); }
    var claims := VerifyPlan(lib.serverKey, approved.value);
    if claims.None? || claims.value != ClaimsOf(machine, body) { return Err(BadRequest); }
    var active := db.ActiveBrokerGrantCount(machine.credential, now);
    if active >= MAX_ACTIVE_GRANTS { return Err(TooManyRequests); }
    var created := db.CreateBrokerTunnelSession(
      hash, machine.account, valid.value, body.requester, machine.credential, body.requestId, now, body.expiresAt);
    match created {
      case None => return Err(Internal);
      case Some(inserted) => if !inserted { return Err(BadRequest); }
    }
    return Ok(valid.value);
  }

  // -- machines --------------------------------------------------------------------------------------

  /** Each credential is issued as an enrolment ticket, to an account that has fewer than ten. */
  const MAX_CREDENTIALS: nat := 10

  function CredentialsOf(t: Tables, account: AccountId): set<CredentialId> {
    set id | id in t.credentials && t.credentials[id].account == account
  }

  function NewCredential(t: Tables, account: AccountId, id: CredentialId, hash: TokenHash, scopes: set<string>): Result<Tables, ApiError> {
    if scopes - {GRANT_SCOPE} != {} || |CredentialsOf(t, account)| >= MAX_CREDENTIALS then Err(BadRequest)
    else Ok(CreateCredential(t, id, Credential(account, hash, None, scopes)))
  }

  /** Whether a text names a key that signed its own endpoint proof. */
  predicate ProvesEndpoint(lib: Libraries, endpoint: string, proof: ByteString) {
    match ParseEndpoint(endpoint)
    case None => false
    case Some(key) => lib.endpointSigned(key, Encode(EndpointProof(key)), proof)
  }
}

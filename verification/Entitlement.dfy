/** When access is given: each check as an if and only if. A viewer gets a ticket, a session, a
    clearance and a grant exactly while the list of accessible services has the service; a broker
    gets a session for a requester exactly when the request is what it has to be. */
module Entitlement {
  import opened Text
  import opened State
  import opened Sharing
  import opened Statements
  import opened Capability
  import opened Requests
  import opened Endpoints
  import opened Access

  // -- tickets and sessions ------------------------------------------------------------------------

  lemma ReachesExact(t: Tables, viewer: AccountId, id: ResourceId)
    requires Inv(t)
    ensures Reaches(t, viewer, id) <==> id in AccessibleServices(t, viewer)
  {
    if id in t.resources && t.resources[id].kind == Service { ThreeWayAgreement(t, viewer, id); }
  }

  /** A ticket is given exactly for an accessible service, for two minutes; others are not found.
      The tickets that have expired go. */
  lemma TicketExact(t: Tables, viewer: AccountId, id: ResourceId, hash: TokenHash, now: nat, h: TokenHash)
    requires Inv(t)
    ensures var r := IssueTicket(t, viewer, id, hash, now);
            && (r.Ok? <==> id in AccessibleServices(t, viewer))
            && (r.Err? ==> r == Err(NotFound))
            && (r.Ok? ==> hash in r.value.tickets && r.value.tickets[hash] == Ticket(viewer, id, now + 120))
            && (r.Ok? ==> r.value == t.(tickets := r.value.tickets))
            && (r.Ok? && h != hash ==> (h in r.value.tickets <==> h in t.tickets && t.tickets[h].expiresAt > now))
            && (r.Ok? && h != hash && h in r.value.tickets ==> r.value.tickets[h] == t.tickets[h])
  {
    ReachesExact(t, viewer, id);
  }

  /** A ticket opens a session exactly when it has not expired and its service is still accessible
      to its holder; the session is for that viewer, service and key, and lasts eight hours. It is
      used up when it has not expired, whether or not it opens a session. */
  lemma RedeemExact(t: Tables, hash: TokenHash, client: KeyBytes, session: TokenHash, now: nat)
    requires Inv(t)
    ensures var (r, u) := Redeem(t, hash, client, session, now);
            var live := hash in t.tickets && t.tickets[hash].expiresAt > now;
            && (r.Ok? <==> live && t.tickets[hash].resource in AccessibleServices(t, t.tickets[hash].viewer))
            && (r.Err? ==> r == Err(Unauthorized) && u == t.(tickets := u.tickets))
            && (live ==> u.tickets == t.tickets - {hash}) && (!live ==> u == t)
            && (r.Ok? ==> session in u.sessions && u.sessions[session] == r.value
                          && r.value == Session(t.tickets[hash].viewer, t.tickets[hash].resource, HexLower(client), now + 28800, None, None))
  {
    if hash in t.tickets {
      var consumed := ConsumeTicket(t, hash, now);
      InvFrame(t, consumed);
      ReachesExact(consumed, t.tickets[hash].viewer, t.tickets[hash].resource);
    }
  }

  // -- capabilities ------------------------------------------------------------------------------------

  /** A live session's holder gets a clearance exactly when the session's service is accessible to
      its viewer, and each refusal has its reason. */
  lemma ClearExact(t: Tables, hash: TokenHash, now: nat)
    requires Inv(t)
    ensures var r, live := Clear(t, hash, now), hash in t.sessions && t.sessions[hash].expiresAt > now;
            && (r.Ok? <==> live && t.sessions[hash].resource in AccessibleServices(t, t.sessions[hash].viewer))
            && (r.Err? <==> r == Err(Unauthorized) || r == Err(NotFound) || r == Err(BadRequest))
            && (r == Err(Unauthorized) <==> !live)
            && (r == Err(NotFound) <==> live && !Sees(t, t.sessions[hash].viewer, t.sessions[hash].resource))
            && (r.Ok? ==> var id := t.sessions[hash].resource;
                          && id in t.resources && r.value.session == t.sessions[hash] && r.value.at == now
                          && r.value.owner == t.resources[id].owner
                          && r.value.endpoint == if t.resources[id].owner in t.daemons then Some(t.daemons[t.resources[id].owner]) else None)
  {
    if hash in t.sessions {
      var s := t.sessions[hash];
      if s.resource in t.resources && t.resources[s.resource].kind == Service { ThreeWayAgreement(t, s.viewer, s.resource); }
    }
  }

  /** What a grant that is minted for a session says. */
  ghost predicate GrantFor(t: Tables, hash: TokenHash, issuer: string, nonce: Nonce, now: nat, claims: Claims) {
    && hash in t.sessions && t.sessions[hash].resource in t.resources
    && claims.issuer == issuer && claims.viewer == t.sessions[hash].viewer && claims.resource == t.sessions[hash].resource
    && ParseEndpoint(t.sessions[hash].client) == Some(claims.clientKey)
    && t.resources[claims.resource].owner in t.daemons
    && ParseEndpoint(t.daemons[t.resources[claims.resource].owner]) == Some(claims.audience)
    && claims.permission == TcpConnect && claims.issuedAt == now && claims.expiresAt == now + 180 && claims.nonce == nonce
  }

  /** A session that is live, for an accessible service, and whose key and daemon can be read. */
  ghost predicate Connects(t: Tables, hash: TokenHash, now: nat) {
    && hash in t.sessions && t.sessions[hash].expiresAt > now
    && t.sessions[hash].resource in AccessibleServices(t, t.sessions[hash].viewer)
    && ParseEndpoint(t.sessions[hash].client).Some?
    && t.resources[t.sessions[hash].resource].owner in t.daemons
    && ParseEndpoint(t.daemons[t.resources[t.sessions[hash].resource].owner]).Some?
  }

  /** The whole capability request: it gives a grant exactly when the session connects, and then
      the one grant of this viewer, service, key and daemon. */
  lemma CapabilityExact(t: Tables, hash: TokenHash, issuer: string, nonce: Nonce, now: nat, claims: Claims)
    requires Inv(t)
    ensures (Clear(t, hash, now).Ok? && Mint(issuer, Clear(t, hash, now).value, nonce) == Ok(claims))
            <==> Connects(t, hash, now) && GrantFor(t, hash, issuer, nonce, now, claims)
    ensures Connects(t, hash, now) ==> Clear(t, hash, now).Ok? && Mint(issuer, Clear(t, hash, now).value, nonce).Ok?
  {
    ClearExact(t, hash, now);
  }

  // -- brokered grants ------------------------------------------------------------------------------------

  ghost predicate StandsAt(text: string, part: string, i: nat) {
    i + |part| <= |text| && text[i..i + |part|] == part
  }

  lemma {:induction false} ContainsExact(text: string, part: string)
    ensures Contains(text, part) <==> exists i: nat :: StandsAt(text, part, i)
  {
    if HasPrefix(text, part) {
      assert StandsAt(text, part, 0);
    } else if text != [] {
      ContainsExact(text[1..], part);
      forall i: nat ensures StandsAt(text[1..], part, i) <==> StandsAt(text, part, i + 1) {
        if i + 1 + |part| <= |text| { assert text[1..][i..i + |part|] == text[i + 1..i + 1 + |part|]; }
      }
      if i: nat :| StandsAt(text, part, i) { assert i > 0 && StandsAt(text[1..], part, i - 1); }
    }
  }

  /** The keyword stands in the service's name, or in the handle of an owner who is not the broker. */
  ghost predicate Named(lib: Libraries, t: Tables, broker: AccountId, id: ResourceId, keyword: string)
    requires id in t.resources
  {
    var r, part := t.resources[id], lib.lowercase(keyword);
    || (exists i: nat :: StandsAt(lib.lowercase(r.name), part, i))
    || (r.owner != broker && HandleOf(t, r.owner).Some?
        && exists i: nat :: StandsAt(lib.lowercase(HandleOf(t, r.owner).value), part, i))
  }

  lemma NamedExact(lib: Libraries, t: Tables, broker: AccountId, id: ResourceId, keyword: string)
    requires id in t.resources
    ensures NamedBy(lib, t, broker, id, keyword) <==> Named(lib, t, broker, id, keyword)
  {
    var r, part := t.resources[id], lib.lowercase(keyword);
    ContainsExact(lib.lowercase(r.name), part);
    if HandleOf(t, r.owner).Some? { ContainsExact(lib.lowercase(HandleOf(t, r.owner).value), part); }
  }

  /** A request of the version, id, keyword and times that are allowed. */
  ghost predicate WellFormed(body: GrantBody, now: nat) {
    && body.schemaVersion == 1
    && 12 <= |body.requestId| <= 100 && body.requestId[..4] == "agr_"
    && (forall i :: 0 <= i < |body.requestId| ==>
          IsLetter(body.requestId[i]) || IsDigit(body.requestId[i]) || body.requestId[i] == '_' || body.requestId[i] == '-')
    && IsTrimmed(body.service) && 1 <= |body.service| <= 80
    && now < body.requestExpiresAt && (body.requestExpiresAt <= now + 600)
    && now < body.expiresAt && (body.expiresAt <= now + 900)
  }

  lemma WellFormedExact(body: GrantBody, now: nat)
    ensures (body.schemaVersion == 1 && ValidRequestId(body.requestId) && ValidKeyword(body.service) && !BadlyTimed(body, now))
            <==> WellFormed(body, now)
  {
    var pre, post := TrimShape(body.service);
    if IsTrimmed(body.service) { TrimTrimmed(body.service); }
  }

  ghost predicate Requested(lib: Libraries, body: GrantBody, requester: KeyBytes) {
    && ParseEndpoint(body.requester) == Some(requester)
    && lib.endpointSigned(requester, Encode(GrantRequest(lib.utf8(body.requestId), lib.utf8(body.service), requester, body.requestExpiresAt)),
                          body.proof)
  }

  /** The service is accessible to the broker, and named by the keyword. */
  ghost predicate Offered(lib: Libraries, t: Tables, machine: Machine, body: GrantBody, id: ResourceId) {
    && lib.parseResource(body.resource) == Some(id) && id in AccessibleServices(t, machine.account)
    && Named(lib, t, machine.account, id, body.service)
  }

  ghost predicate Approved(lib: Libraries, machine: Machine, body: GrantBody, requester: KeyBytes) {
    && ParseEndpoint(machine.endpoint).Some?
    && lib.endpointSigned(ParseEndpoint(machine.endpoint).value, 
                          Encode(GrantIssue(lib.utf8(body.requestId), lib.utf8(body.resource), requester, body.expiresAt)), body.brokerProof)
  }

  ghost predicate Grantable(lib: Libraries, t: Tables, machine: Machine, body: GrantBody, now: nat, id: ResourceId) {
    exists requester :: WellFormed(body, now) && Requested(lib, body, requester) && Offered(lib, t, machine, body, id)
                        && Approved(lib, machine, body, requester)
  }

  lemma ParsedResource(lib: Libraries, t: Tables, machine: Machine, body: GrantBody)
    ensures var id := lib.parseResource(body.resource);
            (id.Some? && id.value in AccessibleServices(t, machine.account) && NamedBy(lib, t, machine.account, id.value, body.service))
            <==> id.Some? && Offered(lib, t, machine, body, id.value)
  {
    var id := lib.parseResource(body.resource);
    if id.Some? && id.value in AccessibleServices(t, machine.account) { NamedExact(lib, t, machine.account, id.value, body.service); }
  }

  /** A grant request validates exactly when it is well formed and timely, signed by the requester,
      for an accessible service so named, and signed by the broker. */
  lemma ValidateExact(lib: Libraries, t: Tables, machine: Machine, body: GrantBody, now: nat, id: ResourceId)
    ensures ValidateGrant(lib, t, machine, body, now) == Ok(id) <==> Grantable(lib, t, machine, body, now, id)
  {
    WellFormedExact(body, now);
    ParsedResource(lib, t, machine, body);
    var requester := ParseEndpoint(body.requester);
    if ValidateGrant(lib, t, machine, body, now) == Ok(id) {
      assert Requested(lib, body, requester.value) && Approved(lib, machine, body, requester.value);
    }
  }

  /** Why a grant request is refused, in the order of the checks. */
  lemma ValidateErrors(lib: Libraries, t: Tables, machine: Machine, body: GrantBody, now: nat)
    ensures var r := ValidateGrant(lib, t, machine, body, now);
            var asked := WellFormed(body, now) && exists requester :: Requested(lib, body, requester);
            var offered := exists id :: Offered(lib, t, machine, body, id);
            && (r.Err? ==> r == Err(BadRequest) || r == Err(NotFound) || r == Err(Internal))
            && (r == Err(NotFound) <==> asked && !offered)
            && (r == Err(Internal) <==> asked && offered && ParseEndpoint(machine.endpoint).None?)
  {
    WellFormedExact(body, now);
    ParsedResource(lib, t, machine, body);
    var requester := ParseEndpoint(body.requester);
    if requester.Some? && lib.endpointSigned(requester.value, Encode(RequestMessage(lib, body, requester.value)), body.proof) {
      assert Requested(lib, body, requester.value);
    }
  }

  /** A plan is given exactly to a machine with the scope, for a request that validates, and says
      what was asked. */
  lemma PlanExact(lib: Libraries, t: Tables, machine: Machine, body: GrantBody, now: nat, claims: PlanClaims)
    ensures PlanGrant(lib, t, machine, body, now) == Ok(claims)
            <==> && "service_grants:issue" in machine.scopes && (exists id :: Grantable(lib, t, machine, body, now, id))
                 && claims == PlanClaims(body.schemaVersion, machine.credential, body.requestId, body.service, body.resource,
                                         body.requester, body.requestExpiresAt, body.expiresAt)
  {
    var r := ValidateGrant(lib, t, machine, body, now);
    if r.Ok? { ValidateExact(lib, t, machine, body, now, r.value); }
    forall id ensures r == Ok(id) <==> Grantable(lib, t, machine, body, now, id) { ValidateExact(lib, t, machine, body, now, id); }
  }

  /** The approved plan is signed by the server, for exactly this request of this credential. */
  ghost predicate Planned(lib: Libraries, machine: Machine, body: GrantBody, approved: Signed) {
    && |approved.signature| == 64 && lib.serverKey(approved.payload, approved.signature)
    && approved.payload == GrantPlan(PlanClaims(body.schemaVersion, machine.credential, body.requestId, body.service, body.resource,
                                                body.requester, body.requestExpiresAt, body.expiresAt))
  }

  ghost function LiveGrants(t: Tables, credential: CredentialId, now: nat): set<TokenHash> {
    set h | h in t.sessions && t.sessions[h].issuer == Some(credential) && now < t.sessions[h].expiresAt
  }

  /** An issue request passes its checks exactly when the machine has the scope, the request
      validates, its plan was signed by the server, and fewer than 32 sessions of the credential
      are live. */
  lemma CheckExact(lib: Libraries, t: Tables, machine: Machine, body: GrantBody, approved: Option<Signed>, now: nat, id: ResourceId)
    ensures CheckGrant(lib, t, machine, body, approved, now) == Ok(id)
            <==> && "service_grants:issue" in machine.scopes && Grantable(lib, t, machine, body, now, id)
                 && approved.Some? && Planned(lib, machine, body, approved.value)
                 && |LiveGrants(t, machine.credential, now)| < 32
    ensures CheckGrant(lib, t, machine, body, approved, now) == Err(Forbidden) <==> "service_grants:issue" !in machine.scopes
  {
    var r := ValidateGrant(lib, t, machine, body, now);
    ValidateExact(lib, t, machine, body, now, id);
    ValidateErrors(lib, t, machine, body, now);
    assert ActiveGrants(t, machine.credential, now) == LiveGrants(t, machine.credential, now);
  }

  /** A checked request is then issued exactly when its credential still exists and neither the
      token nor the request id is in use by a live session. It adds that session, and whatever the
      outcome only expired sessions go. */
  lemma InsertExact(t: Tables, machine: Machine, body: GrantBody, id: ResourceId, hash: TokenHash, now: nat, h: TokenHash)
    ensures var (r, u) := InsertGrant(t, machine, body, id, hash, now);
            && (r == Ok(id) <==> && machine.credential in t.credentials && !LiveSession(t, hash, now)
                                 && forall k :: LiveSession(t, k, now) ==> t.sessions[k].request != Some(body.requestId))
            && (r.Err? ==> r == Err(if machine.credential in t.credentials then BadRequest else Internal))
            && u == t.(sessions := u.sessions)
            && (h in u.sessions <==> LiveSession(t, h, now) || (r.Ok? && h == hash))
            && (LiveSession(t, h, now) ==> u.sessions[h] == t.sessions[h])
            && (r.Ok? ==> u.sessions[hash] == Session(machine.account, id, body.requester, body.expiresAt, Some(machine.credential), Some(body.requestId)))
  {
    assert LiveSession(t, h, now) <==> h in LiveSessions(t, now);
  }
}

/** Brokered sessions: each was planned before by the same credential with the same claims, was
    for a service its issuer could reach, and counts against that credential while it lives. */
module Brokered {
  import opened Text
  import opened State
  import opened Statements
  import opened Capability
  import opened Requests
  import opened Endpoints
  import opened Access
  import opened ControlPlane
  import opened Reachable

  // -- where a session comes from -----------------------------------------------------------------

  ghost predicate MadeAt(ws: seq<World>, es: seq<Event>, k: nat, h: TokenHash, s: Session) {
    k < |es| && k < |ws| && es[k].Tunnel? && SessionComesFrom(ws[k].t, es[k].tunnel, h, s)
  }

  /** Every session row was made by one step, and has not changed since. */
  lemma {:induction false} SessionOrigin(ws: seq<World>, es: seq<Event>, n: nat, h: TokenHash, s: Session) returns (k: nat)
    requires IsTrace(ws, es) && n < |ws| && h in ws[n].t.sessions && s == ws[n].t.sessions[h]
    ensures k < n && MadeAt(ws, es, k, h, s)
  {
    assert n > 0;
    assert MovesAt(ws, es, n - 1);
    SessionFrame(ws[n - 1].t, es[n - 1], h);
    if es[n - 1].Tunnel? && SessionComesFrom(ws[n - 1].t, es[n - 1].tunnel, h, s) {
      k := n - 1;
    } else {
      k := SessionOrigin(ws, es, n - 1, h, s);
    }
  }

  /** A step that approves a plan with these claims. */
  ghost predicate Plans(e: Event, claims: PlanClaims) {
    e.Quiet? && e.quiet.PlanningGrant? && e.quiet.planned == Ok(claims)
  }

  lemma LogFrame(w: World, e: Event, u: World, p: Payload)
    requires Moves(w, e, u) && p in u.serverLog && p !in w.serverLog
    ensures e.Quiet? && p in ServerSigns(e.quiet)
  {
  }

  /** Every approved plan that the server signed comes from a planning step. */
  lemma {:induction false} PlanOrigin(ws: seq<World>, es: seq<Event>, n: nat, claims: PlanClaims) returns (k: nat)
    requires IsTrace(ws, es) && n < |ws| && GrantPlan(claims) in ws[n].serverLog
    ensures k < n && Plans(es[k], claims)
  {
    assert n > 0;
    assert MovesAt(ws, es, n - 1);
    if GrantPlan(claims) in ws[n - 1].serverLog {
      k := PlanOrigin(ws, es, n - 1, claims);
    } else {
      LogFrame(ws[n - 1], es[n - 1], ws[n], GrantPlan(claims));
      k := n - 1;
    }
  }

  // -- what an issued grant rests on ------------------------------------------------------------------

  /** The requester's key has signed the request, and the broker's key the issue. */
  ghost predicate BothSigned(lib: Libraries, w: World, machine: Machine, body: GrantBody) {
    var requester, broker := ParseEndpoint(body.requester), ParseEndpoint(machine.endpoint);
    && requester.Some? && broker.Some?
    && (requester.value, RequestMessage(lib, body, requester.value)) in w.endpointLog
    && (broker.value, IssueMessage(lib, body, requester.value)) in w.endpointLog
  }

  lemma ProofIsOnStatement(lib: Libraries, w: World, key: KeyBytes, s: Encodable, proof: ByteString)
    requires ProofUnforgeable(lib, w, key, Encode(s), proof) && lib.endpointSigned(key, Encode(s), proof)
    ensures (key, s) in w.endpointLog
  {
    var x :| (key, x) in w.endpointLog && Encode(x) == Encode(s);
    EncodeInjective(x, s);
  }

  /** Proofs are on bytes; as bytes determine the statement, both keys signed these very
      statements. */
  lemma ValidGrantIsSigned(lib: Libraries, w: World, machine: Machine, body: GrantBody, now: nat)
    requires ValidateGrant(lib, w.t, machine, body, now).Ok? && GrantProofsUnforgeable(lib, w, machine, body)
    ensures BothSigned(lib, w, machine, body)
  {
    var requester, broker := ParseEndpoint(body.requester).value, ParseEndpoint(machine.endpoint).value;
    ProofIsOnStatement(lib, w, requester, RequestMessage(lib, body, requester), body.proof);
    ProofIsOnStatement(lib, w, broker, IssueMessage(lib, body, requester), body.brokerProof);
  }

  /** What a passed check says of the grant, all at the moment it is issued. */
  ghost predicate RestsOn(c: Config, w: World, u: TunnelEvent) {
    && u.IssuingGrant? && u.passed.Ok?
    && GrantPlan(ClaimsOf(u.machine, u.body)) in w.serverLog
    && c.lib.parseResource(u.body.resource) == Some(u.passed.value)
    && u.passed.value in AccessibleServices(w.t, u.machine.account)
    && BothSigned(c.lib, w, u.machine, u.body)
    && u.at < u.body.requestExpiresAt <= u.at + REQUEST_LIFETIME
    && u.at < u.body.expiresAt <= u.at + GRANT_LIFETIME
    && GRANT_SCOPE in u.machine.scopes
    && u.passed.value in w.t.resources && NamedBy(c.lib, w.t, u.machine.account, u.passed.value, u.body.service)
  }

  lemma PassedRestsOn(c: Config, w: World, u: TunnelEvent)
    requires Answers(c, w, Tunnel(u)) && u.IssuingGrant? && u.passed.Ok?
    ensures RestsOn(c, w, u)
  {
    ValidGrantIsSigned(c.lib, w, u.machine, u.body, u.at);
    PlanVerified(c, w, u);
  }

  lemma PlanVerified(c: Config, w: World, u: TunnelEvent)
    requires u.IssuingGrant? && Unforgeable(c.lib.serverKey, w.serverLog, u.approved)
    requires VerifyPlan(c.lib.serverKey, u.approved) == Some(ClaimsOf(u.machine, u.body))
    ensures GrantPlan(ClaimsOf(u.machine, u.body)) in w.serverLog
  {
  }

  lemma IssueStep(c: Config, ws: seq<World>, es: seq<Event>, n: nat, h: TokenHash) returns (issue: nat)
    requires IsRun(c, ws, es) && n < |ws| && h in ws[n].t.sessions && ws[n].t.sessions[h].issuer.Some?
    ensures issue < n && es[issue].Tunnel? && RestsOn(c, ws[issue], es[issue].tunnel)
    ensures var u := es[issue].tunnel; ws[n].t.sessions[h] == BrokeredSession(u.machine, u.body, u.passed.value)
  {
    RunIsTrace(c, ws, es);
    issue := SessionOrigin(ws, es, n, h, ws[n].t.sessions[h]);
    assert StepsAt(c, ws, es, issue);
    PassedRestsOn(c, ws[issue], es[issue].tunnel);
  }

  lemma PlanStep(c: Config, ws: seq<World>, es: seq<Event>, n: nat, claims: PlanClaims) returns (plan: nat)
    requires IsRun(c, ws, es) && n < |ws| && GrantPlan(claims) in ws[n].serverLog
    ensures plan < n && Plans(es[plan], claims) && ClaimsOf(es[plan].quiet.machine, es[plan].quiet.body) == claims
  {
    RunIsTrace(c, ws, es);
    plan := PlanOrigin(ws, es, n, claims);
    assert StepsAt(c, ws, es, plan);
  }

  lemma IssuerSees(c: Config, ws: seq<World>, es: seq<Event>, i: nat, viewer: AccountId, id: ResourceId)
    requires IsRun(c, ws, es) && i < |ws| && id in AccessibleServices(ws[i].t, viewer)
    ensures Sees(ws[i].t, viewer, id)
  {
    AccessAgrees(c, ws, es, i, viewer, id);
  }

  /** Origin of a brokered session: the step `issue` made it, and the step `plan` before that
      approved the same eight claims; the service was within its issuer's reach at `issue`. */
  lemma BrokeredOrigin(c: Config, ws: seq<World>, es: seq<Event>, n: nat, h: TokenHash) returns (issue: nat, plan: nat)
    requires IsRun(c, ws, es) && n < |ws| && h in ws[n].t.sessions && ws[n].t.sessions[h].issuer.Some?
    ensures issue < n && plan < issue && es[issue].Tunnel? && RestsOn(c, ws[issue], es[issue].tunnel)
    ensures var s, u := ws[n].t.sessions[h], es[issue].tunnel;
            && s == BrokeredSession(u.machine, u.body, u.passed.value)
            && Plans(es[plan], ClaimsOf(u.machine, u.body))
            && ClaimsOf(es[plan].quiet.machine, es[plan].quiet.body) == ClaimsOf(u.machine, u.body)
            && s.issuer == Some(es[plan].quiet.machine.credential)
            && Sees(ws[issue].t, s.viewer, s.resource)
  {
    issue := IssueStep(c, ws, es, n, h);
    var u := es[issue].tunnel;
    plan := PlanStep(c, ws, es, issue, ClaimsOf(u.machine, u.body));
    IssuerSees(c, ws, es, issue, u.machine.account, u.passed.value);
  }

  // -- every reachable state --------------------------------------------------------------------------

  /** Brokered sessions name a credential that exists and a request of their own. */
  ghost predicate Owned(t: Tables) {
    && (forall h :: h in t.sessions && t.sessions[h].issuer.Some? ==> t.sessions[h].issuer.value in t.credentials)
    && (forall g, h :: g in t.sessions && h in t.sessions && t.sessions[g].request.Some? ==>
          (t.sessions[g].request == t.sessions[h].request ==> g == h))
  }

  ghost predicate Fewer(t: Tables, u: Tables) {
    forall h :: h in u.sessions ==> h in t.sessions && u.sessions[h] == t.sessions[h]
  }

  lemma FewerOwned(t: Tables, u: Tables)
    requires Owned(t) && Fewer(t, u)
    requires forall h :: h in u.sessions && u.sessions[h].issuer.Some? ==> u.sessions[h].issuer.value in u.credentials
    ensures Owned(u)
  {
  }

  lemma InsertOwned(t: Tables, machine: Machine, body: GrantBody, id: ResourceId, hash: TokenHash, now: nat)
    requires Owned(t)
    ensures Owned(InsertGrant(t, machine, body, id, hash, now).1)
  {
    var after := InsertGrant(t, machine, body, id, hash, now).1;
    InsertFrame(t, machine, body, id, hash, now);
    forall h | h in after.sessions ensures after.sessions[h].issuer.Some? ==> after.sessions[h].issuer.value in after.credentials {
      InsertSessions(t, machine, body, id, hash, now, h);
    }
    forall g, h | g in after.sessions && h in after.sessions && after.sessions[g].request.Some?
      ensures after.sessions[g].request == after.sessions[h].request ==> g == h
    {
      InsertSessions(t, machine, body, id, hash, now, g);
      InsertSessions(t, machine, body, id, hash, now, h);
    }
  }

  lemma RedeemOwned(t: Tables, u: TunnelEvent)
    requires Owned(t) && u.Redeeming?
    ensures Owned(TunnelAfter(t, u))
  {
    var after := TunnelAfter(t, u);
    TunnelFrame(t, u);
    forall h | h in after.sessions
      ensures (h in t.sessions && after.sessions[h] == t.sessions[h]) || (after.sessions[h].issuer.None? && after.sessions[h].request.None?)
    {
      TunnelSessions(t, u, h);
    }
  }

  lemma TunnelOwned(t: Tables, u: TunnelEvent)
    requires Owned(t)
    ensures Owned(TunnelAfter(t, u))
  {
    if u.Redeeming? {
      RedeemOwned(t, u);
    } else if u.IssuingGrant? && u.passed.Ok? {
      InsertOwned(t, u.machine, u.body, u.passed.value, u.hash, u.at);
    } else {
      FewerOwned(t, TunnelAfter(t, u));
    }
  }

  /** Revoking a credential takes the sessions it issued with it. */
  lemma RevokeOwned(t: Tables, account: AccountId, id: CredentialId)
    requires Owned(t)
    ensures Owned(RevokeCredential(t, account, id))
  {
    FewerOwned(t, RevokeCredential(t, account, id));
  }

  lemma MachineOwned(t: Tables, m: MachineEvent)
    requires Owned(t)
    ensures Owned(MachineAfter(t, m))
  {
    if m.Revoking? {
      RevokeOwned(t, m.account, m.credential);
    } else {
      assert MachineAfter(t, m).sessions == t.sessions;
      assert t.credentials.Keys <= MachineAfter(t, m).credentials.Keys;
      FewerOwned(t, MachineAfter(t, m));
    }
  }

  lemma StepOwned(w: World, e: Event, u: World)
    requires Owned(w.t) && Moves(w, e, u)
    ensures Owned(u.t)
  {
    match e {
      case Share(s) =>
        ShareFrame(w.t, s);
        FewerOwned(w.t, u.t);
      case Tunnel(v) => TunnelOwned(w.t, v);
      case Enrol(m) => MachineOwned(w.t, m);
      case Quiet(_) =>
    }
  }

  lemma {:induction false} TraceOwned(ws: seq<World>, es: seq<Event>, i: nat)
    requires IsTrace(ws, es) && i < |ws|
    ensures Owned(ws[i].t)
  {
    if i > 0 {
      TraceOwned(ws, es, i - 1);
      assert MovesAt(ws, es, i - 1);
      StepOwned(ws[i - 1], es[i - 1], ws[i]);
    }
  }

  lemma SubsetSize<T>(a: set<T>, b: set<T>)
    requires a <= b
    ensures |a| <= |b|
  {
    assert b == a + (b - a);
  }

  lemma StepActive(w: World, e: Event, u: World, credential: CredentialId)
    requires Moves(w, e, u) && |ActiveGrants(w.t, credential, w.now)| <= MAX_ACTIVE_GRANTS
    ensures |ActiveGrants(u.t, credential, u.now)| <= MAX_ACTIVE_GRANTS
  {
    var before, after := ActiveGrants(w.t, credential, w.now), ActiveGrants(u.t, credential, u.now);
    if h :| h in after && h !in before {
      IssuedActive(w, e, u, credential, h);
    } else {
      SubsetSize(after, before);
    }
  }

  /** Only a grant issued to the credential adds to its sessions, and then there were fewer
      than the limit, counted at a clock reading no later than now. */
  lemma IssuedActive(w: World, e: Event, u: World, credential: CredentialId, h: TokenHash)
    requires Moves(w, e, u) && h in ActiveGrants(u.t, credential, u.now) && h !in ActiveGrants(w.t, credential, w.now)
    ensures |ActiveGrants(u.t, credential, u.now)| <= MAX_ACTIVE_GRANTS
  {
    SessionFrame(w.t, e, h);
    DrawnGrow(w, e, u);
    var at := e.tunnel.at;
    var before, after := ActiveGrants(w.t, credential, at), ActiveGrants(u.t, credential, u.now);
    forall g | g in after ensures g in before + {h} {
      SessionFrame(w.t, e, g);
    }
    SubsetSize(after, before + {h});
  }

  lemma {:induction false} TraceActive(ws: seq<World>, es: seq<Event>, i: nat, credential: CredentialId)
    requires IsTrace(ws, es) && i < |ws|
    ensures |ActiveGrants(ws[i].t, credential, ws[i].now)| <= MAX_ACTIVE_GRANTS
  {
    if i == 0 {
      assert ActiveGrants(ws[0].t, credential, ws[0].now) == {};
    } else {
      TraceActive(ws, es, i - 1, credential);
      assert MovesAt(ws, es, i - 1);
      StepActive(ws[i - 1], es[i - 1], ws[i], credential);
    }
  }

  /** In every reachable state a credential has at most 32 unexpired sessions, no session
      names a revoked credential, and no two share a request id. */
  lemma BrokeredBounds(c: Config, ws: seq<World>, es: seq<Event>, i: nat, credential: CredentialId)
    requires IsRun(c, ws, es) && i < |ws|
    ensures |ActiveGrants(ws[i].t, credential, ws[i].now)| <= 32
    ensures Owned(ws[i].t)
  {
    RunIsTrace(c, ws, es);
    TraceOwned(ws, es, i);
    TraceActive(ws, es, i, credential);
  }
}

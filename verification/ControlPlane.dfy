/** Runs of the control plane. A step is what one request does under one hold of the database
    lock, so requests that take the lock twice are two steps, with whatever other steps in
    between. Every reachable state starts from the empty database. */
module ControlPlane {
  import opened Text
  import opened State
  import opened Sharing
  import opened Statements
  import opened Capability
  import opened Requests
  import opened Endpoints
  import opened Access

  /** What a deployment fixes: the libraries, and the name the server issues grants under. */
  datatype Config = Config(lib: Libraries, issuer: string)

  /** The tables and the clock; every random id ever drawn; what endpoint keys and the
      server's key have signed; and what running requests have read and may still act on. */
  datatype World = World(
    t: Tables,
    now: nat,
    resourceIds: set<ResourceId>,
    hashes: set<TokenHash>,
    credentialIds: set<CredentialId>,
    nonces: set<Nonce>,
    endpointLog: set<(KeyBytes, Encodable)>,
    serverLog: set<Payload>,
    enrollments: set<(CredentialId, AccountId, TokenHash)>,
    machines: set<Machine>,
    clearances: set<Clearance>)

  // -- requests, with the random ids they draw, the time `at` they read the clock, and what
  // their checks answer

  datatype ShareEvent =
    | SigningIn(account: AccountId)
    | ClaimingHandle(account: AccountId, text: string, handle: Option<string>)
    | PuttingResource(owner: AccountId, request: ResourceRequest, newId: ResourceId, prepared: Result<Prepared, ApiError>)
    | PuttingShares(owner: AccountId, id: ResourceId, handles: seq<string>, targets: Result<seq<AccountId>, ApiError>)
    | Dropping(owner: AccountId, id: ResourceId)
    | Accepting(viewer: AccountId, id: ResourceId)
    | Declining(viewer: AccountId, id: ResourceId)

  datatype TunnelEvent =
    | TakingTicket(viewer: AccountId, id: ResourceId, hash: TokenHash, at: nat)
    | Redeeming(hash: TokenHash, client: KeyBytes, session: TokenHash, at: nat)
    | EndingSession(hash: TokenHash)
    | IssuingGrant(machine: Machine, body: GrantBody, approved: Signed, hash: TokenHash, at: nat, passed: Result<ResourceId, ApiError>)

  datatype MachineEvent =
    | AddingCredential(account: AccountId, credential: CredentialId, hash: TokenHash, scopes: set<string>)
    | Enrolling(credential: CredentialId, account: AccountId, hash: TokenHash, next: TokenHash, endpoint: string, proof: ByteString)
    | Revoking(account: AccountId, credential: CredentialId)
    | Registering(machine: Machine, proof: ByteString)

  /** Steps that leave the tables alone. */
  datatype QuietEvent =
    | Advancing(seconds: nat)
    | LookingUpTicket(hash: TokenHash, credential: CredentialId)
    | Authenticating(hash: TokenHash, credential: CredentialId)
    | EndpointSigning(key: KeyBytes, statement: Encodable)
    | PlanningGrant(machine: Machine, body: GrantBody, at: nat, planned: Result<PlanClaims, ApiError>)
    | Clearing(hash: TokenHash, at: nat, cleared: Result<Clearance, ApiError>)
    | Minting(clearance: Clearance, nonce: Nonce, minted: Result<Claims, ApiError>)

  datatype Event = Share(share: ShareEvent) | Tunnel(tunnel: TunnelEvent) | Enrol(enrol: MachineEvent) | Quiet(quiet: QuietEvent)

  // -- what can happen --------------------------------------------------------------------------

  /** Random ids are never drawn twice; a request acts on what it has read; and it reads the
      clock before it takes the lock. */
  predicate Draws(w: World, e: Event) {
    match e
    case Share(s) => s.PuttingResource? ==> s.owner in w.t.accounts && s.newId !in w.resourceIds
    case Tunnel(u) => TunnelDraws(w, u)
    case Enrol(m) => MachineDraws(w, m)
    case Quiet(q) => QuietDraws(w, q)
  }

  predicate TunnelDraws(w: World, u: TunnelEvent) {
    match u
    case TakingTicket(_, _, hash, at) => hash !in w.hashes && at <= w.now
    case Redeeming(_, _, session, at) => session !in w.hashes && at <= w.now
    case EndingSession(_) => true
    case IssuingGrant(machine, _, _, hash, at, _) => machine in w.machines && at <= w.now && hash !in w.hashes
  }

  predicate MachineDraws(w: World, m: MachineEvent) {
    match m
    case AddingCredential(_, id, hash, _) => id !in w.credentialIds && hash !in w.hashes
    case Enrolling(id, account, hash, next, _, _) => (id, account, hash) in w.enrollments && next !in w.hashes
    case Revoking(_, _) => true
    case Registering(machine, _) => machine in w.machines
  }

  predicate QuietDraws(w: World, q: QuietEvent) {
    match q
    case Advancing(_) => true
    case LookingUpTicket(hash, id) => id in w.t.credentials && IsTicketOf(w.t, id, w.t.credentials[id].account, hash)
    case Authenticating(hash, id) => Authenticates(w.t, hash, id)
    case EndpointSigning(_, _) => true
    case PlanningGrant(machine, _, at, _) => machine in w.machines && at <= w.now
    case Clearing(_, at, _) => at <= w.now
    case Minting(clearance, nonce, _) => clearance in w.clearances && nonce !in w.nonces
  }

  /** A proof that verifies is on a message its key has signed, and what endpoint keys sign
      are statements. */
  ghost predicate ProofUnforgeable(lib: Libraries, w: World, key: KeyBytes, message: ByteString, proof: ByteString) {
    lib.endpointSigned(key, message, proof) ==> exists s :: (key, s) in w.endpointLog && Encode(s) == message
  }

  ghost predicate GrantProofsUnforgeable(lib: Libraries, w: World, machine: Machine, body: GrantBody) {
    var requester, broker := ParseEndpoint(body.requester), ParseEndpoint(machine.endpoint);
    requester.Some? ==>
      && ProofUnforgeable(lib, w, requester.value, Encode(RequestMessage(lib, body, requester.value)), body.proof)
      && (broker.Some? ==>
            ProofUnforgeable(lib, w, broker.value, Encode(IssueMessage(lib, body, requester.value)), body.brokerProof))
  }

  ghost predicate EndpointProofUnforgeable(lib: Libraries, w: World, endpoint: string, proof: ByteString) {
    var key := ParseEndpoint(endpoint);
    key.Some? ==> ProofUnforgeable(lib, w, key.value, Encode(EndpointProof(key.value)), proof)
  }

  /** The answers are those of the checks, and no signature is forged. */
  ghost predicate Answers(c: Config, w: World, e: Event) {
    match e
    case Share(s) => ShareAnswers(c, w, s)
    case Tunnel(u) =>
      u.IssuingGrant? ==>
        && u.passed == CheckGrant(c.lib, w.t, u.machine, u.body, Some(u.approved), u.at)
        && GrantProofsUnforgeable(c.lib, w, u.machine, u.body) && Unforgeable(c.lib.serverKey, w.serverLog, u.approved)
    case Enrol(m) => MachineAnswers(c, w, m)
    case Quiet(q) => QuietAnswers(c, w, q)
  }

  ghost predicate ShareAnswers(c: Config, w: World, s: ShareEvent) {
    match s
    case ClaimingHandle(_, text, handle) => handle == ValidateHandle(text)
    case PuttingResource(owner, request, _, prepared) => prepared == Prepare(c.lib, w.t, owner, request)
    case PuttingShares(owner, id, handles, targets) => targets == ShareTargets(w.t, owner, id, handles)
    case _ => true
  }

  ghost predicate MachineAnswers(c: Config, w: World, m: MachineEvent) {
    match m
    case Enrolling(_, _, _, _, endpoint, proof) =>
      ProvesEndpoint(c.lib, endpoint, proof) && EndpointProofUnforgeable(c.lib, w, endpoint, proof)
    case Registering(machine, proof) =>
      ProvesEndpoint(c.lib, machine.endpoint, proof) && EndpointProofUnforgeable(c.lib, w, machine.endpoint, proof)
    case _ => true
  }

  ghost predicate QuietAnswers(c: Config, w: World, q: QuietEvent) {
    match q
    case PlanningGrant(machine, body, at, planned) =>
      planned == PlanGrant(c.lib, w.t, machine, body, at) && GrantProofsUnforgeable(c.lib, w, machine, body)
    case Clearing(hash, at, cleared) => cleared == Clear(w.t, hash, at)
    case Minting(clearance, nonce, minted) => minted == Mint(c.issuer, clearance, nonce)
    case _ => true
  }

  // -- what it does --------------------------------------------------------------------------------

  ghost function ShareAfter(t: Tables, s: ShareEvent): Tables {
    match s
    case SigningIn(account) => SignIn(t, account)
    case ClaimingHandle(account, _, handle) => if handle.Some? then ClaimHandle(t, account, handle.value) else t
    case PuttingResource(_, _, _, _) => PutAfter(t, s)
    case PuttingShares(_, id, _, targets) => if targets.Ok? then SetShares(t, id, AccountSet(targets.value)) else t
    case Dropping(owner, id) => DeleteResource(t, owner, id)
    case Accepting(viewer, id) => AcceptShare(t, (id, viewer))
    case Declining(viewer, id) => DeclineShare(t, (id, viewer))
  }

  ghost function PutAfter(t: Tables, s: ShareEvent): Tables
    requires s.PuttingResource?
  {
    if s.prepared.Ok? then PutPrepared(t, s.owner, s.prepared.value, s.newId).0 else t
  }

  function TunnelAfter(t: Tables, u: TunnelEvent): Tables {
    match u
    case TakingTicket(viewer, id, hash, at) =>
      var taken := IssueTicket(t, viewer, id, hash, at);
      if taken.Ok? then taken.value else t
    case Redeeming(hash, client, session, at) => Redeem(t, hash, client, session, at).1
    case EndingSession(hash) => DeleteSession(t, hash)
    case IssuingGrant(machine, body, _, hash, at, passed) =>
      if passed.Ok? then InsertGrant(t, machine, body, passed.value, hash, at).1 else t
  }

  function MachineAfter(t: Tables, m: MachineEvent): Tables {
    match m
    case AddingCredential(account, id, hash, scopes) =>
      var added := NewCredential(t, account, id, hash, scopes);
      if added.Ok? then added.value else t
    case Enrolling(id, account, hash, next, endpoint, _) => EnrollMachine(t, id, account, hash, next, endpoint)
    case Revoking(account, id) => RevokeCredential(t, account, id)
    case Registering(machine, _) => RegisterDaemon(t, machine.account, machine.endpoint)
  }

  ghost function TablesAfter(t: Tables, e: Event): Tables {
    match e
    case Share(s) => ShareAfter(t, s)
    case Tunnel(u) => TunnelAfter(t, u)
    case Enrol(m) => MachineAfter(t, m)
    case Quiet(_) => t
  }

  function HashesDrawn(e: Event): set<TokenHash> {
    match e
    case Share(_) => {}
    case Tunnel(u) => if u.EndingSession? then {} else if u.Redeeming? then {u.session} else {u.hash}
    case Enrol(m) => if m.AddingCredential? then {m.hash} else if m.Enrolling? then {m.next} else {}
    case Quiet(_) => {}
  }

  /** What the server's key signs in a step. */
  function ServerSigns(q: QuietEvent): set<Payload> {
    if q.PlanningGrant? && q.planned.Ok? then {GrantPlan(q.planned.value)}
    else if q.Minting? && q.minted.Ok? then {Grant(q.minted.value)}
    else {}
  }

  /** The enrolled machine that a credential's row describes. */
  function MachineOf(id: CredentialId, r: Credential): Machine
    requires r.endpoint.Some?
  {
    Machine(r.account, id, r.endpoint.value, r.scopes)
  }

  /** What a step that leaves the tables alone adds to the rest of the world. */
  function QuietAfter(w: World, q: QuietEvent): World
    requires QuietDraws(w, q)
  {
    match q
    case Advancing(seconds) => w.(now := w.now + seconds)
    case LookingUpTicket(hash, id) => w.(enrollments := w.enrollments + {(id, w.t.credentials[id].account, hash)})
    case Authenticating(_, id) => w.(machines := w.machines + {MachineOf(id, w.t.credentials[id])})
    case EndpointSigning(key, statement) => w.(endpointLog := w.endpointLog + {(key, statement)})
    case PlanningGrant(_, _, _, _) => w.(serverLog := w.serverLog + ServerSigns(q))
    case Clearing(_, _, cleared) => if cleared.Ok? then w.(clearances := w.clearances + {cleared.value}) else w
    case Minting(_, nonce, _) => w.(serverLog := w.serverLog + ServerSigns(q), nonces := w.nonces + {nonce})
  }

  ghost function Apply(w: World, e: Event): World
    requires Draws(w, e)
  {
    match e
    case Share(s) =>
      w.(t := ShareAfter(w.t, s), resourceIds := w.resourceIds + if s.PuttingResource? then {s.newId} else {})
    case Tunnel(u) => w.(t := TunnelAfter(w.t, u), hashes := w.hashes + HashesDrawn(e))
    case Enrol(m) =>
      w.(t := MachineAfter(w.t, m), hashes := w.hashes + HashesDrawn(e),
         credentialIds := w.credentialIds + if m.AddingCredential? then {m.credential} else {})
    case Quiet(q) => QuietAfter(w, q)
  }

  function Start(now: nat): World {
    World(EMPTY, now, {}, {}, {}, {}, {}, {}, {}, {}, {})
  }

  ghost predicate Steps(c: Config, w: World, e: Event, u: World) {
    Draws(w, e) && Answers(c, w, e) && u == Apply(w, e)
  }

  ghost predicate StepsAt(c: Config, ws: seq<World>, es: seq<Event>, i: nat) {
    i < |es| && i + 1 < |ws| && Steps(c, ws[i], es[i], ws[i + 1])
  }

  ghost predicate IsRun(c: Config, ws: seq<World>, es: seq<Event>) {
    && |ws| == |es| + 1 && ws[0] == Start(ws[0].now)
    && forall i :: 0 <= i < |es| ==> StepsAt(c, ws, es, i)
  }

  // -- what checks that pass have established ----------------------------------------------------

  /** What the invariants need of the answers. */
  ghost predicate ShareSound(t: Tables, s: ShareEvent) {
    match s
    case ClaimingHandle(_, _, handle) => handle.Some? ==> IsLower(handle.value)
    case PuttingResource(owner, _, _, prepared) => prepared.Ok? ==> PreparedOk(t, owner, prepared.value)
    case PuttingShares(owner, id, _, targets) =>
      targets.Ok? ==>
        id in t.resources && t.resources[id].owner == owner && ViewersOk(t, owner, t.resources[id].visibility, AccountSet(targets.value))
    case _ => true
  }

  ghost predicate Sound(t: Tables, e: Event) {
    match e
    case Share(s) => ShareSound(t, s)
    case Tunnel(u) => u.IssuingGrant? && u.passed.Ok? ==> |ActiveGrants(t, u.machine.credential, u.at)| < MAX_ACTIVE_GRANTS
    case _ => true
  }

  lemma AnswersSound(c: Config, w: World, e: Event)
    requires Answers(c, w, e)
    ensures Sound(w.t, e)
  {
    if e.Share? {
      if e.share.PuttingResource? && e.share.prepared.Ok? {
        PrepareOk(c.lib, w.t, e.share.owner, e.share.request);
      } else if e.share.PuttingShares? && e.share.targets.Ok? {
        ShareTargetsOk(w.t, e.share.owner, e.share.id, e.share.handles);
      }
    }
  }

  /** A step with its answers replaced by what they establish. */
  ghost predicate Moves(w: World, e: Event, u: World) {
    Draws(w, e) && Sound(w.t, e) && u == Apply(w, e)
  }

  ghost predicate MovesAt(ws: seq<World>, es: seq<Event>, i: nat) {
    i < |es| && i + 1 < |ws| && Moves(ws[i], es[i], ws[i + 1])
  }

  /** A run as the invariants see it. */
  ghost predicate IsTrace(ws: seq<World>, es: seq<Event>) {
    && |ws| == |es| + 1 && ws[0] == Start(ws[0].now)
    && forall i :: 0 <= i < |es| ==> MovesAt(ws, es, i)
  }

  lemma RunIsTrace(c: Config, ws: seq<World>, es: seq<Event>)
    requires IsRun(c, ws, es)
    ensures IsTrace(ws, es)
  {
    forall i | 0 <= i < |es| ensures MovesAt(ws, es, i) {
      assert StepsAt(c, ws, es, i);
      AnswersSound(c, ws[i], es[i]);
    }
  }

  // -- what a step leaves alone ----------------------------------------------------------------

  ghost predicate OnlySharing(t: Tables, u: Tables) {
    && u.credentials == t.credentials && u.daemons == t.daemons
    && (forall h :: h in u.tickets ==> h in t.tickets && u.tickets[h] == t.tickets[h])
    && (forall h :: h in u.sessions ==> h in t.sessions && u.sessions[h] == t.sessions[h])
  }

  lemma PutSameSessions(t: Tables, owner: AccountId, p: Prepared, id: ResourceId)
    ensures PutPrepared(t, owner, p, id).0.sessions == t.sessions
  {
    var (u, at) := CreateResource(t, owner, p.name, p.kind, p.visibility, p.url, p.folder, id);
    assert u.sessions == t.sessions && SetShares(u, at, AccountSet(p.viewers)).sessions == u.sessions;
  }

  lemma PutSameTickets(t: Tables, owner: AccountId, p: Prepared, id: ResourceId)
    ensures PutPrepared(t, owner, p, id).0.tickets == t.tickets
  {
    var (u, at) := CreateResource(t, owner, p.name, p.kind, p.visibility, p.url, p.folder, id);
    assert u.tickets == t.tickets && SetShares(u, at, AccountSet(p.viewers)).tickets == u.tickets;
  }

  lemma PutFrame(t: Tables, owner: AccountId, p: Prepared, id: ResourceId)
    ensures OnlySharing(t, PutPrepared(t, owner, p, id).0)
  {
    var (u, at) := CreateResource(t, owner, p.name, p.kind, p.visibility, p.url, p.folder, id);
    assert OnlySharing(t, u);
    assert OnlySharing(u, SetShares(u, at, AccountSet(p.viewers)));
  }

  lemma SignInFrame(t: Tables, account: AccountId)
    ensures OnlySharing(t, SignIn(t, account))
  {
  }

  lemma ClaimFrame(t: Tables, account: AccountId, handle: string)
    ensures OnlySharing(t, ClaimHandle(t, account, handle))
  {
  }

  lemma SetSharesFrame(t: Tables, id: ResourceId, viewers: set<AccountId>)
    ensures OnlySharing(t, SetShares(t, id, viewers))
  {
  }

  lemma ConsentFrame(t: Tables, r: Recipient)
    ensures OnlySharing(t, AcceptShare(t, r)) && OnlySharing(t, DeclineShare(t, r))
  {
  }

  lemma DropFrame(t: Tables, owner: AccountId, id: ResourceId)
    ensures OnlySharing(t, DeleteResource(t, owner, id))
  {
  }

  lemma ShareFrame(t: Tables, s: ShareEvent)
    ensures OnlySharing(t, ShareAfter(t, s))
  {
    match s {
      case SigningIn(account) => SignInFrame(t, account);
      case ClaimingHandle(account, _, handle) => if handle.Some? { ClaimFrame(t, account, handle.value); }
      case PuttingResource(owner, _, id, prepared) => if prepared.Ok? { PutFrame(t, owner, prepared.value, id); }
      case PuttingShares(_, id, _, targets) => if targets.Ok? { SetSharesFrame(t, id, AccountSet(targets.value)); }
      case Dropping(owner, id) => DropFrame(t, owner, id);
      case Accepting(viewer, id) => ConsentFrame(t, (id, viewer));
      case Declining(viewer, id) => ConsentFrame(t, (id, viewer));
    }
  }

  ghost predicate OnlyMachines(t: Tables, u: Tables) {
    && SameSharing(t, u) && u.tickets == t.tickets
    && (forall h :: h in u.sessions ==> h in t.sessions && u.sessions[h] == t.sessions[h])
  }

  lemma RevokeFrame(t: Tables, account: AccountId, id: CredentialId)
    ensures OnlyMachines(t, RevokeCredential(t, account, id))
  {
  }

  lemma EnrollFrame(t: Tables, id: CredentialId, account: AccountId, hash: TokenHash, next: TokenHash, endpoint: string)
    ensures OnlyMachines(t, EnrollMachine(t, id, account, hash, next, endpoint))
  {
  }

  lemma MachineFrame(t: Tables, m: MachineEvent)
    ensures OnlyMachines(t, MachineAfter(t, m))
  {
    match m {
      case AddingCredential(_, _, _, _) =>
      case Enrolling(id, account, hash, next, endpoint, _) => EnrollFrame(t, id, account, hash, next, endpoint);
      case Revoking(account, id) => RevokeFrame(t, account, id);
      case Registering(_, _) =>
    }
  }

  ghost predicate OnlyTunnels(t: Tables, u: Tables) {
    SameSharing(t, u) && u.credentials == t.credentials && u.daemons == t.daemons
  }

  lemma InsertFrame(t: Tables, machine: Machine, body: GrantBody, id: ResourceId, hash: TokenHash, now: nat)
    ensures var u := InsertGrant(t, machine, body, id, hash, now).1;
            OnlyTunnels(t, u) && u.tickets == t.tickets
  {
    assert InsertGrant(t, machine, body, id, hash, now).1 == CreateBrokerSession(t, hash, BrokeredSession(machine, body, id), now);
  }

  lemma RedeemFrame(t: Tables, hash: TokenHash, client: KeyBytes, session: TokenHash, now: nat)
    ensures var u := Redeem(t, hash, client, session, now).1;
            OnlyTunnels(t, u) && u.tickets == ConsumeTicket(t, hash, now).tickets
  {
  }

  lemma TunnelFrame(t: Tables, u: TunnelEvent)
    ensures OnlyTunnels(t, TunnelAfter(t, u))
  {
    match u {
      case TakingTicket(_, _, _, _) =>
      case Redeeming(hash, client, session, at) => RedeemFrame(t, hash, client, session, at);
      case EndingSession(_) =>
      case IssuingGrant(machine, body, _, hash, at, passed) =>
        if passed.Ok? { InsertFrame(t, machine, body, passed.value, hash, at); }
    }
  }

  lemma TunnelTickets(t: Tables, u: TunnelEvent, h: TokenHash)
    requires h in TunnelAfter(t, u).tickets
    ensures (h in t.tickets && TunnelAfter(t, u).tickets[h] == t.tickets[h]) || (u.TakingTicket? && h == u.hash)
  {
    match u {
      case TakingTicket(_, _, _, _) =>
      case Redeeming(hash, client, session, at) => RedeemFrame(t, hash, client, session, at);
      case EndingSession(_) =>
      case IssuingGrant(machine, body, _, hash, at, passed) =>
        if passed.Ok? { InsertFrame(t, machine, body, passed.value, hash, at); }
    }
  }

  lemma TicketFrame(t: Tables, e: Event, h: TokenHash)
    requires h in TablesAfter(t, e).tickets
    ensures (h in t.tickets && TablesAfter(t, e).tickets[h] == t.tickets[h])
            || (e.Tunnel? && e.tunnel.TakingTicket? && h == e.tunnel.hash)
  {
    match e {
      case Share(s) => ShareFrame(t, s);
      case Tunnel(u) => TunnelTickets(t, u, h);
      case Enrol(m) => MachineFrame(t, m);
      case Quiet(_) =>
    }
  }

  /** A session is kept, or is the one that a redeemed ticket or a granted request makes. */
  ghost predicate SessionComesFrom(t: Tables, u: TunnelEvent, h: TokenHash, s: Session) {
    || (u.Redeeming? && h == u.session && Redeem(t, u.hash, u.client, h, u.at).0 == Ok(s))
    || (u.IssuingGrant? && h == u.hash && u.passed.Ok? && s == BrokeredSession(u.machine, u.body, u.passed.value)
        && CanBroker(t, h, u.machine.credential, u.body.requestId, u.at))
  }

  lemma RedeemSessions(t: Tables, hash: TokenHash, client: KeyBytes, session: TokenHash, now: nat, h: TokenHash)
    requires h in Redeem(t, hash, client, session, now).1.sessions
    ensures var (r, u) := Redeem(t, hash, client, session, now);
            (h in t.sessions && u.sessions[h] == t.sessions[h]) || (h == session && r == Ok(u.sessions[h]))
  {
  }

  lemma InsertSessions(t: Tables, machine: Machine, body: GrantBody, id: ResourceId, hash: TokenHash, now: nat, h: TokenHash)
    requires h in InsertGrant(t, machine, body, id, hash, now).1.sessions
    ensures var s := InsertGrant(t, machine, body, id, hash, now).1.sessions[h];
            || (LiveSession(t, h, now) && s == t.sessions[h])
            || (h == hash && s == BrokeredSession(machine, body, id) && CanBroker(t, h, machine.credential, body.requestId, now))
  {
    var s := BrokeredSession(machine, body, id);
    assert InsertGrant(t, machine, body, id, hash, now).1 == CreateBrokerSession(t, hash, s, now);
    BrokerSessions(t, hash, s, now, h);
  }

  lemma BrokerSessions(t: Tables, hash: TokenHash, session: Session, now: nat, h: TokenHash)
    requires session.issuer.Some? && session.request.Some? && h in CreateBrokerSession(t, hash, session, now).sessions
    ensures var s := CreateBrokerSession(t, hash, session, now).sessions[h];
            || (LiveSession(t, h, now) && s == t.sessions[h])
            || (h == hash && s == session && CanBroker(t, h, session.issuer.value, session.request.value, now))
  {
  }

  lemma TunnelSessions(t: Tables, u: TunnelEvent, h: TokenHash)
    requires h in TunnelAfter(t, u).sessions
    ensures (h in t.sessions && TunnelAfter(t, u).sessions[h] == t.sessions[h])
            || SessionComesFrom(t, u, h, TunnelAfter(t, u).sessions[h])
  {
    match u {
      case TakingTicket(_, _, _, _) =>
      case Redeeming(hash, client, session, at) => RedeemSessions(t, hash, client, session, at, h);
      case EndingSession(_) =>
      case IssuingGrant(machine, body, _, hash, at, passed) =>
        if passed.Ok? { InsertSessions(t, machine, body, passed.value, hash, at, h); }
    }
  }

  lemma SessionFrame(t: Tables, e: Event, h: TokenHash)
    requires h in TablesAfter(t, e).sessions
    ensures (h in t.sessions && TablesAfter(t, e).sessions[h] == t.sessions[h])
            || (e.Tunnel? && SessionComesFrom(t, e.tunnel, h, TablesAfter(t, e).sessions[h]))
  {
    match e {
      case Share(s) => ShareFrame(t, s);
      case Tunnel(u) => TunnelSessions(t, u, h);
      case Enrol(m) => MachineFrame(t, m);
      case Quiet(_) =>
    }
  }
}

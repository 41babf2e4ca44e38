/** The control plane's tables as one value, and what each database call does to it.

    A table is a map from its primary key, or a set when the key is the whole row. Foreign
    keys with cascades and uniqueness are part of the calls, as the schema enforces them. */
module State {
  import opened Text

  datatype AccountId = AccountId(raw: nat)
  datatype ResourceId = ResourceId(raw: nat)

  /** The hash a bearer token is stored under. */
  type TokenHash = nat

  /** The random id of a machine credential. */
  type CredentialId = nat

  datatype Visibility = Public | Private | Shared

  datatype ResourceKind = Link | Service

  datatype ShareStatus = Pending | Accepted | Declined

  /** A row of the list of recipients that owners see. */
  datatype ShareRecipient = ShareRecipient(handle: string, status: ShareStatus)

  /** The statuses the table of invitations admits. */
  type InvitationStatus = s: ShareStatus | s != Accepted witness Pending

  datatype Resource = Resource(
    owner: AccountId,
    name: string,
    kind: ResourceKind,
    visibility: Visibility,
    url: Option<string>,
    folder: Option<string>)

  datatype Ticket = Ticket(viewer: AccountId, resource: ResourceId, expiresAt: nat)

  datatype Session = Session(
    viewer: AccountId,
    resource: ResourceId,
    client: string,
    expiresAt: nat,
    issuer: Option<CredentialId>,
    request: Option<string>)

  datatype Credential = Credential(
    account: AccountId,
    tokenHash: TokenHash,
    endpoint: Option<string>,
    scopes: set<string>)

  /** A row of `shares` or the key of a row of `share_invitations`. */
  type Recipient = (ResourceId, AccountId)

  datatype Tables = Tables(
    accounts: map<AccountId, Option<string>>,
    resources: map<ResourceId, Resource>,
    shares: set<Recipient>,
    invitations: map<Recipient, InvitationStatus>,
    tickets: map<TokenHash, Ticket>,
    sessions: map<TokenHash, Session>,
    credentials: map<CredentialId, Credential>,
    daemons: map<AccountId, string>)

  const EMPTY: Tables := Tables(map[], map[], {}, map[], map[], map[], map[], map[])

  // -- policy --------------------------------------------------------------------------------

  /** Whether `viewer` may see a resource of `owner`; `None` is an anonymous viewer. */
  predicate CanView(viewer: Option<AccountId>, owner: AccountId, visibility: Visibility, sharedWith: set<AccountId>) {
    match visibility
    case Public => true
    case Private => viewer == Some(owner)
    case Shared => viewer == Some(owner) || (viewer.Some? && viewer.value in sharedWith)
  }

  // -- reading -------------------------------------------------------------------------------

  function SharedWith(t: Tables, id: ResourceId): set<AccountId> {
    set p | p in t.shares && p.0 == id :: p.1
  }

  predicate Sees(t: Tables, viewer: AccountId, id: ResourceId) {
    id in t.resources &&
    CanView(Some(viewer), t.resources[id].owner, t.resources[id].visibility, SharedWith(t, id))
  }

  /** The services an account may reach: its own, and those with an accepted share. The query
      does not look at visibility. */
  function AccessibleServices(t: Tables, viewer: AccountId): set<ResourceId> {
    set id | id in t.resources && t.resources[id].kind == Service
             && (t.resources[id].owner == viewer || (id, viewer) in t.shares)
  }

  /** The viewer and resource pairs the daemon of `owner` refreshes from. */
  function ServiceAuthorizations(t: Tables, owner: AccountId): set<(AccountId, ResourceId)> {
    (set id | id in t.resources && t.resources[id].owner == owner && t.resources[id].kind == Service
       :: (owner, id))
    + (set p | p in t.shares && p.0 in t.resources && t.resources[p.0].owner == owner
               && t.resources[p.0].kind == Service && t.resources[p.0].visibility == Shared
         :: (p.1, p.0))
  }

  /** Some resource with this owner, name and kind. */
  ghost function FindResource(t: Tables, owner: AccountId, name: string, kind: ResourceKind): (r: Option<ResourceId>)
    ensures r.Some? ==> r.value in t.resources && Matches(t.resources[r.value], owner, name, kind)
    ensures r.None? ==> forall id :: id in t.resources ==> !Matches(t.resources[id], owner, name, kind)
  {
    if exists id :: id in t.resources && Matches(t.resources[id], owner, name, kind) then
      var id :| id in t.resources && Matches(t.resources[id], owner, name, kind);
      Some(id)
    else None
  }

  predicate Matches(r: Resource, owner: AccountId, name: string, kind: ResourceKind) {
    r.owner == owner && r.name == name && r.kind == kind
  }

  function HandleOf(t: Tables, v: AccountId): Option<string> {
    if v in t.accounts then t.accounts[v] else None
  }

  /** No two accounts have the same handle. */
  ghost predicate UniqueHandles(t: Tables) {
    forall a, b :: a in t.accounts && b in t.accounts && t.accounts[a].Some? && t.accounts[a] == t.accounts[b] ==> a == b
  }

  /** No two resources share their owner, name and kind. */
  ghost predicate UniqueKeys(t: Tables) {
    forall a, b :: a in t.resources && b in t.resources && SameKey(t.resources[a], t.resources[b]) ==> a == b
  }

  predicate SameKey(a: Resource, b: Resource) {
    Matches(a, b.owner, b.name, b.kind)
  }

  lemma FindUnique(t: Tables, owner: AccountId, name: string, kind: ResourceKind, id: ResourceId)
    requires UniqueKeys(t) && id in t.resources && Matches(t.resources[id], owner, name, kind)
    ensures FindResource(t, owner, name, kind) == Some(id)
  {
    var found := FindResource(t, owner, name, kind);
    assert SameKey(t.resources[found.value], t.resources[id]);
  }

  /** The status of a recipient, whichever of the two tables holds it. */
  function Status(t: Tables, p: Recipient): Option<ShareStatus> {
    if p in t.shares then Some(Accepted)
    else if p in t.invitations then Some(t.invitations[p])
    else None
  }

  function Recipients(t: Tables, id: ResourceId): set<AccountId> {
    (set p | p in t.shares && p.0 == id :: p.1) + (set p | p in t.invitations && p.0 == id :: p.1)
  }

  // -- resources and shares --------------------------------------------------------------------

  /** The invitations when the accepted recipients of a resource go back to pending: approval
      is of a destination. */
  function Returned(t: Tables, id: ResourceId): map<Recipient, InvitationStatus> {
    map p | p in t.shares + t.invitations.Keys && (p in t.invitations || p.0 == id)
      :: if p in t.invitations then t.invitations[p] else Pending
  }

  function UpdateResource(t: Tables, id: ResourceId, visibility: Visibility, url: Option<string>, folder: Option<string>): Tables
    requires id in t.resources
  {
    var moved := t.resources[id].url != url;
    t.(resources := t.resources[id := t.resources[id].(visibility := visibility, url := url, folder := folder)],
       shares := (if moved then set p | p in t.shares && p.0 != id else t.shares),
       invitations := if moved then Returned(t, id) else t.invitations)
  }

  /** `create_resource`: update the resource with this owner, name and kind, or insert one
      under the fresh id. */
  ghost function CreateResource(
    t: Tables, owner: AccountId, name: string, kind: ResourceKind, visibility: Visibility,
    url: Option<string>, folder: Option<string>, newId: ResourceId): (Tables, ResourceId)
  {
    match FindResource(t, owner, name, kind)
    case Some(id) => (UpdateResource(t, id, visibility, url, folder), id)
    case None =>
      (t.(resources := t.resources[newId := Resource(owner, name, kind, visibility, url, folder)]), newId)
  }

  function Wanted(id: ResourceId, viewers: set<AccountId>): (r: set<Recipient>)
    ensures forall p :: p in r <==> p.0 == id && p.1 in viewers
  {
    set v | v in viewers :: (id, v)
  }

  /** `set_shares`: the recipients of a resource become exactly these, each keeping the
      decision it has, and new ones pending. */
  function SetShares(t: Tables, id: ResourceId, viewers: set<AccountId>): Tables {
    t.(shares := (set p | p in t.shares && (p.0 == id ==> p.1 in viewers)),
       invitations := (map p | p in t.invitations.Keys + Wanted(id, viewers) && (p.0 == id ==> p.1 in viewers)
                               && (p in t.invitations || p !in t.shares)
                         :: if p in t.invitations then t.invitations[p] else Pending))
  }

  function AcceptShare(t: Tables, p: Recipient): Tables {
    if p in t.invitations && t.invitations[p] == Pending then
      t.(shares := t.shares + {p}, invitations := t.invitations - {p})
    else t
  }

  predicate CanAccept(t: Tables, p: Recipient) {
    p in t.invitations && t.invitations[p] == Pending
  }

  predicate CanDecline(t: Tables, p: Recipient) {
    p in t.shares || CanAccept(t, p)
  }

  function DeclineShare(t: Tables, p: Recipient): Tables {
    if CanDecline(t, p) then
      t.(shares := t.shares - {p}, invitations := t.invitations[p := Declined])
    else t
  }

  /** `delete_resource`: only the owner's own, and every row that refers to it. */
  function DeleteResource(t: Tables, owner: AccountId, id: ResourceId): Tables {
    if id in t.resources && t.resources[id].owner == owner then
      t.(resources := t.resources - {id},
         shares := (set p | p in t.shares && p.0 != id),
         invitations := (map p | p in t.invitations && p.0 != id :: t.invitations[p]),
         tickets := (map h | h in t.tickets && t.tickets[h].resource != id :: t.tickets[h]),
         sessions := (map h | h in t.sessions && t.sessions[h].resource != id :: t.sessions[h]))
    else t
  }

  // -- tickets and sessions ---------------------------------------------------------------------

  function CreateTicket(t: Tables, hash: TokenHash, ticket: Ticket, now: nat): Tables {
    var live := map h | h in t.tickets && t.tickets[h].expiresAt > now :: t.tickets[h];
    t.(tickets := live[hash := ticket])
  }

  predicate CanConsume(t: Tables, hash: TokenHash, now: nat) {
    hash in t.tickets && t.tickets[hash].expiresAt > now
  }

  function ConsumeTicket(t: Tables, hash: TokenHash, now: nat): Tables {
    if CanConsume(t, hash, now) then t.(tickets := t.tickets - {hash}) else t
  }

  function LiveSessions(t: Tables, now: nat): map<TokenHash, Session> {
    map h | h in t.sessions && t.sessions[h].expiresAt > now :: t.sessions[h]
  }

  function CreateSession(t: Tables, hash: TokenHash, session: Session, now: nat): Tables {
    t.(sessions := LiveSessions(t, now)[hash := session])
  }

  predicate RequestUsed(t: Tables, request: string, now: nat) {
    exists h :: h in t.sessions && LiveSession(t, h, now) && t.sessions[h].request == Some(request)
  }

  /** Whether a brokered session is inserted once the expired ones are gone: its credential
      must exist, and neither its hash nor its request id may be taken. */
  predicate CanBroker(t: Tables, hash: TokenHash, credential: CredentialId, request: string, now: nat) {
    credential in t.credentials && !LiveSession(t, hash, now) && !RequestUsed(t, request, now)
  }

  /** The expired sessions are gone even when nothing is inserted. */
  function CreateBrokerSession(t: Tables, hash: TokenHash, session: Session, now: nat): Tables
    requires session.issuer.Some? && session.request.Some?
  {
    var live := LiveSessions(t, now);
    t.(sessions := if CanBroker(t, hash, session.issuer.value, session.request.value, now) then live[hash := session] else live)
  }

  /** The sessions a credential has issued that are not expired at `now`. */
  function ActiveGrants(t: Tables, credential: CredentialId, now: nat): set<TokenHash> {
    set h | h in t.sessions && t.sessions[h].issuer == Some(credential) && t.sessions[h].expiresAt > now
  }

  predicate LiveSession(t: Tables, hash: TokenHash, now: nat) {
    hash in t.sessions && t.sessions[hash].expiresAt > now
  }

  function DeleteSession(t: Tables, hash: TokenHash): Tables {
    t.(sessions := t.sessions - {hash})
  }

  // -- machine credentials and daemons -------------------------------------------------------------

  function CreateCredential(t: Tables, id: CredentialId, credential: Credential): Tables {
    t.(credentials := t.credentials[id := credential])
  }

  /** An enrolment ticket: the hash of a credential that has no endpoint yet. */
  predicate IsTicketOf(t: Tables, id: CredentialId, account: AccountId, hash: TokenHash) {
    id in t.credentials && t.credentials[id].account == account
    && t.credentials[id].tokenHash == hash && t.credentials[id].endpoint.None?
  }

  /** A machine presents the hash of an enrolled credential. */
  predicate Authenticates(t: Tables, hash: TokenHash, id: CredentialId) {
    id in t.credentials && t.credentials[id].tokenHash == hash && t.credentials[id].endpoint.Some?
  }

  predicate EndpointTaken(t: Tables, endpoint: string) {
    exists id :: id in t.credentials && t.credentials[id].endpoint == Some(endpoint)
  }

  predicate CanEnroll(t: Tables, id: CredentialId, account: AccountId, hash: TokenHash, endpoint: string) {
    IsTicketOf(t, id, account, hash) && !EndpointTaken(t, endpoint)
  }

  /** `enroll_machine`: rotate the hash and bind the endpoint, guarded by the old row and by
      the unique index on endpoints. */
  function EnrollMachine(t: Tables, id: CredentialId, account: AccountId, hash: TokenHash, next: TokenHash, endpoint: string): Tables {
    if CanEnroll(t, id, account, hash, endpoint) then
      t.(credentials := t.credentials[id := t.credentials[id].(tokenHash := next, endpoint := Some(endpoint))])
    else t
  }

  /** `revoke_machine_credential`: unregister the daemon on its endpoint, then delete it and
      the sessions it issued. */
  function RevokeCredential(t: Tables, account: AccountId, id: CredentialId): Tables {
    if id in t.credentials && t.credentials[id].account == account then
      var endpoint := t.credentials[id].endpoint;
      t.(daemons := (map a | a in t.daemons && !(a == account && endpoint == Some(t.daemons[a])) :: t.daemons[a]),
         credentials := t.credentials - {id},
         sessions := (map h | h in t.sessions && t.sessions[h].issuer != Some(id) :: t.sessions[h]))
    else t
  }

  function RegisterDaemon(t: Tables, account: AccountId, endpoint: string): Tables {
    t.(daemons := t.daemons[account := endpoint])
  }
}

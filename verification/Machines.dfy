/** Machine credentials and daemon registrations: every endpoint in the tables has proved its
    key, and every registration was made by an enrolled machine of that account. */
module Machines {
  import opened Text
  import opened State
  import opened Statements
  import opened Endpoints
  import opened Requests
  import opened Access
  import opened ControlPlane
  import opened Reachable
  import Brokered
  import SingleUse

  /** The key that a text names has signed its own endpoint proof. */
  ghost predicate Proved(w: World, endpoint: string) {
    var key := ParseEndpoint(endpoint);
    key.Some? && (key.value, Statement.EndpointProof(key.value)) in w.endpointLog
  }

  lemma ProvesIsProved(lib: Libraries, w: World, endpoint: string, proof: ByteString)
    requires ProvesEndpoint(lib, endpoint, proof) && EndpointProofUnforgeable(lib, w, endpoint, proof)
    ensures Proved(w, endpoint)
  {
    var key := ParseEndpoint(endpoint).value;
    Brokered.ProofIsOnStatement(lib, w, key, EndpointProof(key), proof);
  }

  lemma ProvedStays(w: World, e: Event, u: World, endpoint: string)
    requires Moves(w, e, u) && Proved(w, endpoint)
    ensures Proved(u, endpoint)
  {
    DrawnGrow(w, e, u);
  }

  // -- credentials ------------------------------------------------------------------------------

  /** Every endpoint that a credential is bound to has proved its key. */
  ghost predicate CredentialsProved(w: World) {
    forall id :: id in w.t.credentials && w.t.credentials[id].endpoint.Some? ==> Proved(w, w.t.credentials[id].endpoint.value)
  }

  lemma StepCredentialsProved(c: Config, w: World, e: Event, u: World)
    requires CredentialsProved(w) && Steps(c, w, e, u)
    ensures CredentialsProved(u)
  {
    AnswersSound(c, w, e);
    forall id | id in u.t.credentials && u.t.credentials[id].endpoint.Some? ensures Proved(u, u.t.credentials[id].endpoint.value) {
      CredentialComesFrom(w.t, e, id);
      if e.Enrol? && e.enrol.Enrolling? && u.t.credentials[id].endpoint == Some(e.enrol.endpoint) {
        ProvesIsProved(c.lib, w, e.enrol.endpoint, e.enrol.proof);
      }
      ProvedStays(w, e, u, u.t.credentials[id].endpoint.value);
    }
  }

  lemma CredentialComesFrom(t: Tables, e: Event, id: CredentialId)
    requires id in TablesAfter(t, e).credentials && TablesAfter(t, e).credentials[id].endpoint.Some?
    ensures (id in t.credentials && t.credentials[id].endpoint == TablesAfter(t, e).credentials[id].endpoint)
            || (e.Enrol? && e.enrol.Enrolling? && TablesAfter(t, e).credentials[id].endpoint == Some(e.enrol.endpoint))
  {
    match e {
      case Share(s) => ShareFrame(t, s);
      case Tunnel(u) => TunnelFrame(t, u);
      case Enrol(m) => CredentialsFrame(t, m, id);
      case Quiet(_) =>
    }
  }

  lemma {:induction false} RunCredentialsProved(c: Config, ws: seq<World>, es: seq<Event>, i: nat)
    requires IsRun(c, ws, es) && i < |ws|
    ensures CredentialsProved(ws[i])
  {
    if i > 0 {
      RunCredentialsProved(c, ws, es, i - 1);
      assert StepsAt(c, ws, es, i - 1);
      StepCredentialsProved(c, ws[i - 1], es[i - 1], ws[i]);
    }
  }

  // -- registrations ------------------------------------------------------------------------------

  ghost predicate ReadAt(ws: seq<World>, es: seq<Event>, k: nat, m: Machine) {
    && k < |es| && k < |ws| && es[k].Quiet? && es[k].quiet.Authenticating?
    && Authenticates(ws[k].t, es[k].quiet.hash, m.credential)
    && m == (var r := ws[k].t.credentials[m.credential]; Machine(r.account, m.credential, r.endpoint.value, r.scopes))
  }

  lemma MachinesFrame(w: World, e: Event, u: World, m: Machine)
    requires Moves(w, e, u) && m in u.machines && m !in w.machines
    ensures e.Quiet? && e.quiet.Authenticating? && Authenticates(w.t, e.quiet.hash, m.credential)
    ensures m == MachineOf(m.credential, w.t.credentials[m.credential])
  {
  }

  /** What a request knows of its machine it read from a credential's row, by the token it
      presented. */
  lemma {:induction false} MachineOrigin(ws: seq<World>, es: seq<Event>, n: nat, m: Machine) returns (k: nat)
    requires IsTrace(ws, es) && n < |ws| && m in ws[n].machines
    ensures k < n && ReadAt(ws, es, k, m)
  {
    assert n > 0;
    assert MovesAt(ws, es, n - 1);
    if m in ws[n - 1].machines {
      k := MachineOrigin(ws, es, n - 1, m);
    } else {
      MachinesFrame(ws[n - 1], es[n - 1], ws[n], m);
      k := n - 1;
    }
  }

  lemma MachineDaemons(t: Tables, m: MachineEvent, account: AccountId)
    requires account in MachineAfter(t, m).daemons
    ensures var endpoint := MachineAfter(t, m).daemons[account];
            || (account in t.daemons && t.daemons[account] == endpoint)
            || (m.Registering? && m.machine.account == account && m.machine.endpoint == endpoint)
  {
  }

  lemma DaemonFrame(t: Tables, e: Event, account: AccountId)
    requires account in TablesAfter(t, e).daemons
    ensures var endpoint := TablesAfter(t, e).daemons[account];
            || (account in t.daemons && t.daemons[account] == endpoint)
            || (e.Enrol? && e.enrol.Registering? && e.enrol.machine.account == account && e.enrol.machine.endpoint == endpoint)
  {
    match e {
      case Share(s) => ShareFrame(t, s);
      case Tunnel(u) => TunnelFrame(t, u);
      case Enrol(m) => MachineDaemons(t, m, account);
      case Quiet(_) =>
    }
  }

  ghost predicate RegisteredAt(ws: seq<World>, es: seq<Event>, k: nat, account: AccountId, endpoint: string) {
    && k < |es| && k < |ws| && es[k].Enrol? && es[k].enrol.Registering?
    && es[k].enrol.machine.account == account && es[k].enrol.machine.endpoint == endpoint
  }

  lemma {:induction false} RegistrationStep(ws: seq<World>, es: seq<Event>, n: nat, account: AccountId, endpoint: string) returns (k: nat)
    requires IsTrace(ws, es) && n < |ws| && account in ws[n].t.daemons && ws[n].t.daemons[account] == endpoint
    ensures k < n && RegisteredAt(ws, es, k, account, endpoint)
  {
    assert n > 0;
    assert MovesAt(ws, es, n - 1);
    DaemonFrame(ws[n - 1].t, es[n - 1], account);
    if account in ws[n - 1].t.daemons && ws[n - 1].t.daemons[account] == endpoint {
      k := RegistrationStep(ws, es, n - 1, account, endpoint);
    } else {
      k := n - 1;
    }
  }

  /** The endpoint registered for an account was registered by a request that had read, from a
      credential of that account, that this is the endpoint bound to it; and the endpoint's key
      had signed its proof. */
  lemma RegistrationOrigin(c: Config, ws: seq<World>, es: seq<Event>, n: nat, account: AccountId)
    returns (register: nat, read: nat)
    requires IsRun(c, ws, es) && n < |ws| && account in ws[n].t.daemons
    ensures read < register < n && RegisteredAt(ws, es, register, account, ws[n].t.daemons[account])
    ensures ReadAt(ws, es, read, es[register].enrol.machine)
    ensures Proved(ws[register], ws[n].t.daemons[account])
  {
    RunIsTrace(c, ws, es);
    register := RegistrationStep(ws, es, n, account, ws[n].t.daemons[account]);
    assert StepsAt(c, ws, es, register);
    var m := es[register].enrol;
    ProvesIsProved(c.lib, ws[register], m.machine.endpoint, m.proof);
    read := MachineOrigin(ws, es, register, m.machine);
  }

  // -- registered endpoints and live credentials --------------------------------------------------

  ghost predicate Holds(t: Tables, id: CredentialId, account: AccountId, endpoint: string) {
    id in t.credentials && t.credentials[id].account == account && t.credentials[id].endpoint == Some(endpoint)
  }

  /** A live credential of the account is bound to the endpoint. */
  ghost predicate HasCredential(t: Tables, account: AccountId, endpoint: string) {
    exists id :: Holds(t, id, account, endpoint)
  }

  /** Every registered endpoint is bound to a live credential of its account. */
  ghost predicate Registered(t: Tables) {
    forall account :: account in t.daemons ==> HasCredential(t, account, t.daemons[account])
  }

  lemma RegisteringExact(t: Tables, m: Machine)
    requires Registered(t)
    ensures Registered(RegisterDaemon(t, m.account, m.endpoint)) <==> HasCredential(t, m.account, m.endpoint)
  {
    var u := RegisterDaemon(t, m.account, m.endpoint);
    assert forall id, a, x :: Holds(u, id, a, x) <==> Holds(t, id, a, x);
    assert m.account in u.daemons && u.daemons[m.account] == m.endpoint;
    if HasCredential(t, m.account, m.endpoint) {
      forall a | a in u.daemons ensures HasCredential(u, a, u.daemons[a]) {
        assert a != m.account ==> HasCredential(t, a, t.daemons[a]);
      }
    }
  }

  /** Registrations that are kept keep the credentials that hold their endpoints. */
  lemma HeldKeepsRegistered(t: Tables, u: Tables)
    requires Registered(t)
    requires forall a :: a in u.daemons ==> a in t.daemons && u.daemons[a] == t.daemons[a]
    requires forall a, id :: a in u.daemons && Holds(t, id, a, u.daemons[a]) ==> Holds(u, id, a, u.daemons[a])
    ensures Registered(u)
  {
    forall a | a in u.daemons ensures HasCredential(u, a, u.daemons[a]) {
      assert HasCredential(t, a, t.daemons[a]);
      var id :| Holds(t, id, a, t.daemons[a]);
      assert Holds(u, id, a, u.daemons[a]);
    }
  }

  lemma RevokingKeepsRegistered(t: Tables, account: AccountId, id: CredentialId)
    requires Registered(t) && SingleUse.Separate(t)
    ensures Registered(RevokeCredential(t, account, id))
  {
    var u := RevokeCredential(t, account, id);
    if id in t.credentials && t.credentials[id].account == account {
      forall a, x | a in u.daemons && Holds(t, x, a, u.daemons[a]) ensures Holds(u, x, a, u.daemons[a]) {
        assert x != id;
      }
      HeldKeepsRegistered(t, u);
    }
  }

  lemma EnrollingKeepsRegistered(t: Tables, id: CredentialId, account: AccountId, hash: TokenHash, next: TokenHash, endpoint: string)
    requires Registered(t)
    ensures Registered(EnrollMachine(t, id, account, hash, next, endpoint))
  {
    HeldKeepsRegistered(t, EnrollMachine(t, id, account, hash, next, endpoint));
  }

  lemma AddingKeepsRegistered(t: Tables, id: CredentialId, r: Credential)
    requires Registered(t) && id !in t.credentials
    ensures Registered(CreateCredential(t, id, r))
  {
    HeldKeepsRegistered(t, CreateCredential(t, id, r));
  }

  /** The condition a registration has to meet, in the tables it finds. */
  ghost predicate RegistersLive(w: World, e: Event) {
    e.Enrol? && e.enrol.Registering? ==> HasCredential(w.t, e.enrol.machine.account, e.enrol.machine.endpoint)
  }

  lemma StepRegistered(w: World, e: Event, u: World)
    requires Registered(w.t) && Known(w) && SingleUse.Separate(w.t) && Moves(w, e, u)
    ensures Registered(u.t) <==> RegistersLive(w, e)
  {
    match e {
      case Share(s) =>
        ShareFrame(w.t, s);
        SameRegistered(w.t, u.t);
      case Tunnel(v) =>
        TunnelFrame(w.t, v);
        SameRegistered(w.t, u.t);
      case Enrol(m) =>
        match m {
          case Registering(machine, _) => RegisteringExact(w.t, machine);
          case Revoking(account, id) => RevokingKeepsRegistered(w.t, account, id);
          case Enrolling(id, account, hash, next, endpoint, _) => EnrollingKeepsRegistered(w.t, id, account, hash, next, endpoint);
          case AddingCredential(account, id, hash, scopes) =>
            AddingKeepsRegistered(w.t, id, Credential(account, hash, None, scopes));
        }
      case Quiet(_) =>
    }
  }

  lemma SameRegistered(t: Tables, u: Tables)
    requires Registered(t) && u.credentials == t.credentials && u.daemons == t.daemons
    ensures Registered(u)
  {
    assert forall id, a, x :: Holds(u, id, a, x) <==> Holds(t, id, a, x);
  }

  /** Over whole runs: every registered endpoint is bound to a live credential of its account, in
      every state up to `n`, exactly when every registration before it found one. */
  lemma {:induction false} RegisteredExactly(c: Config, ws: seq<World>, es: seq<Event>, n: nat)
    requires IsRun(c, ws, es) && n < |ws|
    ensures (forall j :: 0 <= j <= n ==> Registered(ws[j].t)) <==> (forall i :: 0 <= i < n ==> RegistersLive(ws[i], es[i]))
  {
    if n > 0 {
      RegisteredExactly(c, ws, es, n - 1);
      if Registered(ws[n - 1].t) { RunStepRegistered(c, ws, es, n - 1); }
    }
  }

  lemma RunStepRegistered(c: Config, ws: seq<World>, es: seq<Event>, i: nat)
    requires IsRun(c, ws, es) && i < |es| && Registered(ws[i].t)
    ensures Registered(ws[i + 1].t) <==> RegistersLive(ws[i], es[i])
  {
    RunIsTrace(c, ws, es);
    TraceInv(ws, es, i);
    SingleUse.TraceSeparate(ws, es, i);
    assert MovesAt(ws, es, i);
    StepRegistered(ws[i], es[i], ws[i + 1]);
  }

  // -- revocation ------------------------------------------------------------------------------------

  ghost predicate RevokesNow(t: Tables, e: Event, id: CredentialId) {
    e.Enrol? && e.enrol.Revoking? && e.enrol.credential == id && id in t.credentials && t.credentials[id].account == e.enrol.account
  }

  lemma GoneIsRevoked(t: Tables, e: Event, id: CredentialId)
    requires id in t.credentials && id !in TablesAfter(t, e).credentials
    ensures RevokesNow(t, e, id)
  {
    match e {
      case Share(s) => ShareFrame(t, s);
      case Tunnel(v) => TunnelFrame(t, v);
      case Enrol(m) => OnlyRevokingRemoves(t, m, id);
      case Quiet(_) =>
    }
  }

  lemma OnlyRevokingRemoves(t: Tables, m: MachineEvent, id: CredentialId)
    requires id in t.credentials && id !in MachineAfter(t, m).credentials
    ensures m.Revoking? && m.credential == id && t.credentials[id].account == m.account
  {
  }

  lemma AccountStays(w: World, e: Event, u: World, id: CredentialId)
    requires Known(w) && Moves(w, e, u) && id in w.t.credentials && id in u.t.credentials
    ensures u.t.credentials[id].account == w.t.credentials[id].account
  {
    match e {
      case Share(s) => ShareFrame(w.t, s);
      case Tunnel(v) => TunnelFrame(w.t, v);
      case Enrol(m) => CredentialsFrame(w.t, m, id);
      case Quiet(_) =>
    }
  }

  lemma {:induction false} DrawnStays(ws: seq<World>, es: seq<Event>, i: nat, j: nat, id: CredentialId)
    requires IsTrace(ws, es) && i <= j < |ws| && id in ws[i].credentialIds
    ensures id in ws[j].credentialIds
  {
    if i < j {
      DrawnStays(ws, es, i, j - 1, id);
      assert MovesAt(ws, es, j - 1);
      DrawnGrow(ws[j - 1], es[j - 1], ws[j]);
    }
  }

  /** A credential that was there is there still with its account, or a step in between has
      revoked it. */
  lemma {:induction false} StaysOrRevoked(ws: seq<World>, es: seq<Event>, i: nat, j: nat, id: CredentialId) returns (k: nat)
    requires IsTrace(ws, es) && i <= j < |ws| && id in ws[i].t.credentials
    ensures id in ws[j].t.credentials ==> ws[j].t.credentials[id].account == ws[i].t.credentials[id].account
    ensures id !in ws[j].t.credentials ==> i <= k < j && RevokesNow(ws[k].t, es[k], id)
  {
    k := i;
    if i < j {
      k := StaysOrRevoked(ws, es, i, j - 1, id);
      assert MovesAt(ws, es, j - 1);
      TraceInv(ws, es, j - 1);
      if id in ws[j - 1].t.credentials {
        if id in ws[j].t.credentials {
          AccountStays(ws[j - 1], es[j - 1], ws[j], id);
        } else {
          GoneIsRevoked(ws[j - 1].t, es[j - 1], id);
          k := j - 1;
        }
      } else {
        TraceInv(ws, es, i);
        DrawnStays(ws, es, i, j - 1, id);
        RevokedStays(ws, es, j - 1, j, id);
      }
    }
  }

  /** A credential id that was drawn and is not in the table never comes back. */
  lemma {:induction false} RevokedStays(ws: seq<World>, es: seq<Event>, i: nat, j: nat, id: CredentialId)
    requires IsTrace(ws, es) && i <= j < |ws| && id in ws[i].credentialIds && id !in ws[i].t.credentials
    ensures id in ws[j].credentialIds && id !in ws[j].t.credentials
  {
    if i < j {
      RevokedStays(ws, es, i, j - 1, id);
      assert MovesAt(ws, es, j - 1);
      DrawnGrow(ws[j - 1], es[j - 1], ws[j]);
      match es[j - 1] {
        case Share(s) => ShareFrame(ws[j - 1].t, s);
        case Tunnel(v) => TunnelFrame(ws[j - 1].t, v);
        case Enrol(m) => if id in ws[j].t.credentials { CredentialsFrame(ws[j - 1].t, m, id); }
        case Quiet(_) =>
      }
    }
  }

  /** A request whose credential has not been revoked registers for a live credential. */
  lemma UnrevokedRegistersLive(c: Config, ws: seq<World>, es: seq<Event>, i: nat)
    requires IsRun(c, ws, es) && i < |es| && es[i].Enrol? && es[i].enrol.Registering?
    requires es[i].enrol.machine.credential in ws[i].t.credentials
    ensures RegistersLive(ws[i], es[i])
  {
    RunIsTrace(c, ws, es);
    assert MovesAt(ws, es, i);
    var m := es[i].enrol.machine;
    var read := MachineOrigin(ws, es, i, m);
    var k := StaysOrRevoked(ws, es, read, i, m.credential);
    SingleUse.EndpointFixed(c, ws, es, read, i, m.credential);
    assert Holds(ws[i].t, m.credential, m.account, m.endpoint);
  }

  /** In a run where every registration's credential is still there, every registered endpoint is
      bound to a live credential of its account, in every state. */
  lemma UnrevokedRegistered(c: Config, ws: seq<World>, es: seq<Event>, n: nat)
    requires IsRun(c, ws, es) && n < |ws|
    requires forall i :: 0 <= i < n && es[i].Enrol? && es[i].enrol.Registering? ==> es[i].enrol.machine.credential in ws[i].t.credentials
    ensures Registered(ws[n].t)
  {
    forall i | 0 <= i < n ensures RegistersLive(ws[i], es[i]) {
      if es[i].Enrol? && es[i].enrol.Registering? { UnrevokedRegistersLive(c, ws, es, i); }
    }
    RegisteredExactly(c, ws, es, n);
  }

  /** A registration finds no live credential only when the credential that its request had read
      was revoked between the reading and the registration. */
  lemma StaleRegistration(c: Config, ws: seq<World>, es: seq<Event>, i: nat) returns (read: nat, revoke: nat)
    requires IsRun(c, ws, es) && i < |es| && !RegistersLive(ws[i], es[i])
    ensures read < i && ReadAt(ws, es, read, es[i].enrol.machine)
    ensures read <= revoke < i && RevokesNow(ws[revoke].t, es[revoke], es[i].enrol.machine.credential)
  {
    RunIsTrace(c, ws, es);
    assert MovesAt(ws, es, i);
    var m := es[i].enrol.machine;
    read := MachineOrigin(ws, es, i, m);
    revoke := StaysOrRevoked(ws, es, read, i, m.credential);
    if m.credential in ws[i].t.credentials { UnrevokedRegistersLive(c, ws, es, i); }
  }

  /** A revocation, for good: from then on no state has the credential or a session it issued,
      and no token authenticates as it. */
  lemma RevocationIsFinal(c: Config, ws: seq<World>, es: seq<Event>, i: nat, j: nat, id: CredentialId, h: TokenHash)
    requires IsRun(c, ws, es) && i < |es| && RevokesNow(ws[i].t, es[i], id) && i < j < |ws|
    ensures id !in ws[j].t.credentials && !Authenticates(ws[j].t, h, id)
    ensures h in ws[j].t.sessions ==> ws[j].t.sessions[h].issuer != Some(id)
  {
    RunIsTrace(c, ws, es);
    TraceInv(ws, es, i);
    assert MovesAt(ws, es, i);
    RevocationIsComplete(ws[i].t, es[i].enrol.account, id);
    RevokedStays(ws, es, i + 1, j, id);
    Brokered.TraceOwned(ws, es, j);
  }

  /** Revoking a credential leaves neither its row, nor a registration of its endpoint for its
      account, nor a session it issued. */
  lemma RevocationIsComplete(t: Tables, account: AccountId, id: CredentialId)
    requires id in t.credentials && t.credentials[id].account == account
    ensures var u := RevokeCredential(t, account, id);
            && id !in u.credentials
            && (account in u.daemons ==> t.credentials[id].endpoint != Some(u.daemons[account]))
            && (forall h :: h in u.sessions ==> u.sessions[h].issuer != Some(id))
            && (forall a :: a in t.daemons && a != account ==> a in u.daemons && u.daemons[a] == t.daemons[a])
  {
  }

  // -- each request, row by row -----------------------------------------------------------------------

  /** A credential is issued exactly to an account with fewer than ten, for no scope or the one
      there is. */
  lemma CredentialExact(t: Tables, account: AccountId, id: CredentialId, hash: TokenHash, scopes: set<string>)
    ensures var r := NewCredential(t, account, id, hash, scopes);
            && (r.Ok? <==> scopes <= {"service_grants:issue"} && |(set k | k in t.credentials && t.credentials[k].account == account)| < 10)
            && (r.Err? ==> r == Err(BadRequest))
            && (r.Ok? ==> r.value == t.(credentials := t.credentials[id := Credential(account, hash, None, scopes)]))
  {
    assert CredentialsOf(t, account) == set k | k in t.credentials && t.credentials[k].account == account;
    assert scopes - {GRANT_SCOPE} == {} <==> scopes <= {"service_grants:issue"} by {
      forall x | x in scopes && x != GRANT_SCOPE ensures x in scopes - {GRANT_SCOPE} {}
    }
  }

  ghost predicate Bindable(t: Tables, id: CredentialId, account: AccountId, hash: TokenHash, endpoint: string) {
    && id in t.credentials && t.credentials[id].account == account && t.credentials[id].tokenHash == hash
    && t.credentials[id].endpoint.None?
    && forall other :: other in t.credentials ==> t.credentials[other].endpoint != Some(endpoint)
  }

  /** A bound credential authenticates by its own token, and by no other. */
  lemma AuthenticationExact(t: Tables, id: CredentialId, hash: TokenHash)
    requires id in t.credentials && t.credentials[id].endpoint.Some?
    ensures Authenticates(t, hash, id) <==> hash == t.credentials[id].tokenHash
  {
  }

  /** An enrolment binds its endpoint and rotates its token exactly when the row is the unbound one
      that was looked up and nobody has the endpoint; the new token then authenticates, and no other row changes. */
  lemma EnrolmentExact(t: Tables, id: CredentialId, account: AccountId, hash: TokenHash, next: TokenHash, endpoint: string, k: CredentialId)
    ensures var u := EnrollMachine(t, id, account, hash, next, endpoint);
            && u == t.(credentials := u.credentials) && (k in u.credentials <==> k in t.credentials)
            && (k in t.credentials ==>
                  u.credentials[k] == (if k == id && Bindable(t, id, account, hash, endpoint)
                                       then Credential(account, next, Some(endpoint), t.credentials[id].scopes)
                                       else t.credentials[k]))
    ensures CanEnroll(t, id, account, hash, endpoint) <==> Bindable(t, id, account, hash, endpoint)
    ensures Bindable(t, id, account, hash, endpoint) ==> Authenticates(EnrollMachine(t, id, account, hash, next, endpoint), next, id)
  {
  }

  /** A revocation takes the account's own credential, the sessions it issued, and the registration
      of its endpoint for the account; every other row stays. */
  lemma RevocationExact(t: Tables, account: AccountId, id: CredentialId, k: CredentialId, a: AccountId, h: TokenHash)
    ensures var u, own := RevokeCredential(t, account, id), id in t.credentials && t.credentials[id].account == account;
            && u == t.(credentials := u.credentials, daemons := u.daemons, sessions := u.sessions)
            && (k in u.credentials <==> k in t.credentials && !(own && k == id))
            && (k in u.credentials ==> u.credentials[k] == t.credentials[k])
            && (a in u.daemons <==> a in t.daemons && !(own && a == account && t.credentials[id].endpoint == Some(t.daemons[a])))
            && (a in u.daemons ==> u.daemons[a] == t.daemons[a])
            && (h in u.sessions <==> h in t.sessions && !(own && t.sessions[h].issuer == Some(id)))
            && (h in u.sessions ==> u.sessions[h] == t.sessions[h])
  {
  }
}

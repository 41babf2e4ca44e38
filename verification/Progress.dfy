/** Access is given as well as guarded: from every state of every run, a viewer who has been
    invited to a service comes to an open stream by accepting, with the steps it takes one by one. */
module Progress {
  import opened Text
  import opened State
  import opened Sharing
  import opened Statements
  import opened Capability
  import opened Endpoints
  import opened Access
  import opened Revocation
  import C = ControlPlane
  import E = EndToEnd
  import R = Replay
  import S = Streams
  import Entitlement

  /** A run that has come to `s`. */
  ghost predicate Comes(site: Site, ss: seq<System>, es: seq<SystemEvent>, s: System) {
    IsRun(site, ss, es) && ss[|es|] == s
  }

  lemma Extend(site: Site, ss: seq<System>, es: seq<SystemEvent>, s: System, e: SystemEvent, u: System)
    returns (us: seq<System>, fs: seq<SystemEvent>)
    requires Comes(site, ss, es, s) && Steps(site, s, e, u)
    ensures Comes(site, us, fs, u) && us == ss + [u] && fs == es + [e]
  {
    us, fs := ss + [u], es + [e];
    forall i | 0 <= i < |fs| ensures StepsAt(site, us, fs, i) {
      if i < |es| { assert StepsAt(site, ss, es, i); }
    }
  }

  /** `s` after a step of the control plane. */
  ghost function With(s: System, w: C.World): System {
    s.(j := s.j.(w := w))
  }

  lemma ControlStep(site: Site, ss: seq<System>, es: seq<SystemEvent>, s: System, x: C.Event)
    returns (us: seq<System>, fs: seq<SystemEvent>)
    requires Comes(site, ss, es, s) && C.Draws(s.j.w, x) && C.Answers(site.c, s.j.w, x)
    requires !(x.Quiet? && x.quiet.Advancing?)
    ensures Comes(site, us, fs, With(s, C.Apply(s.j.w, x))) && us == ss + [With(s, C.Apply(s.j.w, x))] && fs == es + [Joint(E.Control(x))]
  {
    us, fs := Extend(site, ss, es, s, Joint(E.Control(x)), With(s, C.Apply(s.j.w, x)));
  }

  lemma StateInv(site: Site, ss: seq<System>, es: seq<SystemEvent>, s: System)
    requires Comes(site, ss, es, s)
    ensures Inv(s.j.w.t)
  {
    TablesInv(site, ss, es, |es|);
  }

  // -- from an invitation to a grant ---------------------------------------------------------------

  /** An accepted viewer of a service whose owner's daemon is registered under the site's key. */
  ghost predicate MayConnect(site: Site, t: Tables, viewer: AccountId, id: ResourceId) {
    && id in AccessibleServices(t, viewer) && t.resources[id].owner in t.daemons
    && ParseEndpoint(t.daemons[t.resources[id].owner]) == Some(site.endpoint)
  }

  /** A viewer with a pending invitation to such a service. */
  ghost predicate Invited(site: Site, t: Tables, viewer: AccountId, id: ResourceId) {
    && Status(t, (id, viewer)) == Some(Pending)
    && id in t.resources && t.resources[id].kind == Service && t.resources[id].owner in t.daemons
    && ParseEndpoint(t.daemons[t.resources[id].owner]) == Some(site.endpoint)
  }

  lemma Accepted(t: Tables, viewer: AccountId, id: ResourceId)
    requires Inv(t) && Status(t, (id, viewer)) == Some(Pending) && t.resources[id].kind == Service
    ensures var u := AcceptShare(t, (id, viewer));
            id in AccessibleServices(u, viewer) && u == t.(shares := u.shares, invitations := u.invitations)
  {
  }

  lemma Accept(site: Site, ss: seq<System>, es: seq<SystemEvent>, s: System, viewer: AccountId, id: ResourceId)
    returns (us: seq<System>, fs: seq<SystemEvent>, t: Tables)
    requires Comes(site, ss, es, s) && Invited(site, s.j.w.t, viewer, id)
    ensures Comes(site, us, fs, With(s, s.j.w.(t := t))) && MayConnect(site, t, viewer, id) && es <= fs && ss <= us
  {
    StateInv(site, ss, es, s);
    t := AcceptShare(s.j.w.t, (id, viewer));
    Accepted(s.j.w.t, viewer, id);
    us, fs := ControlStep(site, ss, es, s, C.Share(C.Accepting(viewer, id)));
  }

  lemma TicketTaken(t: Tables, viewer: AccountId, id: ResourceId, h: TokenHash, now: nat)
    requires Inv(t) && id in AccessibleServices(t, viewer)
    ensures IssueTicket(t, viewer, id, h, now).Ok?
    ensures var u := IssueTicket(t, viewer, id, h, now).value;
            && u == t.(tickets := u.tickets) && h in u.tickets && u.tickets[h] == Ticket(viewer, id, now + 120)
  {
    Entitlement.TicketExact(t, viewer, id, h, now, h);
  }

  lemma TakeTicket(site: Site, ss: seq<System>, es: seq<SystemEvent>, s: System, viewer: AccountId, id: ResourceId, h: TokenHash)
    returns (us: seq<System>, fs: seq<SystemEvent>, t: Tables)
    requires Comes(site, ss, es, s) && MayConnect(site, s.j.w.t, viewer, id) && h !in s.j.w.hashes
    ensures Comes(site, us, fs, With(s, s.j.w.(t := t, hashes := s.j.w.hashes + {h}))) && es <= fs && ss <= us
    ensures MayConnect(site, t, viewer, id) && h in t.tickets && t.tickets[h] == Ticket(viewer, id, s.j.w.now + 120)
  {
    StateInv(site, ss, es, s);
    var w := s.j.w;
    TicketTaken(w.t, viewer, id, h, w.now);
    t := IssueTicket(w.t, viewer, id, h, w.now).value;
    us, fs := ControlStep(site, ss, es, s, C.Tunnel(C.TakingTicket(viewer, id, h, w.now)));
  }

  /** The session that a ticket is redeemed for. */
  function SessionOf(viewer: AccountId, id: ResourceId, client: KeyBytes, now: nat): Session {
    Session(viewer, id, HexLower(client), now + 28800, None, None)
  }

  lemma Redeemed(t: Tables, viewer: AccountId, id: ResourceId, h: TokenHash, client: KeyBytes, k: TokenHash, now: nat)
    requires Inv(t) && id in AccessibleServices(t, viewer) && h in t.tickets && t.tickets[h] == Ticket(viewer, id, now + 120)
    ensures var u := Redeem(t, h, client, k, now).1;
            u == t.(tickets := u.tickets, sessions := u.sessions) && k in u.sessions && u.sessions[k] == SessionOf(viewer, id, client, now)
  {
    Entitlement.RedeemExact(t, h, client, k, now);
  }

  lemma RedeemTicket(site: Site, ss: seq<System>, es: seq<SystemEvent>, s: System, viewer: AccountId, id: ResourceId,
                     h: TokenHash, client: KeyBytes, k: TokenHash)
    returns (us: seq<System>, fs: seq<SystemEvent>, t: Tables)
    requires Comes(site, ss, es, s) && MayConnect(site, s.j.w.t, viewer, id) && k !in s.j.w.hashes
    requires h in s.j.w.t.tickets && s.j.w.t.tickets[h] == Ticket(viewer, id, s.j.w.now + 120)
    ensures Comes(site, us, fs, With(s, s.j.w.(t := t, hashes := s.j.w.hashes + {k}))) && es <= fs && ss <= us
    ensures MayConnect(site, t, viewer, id) && k in t.sessions && t.sessions[k] == SessionOf(viewer, id, client, s.j.w.now)
  {
    StateInv(site, ss, es, s);
    var w := s.j.w;
    Redeemed(w.t, viewer, id, h, client, k, w.now);
    t := Redeem(w.t, h, client, k, w.now).1;
    us, fs := ControlStep(site, ss, es, s, C.Tunnel(C.Redeeming(h, client, k, w.now)));
  }

  /** The grant of this viewer, service, client and daemon. */
  function ClaimsFor(site: Site, viewer: AccountId, id: ResourceId, client: KeyBytes, now: nat, nonce: Nonce): Claims {
    Claims(site.c.issuer, viewer, id, site.endpoint, client, TcpConnect, now, now + 180, nonce)
  }

  lemma ClearedAndMinted(site: Site, t: Tables, viewer: AccountId, id: ResourceId, client: KeyBytes, k: TokenHash, nonce: Nonce, now: nat)
    requires Inv(t) && MayConnect(site, t, viewer, id) && k in t.sessions && t.sessions[k] == SessionOf(viewer, id, client, now)
    ensures Clear(t, k, now).Ok?
    ensures Mint(site.c.issuer, Clear(t, k, now).value, nonce) == Ok(ClaimsFor(site, viewer, id, client, now, nonce))
  {
    ParseHexLower(client);
    Entitlement.CapabilityExact(t, k, site.c.issuer, nonce, now, ClaimsFor(site, viewer, id, client, now, nonce));
  }

  lemma GetGrant(site: Site, ss: seq<System>, es: seq<SystemEvent>, s: System, viewer: AccountId, id: ResourceId,
                 client: KeyBytes, k: TokenHash, nonce: Nonce)
    returns (us: seq<System>, fs: seq<SystemEvent>, w: C.World)
    requires Comes(site, ss, es, s) && MayConnect(site, s.j.w.t, viewer, id) && nonce !in s.j.w.nonces
    requires k in s.j.w.t.sessions && s.j.w.t.sessions[k] == SessionOf(viewer, id, client, s.j.w.now)
    ensures Comes(site, us, fs, With(s, w)) && es <= fs && ss <= us && w.now == s.j.w.now
    ensures Grant(ClaimsFor(site, viewer, id, client, w.now, nonce)) in w.serverLog
  {
    StateInv(site, ss, es, s);
    var now := s.j.w.now;
    ClearedAndMinted(site, s.j.w.t, viewer, id, client, k, nonce, now);
    var cleared := Clear(s.j.w.t, k, now);
    us, fs := ControlStep(site, ss, es, s, C.Quiet(C.Clearing(k, now, cleared)));
    w := s.j.w.(clearances := s.j.w.clearances + {cleared.value});
    var mint := C.Quiet(C.Minting(cleared.value, nonce, Ok(ClaimsFor(site, viewer, id, client, now, nonce))));
    us, fs := ControlStep(site, us, fs, With(s, w), mint);
    w := C.Apply(w, mint);
  }

  /** From any state of a run, an invited viewer who accepts is given a grant. */
  lemma InvitedViewerIsGranted(site: Site, ss: seq<System>, es: seq<SystemEvent>, s: System, viewer: AccountId, id: ResourceId,
                               client: KeyBytes, h: TokenHash, k: TokenHash, nonce: Nonce)
    returns (us: seq<System>, fs: seq<SystemEvent>, w: C.World)
    requires Comes(site, ss, es, s) && Invited(site, s.j.w.t, viewer, id)
    requires h !in s.j.w.hashes && k !in s.j.w.hashes && h != k && nonce !in s.j.w.nonces
    ensures Comes(site, us, fs, With(s, w)) && es <= fs && ss <= us && w.now == s.j.w.now
    ensures Grant(ClaimsFor(site, viewer, id, client, w.now, nonce)) in w.serverLog
  {
    var t;
    us, fs, t := Accept(site, ss, es, s, viewer, id);
    var s1 := us[|fs|];
    us, fs, t := TakeTicket(site, us, fs, s1, viewer, id, h);
    var s2 := us[|fs|];
    us, fs, t := RedeemTicket(site, us, fs, s2, viewer, id, h, client, k);
    var s3 := us[|fs|];
    us, fs, w := GetGrant(site, us, fs, s3, viewer, id, client, k, nonce);
    assert us[|fs|] == With(s, w);
  }

  // -- from a grant to a stream -----------------------------------------------------------------------

  /** A nonce that no grant has yet is not one that the daemon remembers. */
  lemma FreshUnseen(site: Site, ss: seq<System>, es: seq<SystemEvent>, s: System, nonce: Nonce)
    requires Comes(site, ss, es, s) && nonce !in s.j.w.nonces
    ensures nonce !in s.j.seen
  {
    JointPart(site, ss, es);
    var js, xs := Joints(ss), JointEvents(es);
    E.GuardIsReplay(site.c, site.endpoint, js, xs, |es|);
    E.CallsFromGrants(site.c, site.endpoint, js, xs, |es|);
    E.ControlPart(site.c, site.endpoint, js, xs);
    E.RunNonces(site.c, E.Worlds(js), E.Events(xs), |es|);
    var calls := E.Calls(site.c, site.endpoint, xs, |es|);
    assert calls[..|calls|] == calls;
    if nonce in s.j.seen { FromSomeCall(site, s, calls, nonce); }
  }

  lemma FromSomeCall(site: Site, s: System, calls: seq<R.Call>, nonce: Nonce)
    requires nonce in R.SeenAfter(calls) && E.NoncesUnique(s.j.w)
    requires forall i :: 0 <= i < |calls| ==> E.FromGrant(s.j.w, calls[i])
    ensures nonce in s.j.w.nonces
  {
    assert calls[..|calls|] == calls;
    var i := R.SeenOutlives(calls, |calls|, nonce);
    assert E.FromGrant(s.j.w, calls[i]);
  }

  lemma Arrive(site: Site, ss: seq<System>, es: seq<SystemEvent>, s: System, h: S.Handler, g: Signed, peer: KeyBytes)
    returns (us: seq<System>, fs: seq<SystemEvent>)
    requires Comes(site, ss, es, s) && s.d.running && h !in s.d.handlers && h !in s.j.requests && g.payload in s.j.w.serverLog
    ensures Comes(site, us, fs, s.(j := s.j.(requests := s.j.requests[h := E.Incoming(g, peer, Some(s.j.w.now))]))) && es <= fs && ss <= us
  {
    var arrived := s.(j := s.j.(requests := s.j.requests[h := E.Incoming(g, peer, None)]));
    us, fs := Extend(site, ss, es, s, Joint(E.Arrive(h, g, peer)), arrived);
    us, fs := ReadClock(site, us, fs, arrived, h, g, peer);
    assert arrived.j.requests[h := E.Incoming(g, peer, Some(s.j.w.now))] == s.j.requests[h := E.Incoming(g, peer, Some(s.j.w.now))];
  }

  lemma ReadClock(site: Site, ss: seq<System>, es: seq<SystemEvent>, s: System, h: S.Handler, g: Signed, peer: KeyBytes)
    returns (us: seq<System>, fs: seq<SystemEvent>)
    requires Comes(site, ss, es, s) && h in s.j.requests && s.j.requests[h] == E.Incoming(g, peer, None)
    ensures Comes(site, us, fs, s.(j := s.j.(requests := s.j.requests[h := E.Incoming(g, peer, Some(s.j.w.now))]))) && es <= fs && ss <= us
  {
    var read := s.(j := s.j.(requests := s.j.requests[h := E.Incoming(g, peer, Some(s.j.w.now))]));
    us, fs := Extend(site, ss, es, s, Joint(E.ReadClock(h)), read);
  }

  /** `s` after an accepted request has become a handler with a stream to open. */
  ghost function Admitted(site: Site, s: System, h: S.Handler, claims: Claims): System {
    var stream := S.Stream(claims.viewer, claims.resource);
    s.(j := E.Joint(s.j.w, R.AfterAdmit(s.j.seen, claims.nonce, claims.expiresAt, s.j.w.now), s.j.requests - {h}),
       d := s.d.(handlers := s.d.handlers[h := S.Allowed(stream)]), readAt := s.readAt[h := s.j.w.now])
  }

  lemma Present(site: Site, ss: seq<System>, es: seq<SystemEvent>, s: System, h: S.Handler, g: Signed, peer: KeyBytes,
                targets: map<ResourceId, R.Target>)
    returns (us: seq<System>, fs: seq<SystemEvent>)
    requires Comes(site, ss, es, s) && s.d.running && h !in s.d.handlers
    requires h in s.j.requests && s.j.requests[h] == E.Incoming(g, peer, Some(s.j.w.now))
    requires g.payload.Grant? && |g.signature| == 64 && site.c.lib.serverKey(g.payload, g.signature)
    requires g.payload.claims == ClaimsFor(site, g.payload.claims.viewer, g.payload.claims.resource, peer, s.j.w.now, g.payload.claims.nonce)
    requires g.payload.claims.resource in targets && g.payload.claims.nonce !in s.j.seen && s.j.w.now <= MAX_U64
    ensures Comes(site, us, fs, Admitted(site, s, h, g.payload.claims)) && es <= fs && ss <= us
  {
    var x := E.Present(h, g, peer, targets, s.j.w.now);
    assert VerifyFor(site.c.lib.serverKey, g, site.endpoint, peer, s.j.w.now) == Ok(g.payload.claims);
    assert E.Decision(site.c, site.endpoint, s.j, x) == Ok(R.Authorized(g.payload.claims, targets[g.payload.claims.resource]));
    us, fs := Extend(site, ss, es, s, Joint(x), Admitted(site, s, h, g.payload.claims));
  }

  lemma Open(site: Site, ss: seq<System>, es: seq<SystemEvent>, s: System, h: S.Handler, stream: S.Stream)
    returns (us: seq<System>, fs: seq<SystemEvent>)
    requires Comes(site, ss, es, s) && s.d.running && h in s.d.handlers && s.d.handlers[h] == S.Allowed(stream)
    ensures IsRun(site, us, fs) && es <= fs && ss <= us
    ensures s.d.nextStreamId in us[|fs|].d.active && us[|fs|].d.active[s.d.nextStreamId] == stream
  {
    var taken := s.(d := S.Apply(s.d, S.Take(h)));
    us, fs := Extend(site, ss, es, s, Task(S.Take(h)), taken);
    var inserted := taken.(d := S.Apply(taken.d, S.InsertStream(h)));
    us, fs := Extend(site, us, fs, taken, Task(S.InsertStream(h)), inserted);
  }

  /** What it takes of the rest of the world: random ids that nobody has drawn, a handler's name
      that is free, a running daemon with a hosted target, and a clock of 64 bits. */
  ghost predicate Ready(site: Site, s: System, id: ResourceId, hashes: (TokenHash, TokenHash), nonce: Nonce, h: S.Handler,
                        targets: map<ResourceId, R.Target>)
  {
    && hashes.0 !in s.j.w.hashes && hashes.1 !in s.j.w.hashes && hashes.0 != hashes.1 && nonce !in s.j.w.nonces
    && h !in s.d.handlers && h !in s.j.requests && s.d.running && id in targets
    && s.j.w.now <= MAX_U64
  }

  /** From every state of every run, a viewer with a pending invitation to a service, whose owner's
      daemon is registered and running, comes to an open stream: the viewer accepts, takes and
      redeems a ticket, asks for a grant and presents it. By `Streams.OpenUntilEnded` the stream
      then stays open until its handler, a hosted list or a tick ends it. */
  lemma InvitedViewerIsServed(site: Site, ss: seq<System>, es: seq<SystemEvent>, s: System, viewer: AccountId, id: ResourceId,
                              client: KeyBytes, hashes: (TokenHash, TokenHash), nonce: Nonce, h: S.Handler,
                              targets: map<ResourceId, R.Target>, signature: ByteString)
    returns (us: seq<System>, fs: seq<SystemEvent>)
    requires Comes(site, ss, es, s) && Invited(site, s.j.w.t, viewer, id)
    requires Ready(site, s, id, hashes, nonce, h, targets) && |signature| == 64
    requires site.c.lib.serverKey(Grant(ClaimsFor(site, viewer, id, client, s.j.w.now, nonce)), signature)
    ensures IsRun(site, us, fs) && es <= fs && ss <= us
    ensures s.d.nextStreamId in us[|fs|].d.active && us[|fs|].d.active[s.d.nextStreamId] == S.Stream(viewer, id)
  {
    FreshUnseen(site, ss, es, s, nonce);
    var w;
    us, fs, w := InvitedViewerIsGranted(site, ss, es, s, viewer, id, client, hashes.0, hashes.1, nonce);
    var claims := ClaimsFor(site, viewer, id, client, w.now, nonce);
    var g := Signed(Grant(claims), signature);
    us, fs := Arrive(site, us, fs, With(s, w), h, g, client);
    us, fs := Present(site, us, fs, us[|fs|], h, g, client, targets);
    us, fs := Open(site, us, fs, us[|fs|], h, S.Stream(viewer, id));
  }
}

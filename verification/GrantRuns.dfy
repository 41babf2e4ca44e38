/** A run in which a daemon accepts one grant twice, built step by step: an owner enrols its
    daemon, hosts a service, opens a session on it and is given a grant; the grant is presented
    in its last second but one and again in its last. */
module GrantRuns {
  import opened Text
  import opened State
  import opened Statements
  import opened Capability
  import opened Requests
  import opened Endpoints
  import opened Access
  import opened ControlPlane
  import opened Runs
  import E = EndToEnd
  import R = Replay

  const SERVICE: ResourceId := ResourceId(1)

  const HOSTED: ResourceRequest := ResourceRequest("s", "service", "private", None, [], None)

  const CHECKED: Prepared := Prepared("s", Service, Private, None, None, [])

  // -- the control plane's part -----------------------------------------------------------------------

  /** `w` with the owner's daemon registered. */
  ghost function Registered(w: World, o: Owner): World {
    w.(t := w.t.(daemons := map[o.account := HexLower(o.key)]), machines := {Machine(o.account, 1, HexLower(o.key), {})})
  }

  lemma RegisterFirst(c: Config, ws: seq<World>, es: seq<Event>, w: World, o: Owner) returns (xs: seq<World>, fs: seq<Event>)
    requires ArrivesAt(c, ws, es, w) && BoundOnce(w, o) && CanProve(c, o)
    ensures ArrivesAt(c, xs, fs, Registered(w, o))
  {
    ParseHexLower(o.key);
    var m;
    xs, fs, m := ReadCredential(c, ws, es, w, o);
    xs, fs := Register(c, xs, fs, w.(machines := w.machines + {m}), o, m);
    assert w.machines + {m} == {m};
    assert RegisterDaemon(w.t, o.account, HexLower(o.key)) == Registered(w, o).t;
    assert xs[|fs|] == Registered(w, o);
  }

  /** `w` with the service. */
  ghost function Hosting(w: World, o: Owner): World {
    w.(t := w.t.(resources := map[SERVICE := Resource(o.account, "s", Service, Private, None, None)]), resourceIds := {SERVICE})
  }

  lemma ServiceChecks(c: Config, t: Tables, owner: AccountId)
    requires t.resources == map[]
    ensures Prepare(c.lib, t, owner, HOSTED) == Ok(CHECKED)
  {
    assert OwnedResources(t, owner) == {};
    TrimTrimmed("s");
    assert NoControl("s");
    assert "service"[0] != "link"[0];
    assert "private"[1] != "public"[1];
  }

  lemma ServiceIsPut(w: World, o: Owner)
    requires w.t.resources == map[] && w.t.shares == {} && w.t.invitations == map[]
    ensures PutPrepared(w.t, o.account, CHECKED, SERVICE) == (Hosting(w, o).t, SERVICE)
  {
    var r := Resource(o.account, "s", Service, Private, None, None);
    var (u, id) := CreateResource(w.t, o.account, "s", Service, Private, None, None, SERVICE);
    assert u == w.t.(resources := map[SERVICE := r]) && id == SERVICE;
    assert AccountSet([]) == {};
    assert SetShares(u, SERVICE, {}) == u;
  }

  lemma HostService(c: Config, ws: seq<World>, es: seq<Event>, w: World, o: Owner) returns (xs: seq<World>, fs: seq<Event>)
    requires ArrivesAt(c, ws, es, w) && o.account in w.t.accounts && w.resourceIds == {}
    requires w.t.resources == map[] && w.t.shares == {} && w.t.invitations == map[]
    ensures ArrivesAt(c, xs, fs, Hosting(w, o))
  {
    var put := Share(PuttingResource(o.account, HOSTED, SERVICE, Ok(CHECKED)));
    ServiceChecks(c, w.t, o.account);
    ServiceIsPut(w, o);
    xs, fs := Extend(c, ws, es, w, put);
    assert Apply(w, put) == Hosting(w, o);
  }

  /** The owner's session on its service, bound to the client's key. */
  function OwnSession(o: Owner, client: KeyBytes): Session {
    Session(o.account, SERVICE, HexLower(client), SESSION_LIFETIME, None, None)
  }

  ghost function InSession(w: World, o: Owner, client: KeyBytes): World {
    w.(t := w.t.(sessions := map[41 := OwnSession(o, client)]), hashes := w.hashes + {31, 41})
  }

  lemma TakeTicket(c: Config, ws: seq<World>, es: seq<Event>, w: World, o: Owner) returns (xs: seq<World>, fs: seq<Event>)
    requires ArrivesAt(c, ws, es, w) && 31 !in w.hashes && w.t.tickets == map[]
    requires w.t.resources == map[SERVICE := Resource(o.account, "s", Service, Private, None, None)]
    ensures ArrivesAt(c, xs, fs, w.(t := w.t.(tickets := map[31 := Ticket(o.account, SERVICE, TICKET_LIFETIME)]), hashes := w.hashes + {31}))
  {
    var take := Tunnel(TakingTicket(o.account, SERVICE, 31, 0));
    xs, fs := Extend(c, ws, es, w, take);
    assert Access.Reaches(w.t, o.account, SERVICE);
    assert Apply(w, take) == w.(t := w.t.(tickets := map[31 := Ticket(o.account, SERVICE, TICKET_LIFETIME)]), hashes := w.hashes + {31});
  }

  lemma RedeemTicket(c: Config, ws: seq<World>, es: seq<Event>, w: World, o: Owner, client: KeyBytes) returns (xs: seq<World>, fs: seq<Event>)
    requires ArrivesAt(c, ws, es, w) && 41 !in w.hashes && w.t.sessions == map[]
    requires w.t.resources == map[SERVICE := Resource(o.account, "s", Service, Private, None, None)]
    requires w.t.tickets == map[31 := Ticket(o.account, SERVICE, TICKET_LIFETIME)]
    ensures ArrivesAt(c, xs, fs, w.(t := w.t.(tickets := map[], sessions := map[41 := OwnSession(o, client)]), hashes := w.hashes + {41}))
  {
    var redeem := Tunnel(Redeeming(31, client, 41, 0));
    xs, fs := Extend(c, ws, es, w, redeem);
    assert Access.Reaches(ConsumeTicket(w.t, 31, 0), o.account, SERVICE);
    assert Apply(w, redeem) == w.(t := w.t.(tickets := map[], sessions := map[41 := OwnSession(o, client)]), hashes := w.hashes + {41});
  }

  lemma OpenSession(c: Config, ws: seq<World>, es: seq<Event>, w: World, o: Owner, client: KeyBytes) returns (xs: seq<World>, fs: seq<Event>)
    requires ArrivesAt(c, ws, es, w) && w.hashes !! {31, 41} && w.t.tickets == map[] && w.t.sessions == map[]
    requires w.t.resources == map[SERVICE := Resource(o.account, "s", Service, Private, None, None)]
    ensures ArrivesAt(c, xs, fs, InSession(w, o, client))
  {
    xs, fs := TakeTicket(c, ws, es, w, o);
    xs, fs := RedeemTicket(c, xs, fs, xs[|fs|], o, client);
    assert w.hashes + {31} + {41} == w.hashes + {31, 41};
    assert xs[|fs|] == InSession(w, o, client);
  }

  /** The grant that the owner is given at time zero. */
  function OwnClaims(c: Config, o: Owner, client: KeyBytes): Claims {
    Issue(c.issuer, o.account, SERVICE, o.key, client, 0, 51)
  }

  lemma MintGrant(c: Config, ws: seq<World>, es: seq<Event>, w: World, o: Owner, client: KeyBytes)
    returns (xs: seq<World>, fs: seq<Event>, u: World)
    requires ArrivesAt(c, ws, es, w) && w.nonces == {}
    requires w.t.sessions == map[41 := OwnSession(o, client)] && w.t.daemons == map[o.account := HexLower(o.key)]
    requires w.t.resources == map[SERVICE := Resource(o.account, "s", Service, Private, None, None)]
    ensures ArrivesAt(c, xs, fs, u) && Grant(OwnClaims(c, o, client)) in u.serverLog && u.now == w.now
  {
    ParseHexLower(o.key);
    ParseHexLower(client);
    var clearance := Clearance(OwnSession(o, client), o.account, Some(HexLower(o.key)), 0);
    var clear, mint := Quiet(Clearing(41, 0, Ok(clearance))), Quiet(Minting(clearance, 51, Ok(OwnClaims(c, o, client))));
    xs, fs := Extend(c, ws, es, w, clear);
    u := Apply(w, clear);
    xs, fs := Extend(c, xs, fs, u, mint);
    u := Apply(u, mint);
  }

  /** A run to the time at which the grant has been signed. */
  lemma Granted(c: Config, o: Owner, client: KeyBytes) returns (ws: seq<World>, es: seq<Event>, w: World)
    requires CanProve(c, o)
    ensures ArrivesAt(c, ws, es, w) && Grant(OwnClaims(c, o, client)) in w.serverLog && w.now == 0
  {
    ws, es, w := BindFirst(c, o);
    ws, es := RegisterFirst(c, ws, es, w, o);
    w := Registered(w, o);
    ws, es := HostService(c, ws, es, w, o);
    w := Hosting(w, o);
    ws, es := OpenSession(c, ws, es, w, o, client);
    w := InSession(w, o, client);
    ws, es, w := MintGrant(c, ws, es, w, o, client);
  }

  // -- the daemon's part --------------------------------------------------------------------------------

  ghost predicate JointArrivesAt(c: Config, endpoint: KeyBytes, js: seq<E.Joint>, es: seq<E.JointEvent>, j: E.Joint) {
    E.IsJointRun(c, endpoint, js, es) && js[|es|] == j
  }

  lemma ExtendJoint(c: Config, endpoint: KeyBytes, js: seq<E.Joint>, es: seq<E.JointEvent>, j: E.Joint, e: E.JointEvent, k: E.Joint)
    returns (ks: seq<E.Joint>, fs: seq<E.JointEvent>)
    requires JointArrivesAt(c, endpoint, js, es, j) && E.JointSteps(c, endpoint, j, e, k)
    ensures JointArrivesAt(c, endpoint, ks, fs, k) && fs == es + [e] && ks == js + [k]
  {
    ks, fs := js + [k], es + [e];
    forall i | 0 <= i < |fs| ensures E.JointStepsAt(c, endpoint, ks, fs, i) {
      if i < |es| { assert E.JointStepsAt(c, endpoint, js, es, i); }
    }
  }

  /** The control plane's run, with a daemon that does nothing. */
  lemma WithDaemon(c: Config, endpoint: KeyBytes, ws: seq<World>, es: seq<Event>, w: World)
    returns (js: seq<E.Joint>, fs: seq<E.JointEvent>)
    requires ArrivesAt(c, ws, es, w)
    ensures JointArrivesAt(c, endpoint, js, fs, E.Joint(w, map[], map[]))
  {
    js := seq(|ws|, i requires 0 <= i < |ws| => E.Joint(ws[i], map[], map[]));
    fs := seq(|es|, i requires 0 <= i < |es| => E.Control(es[i]));
    forall i | 0 <= i < |fs| ensures E.JointStepsAt(c, endpoint, js, fs, i) {
      assert StepsAt(c, ws, es, i);
    }
  }

  lemma Wait(c: Config, endpoint: KeyBytes, js: seq<E.Joint>, es: seq<E.JointEvent>, j: E.Joint, seconds: nat)
    returns (ks: seq<E.Joint>, fs: seq<E.JointEvent>)
    requires JointArrivesAt(c, endpoint, js, es, j)
    ensures JointArrivesAt(c, endpoint, ks, fs, j.(w := j.w.(now := j.w.now + seconds))) && es <= fs && js <= ks
  {
    ks, fs := ExtendJoint(c, endpoint, js, es, j, E.Control(Quiet(Advancing(seconds))), j.(w := j.w.(now := j.w.now + seconds)));
  }

  /** A request with the grant arrives, its handler reads the clock and takes the guard. */
  lemma PresentGrant(c: Config, endpoint: KeyBytes, js: seq<E.Joint>, es: seq<E.JointEvent>, j: E.Joint,
                     id: nat, s: Signed, peer: KeyBytes, targets: map<ResourceId, R.Target>)
    returns (ks: seq<E.Joint>, fs: seq<E.JointEvent>, n: nat)
    requires JointArrivesAt(c, endpoint, js, es, j) && j.requests == map[] && s.payload in j.w.serverLog
    ensures JointArrivesAt(c, endpoint, ks, fs, j.(seen := R.AfterDecision(s, c.lib.serverKey, endpoint, peer, targets, j.seen, j.w.now)))
    ensures |es| <= n < |fs| && fs[n] == E.Present(id, s, peer, targets, j.w.now) && ks[n].seen == j.seen && es <= fs && js <= ks
  {
    var arrived := j.(requests := map[id := E.Incoming(s, peer, None)]);
    var read := j.(requests := map[id := E.Incoming(s, peer, Some(j.w.now))]);
    var done := j.(seen := R.AfterDecision(s, c.lib.serverKey, endpoint, peer, targets, j.seen, j.w.now));
    ks, fs := ExtendJoint(c, endpoint, js, es, j, E.Arrive(id, s, peer), arrived);
    ks, fs := ExtendJoint(c, endpoint, ks, fs, arrived, E.ReadClock(id), read);
    n := |fs|;
    assert read.requests - {id} == map[];
    ks, fs := ExtendJoint(c, endpoint, ks, fs, read, E.Present(id, s, peer, targets, j.w.now), done);
  }

  ghost predicate AcceptsAt(c: Config, endpoint: KeyBytes, js: seq<E.Joint>, es: seq<E.JointEvent>, n: nat, claims: Claims) {
    && n < |es| && n < |js| && es[n].Present? && E.Decision(c, endpoint, js[n], es[n]).Ok?
    && E.Decision(c, endpoint, js[n], es[n]).value.claims == claims
  }

  lemma GrantVerifies(c: Config, o: Owner, client: KeyBytes, signature: ByteString, now: nat)
    requires |signature| == 64 && c.lib.serverKey(Grant(OwnClaims(c, o, client)), signature) && now <= LIFETIME
    ensures VerifyFor(c.lib.serverKey, Signed(Grant(OwnClaims(c, o, client)), signature), o.key, client, now) == Ok(OwnClaims(c, o, client))
  {
  }

  /** A run in which a daemon accepts one grant twice: in the second before its expiry, and in
      the second of its expiry. */
  lemma GrantAcceptedTwice(c: Config, o: Owner, client: KeyBytes, signature: ByteString, target: R.Target)
    returns (js: seq<E.Joint>, es: seq<E.JointEvent>, i: nat, k: nat)
    requires CanProve(c, o) && |signature| == 64 && c.lib.serverKey(Grant(OwnClaims(c, o, client)), signature)
    ensures E.IsJointRun(c, o.key, js, es) && i < k
    ensures AcceptsAt(c, o.key, js, es, i, OwnClaims(c, o, client)) && es[i].at == OwnClaims(c, o, client).expiresAt - 1
    ensures AcceptsAt(c, o.key, js, es, k, OwnClaims(c, o, client)) && es[k].at == OwnClaims(c, o, client).expiresAt
  {
    var s, targets := Signed(Grant(OwnClaims(c, o, client)), signature), map[SERVICE := target];
    var ws, fs, w := Granted(c, o, client);
    js, es := WithDaemon(c, o.key, ws, fs, w);
    js, es := Wait(c, o.key, js, es, E.Joint(w, map[], map[]), LIFETIME - 1);
    js, es, i := PresentGrant(c, o.key, js, es, js[|es|], 1, s, client, targets);
    GrantVerifies(c, o, client, signature, LIFETIME - 1);
    var seen := js[|es|].seen;
    js, es := Wait(c, o.key, js, es, js[|es|], 1);
    js, es, k := PresentGrant(c, o.key, js, es, js[|es|], 2, s, client, targets);
    GrantVerifies(c, o, client, signature, LIFETIME);
    R.LastSecondIsAdmittedAgain(s, c.lib.serverKey, o.key, client, targets, map[], LIFETIME - 1, LIFETIME);
  }
}

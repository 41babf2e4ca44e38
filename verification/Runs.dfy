/** Particular runs, built step by step: each ends where a property that one might expect does
    not hold. */
module Runs {
  import opened Text
  import opened State
  import opened Statements
  import opened Endpoints
  import opened Access
  import opened ControlPlane
  import EndpointKeys
  import Machines

  /** A run that has come to `w`. */
  ghost predicate ArrivesAt(c: Config, ws: seq<World>, es: seq<Event>, w: World) {
    IsRun(c, ws, es) && ws[|es|] == w
  }

  lemma Extend(c: Config, ws: seq<World>, es: seq<Event>, w: World, e: Event) returns (xs: seq<World>, fs: seq<Event>)
    requires ArrivesAt(c, ws, es, w) && Draws(w, e) && Answers(c, w, e)
    ensures ArrivesAt(c, xs, fs, Apply(w, e)) && |fs| == |es| + 1 && fs[|es|] == e && xs[|es|] == w
  {
    xs, fs := ws + [Apply(w, e)], es + [e];
    forall i | 0 <= i < |fs| ensures StepsAt(c, xs, fs, i) {
      if i < |es| { assert StepsAt(c, ws, es, i); }
    }
  }

  /** An account, and a proof that its endpoint key has made. */
  datatype Owner = Owner(account: AccountId, key: KeyBytes, proof: ByteString)

  ghost predicate CanProve(c: Config, o: Owner) {
    c.lib.endpointSigned(o.key, Encode(EndpointProof(o.key)), o.proof)
  }

  /** The world after the owner has signed in and its key has signed its proof. */
  ghost function Begun(o: Owner): World {
    var w := Start(0);
    w.(t := EMPTY.(accounts := map[o.account := None]), endpointLog := {(o.key, Statement.EndpointProof(o.key))})
  }

  lemma Begin(c: Config, o: Owner) returns (ws: seq<World>, es: seq<Event>)
    ensures ArrivesAt(c, ws, es, Begun(o))
  {
    ws, es := [Start(0)], [];
    ws, es := Extend(c, ws, es, Start(0), Share(SigningIn(o.account)));
    ws, es := Extend(c, ws, es, ws[|es|], Quiet(EndpointSigning(o.key, EndpointProof(o.key))));
    assert ws[|es|] == Begun(o);
  }

  /** `w` after a new enrolment ticket has been issued and looked up. */
  ghost function Ticketed(w: World, o: Owner, id: CredentialId, hash: TokenHash): World {
    w.(t := w.t.(credentials := w.t.credentials[id := Credential(o.account, hash, None, {})]),
       hashes := w.hashes + {hash}, credentialIds := w.credentialIds + {id},
       enrollments := w.enrollments + {(id, o.account, hash)})
  }

  lemma IssueAndLookUp(c: Config, ws: seq<World>, es: seq<Event>, w: World, o: Owner, id: CredentialId, hash: TokenHash)
    returns (xs: seq<World>, fs: seq<Event>)
    requires ArrivesAt(c, ws, es, w) && id !in w.credentialIds && hash !in w.hashes
    requires |CredentialsOf(w.t, o.account)| < MAX_CREDENTIALS
    ensures ArrivesAt(c, xs, fs, Ticketed(w, o, id, hash))
  {
    var added := Enrol(AddingCredential(o.account, id, hash, {}));
    xs, fs := Extend(c, ws, es, w, added);
    var u := Apply(w, added);
    assert u.t.credentials[id] == Credential(o.account, hash, None, {});
    xs, fs := Extend(c, xs, fs, u, Quiet(LookingUpTicket(hash, id)));
    assert xs[|fs|] == Ticketed(w, o, id, hash);
  }

  /** `w` after the ticket has bound an endpoint. */
  ghost function Enrolled(w: World, id: CredentialId, hash: TokenHash, next: TokenHash, endpoint: string): World
    requires id in w.t.credentials
  {
    w.(t := w.t.(credentials := w.t.credentials[id := w.t.credentials[id].(tokenHash := next, endpoint := Some(endpoint))]),
       hashes := w.hashes + {next})
  }

  lemma BindEndpoint(c: Config, ws: seq<World>, es: seq<Event>, w: World, o: Owner, id: CredentialId,
                     hash: TokenHash, next: TokenHash, endpoint: string)
    returns (xs: seq<World>, fs: seq<Event>)
    requires ArrivesAt(c, ws, es, w) && CanProve(c, o) && ParseEndpoint(endpoint) == Some(o.key)
    requires (o.key, Statement.EndpointProof(o.key)) in w.endpointLog
    requires (id, o.account, hash) in w.enrollments && next !in w.hashes && CanEnroll(w.t, id, o.account, hash, endpoint)
    ensures ArrivesAt(c, xs, fs, Enrolled(w, id, hash, next, endpoint)) && |fs| == |es| + 1 && xs[|es|] == w
    ensures EndpointKeys.BindsNow(w.t, fs[|es|]) && fs[|es|].enrol.endpoint == endpoint
  {
    var e := Enrol(Enrolling(id, o.account, hash, next, endpoint, o.proof));
    xs, fs := Extend(c, ws, es, w, e);
    assert xs[|fs|] == Enrolled(w, id, hash, next, endpoint);
  }

  // -- one credential -----------------------------------------------------------------------------

  /** The world after one credential of the owner has been bound to its key. */
  ghost predicate BoundOnce(w: World, o: Owner) {
    && w.t.credentials == map[1 := Credential(o.account, 21, Some(HexLower(o.key)), {})]
    && w.t == EMPTY.(accounts := map[o.account := None], credentials := w.t.credentials)
    && w.now == 0 && w.resourceIds == {} && w.nonces == {} && w.serverLog == {} && w.clearances == {}
    && w.hashes == {11, 21} && w.credentialIds == {1} && w.machines == {}
    && (o.key, Statement.EndpointProof(o.key)) in w.endpointLog
  }

  lemma FirstTicket(o: Owner)
    ensures CredentialsOf(Begun(o).t, o.account) == {}
    ensures CanEnroll(Ticketed(Begun(o), o, 1, 11).t, 1, o.account, 11, HexLower(o.key))
    ensures BoundOnce(Enrolled(Ticketed(Begun(o), o, 1, 11), 1, 11, 21, HexLower(o.key)), o)
  {
  }

  lemma BindFirst(c: Config, o: Owner) returns (ws: seq<World>, es: seq<Event>, w: World)
    requires CanProve(c, o)
    ensures ArrivesAt(c, ws, es, w) && BoundOnce(w, o)
  {
    ParseHexLower(o.key);
    FirstTicket(o);
    ws, es := Begin(c, o);
    ws, es := IssueAndLookUp(c, ws, es, Begun(o), o, 1, 11);
    w := Ticketed(Begun(o), o, 1, 11);
    ws, es := BindEndpoint(c, ws, es, w, o, 1, 11, 21, HexLower(o.key));
    w := Enrolled(w, 1, 11, 21, HexLower(o.key));
  }

  lemma ReadCredential(c: Config, ws: seq<World>, es: seq<Event>, w: World, o: Owner)
    returns (xs: seq<World>, fs: seq<Event>, m: Machine)
    requires ArrivesAt(c, ws, es, w) && BoundOnce(w, o)
    ensures m == Machine(o.account, 1, HexLower(o.key), {}) && ArrivesAt(c, xs, fs, w.(machines := w.machines + {m}))
  {
    m := MachineOf(1, w.t.credentials[1]);
    xs, fs := Extend(c, ws, es, w, Quiet(Authenticating(21, 1)));
  }

  lemma Register(c: Config, ws: seq<World>, es: seq<Event>, w: World, o: Owner, m: Machine)
    returns (xs: seq<World>, fs: seq<Event>)
    requires ArrivesAt(c, ws, es, w) && CanProve(c, o) && ParseEndpoint(m.endpoint) == Some(o.key)
    requires (o.key, Statement.EndpointProof(o.key)) in w.endpointLog && m in w.machines
    ensures ArrivesAt(c, xs, fs, w.(t := RegisterDaemon(w.t, m.account, m.endpoint))) && |fs| == |es| + 1 && xs[|es|] == w
    ensures fs[|es|].Enrol? && fs[|es|].enrol.Registering?
  {
    xs, fs := Extend(c, ws, es, w, Enrol(Registering(m, o.proof)));
  }

  // -- one key, two credentials ------------------------------------------------------------------

  /** The owner's second ticket, about to bind the same key under another text. */
  ghost predicate ReadyAgain(w: World, o: Owner, text: string) {
    && (2, o.account, 12) in w.enrollments && 22 !in w.hashes && CanEnroll(w.t, 2, o.account, 12, text)
    && (o.key, Statement.EndpointProof(o.key)) in w.endpointLog && ParseEndpoint(text) == Some(o.key)
    && EndpointKeys.KeysDistinct(w.t) && !EndpointKeys.KeysDistinct(Enrolled(w, 2, 12, 22, text).t)
  }

  lemma SecondTicketKeys(w: World, o: Owner, first: string, second: string)
    requires w.t.credentials == map[1 := Credential(o.account, 21, Some(first), {})]
    requires first != second && ParseEndpoint(first) == ParseEndpoint(second)
    ensures var u := Ticketed(w, o, 2, 12);
            && CanEnroll(u.t, 2, o.account, 12, second)
            && EndpointKeys.KeysDistinct(u.t) && !EndpointKeys.KeysDistinct(Enrolled(u, 2, 12, 22, second).t)
  {
    var v := Enrolled(Ticketed(w, o, 2, 12), 2, 12, 22, second).t;
    assert EndpointKeys.BoundTo(v, 1, first) && EndpointKeys.BoundTo(v, 2, second);
  }

  lemma SecondTicket(w: World, o: Owner)
    requires BoundOnce(w, o)
    ensures CredentialsOf(w.t, o.account) == {1}
    ensures ReadyAgain(Ticketed(w, o, 2, 12), o, HexLower(o.key) + [' '])
  {
    TextsShareAKey(o.key);
    ParseHexLower(o.key);
    SecondTicketKeys(w, o, HexLower(o.key), HexLower(o.key) + [' ']);
  }

  lemma BindAgain(c: Config, ws: seq<World>, es: seq<Event>, w: World, o: Owner, text: string)
    returns (xs: seq<World>, fs: seq<Event>)
    requires ArrivesAt(c, ws, es, w) && CanProve(c, o) && ReadyAgain(w, o, text)
    ensures IsRun(c, xs, fs) && |fs| == |es| + 1
    ensures EndpointKeys.BindsNow(xs[|es|].t, fs[|es|]) && fs[|es|].enrol.endpoint == text
    ensures EndpointKeys.KeysDistinct(xs[|es|].t) && !EndpointKeys.KeysDistinct(xs[|es| + 1].t)
  {
    xs, fs := BindEndpoint(c, ws, es, w, o, 2, 12, 22, text);
  }

  /** A run in which one key is bound twice. The second enrolment presents the bound id with a
      space after it: its proof verifies, the unique index on texts lets it through, and two
      credentials are bound to the key. */
  lemma OneKeyBoundTwice(c: Config, o: Owner) returns (ws: seq<World>, es: seq<Event>, n: nat)
    requires CanProve(c, o)
    ensures IsRun(c, ws, es) && |es| == n + 1
    ensures EndpointKeys.BindsNow(ws[n].t, es[n]) && es[n].enrol.endpoint == HexLower(o.key) + [' ']
    ensures EndpointKeys.KeysDistinct(ws[n].t) && !EndpointKeys.KeysDistinct(ws[n + 1].t)
  {
    var w;
    ws, es, w := BindFirst(c, o);
    SecondTicket(w, o);
    ws, es := IssueAndLookUp(c, ws, es, w, o, 2, 12);
    n := |es|;
    ws, es := BindAgain(c, ws, es, Ticketed(w, o, 2, 12), o, HexLower(o.key) + [' ']);
  }

  // -- registered after revocation ------------------------------------------------------------------

  /** `w` after a request has read the credential, and the owner has then revoked it. */
  ghost function ReadThenRevoked(w: World, m: Machine): World {
    w.(t := w.t.(credentials := map[]), machines := w.machines + {m})
  }

  lemma ReadAndRevoke(c: Config, ws: seq<World>, es: seq<Event>, w: World, o: Owner)
    returns (xs: seq<World>, fs: seq<Event>, m: Machine)
    requires ArrivesAt(c, ws, es, w) && BoundOnce(w, o)
    ensures m == Machine(o.account, 1, HexLower(o.key), {}) && ArrivesAt(c, xs, fs, ReadThenRevoked(w, m))
  {
    xs, fs, m := ReadCredential(c, ws, es, w, o);
    var u, revoke := w.(machines := w.machines + {m}), Enrol(Revoking(o.account, 1));
    xs, fs := Extend(c, xs, fs, u, revoke);
    assert Apply(u, revoke) == ReadThenRevoked(w, m);
  }

  lemma RegisterStale(c: Config, ws: seq<World>, es: seq<Event>, w: World, o: Owner, m: Machine)
    returns (xs: seq<World>, fs: seq<Event>)
    requires ArrivesAt(c, ws, es, w) && CanProve(c, o) && ParseEndpoint(m.endpoint) == Some(o.key)
    requires (o.key, Statement.EndpointProof(o.key)) in w.endpointLog
    requires m in w.machines && w.t.credentials == map[] && w.t.daemons == map[]
    ensures IsRun(c, xs, fs) && |fs| == |es| + 1 && fs[|es|].Enrol? && fs[|es|].enrol.Registering?
    ensures Machines.Registered(xs[|es|].t) && !Machines.Registered(xs[|es| + 1].t)
  {
    xs, fs := Register(c, ws, es, w, o, m);
    var u := RegisterDaemon(w.t, m.account, m.endpoint);
    assert m.account in u.daemons && u.credentials == map[];
  }

  /** A run in which a registration outlives its credential: the request read the credential,
      the credential is revoked, and then the request registers the endpoint. */
  lemma RegisteredAfterRevocation(c: Config, o: Owner) returns (ws: seq<World>, es: seq<Event>, n: nat)
    requires CanProve(c, o)
    ensures IsRun(c, ws, es) && |es| == n + 1 && es[n].Enrol? && es[n].enrol.Registering?
    ensures Machines.Registered(ws[n].t) && !Machines.Registered(ws[n + 1].t)
  {
    var w, m;
    ws, es, w := BindFirst(c, o);
    ws, es, m := ReadAndRevoke(c, ws, es, w, o);
    ParseHexLower(o.key);
    n := |es|;
    ws, es := RegisterStale(c, ws, es, ReadThenRevoked(w, m), o, m);
  }
}

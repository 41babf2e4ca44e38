/** End to end: what a daemon that accepts a request can conclude about the control plane. The
    daemon shares the control plane's clock, and its replay guard starts empty. */
module EndToEnd {
  import opened Text
  import opened State
  import opened Statements
  import opened Capability
  import opened Endpoints
  import opened Access
  import opened ControlPlane
  import opened Reachable
  import Brokered
  import R = Replay

  // -- where a grant comes from -----------------------------------------------------------------

  ghost predicate Mints(e: Event, claims: Claims) {
    e.Quiet? && e.quiet.Minting? && e.quiet.minted == Ok(claims)
  }

  /** Every grant that the server signed comes from a minting step. */
  lemma {:induction false} GrantOrigin(ws: seq<World>, es: seq<Event>, n: nat, claims: Claims) returns (k: nat)
    requires IsTrace(ws, es) && n < |ws| && Grant(claims) in ws[n].serverLog
    ensures k < n && Mints(es[k], claims)
  {
    assert n > 0;
    assert MovesAt(ws, es, n - 1);
    if Grant(claims) in ws[n - 1].serverLog {
      k := GrantOrigin(ws, es, n - 1, claims);
    } else {
      Brokered.LogFrame(ws[n - 1], es[n - 1], ws[n], Grant(claims));
      k := n - 1;
    }
  }

  ghost predicate Clears(e: Event, clearance: Clearance) {
    e.Quiet? && e.quiet.Clearing? && e.quiet.cleared == Ok(clearance)
  }

  lemma ClearanceFrame(w: World, e: Event, u: World, clearance: Clearance)
    requires Moves(w, e, u) && clearance in u.clearances && clearance !in w.clearances
    ensures Clears(e, clearance)
  {
  }

  /** Every clearance was read by a checking step. */
  lemma {:induction false} ClearanceOrigin(ws: seq<World>, es: seq<Event>, n: nat, clearance: Clearance) returns (k: nat)
    requires IsTrace(ws, es) && n < |ws| && clearance in ws[n].clearances
    ensures k < n && Clears(es[k], clearance)
  {
    assert n > 0;
    assert MovesAt(ws, es, n - 1);
    if clearance in ws[n - 1].clearances {
      k := ClearanceOrigin(ws, es, n - 1, clearance);
    } else {
      ClearanceFrame(ws[n - 1], es[n - 1], ws[n], clearance);
      k := n - 1;
    }
  }

  /** What the checking step saw: a live session, bound to the client key of the grant, of a
      viewer who may see the service, and the endpoint that the daemon of the service's owner
      had registered. */
  ghost predicate Saw(w: World, claims: Claims, at: nat) {
    && at <= w.now
    && claims.resource in w.t.resources && w.t.resources[claims.resource].kind == Service
    && Sees(w.t, claims.viewer, claims.resource)
    && (exists h :: LiveSession(w.t, h, at) && w.t.sessions[h].viewer == claims.viewer
                    && w.t.sessions[h].resource == claims.resource
                    && ParseEndpoint(w.t.sessions[h].client) == Some(claims.clientKey))
    && w.t.resources[claims.resource].owner in w.t.daemons
    && ParseEndpoint(w.t.daemons[w.t.resources[claims.resource].owner]) == Some(claims.audience)
  }

  lemma ClearedSaw(w: World, hash: TokenHash, at: nat, clearance: Clearance, issuer: string, nonce: Nonce)
    requires at <= w.now && Clear(w.t, hash, at) == Ok(clearance) && Mint(issuer, clearance, nonce).Ok?
    ensures Saw(w, Mint(issuer, clearance, nonce).value, at)
  {
    assert LiveSession(w.t, hash, at);
  }

  /** A signed grant was minted after a checking step `k` that saw all of this, and is good
      for the 180 seconds after that step read the clock. */
  lemma GrantIsSound(c: Config, ws: seq<World>, es: seq<Event>, n: nat, claims: Claims) returns (k: nat)
    requires IsRun(c, ws, es) && n < |ws| && Grant(claims) in ws[n].serverLog
    ensures k < n && Saw(ws[k], claims, claims.issuedAt)
    ensures claims.expiresAt == claims.issuedAt + LIFETIME && claims.issuer == c.issuer
  {
    RunIsTrace(c, ws, es);
    var mint := GrantOrigin(ws, es, n, claims);
    assert StepsAt(c, ws, es, mint);
    var clearance := es[mint].quiet.clearance;
    k := ClearanceOrigin(ws, es, mint, clearance);
    assert StepsAt(c, ws, es, k);
    ClearedSaw(ws[k], es[k].quiet.hash, es[k].quiet.at, clearance, c.issuer, es[mint].quiet.nonce);
  }

  // -- the control plane and one daemon -------------------------------------------------------------

  /** A request that has arrived at the daemon, and the clock reading once it has been taken. */
  datatype Incoming = Incoming(s: Signed, peer: KeyBytes, at: Option<nat>)

  /** The control plane, the replay guard of one daemon, and the requests it is handling. */
  datatype Joint = Joint(w: World, seen: map<Nonce, nat>, requests: map<nat, Incoming>)

  /** The daemon's handlers interleave: a request arrives, its handler reads the clock, and later
      takes the guard. The targets are what the configuration holds when the handler looks. */
  datatype JointEvent =
    | Control(event: Event)
    | Arrive(id: nat, s: Signed, peer: KeyBytes)
    | ReadClock(id: nat)
    | Present(id: nat, s: Signed, peer: KeyBytes, targets: map<ResourceId, R.Target>, at: nat)

  ghost function Decision(c: Config, endpoint: KeyBytes, j: Joint, e: JointEvent): Result<R.Authorized, R.Denied>
    requires e.Present?
  {
    R.Decide(e.s, c.lib.serverKey, endpoint, e.peer, e.targets, j.seen, e.at)
  }

  ghost predicate JointSteps(c: Config, endpoint: KeyBytes, j: Joint, e: JointEvent, k: Joint) {
    match e
    case Control(event) => Steps(c, j.w, event, k.w) && k == j.(w := k.w)
    case Arrive(id, s, peer) =>
      && id !in j.requests && Unforgeable(c.lib.serverKey, j.w.serverLog, s)
      && k == j.(requests := j.requests[id := Incoming(s, peer, None)])
    case ReadClock(id) =>
      && id in j.requests && j.requests[id].at.None?
      && k == j.(requests := j.requests[id := j.requests[id].(at := Some(j.w.now))])
    case Present(id, s, peer, targets, at) =>
      && id in j.requests && j.requests[id] == Incoming(s, peer, Some(at))
      && k == Joint(j.w, R.AfterDecision(s, c.lib.serverKey, endpoint, peer, targets, j.seen, at), j.requests - {id})
  }

  ghost predicate JointStepsAt(c: Config, endpoint: KeyBytes, js: seq<Joint>, es: seq<JointEvent>, i: nat) {
    i < |es| && i + 1 < |js| && JointSteps(c, endpoint, js[i], es[i], js[i + 1])
  }

  ghost predicate IsJointRun(c: Config, endpoint: KeyBytes, js: seq<Joint>, es: seq<JointEvent>) {
    && |js| == |es| + 1 && js[0] == Joint(Start(js[0].w.now), map[], map[])
    && forall i :: 0 <= i < |es| ==> JointStepsAt(c, endpoint, js, es, i)
  }

  /** The control plane's part of a joint run; a daemon's step is one where it does nothing. */
  function Worlds(js: seq<Joint>): seq<World> {
    seq(|js|, i requires 0 <= i < |js| => js[i].w)
  }

  function Events(es: seq<JointEvent>): seq<Event> {
    seq(|es|, i requires 0 <= i < |es| => if es[i].Control? then es[i].event else Quiet(Advancing(0)))
  }

  lemma ControlPart(c: Config, endpoint: KeyBytes, js: seq<Joint>, es: seq<JointEvent>)
    requires IsJointRun(c, endpoint, js, es)
    ensures IsRun(c, Worlds(js), Events(es))
  {
    forall i | 0 <= i < |es| ensures StepsAt(c, Worlds(js), Events(es), i) {
      assert JointStepsAt(c, endpoint, js, es, i);
    }
  }

  lemma JointClock(c: Config, endpoint: KeyBytes, j: Joint, e: JointEvent, k: Joint)
    requires JointSteps(c, endpoint, j, e, k)
    ensures k.w.now == j.w.now + (if e.Control? && e.event.Quiet? && e.event.quiet.Advancing? then e.event.quiet.seconds else 0)
  {
  }

  /** A request was signed before it arrived, and the clock was read after. */
  ghost predicate IncomingOk(c: Config, w: World, r: Incoming) {
    && Unforgeable(c.lib.serverKey, w.serverLog, r.s)
    && (r.at.Some? ==> r.at.value <= w.now)
    && (r.at.Some? && c.lib.serverKey(r.s.payload, r.s.signature) && r.s.payload.Grant? ==> r.s.payload.claims.issuedAt <= r.at.value)
  }

  ghost predicate AllIncomingOk(c: Config, j: Joint) {
    forall id :: id in j.requests ==> IncomingOk(c, j.w, j.requests[id])
  }

  /** No grant is issued at a time still to come. */
  ghost predicate IssuedBefore(w: World) {
    forall p :: p in w.serverLog && p.Grant? ==> p.claims.issuedAt <= w.now
  }

  lemma RunIssuedBefore(c: Config, ws: seq<World>, es: seq<Event>, n: nat)
    requires IsRun(c, ws, es) && n < |ws|
    ensures IssuedBefore(ws[n])
  {
    forall p | p in ws[n].serverLog && p.Grant? ensures p.claims.issuedAt <= ws[n].now {
      var k := GrantIsSound(c, ws, es, n, p.claims);
      ClockMoves(c, ws, es, k, n);
    }
  }

  lemma StepIncomingOk(c: Config, endpoint: KeyBytes, j: Joint, e: JointEvent, k: Joint)
    requires AllIncomingOk(c, j) && IssuedBefore(j.w) && JointSteps(c, endpoint, j, e, k)
    requires j.w.now <= k.w.now && j.w.serverLog <= k.w.serverLog
    ensures AllIncomingOk(c, k)
  {
    forall id | id in k.requests ensures IncomingOk(c, k.w, k.requests[id]) {
      if id in j.requests { assert IncomingOk(c, j.w, j.requests[id]); }
    }
  }

  lemma {:induction false} RunIncomingOk(c: Config, endpoint: KeyBytes, js: seq<Joint>, es: seq<JointEvent>, n: nat)
    requires IsJointRun(c, endpoint, js, es) && n < |js|
    ensures AllIncomingOk(c, js[n])
  {
    if n > 0 {
      RunIncomingOk(c, endpoint, js, es, n - 1);
      assert JointStepsAt(c, endpoint, js, es, n - 1);
      ControlPart(c, endpoint, js, es);
      RunIssuedBefore(c, Worlds(js), Events(es), n - 1);
      ClockMoves(c, Worlds(js), Events(es), n - 1, n);
      StepIncomingOk(c, endpoint, js[n - 1], es[n - 1], js[n]);
    }
  }

  lemma AcceptedIsSigned(c: Config, endpoint: KeyBytes, j: Joint, e: JointEvent, k: Joint)
    requires JointSteps(c, endpoint, j, e, k) && AllIncomingOk(c, j) && e.Present? && Decision(c, endpoint, j, e).Ok?
    ensures var claims := Decision(c, endpoint, j, e).value.claims;
            && Grant(claims) in j.w.serverLog
            && claims.audience == endpoint && claims.clientKey == e.peer && claims.issuedAt <= e.at <= claims.expiresAt
            && claims.resource in e.targets && Decision(c, endpoint, j, e).value.target == e.targets[claims.resource]
  {
    assert IncomingOk(c, j.w, j.requests[e.id]);
  }

  /** End-to-end safety. When the daemon accepts a request, some earlier checking step of the
      control plane saw a live session of the viewer bound to the peer's key, saw that the
      viewer may see the service, and saw this daemon registered for its owner; the clock it
      read then is at most 180 seconds before the daemon's, and not after it. */
  lemma AcceptedIsEntitled(c: Config, endpoint: KeyBytes, js: seq<Joint>, es: seq<JointEvent>, i: nat) returns (k: nat)
    requires IsJointRun(c, endpoint, js, es) && i < |es| && es[i].Present? && Decision(c, endpoint, js[i], es[i]).Ok?
    ensures var claims := Decision(c, endpoint, js[i], es[i]).value.claims;
            && k < i && Saw(js[k].w, claims, claims.issuedAt)
            && claims.audience == endpoint && claims.clientKey == es[i].peer
            && claims.issuedAt <= es[i].at <= claims.issuedAt + 180
  {
    ControlPart(c, endpoint, js, es);
    RunIncomingOk(c, endpoint, js, es, i);
    assert JointStepsAt(c, endpoint, js, es, i);
    AcceptedIsSigned(c, endpoint, js[i], es[i], js[i + 1]);
    k := GrantIsSound(c, Worlds(js), Events(es), i, Decision(c, endpoint, js[i], es[i]).value.claims);
  }

  lemma {:induction false} ClockMoves(c: Config, ws: seq<World>, es: seq<Event>, i: nat, j: nat)
    requires IsRun(c, ws, es) && i <= j < |ws|
    ensures ws[i].now <= ws[j].now && ws[i].serverLog <= ws[j].serverLog
  {
    if i < j {
      ClockMoves(c, ws, es, i, j - 1);
      RunIsTrace(c, ws, es);
      assert MovesAt(ws, es, j - 1);
      DrawnGrow(ws[j - 1], es[j - 1], ws[j]);
    }
  }

  // -- one use -------------------------------------------------------------------------------------------

  /** Two grants with one nonce are one grant. */
  ghost predicate NoncesUnique(w: World) {
    && (forall p :: p in w.serverLog && p.Grant? ==> p.claims.nonce in w.nonces)
    && (forall p, q :: p in w.serverLog && q in w.serverLog && p.Grant? && q.Grant? && p.claims.nonce == q.claims.nonce ==> p == q)
  }

  lemma StepKeepsNonces(c: Config, w: World, e: Event, u: World)
    requires NoncesUnique(w) && Steps(c, w, e, u)
    ensures NoncesUnique(u)
  {
    AnswersSound(c, w, e);
    forall p | p in u.serverLog && p !in w.serverLog && p.Grant?
      ensures e.Quiet? && e.quiet.Minting? && p.claims.nonce == e.quiet.nonce
    {
      Brokered.LogFrame(w, e, u, p);
    }
  }

  lemma {:induction false} RunNonces(c: Config, ws: seq<World>, es: seq<Event>, i: nat)
    requires IsRun(c, ws, es) && i < |ws|
    ensures NoncesUnique(ws[i])
  {
    if i > 0 {
      RunNonces(c, ws, es, i - 1);
      assert StepsAt(c, ws, es, i - 1);
      StepKeepsNonces(c, ws[i - 1], es[i - 1], ws[i]);
    }
  }

  /** Whether a request gets as far as the guard. */
  ghost predicate ReachesGuard(c: Config, endpoint: KeyBytes, e: JointEvent) {
    e.Present? && VerifyFor(c.lib.serverKey, e.s, endpoint, e.peer, e.at).Ok?
    && VerifyFor(c.lib.serverKey, e.s, endpoint, e.peer, e.at).value.resource in e.targets
  }

  ghost function CallOf(e: JointEvent): R.Call
    requires e.Present? && e.s.payload.Grant?
  {
    R.Call(e.s.payload.claims.nonce, e.s.payload.claims.expiresAt, e.at)
  }

  /** The calls that the first `n` steps make on the guard. */
  ghost function Calls(c: Config, endpoint: KeyBytes, es: seq<JointEvent>, n: nat): seq<R.Call>
    requires n <= |es|
  {
    if n == 0 then []
    else Calls(c, endpoint, es, n - 1) + if ReachesGuard(c, endpoint, es[n - 1]) then [CallOf(es[n - 1])] else []
  }

  lemma GuardStep(c: Config, endpoint: KeyBytes, j: Joint, e: JointEvent, k: Joint)
    requires JointSteps(c, endpoint, j, e, k)
    ensures ReachesGuard(c, endpoint, e) ==> k.seen == R.AfterAdmit(j.seen, CallOf(e).nonce, CallOf(e).expiresAt, CallOf(e).now)
    ensures !ReachesGuard(c, endpoint, e) ==> k.seen == j.seen
    ensures e.Present? && Decision(c, endpoint, j, e).Ok? ==>
              && ReachesGuard(c, endpoint, e) && R.Admits(j.seen, CallOf(e).nonce, e.at)
              && Decision(c, endpoint, j, e).value.claims == e.s.payload.claims
  {
  }

  lemma {:induction false} GuardIsReplay(c: Config, endpoint: KeyBytes, js: seq<Joint>, es: seq<JointEvent>, n: nat)
    requires IsJointRun(c, endpoint, js, es) && n <= |es|
    ensures js[n].seen == R.SeenAfter(Calls(c, endpoint, es, n))
  {
    if n > 0 {
      GuardIsReplay(c, endpoint, js, es, n - 1);
      assert JointStepsAt(c, endpoint, js, es, n - 1);
      GuardStep(c, endpoint, js[n - 1], es[n - 1], js[n]);
      var before := Calls(c, endpoint, es, n - 1);
      if ReachesGuard(c, endpoint, es[n - 1]) {
        R.SeenSnoc(before, CallOf(es[n - 1]));
      } else {
        assert before + [] == before;
      }
    }
  }

  lemma {:induction false} CallsPrefix(c: Config, endpoint: KeyBytes, es: seq<JointEvent>, i: nat, n: nat)
    requires i <= n <= |es|
    ensures Calls(c, endpoint, es, i) <= Calls(c, endpoint, es, n)
  {
    if i < n { CallsPrefix(c, endpoint, es, i, n - 1); }
  }

  ghost predicate FromGrant(w: World, call: R.Call) {
    exists p :: p in w.serverLog && p.Grant? && p.claims.nonce == call.nonce && p.claims.expiresAt == call.expiresAt
  }

  lemma {:induction false} CallsFromGrants(c: Config, endpoint: KeyBytes, js: seq<Joint>, es: seq<JointEvent>, n: nat)
    requires IsJointRun(c, endpoint, js, es) && n <= |es|
    ensures forall k :: 0 <= k < |Calls(c, endpoint, es, n)| ==> FromGrant(js[n].w, Calls(c, endpoint, es, n)[k])
  {
    if n > 0 {
      CallsFromGrants(c, endpoint, js, es, n - 1);
      ControlPart(c, endpoint, js, es);
      ClockMoves(c, Worlds(js), Events(es), n - 1, n);
      assert JointStepsAt(c, endpoint, js, es, n - 1);
      RunIncomingOk(c, endpoint, js, es, n - 1);
      var before, calls, e := Calls(c, endpoint, es, n - 1), Calls(c, endpoint, es, n), es[n - 1];
      forall k | 0 <= k < |calls| ensures FromGrant(js[n].w, calls[k]) {
        if k < |before| {
          assert calls[k] == before[k];
        } else {
          assert IncomingOk(c, js[n - 1].w, js[n - 1].requests[e.id]);
          assert e.s.payload in js[n].w.serverLog;
        }
      }
    }
  }

  lemma CallsOneExpiry(c: Config, endpoint: KeyBytes, js: seq<Joint>, es: seq<JointEvent>, n: nat)
    requires IsJointRun(c, endpoint, js, es) && n <= |es|
    ensures R.OneExpiry(Calls(c, endpoint, es, n))
  {
    CallsFromGrants(c, endpoint, js, es, n);
    ControlPart(c, endpoint, js, es);
    RunNonces(c, Worlds(js), Events(es), n);
  }

  lemma CallAt(c: Config, endpoint: KeyBytes, es: seq<JointEvent>, i: nat, n: nat)
    requires i < n <= |es| && ReachesGuard(c, endpoint, es[i])
    ensures var a, calls := |Calls(c, endpoint, es, i)|, Calls(c, endpoint, es, n);
            a < |calls| && calls[a] == CallOf(es[i]) && calls[..a] == Calls(c, endpoint, es, i)
    ensures |Calls(c, endpoint, es, i + 1)| == |Calls(c, endpoint, es, i)| + 1
  {
    CallsPrefix(c, endpoint, es, i, n);
    CallsPrefix(c, endpoint, es, i + 1, n);
  }

  /** The step `k` takes the guard with a reading at or after `expiry`. */
  ghost predicate ReadsLate(c: Config, endpoint: KeyBytes, e: JointEvent, expiry: nat) {
    ReachesGuard(c, endpoint, e) && e.at >= expiry
  }

  /** Each call was made by a step. */
  lemma {:induction false} StepOfCall(c: Config, endpoint: KeyBytes, es: seq<JointEvent>, n: nat, a: nat) returns (k: nat)
    requires n <= |es| && a < |Calls(c, endpoint, es, n)|
    ensures k < n && ReachesGuard(c, endpoint, es[k]) && |Calls(c, endpoint, es, k)| == a
    ensures Calls(c, endpoint, es, n)[a] == CallOf(es[k])
  {
    if a < |Calls(c, endpoint, es, n - 1)| {
      k := StepOfCall(c, endpoint, es, n - 1, a);
    } else {
      k := n - 1;
    }
  }

  lemma {:induction false} CallsGrow(c: Config, endpoint: KeyBytes, es: seq<JointEvent>, i: nat, n: nat)
    requires i <= n <= |es|
    ensures |Calls(c, endpoint, es, i)| <= |Calls(c, endpoint, es, n)|
  {
    CallsPrefix(c, endpoint, es, i, n);
  }

  lemma SecondCall(c: Config, endpoint: KeyBytes, js: seq<Joint>, es: seq<JointEvent>, i: nat, j: nat) returns (k: nat)
    requires IsJointRun(c, endpoint, js, es) && i < j < |es|
    requires ReachesGuard(c, endpoint, es[i]) && ReachesGuard(c, endpoint, es[j]) && CallOf(es[i]).nonce == CallOf(es[j]).nonce
    requires R.Admits(R.SeenAfter(Calls(c, endpoint, es, i)), CallOf(es[i]).nonce, es[i].at)
    requires R.Admits(R.SeenAfter(Calls(c, endpoint, es, j)), CallOf(es[j]).nonce, es[j].at)
    ensures i < k <= j && ReadsLate(c, endpoint, es[k], CallOf(es[j]).expiresAt)
  {
    var n := j + 1;
    var calls := Calls(c, endpoint, es, n);
    CallAt(c, endpoint, es, i, n);
    CallAt(c, endpoint, es, j, n);
    CallsGrow(c, endpoint, es, i + 1, j);
    CallsOneExpiry(c, endpoint, js, es, n);
    var a, b := |Calls(c, endpoint, es, i)|, |Calls(c, endpoint, es, j)|;
    var late := R.AdmittedOnce(calls, a, b);
    k := StepOfCall(c, endpoint, es, n, late);
    if k <= i { CallsGrow(c, endpoint, es, k, i); }
  }

  /** An accepted request got to the guard in time and was admitted there. */
  lemma AcceptedIsAdmitted(c: Config, endpoint: KeyBytes, js: seq<Joint>, es: seq<JointEvent>, i: nat)
    requires IsJointRun(c, endpoint, js, es) && i < |es| && es[i].Present? && Decision(c, endpoint, js[i], es[i]).Ok?
    ensures ReachesGuard(c, endpoint, es[i]) && Decision(c, endpoint, js[i], es[i]).value.claims == es[i].s.payload.claims
    ensures R.Admits(R.SeenAfter(Calls(c, endpoint, es, i)), CallOf(es[i]).nonce, es[i].at)
    ensures es[i].at <= CallOf(es[i]).expiresAt
  {
    assert JointStepsAt(c, endpoint, js, es, i);
    GuardStep(c, endpoint, js[i], es[i], js[i + 1]);
    GuardIsReplay(c, endpoint, js, es, i);
    RunIncomingOk(c, endpoint, js, es, i);
    AcceptedIsSigned(c, endpoint, js[i], es[i], js[i + 1]);
  }

  /** No request from `i` to `j` takes the guard with a later clock reading than the one at `j`. */
  ghost predicate NotOvertaken(es: seq<JointEvent>, i: nat, j: nat)
    requires i < j < |es| && es[j].Present?
  {
    forall k :: i < k < j && es[k].Present? ==> es[k].at <= es[j].at
  }

  /** One use. However the daemon's tasks interleave, between two acceptances of one grant some
      request takes the guard with a clock reading at or after the grant's expiry. Unless that is
      a request that overtook the second one, the second one is at the grant's very last second. */
  lemma AcceptedOnce(c: Config, endpoint: KeyBytes, js: seq<Joint>, es: seq<JointEvent>, i: nat, j: nat) returns (k: nat)
    requires IsJointRun(c, endpoint, js, es) && i < j < |es|
    requires es[i].Present? && Decision(c, endpoint, js[i], es[i]).Ok?
    requires es[j].Present? && Decision(c, endpoint, js[j], es[j]).Ok?
    requires Decision(c, endpoint, js[i], es[i]).value.claims.nonce == Decision(c, endpoint, js[j], es[j]).value.claims.nonce
    ensures i < k <= j && ReadsLate(c, endpoint, es[k], Decision(c, endpoint, js[j], es[j]).value.claims.expiresAt)
    ensures NotOvertaken(es, i, j) ==> es[j].at == Decision(c, endpoint, js[j], es[j]).value.claims.expiresAt
  {
    AcceptedIsAdmitted(c, endpoint, js, es, i);
    AcceptedIsAdmitted(c, endpoint, js, es, j);
    k := SecondCall(c, endpoint, js, es, i, j);
  }
}

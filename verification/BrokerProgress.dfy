/** A broker's grant, from the request to the session: in every state of every run, a machine whose
    request is what it has to be has it planned, and its issue then opens the session. */
module BrokerProgress {
  import opened Text
  import opened State
  import opened Statements
  import opened Capability
  import opened Access
  import opened ControlPlane
  import opened Runs
  import Entitlement
  import Reachable

  /** What the server's key signs for a planned request. */
  function PlanFor(machine: Machine, body: GrantBody): PlanClaims {
    PlanClaims(body.schemaVersion, machine.credential, body.requestId, body.service, body.resource, body.requester,
               body.requestExpiresAt, body.expiresAt)
  }

  /** A request that a machine may have planned and issued at this moment. */
  ghost predicate Ready(c: Config, w: World, machine: Machine, body: GrantBody, id: ResourceId) {
    && machine in w.machines && machine.credential in w.t.credentials && "service_grants:issue" in machine.scopes
    && Entitlement.Grantable(c.lib, w.t, machine, body, w.now, id) && GrantProofsUnforgeable(c.lib, w, machine, body)
    && |Entitlement.LiveGrants(w.t, machine.credential, w.now)| < 32
    && forall k :: LiveSession(w.t, k, w.now) ==> w.t.sessions[k].request != Some(body.requestId)
  }

  lemma PlanStep(c: Config, ws: seq<World>, es: seq<Event>, w: World, machine: Machine, body: GrantBody, id: ResourceId)
    returns (xs: seq<World>, fs: seq<Event>)
    requires ArrivesAt(c, ws, es, w) && Ready(c, w, machine, body, id)
    ensures ArrivesAt(c, xs, fs, w.(serverLog := w.serverLog + {GrantPlan(PlanFor(machine, body))}))
  {
    Entitlement.PlanExact(c.lib, w.t, machine, body, w.now, PlanFor(machine, body));
    xs, fs := Extend(c, ws, es, w, Quiet(PlanningGrant(machine, body, w.now, Ok(PlanFor(machine, body)))));
  }

  /** The session that an issued request opens. */
  function Issued(machine: Machine, body: GrantBody, id: ResourceId): Session {
    Session(machine.account, id, body.requester, body.expiresAt, Some(machine.credential), Some(body.requestId))
  }

  lemma IssueStep(c: Config, ws: seq<World>, es: seq<Event>, w: World, machine: Machine, body: GrantBody, id: ResourceId,
                  approved: Signed, hash: TokenHash)
    returns (xs: seq<World>, fs: seq<Event>, u: World)
    requires ArrivesAt(c, ws, es, w) && Ready(c, w, machine, body, id) && hash !in w.hashes
    requires Entitlement.Planned(c.lib, machine, body, approved) && approved.payload in w.serverLog
    ensures ArrivesAt(c, xs, fs, u) && hash in u.t.sessions && u.t.sessions[hash] == Issued(machine, body, id)
  {
    RunIsTrace(c, ws, es);
    Reachable.TraceInv(ws, es, |es|);
    Entitlement.CheckExact(c.lib, w.t, machine, body, Some(approved), w.now, id);
    Entitlement.InsertExact(w.t, machine, body, id, hash, w.now, hash);
    var e := Tunnel(IssuingGrant(machine, body, approved, hash, w.now, Ok(id)));
    xs, fs := Extend(c, ws, es, w, e);
    u := Apply(w, e);
  }

  /** From every state of every run, a machine with a request that is what it has to be comes to a
      session for its requester: the request is planned, and issued with the plan the server signed. */
  lemma BrokeredRequesterIsServed(c: Config, ws: seq<World>, es: seq<Event>, w: World, machine: Machine, body: GrantBody,
                                  id: ResourceId, signature: ByteString, hash: TokenHash)
    returns (xs: seq<World>, fs: seq<Event>, u: World)
    requires ArrivesAt(c, ws, es, w) && Ready(c, w, machine, body, id) && hash !in w.hashes
    requires |signature| == 64 && c.lib.serverKey(GrantPlan(PlanFor(machine, body)), signature)
    ensures ArrivesAt(c, xs, fs, u) && hash in u.t.sessions && u.t.sessions[hash] == Issued(machine, body, id)
  {
    var approved := Signed(GrantPlan(PlanFor(machine, body)), signature);
    xs, fs := PlanStep(c, ws, es, w, machine, body, id);
    xs, fs, u := IssueStep(c, xs, fs, w.(serverLog := w.serverLog + {approved.payload}), machine, body, id, approved, hash);
  }
}

/** What every reachable state of the control plane satisfies, and what follows for access
    decisions and for plans. */
module Reachable {
  import opened Text
  import opened State
  import opened Sharing
  import opened Requests
  import opened ControlPlane
  import Plan

  // -- the sharing invariant -------------------------------------------------------------------

  lemma ShareKeepsInv(w: World, s: ShareEvent)
    requires Inv(w.t) && w.t.resources.Keys <= w.resourceIds && Draws(w, Share(s)) && ShareSound(w.t, s)
    ensures Inv(ShareAfter(w.t, s))
  {
    match s {
      case SigningIn(account) => SignInKeepsInv(w.t, account);
      case ClaimingHandle(account, _, handle) =>
        if handle.Some? { ClaimHandleKeepsInv(w.t, account, handle.value); }
      case PuttingResource(owner, _, id, prepared) =>
        if prepared.Ok? { PutPreparedKeepsInv(w.t, owner, prepared.value, id); }
      case PuttingShares(_, id, _, targets) =>
        if targets.Ok? { SetSharesKeepsInv(w.t, id, AccountSet(targets.value)); }
      case Dropping(owner, id) => DeleteKeepsInv(w.t, owner, id);
      case Accepting(viewer, id) => AcceptKeepsInv(w.t, (id, viewer));
      case Declining(viewer, id) => DeclineKeepsInv(w.t, (id, viewer));
    }
  }

  lemma PutPreparedKeepsInv(t: Tables, owner: AccountId, p: Prepared, id: ResourceId)
    requires Inv(t) && owner in t.accounts && id !in t.resources && PreparedOk(t, owner, p)
    ensures Inv(PutPrepared(t, owner, p, id).0)
  {
    InvFresh(t, id);
    PutKeepsInv(t, owner, p.name, p.kind, p.visibility, p.url, p.folder, AccountSet(p.viewers), id);
  }

  lemma StepKeepsInv(w: World, e: Event, u: World)
    requires Inv(w.t) && w.t.resources.Keys <= w.resourceIds && Moves(w, e, u)
    ensures Inv(u.t)
  {
    match e {
      case Share(s) => ShareKeepsInv(w, s);
      case Tunnel(v) =>
        TunnelFrame(w.t, v);
        InvFrame(w.t, u.t);
      case Enrol(m) =>
        MachineFrame(w.t, m);
        InvFrame(w.t, u.t);
      case Quiet(_) =>
    }
  }

  // -- drawn ids -----------------------------------------------------------------------------------

  /** Everything in the tables was drawn at some time. */
  ghost predicate Known(w: World) {
    && w.t.resources.Keys <= w.resourceIds
    && w.t.tickets.Keys <= w.hashes
    && w.t.sessions.Keys <= w.hashes
    && w.t.credentials.Keys <= w.credentialIds
    && forall id :: id in w.t.credentials ==> w.t.credentials[id].tokenHash in w.hashes
  }

  lemma DrawnGrow(w: World, e: Event, u: World)
    requires Moves(w, e, u)
    ensures w.resourceIds <= u.resourceIds && w.hashes <= u.hashes && w.credentialIds <= u.credentialIds
    ensures w.serverLog <= u.serverLog && w.endpointLog <= u.endpointLog && w.now <= u.now
    ensures e.Tunnel? && !e.tunnel.EndingSession? ==> HashesDrawn(e) <= u.hashes
  {
  }

  lemma PutIds(t: Tables, owner: AccountId, p: Prepared, id: ResourceId)
    ensures PutPrepared(t, owner, p, id).0.resources.Keys <= t.resources.Keys + {id}
  {
    CreateIds(t, owner, p.name, p.kind, p.visibility, p.url, p.folder, id);
    PutAfterCreate(t, owner, p.name, p.kind, p.visibility, p.url, p.folder, AccountSet(p.viewers), id);
  }

  /** Resources are only ever added by the owner, under a fresh id. */
  lemma ResourcesFrame(t: Tables, s: ShareEvent)
    ensures ShareAfter(t, s).resources.Keys <= t.resources.Keys + if s.PuttingResource? then {s.newId} else {}
  {
    match s {
      case SigningIn(_) =>
      case ClaimingHandle(_, _, _) =>
      case PuttingResource(owner, _, id, prepared) => if prepared.Ok? { PutIds(t, owner, prepared.value, id); }
      case PuttingShares(_, _, _, _) =>
      case Dropping(_, _) =>
      case Accepting(_, _) =>
      case Declining(_, _) =>
    }
  }

  lemma ResourcesKnown(w: World, e: Event, u: World)
    requires Known(w) && Moves(w, e, u)
    ensures u.t.resources.Keys <= u.resourceIds
  {
    match e {
      case Share(s) => ResourcesFrame(w.t, s);
      case Tunnel(v) => TunnelFrame(w.t, v);
      case Enrol(m) => MachineFrame(w.t, m);
      case Quiet(_) =>
    }
  }

  lemma TunnelsKnown(w: World, e: Event, u: World)
    requires Known(w) && Moves(w, e, u)
    ensures u.t.tickets.Keys <= u.hashes && u.t.sessions.Keys <= u.hashes
  {
    DrawnGrow(w, e, u);
    forall h | h in u.t.tickets ensures h in u.hashes { TicketFrame(w.t, e, h); }
    forall h | h in u.t.sessions ensures h in u.hashes { SessionFrame(w.t, e, h); }
  }

  /** A credential is kept, rotated, or new. */
  lemma CredentialsFrame(t: Tables, m: MachineEvent, id: CredentialId)
    requires id in MachineAfter(t, m).credentials
    ensures var r := MachineAfter(t, m).credentials[id];
            || (id in t.credentials && r == t.credentials[id])
            || (m.AddingCredential? && id == m.credential && r == Credential(m.account, m.hash, None, m.scopes))
            || (m.Enrolling? && id == m.credential && CanEnroll(t, id, m.account, m.hash, m.endpoint)
                && r == t.credentials[id].(tokenHash := m.next, endpoint := Some(m.endpoint)))
  {
  }

  lemma CredentialsKnown(w: World, e: Event, u: World)
    requires Known(w) && Moves(w, e, u)
    ensures u.t.credentials.Keys <= u.credentialIds
    ensures forall id :: id in u.t.credentials ==> u.t.credentials[id].tokenHash in u.hashes
  {
    match e {
      case Share(s) => ShareFrame(w.t, s);
      case Tunnel(v) => TunnelFrame(w.t, v);
      case Enrol(m) =>
        forall id | id in u.t.credentials ensures id in u.credentialIds && u.t.credentials[id].tokenHash in u.hashes {
          CredentialsFrame(w.t, m, id);
        }
      case Quiet(_) =>
    }
  }

  lemma {:induction false} TraceInv(ws: seq<World>, es: seq<Event>, i: nat)
    requires IsTrace(ws, es) && i < |ws|
    ensures Inv(ws[i].t) && Known(ws[i])
  {
    if i > 0 {
      TraceInv(ws, es, i - 1);
      assert MovesAt(ws, es, i - 1);
      StepKeepsInv(ws[i - 1], es[i - 1], ws[i]);
      ResourcesKnown(ws[i - 1], es[i - 1], ws[i]);
      TunnelsKnown(ws[i - 1], es[i - 1], ws[i]);
      CredentialsKnown(ws[i - 1], es[i - 1], ws[i]);
    }
  }

  // -- consequences ----------------------------------------------------------------------------------

  /** In every reachable state the policy, the list of accessible services and the daemon's
      snapshot agree on every service and account. */
  lemma AccessAgrees(c: Config, ws: seq<World>, es: seq<Event>, i: nat, viewer: AccountId, id: ResourceId)
    requires IsRun(c, ws, es) && i < |ws|
    requires id in ws[i].t.resources && ws[i].t.resources[id].kind == Service
    ensures var t := ws[i].t;
            && (Sees(t, viewer, id) <==> id in AccessibleServices(t, viewer))
            && (Sees(t, viewer, id) <==> (viewer, id) in ServiceAuthorizations(t, t.resources[id].owner))
  {
    RunIsTrace(c, ws, es);
    TraceInv(ws, es, i);
    ThreeWayAgreement(ws[i].t, viewer, id);
  }

  /** In every run, a request that is applied right after it was planned does what the plan
      says: it moves the accounts listed under each effect, those accounts only, and changes
      no table when the plan is `noop`. */
  lemma PlansPredictSteps(c: Config, ws: seq<World>, es: seq<Event>, i: nat, plan: Plan.ResourcePlan, v: AccountId, code: Plan.EffectCode)
    requires IsRun(c, ws, es) && i < |es| && es[i].Share? && es[i].share.PuttingResource? && es[i].share.prepared.Ok?
    requires Plan.IsPlanFor(ws[i].t, es[i].share.owner, es[i].share.prepared.value, plan) && HandleOf(ws[i].t, v).Some?
    ensures var s, t, u := es[i].share, ws[i].t, ws[i + 1].t;
            var id := PutPrepared(t, s.owner, s.prepared.value, s.newId).1;
            && (plan.operation == Plan.Noop <==> id in t.resources && u == t)
            && (Plan.ListedUnder(plan, code, HandleOf(t, v).value) <==> Plan.Announces(code, Status(t, (id, v)), Status(u, (id, v))))
  {
    RunIsTrace(c, ws, es);
    TraceInv(ws, es, i);
    assert MovesAt(ws, es, i);
    InvFresh(ws[i].t, es[i].share.newId);
    Plan.PlanExact(ws[i].t, es[i].share.owner, es[i].share.prepared.value, plan, es[i].share.newId, v, code);
  }
}

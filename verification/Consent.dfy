/** Consent over whole runs: nobody holds an accepted share that they did not themselves
    accept for the destination it has now. */
module Consent {
  import opened Text
  import opened State
  import opened Sharing
  import opened Requests
  import opened ControlPlane
  import opened Reachable

  // -- what takes a share away ------------------------------------------------------------------

  /** The resource a put goes to. */
  ghost function Target(t: Tables, s: ShareEvent): ResourceId
    requires s.PuttingResource? && s.prepared.Ok?
  {
    PutPrepared(t, s.owner, s.prepared.value, s.newId).1
  }

  /** The owner drops the resource, or names its recipients without this one. */
  ghost predicate Omits(t: Tables, s: ShareEvent, r: Recipient) {
    match s
    case Dropping(owner, id) => id == r.0 && id in t.resources && owner == t.resources[id].owner
    case PuttingShares(_, id, _, targets) => targets.Ok? && id == r.0 && r.1 !in targets.value
    case PuttingResource(_, _, _, prepared) => prepared.Ok? && Target(t, s) == r.0 && r.1 !in prepared.value.viewers
    case _ => false
  }

  /** The owner gives the resource another destination. */
  ghost predicate Repoints(t: Tables, s: ShareEvent, id: ResourceId) {
    s.PuttingResource? && s.prepared.Ok? && Target(t, s) == id && DestinationChanged(t, id, s.prepared.value.url)
  }

  ghost predicate Withdraws(t: Tables, s: ShareEvent, r: Recipient) {
    Omits(t, s, r) || Repoints(t, s, r.0) || s == Declining(r.1, r.0)
  }

  predicate IsOwnerEvent(s: ShareEvent) { s.PuttingResource? || s.PuttingShares? || s.Dropping? }

  /** The owner names this recipient. */
  ghost predicate Names(t: Tables, s: ShareEvent, r: Recipient) {
    match s
    case PuttingShares(_, id, _, targets) => targets.Ok? && id == r.0 && r.1 in targets.value
    case PuttingResource(_, _, _, prepared) => prepared.Ok? && Target(t, s) == r.0 && r.1 in prepared.value.viewers
    case _ => false
  }

  // -- one step -----------------------------------------------------------------------------------

  /** The whole life of a recipient: what one request makes of its status. */
  ghost function StatusAfter(t: Tables, s: ShareEvent, r: Recipient): Option<ShareStatus> {
    var status := Status(t, r);
    if Omits(t, s, r) then None
    else if Names(t, s, r) && status.None? then Some(Pending)
    else if Repoints(t, s, r.0) && status == Some(Accepted) then Some(Pending)
    else if s == Accepting(r.1, r.0) && status == Some(Pending) then Some(Accepted)
    else if s == Declining(r.1, r.0) && (status == Some(Pending) || status == Some(Accepted)) then Some(Declined)
    else status
  }

  ghost predicate SameUrl(t: Tables, u: Tables, id: ResourceId) {
    id in t.resources && id in u.resources && t.resources[id].url == u.resources[id].url
  }

  /** A request moves a recipient as `StatusAfter` says; one who is accepted afterwards looks
      at the same destination as before. */
  ghost predicate ConsentStep(t: Tables, s: ShareEvent, u: Tables, r: Recipient) {
    Status(u, r) == StatusAfter(t, s, r) && (Status(u, r) == Some(Accepted) ==> SameUrl(t, u, r.0))
  }

  lemma RecipientKnown(t: Tables, r: Recipient)
    requires Inv(t)
    ensures Status(t, r).Some? ==> r.0 in t.resources
  {
    assert Status(t, r).Some? ==> RecipientOk(t, r);
  }

  lemma PutConsent(t: Tables, s: ShareEvent, r: Recipient)
    requires Inv(t) && s.PuttingResource? && s.prepared.Ok? && s.newId !in t.resources
    ensures ConsentStep(t, s, ShareAfter(t, s), r)
  {
    var p := s.prepared.value;
    InvFresh(t, s.newId);
    PutStatus(t, s.owner, p.name, p.kind, p.visibility, p.url, p.folder, AccountSet(p.viewers), s.newId, r);
    RecipientKnown(t, r);
  }

  lemma SharesConsent(t: Tables, s: ShareEvent, r: Recipient)
    requires Inv(t) && s.PuttingShares? && s.targets.Ok?
    ensures ConsentStep(t, s, ShareAfter(t, s), r)
  {
    SetSharesStatus(t, s.id, AccountSet(s.targets.value), r);
    RecipientKnown(t, r);
  }

  lemma AcceptConsent(t: Tables, viewer: AccountId, id: ResourceId, r: Recipient)
    requires Inv(t)
    ensures ConsentStep(t, Accepting(viewer, id), AcceptShare(t, (id, viewer)), r)
  {
    AcceptStatus(t, (id, viewer), r);
    RecipientKnown(t, r);
  }

  lemma DeclineConsent(t: Tables, viewer: AccountId, id: ResourceId, r: Recipient)
    requires Inv(t)
    ensures ConsentStep(t, Declining(viewer, id), DeclineShare(t, (id, viewer)), r)
  {
    DeclineStatus(t, (id, viewer), r);
    RecipientKnown(t, r);
  }

  lemma DropConsent(t: Tables, owner: AccountId, id: ResourceId, r: Recipient)
    requires Inv(t)
    ensures ConsentStep(t, Dropping(owner, id), DeleteResource(t, owner, id), r)
  {
    DeleteStatus(t, owner, id, r);
    RecipientKnown(t, r);
  }

  /** A request that changes no resource and no recipient. */
  predicate IsIdle(s: ShareEvent) {
    s.SigningIn? || s.ClaimingHandle? || (s.PuttingResource? && s.prepared.Err?) || (s.PuttingShares? && s.targets.Err?)
  }

  lemma SameConsent(t: Tables, s: ShareEvent, u: Tables, r: Recipient)
    requires Inv(t) && IsIdle(s)
    requires u.resources == t.resources && u.shares == t.shares && u.invitations == t.invitations
    ensures ConsentStep(t, s, u, r)
  {
    RecipientKnown(t, r);
  }

  lemma IdleConsent(t: Tables, s: ShareEvent, r: Recipient)
    requires Inv(t) && IsIdle(s)
    ensures ConsentStep(t, s, ShareAfter(t, s), r)
  {
    SameConsent(t, s, ShareAfter(t, s), r);
  }

  lemma ViewerConsent(t: Tables, s: ShareEvent, r: Recipient)
    requires Inv(t) && (s.Accepting? || s.Declining?)
    ensures ConsentStep(t, s, ShareAfter(t, s), r)
  {
    if s.Accepting? {
      AcceptConsent(t, s.viewer, s.id, r);
    } else {
      DeclineConsent(t, s.viewer, s.id, r);
    }
  }

  lemma OwnerConsent(t: Tables, s: ShareEvent, r: Recipient)
    requires Inv(t) && IsOwnerEvent(s) && !IsIdle(s) && (s.PuttingResource? ==> s.newId !in t.resources)
    ensures ConsentStep(t, s, ShareAfter(t, s), r)
  {
    if s.PuttingResource? {
      PutConsent(t, s, r);
    } else if s.PuttingShares? {
      SharesConsent(t, s, r);
    } else {
      DropConsent(t, s.owner, s.id, r);
    }
  }

  lemma ShareConsent(t: Tables, s: ShareEvent, r: Recipient)
    requires Inv(t) && (s.PuttingResource? ==> s.newId !in t.resources)
    ensures ConsentStep(t, s, ShareAfter(t, s), r)
  {
    if IsIdle(s) {
      IdleConsent(t, s, r);
    } else if IsOwnerEvent(s) {
      OwnerConsent(t, s, r);
    } else {
      ViewerConsent(t, s, r);
    }
  }

  lemma OwnerStatus(t: Tables, s: ShareEvent, r: Recipient)
    requires IsOwnerEvent(s) && StatusAfter(t, s, r) == Some(Accepted)
    ensures r in t.shares
  {
  }

  /** No step of an owner gives anybody an accepted share. */
  lemma OwnersNeverAccept(t: Tables, s: ShareEvent, r: Recipient)
    requires Inv(t) && (s.PuttingResource? ==> s.newId !in t.resources)
    requires IsOwnerEvent(s) && r in ShareAfter(t, s).shares
    ensures r in t.shares
  {
    ShareConsent(t, s, r);
    OwnerStatus(t, s, r);
  }

  /** An accepted share stands until it is withdrawn, and a withdrawn one is gone. */
  lemma AcceptedUntilWithdrawn(t: Tables, s: ShareEvent, r: Recipient)
    requires Inv(t) && (s.PuttingResource? ==> s.newId !in t.resources) && r in t.shares
    ensures r in ShareAfter(t, s).shares <==> !Withdraws(t, s, r)
  {
    ShareConsent(t, s, r);
  }

  // -- runs ------------------------------------------------------------------------------------------

  ghost predicate WithdrawsAt(w: World, e: Event, r: Recipient) {
    e.Share? && Withdraws(w.t, e.share, r)
  }

  ghost predicate OmitsAt(w: World, e: Event, r: Recipient) {
    e.Share? && Omits(w.t, e.share, r)
  }

  /** `ConsentStep` for any step of the control plane. */
  ghost predicate ConsentMove(w: World, e: Event, u: World, r: Recipient) {
    && Status(u.t, r) == (if e.Share? then StatusAfter(w.t, e.share, r) else Status(w.t, r))
    && (Status(u.t, r) == Some(Accepted) ==> SameUrl(w.t, u.t, r.0))
  }

  lemma StepConsent(w: World, e: Event, u: World, r: Recipient)
    requires Inv(w.t) && Known(w) && Moves(w, e, u)
    ensures ConsentMove(w, e, u, r)
  {
    RecipientKnown(w.t, r);
    match e {
      case Share(s) => ShareConsent(w.t, s, r);
      case Tunnel(v) => TunnelFrame(w.t, v);
      case Enrol(m) => MachineFrame(w.t, m);
      case Quiet(_) =>
    }
  }

  lemma TraceStepConsent(ws: seq<World>, es: seq<Event>, i: nat, r: Recipient)
    requires IsTrace(ws, es) && i < |es|
    ensures ConsentMove(ws[i], es[i], ws[i + 1], r)
  {
    TraceInv(ws, es, i);
    assert MovesAt(ws, es, i);
    StepConsent(ws[i], es[i], ws[i + 1], r);
  }

  /** The share `r` was accepted by step `k` and has stood since, for one destination, with
      nothing in between that withdraws it. */
  ghost predicate AcceptedAt(ws: seq<World>, es: seq<Event>, n: nat, r: Recipient, k: nat)
    requires |ws| == |es| + 1 && n < |ws|
  {
    && k < n && es[k] == Share(Accepting(r.1, r.0)) && Status(ws[k].t, r) == Some(Pending)
    && (forall j :: k <= j <= n ==> SameUrl(ws[j].t, ws[n].t, r.0))
    && (forall j :: k < j <= n ==> r in ws[j].t.shares)
    && (forall j :: k < j < n ==> !WithdrawsAt(ws[j], es[j], r))
  }

  lemma AcceptedNow(ws: seq<World>, es: seq<Event>, n: nat, r: Recipient)
    requires |ws| == |es| + 1 && 0 < n < |ws| && r in ws[n].t.shares && SameUrl(ws[n - 1].t, ws[n].t, r.0)
    requires es[n - 1] == Share(Accepting(r.1, r.0)) && Status(ws[n - 1].t, r) == Some(Pending)
    ensures AcceptedAt(ws, es, n, r, n - 1)
  {
  }

  lemma AcceptedStill(ws: seq<World>, es: seq<Event>, n: nat, r: Recipient, k: nat)
    requires |ws| == |es| + 1 && 0 < n < |ws| && r in ws[n].t.shares && SameUrl(ws[n - 1].t, ws[n].t, r.0)
    requires !WithdrawsAt(ws[n - 1], es[n - 1], r) && AcceptedAt(ws, es, n - 1, r, k)
    ensures AcceptedAt(ws, es, n, r, k)
  {
  }

  lemma {:induction false} TraceConsent(ws: seq<World>, es: seq<Event>, n: nat, r: Recipient) returns (k: nat)
    requires IsTrace(ws, es) && n < |ws| && Status(ws[n].t, r) == Some(Accepted)
    ensures AcceptedAt(ws, es, n, r, k)
  {
    if n > 0 {
      TraceStepConsent(ws, es, n - 1, r);
      if Status(ws[n - 1].t, r) == Some(Accepted) {
        k := TraceConsent(ws, es, n - 1, r);
        AcceptedStill(ws, es, n, r, k);
      } else {
        k := n - 1;
        AcceptedNow(ws, es, n, r);
      }
    }
  }

  /** Consent. A viewer who is accepted on a resource accepted it themselves, after the last
      change of its destination, the last time its owner left them out, and their own last
      decline; and it still has the destination it had then. */
  lemma AcceptedByViewer(c: Config, ws: seq<World>, es: seq<Event>, n: nat, r: Recipient) returns (k: nat)
    requires IsRun(c, ws, es) && n < |ws| && r in ws[n].t.shares
    ensures AcceptedAt(ws, es, n, r, k)
  {
    RunIsTrace(c, ws, es);
    k := TraceConsent(ws, es, n, r);
  }

  /** A decline stands for as long as the owner keeps naming that viewer, whatever else the
      owner changes: where it has ended, a step in between left the viewer out. */
  lemma {:induction false} DeclineStands(ws: seq<World>, es: seq<Event>, i: nat, n: nat, r: Recipient) returns (j: nat)
    requires IsTrace(ws, es) && i <= n < |ws|
    requires Status(ws[i].t, r) == Some(Declined) && Status(ws[n].t, r) != Some(Declined)
    ensures i <= j < n && OmitsAt(ws[j], es[j], r)
  {
    TraceStepConsent(ws, es, n - 1, r);
    if Status(ws[n - 1].t, r) == Some(Declined) {
      j := n - 1;
    } else {
      j := DeclineStands(ws, es, i, n - 1, r);
    }
  }
}

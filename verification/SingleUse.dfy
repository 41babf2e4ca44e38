/** Tickets are used once, however requests interleave: a connection ticket leads to at most
    one session, and an enrolment ticket binds at most one endpoint for good. */
module SingleUse {
  import opened Text
  import opened State
  import opened ControlPlane
  import opened Reachable

  // -- connection tickets ----------------------------------------------------------------------

  /** A ticket that was drawn and is no longer there. */
  ghost predicate Spent(w: World, h: TokenHash) {
    h in w.hashes && h !in w.t.tickets
  }

  lemma StepKeepsSpent(w: World, e: Event, u: World, h: TokenHash)
    requires Moves(w, e, u) && Spent(w, h)
    ensures Spent(u, h)
  {
    DrawnGrow(w, e, u);
    if h in u.t.tickets { TicketFrame(w.t, e, h); }
  }

  lemma {:induction false} SpentStays(ws: seq<World>, es: seq<Event>, i: nat, j: nat, h: TokenHash)
    requires IsTrace(ws, es) && i <= j < |ws| && Spent(ws[i], h)
    ensures Spent(ws[j], h)
  {
    if i < j {
      SpentStays(ws, es, i, j - 1, h);
      assert MovesAt(ws, es, j - 1);
      StepKeepsSpent(ws[j - 1], es[j - 1], ws[j], h);
    }
  }

  /** A step that uses up the connection ticket `h`, whether or not it then opens a session. */
  ghost predicate Redeems(w: World, e: Event, h: TokenHash) {
    e.Tunnel? && e.tunnel.Redeeming? && e.tunnel.hash == h && CanConsume(w.t, h, e.tunnel.at)
  }

  lemma RedeemSpends(ws: seq<World>, es: seq<Event>, i: nat, h: TokenHash)
    requires IsTrace(ws, es) && i < |es| && Redeems(ws[i], es[i], h)
    ensures Spent(ws[i + 1], h)
  {
    assert MovesAt(ws, es, i);
    TraceInv(ws, es, i);
    DrawnGrow(ws[i], es[i], ws[i + 1]);
    var r := es[i].tunnel;
    RedeemFrame(ws[i].t, r.hash, r.client, r.session, r.at);
  }

  /** No two steps of a run use the same connection ticket. */
  lemma TicketUsedOnce(c: Config, ws: seq<World>, es: seq<Event>, i: nat, j: nat, h: TokenHash)
    requires IsRun(c, ws, es) && i < |es| && j < |es| && Redeems(ws[i], es[i], h) && Redeems(ws[j], es[j], h)
    ensures i == j
  {
    RunIsTrace(c, ws, es);
    if i < j {
      RedeemSpends(ws, es, i, h);
      SpentStays(ws, es, i + 1, j, h);
    } else if j < i {
      RedeemSpends(ws, es, j, h);
      SpentStays(ws, es, j + 1, i, h);
    }
  }

  // -- credentials --------------------------------------------------------------------------------

  /** No two credentials share a token, and no two share an endpoint. */
  ghost predicate Separate(t: Tables) {
    && (forall a, b :: a in t.credentials && b in t.credentials && t.credentials[a].tokenHash == t.credentials[b].tokenHash ==> a == b)
    && (forall a, b :: a in t.credentials && b in t.credentials && t.credentials[a].endpoint.Some? ==>
          (t.credentials[a].endpoint == t.credentials[b].endpoint ==> a == b))
  }

  lemma MachineKeepsSeparate(w: World, m: MachineEvent)
    requires Separate(w.t) && Known(w) && MachineDraws(w, m)
    ensures Separate(MachineAfter(w.t, m))
  {
    var u := MachineAfter(w.t, m);
    forall a, b | a in u.credentials && b in u.credentials
      ensures u.credentials[a].tokenHash == u.credentials[b].tokenHash ==> a == b
      ensures u.credentials[a].endpoint.Some? && u.credentials[a].endpoint == u.credentials[b].endpoint ==> a == b
    {
      CredentialsFrame(w.t, m, a);
      CredentialsFrame(w.t, m, b);
    }
  }

  lemma {:induction false} TraceSeparate(ws: seq<World>, es: seq<Event>, i: nat)
    requires IsTrace(ws, es) && i < |ws|
    ensures Separate(ws[i].t)
  {
    if i > 0 {
      TraceSeparate(ws, es, i - 1);
      TraceInv(ws, es, i - 1);
      assert MovesAt(ws, es, i - 1);
      StepKeepsSeparate(ws[i - 1], es[i - 1], ws[i]);
    }
  }

  lemma StepKeepsSeparate(w: World, e: Event, u: World)
    requires Separate(w.t) && Known(w) && Moves(w, e, u)
    ensures Separate(u.t)
  {
    match e {
      case Share(s) => ShareFrame(w.t, s);
      case Tunnel(v) => TunnelFrame(w.t, v);
      case Enrol(m) => MachineKeepsSeparate(w, m);
      case Quiet(_) =>
    }
  }

  /** In every reachable state no two credentials have the same endpoint id. */
  lemma EndpointsUnique(c: Config, ws: seq<World>, es: seq<Event>, i: nat, a: CredentialId, b: CredentialId)
    requires IsRun(c, ws, es) && i < |ws| && a in ws[i].t.credentials && b in ws[i].t.credentials
    requires ws[i].t.credentials[a].endpoint.Some? && ws[i].t.credentials[a].endpoint == ws[i].t.credentials[b].endpoint
    ensures a == b
  {
    RunIsTrace(c, ws, es);
    TraceSeparate(ws, es, i);
  }

  /** A bound endpoint never changes while its row lives. */
  ghost predicate Bound(w: World, id: CredentialId, endpoint: string) {
    id in w.credentialIds && (id in w.t.credentials ==> w.t.credentials[id].endpoint == Some(endpoint))
  }

  lemma StepKeepsBound(w: World, e: Event, u: World, id: CredentialId, endpoint: string)
    requires Moves(w, e, u) && Bound(w, id, endpoint)
    ensures Bound(u, id, endpoint)
  {
    DrawnGrow(w, e, u);
    match e {
      case Share(s) => ShareFrame(w.t, s);
      case Tunnel(v) => TunnelFrame(w.t, v);
      case Enrol(m) => if id in u.t.credentials { CredentialsFrame(w.t, m, id); }
      case Quiet(_) =>
    }
  }

  lemma {:induction false} BoundStays(ws: seq<World>, es: seq<Event>, i: nat, j: nat, id: CredentialId, endpoint: string)
    requires IsTrace(ws, es) && i <= j < |ws| && Bound(ws[i], id, endpoint)
    ensures Bound(ws[j], id, endpoint)
  {
    if i < j {
      BoundStays(ws, es, i, j - 1, id, endpoint);
      assert MovesAt(ws, es, j - 1);
      StepKeepsBound(ws[j - 1], es[j - 1], ws[j], id, endpoint);
    }
  }

  lemma EndpointFixed(c: Config, ws: seq<World>, es: seq<Event>, i: nat, j: nat, id: CredentialId)
    requires IsRun(c, ws, es) && i <= j < |ws| && id in ws[i].t.credentials && id in ws[j].t.credentials
    requires ws[i].t.credentials[id].endpoint.Some?
    ensures ws[j].t.credentials[id].endpoint == ws[i].t.credentials[id].endpoint
  {
    RunIsTrace(c, ws, es);
    TraceInv(ws, es, i);
    BoundStays(ws, es, i, j, id, ws[i].t.credentials[id].endpoint.value);
  }

  // -- enrolment tickets -----------------------------------------------------------------------------

  /** A step that binds an endpoint with the enrolment ticket `h`. */
  ghost predicate Binds(w: World, e: Event, h: TokenHash) {
    e.Enrol? && e.enrol.Enrolling? && e.enrol.hash == h
    && CanEnroll(w.t, e.enrol.credential, e.enrol.account, h, e.enrol.endpoint)
  }

  /** An enrolment ticket that was drawn and that is no credential's token any more. */
  ghost predicate Used(w: World, h: TokenHash) {
    h in w.hashes && forall id :: id in w.t.credentials ==> w.t.credentials[id].tokenHash != h
  }

  lemma StepKeepsUsed(w: World, e: Event, u: World, h: TokenHash)
    requires Moves(w, e, u) && Used(w, h)
    ensures Used(u, h)
  {
    DrawnGrow(w, e, u);
    match e {
      case Share(s) => ShareFrame(w.t, s);
      case Tunnel(v) => TunnelFrame(w.t, v);
      case Enrol(m) =>
        forall id | id in u.t.credentials ensures u.t.credentials[id].tokenHash != h { CredentialsFrame(w.t, m, id); }
      case Quiet(_) =>
    }
  }

  lemma {:induction false} UsedStays(ws: seq<World>, es: seq<Event>, i: nat, j: nat, h: TokenHash)
    requires IsTrace(ws, es) && i <= j < |ws| && Used(ws[i], h)
    ensures Used(ws[j], h)
  {
    if i < j {
      UsedStays(ws, es, i, j - 1, h);
      assert MovesAt(ws, es, j - 1);
      StepKeepsUsed(ws[j - 1], es[j - 1], ws[j], h);
    }
  }

  lemma BindingUses(ws: seq<World>, es: seq<Event>, i: nat, h: TokenHash)
    requires IsTrace(ws, es) && i < |es| && Binds(ws[i], es[i], h)
    ensures Used(ws[i + 1], h)
  {
    assert MovesAt(ws, es, i);
    TraceInv(ws, es, i);
    TraceSeparate(ws, es, i);
    DrawnGrow(ws[i], es[i], ws[i + 1]);
    var m := es[i].enrol;
    var u := ws[i + 1];
    forall id | id in u.t.credentials ensures u.t.credentials[id].tokenHash != h { CredentialsFrame(ws[i].t, m, id); }
  }

  /** Enrolment rotates the token: from then on the ticket authenticates no request. */
  lemma TicketNeverAuthenticates(c: Config, ws: seq<World>, es: seq<Event>, i: nat, j: nat, h: TokenHash, id: CredentialId)
    requires IsRun(c, ws, es) && i < |es| && Binds(ws[i], es[i], h) && i < j < |ws|
    ensures !Authenticates(ws[j].t, h, id)
  {
    RunIsTrace(c, ws, es);
    BindingUses(ws, es, i, h);
    UsedStays(ws, es, i + 1, j, h);
  }

  /** The look-up of an enrolment ticket and the binding take the lock separately; still no
      ticket binds twice. */
  lemma EnrolmentBindsOnce(c: Config, ws: seq<World>, es: seq<Event>, i: nat, j: nat, h: TokenHash)
    requires IsRun(c, ws, es) && i < |es| && j < |es| && Binds(ws[i], es[i], h) && Binds(ws[j], es[j], h)
    ensures i == j
  {
    RunIsTrace(c, ws, es);
    if i < j {
      BindingUses(ws, es, i, h);
      UsedStays(ws, es, i + 1, j, h);
    } else if j < i {
      BindingUses(ws, es, j, h);
      UsedStays(ws, es, j + 1, i, h);
    }
  }
}

/** Where tunnel sessions come from when no broker is involved, and how long tickets and
    sessions last. */
module Sessions {
  import opened Text
  import opened State
  import opened Statements
  import opened Endpoints
  import opened Access
  import opened ControlPlane
  import opened Reachable
  import Brokered
  import Entitlement
  import Machines

  // -- a session starts with a ticket ------------------------------------------------------------

  ghost predicate TakenAt(ws: seq<World>, es: seq<Event>, k: nat, h: TokenHash, ticket: Ticket) {
    && k < |es| && k < |ws| && es[k].Tunnel? && es[k].tunnel.TakingTicket?
    && es[k].tunnel.hash == h && ticket == Ticket(es[k].tunnel.viewer, es[k].tunnel.id, es[k].tunnel.at + TICKET_LIFETIME)
    && Reaches(ws[k].t, ticket.viewer, ticket.resource)
  }

  lemma TakenNow(t: Tables, u: TunnelEvent, h: TokenHash)
    requires u.TakingTicket? && h == u.hash && h !in t.tickets && h in TunnelAfter(t, u).tickets
    ensures Reaches(t, u.viewer, u.id) && TunnelAfter(t, u).tickets[h] == Ticket(u.viewer, u.id, u.at + TICKET_LIFETIME)
  {
  }

  /** Every connection ticket was taken by a viewer who could reach the service, for two
      minutes. */
  lemma {:induction false} TicketOrigin(ws: seq<World>, es: seq<Event>, n: nat, h: TokenHash) returns (k: nat)
    requires IsTrace(ws, es) && n < |ws| && h in ws[n].t.tickets
    ensures k < n && TakenAt(ws, es, k, h, ws[n].t.tickets[h])
  {
    assert n > 0;
    assert MovesAt(ws, es, n - 1);
    TicketFrame(ws[n - 1].t, es[n - 1], h);
    if h in ws[n - 1].t.tickets && ws[n].t.tickets[h] == ws[n - 1].t.tickets[h] {
      k := TicketOrigin(ws, es, n - 1, h);
    } else {
      TraceInv(ws, es, n - 1);
      TakenNow(ws[n - 1].t, es[n - 1].tunnel, h);
      k := n - 1;
    }
  }

  /** A step that turns the ticket `hash` into the session `s`, while its holder can reach the
      service. */
  ghost predicate Opens(t: Tables, u: TunnelEvent, s: Session) {
    && u.Redeeming? && CanConsume(t, u.hash, u.at)
    && Reaches(t, s.viewer, s.resource)
    && s == TicketSession(t.tickets[u.hash], u.client, u.at)
  }

  lemma RedeemOpens(t: Tables, u: TunnelEvent, h: TokenHash, s: Session)
    requires SessionComesFrom(t, u, h, s) && s.issuer.None?
    ensures Opens(t, u, s)
  {
  }

  /** A session that no broker issued: its viewer took a ticket while able to reach the
      service, and redeemed it within two minutes, still able to; it is bound to the key that
      was then presented, and lasts eight hours from then. */
  lemma SessionStartsWithTicket(c: Config, ws: seq<World>, es: seq<Event>, n: nat, h: TokenHash)
    returns (take: nat, redeem: nat)
    requires IsRun(c, ws, es) && n < |ws| && h in ws[n].t.sessions && ws[n].t.sessions[h].issuer.None?
    ensures take < redeem < n && es[redeem].Tunnel? && Opens(ws[redeem].t, es[redeem].tunnel, ws[n].t.sessions[h])
    ensures TakenAt(ws, es, take, es[redeem].tunnel.hash, ws[redeem].t.tickets[es[redeem].tunnel.hash])
    ensures es[redeem].tunnel.at < es[take].tunnel.at + 120
    ensures ParseEndpoint(ws[n].t.sessions[h].client) == Some(es[redeem].tunnel.client)
  {
    RunIsTrace(c, ws, es);
    var s := ws[n].t.sessions[h];
    redeem := Brokered.SessionOrigin(ws, es, n, h, s);
    RedeemOpens(ws[redeem].t, es[redeem].tunnel, h, s);
    ParseHexLower(es[redeem].tunnel.client);
    take := TicketOrigin(ws, es, redeem, es[redeem].tunnel.hash);
  }

  // -- nothing is lost early -----------------------------------------------------------------------

  /** The events that end a session before its time. */
  ghost predicate Ends(t: Tables, e: Event, h: TokenHash)
    requires h in t.sessions
  {
    match e
    case Share(s) => s.Dropping? && s.id == t.sessions[h].resource && s.id in t.resources && s.owner == t.resources[s.id].owner
    case Tunnel(u) => u.EndingSession? && u.hash == h
    case Enrol(m) => m.Revoking? && t.sessions[h].issuer == Some(m.credential) && m.credential in t.credentials
                     && m.account == t.credentials[m.credential].account
    case Quiet(_) => false
  }

  ghost predicate SameSession(t: Tables, u: Tables, h: TokenHash)
    requires h in t.sessions
  {
    h in u.sessions && u.sessions[h] == t.sessions[h]
  }

  lemma PutKeepsSessions(t: Tables, s: ShareEvent)
    requires s.PuttingResource?
    ensures ShareAfter(t, s).sessions == t.sessions
  {
    if s.prepared.Ok? { PutSameSessions(t, s.owner, s.prepared.value, s.newId); }
  }

  lemma ShareKeepsSession(t: Tables, s: ShareEvent, h: TokenHash)
    requires h in t.sessions
    ensures SameSession(t, ShareAfter(t, s), h) <==> !Ends(t, Share(s), h)
  {
    if s.PuttingResource? { PutKeepsSessions(t, s); }
  }

  lemma RedeemKeepsSession(t: Tables, hash: TokenHash, client: KeyBytes, session: TokenHash, now: nat, h: TokenHash)
    requires h in t.sessions && t.sessions[h].expiresAt > now && session != h
    ensures SameSession(t, Redeem(t, hash, client, session, now).1, h)
  {
  }

  lemma InsertKeepsSession(t: Tables, machine: Machine, body: GrantBody, id: ResourceId, hash: TokenHash, now: nat, h: TokenHash)
    requires h in t.sessions && t.sessions[h].expiresAt > now && hash != h
    ensures SameSession(t, InsertGrant(t, machine, body, id, hash, now).1, h)
  {
    var s := BrokeredSession(machine, body, id);
    assert InsertGrant(t, machine, body, id, hash, now).1 == CreateBrokerSession(t, hash, s, now);
  }

  lemma TunnelKeepsSession(w: World, u: TunnelEvent, h: TokenHash)
    requires h in w.t.sessions && w.t.sessions[h].expiresAt > w.now && TunnelDraws(w, u) && w.t.sessions.Keys <= w.hashes
    ensures SameSession(w.t, TunnelAfter(w.t, u), h) <==> !Ends(w.t, Tunnel(u), h)
  {
    match u {
      case TakingTicket(_, _, _, _) =>
      case Redeeming(hash, client, session, at) => RedeemKeepsSession(w.t, hash, client, session, at, h);
      case EndingSession(_) =>
      case IssuingGrant(machine, body, _, hash, at, passed) =>
        if passed.Ok? { InsertKeepsSession(w.t, machine, body, passed.value, hash, at, h); }
    }
  }

  lemma MachineKeepsSession(t: Tables, m: MachineEvent, h: TokenHash)
    requires h in t.sessions
    ensures SameSession(t, MachineAfter(t, m), h) <==> !Ends(t, Enrol(m), h)
  {
  }

  /** A live session outlasts every step but the one that ends it: its own end, the deletion
      of its resource by the owner, or the revocation of the credential that issued it. */
  lemma SessionLasts(c: Config, ws: seq<World>, es: seq<Event>, i: nat, h: TokenHash)
    requires IsRun(c, ws, es) && i < |es| && LiveSession(ws[i].t, h, ws[i].now)
    ensures SameSession(ws[i].t, ws[i + 1].t, h) <==> !Ends(ws[i].t, es[i], h)
  {
    RunIsTrace(c, ws, es);
    TraceInv(ws, es, i);
    assert MovesAt(ws, es, i);
    match es[i] {
      case Share(s) => ShareKeepsSession(ws[i].t, s, h);
      case Tunnel(u) => TunnelKeepsSession(ws[i], u, h);
      case Enrol(m) => MachineKeepsSession(ws[i].t, m, h);
      case Quiet(_) =>
    }
  }

  /** The events that take a ticket away before its time. */
  ghost predicate TakesAway(t: Tables, e: Event, h: TokenHash)
    requires h in t.tickets
  {
    match e
    case Share(s) => s.Dropping? && s.id == t.tickets[h].resource && s.id in t.resources && s.owner == t.resources[s.id].owner
    case Tunnel(u) => u.Redeeming? && u.hash == h && CanConsume(t, h, u.at)
    case _ => false
  }

  ghost predicate SameTicket(t: Tables, u: Tables, h: TokenHash)
    requires h in t.tickets
  {
    h in u.tickets && u.tickets[h] == t.tickets[h]
  }

  lemma ShareKeepsTicket(t: Tables, s: ShareEvent, h: TokenHash)
    requires h in t.tickets
    ensures SameTicket(t, ShareAfter(t, s), h) <==> !TakesAway(t, Share(s), h)
  {
    if s.PuttingResource? && s.prepared.Ok? { PutSameTickets(t, s.owner, s.prepared.value, s.newId); }
  }

  lemma TunnelKeepsTicket(w: World, u: TunnelEvent, h: TokenHash)
    requires h in w.t.tickets && w.t.tickets[h].expiresAt > w.now && TunnelDraws(w, u) && w.t.tickets.Keys <= w.hashes
    ensures SameTicket(w.t, TunnelAfter(w.t, u), h) <==> !TakesAway(w.t, Tunnel(u), h)
  {
    match u {
      case TakingTicket(_, _, _, _) =>
      case Redeeming(hash, client, session, at) => RedeemFrame(w.t, hash, client, session, at);
      case EndingSession(_) =>
      case IssuingGrant(machine, body, _, hash, at, passed) =>
        if passed.Ok? { InsertFrame(w.t, machine, body, passed.value, hash, at); }
    }
  }

  /** An unexpired ticket waits until it is redeemed, or its resource is deleted. */
  lemma TicketLasts(c: Config, ws: seq<World>, es: seq<Event>, i: nat, h: TokenHash)
    requires IsRun(c, ws, es) && i < |es| && h in ws[i].t.tickets && ws[i].t.tickets[h].expiresAt > ws[i].now
    ensures SameTicket(ws[i].t, ws[i + 1].t, h) <==> !TakesAway(ws[i].t, es[i], h)
  {
    RunIsTrace(c, ws, es);
    TraceInv(ws, es, i);
    assert MovesAt(ws, es, i);
    match es[i] {
      case Share(s) => ShareKeepsTicket(ws[i].t, s, h);
      case Tunnel(u) => TunnelKeepsTicket(ws[i], u, h);
      case Enrol(m) => MachineFrame(ws[i].t, m);
      case Quiet(_) =>
    }
  }

  // -- who connects --------------------------------------------------------------------------------------

  /** Every session names a client key, and every registration a daemon's. */
  lemma KeysParse(c: Config, ws: seq<World>, es: seq<Event>, n: nat, h: TokenHash, owner: AccountId)
    requires IsRun(c, ws, es) && n < |ws|
    ensures h in ws[n].t.sessions ==> ParseEndpoint(ws[n].t.sessions[h].client).Some?
    ensures owner in ws[n].t.daemons ==> ParseEndpoint(ws[n].t.daemons[owner]).Some?
  {
    if h in ws[n].t.sessions {
      if ws[n].t.sessions[h].issuer.None? {
        var take, redeem := SessionStartsWithTicket(c, ws, es, n, h);
      } else {
        var issue, plan := Brokered.BrokeredOrigin(c, ws, es, n, h);
      }
    }
    if owner in ws[n].t.daemons { var register, read := Machines.RegistrationOrigin(c, ws, es, n, owner); }
  }

  /** In every reachable state, the holder of a session is given a grant exactly while the session
      is live, its service is accessible to its viewer, and the owner's daemon is registered. */
  lemma ConnectsExactly(c: Config, ws: seq<World>, es: seq<Event>, n: nat, h: TokenHash, now: nat)
    requires IsRun(c, ws, es) && n < |ws| && h in ws[n].t.sessions
    ensures var t := ws[n].t;
            var s := t.sessions[h];
            Entitlement.Connects(t, h, now) <==>
              && s.expiresAt > now && s.resource in AccessibleServices(t, s.viewer)
              && t.resources[s.resource].owner in t.daemons
  {
    var s := ws[n].t.sessions[h];
    KeysParse(c, ws, es, n, h, if s.resource in ws[n].t.resources then ws[n].t.resources[s.resource].owner else s.viewer);
  }
}

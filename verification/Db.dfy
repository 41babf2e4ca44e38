/** The database handle: its tables are updated in place, statement by statement, and every
    call is proved to do to the whole state what `State` says it does. */
module Database {
  import opened Text
  import opened State

  class Db {
    var accounts: map<AccountId, Option<string>>
    var resources: map<ResourceId, Resource>
    var shares: set<Recipient>
    var invitations: map<Recipient, InvitationStatus>
    var tickets: map<TokenHash, Ticket>
    var sessions: map<TokenHash, Session>
    var credentials: map<CredentialId, Credential>
    var daemons: map<AccountId, string>

    function View(): Tables
      reads this
    {
      Tables(accounts, resources, shares, invitations, tickets, sessions, credentials, daemons)
    }

    constructor ()
      ensures View() == EMPTY
    {
      accounts, resources, shares, invitations := map[], map[], {}, map[];
      tickets, sessions, credentials, daemons := map[], map[], map[], map[];
    }

    // -- resources and shares ----------------------------------------------------------------

    /** Create a resource, or update the one that already has this owner, name and kind. When
        several rows match, the one the query returns is updated. */
    method CreateResource(
      owner: AccountId, name: string, kind: ResourceKind, visibility: Visibility,
      url: Option<string>, folder: Option<string>, newId: ResourceId) returns (id: ResourceId)
      modifies this`resources, this`shares, this`invitations
      ensures UniqueKeys(old(View())) ==>
                (View(), id) == State.CreateResource(old(View()), owner, name, kind, visibility, url, folder, newId)
    {
      ghost var before := View();
      if existing :| existing in resources && Matches(resources[existing], owner, name, kind) {
        id := existing;
        if UniqueKeys(before) { FindUnique(before, owner, name, kind, id); }
        Update(id, visibility, url, folder);
      } else {
        id := newId;
        resources := resources[id := Resource(owner, name, kind, visibility, url, folder)];
      }
    }

    /** The transaction that updates an existing row. */
    method Update(id: ResourceId, visibility: Visibility, url: Option<string>, folder: Option<string>)
      requires id in resources
      modifies this`resources, this`shares, this`invitations
      ensures View() == UpdateResource(old(View()), id, visibility, url, folder)
    {
      var previous := resources[id].url;
      resources := resources[id := resources[id].(visibility := visibility, url := url, folder := folder)];
      if previous != url {
        Unaccept(id);
      }
    }

    /** Approval applies to the link the recipient inspected. */
    method Unaccept(id: ResourceId)
      modifies this`shares, this`invitations
      ensures shares == set p | p in old(shares) && p.0 != id
      ensures invitations == Returned(old(View()), id)
    {
      invitations := (map p | p in shares && p.0 == id :: Pending) + invitations;
      shares := set p | p in shares && p.0 != id;
    }

    /** Set exactly who is invited to a resource. One loop removes the recipients that are no
        longer wanted, one invites those who are new. */
    method SetShares(id: ResourceId, viewers: seq<AccountId>)
      modifies this
      ensures View() == State.SetShares(old(View()), id, set v | v in viewers)
    {
      ghost var before := View();
      RemoveUnwanted(id, viewers);
      AllLeft(before, id, viewers);
      ghost var kept := invitations;
      for i := 0 to |viewers|
        invariant forall p :: p in invitations <==> p in kept || (p.0 == id && p.1 in viewers[..i] && p !in shares)
        invariant forall p :: p in invitations ==> invitations[p] == if p in kept then kept[p] else Pending
        invariant shares == RemainingShares(before, id, viewers)
        invariant View() == before.(shares := shares, invitations := invitations)
      {
        assert viewers[..i + 1] == viewers[..i] + [viewers[i]];
        if (id, viewers[i]) !in shares && (id, viewers[i]) !in invitations {
          invitations := invitations[(id, viewers[i]) := Pending];
        }
      }
      assert viewers[..|viewers|] == viewers;
      SetSharesAssembled(before, id, viewers, shares, kept, invitations);
    }

    method RemoveUnwanted(id: ResourceId, viewers: seq<AccountId>)
      modifies this`shares, this`invitations
      ensures shares == SharesLeft(old(View()), id, viewers, {})
      ensures invitations == InvitationsLeft(old(View()), id, viewers, {})
    {
      ghost var before := View();
      var left := Recipients(View(), id);
      AllLeft(before, id, viewers);
      while left != {}
        invariant shares == SharesLeft(before, id, viewers, left)
        invariant invitations == InvitationsLeft(before, id, viewers, left)
        decreases left
      {
        var viewer :| viewer in left;
        LeftStep(before, id, viewers, left, viewer);
        left := left - {viewer};
        if viewer !in viewers {
          RemoveRecipient(id, viewer);
        }
      }
    }

    method RemoveRecipient(id: ResourceId, viewer: AccountId)
      modifies this`shares, this`invitations
      ensures shares == old(shares) - {(id, viewer)} && invitations == old(invitations) - {(id, viewer)}
    {
      shares := shares - {(id, viewer)};
      invitations := invitations - {(id, viewer)};
    }

    method AcceptShare(viewer: AccountId, id: ResourceId) returns (changed: bool)
      modifies this
      ensures changed == CanAccept(old(View()), (id, viewer))
      ensures View() == State.AcceptShare(old(View()), (id, viewer))
    {
      var p := (id, viewer);
      changed := p in invitations && invitations[p] == Pending;
      if changed {
        invitations := invitations - {p};
        shares := shares + {p};
      }
    }

    method DeclineShare(viewer: AccountId, id: ResourceId) returns (changed: bool)
      modifies this
      ensures changed == CanDecline(old(View()), (id, viewer))
      ensures View() == State.DeclineShare(old(View()), (id, viewer))
    {
      var p := (id, viewer);
      var accepted := p in shares;
      shares := shares - {p};
      var pending := p in invitations && invitations[p] == Pending;
      if pending {
        invitations := invitations[p := Declined];
      }
      if accepted {
        invitations := invitations[p := Declined];
      }
      changed := accepted || pending;
    }

    method DeleteResource(owner: AccountId, id: ResourceId) returns (deleted: bool)
      modifies this
      ensures deleted == (id in old(resources) && old(resources)[id].owner == owner)
      ensures View() == State.DeleteResource(old(View()), owner, id)
    {
      deleted := id in resources && resources[id].owner == owner;
      if deleted {
        resources := resources - {id};
        shares := set p | p in shares && p.0 != id;
        invitations := map p | p in invitations && p.0 != id :: invitations[p];
        tickets := map h | h in tickets && tickets[h].resource != id :: tickets[h];
        sessions := map h | h in sessions && sessions[h].resource != id :: sessions[h];
      }
    }

    /** The recipients of a resource who have a handle, each with its status, by handle. */
    method ShareRecipients(id: ResourceId) returns (rows: seq<ShareRecipient>)
      ensures exists order :: IsListing(View(), id, order, rows)
    {
      ghost var t := View();
      ghost var order: seq<AccountId> := [];
      rows := [];
      var all := Recipients(View(), id);
      var left := all;
      while left != {}
        invariant left <= all
        invariant Lists(t, id, all - left, order, rows) && ByHandle(rows)
        decreases left
      {
        var viewer :| viewer in left;
        assert all - (left - {viewer}) == all - left + {viewer};
        if viewer in accounts && accounts[viewer].Some? {
          var row := Row(id, viewer);
          var k := Place(rows, row);
          PlacedByHandle(rows, row);
          ListsInsert(t, id, all - left, order, rows, k, viewer, row);
          rows := rows[..k] + [row] + rows[k..];
          order := order[..k] + [viewer] + order[k..];
        }
        left := left - {viewer};
      }
      assert all - left == all;
      assert IsListing(View(), id, order, rows);
    }

    /** The row of a recipient who has a handle. */
    method Row(id: ResourceId, viewer: AccountId) returns (row: ShareRecipient)
      requires viewer in Recipients(View(), id) && HandleOf(View(), viewer).Some?
      ensures IsRow(View(), id, viewer, row)
    {
      var status := if (id, viewer) in shares then Accepted else invitations[(id, viewer)];
      row := ShareRecipient(accounts[viewer].value, status);
    }

    // -- tickets and sessions ------------------------------------------------------------------

    method CreateConnectionTicket(hash: TokenHash, viewer: AccountId, id: ResourceId, now: nat, expiresAt: nat)
      modifies this
      ensures View() == CreateTicket(old(View()), hash, Ticket(viewer, id, expiresAt), now)
    {
      tickets := map h | h in tickets && tickets[h].expiresAt > now :: tickets[h];
      tickets := tickets[hash := Ticket(viewer, id, expiresAt)];
    }

    method ConsumeConnectionTicket(hash: TokenHash, now: nat) returns (r: Option<(AccountId, ResourceId)>)
      modifies this
      ensures r.Some? <==> CanConsume(old(View()), hash, now)
      ensures r.Some? ==> r.value == (old(tickets)[hash].viewer, old(tickets)[hash].resource)
      ensures View() == ConsumeTicket(old(View()), hash, now)
    {
      if hash in tickets && tickets[hash].expiresAt > now {
        r := Some((tickets[hash].viewer, tickets[hash].resource));
        tickets := tickets - {hash};
      } else {
        r := None;
      }
    }

    method CreateTunnelSession(hash: TokenHash, viewer: AccountId, id: ResourceId, client: string, now: nat, expiresAt: nat)
      modifies this
      ensures View() == CreateSession(old(View()), hash, Session(viewer, id, client, expiresAt, None, None), now)
    {
      sessions := map h | h in sessions && sessions[h].expiresAt > now :: sessions[h];
      sessions := sessions[hash := Session(viewer, id, client, expiresAt, None, None)];
    }

    /** `None` is a foreign key error; `Some(false)` says the insert was ignored. */
    method CreateBrokerTunnelSession(
      hash: TokenHash, viewer: AccountId, id: ResourceId, client: string,
      credential: CredentialId, request: string, now: nat, expiresAt: nat) returns (r: Option<bool>)
      modifies this
      ensures r.None? <==> credential !in old(credentials)
      ensures r == Some(true) <==> CanBroker(old(View()), hash, credential, request, now)
      ensures View() == CreateBrokerSession(
                          old(View()), hash, Session(viewer, id, client, expiresAt, Some(credential), Some(request)), now)
    {
      ghost var before := View();
      sessions := map h | h in sessions && sessions[h].expiresAt > now :: sessions[h];
      assert forall h :: LiveSession(before, h, now) ==> h in sessions && sessions[h] == before.sessions[h];
      if credential !in credentials {
        return None;
      }
      if hash in sessions || exists h :: h in sessions && sessions[h].request == Some(request) {
        return Some(false);
      }
      sessions := sessions[hash := Session(viewer, id, client, expiresAt, Some(credential), Some(request))];
      return Some(true);
    }

    method ActiveBrokerGrantCount(credential: CredentialId, now: nat) returns (count: nat)
      ensures count == |ActiveGrants(View(), credential, now)|
    {
      var active := set h | h in sessions && sessions[h].issuer == Some(credential) && sessions[h].expiresAt > now;
      assert active == ActiveGrants(View(), credential, now);
      count := |active|;
    }

    method TunnelSession(hash: TokenHash, now: nat) returns (r: Option<Session>)
      ensures r.Some? <==> LiveSession(View(), hash, now)
      ensures r.Some? ==> r.value == sessions[hash]
    {
      r := if hash in sessions && sessions[hash].expiresAt > now then Some(sessions[hash]) else None;
    }

    method DeleteTunnelSession(hash: TokenHash) returns (deleted: bool)
      modifies this
      ensures deleted == (hash in old(sessions))
      ensures View() == DeleteSession(old(View()), hash)
    {
      deleted := hash in sessions;
      sessions := sessions - {hash};
    }

    // -- machine credentials and daemons ---------------------------------------------------------

    method CreateMachineCredential(id: CredentialId, account: AccountId, hash: TokenHash, scopes: set<string>)
      modifies this
      ensures View() == CreateCredential(old(View()), id, Credential(account, hash, None, scopes))
    {
      credentials := credentials[id := Credential(account, hash, None, scopes)];
    }

    /** The enrolled credential with this hash. */
    method MachineAuthentication(hash: TokenHash) returns (r: Option<(CredentialId, Credential)>)
      ensures r.Some? ==> Authenticates(View(), hash, r.value.0) && r.value.1 == credentials[r.value.0]
      ensures r.None? ==> forall id :: !Authenticates(View(), hash, id)
    {
      if id :| id in credentials && credentials[id].tokenHash == hash && credentials[id].endpoint.Some? {
        return Some((id, credentials[id]));
      }
      return None;
    }

    /** An unconsumed enrolment ticket, by its hash. */
    method MachineEnrollment(hash: TokenHash) returns (r: Option<(CredentialId, AccountId)>)
      ensures r.Some? ==> IsTicketOf(View(), r.value.0, r.value.1, hash)
      ensures r.None? ==> forall id, account :: !IsTicketOf(View(), id, account, hash)
    {
      if id :| id in credentials && credentials[id].tokenHash == hash && credentials[id].endpoint.None? {
        return Some((id, credentials[id].account));
      }
      return None;
    }

    /** `None` is a violation of the unique index on endpoints. */
    method EnrollMachine(id: CredentialId, account: AccountId, hash: TokenHash, next: TokenHash, endpoint: string)
      returns (r: Option<bool>)
      modifies this
      ensures r == Some(true) <==> CanEnroll(old(View()), id, account, hash, endpoint)
      ensures r == Some(false) <==> !IsTicketOf(old(View()), id, account, hash)
      ensures View() == State.EnrollMachine(old(View()), id, account, hash, next, endpoint)
    {
      if !(id in credentials && credentials[id].account == account && credentials[id].tokenHash == hash
           && credentials[id].endpoint.None?)
      {
        return Some(false);
      }
      if exists other :: other in credentials && credentials[other].endpoint == Some(endpoint) {
        return None;
      }
      credentials := credentials[id := credentials[id].(tokenHash := next, endpoint := Some(endpoint))];
      return Some(true);
    }

    method RevokeMachineCredential(account: AccountId, id: CredentialId) returns (changed: bool)
      modifies this
      ensures changed == (id in old(credentials) && old(credentials)[id].account == account)
      ensures View() == RevokeCredential(old(View()), account, id)
    {
      changed := id in credentials && credentials[id].account == account;
      if changed {
        var endpoint := credentials[id].endpoint;
        daemons := map a | a in daemons && !(a == account && endpoint == Some(daemons[a])) :: daemons[a];
        credentials := credentials - {id};
        sessions := map h | h in sessions && sessions[h].issuer != Some(id) :: sessions[h];
      }
    }

    method RegisterDaemon(account: AccountId, endpoint: string)
      modifies this
      ensures View() == State.RegisterDaemon(old(View()), account, endpoint)
    {
      daemons := daemons[account := endpoint];
    }
  }

  /** A recipient row that stays while the viewers in `left` are still to be looked at. */
  predicate Remains(p: Recipient, id: ResourceId, viewers: seq<AccountId>, left: set<AccountId>) {
    p.0 == id && p.1 !in left ==> p.1 in viewers
  }

  ghost function SharesLeft(t: Tables, id: ResourceId, viewers: seq<AccountId>, left: set<AccountId>): set<Recipient> {
    set p | p in t.shares && Remains(p, id, viewers, left)
  }

  ghost function InvitationsLeft(t: Tables, id: ResourceId, viewers: seq<AccountId>, left: set<AccountId>)
    : map<Recipient, InvitationStatus>
  {
    map p | p in t.invitations && Remains(p, id, viewers, left) :: t.invitations[p]
  }

  lemma AllLeft(t: Tables, id: ResourceId, viewers: seq<AccountId>)
    ensures SharesLeft(t, id, viewers, Recipients(t, id)) == t.shares
    ensures InvitationsLeft(t, id, viewers, Recipients(t, id)) == t.invitations
    ensures SharesLeft(t, id, viewers, {}) == RemainingShares(t, id, viewers)
    ensures InvitationsLeft(t, id, viewers, {}) == RemainingInvitations(t, id, viewers)
  {
  }

  lemma LeftStep(t: Tables, id: ResourceId, viewers: seq<AccountId>, left: set<AccountId>, viewer: AccountId)
    requires viewer in left
    ensures var r := if viewer in viewers then {} else {(id, viewer)};
            && SharesLeft(t, id, viewers, left - {viewer}) == SharesLeft(t, id, viewers, left) - r
            && InvitationsLeft(t, id, viewers, left - {viewer}) == InvitationsLeft(t, id, viewers, left) - r
  {
    forall p
      ensures Remains(p, id, viewers, left - {viewer})
              <==> Remains(p, id, viewers, left) && (p == (id, viewer) ==> viewer in viewers)
    {
    }
  }

  ghost function RemainingShares(t: Tables, id: ResourceId, viewers: seq<AccountId>): set<Recipient> {
    set p | p in t.shares && (p.0 == id ==> p.1 in viewers)
  }

  ghost function RemainingInvitations(t: Tables, id: ResourceId, viewers: seq<AccountId>): map<Recipient, InvitationStatus> {
    map p | p in t.invitations && (p.0 == id ==> p.1 in viewers) :: t.invitations[p]
  }

  lemma SetSharesAssembled(
    t: Tables, id: ResourceId, viewers: seq<AccountId>, shares: set<Recipient>,
    kept: map<Recipient, InvitationStatus>, invitations: map<Recipient, InvitationStatus>)
    requires shares == RemainingShares(t, id, viewers) && kept == RemainingInvitations(t, id, viewers)
    requires forall p :: p in invitations <==> p in kept || (p.0 == id && p.1 in viewers && p !in shares)
    requires forall p :: p in invitations ==> invitations[p] == if p in kept then kept[p] else Pending
    ensures State.SetShares(t, id, set v | v in viewers) == t.(shares := shares, invitations := invitations)
  {
    var r := State.SetShares(t, id, set v | v in viewers);
    forall p
      ensures p in r.shares <==> p in shares
      ensures p in r.invitations <==> p in invitations
      ensures p in r.invitations ==> r.invitations[p] == invitations[p]
    {
    }
  }

  // -- listings ------------------------------------------------------------------------------------

  /** The row of `share_recipients` for the recipient `v`. */
  ghost predicate IsRow(t: Tables, id: ResourceId, v: AccountId, row: ShareRecipient) {
    HandleOf(t, v) == Some(row.handle) && Status(t, (id, v)) == Some(row.status)
  }

  /** One row for each account in `some` that has a handle; `order[i]` is whose row `i` is. */
  ghost predicate Lists(t: Tables, id: ResourceId, some: set<AccountId>, order: seq<AccountId>, rows: seq<ShareRecipient>) {
    && (forall i, j :: 0 <= i < j < |order| ==> order[i] != order[j])
    && (forall v :: v in order <==> v in some && HandleOf(t, v).Some?)
    && |rows| == |order|
    && (forall i :: 0 <= i < |rows| ==> IsRow(t, id, order[i], rows[i]))
  }

  lemma InsertOne(order: seq<AccountId>, k: nat, v: AccountId)
    requires k <= |order| && v !in order && forall i, j :: 0 <= i < j < |order| ==> order[i] != order[j]
    ensures var wider := order[..k] + [v] + order[k..];
            && (forall i, j :: 0 <= i < j < |wider| ==> wider[i] != wider[j])
            && forall u :: u in wider <==> u == v || u in order
  {
    assert order == order[..k] + order[k..];
  }

  lemma ListsInsert(t: Tables, id: ResourceId, some: set<AccountId>, order: seq<AccountId>, rows: seq<ShareRecipient>,
                    k: nat, v: AccountId, row: ShareRecipient)
    requires Lists(t, id, some, order, rows) && v !in some && IsRow(t, id, v, row) && k <= |rows|
    ensures Lists(t, id, some + {v}, order[..k] + [v] + order[k..], rows[..k] + [row] + rows[k..])
  {
    InsertOne(order, k, v);
  }

  /** Where `row` goes: before the first row whose handle is above its own. */
  function Place(rows: seq<ShareRecipient>, row: ShareRecipient): (k: nat)
    ensures k <= |rows|
  {
    if rows == [] || !AtMost(Lower(rows[0].handle), Lower(row.handle)) then 0 else 1 + Place(rows[1..], row)
  }

  /** The rows come in the order of their handles, without regard to case. */
  ghost predicate ByHandle(rows: seq<ShareRecipient>) {
    forall i, j :: 0 <= i < j < |rows| ==> AtMost(Lower(rows[i].handle), Lower(rows[j].handle))
  }

  lemma {:induction false} PlaceParts(rows: seq<ShareRecipient>, row: ShareRecipient, i: nat)
    requires ByHandle(rows) && i < |rows|
    ensures i < Place(rows, row) ==> AtMost(Lower(rows[i].handle), Lower(row.handle))
    ensures i >= Place(rows, row) ==> AtMost(Lower(row.handle), Lower(rows[i].handle))
  {
    if AtMost(Lower(rows[0].handle), Lower(row.handle)) {
      if i > 0 { PlaceParts(rows[1..], row, i - 1); }
    } else {
      AtMostTotal(Lower(rows[0].handle), Lower(row.handle));
      if i > 0 { AtMostTransitive(Lower(row.handle), Lower(rows[0].handle), Lower(rows[i].handle)); }
    }
  }

  lemma PlacedByHandle(rows: seq<ShareRecipient>, row: ShareRecipient)
    requires ByHandle(rows)
    ensures var k := Place(rows, row); ByHandle(rows[..k] + [row] + rows[k..])
  {
    forall i | 0 <= i < |rows|
      ensures i < Place(rows, row) ==> AtMost(Lower(rows[i].handle), Lower(row.handle))
      ensures i >= Place(rows, row) ==> AtMost(Lower(row.handle), Lower(rows[i].handle))
    {
      PlaceParts(rows, row, i);
    }
  }

  ghost predicate IsListing(t: Tables, id: ResourceId, order: seq<AccountId>, rows: seq<ShareRecipient>) {
    Lists(t, id, Recipients(t, id), order, rows) && ByHandle(rows)
  }

  lemma ListedIn(t: Tables, id: ResourceId, order: seq<AccountId>, rows: seq<ShareRecipient>,
                 order1: seq<AccountId>, rows1: seq<ShareRecipient>, row: ShareRecipient)
    requires IsListing(t, id, order, rows) && IsListing(t, id, order1, rows1) && row in rows
    ensures row in rows1
  {
    var i :| 0 <= i < |rows| && rows[i] == row;
    assert order[i] in order && order[i] in order1;
    var k :| 0 <= k < |order1| && order1[k] == order[i];
    assert rows1[k] in rows1;
  }

  ghost predicate DistinctNames(rows: seq<ShareRecipient>) {
    forall i, j :: 0 <= i < j < |rows| ==> Lower(rows[i].handle) != Lower(rows[j].handle)
  }

  /** The last of the rows is the one with the greatest handle. */
  lemma LastIsLast(rows: seq<ShareRecipient>, row: ShareRecipient)
    requires ByHandle(rows) && row in rows
    ensures AtMost(Lower(row.handle), Lower(rows[|rows| - 1].handle))
  {
    AtMostTotal(Lower(row.handle), Lower(row.handle));
  }

  lemma SameLast(a: seq<ShareRecipient>, b: seq<ShareRecipient>)
    requires ByHandle(a) && ByHandle(b) && DistinctNames(a) && a != [] && b != []
    requires a[|a| - 1] in b && b[|b| - 1] in a
    ensures a[|a| - 1] == b[|b| - 1]
  {
    LastIsLast(a, b[|b| - 1]);
    LastIsLast(b, a[|a| - 1]);
    AtMostTotal(Lower(a[|a| - 1].handle), Lower(b[|b| - 1].handle));
    var k :| 0 <= k < |a| && a[k] == b[|b| - 1];
  }

  lemma InRest(a: seq<ShareRecipient>, row: ShareRecipient)
    requires DistinctNames(a) && a != []
    ensures row in a[..|a| - 1] <==> row in a && row != a[|a| - 1]
  {
    var m := |a| - 1;
    assert a == a[..m] + [a[m]];
    if row in a[..m] {
      var k :| 0 <= k < m && a[..m][k] == row;
      assert a[k] == row;
    }
  }

  /** Rows of distinct names come in one order by handle. */
  lemma {:induction false} OneOrder(a: seq<ShareRecipient>, b: seq<ShareRecipient>)
    requires ByHandle(a) && ByHandle(b) && DistinctNames(a) && DistinctNames(b)
    requires forall row :: row in a <==> row in b
    ensures a == b
  {
    assert a != [] ==> a[0] in b;
    assert b != [] ==> b[0] in a;
    if a != [] && b != [] {
      var m, n := |a| - 1, |b| - 1;
      assert a[m] in b && b[n] in a;
      SameLast(a, b);
      forall row ensures row in a[..m] <==> row in b[..n] {
        InRest(a, row);
        InRest(b, row);
      }
      OneOrder(a[..m], b[..n]);
      assert a == a[..m] + [a[m]] && b == b[..n] + [b[n]];
    }
  }
}

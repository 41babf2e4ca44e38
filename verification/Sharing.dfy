/** Who may reach what: the invariant that the owner and viewer operations keep, and the
    agreement of the three places that decide access. */
module Sharing {
  import opened Text
  import opened State

  /** What holds of every recipient, accepted or invited. */
  ghost predicate RecipientOk(t: Tables, p: Recipient) {
    && p.0 in t.resources
    && t.resources[p.0].visibility == Shared
    && t.resources[p.0].owner != p.1
    && HandleOf(t, p.1).Some?
  }

  ghost predicate ResourceOk(t: Tables, r: Resource) {
    && r.owner in t.accounts
    && (r.kind == Service ==> r.visibility != Public && r.url.None?)
    && (r.kind == Link ==> r.url.Some?)
  }

  /** The sharing invariant. Only shared resources have recipients, no recipient is the owner,
      none is both accepted and invited, and services are never public. */
  ghost predicate Inv(t: Tables) {
    && (forall p :: p in t.shares ==> RecipientOk(t, p))
    && (forall p :: p in t.invitations ==> RecipientOk(t, p))
    && t.shares !! t.invitations.Keys
    && (forall id :: id in t.resources ==> ResourceOk(t, t.resources[id]))
    && UniqueKeys(t)
    && UniqueHandles(t)
    && (forall a :: a in t.accounts && t.accounts[a].Some? ==> IsLower(t.accounts[a].value))
  }

  ghost predicate SameSharing(t: Tables, u: Tables) {
    t.accounts == u.accounts && t.resources == u.resources && t.shares == u.shares && t.invitations == u.invitations
  }

  lemma InvFrame(t: Tables, u: Tables)
    requires Inv(t) && SameSharing(t, u)
    ensures Inv(u)
  {
    assert forall p :: RecipientOk(t, p) == RecipientOk(u, p);
    assert forall r :: ResourceOk(t, r) == ResourceOk(u, r);
  }

  // -- three-way agreement ----------------------------------------------------------------------

  /** For every service, the policy, the list of accessible services and the daemon's
      authorization snapshot name the same viewers, although the list never looks at
      visibility. */
  lemma ThreeWayAgreement(t: Tables, viewer: AccountId, id: ResourceId)
    requires Inv(t) && id in t.resources && t.resources[id].kind == Service
    ensures Sees(t, viewer, id) <==> id in AccessibleServices(t, viewer)
    ensures Sees(t, viewer, id) <==> (viewer, id) in ServiceAuthorizations(t, t.resources[id].owner)
  {
    var r := t.resources[id];
    assert ResourceOk(t, r);
    assert viewer in SharedWith(t, id) <==> (id, viewer) in t.shares by {
      if (id, viewer) in t.shares { assert (id, viewer).0 == id; }
    }
    assert (id, viewer) in t.shares ==> RecipientOk(t, (id, viewer));
    if (id, viewer) in t.shares { assert ((id, viewer).1, (id, viewer).0) == (viewer, id); }
  }

  /** A daemon's snapshot names nobody for a resource that is not its owner's service. */
  lemma SnapshotIsOfOwnServices(t: Tables, owner: AccountId, viewer: AccountId, id: ResourceId)
    requires Inv(t)
    ensures (viewer, id) in ServiceAuthorizations(t, owner)
            <==> id in t.resources && t.resources[id].owner == owner && t.resources[id].kind == Service && Sees(t, viewer, id)
  {
    if id in t.resources && t.resources[id].owner == owner && t.resources[id].kind == Service {
      ThreeWayAgreement(t, viewer, id);
    }
  }

  /** What the three places say of one viewer and one service. */
  ghost predicate Agree(t: Tables, viewer: AccountId, id: ResourceId)
    requires id in t.resources
  {
    && (Sees(t, viewer, id) <==> id in AccessibleServices(t, viewer))
    && (Sees(t, viewer, id) <==> (viewer, id) in ServiceAuthorizations(t, t.resources[id].owner))
  }

  lemma AgreeAt(t: Tables, viewer: AccountId, id: ResourceId)
    requires id in t.resources && t.resources[id].kind == Service
    ensures var r := t.resources[id];
            Agree(t, viewer, id) <==> r.owner == viewer || r.visibility == Shared || (r.visibility == Private && (id, viewer) !in t.shares)
  {
    assert viewer in SharedWith(t, id) <==> (id, viewer) in t.shares by {
      if (id, viewer) in t.shares { assert (id, viewer).0 == id; }
    }
    if (id, viewer) in t.shares { assert ((id, viewer).1, (id, viewer).0) == (viewer, id); }
  }

  /** Exactly when the three agree on a service for every account, in any tables whatever: when
      the service is not public and, if it is private, nobody else holds a share of it. */
  lemma AgreementExact(t: Tables, id: ResourceId)
    requires id in t.resources && t.resources[id].kind == Service
    ensures var r := t.resources[id];
            (forall viewer :: Agree(t, viewer, id))
            <==> r.visibility != Public && (r.visibility == Private ==> forall viewer :: (id, viewer) in t.shares ==> viewer == r.owner)
  {
    forall viewer
      ensures Agree(t, viewer, id) <==> (var r := t.resources[id];
        r.owner == viewer || r.visibility == Shared || (r.visibility == Private && (id, viewer) !in t.shares))
    {
      AgreeAt(t, viewer, id);
    }
    var stranger := AccountId(t.resources[id].owner.raw + 1);
    assert t.resources[id].visibility == Public ==> !Agree(t, stranger, id);
  }

  // -- how a recipient's status moves -------------------------------------------------------------

  /** What an owner's request does to one recipient. */
  function NextStatus(status: Option<ShareStatus>, wanted: bool, destinationChanged: bool): Option<ShareStatus> {
    if !wanted then None
    else if status.None? then Some(Pending)
    else if status == Some(Accepted) && destinationChanged then Some(Pending)
    else status
  }

  lemma SetSharesStatus(t: Tables, id: ResourceId, viewers: set<AccountId>, p: Recipient)
    requires t.shares !! t.invitations.Keys
    ensures var u := SetShares(t, id, viewers);
            && Status(u, p) == (if p.0 == id then NextStatus(Status(t, p), p.1 in viewers, false) else Status(t, p))
            && u.shares !! u.invitations.Keys
  {
  }

  /** Two states with disjoint recipient tables and equal statuses have equal tables. */
  lemma StatusDetermines(t: Tables, u: Tables)
    requires t.shares !! t.invitations.Keys && u.shares !! u.invitations.Keys
    requires forall p :: Status(t, p) == Status(u, p)
    ensures t.shares == u.shares && t.invitations == u.invitations
  {
    forall p
      ensures p in t.shares <==> p in u.shares
      ensures p in t.invitations <==> p in u.invitations
      ensures p in t.invitations ==> t.invitations[p] == u.invitations[p]
    {
      assert Status(t, p) == Status(u, p);
    }
  }

  /** The tables after an owner names the whole state of a resource, whose id is `id`. */
  ghost function Put(
    t: Tables, owner: AccountId, name: string, kind: ResourceKind, visibility: Visibility,
    url: Option<string>, folder: Option<string>, viewers: set<AccountId>, newId: ResourceId): (Tables, ResourceId)
  {
    var (u, id) := CreateResource(t, owner, name, kind, visibility, url, folder, newId);
    (SetShares(u, id, viewers), id)
  }

  ghost predicate Fresh(t: Tables, id: ResourceId) {
    && id !in t.resources
    && (forall p :: p in t.shares ==> p.0 != id)
    && (forall p :: p in t.invitations ==> p.0 != id)
  }

  lemma InvFresh(t: Tables, id: ResourceId)
    requires Inv(t) && id !in t.resources
    ensures Fresh(t, id)
  {
    assert forall p :: p in t.shares || p in t.invitations ==> RecipientOk(t, p);
  }

  ghost predicate DestinationChanged(t: Tables, id: ResourceId, url: Option<string>) {
    id in t.resources && t.resources[id].url != url
  }

  lemma UpdateStatus(t: Tables, id: ResourceId, visibility: Visibility, url: Option<string>, folder: Option<string>, p: Recipient)
    requires t.shares !! t.invitations.Keys && id in t.resources
    ensures var u := UpdateResource(t, id, visibility, url, folder);
            && Status(u, p) == (if p.0 == id && t.resources[id].url != url && Status(t, p) == Some(Accepted)
                                then Some(Pending) else Status(t, p))
            && u.shares !! u.invitations.Keys
  {
  }

  lemma CreateStatus(
    t: Tables, owner: AccountId, name: string, kind: ResourceKind, visibility: Visibility,
    url: Option<string>, folder: Option<string>, newId: ResourceId, p: Recipient)
    requires t.shares !! t.invitations.Keys && Fresh(t, newId)
    ensures var (u, id) := CreateResource(t, owner, name, kind, visibility, url, folder, newId);
            && Status(u, p) == (if p.0 == id && DestinationChanged(t, id, url) && Status(t, p) == Some(Accepted)
                                then Some(Pending) else Status(t, p))
            && u.shares !! u.invitations.Keys
            && u.accounts == t.accounts
            && u.resources == t.resources[id := Resource(owner, name, kind, visibility, url, folder)]
  {
    match FindResource(t, owner, name, kind)
    case Some(id) => UpdateStatus(t, id, visibility, url, folder, p);
    case None =>
  }

  lemma CreateIds(
    t: Tables, owner: AccountId, name: string, kind: ResourceKind, visibility: Visibility,
    url: Option<string>, folder: Option<string>, newId: ResourceId)
    ensures var u := CreateResource(t, owner, name, kind, visibility, url, folder, newId).0;
            u.resources.Keys <= t.resources.Keys + {newId}
  {
  }

  lemma PutAfterCreate(
    t: Tables, owner: AccountId, name: string, kind: ResourceKind, visibility: Visibility,
    url: Option<string>, folder: Option<string>, viewers: set<AccountId>, newId: ResourceId)
    ensures Put(t, owner, name, kind, visibility, url, folder, viewers, newId).0.resources
            == CreateResource(t, owner, name, kind, visibility, url, folder, newId).0.resources
  {
  }

  /** Naming the state of a resource moves each recipient by `NextStatus` and leaves every
      other resource alone. */
  lemma PutStatus(
    t: Tables, owner: AccountId, name: string, kind: ResourceKind, visibility: Visibility,
    url: Option<string>, folder: Option<string>, viewers: set<AccountId>, newId: ResourceId, p: Recipient)
    requires t.shares !! t.invitations.Keys && Fresh(t, newId)
    ensures var (u, id) := Put(t, owner, name, kind, visibility, url, folder, viewers, newId);
            && Status(u, p) == (if p.0 == id then NextStatus(Status(t, p), p.1 in viewers, DestinationChanged(t, id, url)) else Status(t, p))
            && u.shares !! u.invitations.Keys
            && u.accounts == t.accounts
            && u.resources == t.resources[id := Resource(owner, name, kind, visibility, url, folder)]
            && (id == newId || (id in t.resources && Matches(t.resources[id], owner, name, kind)))
  {
    var (c, id) := CreateResource(t, owner, name, kind, visibility, url, folder, newId);
    CreateStatus(t, owner, name, kind, visibility, url, folder, newId, p);
    SetSharesStatus(c, id, viewers, p);
  }

  lemma AcceptStatus(t: Tables, p: Recipient, r: Recipient)
    requires t.shares !! t.invitations.Keys
    ensures var u := AcceptShare(t, p);
            && Status(u, r) == (if r == p && Status(t, r) == Some(Pending) then Some(Accepted) else Status(t, r))
            && u.shares !! u.invitations.Keys
  {
  }

  lemma DeclineStatus(t: Tables, p: Recipient, r: Recipient)
    requires t.shares !! t.invitations.Keys
    ensures var u := DeclineShare(t, p);
            && Status(u, r) == (if r == p && (Status(t, r) == Some(Pending) || Status(t, r) == Some(Accepted)) then Some(Declined)
                                else Status(t, r))
            && u.shares !! u.invitations.Keys
  {
  }

  lemma DeleteStatus(t: Tables, owner: AccountId, id: ResourceId, r: Recipient)
    requires t.shares !! t.invitations.Keys
    ensures var u := DeleteResource(t, owner, id);
            && Status(u, r) == (if r.0 == id && id in t.resources && t.resources[id].owner == owner then None else Status(t, r))
            && u.shares !! u.invitations.Keys
  {
  }

  // -- the invariant is kept -----------------------------------------------------------------------

  /** The invariant, read off statuses. */
  lemma InvFromStatus(t: Tables, u: Tables)
    requires Inv(t) && u.shares !! u.invitations.Keys && u.accounts == t.accounts
    requires forall id :: id in u.resources ==> ResourceOk(t, u.resources[id])
    requires UniqueKeys(u)
    requires forall p :: Status(u, p).Some? ==> RecipientOk(u, p)
    ensures Inv(u)
  {
    forall p | p in u.shares || p in u.invitations ensures RecipientOk(u, p) {
      assert Status(u, p).Some?;
    }
    forall id | id in u.resources ensures ResourceOk(u, u.resources[id]) {
      assert ResourceOk(t, u.resources[id]);
    }
  }

  ghost predicate ViewersOk(t: Tables, owner: AccountId, visibility: Visibility, viewers: set<AccountId>) {
    && (visibility != Shared ==> viewers == {})
    && owner !in viewers
    && forall v :: v in viewers ==> HandleOf(t, v).Some?
  }

  lemma PutKeepsInv(
    t: Tables, owner: AccountId, name: string, kind: ResourceKind, visibility: Visibility,
    url: Option<string>, folder: Option<string>, viewers: set<AccountId>, newId: ResourceId)
    requires Inv(t) && Fresh(t, newId) && ViewersOk(t, owner, visibility, viewers)
    requires ResourceOk(t, Resource(owner, name, kind, visibility, url, folder))
    ensures Inv(Put(t, owner, name, kind, visibility, url, folder, viewers, newId).0)
  {
    var (u, id) := Put(t, owner, name, kind, visibility, url, folder, viewers, newId);
    PutStatus(t, owner, name, kind, visibility, url, folder, viewers, newId, (id, owner));
    forall p | Status(u, p).Some? ensures RecipientOk(u, p) {
      PutStatus(t, owner, name, kind, visibility, url, folder, viewers, newId, p);
      if p.0 != id { assert RecipientOk(t, p); }
    }
    PutKeepsKeys(t, owner, name, kind, visibility, url, folder, viewers, newId);
    InvFromStatus(t, u);
  }

  lemma PutKeepsKeys(
    t: Tables, owner: AccountId, name: string, kind: ResourceKind, visibility: Visibility,
    url: Option<string>, folder: Option<string>, viewers: set<AccountId>, newId: ResourceId)
    requires Inv(t) && Fresh(t, newId)
    ensures UniqueKeys(Put(t, owner, name, kind, visibility, url, folder, viewers, newId).0)
  {
    var (u, id) := Put(t, owner, name, kind, visibility, url, folder, viewers, newId);
    PutStatus(t, owner, name, kind, visibility, url, folder, viewers, newId, (id, owner));
    forall other | other in t.resources && Matches(t.resources[other], owner, name, kind) ensures other == id {
      FindUnique(t, owner, name, kind, other);
    }
    forall a, b | a in u.resources && b in u.resources && SameKey(u.resources[a], u.resources[b]) ensures a == b {
      if a != id && b != id { assert SameKey(t.resources[a], t.resources[b]); }
    }
  }

  /** What each check of a request is for: naming the state of a resource keeps the invariant
      exactly when only a shared resource is given viewers, the owner is none of them, each has a
      handle, a service is neither public nor has a URL, and a link has one. */
  lemma PutKeepsInvExactly(
    t: Tables, owner: AccountId, name: string, kind: ResourceKind, visibility: Visibility,
    url: Option<string>, folder: Option<string>, viewers: set<AccountId>, newId: ResourceId)
    requires Inv(t) && Fresh(t, newId)
    ensures Inv(Put(t, owner, name, kind, visibility, url, folder, viewers, newId).0)
            <==> ViewersOk(t, owner, visibility, viewers) && ResourceOk(t, Resource(owner, name, kind, visibility, url, folder))
  {
    var (u, id) := Put(t, owner, name, kind, visibility, url, folder, viewers, newId);
    PutStatus(t, owner, name, kind, visibility, url, folder, viewers, newId, (id, owner));
    if Inv(u) {
      assert ResourceOk(u, u.resources[id]);
      forall v | v in viewers ensures RecipientOk(u, (id, v)) {
        PutStatus(t, owner, name, kind, visibility, url, folder, viewers, newId, (id, v));
      }
      if v :| v in viewers { assert RecipientOk(u, (id, v)); }
    } else if ViewersOk(t, owner, visibility, viewers) && ResourceOk(t, Resource(owner, name, kind, visibility, url, folder)) {
      PutKeepsInv(t, owner, name, kind, visibility, url, folder, viewers, newId);
    }
  }

  /** Without the check that only shared resources name viewers, a viewer invited to a private
      service would, once they accepted, be given it by the list of accessible services, which
      does not look at visibility, while the policy still hides it. */
  lemma UncheckedViewerReaches(
    t: Tables, owner: AccountId, name: string, folder: Option<string>, viewers: set<AccountId>, newId: ResourceId, viewer: AccountId)
    requires Inv(t) && Fresh(t, newId) && viewer in viewers && viewer != owner
    requires Status(t, (Put(t, owner, name, Service, Private, None, folder, viewers, newId).1, viewer)).None?
    ensures var (u, id) := Put(t, owner, name, Service, Private, None, folder, viewers, newId);
            var accepted := AcceptShare(u, (id, viewer));
            id in AccessibleServices(accepted, viewer) && !Sees(accepted, viewer, id)
  {
    var (u, id) := Put(t, owner, name, Service, Private, None, folder, viewers, newId);
    PutStatus(t, owner, name, Service, Private, None, folder, viewers, newId, (id, viewer));
    AcceptStatus(u, (id, viewer), (id, viewer));
  }

  lemma SetSharesKeepsInvExactly(t: Tables, id: ResourceId, viewers: set<AccountId>)
    requires Inv(t) && id in t.resources
    ensures Inv(SetShares(t, id, viewers)) <==> ViewersOk(t, t.resources[id].owner, t.resources[id].visibility, viewers)
  {
    var u := SetShares(t, id, viewers);
    if Inv(u) {
      forall v | v in viewers ensures RecipientOk(u, (id, v)) {
        SetSharesStatus(t, id, viewers, (id, v));
      }
      if v :| v in viewers { assert RecipientOk(u, (id, v)); }
    } else if ViewersOk(t, t.resources[id].owner, t.resources[id].visibility, viewers) {
      SetSharesKeepsInv(t, id, viewers);
    }
  }

  lemma SetSharesKeepsInv(t: Tables, id: ResourceId, viewers: set<AccountId>)
    requires Inv(t) && id in t.resources && ViewersOk(t, t.resources[id].owner, t.resources[id].visibility, viewers)
    ensures Inv(SetShares(t, id, viewers))
  {
    var u := SetShares(t, id, viewers);
    forall p | Status(u, p).Some? ensures RecipientOk(u, p) {
      SetSharesStatus(t, id, viewers, p);
      if p.0 != id { assert RecipientOk(t, p); }
    }
    SetSharesStatus(t, id, viewers, (id, t.resources[id].owner));
    InvFromStatus(t, u);
  }

  lemma AcceptKeepsInv(t: Tables, p: Recipient)
    requires Inv(t)
    ensures Inv(AcceptShare(t, p))
  {
    var u := AcceptShare(t, p);
    forall q | Status(u, q).Some? ensures RecipientOk(u, q) {
      AcceptStatus(t, p, q);
      assert RecipientOk(t, q);
    }
    AcceptStatus(t, p, p);
    InvFromStatus(t, u);
  }

  lemma DeclineKeepsInv(t: Tables, p: Recipient)
    requires Inv(t)
    ensures Inv(DeclineShare(t, p))
  {
    var u := DeclineShare(t, p);
    forall q | Status(u, q).Some? ensures RecipientOk(u, q) {
      DeclineStatus(t, p, q);
      assert RecipientOk(t, q);
    }
    DeclineStatus(t, p, p);
    InvFromStatus(t, u);
  }

  lemma DeleteKeepsInv(t: Tables, owner: AccountId, id: ResourceId)
    requires Inv(t)
    ensures Inv(DeleteResource(t, owner, id))
  {
    var u := DeleteResource(t, owner, id);
    if u != t {
      forall q | Status(u, q).Some? ensures RecipientOk(u, q) {
        DeleteStatus(t, owner, id, q);
        assert RecipientOk(t, q);
      }
      DeleteStatus(t, owner, id, (id, owner));
      forall a, b | a in u.resources && b in u.resources && SameKey(u.resources[a], u.resources[b]) ensures a == b {
        assert SameKey(t.resources[a], t.resources[b]);
      }
      InvFromStatus(t, u);
    }
  }

  /** Signing in for the first time adds an account without a handle. */
  function SignIn(t: Tables, account: AccountId): Tables {
    if account in t.accounts then t else t.(accounts := t.accounts[account := None])
  }

  /** `claim_handle`, for a handle that is already validated. */
  function ClaimHandle(t: Tables, account: AccountId, handle: string): Tables {
    if account !in t.accounts || exists a :: a in t.accounts && a != account && t.accounts[a] == Some(handle) then t
    else t.(accounts := t.accounts[account := Some(handle)])
  }

  lemma AccountsKeepInv(t: Tables, u: Tables)
    requires Inv(t) && u == t.(accounts := u.accounts)
    requires forall a :: a in t.accounts ==> a in u.accounts && (t.accounts[a].Some? ==> u.accounts[a].Some?)
    requires UniqueHandles(u)
    requires forall a :: a in u.accounts && u.accounts[a].Some? ==> IsLower(u.accounts[a].value)
    ensures Inv(u)
  {
    forall p | p in u.shares || p in u.invitations ensures RecipientOk(u, p) { assert RecipientOk(t, p); }
    forall id | id in u.resources ensures ResourceOk(u, u.resources[id]) { assert ResourceOk(t, t.resources[id]); }
  }

  lemma SignInKeepsInv(t: Tables, account: AccountId)
    requires Inv(t)
    ensures Inv(SignIn(t, account))
  {
    if account !in t.accounts {
      var u := SignIn(t, account);
      forall a, b | a in u.accounts && b in u.accounts && u.accounts[a].Some? && u.accounts[a] == u.accounts[b]
        ensures a == b
      {
        assert a in t.accounts && b in t.accounts;
      }
      AccountsKeepInv(t, u);
    }
  }

  lemma ClaimHandleKeepsInv(t: Tables, account: AccountId, handle: string)
    requires Inv(t) && IsLower(handle)
    ensures Inv(ClaimHandle(t, account, handle))
  {
    var u := ClaimHandle(t, account, handle);
    if u != t { AccountsKeepInv(t, u); }
  }

  /** Signing in makes an account without a handle, once. */
  lemma SignInExact(t: Tables, account: AccountId, a: AccountId)
    ensures var u := SignIn(t, account);
            && u == t.(accounts := u.accounts) && (a in u.accounts <==> a in t.accounts || a == account)
            && HandleOf(u, a) == HandleOf(t, a)
  {
  }

  /** A handle is claimed exactly by an account that exists when no other account has it. */
  lemma ClaimExact(t: Tables, account: AccountId, handle: string, a: AccountId)
    ensures var u := ClaimHandle(t, account, handle);
            && u == t.(accounts := u.accounts) && (a in u.accounts <==> a in t.accounts)
            && HandleOf(u, a) == (if a == account && account in t.accounts && (forall b :: b != account ==> HandleOf(t, b) != Some(handle))
                                  then Some(handle) else HandleOf(t, a))
  {
    if b :| b in t.accounts && b != account && t.accounts[b] == Some(handle) { assert HandleOf(t, b) == Some(handle); }
  }

  /** The policy: everybody sees what is public, its owner sees everything, and an account sees what
      is shared with it. */
  lemma ViewExact(viewer: Option<AccountId>, owner: AccountId, visibility: Visibility, sharedWith: set<AccountId>)
    ensures CanView(viewer, owner, visibility, sharedWith) <==>
              visibility == Public || viewer == Some(owner)
              || (visibility == Shared && exists a :: viewer == Some(a) && a in sharedWith)
  {
  }
}

/** The owner and viewer requests as the server runs them, each inside one database lock. */
module Handlers {
  import opened Text
  import opened State
  import opened Sharing
  import opened Requests
  import opened Plan
  import Database

  /** `prepare_resource`: check a request and plan it. */
  method PrepareResource(lib: Libraries, db: Database.Db, owner: AccountId, request: ResourceRequest)
    returns (r: Result<(Prepared, ResourcePlan), ApiError>)
    requires Inv(db.View())
    ensures match Prepare(lib, db.View(), owner, request)
            case Err(e) => r == Err(e)
            case Ok(p) => r.Ok? && r.value.0 == p && IsPlanFor(db.View(), owner, p, r.value.1)
  {
    var checked := CheckRequest(lib, db, owner, request);
    if checked.Err? { return Err(checked.error); }
    var p := checked.value;
    PrepareOk(lib, db.View(), owner, request);
    var handles := HandlesOfViewers(db, owner, p.viewers);
    if id :| id in db.resources && Matches(db.resources[id], owner, p.name, p.kind) {
      FindUnique(db.View(), owner, p.name, p.kind, id);
      var rows := db.ShareRecipients(id);
      ghost var order :| Database.IsListing(db.View(), id, order, rows);
      var plan := BuildResourcePlan(Some(db.resources[id]), rows, After(owner, p), handles);
      assert Planned(db.View(), owner, p, order, rows, handles);
      return Ok((p, plan));
    } else {
      var plan := BuildResourcePlan(None, [], After(owner, p), handles);
      assert Planned(db.View(), owner, p, [], [], handles);
      return Ok((p, plan));
    }
  }

  method CheckRequest(lib: Libraries, db: Database.Db, owner: AccountId, request: ResourceRequest)
    returns (r: Result<Prepared, ApiError>)
    requires Inv(db.View())
    ensures r == Prepare(lib, db.View(), owner, request)
  {
    if !Requests.ValidName(request.name) { return Err(BadRequest); }
    var kind, visibility := ParseKind(request.kind), ParseVisibility(request.visibility);
    if kind.None? || visibility.None? { return Err(BadRequest); }
    if kind.value == Service && visibility.value == Public { return Err(BadRequest); }
    if visibility.value != Shared && request.shareWith != [] { return Err(BadRequest); }
    var url := ValidateUrl(lib, kind.value, request.url);
    if url.Err? { return Err(BadRequest); }
    var folder := ValidateFolder(request.folder);
    if folder.Err? { return Err(BadRequest); }
    var named := exists id :: id in db.resources && Matches(db.resources[id], owner, request.name, kind.value);
    if !named && |OwnedResources(db.View(), owner)| >= MAX_RESOURCES { return Err(BadRequest); }
    var viewers := ResolveShareAccounts(db, owner, request.shareWith);
    if viewers.Err? { return Err(viewers.error); }
    return Ok(Prepared(request.name, kind.value, visibility.value, url.value, folder.value, viewers.value));
  }

  method HandlesOfViewers(db: Database.Db, owner: AccountId, viewers: seq<AccountId>) returns (handles: seq<string>)
    requires ResolvedOk(db.View(), owner, viewers)
    ensures |handles| == |viewers|
    ensures forall i :: 0 <= i < |viewers| ==> HandleOf(db.View(), viewers[i]) == Some(handles[i])
  {
    handles := [];
    for i := 0 to |viewers|
      invariant |handles| == i && forall k :: 0 <= k < i ==> HandleOf(db.View(), viewers[k]) == Some(handles[k])
    {
      handles := handles + [db.accounts[viewers[i]].value];
    }
  }

  /** `create_resource`: prepare, put the resource, then its whole share list. */
  method CreateResource(lib: Libraries, db: Database.Db, owner: AccountId, request: ResourceRequest, newId: ResourceId)
    returns (r: Result<(ResourceId, ResourcePlan), ApiError>)
    requires Inv(db.View()) && owner in db.accounts && newId !in db.resources
    modifies db
    ensures Inv(db.View())
    ensures match PutResource(lib, old(db.View()), owner, request, newId)
            case Err(e) => r == Err(e) && db.View() == old(db.View())
            case Ok(put) =>
              && db.View() == put.0 && r.Ok? && r.value.0 == put.1
              && IsPlanFor(old(db.View()), owner, Prepare(lib, old(db.View()), owner, request).value, r.value.1)
  {
    ghost var before := db.View();
    var prepared := PrepareResource(lib, db, owner, request);
    if prepared.Err? { return Err(prepared.error); }
    var (p, plan) := prepared.value;
    InvFresh(before, newId);
    PutResourceKeepsInv(lib, before, owner, request, newId);
    var id := db.CreateResource(owner, p.name, p.kind, p.visibility, p.url, p.folder, newId);
    db.SetShares(id, p.viewers);
    return Ok((id, plan));
  }

  /** `set_resource_shares` */
  method SetResourceShares(db: Database.Db, owner: AccountId, id: ResourceId, handles: seq<string>)
    returns (r: Result<(), ApiError>)
    requires Inv(db.View())
    modifies db
    ensures Inv(db.View())
    ensures match PutShares(old(db.View()), owner, id, handles)
            case Err(e) => r == Err(e) && db.View() == old(db.View())
            case Ok(t) => r == Ok(()) && db.View() == t
  {
    if id !in db.resources || db.resources[id].owner != owner { return Err(NotFound); }
    if db.resources[id].visibility != Shared && handles != [] { return Err(BadRequest); }
    var viewers := ResolveShareAccounts(db, owner, handles);
    if viewers.Err? { return Err(viewers.error); }
    PutSharesKeepsInv(db.View(), owner, id, handles);
    db.SetShares(id, viewers.value);
    return Ok(());
  }

  /** `update_share_invitation`: accept or decline, and the owner to tell. */
  method UpdateShareInvitation(db: Database.Db, viewer: AccountId, id: ResourceId, accept: bool)
    returns (r: Result<AccountId, ApiError>)
    requires Inv(db.View())
    modifies db
    ensures Inv(db.View())
    ensures db.View() == if accept then AcceptShare(old(db.View()), (id, viewer)) else DeclineShare(old(db.View()), (id, viewer))
    ensures r.Ok? <==> if accept then CanAccept(old(db.View()), (id, viewer)) else CanDecline(old(db.View()), (id, viewer))
    ensures r.Ok? ==> id in db.resources && r.value == db.resources[id].owner
    ensures r.Err? ==> r.error == NotFound && db.View() == old(db.View())
  {
    ghost var before := db.View();
    var changed;
    if accept {
      changed := db.AcceptShare(viewer, id);
      AcceptKeepsInv(before, (id, viewer));
    } else {
      changed := db.DeclineShare(viewer, id);
      DeclineKeepsInv(before, (id, viewer));
    }
    if !changed { return Err(NotFound); }
    assert RecipientOk(before, (id, viewer));
    return Ok(db.resources[id].owner);
  }
}

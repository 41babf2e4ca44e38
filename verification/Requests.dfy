/** What the server checks of a request before it touches a table. */
module Requests {
  import opened Text
  import opened State
  import opened Sharing
  import opened Statements
  import opened Capability
  import Database
  import FolderNames

  datatype ApiError = BadRequest | Unauthorized | Forbidden | NotFound | TooManyRequests | Unavailable | Internal

  /** Library calls: a URL in its serialized form when it is an acceptable link; the Unicode
      lower case of a text and its UTF-8 bytes; the resource id that a text denotes; whether a
      proof is the signature of an endpoint key on a message; and whether a signature is the
      server's own. */
  datatype Libraries = Libraries(
    publicUrl: string -> Option<string>,
    lowercase: string -> string,
    utf8: string -> Field,
    parseResource: string -> Option<ResourceId>,
    endpointSigned: (KeyBytes, ByteString, ByteString) -> bool,
    serverKey: VerifyingKey)

  const MAX_RESOURCES: nat := 100
  const MAX_SHARES: nat := 25
  const MAX_RESOURCE_NAME: nat := 80

  // -- handles -------------------------------------------------------------------------------

  function TrimAts(s: string): string {
    if s != [] && s[0] == '@' then TrimAts(s[1..]) else s
  }

  predicate IsReserved(handle: string) {
    handle == "admin" || handle == "devsite" || handle == "security" || handle == "support"
  }

  function ValidateHandle(text: string): (r: Option<string>)
    ensures r.Some? ==> IsLower(r.value)
  {
    var handle := TrimAts(Trim(text));
    if Bytes(handle) < 2 || Bytes(handle) > 32 then None
    else if exists i :: 0 <= i < |handle| && !(IsLetter(handle[i]) || IsDigit(handle[i]) || handle[i] == '-' || handle[i] == '_') then None
    else if handle[0] == '-' || handle[0] == '_' then None
    else
      LowerIsLower(handle);
      if IsReserved(Lower(handle)) then None else Some(Lower(handle))
  }

  predicate IsHandleChar(c: char) {
    IsLetter(c) || IsDigit(c) || c == '-' || c == '_'
  }

  /** The handles that accounts may have. */
  ghost predicate IsHandle(h: string) {
    && 2 <= |h| <= 32
    && (forall i :: 0 <= i < |h| ==> IsHandleChar(h[i]))
    && IsLower(h) && (IsLetter(h[0]) || IsDigit(h[0]))
    && h != "admin" && h != "devsite" && h != "security" && h != "support"
  }

  lemma {:induction false} HandleBytes(h: string)
    requires forall i :: 0 <= i < |h| ==> IsHandleChar(h[i])
    ensures Bytes(h) == |h|
  {
    if h != [] { HandleBytes(h[1..]); }
  }

  lemma LowerHandleChar(c: char)
    ensures IsHandleChar(LowerChar(c)) <==> IsHandleChar(c)
    ensures IsLetter(LowerChar(c)) <==> IsLetter(c)
  {
  }

  /** A text is accepted exactly when what is left of it, without the whitespace around it and
      the `@`s in front, is a handle but for letter case; and it gives that handle. */
  lemma HandleExact(text: string, h: string)
    ensures ValidateHandle(text) == Some(h) <==> IsHandle(h) && Lower(TrimAts(Trim(text))) == h
  {
    var x := TrimAts(Trim(text));
    LowerIsLower(x);
    forall i | 0 <= i < |x| ensures IsHandleChar(Lower(x)[i]) <==> IsHandleChar(x[i]) { LowerHandleChar(x[i]); }
    if forall i :: 0 <= i < |x| ==> IsHandleChar(x[i]) {
      HandleBytes(x);
      if x != [] { LowerHandleChar(x[0]); }
    }
  }

  /** Every `@` in front is taken off, and nothing else. */
  lemma {:induction false} TrimAtsExact(s: string) returns (ats: string)
    ensures s == ats + TrimAts(s) && (forall i :: 0 <= i < |ats| ==> ats[i] == '@')
    ensures TrimAts(s) != [] ==> TrimAts(s)[0] != '@'
  {
    if s != [] && s[0] == '@' {
      var more := TrimAtsExact(s[1..]);
      ats := ['@'] + more;
    } else {
      ats := [];
    }
  }

  /** A handle is accepted as it is. */
  lemma HandleFixed(h: string)
    requires IsHandle(h)
    ensures ValidateHandle(h) == Some(h)
  {
    assert IsHandleChar(h[0]) && IsHandleChar(h[|h| - 1]);
    TrimTrimmed(h);
    LowerFixed(h);
    HandleExact(h, h);
  }

  /** The account with a handle, compared without case. */
  ghost function AccountByHandle(t: Tables, handle: string): (r: Option<AccountId>)
    ensures r.Some? ==> r.value in t.accounts && HasHandle(t, r.value, handle)
    ensures r.None? ==> forall a :: a in t.accounts ==> !HasHandle(t, a, handle)
  {
    if exists a :: a in t.accounts && HasHandle(t, a, handle) then
      var a :| a in t.accounts && HasHandle(t, a, handle);
      Some(a)
    else None
  }

  predicate HasHandle(t: Tables, a: AccountId, handle: string)
    requires a in t.accounts
  {
    t.accounts[a].Some? && Lower(t.accounts[a].value) == Lower(handle)
  }

  lemma HandleUnique(t: Tables, a: AccountId, handle: string)
    requires Inv(t) && a in t.accounts && HasHandle(t, a, handle)
    ensures AccountByHandle(t, handle) == Some(a)
  {
    var b := AccountByHandle(t, handle).value;
    LowerFixed(t.accounts[a].value);
    LowerFixed(t.accounts[b].value);
  }

  // -- share targets ---------------------------------------------------------------------------

  /** The accounts that `handles` name, in order and once each, after those in `done`. */
  ghost function ResolveFrom(t: Tables, owner: AccountId, handles: seq<string>, done: seq<AccountId>): Result<seq<AccountId>, ApiError>
    decreases |handles|
  {
    if handles == [] then Ok(done)
    else
      var handle := ValidateHandle(handles[0]);
      if handle.None? then Err(BadRequest)
      else
        var viewer := AccountByHandle(t, handle.value);
        if viewer.None? || viewer.value == owner then Err(BadRequest)
        else ResolveFrom(t, owner, handles[1..], if viewer.value in done then done else done + [viewer.value])
  }

  ghost function ResolveShares(t: Tables, owner: AccountId, handles: seq<string>): Result<seq<AccountId>, ApiError> {
    if |handles| > MAX_SHARES then Err(BadRequest) else ResolveFrom(t, owner, handles, [])
  }

  ghost predicate ResolvedOk(t: Tables, owner: AccountId, viewers: seq<AccountId>) {
    && (forall i :: 0 <= i < |viewers| ==> HandleOf(t, viewers[i]).Some? && viewers[i] != owner)
    && (forall i, j :: 0 <= i < j < |viewers| ==> viewers[i] != viewers[j])
  }

  lemma {:induction false} ResolveFromOk(t: Tables, owner: AccountId, handles: seq<string>, done: seq<AccountId>)
    requires ResolvedOk(t, owner, done) && ResolveFrom(t, owner, handles, done).Ok?
    ensures ResolvedOk(t, owner, ResolveFrom(t, owner, handles, done).value)
    ensures handles == [] ==> ResolveFrom(t, owner, handles, done).value == done
    decreases |handles|
  {
    if handles != [] {
      var viewer := AccountByHandle(t, ValidateHandle(handles[0]).value).value;
      ResolveFromOk(t, owner, handles[1..], if viewer in done then done else done + [viewer]);
    }
  }

  method ResolveShareAccounts(db: Database.Db, owner: AccountId, handles: seq<string>)
    returns (r: Result<seq<AccountId>, ApiError>)
    requires Inv(db.View())
    ensures r == ResolveShares(db.View(), owner, handles)
  {
    if |handles| > MAX_SHARES { return Err(BadRequest); }
    var viewers: seq<AccountId> := [];
    for i := 0 to |handles|
      invariant ResolveShares(db.View(), owner, handles) == ResolveFrom(db.View(), owner, handles[i..], viewers)
    {
      assert handles[i..][1..] == handles[i + 1..];
      var handle := ValidateHandle(handles[i]);
      if handle.None? { return Err(BadRequest); }
      if viewer :| viewer in db.accounts && db.accounts[viewer].Some?
                   && Lower(db.accounts[viewer].value) == Lower(handle.value)
      {
        HandleUnique(db.View(), viewer, handle.value);
        if viewer == owner { return Err(BadRequest); }
        if viewer !in viewers { viewers := viewers + [viewer]; }
      } else {
        return Err(BadRequest);
      }
    }
    return Ok(viewers);
  }

  // -- resources ----------------------------------------------------------------------------------

  datatype ResourceRequest = ResourceRequest(
    name: string, kind: string, visibility: string, url: Option<string>, shareWith: seq<string>, folder: Option<string>)

  /** A request that passed every check. */
  datatype Prepared = Prepared(
    name: string, kind: ResourceKind, visibility: Visibility, url: Option<string>, folder: Option<string>,
    viewers: seq<AccountId>)

  predicate NoControl(s: string) {
    forall i :: 0 <= i < |s| ==> !IsControl(s[i])
  }

  predicate ValidName(name: string) {
    Trim(name) == name && name != [] && |name| <= MAX_RESOURCE_NAME && NoControl(name)
  }

  function ParseKind(text: string): Option<ResourceKind> {
    if text == "link" then Some(Link) else if text == "service" then Some(Service) else None
  }

  function ParseVisibility(text: string): Option<Visibility> {
    if text == "public" then Some(Public) else if text == "private" then Some(Private)
    else if text == "shared" then Some(Shared) else None
  }

  /** A blank folder is no folder. */
  function ValidateFolder(folder: Option<string>): Result<Option<string>, ApiError> {
    if folder.None? || Trim(folder.value) == [] then Ok(None)
    else if |Trim(folder.value)| > FolderNames.MAX_FOLDER_NAME || !NoControl(Trim(folder.value)) then Err(BadRequest)
    else Ok(Some(Trim(folder.value)))
  }

  /** The url a resource of this kind is stored with: a link needs one, a service has none. */
  function ValidateUrl(lib: Libraries, kind: ResourceKind, url: Option<string>): Result<Option<string>, ApiError> {
    match kind
    case Link =>
      if url.None? || lib.publicUrl(url.value).None? then Err(BadRequest)
      else Ok(lib.publicUrl(url.value))
    case Service => if url.Some? then Err(BadRequest) else Ok(None)
  }

  function OwnedResources(t: Tables, owner: AccountId): set<ResourceId> {
    set id | id in t.resources && t.resources[id].owner == owner
  }

  ghost function Prepare(lib: Libraries, t: Tables, owner: AccountId, request: ResourceRequest): Result<Prepared, ApiError> {
    var kind := ParseKind(request.kind);
    var visibility := ParseVisibility(request.visibility);
    if !ValidName(request.name) || kind.None? || visibility.None? then Err(BadRequest)
    else if kind.value == Service && visibility.value == Public then Err(BadRequest)
    else if visibility.value != Shared && request.shareWith != [] then Err(BadRequest)
    else
      var url := ValidateUrl(lib, kind.value, request.url);
      var folder := ValidateFolder(request.folder);
      if url.Err? || folder.Err? then Err(BadRequest)
      else if FindResource(t, owner, request.name, kind.value).None? && |OwnedResources(t, owner)| >= MAX_RESOURCES then Err(BadRequest)
      else
        match ResolveShares(t, owner, request.shareWith)
        case Err(e) => Err(e)
        case Ok(viewers) => Ok(Prepared(request.name, kind.value, visibility.value, url.value, folder.value, viewers))
  }

  ghost predicate PreparedOk(t: Tables, owner: AccountId, p: Prepared) {
    && ResolvedOk(t, owner, p.viewers)
    && (p.visibility != Shared ==> p.viewers == [])
    && (p.kind == Service ==> p.visibility != Public && p.url.None?)
    && (p.kind == Link ==> p.url.Some?)
  }

  lemma PrepareOk(lib: Libraries, t: Tables, owner: AccountId, request: ResourceRequest)
    requires Prepare(lib, t, owner, request).Ok?
    ensures PreparedOk(t, owner, Prepare(lib, t, owner, request).value)
  {
    ResolveFromOk(t, owner, request.shareWith, []);
  }

  function AccountSet(viewers: seq<AccountId>): set<AccountId> {
    set v | v in viewers
  }

  /** Apply a request that passed its checks: the tables, and the resource it went to. */
  ghost function PutPrepared(t: Tables, owner: AccountId, p: Prepared, newId: ResourceId): (Tables, ResourceId) {
    Put(t, owner, p.name, p.kind, p.visibility, p.url, p.folder, AccountSet(p.viewers), newId)
  }

  /** `create_resource` under the lock: check the request, then put the resource and its
      whole share list. */
  ghost function PutResource(lib: Libraries, t: Tables, owner: AccountId, request: ResourceRequest, newId: ResourceId)
    : Result<(Tables, ResourceId), ApiError>
  {
    match Prepare(lib, t, owner, request)
    case Err(e) => Err(e)
    case Ok(p) => Ok(PutPrepared(t, owner, p, newId))
  }

  /** What `set_resource_shares` checks under the lock, and the accounts it then invites. */
  ghost function ShareTargets(t: Tables, owner: AccountId, id: ResourceId, handles: seq<string>): Result<seq<AccountId>, ApiError> {
    if id !in t.resources || t.resources[id].owner != owner then Err(NotFound)
    else if t.resources[id].visibility != Shared && handles != [] then Err(BadRequest)
    else ResolveShares(t, owner, handles)
  }

  /** `set_resource_shares` under the lock. */
  ghost function PutShares(t: Tables, owner: AccountId, id: ResourceId, handles: seq<string>): Result<Tables, ApiError> {
    match ShareTargets(t, owner, id, handles)
    case Err(e) => Err(e)
    case Ok(viewers) => Ok(SetShares(t, id, AccountSet(viewers)))
  }

  lemma ShareTargetsOk(t: Tables, owner: AccountId, id: ResourceId, handles: seq<string>)
    requires ShareTargets(t, owner, id, handles).Ok?
    ensures var viewers := AccountSet(ShareTargets(t, owner, id, handles).value);
            id in t.resources && t.resources[id].owner == owner && ViewersOk(t, owner, t.resources[id].visibility, viewers)
  {
    ResolveFromOk(t, owner, handles, []);
  }

  lemma PutResourceKeepsInv(lib: Libraries, t: Tables, owner: AccountId, request: ResourceRequest, newId: ResourceId)
    requires Inv(t) && owner in t.accounts && Fresh(t, newId) && PutResource(lib, t, owner, request, newId).Ok?
    ensures Inv(PutResource(lib, t, owner, request, newId).value.0)
  {
    PrepareOk(lib, t, owner, request);
    var p := Prepare(lib, t, owner, request).value;
    PutKeepsInv(t, owner, p.name, p.kind, p.visibility, p.url, p.folder, AccountSet(p.viewers), newId);
  }

  lemma PutSharesKeepsInv(t: Tables, owner: AccountId, id: ResourceId, handles: seq<string>)
    requires Inv(t) && PutShares(t, owner, id, handles).Ok?
    ensures Inv(PutShares(t, owner, id, handles).value)
  {
    ShareTargetsOk(t, owner, id, handles);
    SetSharesKeepsInv(t, id, AccountSet(ShareTargets(t, owner, id, handles).value));
  }
}

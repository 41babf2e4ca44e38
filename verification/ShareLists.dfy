/** Which accounts a share list names, and what naming them does to the tables. */
module ShareLists {
  import opened Text
  import opened State
  import opened Sharing
  import opened Requests

  /** The text, without whitespace around it and `@`s in front, is the account's handle but for
      letter case. */
  ghost predicate Names(t: Tables, text: string, a: AccountId) {
    && IsHandle(Lower(TrimAts(Trim(text))))
    && a in t.accounts && t.accounts[a].Some? && Lower(t.accounts[a].value) == Lower(TrimAts(Trim(text)))
  }

  /** Some account other than the owner is named. */
  ghost predicate NamesOther(t: Tables, owner: AccountId, text: string) {
    exists a :: a != owner && Names(t, text, a)
  }

  lemma OneNamed(t: Tables, text: string, a: AccountId, b: AccountId)
    requires Inv(t) && Names(t, text, a) && Names(t, text, b)
    ensures a == b
  {
    LowerFixed(t.accounts[a].value);
    LowerFixed(t.accounts[b].value);
  }

  /** The account that the server finds for a text is the one it names. */
  lemma FoundExact(t: Tables, text: string, a: AccountId)
    requires Inv(t)
    ensures (ValidateHandle(text).Some? && AccountByHandle(t, ValidateHandle(text).value) == Some(a)) <==> Names(t, text, a)
  {
    var h := Lower(TrimAts(Trim(text)));
    HandleExact(text, h);
    if ValidateHandle(text).Some? { HandleExact(text, ValidateHandle(text).value); }
    LowerIsLower(TrimAts(Trim(text)));
    var found := AccountByHandle(t, h);
    if Names(t, text, a) { HandleUnique(t, a, h); }
  }

  ghost predicate AllNamed(t: Tables, owner: AccountId, texts: seq<string>) {
    forall i :: 0 <= i < |texts| ==> NamesOther(t, owner, texts[i])
  }

  ghost predicate NamedIn(t: Tables, texts: seq<string>, a: AccountId) {
    exists i :: 0 <= i < |texts| && Names(t, texts[i], a)
  }

  lemma NamedInFirst(t: Tables, texts: seq<string>, a: AccountId)
    requires texts != []
    ensures NamedIn(t, texts, a) <==> Names(t, texts[0], a) || NamedIn(t, texts[1..], a)
  {
    if i :| 0 <= i < |texts| && Names(t, texts[i], a) {
      if i > 0 { assert Names(t, texts[1..][i - 1], a); }
    }
    if i :| 0 <= i < |texts[1..]| && Names(t, texts[1..][i], a) { assert Names(t, texts[i + 1], a); }
  }

  lemma AllNamedFirst(t: Tables, owner: AccountId, texts: seq<string>)
    requires texts != []
    ensures AllNamed(t, owner, texts) <==> NamesOther(t, owner, texts[0]) && AllNamed(t, owner, texts[1..])
  {
    assert forall i :: 1 <= i < |texts| ==> texts[i] == texts[1..][i - 1];
  }

  /** What one text of a list does. */
  lemma NextText(t: Tables, owner: AccountId, texts: seq<string>, done: seq<AccountId>, v: AccountId)
    requires Inv(t) && texts != []
    ensures !NamesOther(t, owner, texts[0]) ==> ResolveFrom(t, owner, texts, done) == Err(BadRequest)
    ensures v != owner && Names(t, texts[0], v) ==>
              ResolveFrom(t, owner, texts, done) == ResolveFrom(t, owner, texts[1..], if v in done then done else done + [v])
  {
    FoundExact(t, texts[0], v);
    var handle := ValidateHandle(texts[0]);
    if handle.Some? && AccountByHandle(t, handle.value).Some? {
      FoundExact(t, texts[0], AccountByHandle(t, handle.value).value);
    }
  }

  ghost predicate Distinct(viewers: seq<AccountId>) {
    forall i, j :: 0 <= i < j < |viewers| ==> viewers[i] != viewers[j]
  }

  /** Some text names `a`, and no text up to it names `b`. */
  ghost predicate NamedBefore(t: Tables, texts: seq<string>, a: AccountId, b: AccountId) {
    exists i :: 0 <= i < |texts| && Names(t, texts[i], a) && forall j :: 0 <= j <= i ==> !Names(t, texts[j], b)
  }

  lemma NamedBeforeLater(t: Tables, texts: seq<string>, a: AccountId, b: AccountId)
    requires texts != [] && NamedBefore(t, texts[1..], a, b) && !Names(t, texts[0], b)
    ensures NamedBefore(t, texts, a, b)
  {
    var i :| 0 <= i < |texts[1..]| && Names(t, texts[1..][i], a) && forall j :: 0 <= j <= i ==> !Names(t, texts[1..][j], b);
    assert Names(t, texts[i + 1], a);
    forall j | 0 <= j <= i + 1 ensures !Names(t, texts[j], b) {
      if j > 0 { assert !Names(t, texts[1..][j - 1], b); }
    }
  }

  /** The accounts after those in `done` come in the order in which they are first named. */
  ghost predicate InOrder(t: Tables, texts: seq<string>, done: seq<AccountId>, viewers: seq<AccountId>) {
    && done <= viewers && Distinct(viewers)
    && forall x, y :: 0 <= x < y < |viewers| && |done| <= y ==> x < |done| || NamedBefore(t, texts, viewers[x], viewers[y])
  }

  lemma OrderNext(t: Tables, texts: seq<string>, done: seq<AccountId>, v: AccountId, viewers: seq<AccountId>)
    requires Inv(t) && texts != [] && Names(t, texts[0], v)
    requires InOrder(t, texts[1..], if v in done then done else done + [v], viewers)
    ensures InOrder(t, texts, done, viewers)
  {
    var next := if v in done then done else done + [v];
    assert v in next;
    forall x, y | 0 <= x < y < |viewers| && |done| <= y ensures x < |done| || NamedBefore(t, texts, viewers[x], viewers[y]) {
      if |next| <= y {
        var k :| 0 <= k < |next| && next[k] == v;
        assert viewers[k] == v && viewers[y] != v;
        if Names(t, texts[0], viewers[y]) { OneNamed(t, texts[0], v, viewers[y]); }
        if |done| <= x < |next| {
          assert viewers[x] == v;
          assert NamedBefore(t, texts, v, viewers[y]);
        } else if |next| <= x {
          NamedBeforeLater(t, texts, viewers[x], viewers[y]);
        }
      }
    }
  }

  lemma {:induction false} ResolveFromExact(t: Tables, owner: AccountId, texts: seq<string>, done: seq<AccountId>, a: AccountId)
    requires Inv(t) && Distinct(done)
    ensures var r := ResolveFrom(t, owner, texts, done);
            && (r.Ok? <==> AllNamed(t, owner, texts))
            && (r.Err? ==> r == Err(BadRequest))
            && (r.Ok? ==> (a in r.value <==> a in done || NamedIn(t, texts, a)) && InOrder(t, texts, done, r.value))
    decreases |texts|
  {
    if texts != [] {
      NamedInFirst(t, texts, a);
      AllNamedFirst(t, owner, texts);
      if v :| v != owner && Names(t, texts[0], v) {
        NextText(t, owner, texts, done, v);
        var next := if v in done then done else done + [v];
        ResolveFromExact(t, owner, texts[1..], next, a);
        if Names(t, texts[0], a) { OneNamed(t, texts[0], v, a); }
        var r := ResolveFrom(t, owner, texts[1..], next);
        if r.Ok? { OrderNext(t, texts, done, v, r.value); }
      } else {
        NextText(t, owner, texts, done, owner);
      }
    }
  }

  /** A share list is taken exactly when it has at most 25 texts and each names an account other
      than the owner. It then gives exactly the accounts that are named, once each, in the order in
      which they are first named; otherwise the request is bad. */
  lemma ResolveExact(t: Tables, owner: AccountId, texts: seq<string>, a: AccountId)
    requires Inv(t)
    ensures var r := ResolveShares(t, owner, texts);
            && (r.Ok? <==> |texts| <= 25 && AllNamed(t, owner, texts))
            && (r.Err? ==> r == Err(BadRequest))
            && (r.Ok? ==> (a in r.value <==> NamedIn(t, texts, a)) && InOrder(t, texts, [], r.value))
  {
    ResolveFromExact(t, owner, texts, [], a);
  }

  // -- the tables afterwards ------------------------------------------------------------------------

  lemma RecipientIs(t: Tables, id: ResourceId, a: AccountId)
    ensures a in Recipients(t, id) <==> Status(t, (id, a)).Some?
  {
    assert (id, a).1 == a;
  }

  /** After a request for a resource, its recipients are exactly the accounts that the request's
      list names. */
  lemma PutResourceRecipients(lib: Libraries, t: Tables, owner: AccountId, request: ResourceRequest, newId: ResourceId, a: AccountId)
    requires Inv(t) && Fresh(t, newId) && PutResource(lib, t, owner, request, newId).Ok?
    ensures var (u, id) := PutResource(lib, t, owner, request, newId).value;
            a in Recipients(u, id) <==> NamedIn(t, request.shareWith, a)
  {
    var p := Prepare(lib, t, owner, request).value;
    var (u, id) := PutPrepared(t, owner, p, newId);
    ResolveExact(t, owner, request.shareWith, a);
    PutStatus(t, owner, p.name, p.kind, p.visibility, p.url, p.folder, AccountSet(p.viewers), newId, (id, a));
    RecipientIs(u, id, a);
  }

  /** After a request for a share list, the recipients of its resource are exactly the accounts that
      the list names. */
  lemma PutSharesRecipients(t: Tables, owner: AccountId, id: ResourceId, texts: seq<string>, a: AccountId)
    requires Inv(t) && PutShares(t, owner, id, texts).Ok?
    ensures a in Recipients(PutShares(t, owner, id, texts).value, id) <==> NamedIn(t, texts, a)
  {
    var viewers := ShareTargets(t, owner, id, texts).value;
    ResolveExact(t, owner, texts, a);
    SetSharesStatus(t, id, AccountSet(viewers), (id, a));
    RecipientIs(SetShares(t, id, AccountSet(viewers)), id, a);
  }

  /** A share list is replaced exactly when the owner names it for a resource of its own, with
      nobody in it unless the resource is shared, and every text in it names somebody else. */
  lemma PutSharesExact(t: Tables, owner: AccountId, id: ResourceId, texts: seq<string>)
    requires Inv(t)
    ensures var r := PutShares(t, owner, id, texts);
            && (r == Err(NotFound) <==> id !in t.resources || t.resources[id].owner != owner)
            && (r.Ok? <==> && id in t.resources && t.resources[id].owner == owner
                           && (texts != [] ==> t.resources[id].visibility == Shared)
                           && |texts| <= 25 && AllNamed(t, owner, texts))
            && (r.Err? ==> r == Err(NotFound) || r == Err(BadRequest))
  {
    ResolveExact(t, owner, texts, owner);
  }

  // -- what a request for a resource must be -------------------------------------------------------------

  /** The folder that a request puts its resource into. */
  ghost predicate Files(folder: Option<string>, filed: Option<string>) {
    if folder.None? || Blank(folder.value) then filed.None?
    else
      && filed.Some? && IsTrimmed(filed.value) && |filed.value| <= 40 && NoControl(filed.value)
      && exists pre, post :: Blank(pre) && Blank(post) && folder.value == pre + filed.value + post
  }

  lemma TrimUnique(a: string, text: string, b: string)
    requires Blank(a) && Blank(b) && IsTrimmed(text)
    ensures Trim(a + text + b) == text
  {
    if text == [] { TrimmedBlank(a + text + b); } else { TrimPadded(a, text, b); }
  }

  lemma FilesExact(folder: Option<string>, filed: Option<string>)
    ensures ValidateFolder(folder) == Ok(filed) <==> Files(folder, filed)
  {
    if folder.Some? {
      TrimmedBlank(folder.value);
      var pre, post := TrimShape(folder.value);
      if filed.Some? && !Blank(folder.value) {
        forall a, b | Blank(a) && Blank(b) && folder.value == a + filed.value + b && IsTrimmed(filed.value)
          ensures filed.value == Trim(folder.value)
        {
          TrimUnique(a, filed.value, b);
        }
      }
    }
  }

  lemma TrimmedBlank(s: string)
    ensures Trim(s) == [] <==> Blank(s)
  {
    var pre, post := TrimShape(s);
    if Blank(s) {
      TrimStartPadded(s, []);
      assert s + [] == s;
    }
  }

  ghost predicate KindNamed(text: string, kind: ResourceKind) {
    (text == "link" && kind == Link) || (text == "service" && kind == Service)
  }

  ghost predicate VisibilityNamed(text: string, visibility: Visibility) {
    (text == "public" && visibility == Public) || (text == "private" && visibility == Private) || (text == "shared" && visibility == Shared)
  }

  ghost function Owned(t: Tables, owner: AccountId): set<ResourceId> {
    set id | id in t.resources && t.resources[id].owner == owner
  }

  /** A request that may be applied, and what it then asks for. */
  ghost predicate Acceptable(lib: Libraries, t: Tables, owner: AccountId, request: ResourceRequest, p: Prepared) {
    && p.name == request.name && IsTrimmed(p.name) && 1 <= |p.name| <= 80 && NoControl(p.name)
    && KindNamed(request.kind, p.kind) && VisibilityNamed(request.visibility, p.visibility)
    && !(p.kind == Service && p.visibility == Public)
    && (p.visibility != Shared ==> request.shareWith == [])
    && Links(lib, p.kind, request.url, p.url)
    && Files(request.folder, p.folder)
    && (|Owned(t, owner)| < 100 || exists id :: id in t.resources && Matches(t.resources[id], owner, p.name, p.kind))
    && ResolveShares(t, owner, request.shareWith) == Ok(p.viewers)
  }

  lemma KindExact(text: string, kind: ResourceKind)
    ensures ParseKind(text) == Some(kind) <==> KindNamed(text, kind)
  {
    assert "link"[0] != "service"[0];
  }

  lemma VisibilityExact(text: string, visibility: Visibility)
    ensures ParseVisibility(text) == Some(visibility) <==> VisibilityNamed(text, visibility)
  {
    assert "public"[1] != "private"[1] && "public"[0] != "shared"[0] && "private"[0] != "shared"[0];
  }

  /** The URL that a resource of this kind is stored with. */
  ghost predicate Links(lib: Libraries, kind: ResourceKind, url: Option<string>, stored: Option<string>) {
    match kind
    case Link => url.Some? && stored.Some? && lib.publicUrl(url.value) == stored
    case Service => url.None? && stored.None?
  }

  lemma UrlExact(lib: Libraries, kind: ResourceKind, url: Option<string>, stored: Option<string>)
    ensures ValidateUrl(lib, kind, url) == Ok(stored) <==> Links(lib, kind, url, stored)
  {
  }

  lemma NameExact(name: string)
    ensures ValidName(name) <==> IsTrimmed(name) && 1 <= |name| <= 80 && NoControl(name)
  {
    var pre, post := TrimShape(name);
    if IsTrimmed(name) { TrimTrimmed(name); }
  }

  /** A request for a resource passes its checks exactly when it is acceptable; every other one is
      bad. */
  lemma PrepareExact(lib: Libraries, t: Tables, owner: AccountId, request: ResourceRequest, p: Prepared)
    requires Inv(t)
    ensures Prepare(lib, t, owner, request) == Ok(p) <==> Acceptable(lib, t, owner, request, p)
    ensures Prepare(lib, t, owner, request).Err? ==> Prepare(lib, t, owner, request) == Err(BadRequest)
  {
    assert OwnedResources(t, owner) == Owned(t, owner);
    KindExact(request.kind, p.kind);
    VisibilityExact(request.visibility, p.visibility);
    UrlExact(lib, p.kind, request.url, p.url);
    NameExact(request.name);
    FilesExact(request.folder, p.folder);
    ResolveExact(t, owner, request.shareWith, owner);
    var kind := ParseKind(request.kind);
    if kind.Some? { var found := FindResource(t, owner, request.name, kind.value); }
  }
}

/** The limits that requests are checked against hold in every reachable state. */
module Limits {
  import opened State
  import opened Sharing
  import opened Requests
  import opened Access
  import opened ControlPlane
  import opened Reachable
  import Brokered

  /** At most a hundred resources an owner, twenty-five recipients a resource and ten
      credentials an account. */
  ghost predicate Within(t: Tables) {
    && (forall owner :: |OwnedResources(t, owner)| <= MAX_RESOURCES)
    && (forall id :: |Recipients(t, id)| <= MAX_SHARES)
    && (forall account :: |CredentialsOf(t, account)| <= MAX_CREDENTIALS)
  }

  // -- what the checks establish ------------------------------------------------------------------

  lemma {:induction false} ResolvedCount(t: Tables, owner: AccountId, handles: seq<string>, done: seq<AccountId>)
    requires ResolveFrom(t, owner, handles, done).Ok?
    ensures |ResolveFrom(t, owner, handles, done).value| <= |done| + |handles|
    decreases |handles|
  {
    if handles != [] {
      var viewer := AccountByHandle(t, ValidateHandle(handles[0]).value).value;
      ResolvedCount(t, owner, handles[1..], if viewer in done then done else done + [viewer]);
    }
  }

  lemma {:induction false} AccountSetSize(viewers: seq<AccountId>)
    ensures |AccountSet(viewers)| <= |viewers|
  {
    if viewers != [] {
      var n := |viewers| - 1;
      AccountSetSize(viewers[..n]);
      assert viewers == viewers[..n] + [viewers[n]];
      assert AccountSet(viewers) == AccountSet(viewers[..n]) + {viewers[n]};
    }
  }

  /** What the limits need of a request that passed its checks. */
  ghost predicate ShareFits(t: Tables, s: ShareEvent) {
    && (s.PuttingShares? && s.targets.Ok? ==> |AccountSet(s.targets.value)| <= MAX_SHARES)
    && (s.PuttingResource? && s.prepared.Ok? ==>
          && |AccountSet(s.prepared.value.viewers)| <= MAX_SHARES
          && (FindResource(t, s.owner, s.prepared.value.name, s.prepared.value.kind).Some?
              || |OwnedResources(t, s.owner)| < MAX_RESOURCES))
  }

  lemma TargetsFit(t: Tables, owner: AccountId, handles: seq<string>)
    requires ResolveShares(t, owner, handles).Ok?
    ensures |AccountSet(ResolveShares(t, owner, handles).value)| <= MAX_SHARES
  {
    ResolvedCount(t, owner, handles, []);
    AccountSetSize(ResolveShares(t, owner, handles).value);
  }

  lemma AnswersFit(c: Config, w: World, s: ShareEvent)
    requires ShareAnswers(c, w, s)
    ensures ShareFits(w.t, s)
  {
    if s.PuttingShares? && s.targets.Ok? {
      TargetsFit(w.t, s.owner, s.handles);
    } else if s.PuttingResource? && s.prepared.Ok? {
      TargetsFit(w.t, s.owner, s.request.shareWith);
    }
  }

  // -- owners ------------------------------------------------------------------------------------------

  lemma UpdatedOwned(t: Tables, u: Tables, id: ResourceId, r: Resource, owner: AccountId)
    requires u.resources == t.resources[id := r]
    ensures OwnedResources(u, owner) <= OwnedResources(t, owner) + if owner == r.owner then {id} else {}
    ensures id in t.resources && t.resources[id].owner == r.owner ==> OwnedResources(u, owner) == OwnedResources(t, owner)
  {
  }

  lemma PutOwned(t: Tables, s: ShareEvent, owner: AccountId)
    requires Inv(t) && s.PuttingResource? && s.prepared.Ok? && s.newId !in t.resources && ShareFits(t, s)
    requires |OwnedResources(t, owner)| <= MAX_RESOURCES
    ensures |OwnedResources(ShareAfter(t, s), owner)| <= MAX_RESOURCES
  {
    var p, u := s.prepared.value, ShareAfter(t, s);
    InvFresh(t, s.newId);
    PutStatus(t, s.owner, p.name, p.kind, p.visibility, p.url, p.folder, AccountSet(p.viewers), s.newId, (s.newId, owner));
    var id := PutPrepared(t, s.owner, p, s.newId).1;
    UpdatedOwned(t, u, id, Resource(s.owner, p.name, p.kind, p.visibility, p.url, p.folder), owner);
    if id !in t.resources {
      Brokered.SubsetSize(OwnedResources(u, owner), OwnedResources(t, owner) + if owner == s.owner then {id} else {});
    }
  }

  lemma ShareOwned(t: Tables, s: ShareEvent, owner: AccountId)
    requires Inv(t) && (s.PuttingResource? ==> s.newId !in t.resources) && ShareFits(t, s)
    requires |OwnedResources(t, owner)| <= MAX_RESOURCES
    ensures |OwnedResources(ShareAfter(t, s), owner)| <= MAX_RESOURCES
  {
    if s.PuttingResource? && s.prepared.Ok? {
      PutOwned(t, s, owner);
    } else {
      Brokered.SubsetSize(OwnedResources(ShareAfter(t, s), owner), OwnedResources(t, owner));
    }
  }

  // -- recipients ----------------------------------------------------------------------------------------

  lemma RecipientIsStatus(t: Tables, id: ResourceId, v: AccountId)
    ensures v in Recipients(t, id) <==> Status(t, (id, v)).Some?
  {
    assert (id, v).1 == v;
  }

  lemma FewerRecipients(t: Tables, u: Tables, id: ResourceId, allowed: set<AccountId>)
    requires |allowed| <= MAX_SHARES && forall v :: Status(u, (id, v)).Some? ==> v in allowed
    ensures |Recipients(u, id)| <= MAX_SHARES
  {
    forall v | v in Recipients(u, id) ensures v in allowed { RecipientIsStatus(u, id, v); }
    Brokered.SubsetSize(Recipients(u, id), allowed);
  }

  lemma PutRecipients(t: Tables, s: ShareEvent, id: ResourceId)
    requires Inv(t) && s.PuttingResource? && s.prepared.Ok? && s.newId !in t.resources && ShareFits(t, s)
    requires |Recipients(t, id)| <= MAX_SHARES
    ensures |Recipients(ShareAfter(t, s), id)| <= MAX_SHARES
  {
    var p, u := s.prepared.value, ShareAfter(t, s);
    InvFresh(t, s.newId);
    var target := PutPrepared(t, s.owner, p, s.newId).1;
    var allowed := if id == target then AccountSet(p.viewers) else Recipients(t, id);
    forall v | Status(u, (id, v)).Some? ensures v in allowed {
      PutStatus(t, s.owner, p.name, p.kind, p.visibility, p.url, p.folder, AccountSet(p.viewers), s.newId, (id, v));
      RecipientIsStatus(t, id, v);
    }
    FewerRecipients(t, u, id, allowed);
  }

  lemma SetSharesRecipients(t: Tables, at: ResourceId, viewers: set<AccountId>, id: ResourceId)
    requires Inv(t) && |viewers| <= MAX_SHARES && |Recipients(t, id)| <= MAX_SHARES
    ensures |Recipients(SetShares(t, at, viewers), id)| <= MAX_SHARES
  {
    var allowed := if id == at then viewers else Recipients(t, id);
    forall v | Status(SetShares(t, at, viewers), (id, v)).Some? ensures v in allowed {
      SetSharesStatus(t, at, viewers, (id, v));
      RecipientIsStatus(t, id, v);
    }
    FewerRecipients(t, SetShares(t, at, viewers), id, allowed);
  }

  lemma OtherRecipients(t: Tables, s: ShareEvent, id: ResourceId)
    requires Inv(t) && !s.PuttingResource? && !s.PuttingShares? && |Recipients(t, id)| <= MAX_SHARES
    ensures |Recipients(ShareAfter(t, s), id)| <= MAX_SHARES
  {
    forall v | Status(ShareAfter(t, s), (id, v)).Some? ensures v in Recipients(t, id) {
      RecipientIsStatus(t, id, v);
      if s.Dropping? {
        DeleteStatus(t, s.owner, s.id, (id, v));
      } else if s.Accepting? {
        AcceptStatus(t, (s.id, s.viewer), (id, v));
      } else if s.Declining? {
        DeclineStatus(t, (s.id, s.viewer), (id, v));
      }
    }
    FewerRecipients(t, ShareAfter(t, s), id, Recipients(t, id));
  }

  lemma ShareRecipientsFit(t: Tables, s: ShareEvent, id: ResourceId)
    requires Inv(t) && (s.PuttingResource? ==> s.newId !in t.resources) && ShareFits(t, s)
    requires |Recipients(t, id)| <= MAX_SHARES
    ensures |Recipients(ShareAfter(t, s), id)| <= MAX_SHARES
  {
    if s.PuttingResource? {
      if s.prepared.Ok? { PutRecipients(t, s, id); }
    } else if s.PuttingShares? {
      if s.targets.Ok? { SetSharesRecipients(t, s.id, AccountSet(s.targets.value), id); }
    } else {
      OtherRecipients(t, s, id);
    }
  }

  // -- credentials -----------------------------------------------------------------------------------------

  lemma MachineCredentials(t: Tables, m: MachineEvent, account: AccountId)
    requires |CredentialsOf(t, account)| <= MAX_CREDENTIALS
    ensures |CredentialsOf(MachineAfter(t, m), account)| <= MAX_CREDENTIALS
  {
    var u := MachineAfter(t, m);
    if m.AddingCredential? && NewCredential(t, m.account, m.credential, m.hash, m.scopes).Ok? {
      Brokered.SubsetSize(CredentialsOf(u, account), CredentialsOf(t, account) + if account == m.account then {m.credential} else {});
    } else {
      Brokered.SubsetSize(CredentialsOf(u, account), CredentialsOf(t, account));
    }
  }

  // -- runs --------------------------------------------------------------------------------------------------

  lemma SameWithin(t: Tables, u: Tables)
    requires Within(t) && t.resources == u.resources && t.shares == u.shares && t.invitations == u.invitations
    requires forall account :: |CredentialsOf(u, account)| <= MAX_CREDENTIALS
    ensures Within(u)
  {
    forall owner ensures |OwnedResources(u, owner)| <= MAX_RESOURCES { assert OwnedResources(u, owner) == OwnedResources(t, owner); }
    forall id ensures |Recipients(u, id)| <= MAX_SHARES { assert Recipients(u, id) == Recipients(t, id); }
  }

  lemma ShareWithin(w: World, s: ShareEvent)
    requires Inv(w.t) && Within(w.t) && (s.PuttingResource? ==> s.newId !in w.t.resources) && ShareFits(w.t, s)
    ensures Within(ShareAfter(w.t, s))
  {
    var u := ShareAfter(w.t, s);
    ShareFrame(w.t, s);
    forall owner ensures |OwnedResources(u, owner)| <= MAX_RESOURCES { ShareOwned(w.t, s, owner); }
    forall id ensures |Recipients(u, id)| <= MAX_SHARES { ShareRecipientsFit(w.t, s, id); }
    forall account ensures |CredentialsOf(u, account)| <= MAX_CREDENTIALS {
      assert CredentialsOf(u, account) == CredentialsOf(w.t, account);
    }
  }

  lemma StepWithin(c: Config, w: World, e: Event, u: World)
    requires Inv(w.t) && Known(w) && Within(w.t) && Steps(c, w, e, u)
    ensures Within(u.t)
  {
    match e {
      case Share(s) =>
        AnswersFit(c, w, s);
        ShareWithin(w, s);
      case Tunnel(v) =>
        TunnelFrame(w.t, v);
        forall account ensures |CredentialsOf(u.t, account)| <= MAX_CREDENTIALS {
          assert CredentialsOf(u.t, account) == CredentialsOf(w.t, account);
        }
        SameWithin(w.t, u.t);
      case Enrol(m) =>
        MachineFrame(w.t, m);
        forall account ensures |CredentialsOf(u.t, account)| <= MAX_CREDENTIALS { MachineCredentials(w.t, m, account); }
        SameWithin(w.t, u.t);
      case Quiet(_) =>
    }
  }

  lemma EmptyWithin()
    ensures Within(EMPTY)
  {
    forall owner ensures |OwnedResources(EMPTY, owner)| <= MAX_RESOURCES { assert OwnedResources(EMPTY, owner) == {}; }
    forall id ensures |Recipients(EMPTY, id)| <= MAX_SHARES { assert Recipients(EMPTY, id) == {}; }
    forall account ensures |CredentialsOf(EMPTY, account)| <= MAX_CREDENTIALS { assert CredentialsOf(EMPTY, account) == {}; }
  }

  /** The limits are never passed, whatever requests interleave. */
  lemma {:induction false} LimitsHold(c: Config, ws: seq<World>, es: seq<Event>, i: nat)
    requires IsRun(c, ws, es) && i < |ws|
    ensures Within(ws[i].t)
  {
    if i == 0 {
      EmptyWithin();
    } else {
      LimitsHold(c, ws, es, i - 1);
      RunIsTrace(c, ws, es);
      TraceInv(ws, es, i - 1);
      assert StepsAt(c, ws, es, i - 1);
      assert MovesAt(ws, es, i - 1);
      StepWithin(c, ws[i - 1], es[i - 1], ws[i]);
    }
  }
}

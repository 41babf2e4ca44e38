/** The plan of a resource change: what the server says an apply would do, and the proof that
    the apply does exactly that. */
module Plan {
  import opened Text
  import opened State
  import opened Sharing
  import opened Requests
  import Database

  datatype Field = VisibilityField | UrlField | FolderField

  datatype FieldChange = FieldChange(field: Field, from: Option<string>, to: Option<string>)

  datatype Reason = RecipientRemoved | DestinationChange | RecipientAdded

  datatype RecipientChange = RecipientChange(
    handle: string, from: Option<ShareStatus>, to: Option<ShareStatus>, reason: Reason)

  datatype EffectCode = ReapprovalRequired | AccessRevoked | InvitationsWithdrawn | RecipientsInvited

  datatype Effect = Effect(code: EffectCode, handles: seq<string>)

  datatype Operation = Create | Noop | Update

  datatype ResourcePlan = ResourcePlan(
    operation: Operation, changes: seq<FieldChange>, recipientChanges: seq<RecipientChange>, effects: seq<Effect>)

  // -- fields --------------------------------------------------------------------------------

  function VisibilityText(v: Visibility): string {
    match v case Public => "public" case Private => "private" case Shared => "shared"
  }

  /** A field as the plan shows it; every field of a missing resource is null. */
  function FieldOf(r: Option<Resource>, field: Field): Option<string> {
    match r
    case None => None
    case Some(resource) =>
      match field
      case VisibilityField => Some(VisibilityText(resource.visibility))
      case UrlField => resource.url
      case FolderField => resource.folder
  }

  const FIELDS: seq<Field> := [VisibilityField, UrlField, FolderField]

  function FieldChanges(before: Option<Resource>, after: Resource, fields: seq<Field>): seq<FieldChange> {
    if fields == [] then []
    else
      var n := |fields| - 1;
      var change := FieldChange(fields[n], FieldOf(before, fields[n]), FieldOf(Some(after), fields[n]));
      FieldChanges(before, after, fields[..n]) + (if change.from != change.to then [change] else [])
  }

  // -- recipients ------------------------------------------------------------------------------

  /** What becomes of an existing recipient. */
  function Fate(row: ShareRecipient, desired: set<string>, destinationChanged: bool): Option<RecipientChange> {
    if Lower(row.handle) !in desired then Some(RecipientChange(row.handle, Some(row.status), None, RecipientRemoved))
    else if destinationChanged && row.status == Accepted then
      Some(RecipientChange(row.handle, Some(Accepted), Some(Pending), DestinationChange))
    else None
  }

  function ExistingChanges(rows: seq<ShareRecipient>, desired: set<string>, destinationChanged: bool): seq<RecipientChange> {
    if rows == [] then []
    else
      var n := |rows| - 1;
      var fate := Fate(rows[n], desired, destinationChanged);
      ExistingChanges(rows[..n], desired, destinationChanged) + (if fate.Some? then [fate.value] else [])
  }

  function Added(handle: string): RecipientChange {
    RecipientChange(handle, None, Some(Pending), RecipientAdded)
  }

  function AddedChanges(handles: seq<string>, existing: set<string>): seq<RecipientChange> {
    if handles == [] then []
    else
      var n := |handles| - 1;
      AddedChanges(handles[..n], existing) + (if Lower(handles[n]) in existing then [] else [Added(handles[n])])
  }

  /** Which effect a recipient change is listed under. */
  predicate HasEffect(c: RecipientChange, code: EffectCode) {
    match code
    case ReapprovalRequired => c.reason == DestinationChange
    case AccessRevoked => c.reason == RecipientRemoved && c.from == Some(Accepted)
    case InvitationsWithdrawn => c.reason == RecipientRemoved && c.from == Some(Pending)
    case RecipientsInvited => c.reason == RecipientAdded
  }

  function HandlesOf(changes: seq<RecipientChange>, code: EffectCode): seq<string> {
    if changes == [] then []
    else
      var n := |changes| - 1;
      HandlesOf(changes[..n], code) + (if HasEffect(changes[n], code) then [changes[n].handle] else [])
  }

  const CODES: seq<EffectCode> := [ReapprovalRequired, AccessRevoked, InvitationsWithdrawn, RecipientsInvited]

  function Effects(changes: seq<RecipientChange>, codes: seq<EffectCode>): seq<Effect> {
    if codes == [] then []
    else
      var n := |codes| - 1;
      var handles := HandlesOf(changes, codes[n]);
      Effects(changes, codes[..n]) + (if handles != [] then [Effect(codes[n], handles)] else [])
  }

  function LowerSet(handles: seq<string>): set<string> {
    set h | h in handles :: Lower(h)
  }

  function RowNames(rows: seq<ShareRecipient>): set<string> {
    set r | r in rows :: Lower(r.handle)
  }

  function BuildPlan(
    existing: Option<Resource>, rows: seq<ShareRecipient>, after: Resource, desired: seq<string>): ResourcePlan
  {
    var changes := FieldChanges(existing, after, FIELDS);
    var destinationChanged := after.kind == Link && existing.Some? && existing.value.url != after.url;
    var recipientChanges :=
      ExistingChanges(rows, LowerSet(desired), destinationChanged) + AddedChanges(desired, RowNames(rows));
    var operation :=
      if existing.None? then Create else if changes == [] && recipientChanges == [] then Noop else Update;
    ResourcePlan(operation, changes, recipientChanges, Effects(recipientChanges, CODES))
  }

  /** The four effect lists that the recipient loops fill as they go. */
  datatype Lists = Lists(reapproval: seq<string>, revoked: seq<string>, withdrawn: seq<string>, invited: seq<string>)

  function ListsOf(changes: seq<RecipientChange>): Lists {
    Lists(HandlesOf(changes, ReapprovalRequired), HandlesOf(changes, AccessRevoked),
          HandlesOf(changes, InvitationsWithdrawn), HandlesOf(changes, RecipientsInvited))
  }

  /** The lists with one more change in them. */
  function AddTo(l: Lists, c: RecipientChange): Lists {
    Lists(l.reapproval + (if HasEffect(c, ReapprovalRequired) then [c.handle] else []),
          l.revoked + (if HasEffect(c, AccessRevoked) then [c.handle] else []),
          l.withdrawn + (if HasEffect(c, InvitationsWithdrawn) then [c.handle] else []),
          l.invited + (if HasEffect(c, RecipientsInvited) then [c.handle] else []))
  }

  /** A change appended to the list is appended to the handles of its own effect only. */
  lemma HandlesOfSnoc(changes: seq<RecipientChange>, c: RecipientChange, code: EffectCode)
    ensures HandlesOf(changes + [c], code) == HandlesOf(changes, code) + (if HasEffect(c, code) then [c.handle] else [])
  {
    assert (changes + [c])[..|changes|] == changes;
  }

  lemma ListsOfSnoc(changes: seq<RecipientChange>, c: RecipientChange)
    ensures ListsOf(changes + [c]) == AddTo(ListsOf(changes), c)
  {
    HandlesOfSnoc(changes, c, ReapprovalRequired);
    HandlesOfSnoc(changes, c, AccessRevoked);
    HandlesOfSnoc(changes, c, InvitationsWithdrawn);
    HandlesOfSnoc(changes, c, RecipientsInvited);
  }

  method PlanFields(existing: Option<Resource>, after: Resource) returns (changes: seq<FieldChange>)
    ensures changes == FieldChanges(existing, after, FIELDS)
  {
    changes := [];
    for i := 0 to |FIELDS|
      invariant changes == FieldChanges(existing, after, FIELDS[..i])
    {
      assert FIELDS[..i + 1][..i] == FIELDS[..i];
      var before, now := FieldOf(existing, FIELDS[i]), FieldOf(Some(after), FIELDS[i]);
      if before != now { changes := changes + [FieldChange(FIELDS[i], before, now)]; }
    }
    assert FIELDS[..|FIELDS|] == FIELDS;
  }

  /** A removed recipient is revoked or withdrawn, unless it had declined. */
  method ListRemoval(lists: Lists, row: ShareRecipient) returns (next: Lists)
    ensures next == AddTo(lists, RecipientChange(row.handle, Some(row.status), None, RecipientRemoved))
  {
    match row.status {
      case Accepted => next := lists.(revoked := lists.revoked + [row.handle]);
      case Pending => next := lists.(withdrawn := lists.withdrawn + [row.handle]);
      case Declined => next := lists;
    }
  }

  method ListInvited(lists: Lists, handle: string) returns (next: Lists)
    ensures next == AddTo(lists, Added(handle))
  {
    next := lists.(invited := lists.invited + [handle]);
  }

  method PlanRow(row: ShareRecipient, desired: set<string>, destinationChanged: bool,
                 before: seq<RecipientChange>, listsBefore: Lists)
    returns (changes: seq<RecipientChange>, lists: Lists)
    ensures match Fate(row, desired, destinationChanged)
            case None => changes == before && lists == listsBefore
            case Some(c) => changes == before + [c] && lists == AddTo(listsBefore, c)
  {
    changes, lists := before, listsBefore;
    if Lower(row.handle) !in desired {
      changes := changes + [RecipientChange(row.handle, Some(row.status), None, RecipientRemoved)];
      lists := ListRemoval(lists, row);
    } else if destinationChanged && row.status == Accepted {
      changes := changes + [RecipientChange(row.handle, Some(Accepted), Some(Pending), DestinationChange)];
      lists := lists.(reapproval := lists.reapproval + [row.handle]);
    }
  }

  method PlanExisting(rows: seq<ShareRecipient>, desired: set<string>, destinationChanged: bool)
    returns (changes: seq<RecipientChange>, lists: Lists)
    ensures changes == ExistingChanges(rows, desired, destinationChanged) && lists == ListsOf(changes)
  {
    changes, lists := [], Lists([], [], [], []);
    for i := 0 to |rows|
      invariant changes == ExistingChanges(rows[..i], desired, destinationChanged) && lists == ListsOf(changes)
    {
      assert rows[..i + 1][..i] == rows[..i];
      var fate := Fate(rows[i], desired, destinationChanged);
      if fate.Some? { ListsOfSnoc(changes, fate.value); }
      changes, lists := PlanRow(rows[i], desired, destinationChanged, changes, lists);
    }
    assert rows[..|rows|] == rows;
  }

  method PlanAdded(handles: seq<string>, names: set<string>, before: seq<RecipientChange>, listsBefore: Lists)
    returns (changes: seq<RecipientChange>, lists: Lists)
    requires listsBefore == ListsOf(before)
    ensures changes == before + AddedChanges(handles, names) && lists == ListsOf(changes)
  {
    changes, lists := before, listsBefore;
    for i := 0 to |handles|
      invariant changes == before + AddedChanges(handles[..i], names) && lists == ListsOf(changes)
    {
      AddedSnoc(before, handles, names, i);
      if Lower(handles[i]) !in names {
        ListsOfSnoc(changes, Added(handles[i]));
        changes := changes + [Added(handles[i])];
        lists := ListInvited(lists, handles[i]);
      }
    }
    assert handles[..|handles|] == handles;
  }

  lemma AddedSnoc(before: seq<RecipientChange>, handles: seq<string>, names: set<string>, i: nat)
    requires i < |handles|
    ensures before + AddedChanges(handles[..i + 1], names)
            == before + AddedChanges(handles[..i], names) + if Lower(handles[i]) in names then [] else [Added(handles[i])]
  {
    assert handles[..i + 1][..i] == handles[..i];
  }

  method PlanEffects(ghost changes: seq<RecipientChange>, lists: Lists) returns (effects: seq<Effect>)
    requires lists == ListsOf(changes)
    ensures effects == Effects(changes, CODES)
  {
    var listed := [Effect(ReapprovalRequired, lists.reapproval), Effect(AccessRevoked, lists.revoked),
                   Effect(InvitationsWithdrawn, lists.withdrawn), Effect(RecipientsInvited, lists.invited)];
    effects := [];
    for i := 0 to |listed|
      invariant effects == Effects(changes, CODES[..i])
    {
      assert CODES[..i + 1][..i] == CODES[..i];
      if listed[i].handles != [] { effects := effects + [listed[i]]; }
    }
    assert CODES[..|CODES|] == CODES;
  }

  method BuildResourcePlan(
    existing: Option<Resource>, rows: seq<ShareRecipient>, after: Resource, desiredHandles: seq<string>)
    returns (plan: ResourcePlan)
    ensures plan == BuildPlan(existing, rows, after, desiredHandles)
  {
    var changes := PlanFields(existing, after);
    var destinationChanged := after.kind == Link && existing.Some? && existing.value.url != after.url;
    var recipientChanges, lists := PlanExisting(rows, LowerSet(desiredHandles), destinationChanged);
    recipientChanges, lists := PlanAdded(desiredHandles, RowNames(rows), recipientChanges, lists);
    var effects := PlanEffects(recipientChanges, lists);
    var operation :=
      if existing.None? then Create else if changes == [] && recipientChanges == [] then Noop else Update;
    return ResourcePlan(operation, changes, recipientChanges, effects);
  }

  // -- the plan is exact --------------------------------------------------------------------------

  lemma {:induction false} FieldChangesMeaning(before: Option<Resource>, after: Resource, fields: seq<Field>, c: FieldChange)
    ensures c in FieldChanges(before, after, fields)
            <==> c.field in fields && c.from == FieldOf(before, c.field) && c.to == FieldOf(Some(after), c.field) && c.from != c.to
  {
    if fields != [] { FieldChangesMeaning(before, after, fields[..|fields| - 1], c); }
  }

  lemma {:induction false} ExistingChangesMeaning(rows: seq<ShareRecipient>, desired: set<string>, destinationChanged: bool, c: RecipientChange)
    ensures c in ExistingChanges(rows, desired, destinationChanged)
            <==> exists i :: 0 <= i < |rows| && Fate(rows[i], desired, destinationChanged) == Some(c)
  {
    if rows != [] {
      var n := |rows| - 1;
      ExistingChangesMeaning(rows[..n], desired, destinationChanged, c);
      if i :| 0 <= i < n && Fate(rows[..n][i], desired, destinationChanged) == Some(c) {
        assert Fate(rows[i], desired, destinationChanged) == Some(c);
      }
      if i :| 0 <= i < |rows| && Fate(rows[i], desired, destinationChanged) == Some(c) {
        if i < n { assert Fate(rows[..n][i], desired, destinationChanged) == Some(c); }
      }
    }
  }

  lemma {:induction false} AddedChangesMeaning(handles: seq<string>, names: set<string>, c: RecipientChange)
    ensures c in AddedChanges(handles, names) <==> c == Added(c.handle) && c.handle in handles && Lower(c.handle) !in names
  {
    if handles != [] { AddedChangesMeaning(handles[..|handles| - 1], names, c); }
  }

  lemma {:induction false} HandlesOfMeaning(changes: seq<RecipientChange>, code: EffectCode, h: string)
    ensures h in HandlesOf(changes, code) <==> exists c :: c in changes && HasEffect(c, code) && c.handle == h
  {
    if changes != [] { HandlesOfMeaning(changes[..|changes| - 1], code, h); }
  }

  /** The handles listed under an effect of a plan; none when the effect is not there. */
  ghost predicate ListedUnder(plan: ResourcePlan, code: EffectCode, h: string) {
    exists e :: e in plan.effects && e.code == code && h in e.handles
  }

  lemma {:induction false} EffectsMeaning(changes: seq<RecipientChange>, codes: seq<EffectCode>, code: EffectCode, h: string)
    ensures (exists e :: e in Effects(changes, codes) && e.code == code && h in e.handles)
            <==> code in codes && h in HandlesOf(changes, code)
  {
    if codes != [] {
      var n := |codes| - 1;
      EffectsMeaning(changes, codes[..n], code, h);
      if code == codes[n] && h in HandlesOf(changes, code) {
        assert Effect(code, HandlesOf(changes, code)) in Effects(changes, codes);
      }
    }
  }

  /** Everything a plan is computed from, for one request against one state. `order` is whose
      row each row of `rows` is. */
  ghost predicate Planned(
    t: Tables, owner: AccountId, p: Prepared, order: seq<AccountId>, rows: seq<ShareRecipient>, desired: seq<string>)
  {
    && Inv(t) && PreparedOk(t, owner, p)
    && (match FindResource(t, owner, p.name, p.kind)
        case Some(id) => Database.IsListing(t, id, order, rows)
        case None => order == [] && rows == [])
    && |desired| == |p.viewers|
    && forall i :: 0 <= i < |desired| ==> HandleOf(t, p.viewers[i]) == Some(desired[i])
  }

  ghost function Existing(t: Tables, owner: AccountId, p: Prepared): Option<Resource> {
    match FindResource(t, owner, p.name, p.kind)
    case Some(id) => Some(t.resources[id])
    case None => None
  }

  function After(owner: AccountId, p: Prepared): Resource {
    Resource(owner, p.name, p.kind, p.visibility, p.url, p.folder)
  }

  lemma AppliedStatus(t: Tables, owner: AccountId, p: Prepared, newId: ResourceId, r: Recipient)
    requires Inv(t) && Fresh(t, newId)
    ensures var (u, id) := PutPrepared(t, owner, p, newId);
            && Status(u, r) == (if r.0 == id then NextStatus(Status(t, r), r.1 in p.viewers, DestinationChanged(t, id, p.url)) else Status(t, r))
            && u.resources == t.resources[id := After(owner, p)] && u.accounts == t.accounts
            && u.shares !! u.invitations.Keys
            && (Existing(t, owner, p).Some? ==> id in t.resources && Existing(t, owner, p) == Some(t.resources[id]))
            && (Existing(t, owner, p).None? ==> id == newId)
  {
    PutStatus(t, owner, p.name, p.kind, p.visibility, p.url, p.folder, AccountSet(p.viewers), newId, r);
  }

  /** Field changes of the plan are the differences between the resource before and after. */
  lemma FieldsExact(t: Tables, owner: AccountId, p: Prepared, order: seq<AccountId>, rows: seq<ShareRecipient>,
                    desired: seq<string>, newId: ResourceId, c: FieldChange)
    requires Planned(t, owner, p, order, rows, desired) && Fresh(t, newId)
    ensures var plan := BuildPlan(Existing(t, owner, p), rows, After(owner, p), desired);
            var (u, id) := PutPrepared(t, owner, p, newId);
            c in plan.changes <==>
              && c.from == FieldOf(if id in t.resources then Some(t.resources[id]) else None, c.field)
              && c.to == FieldOf(Some(u.resources[id]), c.field)
              && c.from != c.to
  {
    var (u, id) := PutPrepared(t, owner, p, newId);
    AppliedStatus(t, owner, p, newId, (newId, owner));
    BuiltFields(Existing(t, owner, p), rows, After(owner, p), desired, c);
    assert u.resources[id] == After(owner, p);
  }

  lemma BuiltFields(existing: Option<Resource>, rows: seq<ShareRecipient>, after: Resource, desired: seq<string>, c: FieldChange)
    ensures c in BuildPlan(existing, rows, after, desired).changes
            <==> c.from == FieldOf(existing, c.field) && c.to == FieldOf(Some(after), c.field) && c.from != c.to
  {
    FieldChangesMeaning(existing, after, FIELDS, c);
    assert FIELDS[0] == VisibilityField && FIELDS[1] == UrlField && FIELDS[2] == FolderField;
  }

  /** The plan's fate of an account, by its handle. */
  ghost predicate ChangesTo(plan: ResourcePlan, handle: string, from: Option<ShareStatus>, after: Option<ShareStatus>) {
    exists c :: c in plan.recipientChanges && c.handle == handle && c.from == from && c.to == after
  }

  lemma LowerHandle(t: Tables, v: AccountId, w: AccountId)
    requires Inv(t) && HandleOf(t, v).Some? && HandleOf(t, w).Some?
    ensures Lower(HandleOf(t, v).value) == HandleOf(t, v).value
    ensures HandleOf(t, v) == HandleOf(t, w) <==> v == w
  {
    LowerFixed(HandleOf(t, v).value);
  }

  lemma WantedMeaning(t: Tables, owner: AccountId, p: Prepared, order: seq<AccountId>, rows: seq<ShareRecipient>, desired: seq<string>, v: AccountId)
    requires Planned(t, owner, p, order, rows, desired) && HandleOf(t, v).Some?
    ensures var h := HandleOf(t, v).value;
            (Lower(h) in LowerSet(desired) <==> v in p.viewers) && (h in desired <==> v in p.viewers)
  {
    var h := HandleOf(t, v).value;
    LowerHandle(t, v, v);
    forall i | 0 <= i < |desired|
      ensures (desired[i] == h <==> p.viewers[i] == v) && Lower(desired[i]) == desired[i]
    {
      LowerHandle(t, p.viewers[i], v);
    }
    if v in p.viewers {
      var i :| 0 <= i < |p.viewers| && p.viewers[i] == v;
      assert desired[i] == h && desired[i] in desired;
    }
  }

  lemma RowsMeaning(t: Tables, owner: AccountId, p: Prepared, order: seq<AccountId>, rows: seq<ShareRecipient>, desired: seq<string>, v: AccountId)
    requires Planned(t, owner, p, order, rows, desired) && HandleOf(t, v).Some?
    ensures |rows| == |order|
    ensures forall i :: 0 <= i < |rows| ==> (rows[i].handle == HandleOf(t, v).value <==> order[i] == v)
    ensures Lower(HandleOf(t, v).value) in RowNames(rows) <==> v in order
    ensures var id := FindResource(t, owner, p.name, p.kind);
            v in order <==> id.Some? && Status(t, (id.value, v)).Some?
  {
    var h := HandleOf(t, v).value;
    LowerHandle(t, v, v);
    forall i | 0 <= i < |rows|
      ensures (rows[i].handle == h <==> order[i] == v) && Lower(rows[i].handle) == rows[i].handle
    {
      LowerHandle(t, order[i], v);
    }
    if v in order {
      var i :| 0 <= i < |order| && order[i] == v;
      assert rows[i] in rows;
    }
    match FindResource(t, owner, p.name, p.kind)
    case None =>
    case Some(id) =>
      assert v in Recipients(t, id) <==> Status(t, (id, v)).Some? by {
        assert (id, v).1 == v;
      }
  }

  lemma DestinationAgrees(t: Tables, owner: AccountId, p: Prepared)
    requires Inv(t) && PreparedOk(t, owner, p) && FindResource(t, owner, p.name, p.kind).Some?
    ensures var id := FindResource(t, owner, p.name, p.kind).value;
            DestinationChanged(t, id, p.url) <==> (p.kind == Link && t.resources[id].url != p.url)
  {
    var id := FindResource(t, owner, p.name, p.kind).value;
    assert ResourceOk(t, t.resources[id]);
  }

  ghost function PlanOf(t: Tables, owner: AccountId, p: Prepared, rows: seq<ShareRecipient>, desired: seq<string>): ResourcePlan {
    BuildPlan(Existing(t, owner, p), rows, After(owner, p), desired)
  }

  /** A plan that the server may give for a checked request: computed from the recipients of
      the resource, by handle, and the handles of the wanted viewers. */
  ghost predicate IsPlanFor(t: Tables, owner: AccountId, p: Prepared, plan: ResourcePlan) {
    exists order, rows, desired :: Planned(t, owner, p, order, rows, desired) && plan == PlanOf(t, owner, p, rows, desired)
  }

  /** The one change a plan may hold for an account: from what it is to what it becomes. */
  ghost function Expected(t: Tables, owner: AccountId, p: Prepared, v: AccountId): Option<RecipientChange>
    requires HandleOf(t, v).Some?
  {
    var id := FindResource(t, owner, p.name, p.kind);
    var status := if id.Some? then Status(t, (id.value, v)) else None;
    var after := NextStatus(status, v in p.viewers, id.Some? && DestinationChanged(t, id.value, p.url));
    Difference(HandleOf(t, v).value, status, after)
  }

  /** A change of an existing recipient is the fate of the one row with its handle. */
  lemma FateOfOnlyRow(rows: seq<ShareRecipient>, i: nat, wanted: set<string>, destinationChanged: bool, c: RecipientChange)
    requires i < |rows| && forall j :: 0 <= j < |rows| ==> (rows[j].handle == c.handle <==> j == i)
    ensures c in ExistingChanges(rows, wanted, destinationChanged) <==> Fate(rows[i], wanted, destinationChanged) == Some(c)
  {
    ExistingChangesMeaning(rows, wanted, destinationChanged, c);
  }

  lemma NoFate(rows: seq<ShareRecipient>, wanted: set<string>, destinationChanged: bool, c: RecipientChange)
    requires forall j :: 0 <= j < |rows| ==> rows[j].handle != c.handle
    ensures c !in ExistingChanges(rows, wanted, destinationChanged)
  {
    ExistingChangesMeaning(rows, wanted, destinationChanged, c);
  }

  lemma PlanParts(t: Tables, owner: AccountId, p: Prepared, rows: seq<ShareRecipient>, desired: seq<string>, c: RecipientChange)
    requires Inv(t) && PreparedOk(t, owner, p)
    ensures var id := FindResource(t, owner, p.name, p.kind);
            var changed := id.Some? && DestinationChanged(t, id.value, p.url);
            c in PlanOf(t, owner, p, rows, desired).recipientChanges
            <==> c in ExistingChanges(rows, LowerSet(desired), changed)
                 || (c == Added(c.handle) && c.handle in desired && Lower(c.handle) !in RowNames(rows))
  {
    AddedChangesMeaning(desired, RowNames(rows), c);
    if FindResource(t, owner, p.name, p.kind).Some? { DestinationAgrees(t, owner, p); }
  }

  /** The change from one status to the next, if they differ. */
  function Difference(handle: string, status: Option<ShareStatus>, after: Option<ShareStatus>): Option<RecipientChange> {
    if status == after then None
    else
      Some(RecipientChange(handle, status, after,
                           if after.None? then RecipientRemoved else if status.None? then RecipientAdded else DestinationChange))
  }

  lemma FateIsDifference(row: ShareRecipient, desired: set<string>, changed: bool)
    ensures Fate(row, desired, changed)
            == Difference(row.handle, Some(row.status), NextStatus(Some(row.status), Lower(row.handle) in desired, changed))
  {
  }

  lemma KnownRecipient(t: Tables, owner: AccountId, p: Prepared, order: seq<AccountId>, rows: seq<ShareRecipient>,
                       desired: seq<string>, v: AccountId, c: RecipientChange)
    requires Planned(t, owner, p, order, rows, desired) && HandleOf(t, v) == Some(c.handle) && v in order
    ensures c in PlanOf(t, owner, p, rows, desired).recipientChanges <==> Expected(t, owner, p, v) == Some(c)
  {
    var id := FindResource(t, owner, p.name, p.kind).value;
    var changed := DestinationChanged(t, id, p.url);
    WantedMeaning(t, owner, p, order, rows, desired, v);
    RowsMeaning(t, owner, p, order, rows, desired, v);
    PlanParts(t, owner, p, rows, desired, c);
    var i :| 0 <= i < |order| && order[i] == v;
    assert Database.IsRow(t, id, v, rows[i]);
    FateOfOnlyRow(rows, i, LowerSet(desired), changed, c);
    FateIsDifference(rows[i], LowerSet(desired), changed);
  }

  lemma NewRecipient(t: Tables, owner: AccountId, p: Prepared, order: seq<AccountId>, rows: seq<ShareRecipient>,
                     desired: seq<string>, v: AccountId, c: RecipientChange)
    requires Planned(t, owner, p, order, rows, desired) && HandleOf(t, v) == Some(c.handle) && v !in order
    ensures c in PlanOf(t, owner, p, rows, desired).recipientChanges <==> Expected(t, owner, p, v) == Some(c)
  {
    var id := FindResource(t, owner, p.name, p.kind);
    WantedMeaning(t, owner, p, order, rows, desired, v);
    RowsMeaning(t, owner, p, order, rows, desired, v);
    PlanParts(t, owner, p, rows, desired, c);
    NoFate(rows, LowerSet(desired), id.Some? && DestinationChanged(t, id.value, p.url), c);
  }

  lemma RecipientsExpected(t: Tables, owner: AccountId, p: Prepared, order: seq<AccountId>, rows: seq<ShareRecipient>,
                           desired: seq<string>, v: AccountId, c: RecipientChange)
    requires Planned(t, owner, p, order, rows, desired) && HandleOf(t, v) == Some(c.handle)
    ensures c in PlanOf(t, owner, p, rows, desired).recipientChanges <==> Expected(t, owner, p, v) == Some(c)
  {
    if v in order {
      KnownRecipient(t, owner, p, order, rows, desired, v, c);
    } else {
      NewRecipient(t, owner, p, order, rows, desired, v, c);
    }
  }

  /** Every change names the handle of some account. */
  lemma ChangesNameAccounts(t: Tables, owner: AccountId, p: Prepared, order: seq<AccountId>, rows: seq<ShareRecipient>,
                            desired: seq<string>, c: RecipientChange) returns (v: AccountId)
    requires Planned(t, owner, p, order, rows, desired)
    requires c in PlanOf(t, owner, p, rows, desired).recipientChanges
    ensures HandleOf(t, v) == Some(c.handle)
  {
    PlanParts(t, owner, p, rows, desired, c);
    if c.handle in desired {
      var i :| 0 <= i < |desired| && desired[i] == c.handle;
      v := p.viewers[i];
    } else {
      var id := FindResource(t, owner, p.name, p.kind);
      var i := RowWithHandle(rows, LowerSet(desired), id.Some? && DestinationChanged(t, id.value, p.url), c);
      v := order[i];
    }
  }

  lemma RowWithHandle(rows: seq<ShareRecipient>, wanted: set<string>, changed: bool, c: RecipientChange) returns (i: nat)
    requires c in ExistingChanges(rows, wanted, changed)
    ensures i < |rows| && rows[i].handle == c.handle
  {
    ExistingChangesMeaning(rows, wanted, changed, c);
    i :| 0 <= i < |rows| && Fate(rows[i], wanted, changed) == Some(c);
  }

  lemma ExpectedIsDifference(t: Tables, owner: AccountId, p: Prepared, newId: ResourceId, v: AccountId)
    requires Inv(t) && Fresh(t, newId) && HandleOf(t, v).Some?
    ensures var (u, id) := PutPrepared(t, owner, p, newId);
            var e := Expected(t, owner, p, v);
            && (e.None? <==> Status(t, (id, v)) == Status(u, (id, v)))
            && (e.Some? ==> e.value.from == Status(t, (id, v)) && e.value.to == Status(u, (id, v)))
  {
    var (u, id) := PutPrepared(t, owner, p, newId);
    AppliedStatus(t, owner, p, newId, (id, v));
  }

  /** Recipient changes of the plan are the differences in status between before and after. */
  lemma RecipientsExact(t: Tables, owner: AccountId, p: Prepared, order: seq<AccountId>, rows: seq<ShareRecipient>,
                        desired: seq<string>, newId: ResourceId, v: AccountId,
                        before: Option<ShareStatus>, after: Option<ShareStatus>)
    requires Planned(t, owner, p, order, rows, desired) && Fresh(t, newId) && HandleOf(t, v).Some?
    ensures var (u, id) := PutPrepared(t, owner, p, newId);
            ChangesTo(PlanOf(t, owner, p, rows, desired), HandleOf(t, v).value, before, after)
            <==> before == Status(t, (id, v)) && after == Status(u, (id, v)) && before != after
  {
    var h := HandleOf(t, v).value;
    var plan := PlanOf(t, owner, p, rows, desired);
    ExpectedIsDifference(t, owner, p, newId, v);
    var e := Expected(t, owner, p, v);
    if e.Some? { RecipientsExpected(t, owner, p, order, rows, desired, v, e.value); }
    if ChangesTo(plan, h, before, after) {
      var c :| c in plan.recipientChanges && c.handle == h && c.from == before && c.to == after;
      RecipientsExpected(t, owner, p, order, rows, desired, v, c);
    }
  }

  /** The move that each effect announces. */
  predicate Announces(code: EffectCode, before: Option<ShareStatus>, after: Option<ShareStatus>) {
    match code
    case ReapprovalRequired => before == Some(Accepted) && after == Some(Pending)
    case AccessRevoked => before == Some(Accepted) && after == None
    case InvitationsWithdrawn => before == Some(Pending) && after == None
    case RecipientsInvited => before == None && after == Some(Pending)
  }

  lemma NextAnnounces(h: string, status: Option<ShareStatus>, wanted: bool, changed: bool, code: EffectCode)
    ensures var after := NextStatus(status, wanted, changed);
            var e := Difference(h, status, after);
            e.Some? && HasEffect(e.value, code) <==> Announces(code, status, after)
  {
  }

  lemma ListedMeaning(plan: ResourcePlan, changes: seq<RecipientChange>, code: EffectCode, h: string)
    requires plan.effects == Effects(changes, CODES)
    ensures ListedUnder(plan, code, h) <==> exists c :: c in changes && HasEffect(c, code) && c.handle == h
  {
    EffectsMeaning(changes, CODES, code, h);
    assert CODES[0] == ReapprovalRequired && CODES[1] == AccessRevoked
        && CODES[2] == InvitationsWithdrawn && CODES[3] == RecipientsInvited;
    HandlesOfMeaning(changes, code, h);
  }

  /** An account is listed under an effect when its one expected change has that effect. */
  lemma ListedExpected(t: Tables, owner: AccountId, p: Prepared, order: seq<AccountId>, rows: seq<ShareRecipient>,
                       desired: seq<string>, v: AccountId, code: EffectCode)
    requires Planned(t, owner, p, order, rows, desired) && HandleOf(t, v).Some?
    ensures var e := Expected(t, owner, p, v);
            ListedUnder(PlanOf(t, owner, p, rows, desired), code, HandleOf(t, v).value)
            <==> e.Some? && HasEffect(e.value, code)
  {
    var h := HandleOf(t, v).value;
    var plan := PlanOf(t, owner, p, rows, desired);
    var changes := plan.recipientChanges;
    ListedMeaning(plan, changes, code, h);
    forall c: RecipientChange | c.handle == h ensures c in changes <==> Expected(t, owner, p, v) == Some(c) {
      RecipientsExpected(t, owner, p, order, rows, desired, v, c);
    }
  }

  /** The effects of the plan list exactly the accounts that make their move. */
  lemma EffectsExact(t: Tables, owner: AccountId, p: Prepared, order: seq<AccountId>, rows: seq<ShareRecipient>,
                     desired: seq<string>, newId: ResourceId, v: AccountId, code: EffectCode)
    requires Planned(t, owner, p, order, rows, desired) && Fresh(t, newId) && HandleOf(t, v).Some?
    ensures var (u, id) := PutPrepared(t, owner, p, newId);
            ListedUnder(PlanOf(t, owner, p, rows, desired), code, HandleOf(t, v).value)
            <==> Announces(code, Status(t, (id, v)), Status(u, (id, v)))
  {
    var found := FindResource(t, owner, p.name, p.kind);
    var (u, id) := PutPrepared(t, owner, p, newId);
    ListedExpected(t, owner, p, order, rows, desired, v, code);
    NextAnnounces(HandleOf(t, v).value, Status(t, (id, v)), v in p.viewers, DestinationChanged(t, id, p.url), code);
    AppliedStatus(t, owner, p, newId, (id, v));
  }

  /** The accepted viewers who lose access are those listed as needing to approve again
      together with those listed as revoked. */
  lemma LossesExact(t: Tables, owner: AccountId, p: Prepared, order: seq<AccountId>, rows: seq<ShareRecipient>,
                    desired: seq<string>, newId: ResourceId, v: AccountId)
    requires Planned(t, owner, p, order, rows, desired) && Fresh(t, newId) && HandleOf(t, v).Some?
    ensures var (u, id) := PutPrepared(t, owner, p, newId);
            var plan := PlanOf(t, owner, p, rows, desired);
            var h := HandleOf(t, v).value;
            (ListedUnder(plan, ReapprovalRequired, h) || ListedUnder(plan, AccessRevoked, h))
            <==> (id, v) in t.shares && (id, v) !in u.shares
  {
    var (u, id) := PutPrepared(t, owner, p, newId);
    EffectsExact(t, owner, p, order, rows, desired, newId, v, ReapprovalRequired);
    EffectsExact(t, owner, p, order, rows, desired, newId, v, AccessRevoked);
    AppliedStatus(t, owner, p, newId, (id, v));
  }

  lemma NothingChanges(t: Tables, owner: AccountId, p: Prepared, order: seq<AccountId>, rows: seq<ShareRecipient>,
                       desired: seq<string>, newId: ResourceId)
    requires Planned(t, owner, p, order, rows, desired) && Fresh(t, newId)
    requires PlanOf(t, owner, p, rows, desired).operation == Noop
    ensures PutPrepared(t, owner, p, newId).0 == t
  {
    var (u, id) := PutPrepared(t, owner, p, newId);
    var plan := PlanOf(t, owner, p, rows, desired);
    AppliedStatus(t, owner, p, newId, (id, owner));
    forall field ensures FieldOf(Some(t.resources[id]), field) == FieldOf(Some(u.resources[id]), field) {
      FieldsExact(t, owner, p, order, rows, desired, newId,
                  FieldChange(field, FieldOf(Some(t.resources[id]), field), FieldOf(Some(u.resources[id]), field)));
    }
    SameFields(t.resources[id], u.resources[id]);
    assert u.resources == t.resources;
    forall r ensures Status(t, r) == Status(u, r) {
      AppliedStatus(t, owner, p, newId, r);
      if r.0 == id {
        if HandleOf(t, r.1).Some? {
          RecipientsExact(t, owner, p, order, rows, desired, newId, r.1, Status(t, r), Status(u, r));
        } else {
          assert Status(t, r).Some? ==> RecipientOk(t, r);
        }
      }
    }
    StatusDetermines(t, u);
  }

  lemma SameFields(a: Resource, b: Resource)
    requires forall field :: FieldOf(Some(a), field) == FieldOf(Some(b), field)
    requires Matches(a, b.owner, b.name, b.kind)
    ensures a == b
  {
    assert FieldOf(Some(a), VisibilityField) == FieldOf(Some(b), VisibilityField);
    assert FieldOf(Some(a), UrlField) == FieldOf(Some(b), UrlField);
    assert FieldOf(Some(a), FolderField) == FieldOf(Some(b), FolderField);
    assert "public"[1] == 'u' && "private"[1] == 'r' && "shared"[1] == 'h';
  }

  /** A plan says `create` for a new resource, and for an existing one `noop` exactly when
      applying it would change nothing in any table. */
  lemma OperationExact(t: Tables, owner: AccountId, p: Prepared, order: seq<AccountId>, rows: seq<ShareRecipient>,
                       desired: seq<string>, newId: ResourceId)
    requires Planned(t, owner, p, order, rows, desired) && Fresh(t, newId)
    ensures var operation := PlanOf(t, owner, p, rows, desired).operation;
            && (operation == Create <==> Existing(t, owner, p).None?)
            && (operation == Noop <==> Existing(t, owner, p).Some? && PutPrepared(t, owner, p, newId).0 == t)
  {
    var (u, id) := PutPrepared(t, owner, p, newId);
    var plan := PlanOf(t, owner, p, rows, desired);
    if plan.operation == Noop {
      NothingChanges(t, owner, p, order, rows, desired, newId);
    }
    if Existing(t, owner, p).Some? && u == t {
      AppliedStatus(t, owner, p, newId, (id, owner));
      if plan.changes != [] {
        FieldsExact(t, owner, p, order, rows, desired, newId, plan.changes[0]);
      }
      if plan.recipientChanges != [] {
        var c := plan.recipientChanges[0];
        var v := ChangesNameAccounts(t, owner, p, order, rows, desired, c);
        RecipientsExact(t, owner, p, order, rows, desired, newId, v, c.from, c.to);
      }
    }
  }

  // -- nothing is listed twice ----------------------------------------------------------------------

  ghost predicate NoneTwice(handles: seq<string>) {
    forall i, j :: 0 <= i < j < |handles| ==> handles[i] != handles[j]
  }

  /** No two of the changes name one handle. */
  ghost predicate OnceEach(changes: seq<RecipientChange>) {
    forall i, j :: 0 <= i < j < |changes| ==> changes[i].handle != changes[j].handle
  }

  lemma {:induction false} ExistingOnce(rows: seq<ShareRecipient>, wanted: set<string>, changed: bool)
    requires forall i, j :: 0 <= i < j < |rows| ==> rows[i].handle != rows[j].handle
    ensures OnceEach(ExistingChanges(rows, wanted, changed))
  {
    if rows != [] {
      var n := |rows| - 1;
      var before := ExistingChanges(rows[..n], wanted, changed);
      ExistingOnce(rows[..n], wanted, changed);
      forall c | c in before ensures c.handle != rows[n].handle {
        var i := RowWithHandle(rows[..n], wanted, changed, c);
        assert rows[i].handle == c.handle;
      }
    }
  }

  lemma {:induction false} AddedOnce(handles: seq<string>, names: set<string>)
    requires NoneTwice(handles)
    ensures OnceEach(AddedChanges(handles, names))
  {
    if handles != [] {
      var n := |handles| - 1;
      AddedOnce(handles[..n], names);
      forall c | c in AddedChanges(handles[..n], names) ensures c.handle != handles[n] {
        AddedChangesMeaning(handles[..n], names, c);
      }
    }
  }

  lemma {:induction false} HandlesOnce(changes: seq<RecipientChange>, code: EffectCode)
    requires OnceEach(changes)
    ensures NoneTwice(HandlesOf(changes, code))
  {
    if changes != [] {
      var n := |changes| - 1;
      HandlesOnce(changes[..n], code);
      HandlesOfMeaning(changes[..n], code, changes[n].handle);
    }
  }

  /** No two of the effects have one code, and none lists a handle twice. */
  ghost predicate EffectsDistinct(effects: seq<Effect>) {
    && (forall i, j :: 0 <= i < j < |effects| ==> effects[i].code != effects[j].code)
    && forall i :: 0 <= i < |effects| ==> NoneTwice(effects[i].handles)
  }

  lemma {:induction false} EffectsOnce(changes: seq<RecipientChange>, codes: seq<EffectCode>)
    requires OnceEach(changes) && forall i, j :: 0 <= i < j < |codes| ==> codes[i] != codes[j]
    ensures EffectsDistinct(Effects(changes, codes))
    ensures forall e :: e in Effects(changes, codes) ==> e.code in codes
  {
    if codes != [] {
      var n := |codes| - 1;
      EffectsOnce(changes, codes[..n]);
      HandlesOnce(changes, codes[n]);
      var before := Effects(changes, codes[..n]);
      forall i | 0 <= i < |before| ensures before[i].code != codes[n] {
        assert before[i] in before;
        var k :| 0 <= k < n && codes[..n][k] == before[i].code;
        assert codes[k] == before[i].code;
      }
    }
  }

  ghost predicate FieldsDistinct(changes: seq<FieldChange>) {
    forall i, j :: 0 <= i < j < |changes| ==> changes[i].field != changes[j].field
  }

  lemma {:induction false} FieldsOnce(before: Option<Resource>, after: Resource, fields: seq<Field>)
    requires forall i, j :: 0 <= i < j < |fields| ==> fields[i] != fields[j]
    ensures FieldsDistinct(FieldChanges(before, after, fields))
  {
    if fields != [] {
      var n := |fields| - 1;
      FieldsOnce(before, after, fields[..n]);
      forall c | c in FieldChanges(before, after, fields[..n]) ensures c.field != fields[n] {
        FieldChangesMeaning(before, after, fields[..n], c);
        var k :| 0 <= k < n && fields[..n][k] == c.field;
        assert fields[k] == c.field;
      }
    }
  }

  lemma PlannedDistinct(t: Tables, owner: AccountId, p: Prepared, order: seq<AccountId>, rows: seq<ShareRecipient>, desired: seq<string>)
    requires Planned(t, owner, p, order, rows, desired)
    ensures forall i, j :: 0 <= i < j < |rows| ==> rows[i].handle != rows[j].handle
    ensures NoneTwice(desired)
  {
    forall i, j | 0 <= i < j < |rows| ensures rows[i].handle != rows[j].handle {
      LowerHandle(t, order[i], order[j]);
    }
    forall i, j | 0 <= i < j < |desired| ensures desired[i] != desired[j] {
      LowerHandle(t, p.viewers[i], p.viewers[j]);
    }
  }

  lemma ChangesOnce(rows: seq<ShareRecipient>, desired: seq<string>, changed: bool)
    requires (forall i, j :: 0 <= i < j < |rows| ==> rows[i].handle != rows[j].handle) && NoneTwice(desired)
    ensures OnceEach(ExistingChanges(rows, LowerSet(desired), changed) + AddedChanges(desired, RowNames(rows)))
  {
    var kept, added := ExistingChanges(rows, LowerSet(desired), changed), AddedChanges(desired, RowNames(rows));
    ExistingOnce(rows, LowerSet(desired), changed);
    AddedOnce(desired, RowNames(rows));
    forall c, d | c in kept && d in added ensures c.handle != d.handle {
      var i := RowWithHandle(rows, LowerSet(desired), changed, c);
      AddedChangesMeaning(desired, RowNames(rows), d);
      assert rows[i] in rows;
    }
  }

  lemma ConstantsDistinct()
    ensures forall i, j :: 0 <= i < j < |FIELDS| ==> FIELDS[i] != FIELDS[j]
    ensures forall i, j :: 0 <= i < j < |CODES| ==> CODES[i] != CODES[j]
  {
  }

  /** A plan has each field, recipient and effect once, and each handle once under its effect. */
  ghost predicate Distinct(plan: ResourcePlan) {
    FieldsDistinct(plan.changes) && OnceEach(plan.recipientChanges) && EffectsDistinct(plan.effects)
  }

  lemma BuiltDistinct(existing: Option<Resource>, rows: seq<ShareRecipient>, after: Resource, desired: seq<string>)
    requires (forall i, j :: 0 <= i < j < |rows| ==> rows[i].handle != rows[j].handle) && NoneTwice(desired)
    ensures Distinct(BuildPlan(existing, rows, after, desired))
  {
    ChangesOnce(rows, desired, after.kind == Link && existing.Some? && existing.value.url != after.url);
    ConstantsDistinct();
    FieldsOnce(existing, after, FIELDS);
    EffectsOnce(BuildPlan(existing, rows, after, desired).recipientChanges, CODES);
  }

  /** Nothing is listed twice in a plan the server may give. */
  lemma ListedOnce(t: Tables, owner: AccountId, p: Prepared, plan: ResourcePlan)
    requires IsPlanFor(t, owner, p, plan)
    ensures Distinct(plan)
  {
    var order, rows, desired :| Planned(t, owner, p, order, rows, desired) && plan == PlanOf(t, owner, p, rows, desired);
    PlannedDistinct(t, owner, p, order, rows, desired);
    BuiltDistinct(Existing(t, owner, p), rows, After(owner, p), desired);
  }

  /** What a plan says is what applying it does: `noop` when it changes no table, and under each
      effect the accounts that make its move. */
  lemma PlanExact(t: Tables, owner: AccountId, p: Prepared, plan: ResourcePlan, newId: ResourceId, v: AccountId, code: EffectCode)
    requires IsPlanFor(t, owner, p, plan) && Fresh(t, newId) && HandleOf(t, v).Some?
    ensures var (u, id) := PutPrepared(t, owner, p, newId);
            && (plan.operation == Create <==> id !in t.resources)
            && (plan.operation == Noop <==> id in t.resources && u == t)
            && (ListedUnder(plan, code, HandleOf(t, v).value) <==> Announces(code, Status(t, (id, v)), Status(u, (id, v))))
  {
    var order, rows, desired :| Planned(t, owner, p, order, rows, desired) && plan == PlanOf(t, owner, p, rows, desired);
    OperationExact(t, owner, p, order, rows, desired, newId);
    EffectsExact(t, owner, p, order, rows, desired, newId, v, code);
    AppliedStatus(t, owner, p, newId, (newId, v));
  }

  lemma PlannedRowsAgree(t: Tables, owner: AccountId, p: Prepared,
                         order: seq<AccountId>, rows: seq<ShareRecipient>, desired: seq<string>,
                         order1: seq<AccountId>, rows1: seq<ShareRecipient>, desired1: seq<string>)
    requires Planned(t, owner, p, order, rows, desired) && Planned(t, owner, p, order1, rows1, desired1)
    ensures rows == rows1
  {
    var id := FindResource(t, owner, p.name, p.kind);
    if id.Some? {
      forall row ensures row in rows <==> row in rows1 {
        if row in rows { Database.ListedIn(t, id.value, order, rows, order1, rows1, row); }
        if row in rows1 { Database.ListedIn(t, id.value, order1, rows1, order, rows, row); }
      }
      PlannedNames(t, owner, p, order, rows, desired);
      PlannedNames(t, owner, p, order1, rows1, desired1);
      Database.OneOrder(rows, rows1);
    }
  }

  lemma PlannedNames(t: Tables, owner: AccountId, p: Prepared, order: seq<AccountId>, rows: seq<ShareRecipient>, desired: seq<string>)
    requires Planned(t, owner, p, order, rows, desired)
    ensures Database.DistinctNames(rows)
  {
    forall i, j | 0 <= i < j < |rows| ensures Lower(rows[i].handle) != Lower(rows[j].handle) {
      LowerHandle(t, order[i], order[j]);
      LowerHandle(t, order[j], order[i]);
    }
  }

  /** The same request against the same tables has one plan only. */
  lemma PlanUnique(t: Tables, owner: AccountId, p: Prepared, plan: ResourcePlan, again: ResourcePlan)
    requires IsPlanFor(t, owner, p, plan) && IsPlanFor(t, owner, p, again)
    ensures plan == again
  {
    var order, rows, desired :| Planned(t, owner, p, order, rows, desired) && plan == PlanOf(t, owner, p, rows, desired);
    var order1, rows1, desired1 :| Planned(t, owner, p, order1, rows1, desired1) && again == PlanOf(t, owner, p, rows1, desired1);
    PlannedRowsAgree(t, owner, p, order, rows, desired, order1, rows1, desired1);
    assert desired == desired1;
  }
}

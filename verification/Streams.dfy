/** A daemon's open streams, and the loop that closes those whose authorization is gone. */
module Streams {
  import opened Text
  import opened State

  type StreamId = nat

  datatype Stream = Stream(viewer: AccountId, resource: ResourceId)

  datatype HostedService = HostedService(resource: ResourceId, target: string)

  /** The streams that are not denied. */
  function Keep(active: map<StreamId, Stream>, denied: Stream -> bool): map<StreamId, Stream> {
    map id | id in active && !denied(active[id]) :: active[id]
  }

  function NotIn(allowed: set<(AccountId, ResourceId)>): Stream -> bool {
    (s: Stream) => (s.viewer, s.resource) !in allowed
  }

  function NotHosted(services: seq<HostedService>): Stream -> bool {
    (s: Stream) => forall i :: 0 <= i < |services| ==> services[i].resource != s.resource
  }

  lemma CancelledCount(active: map<StreamId, Stream>, ids: set<StreamId>)
    requires ids <= active.Keys
    ensures |ids| + |active - ids| == |active|
  {
    assert (active - ids).Keys == active.Keys - ids;
  }

  class Daemon {
    var resources: seq<HostedService>
    var active: map<StreamId, Stream>
    var nextStreamId: nat

    constructor (services: seq<HostedService>)
      ensures resources == services && active == map[] && nextStreamId == 1
    {
      resources, active, nextStreamId := services, map[], 1;
    }

    /** Collect the denied ids, then take them out one by one. */
    method CancelWhere(denied: Stream -> bool) returns (count: nat)
      modifies this`active
      ensures active == Keep(old(active), denied)
      ensures count + |active| == |old(active)|
    {
      var ids := set id | id in active && denied(active[id]);
      count := |ids|;
      CancelAll(ids);
      CancelledCount(old(active), ids);
    }

    method CancelAll(ids: set<StreamId>)
      modifies this`active
      ensures active == old(active) - ids
    {
      ghost var before := active;
      var left := ids;
      while left != {}
        invariant left <= ids
        invariant active == before - (ids - left)
        decreases |left|
      {
        var id :| id in left;
        assert ids - (left - {id}) == (ids - left) + {id};
        left := left - {id};
        active := active - {id};
      }
      assert ids - left == ids;
    }

    method ReplaceResources(services: seq<HostedService>) returns (changed: bool)
      modifies this
      ensures changed == (old(resources) != services)
      ensures resources == services && nextStreamId == old(nextStreamId)
      ensures active == if changed then Keep(old(active), NotHosted(services)) else old(active)
    {
      if resources == services {
        return false;
      }
      resources := services;
      var count := CancelWhere(NotHosted(services));
      return true;
    }

    method ReplaceAuthorizations(allowed: set<(AccountId, ResourceId)>) returns (count: nat)
      modifies this`active
      ensures active == Keep(old(active), NotIn(allowed))
      ensures count + |active| == |old(active)|
    {
      count := CancelWhere(NotIn(allowed));
    }

    method RevokeAllActive() returns (count: nat)
      modifies this`active
      ensures active == map[] && count == |old(active)|
    {
      count := CancelWhere(_ => true);
    }

    method TakeStreamId() returns (id: StreamId)
      modifies this`nextStreamId
      ensures id == old(nextStreamId) && nextStreamId == id + 1
    {
      id := nextStreamId;
      nextStreamId := nextStreamId + 1;
    }

    method Insert(id: StreamId, stream: Stream)
      modifies this`active
      ensures active == old(active)[id := stream]
    {
      active := active[id := stream];
    }

    method Remove(id: StreamId)
      modifies this`active
      ensures active == old(active) - {id}
    {
      active := active - {id};
    }
  }

  // -- refreshing authorizations -----------------------------------------------------------

  const STALE_LEASE: nat := 15

  datatype Outcome = Refreshed(allowed: set<(AccountId, ResourceId)>) | Failed

  /** The two variables of the refresh loop, in seconds. */
  class AuthorizationSync {
    var lastSuccess: nat
    var failedClosed: bool

    constructor (now: nat)
      ensures lastSuccess == now && !failedClosed
    {
      lastSuccess, failedClosed := now, false;
    }

    /** The body of the refresh loop; `asked` is when the answer came, `done` is when the
        streams have been cancelled. */
    method Step(daemon: Daemon, outcome: Outcome, asked: nat, done: nat)
      modifies this, daemon`active
      ensures daemon.active == AfterTick(old(daemon.active), outcome, old(lastSuccess), asked)
      ensures lastSuccess == if outcome.Refreshed? then done else old(lastSuccess)
    {
      match outcome {
        case Refreshed(allowed) =>
          var revoked := daemon.ReplaceAuthorizations(allowed);
          lastSuccess := done;
          failedClosed := false;
        case Failed =>
          if asked >= lastSuccess + STALE_LEASE {
            var revoked := daemon.RevokeAllActive();
            failedClosed := true;
          }
      }
    }
  }

  /** The open streams after a tick at `now`. */
  function AfterTick(active: map<StreamId, Stream>, outcome: Outcome, lastSuccess: nat, now: nat): map<StreamId, Stream> {
    match outcome
    case Refreshed(allowed) => Keep(active, NotIn(allowed))
    case Failed => if now >= lastSuccess + STALE_LEASE then map[] else active
  }

  // -- every interleaving ------------------------------------------------------------------

  type Handler = nat

  /** How far the handling of a request has come. Each is one task, and each step is what the
      task does under one lock. */
  datatype Phase =
    | Allowed(stream: Stream)
    | Numbered(stream: Stream, id: StreamId)
    | Open(stream: Stream, id: StreamId)

  /** `running` is set once the daemon serves requests and its refresh loop has started; the lease
      runs from there. `pending` is set between the cancelling of streams and the reset of the lease.
      `refreshes` counts the successful refreshes, `snapshot` is what the last one allowed, and
      `born` says during which refresh count each open stream was inserted. */
  datatype World = World(
    now: nat,
    running: bool,
    active: map<StreamId, Stream>,
    nextStreamId: nat,
    handlers: map<Handler, Phase>,
    lastSuccess: nat,
    pending: bool,
    refreshes: nat,
    snapshot: set<(AccountId, ResourceId)>,
    born: map<StreamId, nat>)

  datatype Event =
    | Advance(seconds: nat)
    | Boot
    | Admit(handler: Handler, stream: Stream)
    | GiveUp(handler: Handler)
    | Take(handler: Handler)
    | InsertStream(handler: Handler)
    | Finish(handler: Handler)
    | CancelUnhosted(services: seq<HostedService>)
    | Tick(outcome: Outcome)
    | ResetLease

  predicate Enabled(w: World, e: Event) {
    match e
    case Advance(_) => true
    case Boot => !w.running
    case _ => w.running && Ready(w, e)
  }

  /** What a running daemon is ready for. */
  predicate Ready(w: World, e: Event) {
    match e
    case Advance(_) => true
    case Boot => false
    case Admit(h, _) => h !in w.handlers
    case GiveUp(h) => h in w.handlers && w.handlers[h].Allowed?
    case Take(h) => h in w.handlers && w.handlers[h].Allowed?
    case InsertStream(h) => h in w.handlers && w.handlers[h].Numbered?
    case Finish(h) => h in w.handlers && w.handlers[h].Open?
    case CancelUnhosted(_) => true
    case Tick(_) => !w.pending
    case ResetLease => w.pending
  }

  function Apply(w: World, e: Event): World
    requires Enabled(w, e)
  {
    match e
    case Advance(seconds) => w.(now := w.now + seconds)
    case Boot => w.(running := true, lastSuccess := w.now)
    case Admit(h, stream) => w.(handlers := w.handlers[h := Allowed(stream)])
    case GiveUp(h) => w.(handlers := w.handlers - {h})
    case Take(h) =>
      w.(nextStreamId := w.nextStreamId + 1, handlers := w.handlers[h := Numbered(w.handlers[h].stream, w.nextStreamId)])
    case InsertStream(h) =>
      var p := w.handlers[h];
      w.(active := w.active[p.id := p.stream], born := w.born[p.id := w.refreshes], handlers := w.handlers[h := Open(p.stream, p.id)])
    case Finish(h) => w.(active := w.active - {w.handlers[h].id}, handlers := w.handlers - {h})
    case CancelUnhosted(services) => w.(active := Keep(w.active, NotHosted(services)))
    case Tick(outcome) =>
      var ticked := w.(active := AfterTick(w.active, outcome, w.lastSuccess, w.now));
      if outcome.Refreshed? then ticked.(pending := true, refreshes := w.refreshes + 1, snapshot := outcome.allowed)
      else ticked
    case ResetLease => w.(lastSuccess := w.now, pending := false)
  }

  function Start(now: nat): World {
    World(now, false, map[], 1, map[], now, false, 0, {}, map[])
  }

  ghost predicate IsRun(ws: seq<World>, es: seq<Event>) {
    && |ws| == |es| + 1 && ws[0] == Start(ws[0].now)
    && forall i :: 0 <= i < |es| ==> Enabled(ws[i], es[i]) && ws[i + 1] == Apply(ws[i], es[i])
  }

  predicate HasId(p: Phase) { !p.Allowed? }

  ghost predicate Owns(w: World, h: Handler, id: StreamId)
    requires id in w.active
  {
    h in w.handlers && w.handlers[h] == Open(w.active[id], id)
  }

  /** Ids in use were handed out, each to one handler. */
  ghost predicate DistinctIds(w: World) {
    && (forall h :: h in w.handlers && HasId(w.handlers[h]) ==> w.handlers[h].id < w.nextStreamId)
    && (forall h, k :: h in w.handlers && k in w.handlers && HasId(w.handlers[h]) && HasId(w.handlers[k])
                       ==> (w.handlers[h].id == w.handlers[k].id ==> h == k))
  }

  /** An open stream belongs to the handler that holds its id. */
  ghost predicate OwnIds(w: World) {
    && DistinctIds(w)
    && forall id :: id in w.active ==> id in w.born && exists h :: Owns(w, h, id)
  }

  /** Streams inserted before the last refresh are in its snapshot. */
  ghost predicate OldStreamsAllowed(w: World) {
    && (forall id :: id in w.born ==> w.born[id] <= w.refreshes)
    && forall id :: id in w.active && id in w.born && w.born[id] < w.refreshes ==> (w.active[id].viewer, w.active[id].resource) in w.snapshot
  }

  lemma StepKeepsDistinctIds(w: World, e: Event)
    requires DistinctIds(w) && Enabled(w, e)
    ensures DistinctIds(Apply(w, e))
  {
  }

  /** The open streams of `u` are open streams of `w`, and their handlers are where they were. */
  lemma ShrinkKeepsOwners(w: World, u: World)
    requires OwnIds(w) && DistinctIds(u) && u.born == w.born
    requires forall id :: id in u.active ==> id in w.active && u.active[id] == w.active[id]
    requires forall h :: h in w.handlers && w.handlers[h].Open? && w.handlers[h].id in u.active
                         ==> h in u.handlers && u.handlers[h] == w.handlers[h]
    ensures OwnIds(u)
  {
    forall id | id in u.active ensures exists h :: Owns(u, h, id) {
      var h :| Owns(w, h, id);
      assert Owns(u, h, id);
    }
  }

  lemma InsertKeepsOwners(w: World, h: Handler)
    requires OwnIds(w) && Enabled(w, InsertStream(h)) && DistinctIds(Apply(w, InsertStream(h)))
    ensures OwnIds(Apply(w, InsertStream(h)))
  {
    var u := Apply(w, InsertStream(h));
    forall id | id in u.active ensures id in u.born && exists k :: Owns(u, k, id) {
      if id == w.handlers[h].id {
        assert Owns(u, h, id);
      } else {
        var k :| Owns(w, k, id);
        assert Owns(u, k, id);
      }
    }
  }

  /** A step that neither opens nor finishes a stream opens none and moves no open handler. */
  lemma StepShrinks(w: World, e: Event)
    requires Enabled(w, e) && !e.InsertStream? && !e.Finish?
    ensures var u := Apply(w, e);
            && u.born == w.born
            && (forall id :: id in u.active ==> id in w.active && u.active[id] == w.active[id])
            && forall h :: h in w.handlers && w.handlers[h].Open? ==> h in u.handlers && u.handlers[h] == w.handlers[h]
  {
  }

  lemma FinishKeepsOwners(w: World, h: Handler)
    requires OwnIds(w) && Enabled(w, Finish(h)) && DistinctIds(Apply(w, Finish(h)))
    ensures OwnIds(Apply(w, Finish(h)))
  {
    var u := Apply(w, Finish(h));
    forall id | id in u.active ensures id in u.born && exists k :: Owns(u, k, id) {
      var k :| Owns(w, k, id);
      assert Owns(u, k, id);
    }
  }

  lemma StepKeepsOwnIds(w: World, e: Event)
    requires OwnIds(w) && Enabled(w, e)
    ensures OwnIds(Apply(w, e))
  {
    StepKeepsDistinctIds(w, e);
    if e.InsertStream? {
      InsertKeepsOwners(w, e.handler);
    } else if e.Finish? {
      FinishKeepsOwners(w, e.handler);
    } else {
      StepShrinks(w, e);
      ShrinkKeepsOwners(w, Apply(w, e));
    }
  }

  lemma {:induction false} OwnIdsHold(ws: seq<World>, es: seq<Event>, i: nat)
    requires IsRun(ws, es) && i < |ws|
    ensures OwnIds(ws[i])
  {
    if i > 0 {
      OwnIdsHold(ws, es, i - 1);
      assert Enabled(ws[i - 1], es[i - 1]);
      StepKeepsOwnIds(ws[i - 1], es[i - 1]);
    }
  }

  lemma {:induction false} OldStreamsHold(ws: seq<World>, es: seq<Event>, i: nat)
    requires IsRun(ws, es) && i < |ws|
    ensures OldStreamsAllowed(ws[i])
  {
    if i > 0 {
      OldStreamsHold(ws, es, i - 1);
      OwnIdsHold(ws, es, i - 1);
      assert Enabled(ws[i - 1], es[i - 1]) && ws[i] == Apply(ws[i - 1], es[i - 1]);
    }
  }

  // -- what the loop guarantees --------------------------------------------------------------

  /** In every state, every open stream that was inserted before the last successful refresh
      is one that refresh allowed. */
  lemma RevocationReachesOldStreams(ws: seq<World>, es: seq<Event>, i: nat, id: StreamId)
    requires IsRun(ws, es) && i < |ws| && id in ws[i].active
    ensures id in ws[i].born
    ensures ws[i].born[id] < ws[i].refreshes ==> (ws[i].active[id].viewer, ws[i].active[id].resource) in ws[i].snapshot
  {
    OwnIdsHold(ws, es, i);
    OldStreamsHold(ws, es, i);
  }

  /** A step that opens a stream under an id. */
  ghost predicate Inserts(w: World, e: Event, id: StreamId, stream: Stream) {
    e.InsertStream? && Enabled(w, e) && w.handlers[e.handler] == Numbered(stream, id)
  }

  lemma OnlyInsertOpens(w: World, e: Event, id: StreamId)
    requires Enabled(w, e) && id in Apply(w, e).active && !Inserts(w, e, id, Apply(w, e).active[id])
    ensures id in w.active && Apply(w, e).active[id] == w.active[id]
  {
  }

  /** An open stream was inserted at or after step `i`, or was open at `i` already. */
  lemma {:induction false} SinceOrBefore(ws: seq<World>, es: seq<Event>, i: nat, j: nat, id: StreamId) returns (k: Option<nat>)
    requires IsRun(ws, es) && i <= j < |ws| && id in ws[j].active
    ensures k.Some? ==> i <= k.value < j && Inserts(ws[k.value], es[k.value], id, ws[j].active[id])
    ensures k.None? ==> id in ws[i].active && ws[i].active[id] == ws[j].active[id]
  {
    k := None;
    if i < j {
      assert Enabled(ws[j - 1], es[j - 1]) && ws[j] == Apply(ws[j - 1], es[j - 1]);
      if Inserts(ws[j - 1], es[j - 1], id, ws[j].active[id]) {
        k := Some(j - 1);
      } else {
        OnlyInsertOpens(ws[j - 1], es[j - 1], id);
        k := SinceOrBefore(ws, es, i, j - 1, id);
      }
    }
  }

  /** A handler is where it was, with its stream, or has just been admitted. */
  lemma HandlerFrame(w: World, e: Event, h: Handler)
    requires Enabled(w, e) && h in Apply(w, e).handlers
    ensures (h in w.handlers && w.handlers[h].stream == Apply(w, e).handlers[h].stream && !e.Admit?)
            || (h in w.handlers && w.handlers[h] == Apply(w, e).handlers[h] && e.Admit? && e.handler != h)
            || e == Admit(h, Apply(w, e).handlers[h].stream)
  {
  }

  /** What a step does to the clock and to the loop. */
  lemma LoopFrame(w: World, e: Event)
    requires Enabled(w, e)
    ensures var u := Apply(w, e);
            && u.now == w.now + (if e.Advance? then e.seconds else 0)
            && u.running == (w.running || e.Boot?)
            && u.pending == (if e.Tick? && e.outcome.Refreshed? then true else if e.ResetLease? then false else w.pending)
            && u.lastSuccess == (if e.Boot? || e.ResetLease? then w.now else w.lastSuccess)
            && u.refreshes == w.refreshes + (if e.Tick? && e.outcome.Refreshed? then 1 else 0)
            && u.snapshot == (if e.Tick? && e.outcome.Refreshed? then e.outcome.allowed else w.snapshot)
  {
  }

  /** What a tick that a stream has survived says of it. */
  ghost predicate Spares(w: World, outcome: Outcome, s: Stream) {
    match outcome
    case Refreshed(allowed) => (s.viewer, s.resource) in allowed
    case Failed => w.now < w.lastSuccess + STALE_LEASE
  }

  /** A tick closes exactly the streams it does not spare, and changes none of the others. */
  lemma TickExact(w: World, outcome: Outcome, id: StreamId)
    requires Enabled(w, Tick(outcome))
    ensures var u := Apply(w, Tick(outcome));
            && (id in u.active <==> id in w.active && Spares(w, outcome, w.active[id]))
            && (id in u.active ==> u.active[id] == w.active[id])
  {
  }

  /** The resource of a stream is in a hosted list. */
  ghost predicate Hosts(services: seq<HostedService>, s: Stream) {
    exists i :: 0 <= i < |services| && services[i].resource == s.resource
  }

  /** What ends an open stream: the end of its own handler, a hosted list without its resource,
      or a tick that does not spare it. */
  ghost predicate Ends(w: World, e: Event, id: StreamId)
    requires id in w.active
  {
    match e
    case Finish(h) => Owns(w, h, id)
    case CancelUnhosted(services) => !Hosts(services, w.active[id])
    case Tick(outcome) => !Spares(w, outcome, w.active[id])
    case _ => false
  }

  lemma HolderIsOpen(w: World, h: Handler, id: StreamId)
    requires OwnIds(w) && id in w.active && h in w.handlers && HasId(w.handlers[h]) && w.handlers[h].id == id
    ensures w.handlers[h].Open?
  {
    var k :| Owns(w, k, id);
  }

  /** An inserted stream is under an id that no open stream has. */
  lemma InsertIsNew(w: World)
    requires OwnIds(w)
    ensures forall h :: h in w.handlers && w.handlers[h].Numbered? ==> w.handlers[h].id !in w.active
  {
    forall h, id | id in w.active && h in w.handlers && HasId(w.handlers[h]) && w.handlers[h].id == id ensures w.handlers[h].Open? {
      HolderIsOpen(w, h, id);
    }
  }

  lemma FinishExact(w: World, h: Handler, id: StreamId)
    requires OwnIds(w) && Enabled(w, Finish(h)) && id in w.active
    ensures id !in Apply(w, Finish(h)).active <==> Owns(w, h, id)
  {
    var k :| Owns(w, k, id);
  }

  lemma StepEndsExactly(w: World, e: Event, id: StreamId)
    requires OwnIds(w) && Enabled(w, e) && id in w.active
    ensures id !in Apply(w, e).active <==> Ends(w, e, id)
    ensures id in Apply(w, e).active ==> Apply(w, e).active[id] == w.active[id]
  {
    match e {
      case Finish(h) => FinishExact(w, h, id);
      case InsertStream(_) => InsertIsNew(w);
      case Tick(outcome) => TickExact(w, outcome, id);
      case _ =>
    }
  }

  lemma RunEndsExactly(ws: seq<World>, es: seq<Event>, i: nat, id: StreamId)
    requires IsRun(ws, es) && i < |es| && id in ws[i].active
    ensures id !in ws[i + 1].active <==> Ends(ws[i], es[i], id)
    ensures id in ws[i + 1].active ==> ws[i + 1].active[id] == ws[i].active[id]
  {
    assert Enabled(ws[i], es[i]) && ws[i + 1] == Apply(ws[i], es[i]);
    OwnIdsHold(ws, es, i);
    StepEndsExactly(ws[i], es[i], id);
  }

  /** The id was handed out, and nobody can open a stream under it any more. */
  ghost predicate Spent(w: World, id: StreamId) {
    && id < w.nextStreamId && id !in w.active
    && forall h :: h in w.handlers && w.handlers[h].Numbered? ==> w.handlers[h].id != id
  }

  lemma EndedIsSpent(w: World, e: Event, id: StreamId)
    requires OwnIds(w) && Enabled(w, e) && id in w.active && id !in Apply(w, e).active
    ensures Spent(Apply(w, e), id)
  {
    var k :| Owns(w, k, id);
  }

  lemma StepKeepsSpent(w: World, e: Event, id: StreamId)
    requires Spent(w, id) && Enabled(w, e)
    ensures Spent(Apply(w, e), id)
  {
    match e {
      case InsertStream(h) => assert w.handlers[h].id != id;
      case _ =>
    }
  }

  lemma {:induction false} SpentStays(ws: seq<World>, es: seq<Event>, i: nat, j: nat, id: StreamId)
    requires IsRun(ws, es) && i <= j < |ws| && Spent(ws[i], id)
    ensures Spent(ws[j], id)
  {
    if i < j {
      SpentStays(ws, es, i, j - 1, id);
      assert Enabled(ws[j - 1], es[j - 1]) && ws[j] == Apply(ws[j - 1], es[j - 1]);
      StepKeepsSpent(ws[j - 1], es[j - 1], id);
    }
  }

  ghost predicate EndsAt(ws: seq<World>, es: seq<Event>, k: nat, id: StreamId) {
    k < |ws| && k < |es| && id in ws[k].active && Ends(ws[k], es[k], id)
  }

  /** In every run, a stream that is open is open at a later time exactly when no step in between
      has ended it: its handler's finish, a hosted list without its resource, or a tick that does
      not spare it. Nothing else closes it, and it is then unchanged. */
  lemma {:induction false} OpenUntilEnded(ws: seq<World>, es: seq<Event>, i: nat, j: nat, id: StreamId)
    requires IsRun(ws, es) && i <= j < |ws| && id in ws[i].active
    ensures id in ws[j].active <==> forall k :: i <= k < j ==> !EndsAt(ws, es, k, id)
    ensures id in ws[j].active ==> ws[j].active[id] == ws[i].active[id]
  {
    if i < j {
      OpenUntilEnded(ws, es, i, j - 1, id);
      if id in ws[j - 1].active {
        RunEndsExactly(ws, es, j - 1, id);
        assert EndsAt(ws, es, j - 1, id) <==> Ends(ws[j - 1], es[j - 1], id);
      } else {
        var k :| i <= k < j - 1 && EndsAt(ws, es, k, id);
        ClosedAt(ws, es, k, j, id);
      }
    }
  }

  lemma ClosedAt(ws: seq<World>, es: seq<Event>, k: nat, j: nat, id: StreamId)
    requires IsRun(ws, es) && k < j < |ws| && EndsAt(ws, es, k, id)
    ensures id !in ws[j].active
  {
    RunEndsExactly(ws, es, k, id);
    OwnIdsHold(ws, es, k);
    assert Enabled(ws[k], es[k]) && ws[k + 1] == Apply(ws[k], es[k]);
    EndedIsSpent(ws[k], es[k], id);
    SpentStays(ws, es, k + 1, j, id);
  }

  /** From a tick on, every stream that is open at any later time either was inserted after the
      tick, or was spared by it: a good tick spares the streams in its snapshot, a failed one
      spares any while the last success is less than fifteen seconds old, and else none. */
  lemma TickCloses(ws: seq<World>, es: seq<Event>, i: nat, j: nat, id: StreamId) returns (k: nat)
    requires IsRun(ws, es) && i < j < |ws| && es[i].Tick? && id in ws[j].active
    ensures (i < k < j && Inserts(ws[k], es[k], id, ws[j].active[id])) || Spares(ws[i], es[i].outcome, ws[j].active[id])
  {
    assert Enabled(ws[i], es[i]) && ws[i + 1] == Apply(ws[i], es[i]);
    var since := SinceOrBefore(ws, es, i + 1, j, id);
    k := if since.Some? then since.value else 0;
    if since.None? { TickExact(ws[i], es[i].outcome, id); }
  }

  /** Ids are never reused, so a handler that finishes late, after its stream was cancelled,
      takes out no other handler's stream. */
  lemma LateRemoveIsHarmless(ws: seq<World>, es: seq<Event>, i: nat, id: StreamId)
    requires IsRun(ws, es) && i < |es| && es[i].Finish? && id in ws[i].active
    ensures id !in ws[i + 1].active <==> Owns(ws[i], es[i].handler, id)
  {
    assert Enabled(ws[i], es[i]) && ws[i + 1] == Apply(ws[i], es[i]);
    OwnIdsHold(ws, es, i);
    var h :| Owns(ws[i], h, id);
  }
}

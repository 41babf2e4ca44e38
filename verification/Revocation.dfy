/** The control plane, and a daemon with its replay guard, its streams and its authorization
    loop: how a change in the tables comes to close a stream, and how long it may take. All keep
    time on one clock. */
module Revocation {
  import opened Text
  import opened State
  import opened Sharing
  import opened Statements
  import opened Access
  import C = ControlPlane
  import E = EndToEnd
  import S = Streams
  import Reachable

  type Pairs = set<(AccountId, ResourceId)>

  /** A daemon: its key, and the account whose services it hosts. */
  datatype Site = Site(c: C.Config, endpoint: KeyBytes, owner: AccountId)

  /** `j` is the control plane with the daemon's guard and requests, and `d` the daemon's streams
      and its loop. `flight` is the answer to the loop's request, from when the control plane has
      read it out of its tables until the loop has it or gives up on it. `readAt` is when the
      handler of an accepted request read the clock. */
  datatype System = System(j: E.Joint, d: S.World, flight: Option<Pairs>, readAt: map<S.Handler, nat>)

  datatype SystemEvent =
    | Joint(joint: E.JointEvent)
    | Task(task: S.Event)
    | Pass(seconds: nat)
    | Answer(machine: Machine)
    | Deliver
    | Fail

  ghost predicate Accepts(site: Site, s: System, x: E.JointEvent) {
    x.Present? && E.Decision(site.c, site.endpoint, s.j, x).Ok?
  }

  ghost function StreamOf(site: Site, s: System, x: E.JointEvent): S.Stream
    requires Accepts(site, s, x)
  {
    var claims := E.Decision(site.c, site.endpoint, s.j, x).value.claims;
    S.Stream(claims.viewer, claims.resource)
  }

  /** The daemon's part of a step: the handler of an accepted request goes on to open a stream. */
  ghost function DaemonEvent(site: Site, s: System, e: SystemEvent): S.Event {
    match e
    case Joint(x) => if Accepts(site, s, x) then S.Admit(x.id, StreamOf(site, s, x)) else S.Advance(0)
    case Task(x) => x
    case Pass(seconds) => S.Advance(seconds)
    case Answer(_) => S.Advance(0)
    case Deliver => S.Tick(if s.flight.Some? then S.Refreshed(s.flight.value) else S.Failed)
    case Fail => S.Tick(S.Failed)
  }

  /** The part of the control plane and the guard. */
  function JointEventOf(e: SystemEvent): E.JointEvent {
    match e
    case Joint(x) => x
    case Pass(seconds) => E.Control(C.Quiet(C.Advancing(seconds)))
    case _ => E.Control(C.Quiet(C.Advancing(0)))
  }

  predicate Advances(x: E.JointEvent) {
    x.Control? && x.event.Quiet? && x.event.quiet.Advancing?
  }

  /** What a step needs besides what its parts need: a request is its handler's, the loop sends
      one request at a time and for the daemon's owner, and what moves both parts is one step. */
  ghost predicate Coupled(site: Site, s: System, e: SystemEvent) {
    match e
    case Joint(x) => !Advances(x) && (x.Arrive? ==> s.d.running && x.id !in s.d.handlers)
    case Task(x) => !x.Advance? && !x.Tick? && !x.Admit?
    case Pass(_) => true
    case Answer(machine) =>
      machine in s.j.w.machines && machine.account == site.owner && s.flight.None? && s.d.running && !s.d.pending
    case Deliver => s.flight.Some?
    case Fail => true
  }

  ghost function FlightAfter(site: Site, s: System, e: SystemEvent): Option<Pairs> {
    if e.Answer? then Some(ServiceAuthorizations(s.j.w.t, site.owner)) else if e.Deliver? || e.Fail? then None else s.flight
  }

  ghost function ReadsAfter(site: Site, s: System, e: SystemEvent): map<S.Handler, nat> {
    if e.Joint? && Accepts(site, s, e.joint) then s.readAt[e.joint.id := e.joint.at] else s.readAt
  }

  ghost predicate Steps(site: Site, s: System, e: SystemEvent, u: System) {
    && Coupled(site, s, e)
    && E.JointSteps(site.c, site.endpoint, s.j, JointEventOf(e), u.j)
    && S.Enabled(s.d, DaemonEvent(site, s, e)) && u.d == S.Apply(s.d, DaemonEvent(site, s, e))
    && u.flight == FlightAfter(site, s, e) && u.readAt == ReadsAfter(site, s, e)
  }

  ghost predicate StepsAt(site: Site, ss: seq<System>, es: seq<SystemEvent>, i: nat) {
    i < |es| && i + 1 < |ss| && Steps(site, ss[i], es[i], ss[i + 1])
  }

  function Start(now: nat): System {
    System(E.Joint(C.Start(now), map[], map[]), S.Start(now), None, map[])
  }

  ghost predicate IsRun(site: Site, ss: seq<System>, es: seq<SystemEvent>) {
    && |ss| == |es| + 1 && ss[0] == Start(ss[0].d.now)
    && forall i :: 0 <= i < |es| ==> StepsAt(site, ss, es, i)
  }

  // -- the parts -----------------------------------------------------------------------------------------

  function Daemons(ss: seq<System>): seq<S.World> {
    seq(|ss|, i requires 0 <= i < |ss| => ss[i].d)
  }

  ghost function DaemonEvents(site: Site, ss: seq<System>, es: seq<SystemEvent>): seq<S.Event>
    requires |es| <= |ss|
  {
    seq(|es|, i requires 0 <= i < |es| => DaemonEvent(site, ss[i], es[i]))
  }

  lemma DaemonPart(site: Site, ss: seq<System>, es: seq<SystemEvent>)
    requires IsRun(site, ss, es)
    ensures S.IsRun(Daemons(ss), DaemonEvents(site, ss, es))
  {
    var ds, fs := Daemons(ss), DaemonEvents(site, ss, es);
    forall i | 0 <= i < |fs| ensures S.Enabled(ds[i], fs[i]) && ds[i + 1] == S.Apply(ds[i], fs[i]) {
      assert StepsAt(site, ss, es, i);
    }
  }

  function Joints(ss: seq<System>): seq<E.Joint> {
    seq(|ss|, i requires 0 <= i < |ss| => ss[i].j)
  }

  function JointEvents(es: seq<SystemEvent>): seq<E.JointEvent> {
    seq(|es|, i requires 0 <= i < |es| => JointEventOf(es[i]))
  }

  lemma JointPart(site: Site, ss: seq<System>, es: seq<SystemEvent>)
    requires IsRun(site, ss, es)
    ensures E.IsJointRun(site.c, site.endpoint, Joints(ss), JointEvents(es))
  {
    forall i | 0 <= i < |es| ensures E.JointStepsAt(site.c, site.endpoint, Joints(ss), JointEvents(es), i) {
      assert StepsAt(site, ss, es, i);
    }
  }

  lemma TablesInv(site: Site, ss: seq<System>, es: seq<SystemEvent>, n: nat)
    requires IsRun(site, ss, es) && n < |ss|
    ensures Inv(ss[n].j.w.t)
  {
    JointPart(site, ss, es);
    var js, xs := Joints(ss), JointEvents(es);
    E.ControlPart(site.c, site.endpoint, js, xs);
    C.RunIsTrace(site.c, E.Worlds(js), E.Events(xs));
    Reachable.TraceInv(E.Worlds(js), E.Events(xs), n);
  }

  /** A snapshot read in a run names exactly who could see the owner's services then. */
  lemma SnapshotAt(site: Site, ss: seq<System>, es: seq<SystemEvent>, a: nat, p: (AccountId, ResourceId))
    requires IsRun(site, ss, es) && a < |ss|
    ensures var t := ss[a].j.w.t;
            p in ServiceAuthorizations(t, site.owner)
            <==> Sees(t, p.0, p.1) && t.resources[p.1].owner == site.owner && t.resources[p.1].kind == Service
  {
    TablesInv(site, ss, es, a);
    SnapshotIsOfOwnServices(ss[a].j.w.t, site.owner, p.0, p.1);
  }

  // -- what one step does, without the tables ------------------------------------------------------------

  /** A step as the loop sees it. */
  ghost predicate Moves(s: System, e: SystemEvent, u: System) {
    && s.d.now <= u.d.now && (s.d.now < u.d.now ==> e.Pass?)
    && (s.d.running ==> u.d.running)
    && (e.Deliver? ==> s.flight.Some? && u.d.snapshot == s.flight.value && u.d.refreshes == s.d.refreshes + 1)
    && (!e.Deliver? ==> u.d.snapshot == s.d.snapshot && u.d.refreshes == s.d.refreshes)
    && (s.d.running && !s.d.pending && !e.Deliver? ==> u.d.lastSuccess == s.d.lastSuccess && !u.d.pending)
    && (s.d.lastSuccess <= s.d.now ==> u.d.lastSuccess <= u.d.now)
    && (s.d.pending && s.flight.None? ==> u.flight.None?)
    && (e.Deliver? || e.Fail? ==> s.d.running && !s.d.pending && u.flight.None? && u.d.now == s.d.now)
    && (s.flight.None? && u.flight.Some? ==> e.Answer?)
    && (u.flight.Some? && !e.Answer? ==> u.flight == s.flight && !e.Deliver?)
  }

  lemma StepMoves(site: Site, s: System, e: SystemEvent, u: System)
    requires Steps(site, s, e, u)
    ensures Moves(s, e, u)
  {
    S.LoopFrame(s.d, DaemonEvent(site, s, e));
  }

  ghost predicate MovesAt(ss: seq<System>, es: seq<SystemEvent>, i: nat) {
    i < |es| && i + 1 < |ss| && Moves(ss[i], es[i], ss[i + 1])
  }

  lemma MovesHere(site: Site, ss: seq<System>, es: seq<SystemEvent>, i: nat)
    requires IsRun(site, ss, es) && i < |es|
    ensures MovesAt(ss, es, i)
  {
    assert StepsAt(site, ss, es, i);
    StepMoves(site, ss[i], es[i], ss[i + 1]);
  }

  /** A run as the loop sees it. */
  ghost predicate IsTrace(ss: seq<System>, es: seq<SystemEvent>) {
    && |ss| == |es| + 1 && ss[0] == Start(ss[0].d.now)
    && forall i :: 0 <= i < |es| ==> MovesAt(ss, es, i)
  }

  lemma RunIsTrace(site: Site, ss: seq<System>, es: seq<SystemEvent>)
    requires IsRun(site, ss, es)
    ensures IsTrace(ss, es)
  {
    forall i | 0 <= i < |es| ensures MovesAt(ss, es, i) { MovesHere(site, ss, es, i); }
  }

  lemma {:induction false} ClockMoves(ss: seq<System>, es: seq<SystemEvent>, i: nat, j: nat)
    requires IsTrace(ss, es) && i <= j < |ss|
    ensures ss[i].d.now <= ss[j].d.now && (ss[i].d.running ==> ss[j].d.running)
  {
    if i < j {
      ClockMoves(ss, es, i, j - 1);
      assert MovesAt(ss, es, j - 1);
    }
  }

  lemma {:induction false} LeaseInPast(ss: seq<System>, es: seq<SystemEvent>, n: nat)
    requires IsTrace(ss, es) && n < |ss|
    ensures ss[n].d.lastSuccess <= ss[n].d.now
  {
    if n > 0 {
      LeaseInPast(ss, es, n - 1);
      assert MovesAt(ss, es, n - 1);
    }
  }

  // -- where a snapshot comes from ---------------------------------------------------------------------

  /** The answer in flight was read from the tables by a step since which it has been in flight. */
  lemma {:induction false} FlightOrigin(site: Site, ss: seq<System>, es: seq<SystemEvent>, n: nat) returns (a: nat)
    requires IsRun(site, ss, es) && n < |ss| && ss[n].flight.Some?
    ensures a < n && es[a].Answer? && ss[n].flight == Some(ServiceAuthorizations(ss[a].j.w.t, site.owner))
    ensures forall k :: a < k <= n ==> ss[k].flight.Some?
    ensures forall k :: a < k < n ==> !es[k].Deliver?
  {
    assert n > 0;
    MovesHere(site, ss, es, n - 1);
    if es[n - 1].Answer? {
      assert StepsAt(site, ss, es, n - 1);
      a := n - 1;
    } else {
      a := FlightOrigin(site, ss, es, n - 1);
    }
  }

  /** After the first refresh, the daemon's snapshot was delivered by a step `m`, and read from
      the tables by a step `a` before it, with no other refresh since. */
  lemma {:induction false} SnapshotOrigin(site: Site, ss: seq<System>, es: seq<SystemEvent>, n: nat) returns (a: nat, m: nat)
    requires IsRun(site, ss, es) && n < |ss| && ss[n].d.refreshes > 0
    ensures a < m < n && es[a].Answer? && es[m].Deliver? && ss[n].d.snapshot == ServiceAuthorizations(ss[a].j.w.t, site.owner)
    ensures forall k :: a < k < n && es[k].Deliver? ==> k == m
  {
    assert n > 0;
    MovesHere(site, ss, es, n - 1);
    if es[n - 1].Deliver? {
      m := n - 1;
      a := FlightOrigin(site, ss, es, m);
    } else {
      a, m := SnapshotOrigin(site, ss, es, n - 1);
    }
  }

  /** Once the loop has refreshed, every stream that was open before the last refresh is for one
      of the owner's services, and its viewer could see it when the control plane answered. */
  lemma RefreshCarriesRevocation(site: Site, ss: seq<System>, es: seq<SystemEvent>, i: nat, id: S.StreamId)
    returns (a: nat, m: nat)
    requires IsRun(site, ss, es) && i < |ss| && id in ss[i].d.active
    requires id in ss[i].d.born && ss[i].d.born[id] < ss[i].d.refreshes
    ensures a < m < i && es[a].Answer? && es[m].Deliver? && forall k :: a < k < i && es[k].Deliver? ==> k == m
    ensures var t, s := ss[a].j.w.t, ss[i].d.active[id];
            Sees(t, s.viewer, s.resource) && t.resources[s.resource].owner == site.owner && t.resources[s.resource].kind == Service
  {
    DaemonPart(site, ss, es);
    a, m := SnapshotOrigin(site, ss, es, i);
    S.RevocationReachesOldStreams(Daemons(ss), DaemonEvents(site, ss, es), i, id);
    SnapshotAt(site, ss, es, a, (ss[i].d.active[id].viewer, ss[i].d.active[id].resource));
  }

  // -- how long a revocation takes ----------------------------------------------------------------------

  /** The end of a turn of the loop. */
  predicate Ticks(s: System, e: SystemEvent) {
    e.Fail? || (e.Deliver? && s.flight.Some?)
  }

  /** The loop has finished its last turn, and the next request has not been answered. */
  predicate Idle(s: System) {
    s.d.running && s.flight.None? && !s.d.pending
  }

  ghost predicate InsertsAt(ss: seq<System>, es: seq<SystemEvent>, k: nat, id: S.StreamId, stream: S.Stream) {
    k < |es| && k < |ss| && es[k].Task? && S.Inserts(ss[k].d, es[k].task, id, stream)
  }

  /** The viewer of a stream cannot see its resource from `q` up to and not including `n`. */
  ghost predicate HiddenFrom(ss: seq<System>, q: nat, n: nat, stream: S.Stream) {
    forall a :: q <= a < n && a < |ss| ==> !Sees(ss[a].j.w.t, stream.viewer, stream.resource)
  }

  /** Without a refresh the lease stays where it was. */
  lemma {:induction false} LeaseStands(ss: seq<System>, es: seq<SystemEvent>, q: nat, n: nat)
    requires IsTrace(ss, es) && q <= n < |ss| && Idle(ss[q])
    requires forall m :: q <= m < n ==> !es[m].Deliver?
    ensures ss[n].d.lastSuccess == ss[q].d.lastSuccess && !ss[n].d.pending && ss[n].d.running
  {
    if q < n {
      LeaseStands(ss, es, q, n - 1);
      assert MovesAt(ss, es, n - 1);
    }
  }

  /** From a tick on, an open stream was inserted after it or was spared by it. */
  lemma TickSparesOrAfter(site: Site, ss: seq<System>, es: seq<SystemEvent>, i: nat, j: nat, id: S.StreamId) returns (k: nat)
    requires IsRun(site, ss, es) && i < j < |ss| && Ticks(ss[i], es[i]) && id in ss[j].d.active
    ensures (i < k < j && InsertsAt(ss, es, k, id, ss[j].d.active[id]))
            || S.Spares(ss[i].d, DaemonEvent(site, ss[i], es[i]).outcome, ss[j].d.active[id])
  {
    DaemonPart(site, ss, es);
    k := S.TickCloses(Daemons(ss), DaemonEvents(site, ss, es), i, j, id);
  }

  /** A refresh whose answer was read while the viewer could not see the resource closes the
      viewer's streams to it. */
  lemma RefreshCloses(site: Site, ss: seq<System>, es: seq<SystemEvent>, q: nat, m: nat, j: nat, id: S.StreamId) returns (k: nat)
    requires IsRun(site, ss, es) && q <= m < j < |ss| && Idle(ss[q]) && es[m].Deliver? && id in ss[j].d.active
    requires HiddenFrom(ss, q, m, ss[j].d.active[id])
    ensures m < k < j && InsertsAt(ss, es, k, id, ss[j].d.active[id])
  {
    MovesHere(site, ss, es, m);
    var a := FlightOrigin(site, ss, es, m);
    assert q <= a;
    SnapshotAt(site, ss, es, a, (ss[j].d.active[id].viewer, ss[j].d.active[id].resource));
    k := TickSparesOrAfter(site, ss, es, m, j, id);
  }

  /** The lease. Let the loop be between two turns at `q`, and let a turn end fifteen seconds
      later or more, with the viewer unable to see the resource all that time. However the turns
      in between went, every stream of the viewer to the resource that is open after that turn
      was inserted after `q`. */
  lemma RevokedByTick(site: Site, ss: seq<System>, es: seq<SystemEvent>, q: nat, i: nat, j: nat, id: S.StreamId) returns (k: nat)
    requires IsRun(site, ss, es) && q <= i < j < |ss| && Idle(ss[q]) && Ticks(ss[i], es[i])
    requires ss[i].d.now >= ss[q].d.now + S.STALE_LEASE && id in ss[j].d.active
    requires HiddenFrom(ss, q, i, ss[j].d.active[id])
    ensures q <= k < j && InsertsAt(ss, es, k, id, ss[j].d.active[id])
  {
    if m :| q <= m <= i && es[m].Deliver? {
      k := RefreshCloses(site, ss, es, q, m, j, id);
    } else {
      RunIsTrace(site, ss, es);
      LeaseStands(ss, es, q, i);
      LeaseInPast(ss, es, q);
      k := TickSparesOrAfter(site, ss, es, i, j, id);
    }
  }

  // -- in seconds ------------------------------------------------------------------------------------------

  ghost predicate TickBetween(ss: seq<System>, es: seq<SystemEvent>, i: nat, j: nat) {
    exists k :: i <= k < j && k < |es| && k < |ss| && Ticks(ss[k], es[k])
  }

  /** While the daemon runs, no `period` passes without the end of a turn: a request is answered,
      or given up on, in time. The loop itself sets its requests no limit. */
  ghost predicate TicksEvery(ss: seq<System>, es: seq<SystemEvent>, period: nat) {
    forall i, j :: 0 <= i <= j < |ss| && ss[i].d.running && ss[j].d.now > ss[i].d.now + period ==> TickBetween(ss, es, i, j)
  }

  /** The first turn to end from `i` on ends within the period. */
  lemma FirstTick(ss: seq<System>, es: seq<SystemEvent>, period: nat, i: nat, j: nat) returns (p: nat)
    requires |ss| == |es| + 1 && TicksEvery(ss, es, period) && i <= j < |ss| && ss[i].d.running
    requires ss[j].d.now > ss[i].d.now + period
    ensures i <= p < j && Ticks(ss[p], es[p]) && ss[p].d.now <= ss[i].d.now + period
  {
    assert TickBetween(ss, es, i, j);
    p := i;
    while !Ticks(ss[p], es[p])
      invariant i <= p < j && TickBetween(ss, es, p, j)
      invariant !TickBetween(ss, es, i, p)
      decreases j - p
    {
      p := p + 1;
    }
  }

  /** Between two turns' ends the loop is idle at some time. */
  lemma IdleBetween(ss: seq<System>, es: seq<SystemEvent>, p: nat, n: nat) returns (q: nat)
    requires IsTrace(ss, es) && p < n < |ss| && Ticks(ss[p], es[p]) && !ss[n].d.pending
    ensures p < q <= n && Idle(ss[q])
  {
    assert MovesAt(ss, es, p);
    q := p + 1;
    while ss[q].d.pending
      invariant p < q <= n && ss[q].flight.None? && ss[q].d.running
      decreases n - q
    {
      assert MovesAt(ss, es, q);
      q := q + 1;
    }
  }

  /** The last state before fifteen seconds have passed. */
  lemma FirstLate(ss: seq<System>, es: seq<SystemEvent>, q: nat, j: nat) returns (n: nat)
    requires IsTrace(ss, es) && q <= j < |ss| && ss[j].d.now >= ss[q].d.now + S.STALE_LEASE
    ensures q <= n < j && es[n].Pass? && ss[n].d.now < ss[q].d.now + S.STALE_LEASE <= ss[n + 1].d.now
  {
    n := q;
    while ss[n + 1].d.now < ss[q].d.now + S.STALE_LEASE
      invariant q <= n < j && ss[n].d.now < ss[q].d.now + S.STALE_LEASE
      decreases j - n
    {
      n := n + 1;
    }
    assert MovesAt(ss, es, n);
  }

  /** A turn that ends fifteen seconds after `q` or later, and before `j`. */
  lemma LateTick(ss: seq<System>, es: seq<SystemEvent>, period: nat, q: nat, j: nat) returns (i: nat)
    requires IsTrace(ss, es) && TicksEvery(ss, es, period) && q <= j < |ss| && ss[q].d.running
    requires ss[j].d.now >= ss[q].d.now + S.STALE_LEASE + period
    ensures q <= i < j && Ticks(ss[i], es[i]) && ss[i].d.now >= ss[q].d.now + S.STALE_LEASE
  {
    var n := FirstLate(ss, es, q, j);
    ClockMoves(ss, es, q, n);
    i := FirstTick(ss, es, period, n, j);
    assert i > n;
    ClockMoves(ss, es, n + 1, i);
  }

  /** An idle state within two periods, and a turn that ends fifteen seconds after it or later. */
  lemma LeaseWindow(ss: seq<System>, es: seq<SystemEvent>, period: nat, r: nat, j: nat) returns (q: nat, i: nat)
    requires IsTrace(ss, es) && TicksEvery(ss, es, period) && r <= j < |ss| && ss[r].d.running
    requires ss[j].d.now > ss[r].d.now + 3 * period + S.STALE_LEASE
    ensures r <= q <= i < j && Idle(ss[q]) && Ticks(ss[i], es[i]) && ss[i].d.now >= ss[q].d.now + S.STALE_LEASE
  {
    var p := FirstTick(ss, es, period, r, j);
    assert MovesAt(ss, es, p);
    var n := FirstTick(ss, es, period, p + 1, j);
    assert MovesAt(ss, es, n);
    q := IdleBetween(ss, es, p, n);
    ClockMoves(ss, es, q, n);
    i := LateTick(ss, es, period, q, j);
  }

  /** A bound on revocation. When no `period` passes without the end of a turn, no stream stays
      open for three periods and fifteen seconds of its viewer not seeing its resource: a stream
      that is open at `j` was inserted after any `r` that long before, if the viewer could not
      see the resource in between. */
  lemma RevokedInTime(site: Site, ss: seq<System>, es: seq<SystemEvent>, period: nat, r: nat, j: nat, id: S.StreamId) returns (k: nat)
    requires IsRun(site, ss, es) && TicksEvery(ss, es, period) && r <= j < |ss| && ss[r].d.running && id in ss[j].d.active
    requires ss[j].d.now > ss[r].d.now + 3 * period + S.STALE_LEASE
    requires HiddenFrom(ss, r, j, ss[j].d.active[id])
    ensures r <= k < j && InsertsAt(ss, es, k, id, ss[j].d.active[id])
  {
    RunIsTrace(site, ss, es);
    var q, i := LeaseWindow(ss, es, period, r, j);
    k := RevokedByTick(site, ss, es, q, i, j, id);
  }

  // -- from the last sight of a resource to the last stream ------------------------------------------------

  /** What the stream's handler opens, and when it read the clock, it has from an accepted request. */
  ghost predicate AdmittedAt(site: Site, ss: seq<System>, es: seq<SystemEvent>, m: nat, stream: S.Stream, at: nat) {
    && m < |es| && m < |ss| && es[m].Joint? && Accepts(site, ss[m], es[m].joint)
    && StreamOf(site, ss[m], es[m].joint) == stream && es[m].joint.at == at
  }

  /** Where a handler's stream, and the clock reading of its request, come from in one step. */
  lemma HandlerFrame(site: Site, s: System, e: SystemEvent, u: System, h: S.Handler)
    requires Steps(site, s, e, u) && h in u.d.handlers
    ensures (h in s.d.handlers && s.d.handlers[h].stream == u.d.handlers[h].stream && (h in s.readAt ==> h in u.readAt && u.readAt[h] == s.readAt[h]))
            || (e.Joint? && Accepts(site, s, e.joint) && StreamOf(site, s, e.joint) == u.d.handlers[h].stream
                && h in u.readAt && u.readAt[h] == e.joint.at)
  {
    S.HandlerFrame(s.d, DaemonEvent(site, s, e), h);
  }

  lemma {:induction false} HandlerOrigin(site: Site, ss: seq<System>, es: seq<SystemEvent>, n: nat, h: S.Handler) returns (m: nat)
    requires IsRun(site, ss, es) && n < |ss| && h in ss[n].d.handlers
    ensures h in ss[n].readAt && m < n && AdmittedAt(site, ss, es, m, ss[n].d.handlers[h].stream, ss[n].readAt[h])
  {
    assert n > 0;
    assert StepsAt(site, ss, es, n - 1);
    HandlerFrame(site, ss[n - 1], es[n - 1], ss[n], h);
    if h in ss[n - 1].d.handlers && ss[n - 1].d.handlers[h].stream == ss[n].d.handlers[h].stream {
      m := HandlerOrigin(site, ss, es, n - 1, h);
      if ss[n].readAt[h] != ss[n - 1].readAt[h] { m := n - 1; }
    } else {
      m := n - 1;
    }
  }

  lemma {:induction false} ClocksAgree(site: Site, ss: seq<System>, es: seq<SystemEvent>, n: nat)
    requires IsRun(site, ss, es) && n < |ss|
    ensures ss[n].j.w.now == ss[n].d.now
  {
    if n > 0 {
      ClocksAgree(site, ss, es, n - 1);
      assert StepsAt(site, ss, es, n - 1);
      SameClock(site, ss[n - 1], es[n - 1], ss[n]);
    }
  }

  lemma SameClock(site: Site, s: System, e: SystemEvent, u: System)
    requires Steps(site, s, e, u) && s.j.w.now == s.d.now
    ensures u.j.w.now == u.d.now
  {
    S.LoopFrame(s.d, DaemonEvent(site, s, e));
    E.JointClock(site.c, site.endpoint, s.j, JointEventOf(e), u.j);
  }

  /** An accepted request for a resource was accepted at most 180 seconds after its viewer could
      last see the resource. */
  lemma AcceptedSoon(site: Site, ss: seq<System>, es: seq<SystemEvent>, m: nat, stream: S.Stream, at: nat, r: nat)
    requires IsRun(site, ss, es) && AdmittedAt(site, ss, es, m, stream, at) && r < |ss| && HiddenFrom(ss, r, m, stream)
    ensures at <= ss[r].d.now + 180
  {
    JointPart(site, ss, es);
    RunIsTrace(site, ss, es);
    var js, xs := Joints(ss), JointEvents(es);
    var k := E.AcceptedIsEntitled(site.c, site.endpoint, js, xs, m);
    assert Sees(ss[k].j.w.t, stream.viewer, stream.resource);
    assert k < r;
    ClocksAgree(site, ss, es, k);
    ClockMoves(ss, es, k, r);
  }

  /** No handler takes longer than `delay` from reading the clock to inserting its stream. */
  ghost predicate InsertsWithin(ss: seq<System>, es: seq<SystemEvent>, delay: nat) {
    forall k :: 0 <= k < |es| && k < |ss| && es[k].Task? && es[k].task.InsertStream? && es[k].task.handler in ss[k].readAt
                ==> ss[k].d.now <= ss[k].readAt[es[k].task.handler] + delay
  }

  lemma InsertedSoon(site: Site, ss: seq<System>, es: seq<SystemEvent>, delay: nat, r: nat, k: nat, id: S.StreamId, stream: S.Stream)
    requires IsRun(site, ss, es) && InsertsWithin(ss, es, delay) && r < |ss|
    requires InsertsAt(ss, es, k, id, stream) && HiddenFrom(ss, r, k, stream)
    ensures ss[k].d.now <= ss[r].d.now + 180 + delay
  {
    var h := es[k].task.handler;
    var m := HandlerOrigin(site, ss, es, k, h);
    AcceptedSoon(site, ss, es, m, stream, ss[k].readAt[h], r);
  }

  /** The last insertion of a stream was not long ago; `None` when the wait from `r` is not over. */
  lemma {:induction false} LastInserted(site: Site, ss: seq<System>, es: seq<SystemEvent>, period: nat, r: nat, j: nat, id: S.StreamId)
    returns (k: Option<nat>)
    requires IsRun(site, ss, es) && TicksEvery(ss, es, period) && r <= j < |ss| && ss[r].d.running && id in ss[j].d.active
    requires HiddenFrom(ss, r, j, ss[j].d.active[id])
    ensures k.None? ==> ss[j].d.now <= ss[r].d.now + 3 * period + S.STALE_LEASE
    ensures k.Some? ==> r <= k.value < j && InsertsAt(ss, es, k.value, id, ss[j].d.active[id])
                        && ss[j].d.now <= ss[k.value].d.now + 3 * period + S.STALE_LEASE
    decreases j - r
  {
    k := None;
    if ss[j].d.now > ss[r].d.now + 3 * period + S.STALE_LEASE {
      var first := RevokedInTime(site, ss, es, period, r, j, id);
      InsertStands(site, ss, es, first, id, ss[j].d.active[id]);
      k := LastInserted(site, ss, es, period, first + 1, j, id);
      if k.None? { k := Some(first); }
    }
  }

  lemma InsertStands(site: Site, ss: seq<System>, es: seq<SystemEvent>, k: nat, id: S.StreamId, stream: S.Stream)
    requires IsRun(site, ss, es) && InsertsAt(ss, es, k, id, stream)
    ensures k + 1 < |ss| && ss[k + 1].d.now == ss[k].d.now && ss[k].d.running && ss[k + 1].d.running
  {
    MovesHere(site, ss, es, k);
  }

  lemma SomeInsert(site: Site, ss: seq<System>, es: seq<SystemEvent>, j: nat, id: S.StreamId) returns (k: nat)
    requires IsRun(site, ss, es) && j < |ss| && id in ss[j].d.active
    ensures k < j && InsertsAt(ss, es, k, id, ss[j].d.active[id])
  {
    DaemonPart(site, ss, es);
    var since := S.SinceOrBefore(Daemons(ss), DaemonEvents(site, ss, es), 0, j, id);
    k := since.value;
  }

  /** From the tables to the wire. Suppose a viewer has not been able to see a resource since `r`.
      However requests, handlers, refreshes and their failures interleave, a stream of the viewer
      to it is open only within 180 seconds (the life of a grant), the delay of a handler, three
      periods of the loop and fifteen seconds (the lease) of `r`. */
  lemma ClosedInTime(site: Site, ss: seq<System>, es: seq<SystemEvent>, period: nat, delay: nat, r: nat, j: nat, id: S.StreamId)
    requires IsRun(site, ss, es) && TicksEvery(ss, es, period) && InsertsWithin(ss, es, delay)
    requires r <= j < |ss| && id in ss[j].d.active && HiddenFrom(ss, r, j, ss[j].d.active[id])
    ensures ss[j].d.now <= ss[r].d.now + 180 + delay + 3 * period + S.STALE_LEASE
  {
    RunIsTrace(site, ss, es);
    var stream := ss[j].d.active[id];
    var k := SomeInsert(site, ss, es, j, id);
    InsertStands(site, ss, es, k, id, stream);
    var from := if k < r then r else k + 1;
    ClockMoves(ss, es, k, from);
    var last := LastInserted(site, ss, es, period, from, j, id);
    if last.Some? {
      InsertedSoon(site, ss, es, delay, r, last.value, id, stream);
    } else if r <= k {
      InsertedSoon(site, ss, es, delay, r, k, id, stream);
    }
  }
}

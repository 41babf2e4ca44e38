/** Live profile pages. Writers change the database, then announce the accounts they changed
    on a bounded broadcast channel; a reader subscribes, takes a snapshot, and takes another
    for every announcement that names its profile, or whenever it has fallen behind.

    A step is what happens under one lock or in one atomic operation; steps of any number of
    writers and of the reader interleave freely. */
module ProfileStream {
  import opened State

  const CAPACITY: nat := 64

  type Writer = nat

  /** Where a writer stands between its commit and its announcement. `change` numbers the
      commits. */
  datatype Phase =
    | Committed(change: nat, accounts: set<AccountId>)
    | Numbered(change: nat, accounts: set<AccountId>, revision: nat)

  datatype Announcement = Announcement(change: nat, accounts: set<AccountId>, revision: nat)

  /** Which of its two first steps a reader takes first; the server's readers subscribe first. */
  datatype Order = SubscribeFirst | SnapshotFirst

  /** `next` is the reader's place in the channel; `rendered` is how many changes had been
      committed when it last took a snapshot. */
  datatype Reader =
    | Absent
    | Subscribed(next: nat)
    | Shown(rendered: nat)
    | Live(next: nat, rendered: nat)
    | Rendering(next: nat, rendered: nat)

  datatype Channel = Channel(
    changes: nat,
    revision: nat,
    writers: map<Writer, Phase>,
    sent: seq<Announcement>,
    reader: Reader)

  datatype Event =
    | Commit(writer: Writer, accounts: set<AccountId>)
    | Number(writer: Writer)
    | Send(writer: Writer)
    | Subscribe
    | FirstSnapshot
    | Receive
    | Snapshot

  predicate Enabled(order: Order, c: Channel, e: Event) {
    match e
    case Commit(w, _) => w !in c.writers
    case Number(w) => w in c.writers && c.writers[w].Committed?
    case Send(w) => w in c.writers && c.writers[w].Numbered?
    case Subscribe => if order.SubscribeFirst? then c.reader.Absent? else c.reader.Shown?
    case FirstSnapshot => if order.SubscribeFirst? then c.reader.Subscribed? else c.reader.Absent?
    case Receive => c.reader.Live? && c.reader.next < |c.sent|
    case Snapshot => c.reader.Rendering?
  }

  /** The reader's next place and whether it must render: it has lagged when the channel no
      longer holds the announcement it is at. */
  function Received(c: Channel, owner: AccountId): Reader
    requires c.reader.Live? && c.reader.next < |c.sent|
  {
    var next := c.reader.next;
    if |c.sent| - next > CAPACITY then Rendering(|c.sent| - CAPACITY, c.reader.rendered)
    else if owner in c.sent[next].accounts then Rendering(next + 1, c.reader.rendered)
    else Live(next + 1, c.reader.rendered)
  }

  function Apply(order: Order, c: Channel, owner: AccountId, e: Event): Channel
    requires Enabled(order, c, e)
  {
    match e
    case Commit(w, accounts) => c.(changes := c.changes + 1, writers := c.writers[w := Committed(c.changes + 1, accounts)])
    case Number(w) =>
      if c.writers[w].accounts == {} then c.(writers := c.writers - {w})
      else
        c.(revision := c.revision + 1,
           writers := c.writers[w := Numbered(c.writers[w].change, c.writers[w].accounts, c.revision + 1)])
    case Send(w) =>
      var p := c.writers[w];
      c.(sent := c.sent + [Announcement(p.change, p.accounts, p.revision)], writers := c.writers - {w})
    case Subscribe => c.(reader := if c.reader.Shown? then Live(|c.sent|, c.reader.rendered) else Subscribed(|c.sent|))
    case FirstSnapshot => c.(reader := if c.reader.Subscribed? then Live(c.reader.next, c.changes) else Shown(c.changes))
    case Receive => c.(reader := Received(c, owner))
    case Snapshot => c.(reader := Live(c.reader.next, c.changes))
  }

  const START: Channel := Channel(0, 0, map[], [], Absent)

  ghost predicate IsRun(order: Order, owner: AccountId, cs: seq<Channel>, es: seq<Event>) {
    && |cs| == |es| + 1 && cs[0] == START
    && forall i :: 0 <= i < |es| ==> Enabled(order, cs[i], es[i]) && cs[i + 1] == Apply(order, cs[i], owner, es[i])
  }

  /** A reader with nothing left to receive and nothing left to render. */
  predicate Drained(c: Channel) {
    c.reader.Live? && c.reader.next == |c.sent|
  }

  /** Changes are announced after they are committed, and a reader that owes no snapshot has
      taken one since every change it was told about or has passed by. */
  ghost predicate Inv(c: Channel, owner: AccountId) {
    && (forall w :: w in c.writers ==> c.writers[w].change <= c.changes)
    && (forall k :: 0 <= k < |c.sent| ==> c.sent[k].change <= c.changes)
    && !c.reader.Shown?
    && (!c.reader.Absent? ==> c.reader.next <= |c.sent|)
    && (c.reader.Live? ==> forall k :: 0 <= k < c.reader.next && owner in c.sent[k].accounts ==> c.sent[k].change <= c.reader.rendered)
  }

  lemma {:induction false} InvHolds(owner: AccountId, cs: seq<Channel>, es: seq<Event>, i: nat)
    requires IsRun(SubscribeFirst, owner, cs, es) && i < |cs|
    ensures Inv(cs[i], owner)
  {
    if i > 0 {
      InvHolds(owner, cs, es, i - 1);
      assert Enabled(SubscribeFirst, cs[i - 1], es[i - 1]) && cs[i] == Apply(SubscribeFirst, cs[i - 1], owner, es[i - 1]);
    }
  }

  /** No update is lost. Whatever the interleaving, and however far the reader has lagged, a
      drained reader's last snapshot was taken after every change whose announcement named
      its profile. */
  lemma NoLostUpdate(owner: AccountId, cs: seq<Channel>, es: seq<Event>, i: nat, k: nat)
    requires IsRun(SubscribeFirst, owner, cs, es) && i < |cs| && Drained(cs[i])
    requires k < |cs[i].sent| && owner in cs[i].sent[k].accounts
    ensures cs[i].sent[k].change <= cs[i].reader.rendered
  {
    InvHolds(owner, cs, es, i);
  }

  /** What a reader does with the next announcement: it has to render exactly when it lags by more
      than the channel holds, or when the announcement names its profile; and it goes on to the next
      one, or to the oldest one that the channel still holds. */
  lemma ReceiveExact(order: Order, owner: AccountId, c: Channel)
    requires Enabled(order, c, Receive)
    ensures var next, u := c.reader.next, Apply(order, c, owner, Receive);
            && u == c.(reader := u.reader) && (u.reader.Rendering? || u.reader.Live?)
            && (u.reader.Rendering? <==> |c.sent| - next > 64 || owner in c.sent[next].accounts)
            && u.reader.rendered == c.reader.rendered
            && u.reader.next == (if |c.sent| - next > 64 then |c.sent| - 64 else next + 1)
  {
  }

  lemma ExtendRun(order: Order, owner: AccountId, cs: seq<Channel>, es: seq<Event>, e: Event)
    requires IsRun(order, owner, cs, es) && Enabled(order, cs[|es|], e)
    ensures IsRun(order, owner, cs + [Apply(order, cs[|es|], owner, e)], es + [e])
  {
  }

  /** A reader catches up: from any state in which it is shown or rendering, its own steps alone bring
      it to have nothing left to receive, with nothing more sent. */
  lemma {:induction false} ReaderDrains(owner: AccountId, cs: seq<Channel>, es: seq<Event>) returns (us: seq<Channel>, fs: seq<Event>)
    requires IsRun(SubscribeFirst, owner, cs, es) && (cs[|es|].reader.Live? || cs[|es|].reader.Rendering?)
    ensures IsRun(SubscribeFirst, owner, us, fs) && es <= fs && Drained(us[|fs|]) && us[|fs|].sent == cs[|es|].sent
    ensures forall k :: |es| <= k < |fs| ==> fs[k] == Receive || fs[k] == Snapshot
    decreases |cs[|es|].sent| - cs[|es|].reader.next, if cs[|es|].reader.Rendering? then 1 else 0
  {
    var c := cs[|es|];
    us, fs := cs, es;
    if !Drained(c) {
      InvHolds(owner, cs, es, |es|);
      var e := if c.reader.Rendering? then Snapshot else Receive;
      ExtendRun(SubscribeFirst, owner, cs, es, e);
      us, fs := ReaderDrains(owner, cs + [Apply(SubscribeFirst, c, owner, e)], es + [e]);
    }
  }

  /** A change with accounts to announce has been announced to exactly those, or its writer is still
      at it. */
  ghost predicate Followed(c: Channel, change: nat, accounts: set<AccountId>) {
    || (exists k :: 0 <= k < |c.sent| && c.sent[k].change == change && c.sent[k].accounts == accounts)
    || (exists w :: w in c.writers && c.writers[w].change == change && c.writers[w].accounts == accounts)
  }

  lemma StepFollows(order: Order, owner: AccountId, c: Channel, e: Event, change: nat, accounts: set<AccountId>)
    requires Enabled(order, c, e) && Followed(c, change, accounts) && accounts != {}
    ensures Followed(Apply(order, c, owner, e), change, accounts)
  {
    var u := Apply(order, c, owner, e);
    if k :| 0 <= k < |c.sent| && c.sent[k].change == change && c.sent[k].accounts == accounts {
      assert u.sent[k] == c.sent[k];
    } else {
      var w :| w in c.writers && c.writers[w].change == change && c.writers[w].accounts == accounts;
      if e == Send(w) {
        assert u.sent[|c.sent|].change == change;
      } else {
        assert w in u.writers && u.writers[w].change == change && u.writers[w].accounts == accounts;
      }
    }
  }

  /** No announcement is forgotten: every committed change that names accounts is announced to exactly
      those once its writer has finished. */
  lemma {:induction false} CommittedIsAnnounced(order: Order, owner: AccountId, cs: seq<Channel>, es: seq<Event>, j: nat, i: nat)
    requires IsRun(order, owner, cs, es) && j < i < |cs| && es[j].Commit? && es[j].accounts != {}
    ensures Followed(cs[i], cs[j + 1].changes, es[j].accounts)
  {
    assert Enabled(order, cs[i - 1], es[i - 1]) && cs[i] == Apply(order, cs[i - 1], owner, es[i - 1]);
    if j == i - 1 {
      assert es[j].writer in cs[i].writers && cs[i].writers[es[j].writer].change == cs[j + 1].changes;
    } else {
      CommittedIsAnnounced(order, owner, cs, es, j, i - 1);
      StepFollows(order, owner, cs[i - 1], es[i - 1], cs[j + 1].changes, es[j].accounts);
    }
  }

  /** When no writer is left and the reader is drained, it has rendered after every committed change
      of its profile. */
  lemma QuietIsCurrent(owner: AccountId, cs: seq<Channel>, es: seq<Event>, j: nat, i: nat)
    requires IsRun(SubscribeFirst, owner, cs, es) && j < i < |cs| && es[j].Commit? && owner in es[j].accounts
    requires Drained(cs[i]) && cs[i].writers == map[]
    ensures cs[j + 1].changes <= cs[i].reader.rendered
  {
    CommittedIsAnnounced(SubscribeFirst, owner, cs, es, j, i);
    var k :| 0 <= k < |cs[i].sent| && cs[i].sent[k].change == cs[j + 1].changes && cs[i].sent[k].accounts == es[j].accounts;
    NoLostUpdate(owner, cs, es, i, k);
  }

  /** An announcement in the channel is of a change that some writer committed, with the
      accounts it named then. */
  lemma {:induction false} AnnouncedWasCommitted(order: Order, owner: AccountId, cs: seq<Channel>, es: seq<Event>, i: nat, a: Announcement)
    requires IsRun(order, owner, cs, es) && i < |cs|
    requires a in cs[i].sent || exists w :: w in cs[i].writers && cs[i].writers[w].change == a.change && cs[i].writers[w].accounts == a.accounts
    ensures exists j :: 0 <= j < i && es[j].Commit? && es[j].accounts == a.accounts && cs[j + 1].changes == a.change
  {
    if i > 0 {
      var c, e := cs[i - 1], es[i - 1];
      assert Enabled(order, c, e) && cs[i] == Apply(order, c, owner, e);
      if a in c.sent || exists w :: w in c.writers && c.writers[w].change == a.change && c.writers[w].accounts == a.accounts {
        AnnouncedWasCommitted(order, owner, cs, es, i - 1, a);
      } else {
        assert e.Commit? && e.accounts == a.accounts && cs[i].changes == a.change;
      }
    }
  }

  /** The order matters. In this run of a reader that takes its snapshot first, a writer commits,
      numbers and announces a change of the profile before the reader subscribes: the reader is
      then drained, and will never render the change. */
  lemma SnapshotFirstLosesUpdates(owner: AccountId, w: Writer) returns (cs: seq<Channel>, es: seq<Event>)
    ensures IsRun(SnapshotFirst, owner, cs, es) && es == [FirstSnapshot, Commit(w, {owner}), Number(w), Send(w), Subscribe]
    ensures var c := cs[|es|]; Drained(c) && |c.sent| == 1 && owner in c.sent[0].accounts && c.sent[0].change > c.reader.rendered
  {
    es := [FirstSnapshot, Commit(w, {owner}), Number(w), Send(w), Subscribe];
    cs := [START];
    cs := cs + [Apply(SnapshotFirst, cs[0], owner, es[0])];
    cs := cs + [Apply(SnapshotFirst, cs[1], owner, es[1])];
    cs := cs + [Apply(SnapshotFirst, cs[2], owner, es[2])];
    cs := cs + [Apply(SnapshotFirst, cs[3], owner, es[3])];
    cs := cs + [Apply(SnapshotFirst, cs[4], owner, es[4])];
  }
}

/** The request limiter: one counting window per account and class of request, with windows
    of absent users dropped now and then. */
module RateLimiting {
  import opened State

  datatype RateClass = SessionClass | MutationClass | CredentialClass | CapabilityClass

  function Limit(rateClass: RateClass): nat {
    match rateClass
    case SessionClass => 12
    case MutationClass => 120
    case CredentialClass => 20
    case CapabilityClass => 300
  }

  datatype Key = Key(account: AccountId, rateClass: RateClass)

  datatype Window = Window(startedAt: nat, requests: nat)

  const WINDOW_SECS: nat := 60
  const PRUNE_ABOVE: nat := 4096

  function Elapsed(now: nat, since: nat): nat {
    if now >= since then now - since else 0
  }

  function Retain(windows: map<Key, Window>, now: nat): map<Key, Window> {
    map k | k in windows && Elapsed(now, windows[k].startedAt) < WINDOW_SECS :: windows[k]
  }

  /** The window a check at `now` counts in. */
  function Current(windows: map<Key, Window>, key: Key, now: nat): Window {
    if key in windows && Elapsed(now, windows[key].startedAt) < WINDOW_SECS then windows[key] else Window(now, 0)
  }

  predicate Allows(windows: map<Key, Window>, key: Key, now: nat) {
    Current(windows, key, now).requests < Limit(key.rateClass)
  }

  /** The windows after a check, when none is dropped. */
  function Counted(windows: map<Key, Window>, key: Key, now: nat): map<Key, Window> {
    var window := Current(windows, key, now);
    windows[key := if Allows(windows, key, now) then window.(requests := window.requests + 1) else window]
  }

  function Pruned(windows: map<Key, Window>, now: nat): map<Key, Window> {
    if |windows| > PRUNE_ABOVE then Retain(windows, now) else windows
  }

  class RateLimits {
    var windows: map<Key, Window>

    constructor ()
      ensures windows == map[]
    {
      windows := map[];
    }

    method Check(account: AccountId, rateClass: RateClass, now: nat) returns (allowed: bool)
      modifies this
      ensures var before := Pruned(old(windows), now);
              allowed == Allows(before, Key(account, rateClass), now) && windows == Counted(before, Key(account, rateClass), now)
    {
      var key := Key(account, rateClass);
      if |windows| > PRUNE_ABOVE {
        windows := map k | k in windows && Elapsed(now, windows[k].startedAt) < WINDOW_SECS :: windows[k];
      }
      if key !in windows {
        windows := windows[key := Window(now, 0)];
      }
      if Elapsed(now, windows[key].startedAt) >= WINDOW_SECS {
        windows := windows[key := Window(now, 0)];
      }
      if windows[key].requests >= Limit(rateClass) {
        return false;
      }
      windows := windows[key := windows[key].(requests := windows[key].requests + 1)];
      return true;
    }
  }

  // -- runs ----------------------------------------------------------------------------

  datatype Request = Request(key: Key, now: nat)

  predicate NonDecreasing(requests: seq<Request>) {
    forall i, j :: 0 <= i <= j < |requests| ==> requests[i].now <= requests[j].now
  }

  /** The limiter's windows after some requests. */
  function After(requests: seq<Request>): map<Key, Window> {
    if requests == [] then map[]
    else
      var n := |requests| - 1;
      Counted(Pruned(After(requests[..n]), requests[n].now), requests[n].key, requests[n].now)
  }

  predicate Verdict(requests: seq<Request>, i: nat)
    requires i < |requests|
  {
    Allows(Pruned(After(requests[..i]), requests[i].now), requests[i].key, requests[i].now)
  }

  /** The same for a limiter that keeps every window. */
  function Kept(requests: seq<Request>): map<Key, Window> {
    if requests == [] then map[]
    else
      var n := |requests| - 1;
      Counted(Kept(requests[..n]), requests[n].key, requests[n].now)
  }

  predicate KeptVerdict(requests: seq<Request>, i: nat)
    requires i < |requests|
  {
    Allows(Kept(requests[..i]), requests[i].key, requests[i].now)
  }

  /** Two sets of windows that no request from `now` on can tell apart. */
  ghost predicate Alike(a: map<Key, Window>, b: map<Key, Window>, now: nat) {
    forall key, t :: t >= now ==> Current(a, key, t) == Current(b, key, t)
  }

  lemma PrunedAlike(windows: map<Key, Window>, now: nat)
    ensures Alike(Pruned(windows, now), windows, now)
  {
  }

  lemma CountedAlike(a: map<Key, Window>, b: map<Key, Window>, key: Key, now: nat)
    requires Alike(a, b, now)
    ensures Alike(Counted(a, key, now), Counted(b, key, now), now)
  {
    assert Current(a, key, now) == Current(b, key, now);
    forall k, t | t >= now ensures Current(Counted(a, key, now), k, t) == Current(Counted(b, key, now), k, t) {
      assert Current(a, k, t) == Current(b, k, t);
    }
  }

  lemma {:induction false} AfterAlike(requests: seq<Request>, now: nat)
    requires NonDecreasing(requests) && forall i :: 0 <= i < |requests| ==> requests[i].now <= now
    ensures Alike(After(requests), Kept(requests), now)
  {
    if requests != [] {
      var n := |requests| - 1;
      var last := requests[n];
      var before := After(requests[..n]);
      AfterAlike(requests[..n], last.now);
      PrunedAlike(before, last.now);
      CountedAlike(Pruned(before, last.now), Kept(requests[..n]), last.key, last.now);
    }
  }

  /** Dropping expired windows never changes a verdict. */
  lemma PruningChangesNothing(requests: seq<Request>, i: nat)
    requires NonDecreasing(requests) && i < |requests|
    ensures Verdict(requests, i) == KeptVerdict(requests, i)
  {
    AfterAlike(requests[..i], requests[i].now);
    PrunedAlike(After(requests[..i]), requests[i].now);
    var key, now := requests[i].key, requests[i].now;
    assert Current(Pruned(After(requests[..i]), now), key, now) == Current(After(requests[..i]), key, now);
  }

  // -- how many are let through ------------------------------------------------------------

  /** How many requests of `key` made at `since` or later are let through. */
  function Admitted(requests: seq<Request>, key: Key, since: nat): nat {
    if requests == [] then 0
    else
      var n := |requests| - 1;
      Admitted(requests[..n], key, since)
      + if requests[n].key == key && requests[n].now >= since && KeptVerdict(requests, n) then 1 else 0
  }

  /** What the window of `key` says about the requests let through. */
  ghost predicate Accounts(requests: seq<Request>, key: Key) {
    var windows := Kept(requests);
    if key in windows then
      var w := windows[key];
      && w.requests <= Limit(key.rateClass)
      && Admitted(requests, key, w.startedAt) == w.requests
      && Admitted(requests, key, w.startedAt + WINDOW_SECS) == 0
      && (requests != [] ==> w.startedAt <= requests[|requests| - 1].now)
      && forall since: nat :: since + WINDOW_SECS >= w.startedAt ==> Admitted(requests, key, since) <= Limit(key.rateClass) + w.requests
    else forall since: nat :: Admitted(requests, key, since) == 0
  }

  lemma {:induction false} AdmittedAntitone(requests: seq<Request>, key: Key, since: nat, later: nat)
    requires since <= later
    ensures Admitted(requests, key, later) <= Admitted(requests, key, since)
  {
    if requests != [] { AdmittedAntitone(requests[..|requests| - 1], key, since, later); }
  }

  lemma {:induction false} WindowAccounts(requests: seq<Request>, key: Key)
    requires NonDecreasing(requests)
    ensures Accounts(requests, key)
  {
    if requests != [] {
      var n := |requests| - 1;
      WindowAccounts(requests[..n], key);
      if requests[n].key == key {
        if key in Kept(requests[..n]) && requests[n].now - Kept(requests[..n])[key].startedAt < WINDOW_SECS {
          SameWindow(requests, key);
        } else {
          NewWindow(requests, key);
        }
      }
    }
  }

  lemma SameWindow(requests: seq<Request>, key: Key)
    requires NonDecreasing(requests) && requests != []
    requires var n := |requests| - 1;
             && requests[n].key == key && key in Kept(requests[..n]) && Accounts(requests[..n], key)
             && requests[n].now - Kept(requests[..n])[key].startedAt < WINDOW_SECS
    ensures Accounts(requests, key)
  {
    var n := |requests| - 1;
    var before := Kept(requests[..n])[key];
    assert before.startedAt <= requests[n].now;
  }

  /** A window opens a minute or more after the last one: what the minute before it lets
      through is counted in that last window alone. */
  lemma NewWindow(requests: seq<Request>, key: Key)
    requires NonDecreasing(requests) && requests != []
    requires var n := |requests| - 1;
             && requests[n].key == key && Accounts(requests[..n], key)
             && (key in Kept(requests[..n]) ==> requests[n].now - Kept(requests[..n])[key].startedAt >= WINDOW_SECS)
    ensures Accounts(requests, key)
  {
    var n := |requests| - 1;
    var before, now := requests[..n], requests[n].now;
    forall since: nat | since + WINDOW_SECS >= now ensures Admitted(before, key, since) <= Limit(key.rateClass) {
      if key in Kept(before) { AdmittedAntitone(before, key, Kept(before)[key].startedAt, since); }
    }
    if key in Kept(before) {
      AdmittedAntitone(before, key, Kept(before)[key].startedAt + WINDOW_SECS, now);
    }
    AdmittedAntitone(before, key, now, now + WINDOW_SECS);
  }

  /** How many requests of `key` are let through between two times. */
  function AdmittedWithin(requests: seq<Request>, key: Key, since: nat, until: nat): nat {
    if requests == [] then 0
    else
      var n := |requests| - 1;
      AdmittedWithin(requests[..n], key, since, until)
      + if requests[n].key == key && since <= requests[n].now <= until && Verdict(requests, n) then 1 else 0
  }

  lemma {:induction false} WithinIsAdmitted(requests: seq<Request>, key: Key, since: nat, until: nat)
    requires NonDecreasing(requests) && forall i :: 0 <= i < |requests| ==> requests[i].now <= until
    ensures AdmittedWithin(requests, key, since, until) == Admitted(requests, key, since)
  {
    if requests != [] {
      var n := |requests| - 1;
      WithinIsAdmitted(requests[..n], key, since, until);
      PruningChangesNothing(requests, n);
    }
  }

  /** In no stretch of sixty seconds are more than twice the limit let through. */
  lemma {:induction false} BurstBound(requests: seq<Request>, key: Key, since: nat)
    requires NonDecreasing(requests)
    ensures AdmittedWithin(requests, key, since, since + WINDOW_SECS) <= 2 * Limit(key.rateClass)
  {
    if requests != [] {
      var n := |requests| - 1;
      if requests[n].now > since + WINDOW_SECS {
        BurstBound(requests[..n], key, since);
      } else {
        WithinIsAdmitted(requests, key, since, since + WINDOW_SECS);
        WindowAccounts(requests, key);
      }
    }
  }

  /** The limits of the four classes. */
  lemma LimitExact(c: RateClass, n: nat)
    ensures Limit(c) == n <==> (c == SessionClass && n == 12) || (c == MutationClass && n == 120)
                               || (c == CredentialClass && n == 20) || (c == CapabilityClass && n == 300)
  {
  }

  /** The limit is given in full: a request is refused only when, in the sixty seconds that end with
      it, as many requests of its account and class as the limit allows have been let through. */
  lemma RefusedIsFull(requests: seq<Request>, i: nat)
    requires NonDecreasing(requests) && i < |requests| && !Verdict(requests, i)
    ensures var now, key := requests[i].now, requests[i].key;
            exists since: nat :: since <= now < since + 60 && AdmittedWithin(requests[..i], key, since, now) == Limit(key.rateClass)
  {
    var now, key := requests[i].now, requests[i].key;
    var before := requests[..i];
    PruningChangesNothing(requests, i);
    WindowAccounts(before, key);
    WithinIsAdmitted(before, key, Kept(before)[key].startedAt, now);
  }
}

/** A daemon's decision on a request, and the guard that remembers used grants until they
    expire. */
module Replay {
  import opened Text
  import opened Statements
  import opened State
  import opened Capability

  datatype Denied = BadCapability | UnknownResource | Replayed

  /** Where a hosted service listens. */
  type Target = string

  datatype Authorized = Authorized(claims: Claims, target: Target)

  /** The entries that are not expired at `now`. */
  function Prune(seen: map<Nonce, nat>, now: nat): map<Nonce, nat> {
    map n | n in seen && seen[n] > now :: seen[n]
  }

  function Admits(seen: map<Nonce, nat>, nonce: Nonce, now: nat): bool {
    nonce !in Prune(seen, now)
  }

  function AfterAdmit(seen: map<Nonce, nat>, nonce: Nonce, expiresAt: nat, now: nat): map<Nonce, nat> {
    if Admits(seen, nonce, now) then Prune(seen, now)[nonce := expiresAt] else Prune(seen, now)
  }

  class ReplayGuard {
    var seen: map<Nonce, nat>

    constructor ()
      ensures seen == map[]
    {
      seen := map[];
    }

    method Admit(nonce: Nonce, expiresAt: nat, now: nat) returns (admitted: bool)
      modifies this
      ensures admitted == Admits(old(seen), nonce, now)
      ensures seen == AfterAdmit(old(seen), nonce, expiresAt, now)
    {
      seen := map n | n in seen && seen[n] > now :: seen[n];
      if nonce in seen {
        return false;
      }
      seen := seen[nonce := expiresAt];
      return true;
    }
  }

  // -- authorize -------------------------------------------------------------------------

  function Decide(s: Signed, key: VerifyingKey, endpoint: KeyBytes, peer: KeyBytes,
                  targets: map<ResourceId, Target>, seen: map<Nonce, nat>, now: nat): Result<Authorized, Denied>
  {
    match VerifyFor(key, s, endpoint, peer, now)
    case Err(_) => Err(BadCapability)
    case Ok(claims) =>
      if claims.permission != TcpConnect then Err(BadCapability)
      else if claims.resource !in targets then Err(UnknownResource)
      else if !Admits(seen, claims.nonce, now) then Err(Replayed)
      else Ok(Authorized(claims, targets[claims.resource]))
  }

  /** The guard after a decision: untouched unless the request got as far as the guard. */
  function AfterDecision(s: Signed, key: VerifyingKey, endpoint: KeyBytes, peer: KeyBytes,
                         targets: map<ResourceId, Target>, seen: map<Nonce, nat>, now: nat): map<Nonce, nat>
  {
    match Decide(s, key, endpoint, peer, targets, seen, now)
    case Ok(a) => AfterAdmit(seen, a.claims.nonce, a.claims.expiresAt, now)
    case Err(Replayed) => Prune(seen, now)
    case Err(_) => seen
  }

  method Authorize(s: Signed, key: VerifyingKey, endpoint: KeyBytes, peer: KeyBytes,
                   targets: map<ResourceId, Target>, guard: ReplayGuard, now: nat)
    returns (r: Result<Authorized, Denied>)
    modifies guard
    ensures r == Decide(s, key, endpoint, peer, targets, old(guard.seen), now)
    ensures guard.seen == AfterDecision(s, key, endpoint, peer, targets, old(guard.seen), now)
    ensures r == Err(BadCapability) || r == Err(UnknownResource) ==> guard.seen == old(guard.seen)
  {
    var verified := VerifyFor(key, s, endpoint, peer, now);
    if verified.Err? { return Err(BadCapability); }
    var claims := verified.value;
    if claims.permission != TcpConnect { return Err(BadCapability); }
    if claims.resource !in targets { return Err(UnknownResource); }
    var target := targets[claims.resource];
    // Last, because using the nonce up is a side effect.
    var admitted := guard.Admit(claims.nonce, claims.expiresAt, now);
    if !admitted { return Err(Replayed); }
    return Ok(Authorized(claims, target));
  }

  /** A signed grant for this daemon and peer, in its time. */
  ghost predicate Presentable(s: Signed, key: VerifyingKey, endpoint: KeyBytes, peer: KeyBytes, now: nat) {
    && |s.signature| == 64 && key(s.payload, s.signature) && s.payload.Grant?
    && s.payload.claims.audience == endpoint && s.payload.claims.clientKey == peer
    && now <= s.payload.claims.expiresAt
    && s.payload.claims.issuedAt <= (if now + 30 <= MAX_U64 then now + 30 else MAX_U64)
  }

  ghost predicate Remembered(seen: map<Nonce, nat>, nonce: Nonce, now: nat) {
    nonce in seen && seen[nonce] > now
  }

  /** A request is accepted exactly when its grant is presentable, its resource is hosted and its
      nonce is not remembered; and each denial has its reason. */
  lemma DecideExact(s: Signed, key: VerifyingKey, endpoint: KeyBytes, peer: KeyBytes,
                    targets: map<ResourceId, Target>, seen: map<Nonce, nat>, now: nat)
    ensures var r, good := Decide(s, key, endpoint, peer, targets, seen, now), Presentable(s, key, endpoint, peer, now);
            && (r == Err(BadCapability) <==> !good)
            && (r == Err(UnknownResource) <==> good && s.payload.claims.resource !in targets)
            && (r == Err(Replayed) <==> good && s.payload.claims.resource in targets && Remembered(seen, s.payload.claims.nonce, now))
            && (r.Ok? <==> good && s.payload.claims.resource in targets && !Remembered(seen, s.payload.claims.nonce, now))
            && (r.Ok? ==> r.value == Authorized(s.payload.claims, targets[s.payload.claims.resource]))
  {
  }

  /** What the guard remembers afterwards: the entries that have not expired, and the nonce of an
      accepted request until its grant expires; a request denied before the guard changes nothing. */
  lemma AfterExact(s: Signed, key: VerifyingKey, endpoint: KeyBytes, peer: KeyBytes,
                   targets: map<ResourceId, Target>, seen: map<Nonce, nat>, now: nat, n: Nonce)
    ensures var r, after := Decide(s, key, endpoint, peer, targets, seen, now), AfterDecision(s, key, endpoint, peer, targets, seen, now);
            && (r == Err(BadCapability) || r == Err(UnknownResource) ==> after == seen)
            && (r.Ok? || r == Err(Replayed) ==>
                  (n in after <==> Remembered(seen, n, now) || (r.Ok? && n == s.payload.claims.nonce)))
            && (r.Ok? ==> after[s.payload.claims.nonce] == s.payload.claims.expiresAt)
            && (n in after && !(r.Ok? && n == s.payload.claims.nonce) ==> after[n] == seen[n])
  {
  }

  // -- runs of the guard -------------------------------------------------------------------

  datatype Call = Call(nonce: Nonce, expiresAt: nat, now: nat)

  /** What the guard remembers after some calls. */
  function SeenAfter(calls: seq<Call>): map<Nonce, nat> {
    if calls == [] then map[]
    else
      var n := |calls| - 1;
      AfterAdmit(SeenAfter(calls[..n]), calls[n].nonce, calls[n].expiresAt, calls[n].now)
  }

  lemma SeenSnoc(calls: seq<Call>, call: Call)
    ensures SeenAfter(calls + [call]) == AfterAdmit(SeenAfter(calls), call.nonce, call.expiresAt, call.now)
  {
    assert (calls + [call])[..|calls|] == calls;
  }

  predicate Verdict(calls: seq<Call>, i: nat)
    requires i < |calls|
  {
    Admits(SeenAfter(calls[..i]), calls[i].nonce, calls[i].now)
  }

  /** The call `j` was admitted, and its expiry lies above every reading of the calls after it,
      up to but not including `n`. */
  ghost predicate Outlives(calls: seq<Call>, j: int, n: nat, nonce: Nonce)
    requires n <= |calls|
  {
    && 0 <= j < n && Verdict(calls, j) && calls[j].nonce == nonce
    && forall k :: j < k < n ==> calls[j].expiresAt > calls[k].now
  }

  lemma OutlivesNext(calls: seq<Call>, j: int, n: nat, nonce: Nonce)
    requires n < |calls|
    ensures Outlives(calls, j, n + 1, nonce) <==>
              if j == n then Verdict(calls, n) && calls[n].nonce == nonce
              else Outlives(calls, j, n, nonce) && calls[j].expiresAt > calls[n].now
  {
  }

  lemma SeenNext(calls: seq<Call>, n: nat)
    requires n < |calls|
    ensures SeenAfter(calls[..n + 1]) == AfterAdmit(SeenAfter(calls[..n]), calls[n].nonce, calls[n].expiresAt, calls[n].now)
  {
    assert calls[..n + 1] == calls[..n] + [calls[n]];
    SeenSnoc(calls[..n], calls[n]);
  }

  /** The nonce of an admitted call that every reading since has spared is remembered, with that
      call's expiry. */
  lemma {:induction false} OutlivesSeen(calls: seq<Call>, j: int, n: nat, nonce: Nonce)
    requires n <= |calls| && Outlives(calls, j, n, nonce)
    ensures nonce in SeenAfter(calls[..n]) && SeenAfter(calls[..n])[nonce] == calls[j].expiresAt
    decreases n
  {
    SeenNext(calls, n - 1);
    OutlivesNext(calls, j, n - 1, nonce);
    if j < n - 1 { OutlivesSeen(calls, j, n - 1, nonce); }
  }

  /** Nothing else is remembered. */
  lemma {:induction false} SeenOutlives(calls: seq<Call>, n: nat, nonce: Nonce) returns (j: int)
    requires n <= |calls| && nonce in SeenAfter(calls[..n])
    ensures Outlives(calls, j, n, nonce)
    decreases n
  {
    assert n > 0;
    SeenNext(calls, n - 1);
    if nonce == calls[n - 1].nonce && Verdict(calls, n - 1) {
      j := n - 1;
    } else {
      j := SeenOutlives(calls, n - 1, nonce);
      OutlivesSeen(calls, j, n - 1, nonce);
    }
    OutlivesNext(calls, j, n - 1, nonce);
  }

  /** In whatever order the clock was read: the guard refuses a call exactly when an earlier
      admitted call of its nonce has an expiry above every reading made after it, up to and
      including the call's own. */
  lemma VerdictExact(calls: seq<Call>, i: nat)
    requires i < |calls|
    ensures Verdict(calls, i) <==>
            !exists j :: 0 <= j < i && Verdict(calls, j) && calls[j].nonce == calls[i].nonce
                         && forall k :: j < k <= i ==> calls[j].expiresAt > calls[k].now
  {
    var nonce := calls[i].nonce;
    if !Verdict(calls, i) {
      var j := SeenOutlives(calls, i, nonce);
      OutlivesSeen(calls, j, i, nonce);
      assert forall k :: j < k <= i ==> calls[j].expiresAt > calls[k].now;
    }
    if j :| 0 <= j < i && Verdict(calls, j) && calls[j].nonce == nonce
            && forall k :: j < k <= i ==> calls[j].expiresAt > calls[k].now
    {
      assert Outlives(calls, j, i, nonce);
      OutlivesSeen(calls, j, i, nonce);
    }
  }

  ghost predicate OneExpiry(calls: seq<Call>) {
    forall i, j :: 0 <= i < |calls| && 0 <= j < |calls| && calls[i].nonce == calls[j].nonce
                   ==> calls[i].expiresAt == calls[j].expiresAt
  }

  /** The verdict of a guard that never forgets. */
  predicate FirstUse(calls: seq<Call>, i: nat)
    requires i < |calls|
  {
    forall j :: 0 <= j < i ==> calls[j].nonce != calls[i].nonce
  }

  /** The first call of a nonce is always admitted. */
  lemma {:induction false} FirstAdmitted(calls: seq<Call>, i: nat) returns (first: nat)
    requires i < |calls|
    ensures first <= i && calls[first].nonce == calls[i].nonce
    ensures FirstUse(calls, first) && Verdict(calls, first)
    decreases i
  {
    if j :| 0 <= j < i && calls[j].nonce == calls[i].nonce {
      first := FirstAdmitted(calls, j);
    } else {
      first := i;
      VerdictExact(calls, i);
    }
  }

  /** Forgetting is safe: as long as no reading has come to the expiry of its nonce, a call has
      the verdict of a guard that never forgets, whatever the order of the readings. */
  lemma RefinesBeforeExpiry(calls: seq<Call>, i: nat)
    requires OneExpiry(calls) && i < |calls|
    requires forall k :: 0 <= k <= i ==> calls[k].now < calls[i].expiresAt
    ensures Verdict(calls, i) == FirstUse(calls, i)
  {
    VerdictExact(calls, i);
    var first := FirstAdmitted(calls, i);
  }

  /** Two admissions of one nonce have a reading between them at or after its expiry. */
  lemma AdmittedOnce(calls: seq<Call>, i: nat, j: nat) returns (k: nat)
    requires OneExpiry(calls) && i < j < |calls| && calls[i].nonce == calls[j].nonce
    requires Verdict(calls, i) && Verdict(calls, j)
    ensures i < k <= j && calls[k].now >= calls[j].expiresAt
  {
    VerdictExact(calls, j);
    k :| i < k <= j && calls[k].now >= calls[j].expiresAt;
  }

  /** No call up to `i` was made with a later reading than `i` itself. */
  predicate NotOvertaken(calls: seq<Call>, i: nat)
    requires i < |calls|
  {
    forall k :: 0 <= k < i ==> calls[k].now <= calls[i].now
  }

  /** In any order, the guard agrees with one that never forgets exactly on first uses and on
      repeats of an admitted call with no reading since at or after the expiry. A call that no
      later reading has overtaken is admitted exactly when it is a first use or comes at or after
      its expiry. */
  lemma PruningRefines(calls: seq<Call>, i: nat)
    requires OneExpiry(calls) && i < |calls|
    ensures Verdict(calls, i) == FirstUse(calls, i) <==>
              || FirstUse(calls, i)
              || exists j :: 0 <= j < i && Verdict(calls, j) && calls[j].nonce == calls[i].nonce
                             && forall k :: j < k <= i ==> calls[k].now < calls[i].expiresAt
    ensures NotOvertaken(calls, i) ==> (Verdict(calls, i) <==> FirstUse(calls, i) || calls[i].now >= calls[i].expiresAt)
  {
    VerdictExact(calls, i);
    var first := FirstAdmitted(calls, i);
    if NotOvertaken(calls, i) && first < i && calls[i].now < calls[i].expiresAt {
      assert forall k :: first < k <= i ==> calls[first].expiresAt > calls[k].now;
    }
  }

  /** The last second. After a grant has been accepted, and whatever the guard held before, the
      same request at the same time or later is accepted again exactly in the second of the
      grant's expiry: it still verifies then, and the guard has dropped it. */
  lemma LastSecondIsAdmittedAgain(s: Signed, key: VerifyingKey, endpoint: KeyBytes, peer: KeyBytes,
                                  targets: map<ResourceId, Target>, seen: map<Nonce, nat>, first: nat, second: nat)
    requires Decide(s, key, endpoint, peer, targets, seen, first).Ok? && first <= second
    ensures s.payload.Grant?
    ensures var after := AfterDecision(s, key, endpoint, peer, targets, seen, first);
            Decide(s, key, endpoint, peer, targets, after, second).Ok? <==> second == s.payload.claims.expiresAt
  {
    var claims := s.payload.claims;
    var after := AfterDecision(s, key, endpoint, peer, targets, seen, first);
    assert after[claims.nonce] == claims.expiresAt;
    assert VerifyFor(key, s, endpoint, peer, second).Ok? <==> second <= claims.expiresAt;
  }
}

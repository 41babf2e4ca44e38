/** Endpoint ids as keys. The unique index is on the text of an id, while a key has many texts:
    exactly when the credentials of a run are bound to pairwise distinct keys. */
module EndpointKeys {
  import opened Text
  import opened State
  import opened Endpoints
  import opened ControlPlane
  import opened Reachable
  import Machines

  ghost predicate BoundTo(t: Tables, id: CredentialId, endpoint: string) {
    id in t.credentials && t.credentials[id].endpoint == Some(endpoint)
  }

  /** No two credentials are bound to one key. */
  ghost predicate KeysDistinct(t: Tables) {
    forall a, b, x, y :: BoundTo(t, a, x) && BoundTo(t, b, y) && ParseEndpoint(x) == ParseEndpoint(y) ==> a == b
  }

  /** What a caller can check before enrolling: no bound id is this text in other letter case or
      with other whitespace around it. */
  ghost predicate NoneAlike(t: Tables, endpoint: string) {
    forall id, x :: BoundTo(t, id, x) ==> Lower(Trim(x)) != Lower(Trim(endpoint))
  }

  ghost predicate AllParse(t: Tables) {
    forall id, x :: BoundTo(t, id, x) ==> ParseEndpoint(x).Some?
  }

  // -- one step -----------------------------------------------------------------------------------

  /** A step that binds an endpoint. */
  ghost predicate BindsNow(t: Tables, e: Event) {
    e.Enrol? && e.enrol.Enrolling?
    && CanEnroll(t, e.enrol.credential, e.enrol.account, e.enrol.hash, e.enrol.endpoint)
  }

  /** Binding adds one bound id and leaves the others. */
  lemma BoundAfter(t: Tables, m: MachineEvent, id: CredentialId, x: string)
    requires BindsNow(t, Enrol(m))
    ensures BoundTo(MachineAfter(t, m), id, x) <==> if id == m.credential then x == m.endpoint else BoundTo(t, id, x)
    ensures !BoundTo(t, m.credential, x)
  {
  }

  /** An enrolment that binds keeps the keys distinct exactly when no bound id is alike. */
  lemma BindingExact(t: Tables, m: MachineEvent)
    requires BindsNow(t, Enrol(m)) && KeysDistinct(t) && AllParse(t) && ParseEndpoint(m.endpoint).Some?
    ensures KeysDistinct(MachineAfter(t, m)) <==> NoneAlike(t, m.endpoint)
  {
    var u := MachineAfter(t, m);
    forall id, x ensures BoundTo(u, id, x) <==> if id == m.credential then x == m.endpoint else BoundTo(t, id, x) {
      BoundAfter(t, m, id, x);
    }
    if KeysDistinct(u) {
      forall id, x | BoundTo(t, id, x) ensures Lower(Trim(x)) != Lower(Trim(m.endpoint)) {
        BoundAfter(t, m, id, x);
        SameKeyExact(x, m.endpoint);
        assert BoundTo(u, id, x) && BoundTo(u, m.credential, m.endpoint);
      }
    }
    if NoneAlike(t, m.endpoint) {
      forall a, b, x, y | BoundTo(u, a, x) && BoundTo(u, b, y) && ParseEndpoint(x) == ParseEndpoint(y) ensures a == b {
        SameKeyExact(x, y);
      }
    }
  }

  /** No other step binds anything. */
  lemma OthersBindNothing(t: Tables, e: Event, id: CredentialId, x: string)
    requires !BindsNow(t, e) && BoundTo(TablesAfter(t, e), id, x)
    ensures BoundTo(t, id, x)
  {
    match e {
      case Share(s) => ShareFrame(t, s);
      case Tunnel(u) => TunnelFrame(t, u);
      case Enrol(m) => CredentialsFrame(t, m, id);
      case Quiet(_) =>
    }
  }

  lemma OthersKeepKeys(t: Tables, e: Event)
    requires !BindsNow(t, e) && KeysDistinct(t)
    ensures KeysDistinct(TablesAfter(t, e))
  {
    var u := TablesAfter(t, e);
    forall a, b, x, y | BoundTo(u, a, x) && BoundTo(u, b, y) && ParseEndpoint(x) == ParseEndpoint(y) ensures a == b {
      OthersBindNothing(t, e, a, x);
      OthersBindNothing(t, e, b, y);
    }
  }

  // -- runs ------------------------------------------------------------------------------------------

  lemma BoundParse(c: Config, ws: seq<World>, es: seq<Event>, i: nat)
    requires IsRun(c, ws, es) && i < |ws|
    ensures AllParse(ws[i].t)
  {
    Machines.RunCredentialsProved(c, ws, es, i);
    forall id, x | BoundTo(ws[i].t, id, x) ensures ParseEndpoint(x).Some? {
      assert Machines.Proved(ws[i], ws[i].t.credentials[id].endpoint.value);
    }
  }

  /** In every run, an enrolment that binds keeps the keys of bound credentials distinct exactly
      when no bound id is the presented text up to case and surrounding whitespace. */
  lemma EnrolmentKeepsKeys(c: Config, ws: seq<World>, es: seq<Event>, i: nat)
    requires IsRun(c, ws, es) && i < |es| && BindsNow(ws[i].t, es[i]) && KeysDistinct(ws[i].t)
    ensures KeysDistinct(ws[i + 1].t) <==> NoneAlike(ws[i].t, es[i].enrol.endpoint)
  {
    BoundParse(c, ws, es, i);
    assert StepsAt(c, ws, es, i);
    BindingExact(ws[i].t, es[i].enrol);
  }

  ghost predicate BindsUnlike(w: World, e: Event) {
    BindsNow(w.t, e) ==> NoneAlike(w.t, e.enrol.endpoint)
  }

  /** Over whole runs: the keys are distinct in every state up to `n` exactly when every binding
      before it was of a text unlike all bound ones. */
  lemma {:induction false} KeysDistinctExactly(c: Config, ws: seq<World>, es: seq<Event>, n: nat)
    requires IsRun(c, ws, es) && n < |ws|
    ensures (forall j :: 0 <= j <= n ==> KeysDistinct(ws[j].t)) <==> (forall i :: 0 <= i < n ==> BindsUnlike(ws[i], es[i]))
  {
    if n > 0 {
      KeysDistinctExactly(c, ws, es, n - 1);
      if KeysDistinct(ws[n - 1].t) { StepKeysExact(c, ws, es, n - 1); }
    }
  }

  lemma StepKeysExact(c: Config, ws: seq<World>, es: seq<Event>, i: nat)
    requires IsRun(c, ws, es) && i < |es| && KeysDistinct(ws[i].t)
    ensures KeysDistinct(ws[i + 1].t) <==> BindsUnlike(ws[i], es[i])
  {
    if BindsNow(ws[i].t, es[i]) {
      EnrolmentKeepsKeys(c, ws, es, i);
    } else {
      assert StepsAt(c, ws, es, i);
      OthersKeepKeys(ws[i].t, es[i]);
    }
  }
}

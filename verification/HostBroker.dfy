/**
 The plugin side of the host connection: one broker, the stream id the host assigned, and a cached
 client.  A dial succeeds or fails as the environment decides; every method holds the mutex.
 */
module HostBroker {
  import opened Lists
  import opened Wrappers

  /** A dialed connection: where it leads, and which successful dial made it. */
  datatype Client = Client(broker: nat, stream: nat, dial: nat)

  /** pluginHostState, and how many dials have succeeded so far in the process. */
  datatype State = State(broker: Option<nat>, brokerID: nat, client: Option<Client>, dials: nat)

  const INITIAL := State(None, 0, None, 0)

  // ---------- the steps ----------

  function Dialed(s: State, reachable: bool): State {
    if s.client.Some? || s.broker.None? || s.brokerID == 0 || !reachable then s
    else s.(client := Some(Client(s.broker.value, s.brokerID, s.dials)), dials := s.dials + 1)
  }

  datatype Event =
    | SetBroker(broker: Option<nat>)
    | SetBrokerID(id: nat, reachable: bool)
    | Host(reachable: bool)

  function Step(s: State, e: Event): State {
    match e
    case SetBroker(b) => s.(broker := b, brokerID := 0, client := None)
    case SetBrokerID(id, reachable) => Dialed(s.(brokerID := id, client := None), reachable)
    case Host(reachable) => Dialed(s, reachable)
  }

  class HostState {
    var broker: Option<nat>
    var brokerID: nat
    var client: Option<Client>
    var dials: nat

    ghost function Value(): State
      reads this
    {
      State(broker, brokerID, client, dials)
    }

    constructor ()
      ensures Value() == INITIAL
    {
      broker, brokerID, client, dials := None, 0, None, 0;
    }

    method BindBroker(b: Option<nat>)
      modifies this
      ensures Value() == Step(old(Value()), SetBroker(b))
    {
      broker := b;
      brokerID := 0;
      client := None;
    }

    method BindStream(id: nat, reachable: bool)
      modifies this
      ensures Value() == Step(old(Value()), SetBrokerID(id, reachable))
    {
      brokerID := id;
      client := None;
      DialLocked(reachable);
    }

    method DialLocked(reachable: bool)
      modifies this
      ensures Value() == Dialed(old(Value()), reachable)
    {
      if client.Some? || broker.None? || brokerID == 0 {
        return;
      }
      if !reachable {
        return;
      }
      client := Some(Client(broker.value, brokerID, dials));
      dials := dials + 1;
    }

    method Get(reachable: bool) returns (r: Option<Client>)
      modifies this
      ensures Value() == Step(old(Value()), Host(reachable)) && r == client
    {
      DialLocked(reachable);
      r := client;
    }
  }

  // ---------- histories ----------

  /** The state after a history, latest event last. */
  function After(h: seq<Event>): State {
    if h == [] then INITIAL else Step(After(h[..|h| - 1]), h[|h| - 1])
  }

  predicate SetsBroker(e: Event) { e.SetBroker? }

  /** The event drops the cached client: a new broker or a new stream. */
  predicate Rebinds(e: Event) { e.SetBroker? || e.SetBrokerID? }

  /** The event tries to dial, if it has to, and could reach the host. */
  predicate Attempts(e: Event) { (e.SetBrokerID? || e.Host?) && e.reachable }

  /** The broker a history leaves in place, and the stream bound to it; 0 when no bind came after
      the broker. */
  function BrokerOf(h: seq<Event>): Option<nat> {
    var b := LastIndex(h, SetsBroker);
    if b < 0 then None else h[b].broker
  }

  function StreamOf(h: seq<Event>): nat {
    var k := LastIndex(h, Rebinds);
    if k < 0 || h[k].SetBroker? then 0 else h[k].id
  }

  /** Some attempt since the last rebind could reach the host. */
  predicate AttemptedSinceRebind(h: seq<Event>) {
    exists j | 0 <= j < |h| :: LastIndex(h, Rebinds) <= j && Attempts(h[j])
  }

  /** The fields hold what the history last set, and there is a client exactly when the history set
      a broker, then bound a stream, and some attempt since that bind could reach the host. */
  ghost predicate Explained(s: State, h: seq<Event>) {
    && s.broker == BrokerOf(h) && s.brokerID == StreamOf(h)
    && (s.client.Some? <==> BrokerOf(h).Some? && StreamOf(h) != 0 && AttemptedSinceRebind(h))
    && (s.client.Some? ==> Some(s.client.value.broker) == s.broker && s.client.value.stream == s.brokerID)
  }

  lemma HostAfter(h: seq<Event>, e: Event)
    ensures e.Host? ==> BrokerOf(h + [e]) == BrokerOf(h) && StreamOf(h + [e]) == StreamOf(h)
    ensures e.Host? ==> LastIndex(h + [e], Rebinds) == LastIndex(h, Rebinds)
    ensures e.SetBrokerID? ==> BrokerOf(h + [e]) == BrokerOf(h) && StreamOf(h + [e]) == e.id
    ensures e.SetBroker? ==> BrokerOf(h + [e]) == e.broker && StreamOf(h + [e]) == 0
    ensures Rebinds(e) ==> LastIndex(h + [e], Rebinds) == |h|
  {
    LastIndexSnoc(h, e, SetsBroker);
    LastIndexSnoc(h, e, Rebinds);
  }

  lemma AttemptAfter(h: seq<Event>, e: Event)
    ensures AttemptedSinceRebind(h + [e]) <==> Attempts(e) || (!Rebinds(e) && AttemptedSinceRebind(h))
  {
    var g := h + [e];
    HostAfter(h, e);
    assert g[|h|] == e && forall j | 0 <= j < |h| :: g[j] == h[j];
  }

  lemma StepExplained(s: State, h: seq<Event>, e: Event)
    requires Explained(s, h)
    ensures Explained(Step(s, e), h + [e])
  {
    HostAfter(h, e);
    AttemptAfter(h, e);
  }

  /** After every history the cached client leads to the current broker and stream, and whether
      there is one follows from the history: a bind made before the broker was set never counts. */
  lemma {:induction false} HistoryExplains(h: seq<Event>)
    ensures Explained(After(h), h)
  {
    if h != [] {
      var front, last := h[..|h| - 1], h[|h| - 1];
      HistoryExplains(front);
      StepExplained(After(front), front, last);
      assert h == front + [last];
    }
  }

  lemma AfterMore(h: seq<Event>, e: Event)
    ensures After(h + [e]) == Step(After(h), e)
  {
    assert (h + [e])[..|h|] == h;
  }

  /** Once a dial has succeeded, every later Host returns that same client until the next rebind,
      however many calls come and however late or unreachable the host then is. */
  lemma {:induction false} ClientIsKept(h: seq<Event>, later: seq<Event>)
    requires After(h).client.Some? && forall i | 0 <= i < |later| :: later[i].Host?
    ensures After(h + later) == After(h)
  {
    if later == [] {
      assert h + later == h;
    } else {
      var front, last := later[..|later| - 1], later[|later| - 1];
      ClientIsKept(h, front);
      assert h + later == (h + front) + [last];
      AfterMore(h + front, last);
    }
  }

  /** The host's listener takes a single connection: from one rebind to the next, at most one dial
      succeeds, and it has exactly when there is a client. */
  lemma {:induction false} OneDialPerBind(h: seq<Event>, e: Event, later: seq<Event>)
    requires Rebinds(e) && forall i | 0 <= i < |later| :: later[i].Host?
    ensures var t := After(h + [e] + later);
            t.dials == After(h).dials + if t.client.Some? then 1 else 0
  {
    if later == [] {
      assert h + [e] + later == h + [e];
      AfterMore(h, e);
    } else {
      var front, last := later[..|later| - 1], later[|later| - 1];
      OneDialPerBind(h, e, front);
      assert h + [e] + later == (h + [e] + front) + [last];
      AfterMore(h + [e] + front, last);
    }
  }

  /** Clients of different dials are told apart, so keeping the client is keeping the connection. */
  lemma {:induction false} ClientComesFromItsDial(h: seq<Event>)
    ensures After(h).client.Some? ==> After(h).client.value.dial + 1 == After(h).dials
  {
    if h != [] {
      ClientComesFromItsDial(h[..|h| - 1]);
    }
  }
}

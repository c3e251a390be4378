/**
 The network-access stub: an in-memory connection whose intent survives restarts through a
 key-value store on the host.  Every host call may fail, and the host may be unbound; what a call
 meets is an Env.  The provider's mutex makes each RPC one step.
 */
module NetworkIntent {
  import opened Wrappers

  datatype HostInfo = HostInfo(token: string)

  /** How a write of the intent ends; an error may reach the caller before or after the host stored it. */
  datatype Write = Stored | Lost | StoredUnacknowledged

  /** What one RPC meets.  Host() is asked twice, once to restore and once for the call itself. */
  datatype Env = Env(boundAtRestore: bool, readable: bool, infoAtRestore: Option<HostInfo>,
                     boundAtCall: bool, infoAtCall: Option<HostInfo>, write: Write)

  datatype Status = Status(connected: bool, desired: bool, hostInfo: Option<HostInfo>)

  datatype CallError = HostInfoFailed | PersistFailed

  /** The provider's fields, and the value stored on the host under desired_connected. */
  datatype State = State(connected: bool, desired: bool, restored: bool, hostInfo: Option<HostInfo>,
                         stored: Option<string>)

  /** The intent a stored value stands for; an absent or foreign value means disconnected. */
  predicate Intent(stored: Option<string>) { stored == Some("1") }

  function Encode(desired: bool): string { if desired then "1" else "0" }

  function StatusOf(s: State): Status { Status(s.connected, s.desired, if s.connected then s.hostInfo else None) }

  // ---------- one RPC, as a step ----------

  function Restored(s: State, env: Env): State {
    if s.restored || !env.boundAtRestore || !env.readable then s
    else if Intent(s.stored) then
      s.(restored := true, connected := true, desired := true,
         hostInfo := if env.infoAtRestore.Some? then env.infoAtRestore else s.hostInfo)
    else s.(restored := true)
  }

  /** Setting the intent in memory, then on the host if it is bound. */
  function Intended(s: State, desired: bool, env: Env): (State, Result<Status, CallError>) {
    var t := s.(connected := desired, desired := desired);
    if !env.boundAtCall then (t, Success(StatusOf(t)))
    else if env.write.Lost? then (t, Failure(PersistFailed))
    else
      var u := t.(stored := Some(Encode(desired)));
      (u, if env.write.Stored? then Success(StatusOf(u)) else Failure(PersistFailed))
  }

  function ConnectStep(s: State, env: Env): (State, Result<Status, CallError>) {
    var t := Restored(s, env);
    if !env.boundAtCall then Intended(t, true, env)
    else if env.infoAtCall.None? then (t, Failure(HostInfoFailed))
    else Intended(t.(hostInfo := env.infoAtCall), true, env)
  }

  function DisconnectStep(s: State, env: Env): (State, Result<Status, CallError>) {
    Intended(Restored(s, env), false, env)
  }

  // ---------- the provider ----------

  /** The host's instance state. */
  class Store {
    var value: Option<string>

    method Read(readable: bool) returns (r: Option<Option<string>>)
      ensures r == if readable then Some(value) else None
    {
      r := if readable then Some(value) else None;
    }

    method Put(v: string, write: Write) returns (ok: bool)
      modifies this
      ensures value == if write.Lost? then old(value) else Some(v)
      ensures ok <==> write.Stored?
    {
      if !write.Lost? {
        value := Some(v);
      }
      ok := write.Stored?;
    }
  }

  class Provider {
    var connected: bool
    var desired: bool
    var restored: bool
    var hostInfo: Option<HostInfo>
    const store: Store

    ghost function Value(): State
      reads this, store
    {
      State(connected, desired, restored, hostInfo, store.value)
    }

    /** A fresh process over the host's store. */
    constructor (store: Store)
      ensures this.store == store && Value() == State(false, false, false, None, store.value)
    {
      this.store := store;
      connected, desired, restored, hostInfo := false, false, false, None;
    }

    method RestoreLocked(env: Env)
      modifies this
      ensures Value() == Restored(old(Value()), env)
    {
      if restored {
        return;
      }
      if !env.boundAtRestore {
        return;
      }
      var value := store.Read(env.readable);
      if value.None? {
        return;
      }
      restored := true;
      if value.value == Some("1") {
        desired := true;
        connected := true;
        if env.infoAtRestore.Some? {
          hostInfo := env.infoAtRestore;
        }
      }
    }

    method PersistLocked(env: Env) returns (ok: bool)
      modifies store
      ensures store.value == if env.boundAtCall && !env.write.Lost? then Some(Encode(desired)) else old(store.value)
      ensures ok <==> !env.boundAtCall || env.write.Stored?
    {
      if !env.boundAtCall {
        return true;
      }
      var value := "0";
      if desired {
        value := "1";
      }
      ok := store.Put(value, env.write);
    }

    method Connect(env: Env) returns (r: Result<Status, CallError>)
      modifies this, store
      ensures (Value(), r) == ConnectStep(old(Value()), env)
    {
      RestoreLocked(env);
      if env.boundAtCall {
        if env.infoAtCall.None? {
          return Failure(HostInfoFailed);
        }
        hostInfo := env.infoAtCall;
      }
      connected := true;
      desired := true;
      var ok := PersistLocked(env);
      if !ok {
        return Failure(PersistFailed);
      }
      return Success(Status(connected, desired, if connected then hostInfo else None));
    }

    method Disconnect(env: Env) returns (r: Result<Status, CallError>)
      modifies this, store
      ensures (Value(), r) == DisconnectStep(old(Value()), env)
    {
      RestoreLocked(env);
      connected := false;
      desired := false;
      var ok := PersistLocked(env);
      if !ok {
        return Failure(PersistFailed);
      }
      return Success(Status(connected, desired, if connected then hostInfo else None));
    }

    method GetStatus(env: Env) returns (r: Status)
      modifies this
      ensures Value() == Restored(old(Value()), env) && r == StatusOf(Value())
    {
      RestoreLocked(env);
      r := Status(connected, desired, if connected then hostInfo else None);
    }
  }

  // ---------- runs ----------

  datatype Event = Connect(env: Env) | Disconnect(env: Env) | GetStatus(env: Env) | Restart

  function Start(stored: Option<string>): State { State(false, false, false, None, stored) }

  function Step(s: State, e: Event): State {
    match e
    case Connect(env) => ConnectStep(s, env).0
    case Disconnect(env) => DisconnectStep(s, env).0
    case GetStatus(env) => Restored(s, env)
    case Restart => Start(s.stored)
  }

  function Run(s: State, events: seq<Event>): State
    decreases |events|
  {
    if events == [] then s else Run(Step(s, events[0]), events[1..])
  }

  /** In every reachable state the connection is what the intent says it should be. */
  lemma {:induction false} ConnectedIsDesired(s: State, events: seq<Event>)
    requires s.connected == s.desired
    ensures Run(s, events).connected == Run(s, events).desired
    decreases |events|
  {
    if events != [] {
      ConnectedIsDesired(Step(s, events[0]), events[1..]);
    }
  }

  /** The call that sets the intent to b. */
  function Setting(b: bool, env: Env): Event { if b then Connect(env) else Disconnect(env) }

  predicate Succeeds(s: State, b: bool, env: Env) {
    (if b then ConnectStep(s, env) else DisconnectStep(s, env)).1.Success?
  }

  /** The run only asks for the status and restarts. */
  predicate SetsNothing(events: seq<Event>) {
    forall i | 0 <= i < |events| :: events[i].GetStatus? || events[i].Restart?
  }

  /** Between calls that set the intent, it is what it was, unless the process restarts, after
      which only a successful read of a stored connect raises it; a first read may raise it late. */
  lemma {:induction false} QuietRun(s: State, events: seq<Event>)
    requires SetsNothing(events)
    ensures Run(s, events).stored == s.stored
    ensures var t, raised := Run(s, events), Run(s, events).restored && Intent(s.stored);
            t.desired == if Restart in events then raised else s.desired || (raised && !s.restored)
    ensures Restart !in events && s.restored ==> Run(s, events).restored
    decreases |events|
  {
    if events != [] {
      QuietRun(Step(s, events[0]), events[1..]);
      assert Restart in events <==> events[0] == Restart || Restart in events[1..];
    }
  }

  /** Acknowledged intent is durable.  From any state, reached by any history, once Connect or
      Disconnect succeeds with the host bound, then through any later status calls and restarts the
      process shows that intent, except between a restart and its first successful read: a late
      restore never overturns it, and a fresh process takes it over. */
  lemma AcknowledgedIntentIsDurable(s: State, b: bool, env: Env, later: seq<Event>)
    requires Succeeds(s, b, env) && env.boundAtCall && SetsNothing(later)
    ensures var t := Run(Step(s, Setting(b, env)), later);
            t.desired == (b && (t.restored || Restart !in later))
  {
    QuietRun(Step(s, Setting(b, env)), later);
  }

  /** The same in terms of what GetStatus then answers: connected and desired agree, and are b unless
      the process has restarted and not yet read the store. */
  lemma AcknowledgedIntentIsShown(s: State, b: bool, env: Env, later: seq<Event>, ask: Env)
    requires Succeeds(s, b, env) && env.boundAtCall && SetsNothing(later)
    ensures var t := Run(Step(s, Setting(b, env)), later + [GetStatus(ask)]);
            && StatusOf(t).connected == StatusOf(t).desired == (b && (t.restored || Restart !in later))
            && (StatusOf(t).hostInfo.Some? ==> StatusOf(t).connected)
  {
    var asked := later + [GetStatus(ask)];
    assert Restart in asked <==> Restart in later;
    AcknowledgedIntentIsDurable(s, b, env, asked);
    ConnectedIsDesired(Step(s, Setting(b, env)), asked);
  }

  /** What a call does to intent, store and answer, for every way the host can fail.  A Connect that a
      bound host gives no info changes no more than a status call would; any other call sets the intent
      in memory, also when it reports that storing it failed; and only a bound host that did not lose
      the write holds the new intent, "1" for connected and "0" for disconnected. */
  lemma CallOutcome(s: State, b: bool, env: Env)
    ensures var t := Step(s, Setting(b, env));
            if b && env.boundAtCall && env.infoAtCall.None? then t == Step(s, GetStatus(env)) && !Succeeds(s, b, env)
            else
              && t.connected == t.desired == b
              && t.stored == (if !env.boundAtCall || env.write == Lost then s.stored
                              else if b then Some("1") else Some("0"))
              && (Succeeds(s, b, env) <==> !env.boundAtCall || env.write == Stored)
  {
  }

  /** A successful call answers with the intent it set.  Connected to a bound host it shows the info the
      host gave for this very call, and disconnected none. */
  lemma CallAnswers(s: State, b: bool, env: Env)
    requires Succeeds(s, b, env)
    ensures var status := (if b then ConnectStep(s, env) else DisconnectStep(s, env)).1.value;
            && status.connected == status.desired == b
            && status.hostInfo == (if !b then None else if env.boundAtCall then env.infoAtCall
                                   else Step(s, GetStatus(env)).hostInfo)
            && status == StatusOf(Step(s, Setting(b, env)))
  {
  }

  /** And once the store has been read, every later status of the same process shows that info. */
  lemma {:induction false} InfoIsKept(s: State, later: seq<Event>)
    requires s.restored && SetsNothing(later) && Restart !in later
    ensures StatusOf(Run(s, later)) == StatusOf(s)
    decreases |later|
  {
    if later != [] {
      assert later[0].GetStatus? && Step(s, later[0]) == s;
      InfoIsKept(s, later[1..]);
    }
  }

  /** The restore itself: it needs a bound host and a readable store, happens once, and raises the
      intent, with the host's info if there is any, exactly when the store says "1". */
  lemma RestoreOutcome(s: State, env: Env)
    ensures var t, now := Step(s, GetStatus(env)), !s.restored && env.boundAtRestore && env.readable;
            && t.restored == (s.restored || now) && t.stored == s.stored
            && (now && s.stored == Some("1") ==>
                  t.connected && t.desired && t.hostInfo == (if env.infoAtRestore.Some? then env.infoAtRestore
                                                             else s.hostInfo))
            && (!now || s.stored != Some("1") ==> t == s.(restored := t.restored))
  {
  }

  /** A call acknowledged while the host was not bound has stored nothing, so durability is exact:
      a process that restarted and has read the store shows the acknowledged intent if and only if
      the host was bound at the call or its store said so already. */
  lemma SurvivesRestart(s: State, b: bool, env: Env, later: seq<Event>)
    requires Succeeds(s, b, env) && SetsNothing(later) && Restart in later
    requires Run(Step(s, Setting(b, env)), later).restored
    ensures Run(Step(s, Setting(b, env)), later).desired == b <==> env.boundAtCall || Intent(s.stored) == b
  {
    QuietRun(Step(s, Setting(b, env)), later);
  }

  /** The case does arise: Connect is acknowledged while the host is unbound over an empty store, the
      process restarts, the store is read, and the stub shows itself disconnected. */
  lemma UnboundConnectIsForgotten(info: HostInfo)
    ensures var unbound := Env(false, true, None, false, None, Stored);
            var readable := Env(true, true, Some(info), true, Some(info), Stored);
            var t := Run(Start(None), [Connect(unbound), Restart, GetStatus(readable)]);
            && Succeeds(Start(None), true, unbound) && ConnectStep(Start(None), unbound).1.value.connected
            && t.restored && !t.desired && !t.connected
  {
    var unbound := Env(false, true, None, false, None, Stored);
    var readable := Env(true, true, Some(info), true, Some(info), Stored);
    var s := Step(Start(None), Connect(unbound));
    RunOne(Start(None), Connect(unbound), [Restart, GetStatus(readable)]);
    RunOne(s, Restart, [GetStatus(readable)]);
    RunOne(Start(None), GetStatus(readable), []);
    assert [Connect(unbound)] + [Restart, GetStatus(readable)] == [Connect(unbound), Restart, GetStatus(readable)];
    assert [Restart] + [GetStatus(readable)] == [Restart, GetStatus(readable)];
    assert [GetStatus(readable)] + [] == [GetStatus(readable)];
  }

  lemma RunOne(s: State, e: Event, later: seq<Event>)
    ensures Run(s, [e] + later) == Run(Step(s, e), later)
  {
    assert ([e] + later)[1..] == later;
  }

  /** In the same process a restore overturns an acknowledged call if and only if the call was a
      Disconnect made with the host unbound over a stored connect that had not been read yet. */
  lemma LateRestoreOverturns(s: State, b: bool, env: Env, later: seq<Event>)
    requires Succeeds(s, b, env) && SetsNothing(later) && Restart !in later
    requires Run(Step(s, Setting(b, env)), later).restored
    ensures Run(Step(s, Setting(b, env)), later).desired != b
            <==> !b && !env.boundAtCall && Intent(s.stored) && !Restored(s, env).restored
  {
    QuietRun(Step(s, Setting(b, env)), later);
  }
}

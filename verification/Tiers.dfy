/**
  Who thinks what is connected: `connectedIds` and `statusMap` in the TypeScript connection manager
  (src/connection-manager.ts), `connectionRoutes` in the sidecar (sidecar/main.go) and `conns` in each
  driver plugin (sidecar/driverplugin/connections.go). The sidecar serves one request at a time, in
  order, and its answers come back in order; anything may happen on the TypeScript side in between.
*/
module Tiers {
  import opened Common

  datatype Status = Available | Connected | Broken

  /** A connect carries the driver its DSN resolves to. */
  datatype Op = Connect(name: string, driver: string) | Disconnect(name: string)

  /** How a request fares once the sidecar takes it up: turned down before the driver is asked, refused by
      the driver (a connect that cannot open or ping, a disconnect whose Close fails), or done. */
  datatype Fate = TurnedDown | Refused | Done

  /** A request in flight; `abandoned` once the RPC layer has given up on it. */
  datatype Entry = Entry(op: Op, answer: Option<bool>, abandoned: bool)

  /** `flight` is in sending order; the first `served` of it have been answered. */
  datatype State = State(
    connected: set<string>,
    status: map<string, Status>,
    flight: seq<Entry>,
    served: nat,
    routes: map<string, string>,
    conns: set<(string, string)>)

  datatype Event =
    | EnsureConnected(name: string, driver: string)
    | CallDisconnect(name: string)
    | Serve(fate: Fate)
    | Answer
    | TimeOut(k: nat)
    | DriverCrash(driver: string)
    | SidecarCrash

  const FRESH := State({}, map[], [], 0, map[], {})

  predicate Enabled(s: State, e: Event) {
    && s.served <= |s.flight|
    && match e
       case Serve(_) => s.served < |s.flight|
       case Answer => 0 < s.served && s.flight[0].answer.Some?
       case TimeOut(k) => k < |s.flight| && !s.flight[k].abandoned
       case _ => true
  }

  // ---------------------------------------------------------------------
  // Each tier's part
  // ---------------------------------------------------------------------

  /** The plugin's `Connect`: an existing entry goes first, whatever becomes of the new one. */
  function PluginConnect(conns: set<(string, string)>, driver: string, name: string,
          opens: bool): set<(string, string)> {
    if opens then conns + {(driver, name)} else conns - {(driver, name)}
  }

  /** The sidecar's and the plugin's tables, and the answer sent back. */
  function Served(routes: map<string, string>, conns: set<(string, string)>, op: Op, fate: Fate)
    : (map<string, string>, set<(string, string)>, bool)
  {
    match op
    case Connect(name, driver) =>
      if fate.TurnedDown? then (routes, conns, false)
      else if fate.Refused? then (routes, PluginConnect(conns, driver, name, false), false)
      else (routes[name := driver], PluginConnect(conns, driver, name, true), true)
    case Disconnect(name) =>
      if name !in routes || fate.TurnedDown? || (routes[name], name) !in conns then (routes, conns, false)
      else if fate.Refused? then (routes, conns - {(routes[name], name)}, false)
      else (routes - {name}, conns - {(routes[name], name)}, true)
  }

  /** What TypeScript makes of an answer. */
  function ConnectedAfter(connected: set<string>, op: Op, ok: bool): set<string> {
    if !ok then connected else if op.Connect? then connected + {op.name} else connected - {op.name}
  }

  function StatusAfter(status: map<string, Status>, op: Op, ok: bool): map<string, Status> {
    match op
    case Connect(name, _) => status[name := if ok then Connected else Broken]
    case Disconnect(name) => if ok then status[name := Available] else status
  }

  /** After a crash every known name is available, and then each connect in flight fails. */
  function StatusAfterCrash(status: map<string, Status>, flight: seq<Entry>): (r: map<string, Status>) {
    map name | name in status.Keys + Connecting(flight) :: if name in Connecting(flight) then Broken else Available
  }

  /** The names some live request is connecting. */
  function Connecting(flight: seq<Entry>): set<string> {
    set i | 0 <= i < |flight| && flight[i].op.Connect? && !flight[i].abandoned :: flight[i].op.name
  }

  function Apply(s: State, e: Event): State
    requires Enabled(s, e)
  {
    match e
    case EnsureConnected(name, driver) =>
      if name in s.connected then s else s.(flight := s.flight + [Entry(Connect(name, driver), None, false)])
    case CallDisconnect(name) => s.(flight := s.flight + [Entry(Disconnect(name), None, false)])
    case Serve(fate) =>
      var entry := s.flight[s.served];
      var (routes, conns, ok) := Served(s.routes, s.conns, entry.op, fate);
      s.(routes := routes, conns := conns,
        flight := s.flight[s.served := entry.(answer := Some(ok))], served := s.served + 1)
    case Answer =>
      var entry := s.flight[0];
      var t := s.(flight := s.flight[1..], served := s.served - 1);
      if entry.abandoned then t
      else t.(connected := ConnectedAfter(s.connected, entry.op, entry.answer.value),
              status := StatusAfter(s.status, entry.op, entry.answer.value))
    case TimeOut(k) =>
      s.(flight := s.flight[k := s.flight[k].(abandoned := true)],
         status := if s.flight[k].op.Connect? then s.status[s.flight[k].op.name := Broken] else s.status)
    case DriverCrash(driver) => s.(conns := set c | c in s.conns && c.0 != driver)
    case SidecarCrash => State({}, StatusAfterCrash(s.status, s.flight), [], 0, map[], {})
  }

  predicate Leads(s: State, es: seq<Event>, t: State)
    decreases |es|
  {
    if es == [] then s == t else Enabled(s, es[0]) && Leads(Apply(s, es[0]), es[1..], t)
  }

  // ---------------------------------------------------------------------
  // Agreement
  // ---------------------------------------------------------------------

  /** e closes a connection behind the back of a route: the driver of a routed name crashes, or Close fails
      in the disconnect of a routed name. */
  predicate Undercuts(s: State, e: Event)
    requires Enabled(s, e)
  {
    match e
    case DriverCrash(driver) => exists name :: name in s.routes && s.routes[name] == driver
    case Serve(fate) => fate.Refused? && s.flight[s.served].op.Disconnect? && s.flight[s.served].op.name in s.routes
    case _ => false
  }

  /** No connection is closed behind a route's back, no RPC times out, and no connect of a name starts
      while the name is being connected. */
  predicate Calm(s: State, e: Event)
    requires Enabled(s, e)
  {
    && !Undercuts(s, e)
    && !e.TimeOut?
    && (e.EnsureConnected? ==> e.name !in Connecting(s.flight))
  }

  predicate AllCalm(s: State, es: seq<Event>, t: State)
    requires Leads(s, es, t)
    decreases |es|
  {
    es == [] || (Calm(s, es[0]) && AllCalm(Apply(s, es[0]), es[1..], t))
  }

  /** The names TypeScript will hold connected once the first n answers of flight have arrived. */
  function Catching(connected: set<string>, flight: seq<Entry>, n: nat): set<string>
    requires n <= |flight| && forall i :: 0 <= i < n ==> flight[i].answer.Some?
  {
    if n == 0 then connected
    else ConnectedAfter(Catching(connected, flight, n - 1), flight[n - 1].op, flight[n - 1].answer.value)
  }

  /** At most one connect per name, and none for a connected name. */
  predicate OneConnect(connected: set<string>, flight: seq<Entry>) {
    forall i :: 0 <= i < |flight| && flight[i].op.Connect? ==>
      && flight[i].op.name !in connected
      && forall j :: 0 <= j < i && flight[j].op.Connect? ==> flight[j].op.name != flight[i].op.name
  }

  predicate InOrder(s: State) {
    && s.served <= |s.flight|
    && forall i :: 0 <= i < |s.flight| ==> !s.flight[i].abandoned && (s.flight[i].answer.Some? <==> i < s.served)
  }

  /** Every route leads to a driver that has the connection open. */
  predicate RoutesOpen(s: State) {
    forall name :: name in s.routes ==> (s.routes[name], name) in s.conns
  }

  ghost predicate StatusAgrees(s: State) {
    forall name :: name in s.connected <==> name in s.status && s.status[name] == Connected
  }

  ghost predicate Inv(s: State) {
    && InOrder(s)
    && OneConnect(s.connected, s.flight)
    && Catching(s.connected, s.flight, s.served) == s.routes.Keys
    && RoutesOpen(s)
    && StatusAgrees(s)
  }

  lemma {:induction false} CatchingDependsOn(connected: set<string>, f: seq<Entry>, g: seq<Entry>, n: nat)
    requires n <= |f| && n <= |g| && forall i :: 0 <= i < n ==> f[i].answer.Some? && f[i] == g[i]
    ensures Catching(connected, f, n) == Catching(connected, g, n)
  {
    if n > 0 {
      CatchingDependsOn(connected, f, g, n - 1);
    }
  }

  lemma {:induction false} CatchingFirst(connected: set<string>, f: seq<Entry>, n: nat)
    requires 0 < n <= |f| && forall i :: 0 <= i < n ==> f[i].answer.Some?
    ensures Catching(connected, f, n) == Catching(ConnectedAfter(connected, f[0].op, f[0].answer.value), f[1..], n - 1)
  {
    if n > 1 {
      CatchingFirst(connected, f, n - 1);
      assert f[1..][n - 2] == f[n - 1];
    }
  }

  /** A name that is not connected and not being connected will not turn out connected. */
  lemma {:induction false} NotCaught(connected: set<string>, f: seq<Entry>, n: nat, name: string)
    requires n <= |f| && forall i :: 0 <= i < n ==> f[i].answer.Some?
    requires name !in connected && forall i :: 0 <= i < n && f[i].op.Connect? ==> f[i].op.name != name
    ensures name !in Catching(connected, f, n)
  {
    if n > 0 {
      NotCaught(connected, f, n - 1, name);
    }
  }

  lemma SendKeeps(s: State, e: Event)
    requires Inv(s) && (e.EnsureConnected? || e.CallDisconnect?) && Enabled(s, e) && Calm(s, e)
    ensures Inv(Apply(s, e))
  {
    var t := Apply(s, e);
    CatchingDependsOn(s.connected, s.flight, t.flight, s.served);
    if e.EnsureConnected? {
      forall j | 0 <= j < |s.flight| && s.flight[j].op.Connect? ensures s.flight[j].op.name != e.name {
        assert s.flight[j].op.name in Connecting(s.flight);
      }
    }
  }

  lemma ServeKeeps(s: State, fate: Fate)
    requires Inv(s) && Enabled(s, Serve(fate)) && Calm(s, Serve(fate))
    ensures Inv(Apply(s, Serve(fate)))
  {
    var t := Apply(s, Serve(fate));
    var op := s.flight[s.served].op;
    CatchingDependsOn(s.connected, s.flight, t.flight, s.served);
    if op.Connect? {
      NotCaught(s.connected, s.flight, s.served, op.name);
    }
    assert t.routes.Keys == Catching(t.connected, t.flight, t.served);
  }

  lemma DriverCrashKeeps(s: State, driver: string)
    requires Inv(s) && Enabled(s, DriverCrash(driver)) && !Undercuts(s, DriverCrash(driver))
    ensures Inv(Apply(s, DriverCrash(driver)))
  {
    var t := Apply(s, DriverCrash(driver));
    forall name | name in t.routes ensures (t.routes[name], name) in t.conns {
      assert s.routes[name] != driver;
    }
  }

  lemma AnswerKeeps(s: State)
    requires Inv(s) && Enabled(s, Answer)
    ensures Inv(Apply(s, Answer))
  {
    CatchingFirst(s.connected, s.flight, s.served);
  }

  lemma StepKeeps(s: State, e: Event)
    requires Inv(s) && Enabled(s, e) && Calm(s, e)
    ensures Inv(Apply(s, e))
  {
    match e
    case EnsureConnected(_, _) => SendKeeps(s, e);
    case CallDisconnect(_) => SendKeeps(s, e);
    case Serve(fate) => ServeKeeps(s, fate);
    case Answer => AnswerKeeps(s);
    case DriverCrash(driver) => DriverCrashKeeps(s, driver);
    case SidecarCrash =>
  }

  lemma {:induction false} Reachable(s: State, es: seq<Event>, t: State)
    requires Inv(s) && Leads(s, es, t) && AllCalm(s, es, t)
    ensures Inv(t)
    decreases |es|
  {
    hide Inv, Enabled, Apply, Calm;
    if es != [] {
      StepKeeps(s, es[0]);
      Reachable(Apply(s, es[0]), es[1..], t);
    }
  }

  /** Exactly the undercutting events break the agreement between routes and connections. */
  lemma RoutesOpenIff(s: State, e: Event)
    requires Inv(s) && Enabled(s, e)
    ensures RoutesOpen(Apply(s, e)) <==> !Undercuts(s, e)
  {
    var t := Apply(s, e);
    if Undercuts(s, e) {
      var name :| name in s.routes &&
        (if e.Serve? then s.flight[s.served].op.name == name else s.routes[name] == e.driver);
      assert (t.routes[name], name) !in t.conns;
    } else if Calm(s, e) {
      StepKeeps(s, e);
    }
  }

  /** Exactly the calm events keep the whole invariant. */
  lemma CalmIff(s: State, e: Event)
    requires Inv(s) && Enabled(s, e)
    ensures Inv(Apply(s, e)) <==> Calm(s, e)
  {
    var t := Apply(s, e);
    if Calm(s, e) {
      StepKeeps(s, e);
    } else if Undercuts(s, e) {
      RoutesOpenIff(s, e);
    } else if e.TimeOut? {
      assert t.flight[e.k].abandoned;
    } else {
      var j :| 0 <= j < |s.flight| && s.flight[j].op.Connect? && !s.flight[j].abandoned
        && s.flight[j].op.name == e.name;
      assert t.flight[j] == s.flight[j] && t.flight[|s.flight|].op == Connect(e.name, e.driver);
    }
  }

  /** An overlapping connect loses one thing at once, that a name has at most one connect under way. */
  lemma OverlapLoses(s: State, name: string, driver: string)
    requires Inv(s) && name in Connecting(s.flight)
    ensures var t := Apply(s, EnsureConnected(name, driver));
      && InOrder(t) && RoutesOpen(t) && StatusAgrees(t)
      && Catching(t.connected, t.flight, t.served) == t.routes.Keys
      && !OneConnect(t.connected, t.flight)
  {
    var t := Apply(s, EnsureConnected(name, driver));
    var j :| 0 <= j < |s.flight| && s.flight[j].op.Connect? && !s.flight[j].abandoned && s.flight[j].op.name == name;
    assert name !in s.connected;
    assert t.flight[j] == s.flight[j] && t.flight[|s.flight|].op == Connect(name, driver);
    CatchingDependsOn(s.connected, s.flight, t.flight, s.served);
  }

  /** A timeout loses one thing at once, that every answer will be listened to; the tables and the status
      agree as before. */
  lemma TimeOutLoses(s: State, k: nat)
    requires Inv(s) && Enabled(s, TimeOut(k))
    ensures var t := Apply(s, TimeOut(k));
      && RoutesOpen(t) && StatusAgrees(t) && OneConnect(t.connected, t.flight)
      && t.connected == s.connected && t.routes == s.routes && t.conns == s.conns
      && !InOrder(t)
  {
    var t := Apply(s, TimeOut(k));
    assert t.flight[k].abandoned;
    assert forall i :: 0 <= i < |s.flight| ==> t.flight[i].op == s.flight[i].op;
  }

  /** What serving a request does, case by case: turned down, or a disconnect of a name without a route or without
      a connection behind it, changes nothing; a refused connect closes what that driver had under the name and
      leaves the routes; a connect that works opens and routes; a failing Close closes and leaves the route; a
      disconnect that works takes both away. Only a connect or disconnect that works is answered with success. */
  lemma ServeMeans(s: State, fate: Fate)
    requires Enabled(s, Serve(fate))
    ensures var op, t := s.flight[s.served].op, Apply(s, Serve(fate));
      var open := op.name in s.routes && (s.routes[op.name], op.name) in s.conns;
      var works := fate.Done? && (op.Connect? || open);
      && t.flight[s.served].answer == Some(works) && t.served == s.served + 1 && t.connected == s.connected
      && (fate.TurnedDown? || (op.Disconnect? && !open) ==> t.routes == s.routes && t.conns == s.conns)
      && (op.Connect? && fate.Refused? ==> t.routes == s.routes && t.conns == s.conns - {(op.driver, op.name)})
      && (op.Connect? && fate.Done? ==>
            t.routes == s.routes[op.name := op.driver] && t.conns == s.conns + {(op.driver, op.name)})
      && (op.Disconnect? && open && fate.Refused? ==>
            t.routes == s.routes && t.conns == s.conns - {(s.routes[op.name], op.name)})
      && (op.Disconnect? && open && fate.Done? ==>
            t.routes == s.routes - {op.name} && t.conns == s.conns - {(s.routes[op.name], op.name)})
  {
  }

  /** What each event makes of a name's status: a connect that is answered makes it connected or, when it failed
      or timed out, broken; a disconnect that worked makes it available; after a crash of the sidecar a name
      being connected is broken and every other known name available; nothing else changes it. */
  lemma StatusMeans(s: State, e: Event, name: string)
    requires Enabled(s, e)
    ensures var before, after := s.status, Apply(s, e).status;
      var now := if name in after then Some(after[name]) else None;
      var answered := e.Answer? && !s.flight[0].abandoned && s.flight[0].op.name == name;
      var connecting := exists i ::
        && 0 <= i < |s.flight| && s.flight[i].op.Connect? && !s.flight[i].abandoned
        && s.flight[i].op.name == name;
      now ==
        if answered && s.flight[0].op.Connect? then Some(if s.flight[0].answer == Some(true) then Connected else Broken)
        else if answered && s.flight[0].answer == Some(true) then Some(Available)
        else if e.TimeOut? && s.flight[e.k].op.Connect? && s.flight[e.k].op.name == name then Some(Broken)
        else if e.SidecarCrash? && connecting then Some(Broken)
        else if e.SidecarCrash? && name in before then Some(Available)
        else if name in before then Some(before[name]) else None
  {
    if e.SidecarCrash? {
      assert name in Connecting(s.flight) <==>
        exists i ::
          && 0 <= i < |s.flight| && s.flight[i].op.Connect? && !s.flight[i].abandoned
          && s.flight[i].op.name == name;
    }
  }

  /** A disconnect of name has been carried out below, and TypeScript has yet to hear of it. */
  predicate Closing(s: State, name: string) {
    exists i :: 0 <= i < |s.flight| && s.flight[i].op == Disconnect(name) && s.flight[i].answer == Some(true)
  }

  lemma {:induction false} StaysCaught(connected: set<string>, f: seq<Entry>, n: nat, name: string)
    requires n <= |f| && forall i :: 0 <= i < n ==> f[i].answer.Some?
    requires name in connected && forall i :: 0 <= i < n ==> f[i].op != Disconnect(name) || !f[i].answer.value
    ensures name in Catching(connected, f, n)
  {
    if n > 0 {
      StaysCaught(connected, f, n - 1, name);
    }
  }

  /** In every calm run, crashes of the sidecar and of drivers no route leads to included: a connected name
      has a route, unless the answer to its disconnect is on its way; every route leads to a driver with the
      connection open; a name's status is "connected" exactly when it is; and when no answer is on its way,
      connected and routed are the same. */
  lemma TiersAgree(es: seq<Event>, s: State, name: string)
    requires Leads(FRESH, es, s) && AllCalm(FRESH, es, s)
    ensures name in s.connected && !Closing(s, name) ==> name in s.routes
    ensures name in s.routes ==> (s.routes[name], name) in s.conns
    ensures name in s.connected <==> name in s.status && s.status[name] == Connected
    ensures s.served == 0 ==> s.connected == s.routes.Keys
  {
    assert Inv(FRESH);
    Reachable(FRESH, es, s);
    if name in s.connected && !Closing(s, name) {
      StaysCaught(s.connected, s.flight, s.served, name);
    }
  }

  /** A crash leaves all three tiers empty, whatever was going on. */
  lemma CrashRestoresAgreement(s: State)
    requires Enabled(s, SidecarCrash)
    ensures Inv(Apply(s, SidecarCrash))
    ensures var t := Apply(s, SidecarCrash); t.connected == {} && t.routes == map[] && t.conns == {} && t.flight == []
  {
  }

  // ---------------------------------------------------------------------
  // What each hypothesis keeps out
  // ---------------------------------------------------------------------

  /** One connection open, nothing in flight. */
  function Opened(name: string, driver: string): State {
    State({name}, map[name := Connected], [], 0, map[name := driver], {(driver, name)})
  }

  lemma OpenedIsReachable(name: string, driver: string)
    ensures exists es :: Leads(FRESH, es, Opened(name, driver)) && AllCalm(FRESH, es, Opened(name, driver))
  {
    var t := Opened(name, driver);
    var s1 := Apply(FRESH, EnsureConnected(name, driver));
    var s2 := Apply(s1, Serve(Done));
    assert Apply(s2, Answer) == t;
    assert Connecting(FRESH.flight) == {};
    Calmly(t, Answer, [], s2, t);
    Calmly(s2, Serve(Done), [Answer], s1, t);
    Calmly(s1, EnsureConnected(name, driver), [Serve(Done), Answer], FRESH, t);
  }

  lemma Calmly(next: State, e: Event, es: seq<Event>, s: State, t: State)
    requires Enabled(s, e) && Calm(s, e) && Apply(s, e) == next && Leads(next, es, t) && AllCalm(next, es, t)
    ensures Leads(s, [e] + es, t) && AllCalm(s, [e] + es, t)
  {
    assert ([e] + es)[1..] == es;
  }

  /** TypeScript and the sidecar believe in a connection whose driver no longer has it. */
  predicate Hollow(s: State, name: string) {
    name in s.connected && name in s.routes && (s.routes[name], name) !in s.conns
  }

  lemma DriverCrashHollows(name: string, driver: string)
    ensures Hollow(Apply(Opened(name, driver), DriverCrash(driver)), name)
  {
  }

  lemma FailingCloseHollows(name: string, driver: string)
    ensures
      var s1 := Apply(Opened(name, driver), CallDisconnect(name));
      var s2 := Apply(s1, Serve(Refused));
      Enabled(s2, Answer) && Hollow(Apply(s2, Answer), name)
  {
  }

  lemma OverlappingConnectsHollow(name: string, driver: string)
    ensures
      var s1 := Apply(FRESH, EnsureConnected(name, driver));
      var s2 := Apply(s1, EnsureConnected(name, driver));
      var s3 := Apply(s2, Serve(Done));
      var s4 := Apply(s3, Serve(Refused));
      Enabled(s4, Answer) &&
      var s5 := Apply(s4, Answer);
      Enabled(s5, Answer) && Hollow(Apply(s5, Answer), name)
  {
  }

  /** After a connect whose answer came too late, the sidecar alone holds the connection; and if the next
      attempt is refused, its route leads nowhere. */
  lemma TimedOutConnectStrands(name: string, driver: string)
    ensures
      var s1 := Apply(FRESH, EnsureConnected(name, driver));
      var s2 := Apply(s1, TimeOut(0));
      var s3 := Apply(s2, Serve(Done));
      Enabled(s3, Answer) &&
      var s4 := Apply(s3, Answer);
      var s5 := Apply(s4, EnsureConnected(name, driver));
      && name !in s4.connected && name in s4.routes && s4.flight == []
      && Enabled(s5, Serve(Refused)) && Calm(s5, Serve(Refused)) && !RoutesOpen(Apply(s5, Serve(Refused)))
  {
    var s1 := Apply(FRESH, EnsureConnected(name, driver));
    var s2 := Apply(s1, TimeOut(0));
    var s3 := Apply(s2, Serve(Done));
    var s4 := Apply(s3, Answer);
    var s5 := Apply(s4, EnsureConnected(name, driver));
    var s6 := Apply(s5, Serve(Refused));
    assert s6.routes[name] == driver && (driver, name) !in s6.conns;
  }

  /** After a disconnect whose answer came too late, TypeScript alone believes in the connection. */
  lemma TimedOutDisconnectStrands(name: string, driver: string)
    ensures
      var s1 := Apply(Opened(name, driver), CallDisconnect(name));
      var s2 := Apply(s1, Serve(Done));
      var s3 := Apply(s2, TimeOut(0));
      Enabled(s3, Answer) &&
      var s4 := Apply(s3, Answer);
      name in s4.connected && name !in s4.routes && s4.flight == []
  {
  }

  /** Nothing in flight can still open or close name. */
  predicate Untouched(s: State, name: string) {
    forall i :: 0 <= i < |s.flight| && s.flight[i].op.name == name ==>
      s.flight[i].op.Disconnect? && s.flight[i].answer != Some(true)
  }

  /** A hollow connection stays hollow until the whole sidecar goes: it is never connected again, because
      TypeScript thinks it is, and never disconnected, because the driver cannot find it. */
  lemma {:induction false} HollowForGood(s: State, es: seq<Event>, t: State, name: string)
    requires Leads(s, es, t) && Hollow(s, name) && Untouched(s, name) && SidecarCrash !in es
    ensures Hollow(t, name) && Untouched(t, name)
    decreases |es|
  {
    if es != [] {
      HollowStep(s, es[0], name);
      HollowForGood(Apply(s, es[0]), es[1..], t, name);
    }
  }

  lemma HollowStep(s: State, e: Event, name: string)
    requires Enabled(s, e) && Hollow(s, name) && Untouched(s, name) && !e.SidecarCrash?
    ensures Hollow(Apply(s, e), name) && Untouched(Apply(s, e), name)
  {
  }

  // ---------------------------------------------------------------------
  // The three tiers, changed in place
  // ---------------------------------------------------------------------

  /** The `conns` of all driver plugins, by driver and name. */
  class Plugins {
    var conns: set<(string, string)>

    constructor ()
      ensures conns == {}
    {
      conns := {};
    }

    method Open(driver: string, name: string, opens: bool) returns (ok: bool)
      modifies this
      ensures ok == opens && conns == PluginConnect(old(conns), driver, name, opens)
    {
      if (driver, name) in conns {
        conns := conns - {(driver, name)};
      }
      if !opens {
        return false;
      }
      conns := conns + {(driver, name)};
      return true;
    }

    /** The entry goes even when Close fails. */
    method Close(driver: string, name: string, closes: bool) returns (ok: bool)
      modifies this
      ensures ok == ((driver, name) in old(conns) && closes)
      ensures conns == old(conns) - {(driver, name)}
    {
      if (driver, name) !in conns {
        return false;
      }
      conns := conns - {(driver, name)};
      return closes;
    }
  }

  class Sidecar {
    const plugins: Plugins
    var routes: map<string, string>

    constructor (p: Plugins)
      ensures plugins == p && routes == map[]
    {
      plugins, routes := p, map[];
    }

    method HandleConnect(name: string, driver: string, fate: Fate) returns (ok: bool)
      modifies this, plugins
      ensures (routes, plugins.conns, ok) == Served(old(routes), old(plugins.conns), Connect(name, driver), fate)
    {
      if fate.TurnedDown? {
        return false;
      }
      ok := plugins.Open(driver, name, fate.Done?);
      if !ok {
        return;
      }
      routes := routes[name := driver];
    }

    /** The route goes only when the driver has agreed. */
    method ForwardDisconnect(name: string, fate: Fate) returns (ok: bool)
      modifies this, plugins
      ensures (routes, plugins.conns, ok) == Served(old(routes), old(plugins.conns), Disconnect(name), fate)
    {
      if name !in routes || fate.TurnedDown? {
        return false;
      }
      ok := plugins.Close(routes[name], name, fate.Done?);
      assert (routes[name], name) !in old(plugins.conns) ==> plugins.conns == old(plugins.conns);
      if !ok {
        return;
      }
      routes := routes - {name};
    }
  }

  class ConnectionManager {
    var connectedIds: set<string>
    var statusMap: map<string, Status>

    constructor ()
      ensures connectedIds == {} && statusMap == map[]
    {
      connectedIds, statusMap := {}, map[];
    }

    /** What follows the `await` in `ensureConnected` and in `disconnect`. */
    method Answered(op: Op, ok: bool)
      modifies this
      ensures connectedIds == ConnectedAfter(old(connectedIds), op, ok)
      ensures statusMap == StatusAfter(old(statusMap), op, ok)
    {
      match op
      case Connect(name, _) =>
        if ok {
          connectedIds := connectedIds + {name};
          statusMap := statusMap[name := Connected];
        } else {
          statusMap := statusMap[name := Broken];
        }
      case Disconnect(name) =>
        if ok {
          connectedIds := connectedIds - {name};
          statusMap := statusMap[name := Available];
        }
    }

    /** The crash handler, and then the `catch` of every connect in flight. */
    method HandleSidecarCrash(flight: seq<Entry>)
      modifies this
      ensures connectedIds == {} && statusMap == StatusAfterCrash(old(statusMap), flight)
    {
      connectedIds := {};
      var left := statusMap.Keys;
      while left != {}
        invariant connectedIds == {} && left <= old(statusMap).Keys && statusMap.Keys == old(statusMap).Keys
        invariant forall name :: name in statusMap && name !in left ==> statusMap[name] == Available
        decreases left
      {
        var name :| name in left;
        statusMap := statusMap[name := Available];
        left := left - {name};
      }
      for i := 0 to |flight|
        invariant connectedIds == {} && statusMap == StatusAfterCrash(old(statusMap), flight[..i])
      {
        ConnectingNext(flight, i);
        if flight[i].op.Connect? && !flight[i].abandoned {
          statusMap := statusMap[flight[i].op.name := Broken];
        }
      }
      assert flight[..|flight|] == flight;
    }
  }

  lemma ConnectingNext(flight: seq<Entry>, i: nat)
    requires i < |flight|
    ensures Connecting(flight[..i + 1]) == Connecting(flight[..i]) +
      if flight[i].op.Connect? && !flight[i].abandoned then {flight[i].op.name} else {}
  {
    var f, g := flight[..i], flight[..i + 1];
    assert forall j :: 0 <= j < i ==> f[j] == g[j];
    assert g[i] == flight[i];
    forall name | name in Connecting(f) ensures name in Connecting(g) {
      var j :| 0 <= j < |f| && f[j].op.Connect? && !f[j].abandoned && f[j].op.name == name;
      assert g[j].op.name == name;
    }
  }
}

/**
 * Registrations across reconnects: RemoteRouter (src/remote_router.rs) composed with the router and the
 * client's connections there.
 *
 * On each connection the client sends its Hello first and then its commands, and the router reads them in that
 * order; it reads no command while the Hello waits for a predecessor to be dropped. Earlier connections of the
 * client may linger, and other clients come and go, at any time.
 */
module RemoteBindings {
  import opened Common
  import opened RouterTables
  import opened Takeovers
  import LC = Lifecycle

  datatype Command = Bind(service: string) | Unbind(service: string)

  /** The set a list of commands makes of `names`. */
  function Played(names: set<string>, cmds: seq<Command>): set<string> {
    if cmds == [] then names
    else
      var c, before := cmds[|cmds| - 1], Played(names, cmds[..|cmds| - 1]);
      if c.Bind? then before + {c.service} else before - {c.service}
  }

  function Replay(cmds: seq<Command>): set<string> { Played({}, cmds) }

  // ----- RemoteRouter -----

  datatype Client = Client(
    bindings: set<string>,              // local_bindings
    conn: Option<ConnId>,               // the current connection, also after its link broke
    issued: seq<Command>,               // everything sent on the current connection after the Hello
    pending: seq<nat>,                  // pending_calls, by number
    calls: nat,
    got: map<nat, Option<ConnId>>)      // what waiting calls received: a connection or the timeout error

  const IDLE_CLIENT := Client({}, None, [], [], 0, map[])

  predicate IsOrderOf(order: seq<string>, names: set<string>) {
    && |order| == |names|
    && (forall s :: s in names ==> s in order)
    && (forall i :: 0 <= i < |order| ==> order[i] in names)
  }

  function Binds(order: seq<string>): (r: seq<Command>)
    ensures |r| == |order| && forall i :: 0 <= i < |r| ==> r[i] == Bind(order[i])
  {
    seq(|order|, i requires 0 <= i < |order| => Bind(order[i]))
  }

  /** The UpdateService handler: issue on the connection if there is one, update the set in any case. */
  function Update(cl: Client, cmd: Command): Client {
    cl.(issued := if cl.conn.Some? then cl.issued + [cmd] else cl.issued,
        bindings := if cmd.Bind? then cl.bindings + {cmd.service} else cl.bindings - {cmd.service})
  }

  /** clean_pending_calls: every waiting call receives the same answer. */
  function Answer(got: map<nat, Option<ConnId>>, pending: seq<nat>, a: Option<ConnId>): map<nat, Option<ConnId>>
    decreases |pending|
  {
    if pending == [] then got else Answer(got[pending[0] := a], pending[1..], a)
  }

  function Connected(cl: Client, c: ConnId, order: seq<string>): Client {
    cl.(conn := Some(c), issued := Binds(order), got := Answer(cl.got, cl.pending, Some(c)), pending := [])
  }

  function AskConnection(cl: Client): Client {
    if cl.conn.Some? then cl.(calls := cl.calls + 1, got := cl.got[cl.calls := cl.conn])
    else cl.(calls := cl.calls + 1, pending := cl.pending + [cl.calls])
  }

  function TimeOut(cl: Client): Client { cl.(got := Answer(cl.got, cl.pending, None), pending := []) }

  function Forget(cl: Client): Client { cl.(conn := None) }

  // ----- The whole system -----

  datatype Sys = Sys(
    client: Client,
    side: Side,                         // the router, with this client's connections
    handled: nat,                       // how many issued commands it has read on the current connection
    refused: map<string, ConnId>)       // names whose latest bind found another owner, with that owner

  datatype Event =
    | Add(s: string)
    | Remove(s: string)
    | Call
    | Connect(c: ConnId, order: seq<string>)    // transport up; the set is iterated in some order
    | ConnectTimeout
    | Restart
    | RouterReads                               // the next message on the current connection
    | RouterMoves(e: LC.Event)                  // anything else at the router

  /** The router's next step on the current connection. */
  function NextRead(st: Sys): Option<LC.Event> {
    if st.client.conn.None? || st.client.conn.value !in st.side.router.conns then None
    else
      var c := st.client.conn.value;
      if st.side.router.conns[c].instance.None? then Some(LC.Hello(c, st.side.id))
      else if st.handled >= |st.client.issued| then None
      else
        var cmd := st.client.issued[st.handled];
        Some(if cmd.Bind? then LC.RegisterLock(c, cmd.service) else LC.UnregisterLock(c, cmd.service))
  }

  predicate Enabled(st: Sys, e: Event) {
    match e
    case Connect(c, order) =>
      st.client.conn.None? && c !in st.side.router.conns && IsOrderOf(order, st.client.bindings)
    case ConnectTimeout => st.client.conn.None?
    case RouterReads => NextRead(st).Some? && Possible(st.side, NextRead(st).value)
    case RouterMoves(x) => Possible(st.side, x) && (st.client.conn == Some(x.c) ==> !x.Hello? && !Locks(x))
    case _ => true
  }

  /** A bind that meets another owner is refused; any other command settles its name. */
  function Refusals(refused: map<string, ConnId>, t: Table, x: LC.Event): map<string, ConnId>
    requires Locks(x)
  {
    if x.RegisterLock? && x.s in t && t[x.s] != x.c then refused[x.s := t[x.s]] else refused - {x.s}
  }

  function Read(st: Sys, x: LC.Event): Sys {
    var next := st.(side := Move(st.side, x));
    if !Locks(x) then next
    else next.(handled := st.handled + 1, refused := Refusals(st.refused, st.side.router.endpoints, x))
  }

  function Apply(st: Sys, e: Event): Sys
    requires Enabled(st, e)
  {
    match e
    case Add(s) => st.(client := Update(st.client, Bind(s)))
    case Remove(s) => st.(client := Update(st.client, Unbind(s)))
    case Call => st.(client := AskConnection(st.client))
    case Connect(c, order) => Sys(Connected(st.client, c, order), Open(st.side, c), 0, map[])
    case ConnectTimeout => st.(client := TimeOut(st.client))
    case Restart => st.(client := Forget(st.client))
    case RouterReads => Read(st, NextRead(st).value)
    case RouterMoves(x) => st.(side := Move(st.side, x))
  }

  function Step(st: Sys, e: Event): Sys { if Enabled(st, e) then Apply(st, e) else st }

  function Start(id: InstanceId): Sys { Sys(IDLE_CLIENT, Side(LC.EMPTY, id, {}, []), 0, map[]) }

  function Exec(id: InstanceId, events: seq<Event>): Sys {
    if events == [] then Start(id)
    else Step(Exec(id, events[..|events| - 1]), events[|events| - 1])
  }

  /** The current connection is one the router counts as connected and still serves. */
  predicate Active(st: Sys) {
    && st.client.conn.Some? && st.client.conn.value in st.side.router.conns
    && var k := st.side.router.conns[st.client.conn.value]; k.connected && k.running
  }

  // ----- Invariants -----

  function Owned(t: Table, c: ConnId): set<string> { set s | s in t && t[s] == c }

  ghost predicate ClientInv(cl: Client) {
    cl.conn.Some? ==> Replay(cl.issued) == cl.bindings && cl.pending == []
  }

  ghost predicate CallInv(cl: Client) {
    Under(cl.pending, cl.calls) && forall i: nat :: i in cl.got <==> i < cl.calls && i !in cl.pending
  }

  ghost predicate RouterInv(st: Sys) {
    Active(st) ==>
      && st.handled <= |st.client.issued|
      && st.refused.Keys <= Replay(st.client.issued[..st.handled])
      && Owned(st.side.router.endpoints, st.client.conn.value) ==
         Replay(st.client.issued[..st.handled]) - st.refused.Keys
  }

  ghost predicate Inv(st: Sys) {
    && ClientInv(st.client) && CallInv(st.client) && RouterInv(st)
    && Takeovers.Inv(st.side) && (st.client.conn.Some? ==> st.client.conn.value in st.side.used)
  }

  lemma PlayedSnoc(names: set<string>, cmds: seq<Command>, c: Command)
    ensures Played(names, cmds + [c]) ==
            if c.Bind? then Played(names, cmds) + {c.service} else Played(names, cmds) - {c.service}
  {
    assert (cmds + [c])[..|cmds|] == cmds;
  }

  lemma {:induction false} ReplayBinds(order: seq<string>)
    ensures Replay(Binds(order)) == set s | s in order
  {
    if order == [] {
    } else {
      var init, last := order[..|order| - 1], order[|order| - 1];
      ReplayBinds(init);
      assert Binds(order) == Binds(init) + [Bind(last)];
      PlayedSnoc({}, Binds(init), Bind(last));
      assert order == init + [last];
    }
  }

  lemma {:induction false} AnswerMeaning(got: map<nat, Option<ConnId>>, pending: seq<nat>, a: Option<ConnId>)
    ensures forall i: nat :: i in Answer(got, pending, a) <==> i in got || i in pending
    ensures forall i: nat :: i in Answer(got, pending, a) ==>
              Answer(got, pending, a)[i] == if i in pending then a else got[i]
    decreases |pending|
  {
    if pending == [] {
    } else {
      assert pending == [pending[0]] + pending[1..];
      AnswerMeaning(got[pending[0] := a], pending[1..], a);
    }
  }

  lemma ClientStep(st: Sys, e: Event)
    requires ClientInv(st.client) && CallInv(st.client) && Enabled(st, e)
    ensures ClientInv(Apply(st, e).client) && CallInv(Apply(st, e).client)
  {
    var cl := st.client;
    if e.Add? {
      PlayedSnoc({}, cl.issued, Bind(e.s));
    } else if e.Remove? {
      PlayedSnoc({}, cl.issued, Unbind(e.s));
    } else if e.Connect? {
      ReplayBinds(e.order);
      assert (set s | s in e.order) == cl.bindings;
      AnswerMeaning(cl.got, cl.pending, Some(e.c));
    } else if e.ConnectTimeout? {
      AnswerMeaning(cl.got, cl.pending, None);
    }
  }

  /** Nothing but its own commands changes what a served connection owns. */
  lemma OthersKeepOwned(r: LC.Sys, x: LC.Event, c: ConnId)
    requires LC.Inv(r) && LC.Enabled(r, x) && c in r.conns && r.conns[c].connected
    requires x.c == c ==> !Locks(x) && !x.HandleDrop? && !x.StoppedHook?
    ensures Owned(LC.Apply(r, x).endpoints, c) == Owned(r.endpoints, c)
  {
    assert c in LC.Live(r.conns);
    if x.HandleDrop? || x.StoppedHook? {
      var after := LC.Cleanup(r, x.c);
      assert Owned(after.endpoints, c) == Owned(r.endpoints, c);
    } else if x.RegisterLock? || x.UnregisterLock? {
    } else if x.Hello? || x.RegisterEnd? {
    } else {
    }
  }

  /** A connection that is served after a step was served before it. */
  lemma ServedBefore(r: LC.Sys, x: LC.Event, c: ConnId)
    requires LC.Inv(r) && LC.Enabled(r, x) && c in r.conns
    ensures c in LC.Apply(r, x).conns
    ensures var k, after := r.conns[c], LC.Apply(r, x).conns[c];
            after.connected && after.running ==> k.connected && k.running && !(x.c == c && (x.HandleDrop? || x.StoppedHook?))
  {
    if x.c != c {
      OthersStay(r, x, c);
    } else if x.HandleDrop? {
      assert x.newcomer != x.c;
    } else if x.Hello? || x.StoppedHook? || x.RegisterEnd? {
    } else {
    }
  }

  lemma MoveKeepsRouter(st: Sys, x: LC.Event)
    requires Inv(st) && Possible(st.side, x) && (st.client.conn == Some(x.c) ==> !Locks(x))
    ensures RouterInv(st.(side := Move(st.side, x)))
  {
    var after := st.(side := Move(st.side, x));
    if Active(after) {
      ServedBefore(st.side.router, x, st.client.conn.value);
      OthersKeepOwned(st.side.router, x, st.client.conn.value);
    }
  }

  /** What reading one command makes of the connection's endpoints. */
  lemma LockOwned(r: LC.Sys, x: LC.Event)
    requires LC.Inv(r) && LC.Enabled(r, x) && Locks(x)
    ensures var t, after := r.endpoints, LC.Apply(r, x).endpoints;
            Owned(after, x.c) ==
            if x.UnregisterLock? then Owned(t, x.c) - {x.s}
            else if x.s in t then Owned(t, x.c)
            else Owned(t, x.c) + {x.s}
  {
  }

  /** One more command read, in terms of the names asked for and the names owned. */
  lemma OneMoreCommand(t: Table, x: LC.Event, asked: set<string>, refused: map<string, ConnId>, owned: set<string>)
    requires Locks(x) && refused.Keys <= asked && Owned(t, x.c) == asked - refused.Keys
    requires owned == if x.UnregisterLock? then Owned(t, x.c) - {x.s}
                      else if x.s in t then Owned(t, x.c) else Owned(t, x.c) + {x.s}
    ensures var now, kept := (if x.RegisterLock? then asked + {x.s} else asked - {x.s}), Refusals(refused, t, x);
            kept.Keys <= now && owned == now - kept.Keys
  {
    assert x.s in Owned(t, x.c) <==> x.s in t && t[x.s] == x.c;
  }

  lemma CommandKeepsRouter(st: Sys, x: LC.Event)
    requires Inv(st) && Active(st) && NextRead(st) == Some(x) && Locks(x) && Possible(st.side, x)
    ensures var owned := Owned(LC.Apply(st.side.router, x).endpoints, x.c);
            var refused := Refusals(st.refused, st.side.router.endpoints, x);
            var asked := Replay(st.client.issued[..st.handled + 1]);
            refused.Keys <= asked && owned == asked - refused.Keys
  {
    var cmds, cmd, r := st.client.issued[..st.handled], st.client.issued[st.handled], st.side.router;
    PlayedSnoc({}, cmds, cmd);
    assert st.client.issued[..st.handled + 1] == cmds + [cmd];
    LockOwned(r, x);
    OneMoreCommand(r.endpoints, x, Replay(cmds), st.refused, Owned(LC.Apply(r, x).endpoints, x.c));
  }

  lemma ReadKeepsRouter(st: Sys)
    requires Inv(st) && Enabled(st, RouterReads)
    ensures RouterInv(Apply(st, RouterReads))
  {
    var x, after := NextRead(st).value, Apply(st, RouterReads);
    if !Locks(x) {
      MoveKeepsRouter(st, x);
    } else if Active(after) {
      ServedBefore(st.side.router, x, x.c);
      CommandKeepsRouter(st, x);
    }
  }

  lemma FreshOwnsNothing(st: Sys, c: ConnId)
    requires Inv(st) && c !in st.side.router.conns
    ensures Owned(Open(st.side, c).router.endpoints, c) == {}
  {
  }

  lemma RouterStep(st: Sys, e: Event)
    requires Inv(st) && Enabled(st, e)
    ensures RouterInv(Apply(st, e))
  {
    var after := Apply(st, e);
    if e.RouterReads? {
      ReadKeepsRouter(st);
    } else if e.RouterMoves? {
      MoveKeepsRouter(st, e.e);
    } else if e.Connect? {
      FreshOwnsNothing(st, e.c);
      assert after.client.issued[..0] == [];
    } else if e.Add? || e.Remove? {
      if Active(st) {
        assert after.client.issued[..after.handled] == st.client.issued[..st.handled];
      }
    }
  }

  lemma SideStep(st: Sys, e: Event)
    requires Inv(st) && Enabled(st, e)
    ensures Takeovers.Inv(Apply(st, e).side)
    ensures Apply(st, e).client.conn.Some? ==> Apply(st, e).client.conn.value in Apply(st, e).side.used
  {
    if e.RouterReads? {
      MoveKeepsInv(st.side, NextRead(st).value);
    } else if e.RouterMoves? {
      MoveKeepsInv(st.side, e.e);
    } else if e.Connect? {
      OpenKeepsInv(st.side, e.c);
    }
  }

  lemma {:induction false} Reachable(id: InstanceId, events: seq<Event>)
    ensures Inv(Exec(id, events))
  {
    if events == [] {
    } else {
      var st, e := Exec(id, events[..|events| - 1]), events[|events| - 1];
      Reachable(id, events[..|events| - 1]);
      if Enabled(st, e) {
        ClientStep(st, e);
        RouterStep(st, e);
        SideStep(st, e);
      }
    }
  }

  // ----- What every run guarantees -----

  /** Across any mix of updates, losses, restarts and reconnects, the commands on the current connection say
      exactly what `local_bindings` says. */
  lemma CommandsRebuildBindings(id: InstanceId, events: seq<Event>)
    requires Exec(id, events).client.conn.Some?
    ensures Replay(Exec(id, events).client.issued) == Exec(id, events).client.bindings
  {
    Reachable(id, events);
  }

  /** Once the router has read everything, this client owns exactly its bindings, less the names whose latest
      bind met another owner; so it owns them all if and only if there is no such name. */
  lemma DrainedOwnership(id: InstanceId, events: seq<Event>)
    requires Active(Exec(id, events)) && Exec(id, events).handled == |Exec(id, events).client.issued|
    ensures var st := Exec(id, events);
            var owned := Owned(st.side.router.endpoints, st.client.conn.value);
            && st.refused.Keys <= st.client.bindings
            && owned == st.client.bindings - st.refused.Keys
            && (owned == st.client.bindings <==> st.refused == map[])
  {
    Reachable(id, events);
    var st := Exec(id, events);
    assert st.client.issued[..st.handled] == st.client.issued;
    if st.refused != map[] {
      assert st.refused.Keys != {};
      var s :| s in st.refused.Keys;
      assert s in st.client.bindings && s !in Owned(st.side.router.endpoints, st.client.conn.value);
    }
  }

  // ----- Reconnecting -----

  /** A step that ends a takeover of the client without the predecessor being cleaned up. */
  predicate TakeoverFails(st: Sys, e: Event) {
    e.RouterMoves? && Enabled(st, e) && Unacknowledged(st.side, e.e)
  }

  ghost predicate AllAcknowledged(id: InstanceId, events: seq<Event>) {
    forall n :: 0 <= n < |events| ==> !TakeoverFails(Exec(id, events[..n]), events[n])
  }

  /** The owner that keeps a bound name from the client is some other client's connection. */
  ghost predicate ForeignRefusals(st: Sys) {
    forall s :: s in st.refused ==> st.refused[s] in st.side.router.conns && st.refused[s] !in st.side.used
  }

  lemma OwnerIsForeign(st: Sys, x: LC.Event)
    requires Inv(st) && Chain(st.side) && NextRead(st) == Some(x) && Possible(st.side, x)
    requires x.RegisterLock? && x.s in st.side.router.endpoints && st.side.router.endpoints[x.s] != x.c
    ensures st.side.router.endpoints[x.s] in st.side.router.conns && st.side.router.endpoints[x.s] !in st.side.used
  {
    var u := st.side.router.endpoints[x.s];
    assert LC.Owns(st.side.router, u, x.s);
    if u in st.side.used {
      OnlyTheActiveOneOwns(st.side, x.c, u, x.s);
    }
  }

  lemma ReadRefusesForForeigners(st: Sys)
    requires Inv(st) && Chain(st.side) && ForeignRefusals(st) && Enabled(st, RouterReads)
    ensures ForeignRefusals(Apply(st, RouterReads))
  {
    var x, t, after := NextRead(st).value, st.side.router.endpoints, Apply(st, RouterReads);
    KeysGrow(st.side.router, x);
    if x.RegisterLock? && x.s in t && t[x.s] != x.c {
      OwnerIsForeign(st, x);
    }
  }

  lemma AcknowledgedStep(st: Sys, e: Event)
    requires Inv(st) && Chain(st.side) && ForeignRefusals(st) && Enabled(st, e) && !TakeoverFails(st, e)
    ensures Chain(Apply(st, e).side) && ForeignRefusals(Apply(st, e))
  {
    if e.RouterReads? {
      MoveKeepsChain(st.side, NextRead(st).value);
      ReadRefusesForForeigners(st);
    } else if e.RouterMoves? {
      MoveKeepsChain(st.side, e.e);
      KeysGrow(st.side.router, e.e);
    } else if e.Connect? {
      OpenKeepsChain(st.side, e.c);
    }
  }

  lemma {:induction false} AcknowledgedRun(id: InstanceId, events: seq<Event>)
    requires AllAcknowledged(id, events)
    ensures Chain(Exec(id, events).side) && ForeignRefusals(Exec(id, events))
  {
    if events == [] {
    } else {
      var init := events[..|events| - 1];
      forall n | 0 <= n < |init| ensures !TakeoverFails(Exec(id, init[..n]), init[n]) {
        assert init[..n] == events[..n];
      }
      AcknowledgedRun(id, init);
      Reachable(id, init);
      if Enabled(Exec(id, init), events[|init|]) {
        AcknowledgedStep(Exec(id, init), events[|init|]);
      }
    }
  }

  /** If every takeover was acknowledged, a name is refused to the client only because of another client: its
      own earlier connections, lingering or not, are never in the way. */
  lemma RefusalsAreForeign(id: InstanceId, events: seq<Event>, s: string)
    requires AllAcknowledged(id, events) && s in Exec(id, events).refused
    ensures Exec(id, events).refused[s] !in Exec(id, events).side.used
  {
    AcknowledgedRun(id, events);
  }

  /** A bind read while another client holds the name. */
  predicate Clashes(st: Sys, e: Event) {
    && e.RouterReads? && Enabled(st, e) && NextRead(st).value.RegisterLock?
    && var s, t := NextRead(st).value.s, st.side.router.endpoints; s in t && t[s] !in st.side.used
  }

  lemma NoClashStep(st: Sys, e: Event)
    requires Inv(st) && Chain(st.side) && st.refused == map[] && !Clashes(st, e)
    ensures Step(st, e).refused == map[]
  {
    if e.RouterReads? && Enabled(st, e) {
      var x, t := NextRead(st).value, st.side.router.endpoints;
      if x.RegisterLock? && x.s in t && t[x.s] != x.c {
        OwnerIsForeign(st, x);
      }
    }
  }

  lemma {:induction false} NoClashNoRefusal(id: InstanceId, events: seq<Event>)
    requires AllAcknowledged(id, events)
    requires forall n :: 0 <= n < |events| ==> !Clashes(Exec(id, events[..n]), events[n])
    ensures Exec(id, events).refused == map[]
  {
    if events == [] {
    } else {
      var init := events[..|events| - 1];
      forall n | 0 <= n < |init|
        ensures !Clashes(Exec(id, init[..n]), init[n]) && !TakeoverFails(Exec(id, init[..n]), init[n])
      {
        assert init[..n] == events[..n];
      }
      NoClashNoRefusal(id, init);
      AcknowledgedRun(id, init);
      Reachable(id, init);
      NoClashStep(Exec(id, init), events[|init|]);
    }
  }

  lemma CurrentOwnsBindings(id: InstanceId, events: seq<Event>)
    requires AllAcknowledged(id, events)
    requires forall n :: 0 <= n < |events| ==> !Clashes(Exec(id, events[..n]), events[n])
    requires Active(Exec(id, events)) && Exec(id, events).handled == |Exec(id, events).client.issued|
    ensures var st := Exec(id, events);
            Owned(st.side.router.endpoints, st.client.conn.value) == st.client.bindings
  {
    NoClashNoRefusal(id, events);
    DrainedOwnership(id, events);
  }

  /** The router has read everything on the current connection, and its Hello is through. */
  predicate Drained(st: Sys) {
    && Active(st) && NextRead(st).None?
    && !st.side.router.conns[st.client.conn.value].phase.AwaitingDrop?
  }

  /** After any number of losses, restarts and reconnects: if every takeover was acknowledged and no other
      client held a name when it was bound, then once the router has read everything the names it gives to the
      client, on the current connection or on any earlier one, are exactly the bindings. */
  lemma ReconnectRegainsBindings(id: InstanceId, events: seq<Event>, s: string)
    requires AllAcknowledged(id, events) && Drained(Exec(id, events))
    requires forall n :: 0 <= n < |events| ==> !Clashes(Exec(id, events[..n]), events[n])
    ensures var st := Exec(id, events);
            && (LC.Owns(st.side.router, st.client.conn.value, s) <==> s in st.client.bindings)
            && ((exists c :: c in st.side.used && LC.Owns(st.side.router, c, s)) <==> s in st.client.bindings)
  {
    var st := Exec(id, events);
    Reachable(id, events);
    AcknowledgedRun(id, events);
    CurrentOwnsBindings(id, events);
    var me := st.client.conn.value;
    assert LC.Owns(st.side.router, me, s) <==> s in Owned(st.side.router.endpoints, me);
    forall c | c in st.side.used && c != me ensures !LC.Owns(st.side.router, c, s) {
      OnlyTheActiveOneOwns(st.side, me, c, s);
    }
  }

  /** The failing family, from any state: the predecessor still owns the next name to be bound, and the drop
      fails; the bind is refused because of the client's own earlier connection. */
  lemma FailedTakeoverRefusesOwnName(st: Sys, older: ConnId, s: string)
    requires Inv(st) && Active(st) && older in st.side.used && LC.Owns(st.side.router, older, s)
    requires st.handled < |st.client.issued| && st.client.issued[st.handled] == Bind(s)
    requires var k := st.side.router.conns[st.client.conn.value]; k.phase == LC.AwaitingDrop(older) && k.instance.Some?
    requires !st.side.router.conns[older].cleaned
    ensures var failed := RouterMoves(LC.DropFailed(st.client.conn.value));
            var after := Step(Step(st, failed), RouterReads);
            && TakeoverFails(st, failed)
            && s in after.refused && after.refused[s] == older && older in after.side.used
  {
    var c := st.client.conn.value;
    assert UsedConn(st.side.router.conns[c], st.side.id);
    var mid := Step(st, RouterMoves(LC.DropFailed(c)));
    assert LC.Claims(st.side.router.conns[older], s);
    assert older != c;
    assert NextRead(mid) == Some(LC.RegisterLock(c, s));
  }

  lemma ExecOne(id: InstanceId, events: seq<Event>, e: Event)
    ensures Exec(id, events + [e]) == Step(Exec(id, events), e)
  {
    assert (events + [e])[..|events|] == events;
  }

  const FRESH := LC.Conn(true, true, {}, None, None, LC.Idle, false)

  /** A client connects and says its Hello. */
  lemma Greeted(id: InstanceId)
    ensures var st := Exec(id, [Connect(0, []), RouterReads]);
            && st.client == IDLE_CLIENT.(conn := Some(0)) && st.handled == 0 && st.refused == map[]
            && st.side.used == {0} && st.side.greeted == [0] && st.side.id == id
            && st.side.router == LC.EMPTY.(conns := map[0 := FRESH.(instance := Some(id))], instances := map[id := 0])
  {
    ExecOne(id, [], Connect(0, []));
    assert [] + [Connect(0, [])] == [Connect(0, [])];
    ExecOne(id, [Connect(0, [])], RouterReads);
    assert [Connect(0, [])] + [RouterReads] == [Connect(0, []), RouterReads];
    var st := Exec(id, [Connect(0, [])]);
    assert st.side.router == LC.EMPTY.(conns := map[0 := FRESH]);
    assert NextRead(st) == Some(LC.Hello(0, id));
  }

  /** It binds a name, and the router begins to register it. */
  lemma OneName(id: InstanceId, s: string)
    ensures var st := Exec(id, [Connect(0, []), RouterReads, Add(s), RouterReads]);
            && st.client == Client({s}, Some(0), [Bind(s)], [], 0, map[]) && st.refused == map[]
            && st.side.used == {0} && st.side.greeted == [0] && st.side.id == id
            && st.side.router == LC.EMPTY.(endpoints := map[s := 0], instances := map[id := 0],
                 conns := map[0 := FRESH.(instance := Some(id), phase := LC.Registering(s, true))])
  {
    var first := [Connect(0, []), RouterReads];
    Greeted(id);
    ExecOne(id, first, Add(s));
    ExecOne(id, first + [Add(s)], RouterReads);
    assert first + [Add(s)] + [RouterReads] == [Connect(0, []), RouterReads, Add(s), RouterReads];
    var st := Exec(id, first + [Add(s)]);
    assert st.client == Client({s}, Some(0), [Bind(s)], [], 0, map[]);
    assert NextRead(st) == Some(LC.RegisterLock(0, s));
  }

  /** It reconnects before that is over, and its new Hello waits for the old connection. */
  lemma Waiting(id: InstanceId, s: string)
    ensures var st := Exec(id, [Connect(0, []), RouterReads, Add(s), RouterReads, Restart, Connect(1, [s]), RouterReads]);
            && Active(st) && 0 in st.side.used && LC.Owns(st.side.router, 0, s)
            && st.client.conn == Some(1) && st.client.issued == [Bind(s)] && st.handled == 0
            && st.side.router.conns[1].phase == LC.AwaitingDrop(0) && st.side.router.conns[1].instance.Some?
            && 0 in st.side.router.conns && !st.side.router.conns[0].cleaned
            && (1, 0) in st.side.router.drops && st.side.router.conns[0].running && st.side.router.conns[0].connected
            && st.side.router.conns[0].phase == LC.Registering(s, true)
  {
    var first := [Connect(0, []), RouterReads, Add(s), RouterReads, Restart, Connect(1, [s])];
    Reconnected(id, s);
    ExecOne(id, first, RouterReads);
    assert first + [RouterReads] == [Connect(0, []), RouterReads, Add(s), RouterReads, Restart, Connect(1, [s]), RouterReads];
    SecondHello(Exec(id, first), id, s);
  }

  /** The second connection is up and has said nothing yet. */
  ghost predicate TwoConnections(st: Sys, id: InstanceId, s: string) {
    && st.client.conn == Some(1) && st.client.issued == [Bind(s)] && st.handled == 0
    && st.side.used == {0, 1} && st.side.greeted == [0] && st.side.id == id
    && st.side.router == LC.EMPTY.(endpoints := map[s := 0], instances := map[id := 0],
         conns := map[0 := FRESH.(instance := Some(id), phase := LC.Registering(s, true)), 1 := FRESH])
  }

  lemma Reconnect(st: Sys, id: InstanceId, s: string)
    requires st.client.bindings == {s} && st.side.used == {0} && st.side.greeted == [0] && st.side.id == id
    requires st.side.router == LC.EMPTY.(endpoints := map[s := 0], instances := map[id := 0],
               conns := map[0 := FRESH.(instance := Some(id), phase := LC.Registering(s, true))])
    ensures TwoConnections(Step(Step(st, Restart), Connect(1, [s])), id, s)
  {
    assert IsOrderOf([s], {s}) && Binds([s]) == [Bind(s)];
  }

  lemma Reconnected(id: InstanceId, s: string)
    ensures TwoConnections(Exec(id, [Connect(0, []), RouterReads, Add(s), RouterReads, Restart, Connect(1, [s])]), id, s)
  {
    var first := [Connect(0, []), RouterReads, Add(s), RouterReads];
    OneName(id, s);
    ExecOne(id, first, Restart);
    ExecOne(id, first + [Restart], Connect(1, [s]));
    assert first + [Restart] + [Connect(1, [s])] ==
           [Connect(0, []), RouterReads, Add(s), RouterReads, Restart, Connect(1, [s])];
    Reconnect(Exec(id, first), id, s);
  }

  lemma SecondHello(st: Sys, id: InstanceId, s: string)
    requires TwoConnections(st, id, s)
    ensures var after := Step(st, RouterReads);
            && after.client == st.client && after.handled == 0 && after.side.used == st.side.used
            && after.side.router.endpoints == st.side.router.endpoints && (1, 0) in after.side.router.drops
            && after.side.router.conns == st.side.router.conns[1 := FRESH.(instance := Some(id), phase := LC.AwaitingDrop(0))]
  {
    assert NextRead(st) == Some(LC.Hello(1, id));
  }

  /** A run of nine steps, with no other client in it, in which the failing family is met. */
  lemma OwnNameRefused(id: InstanceId, s: string)
    ensures var st := Exec(id, [Connect(0, []), RouterReads, Add(s), RouterReads, Restart, Connect(1, [s]), RouterReads]
                               + [RouterMoves(LC.DropFailed(1))] + [RouterReads]);
            s in st.refused && st.refused[s] == 0 && 0 in st.side.used
  {
    var first := [Connect(0, []), RouterReads, Add(s), RouterReads, Restart, Connect(1, [s]), RouterReads];
    Reachable(id, first);
    Waiting(id, s);
    ExecOne(id, first, RouterMoves(LC.DropFailed(1)));
    ExecOne(id, first + [RouterMoves(LC.DropFailed(1))], RouterReads);
    FailedTakeoverRefusesOwnName(Exec(id, first), 0, s);
  }

  /** The same client, if its old connection acknowledges the drop instead: the name is its own again. */
  lemma OwnNameRegained(id: InstanceId, s: string)
    ensures var st := Exec(id, [Connect(0, []), RouterReads, Add(s), RouterReads, Restart, Connect(1, [s]), RouterReads]
                               + [RouterMoves(LC.RegisterEnd(0))] + [RouterMoves(LC.HandleDrop(1, 0))] + [RouterReads]);
            LC.Owns(st.side.router, 1, s)
  {
    var first := [Connect(0, []), RouterReads, Add(s), RouterReads, Restart, Connect(1, [s]), RouterReads];
    var second := first + [RouterMoves(LC.RegisterEnd(0))];
    Waiting(id, s);
    ExecOne(id, first, RouterMoves(LC.RegisterEnd(0)));
    RegistrationEnds(Exec(id, first), s);
    Reachable(id, second);
    ExecOne(id, second, RouterMoves(LC.HandleDrop(1, 0)));
    ExecOne(id, second + [RouterMoves(LC.HandleDrop(1, 0))], RouterReads);
    AcknowledgedTakeoverRegainsName(Exec(id, second), 0, s);
  }

  /** The first connection finishes its registration while the second one waits for it. */
  lemma RegistrationEnds(st: Sys, s: string)
    requires Active(st) && st.client.conn == Some(1) && st.client.issued == [Bind(s)] && st.handled == 0
    requires 0 in st.side.used && 0 in st.side.router.conns && LC.Owns(st.side.router, 0, s)
    requires st.side.router.conns[0].phase == LC.Registering(s, true) && st.side.router.conns[0].running
    requires (1, 0) in st.side.router.drops
    ensures var after := Step(st, RouterMoves(LC.RegisterEnd(0)));
            && after.client == st.client && after.handled == 0 && after.side.used == st.side.used
            && after.side.router.endpoints == st.side.router.endpoints
            && Active(after) && after.side.router.conns[1] == st.side.router.conns[1]
            && LC.Enabled(after.side.router, LC.HandleDrop(1, 0))
  {
    assert Possible(st.side, LC.RegisterEnd(0));
  }

  lemma DropFreesNames(r: LC.Sys, c: ConnId, older: ConnId, s: string)
    requires LC.Inv(r) && LC.Enabled(r, LC.HandleDrop(c, older)) && LC.Owns(r, older, s)
    requires c in r.conns && r.conns[c].phase == LC.AwaitingDrop(older)
    ensures var after := LC.Apply(r, LC.HandleDrop(c, older));
            && (forall name :: !LC.Owns(after, older, name)) && s !in after.endpoints
            && c in after.conns && after.conns[c] == r.conns[c].(phase := LC.Idle)
  {
    assert LC.Claims(r.conns[older], s) && LC.DropInv(r.conns, c, older) && LC.ConnInv(r.conns[older]);
    LC.CleanupKeepsInv(r, older);
    var done := LC.Stop(LC.Cleanup(r, older), older);
    assert done.conns[c] == r.conns[c];
  }

  /** Its counterpart: the predecessor acknowledges the drop, and the name it held is bound. */
  lemma AcknowledgedTakeoverRegainsName(st: Sys, older: ConnId, s: string)
    requires Inv(st) && Active(st) && older in st.side.used && LC.Owns(st.side.router, older, s)
    requires st.handled < |st.client.issued| && st.client.issued[st.handled] == Bind(s)
    requires var k := st.side.router.conns[st.client.conn.value]; k.phase == LC.AwaitingDrop(older) && k.instance.Some?
    requires LC.Enabled(st.side.router, LC.HandleDrop(st.client.conn.value, older))
    ensures var c := st.client.conn.value;
            var mid := Step(st, RouterMoves(LC.HandleDrop(c, older)));
            (forall name :: !LC.Owns(mid.side.router, older, name)) && LC.Owns(Step(mid, RouterReads).side.router, c, s)
  {
    var c := st.client.conn.value;
    DropFreesNames(st.side.router, c, older, s);
    var mid := Step(st, RouterMoves(LC.HandleDrop(c, older)));
    FreeNameIsBound(mid, c, s);
  }

  lemma FreeNameIsBound(st: Sys, c: ConnId, s: string)
    requires Active(st) && st.client.conn.value == c && c in st.side.used && s !in st.side.router.endpoints
    requires st.handled < |st.client.issued| && st.client.issued[st.handled] == Bind(s)
    requires var k := st.side.router.conns[c]; k.phase.Idle? && k.instance.Some?
    ensures LC.Owns(Step(st, RouterReads).side.router, c, s)
  {
    assert NextRead(st) == Some(LC.RegisterLock(c, s));
    assert Possible(st.side, LC.RegisterLock(c, s));
  }

  // ----- Requests for a connection -----

  /** Every call for a connection has been answered or is waiting, never both, and none waits while there is
      a connection. */
  lemma CallsAreAnsweredOrWaiting(id: InstanceId, events: seq<Event>)
    ensures var cl := Exec(id, events).client;
            && (forall i: nat :: i < cl.calls ==> (i in cl.got <==> i !in cl.pending))
            && (cl.conn.Some? ==> forall i: nat :: i < cl.calls ==> i in cl.got)
  {
    Reachable(id, events);
  }

  lemma CallAnswer(st: Sys, e: Event, i: nat)
    requires CallInv(st.client) && i in Step(st, e).client.got
    ensures Step(st, e).client.got[i] == if i in st.client.got then st.client.got[i] else Step(st, e).client.conn
    ensures i !in st.client.got ==> e.Call? || e.Connect? || e.ConnectTimeout?
    ensures i !in st.client.got && Step(st, e).client.got[i].None? ==> e.ConnectTimeout?
  {
    if e.Connect? {
      AnswerMeaning(st.client.got, st.client.pending, Some(e.c));
    } else if e.ConnectTimeout? {
      AnswerMeaning(st.client.got, st.client.pending, None);
    }
  }

  /** A call is answered once, with the connection that is current at that moment, or with the timeout error
      if there is none; no later step changes the answer. */
  lemma CallsGetTheCurrentConnection(id: InstanceId, events: seq<Event>, e: Event, i: nat)
    requires i in Exec(id, events + [e]).client.got
    ensures var before, after := Exec(id, events).client, Exec(id, events + [e]).client;
            after.got[i] == if i in before.got then before.got[i] else after.conn
    ensures i !in Exec(id, events).client.got ==> e.Call? || e.Connect? || e.ConnectTimeout?
    ensures i !in Exec(id, events).client.got && Exec(id, events + [e]).client.got[i].None? ==> e.ConnectTimeout?
  {
    assert (events + [e])[..|events|] == events;
    Reachable(id, events);
    CallAnswer(Exec(id, events), e, i);
  }

  /** Asking without a connection waits, with one it is answered at once. */
  lemma AskingWaits(id: InstanceId, events: seq<Event>)
    ensures var before, after := Exec(id, events).client, Exec(id, events + [Call]).client;
            && after.calls == before.calls + 1 && after.conn == before.conn
            && (before.conn.None? ==> after.pending == before.pending + [before.calls] && before.calls !in after.got)
            && (before.conn.Some? ==> before.calls in after.got && after.got[before.calls] == before.conn)
  {
    ExecOne(id, events, Call);
    Reachable(id, events);
  }

  /** A transport that comes up answers everybody who waits with the new connection; a timeout answers everybody
      with the error. Nobody is left waiting. */
  lemma WaitersAreReleased(id: InstanceId, events: seq<Event>, c: ConnId, order: seq<string>, i: nat)
    requires i in Exec(id, events).client.pending
    ensures Enabled(Exec(id, events), Connect(c, order)) ==>
              var after := Exec(id, events + [Connect(c, order)]).client;
              after.pending == [] && after.conn == Some(c) && i in after.got && after.got[i] == Some(c)
    ensures Enabled(Exec(id, events), ConnectTimeout) ==>
              var after := Exec(id, events + [ConnectTimeout]).client;
              after.pending == [] && after.conn == None && i in after.got && after.got[i] == None
  {
    var cl := Exec(id, events).client;
    ExecOne(id, events, Connect(c, order));
    ExecOne(id, events, ConnectTimeout);
    AnswerMeaning(cl.got, cl.pending, Some(c));
    AnswerMeaning(cl.got, cl.pending, None);
  }

  /** One request made before there is a connection gets the first one there is. */
  lemma EarlyCallGetsTheConnection(id: InstanceId, c: ConnId)
    ensures var got := Exec(id, [Call, Connect(c, [])]).client.got; 0 in got && got[0] == Some(c)
  {
    AskingWaits(id, []);
    assert [] + [Call] == [Call] && [Call] + [Connect(c, [])] == [Call, Connect(c, [])];
    ExecOne(id, [], Call);
    assert Enabled(Exec(id, [Call]), Connect(c, []));
    WaitersAreReleased(id, [Call], c, [], 0);
  }

  // ----- RemoteRouter in place -----

  lemma OrderSnoc(order: seq<string>, names: set<string>, s: string)
    requires IsOrderOf(order, names) && s !in names
    ensures IsOrderOf(order + [s], names + {s})
    ensures Binds(order + [s]) == Binds(order) + [Bind(s)]
  {
    assert |names + {s}| == |names| + 1;
  }

  class RemoteRouter {
    var bindings: set<string>
    var conn: Option<ConnId>
    var issued: seq<Command>
    var pending: seq<nat>
    var calls: nat
    var got: map<nat, Option<ConnId>>

    constructor ()
      ensures Represents(IDLE_CLIENT)
    {
      bindings, conn, issued, pending, calls, got := {}, None, [], [], 0, map[];
    }

    ghost predicate Represents(cl: Client)
      reads this
    {
      && bindings == cl.bindings && conn == cl.conn && issued == cl.issued
      && pending == cl.pending && calls == cl.calls && got == cl.got
    }

    method HandleUpdate(ghost cl: Client, cmd: Command)
      requires Represents(cl)
      modifies this
      ensures Represents(Update(cl, cmd))
      ensures bindings == if cmd.Bind? then old(bindings) + {cmd.service} else old(bindings) - {cmd.service}
      ensures issued == if conn.Some? then old(issued) + [cmd] else old(issued)
    {
      if conn.Some? {
        issued := issued + [cmd];
      }
      match cmd {
        case Bind(s) => bindings := bindings + {s};
        case Unbind(s) => bindings := bindings - {s};
      }
    }

    method CleanPendingCalls(a: Option<ConnId>)
      modifies this`pending, this`got
      ensures pending == [] && got == Answer(old(got), old(pending), a)
      ensures forall i: nat :: i in got <==> i in old(got) || i in old(pending)
      ensures forall i: nat :: i in got ==> got[i] == if i in old(pending) then a else old(got)[i]
    {
      AnswerMeaning(got, pending, a);
      var taken := pending;
      pending := [];
      while taken != []
        invariant pending == []
        invariant Answer(got, taken, a) == Answer(old(got), old(pending), a)
      {
        got := got[taken[0] := a];
        taken := taken[1..];
      }
    }

    /** One bind per local service, in the order the set happens to be iterated. */
    method BindAll() returns (order: seq<string>)
      modifies this`issued
      ensures IsOrderOf(order, bindings) && issued == Binds(order)
    {
      order, issued := [], [];
      var todo := bindings;
      ghost var bound: set<string> := {};
      while todo != {}
        invariant todo !! bound && todo + bound == bindings && IsOrderOf(order, bound)
        invariant issued == Binds(order)
        decreases todo
      {
        var s :| s in todo;
        OrderSnoc(order, bound, s);
        issued := issued + [Bind(s)];
        order := order + [s];
        todo, bound := todo - {s}, bound + {s};
      }
    }

    /** The transport is up: release the waiting calls, then bind every local service again. */
    method OnTransport(ghost cl: Client, c: ConnId) returns (order: seq<string>)
      requires Represents(cl) && conn.None?
      modifies this
      ensures IsOrderOf(order, bindings) && Represents(Connected(cl, c, order))
      ensures conn == Some(c) && pending == [] && bindings == old(bindings) && issued == Binds(order)
      ensures forall i: nat :: i in old(pending) ==> i in got && got[i] == Some(c)
    {
      conn := Some(c);
      CleanPendingCalls(Some(c));
      order := BindAll();
    }

    method Restarting(ghost cl: Client)
      requires Represents(cl)
      modifies this`conn
      ensures Represents(Forget(cl))
      ensures conn == None
    {
      conn := None;
    }

    method Connection(ghost cl: Client) returns (now: Option<ConnId>)
      requires Represents(cl)
      modifies this
      ensures Represents(AskConnection(cl)) && now == conn
      ensures calls == old(calls) + 1 && conn == old(conn)
      ensures conn.None? ==> pending == old(pending) + [old(calls)] && got == old(got)
      ensures conn.Some? ==> pending == old(pending) && got == old(got)[old(calls) := conn]
    {
      now := conn;
      if conn.Some? {
        got := got[calls := conn];
      } else {
        pending := pending + [calls];
      }
      calls := calls + 1;
    }
  }
}

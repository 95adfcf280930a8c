/**
 * Connection lifecycle against the shared tables: crates/router/src/connection.rs.
 *
 * Every acquisition of the router lock is one step; what a handler does privately between two
 * acquisitions is attached to the later one. Between the two halves of a register or unregister
 * any other connection may move. A step that is not enabled leaves the state as it is, so a run
 * is any sequence of steps.
 */
module Lifecycle {
  import opened Common
  import opened NodeId
  import opened RouterTables

  datatype Phase =
    | Idle
    | Registering(service: string, ok: bool)    // table updated, `services` not yet
    | Unregistering(service: string, ok: bool)
    | AwaitingDrop(older: ConnId)               // Hello handled, reader blocked on the acknowledgement

  datatype Conn = Conn(
    connected: bool,                // Addr::connected
    running: bool,                  // false once ctx.stop() was called
    services: set<string>,
    instance: Option<InstanceId>,
    defaultId: Option<string>,
    phase: Phase,
    cleaned: bool)                  // the body of cleanup has run

  datatype Sys = Sys(
    endpoints: Table,
    instances: map<InstanceId, ConnId>,
    conns: map<ConnId, Conn>,
    drops: set<(ConnId, ConnId)>,   // DropConnection messages: (newcomer, addressee)
    log: seq<NodeEvent>)

  datatype Event =
    | Accept(c: ConnId)
    | RegisterLock(c: ConnId, s: string)
    | RegisterEnd(c: ConnId)
    | UnregisterLock(c: ConnId, s: string)
    | UnregisterEnd(c: ConnId)
    | Hello(c: ConnId, i: InstanceId)
    | HandleDrop(newcomer: ConnId, c: ConnId)
    | DropFailed(c: ConnId)         // timeout or closed mailbox, seen by the newcomer
    | StopCtx(c: ConnId)
    | StoppedHook(c: ConnId)
    | LoseLink(c: ConnId)

  // ----- Steps -----

  predicate Busy(p: Phase) { p.Registering? || p.Unregistering? }

  function Live(conns: map<ConnId, Conn>): set<ConnId> {
    set c | c in conns && conns[c].connected
  }

  predicate Enabled(st: Sys, e: Event) {
    if e.Accept? then e.c !in st.conns
    else
      && e.c in st.conns
      && var k := st.conns[e.c];
         match e
         case RegisterLock(_, _) => k.running && k.phase.Idle?
         case RegisterEnd(_) => k.phase.Registering?
         case UnregisterLock(_, _) => k.running && k.phase.Idle?
         case UnregisterEnd(_) => k.phase.Unregistering?
         case Hello(_, _) => k.running && k.phase.Idle?
         case HandleDrop(n, c) => (n, c) in st.drops && k.running && !Busy(k.phase)
         case DropFailed(_) => k.phase.AwaitingDrop?
         case StopCtx(_) => k.running && !Busy(k.phase)
         case StoppedHook(_) => !k.running
         case LoseLink(_) => true
         case Accept(_) => false
  }

  function Cleanup(st: Sys, c: ConnId): Sys
    requires c in st.conns
  {
    var k := st.conns[c];
    if k.instance.None? then st
    else st.(
         endpoints := UnregisterAll(st.endpoints, k.services, c, Live(st.conns)),
         instances := RemoveInstance(st.instances, k.instance.value, c),
         log := if k.defaultId.Some? then st.log + [Lost(k.defaultId.value, c)] else st.log,
         conns := st.conns[c := k.(services := {}, instance := None, cleaned := true)])
  }

  function Stop(st: Sys, c: ConnId): Sys
    requires c in st.conns
  {
    st.(conns := st.conns[c := st.conns[c].(running := false)])
  }

  function FinishRegister(st: Sys, c: ConnId): Sys
    requires c in st.conns && st.conns[c].phase.Registering?
  {
    var k := st.conns[c];
    var s := k.phase.service;
    if !k.phase.ok then st.(conns := st.conns[c := k.(phase := Idle)])
    else
      var k1 := k.(phase := Idle, services := k.services + {s});
      if k.defaultId.None? && ParseNodeId(s).Some? then
        st.(conns := st.conns[c := k1.(defaultId := ParseNodeId(s))],
            log := st.log + [New(ParseNodeId(s).value, c)])
      else st.(conns := st.conns[c := k1])
  }

  function SayHello(st: Sys, c: ConnId, i: InstanceId): Sys
    requires c in st.conns
  {
    var k := st.conns[c];
    if k.instance.Some? then Stop(st, c)        // duplicate hello
    else if i in st.instances then
      var o := st.instances[i];
      st.(instances := st.instances[i := c], drops := st.drops + {(c, o)},
          conns := st.conns[c := k.(instance := Some(i), phase := AwaitingDrop(o))])
    else
      st.(instances := st.instances[i := c], conns := st.conns[c := k.(instance := Some(i))])
  }

  function Acknowledge(conns: map<ConnId, Conn>, n: ConnId, o: ConnId): map<ConnId, Conn> {
    if n in conns && conns[n].phase == AwaitingDrop(o) then conns[n := conns[n].(phase := Idle)] else conns
  }

  function Apply(st: Sys, e: Event): Sys
    requires Enabled(st, e)
  {
    match e
    case Accept(c) =>
      st.(conns := st.conns[c := Conn(true, true, {}, None, None, Idle, false)])
    case RegisterLock(c, s) =>
      var (t, ok) := Register(st.endpoints, s, c);
      st.(endpoints := t, conns := st.conns[c := st.conns[c].(phase := Registering(s, ok))])
    case RegisterEnd(c) => FinishRegister(st, c)
    case UnregisterLock(c, s) =>
      var (t, ok) := Unregister(st.endpoints, s, c, Live(st.conns));
      st.(endpoints := t, conns := st.conns[c := st.conns[c].(phase := Unregistering(s, ok))])
    case UnregisterEnd(c) =>
      var k := st.conns[c];
      st.(conns := st.conns[c := k.(phase := Idle,
          services := if k.phase.ok then k.services - {k.phase.service} else k.services)])
    case Hello(c, i) => SayHello(st, c, i)
    case HandleDrop(n, c) =>
      var done := Stop(Cleanup(st, c), c);
      done.(conns := Acknowledge(done.conns, n, c), drops := done.drops - {(n, c)})
    case DropFailed(c) =>
      st.(conns := st.conns[c := st.conns[c].(phase := Idle)])
    case StopCtx(c) => Stop(st, c)
    case StoppedHook(c) => Cleanup(st, c)
    case LoseLink(c) => st.(conns := st.conns[c := st.conns[c].(connected := false)])
  }

  function Step(st: Sys, e: Event): Sys {
    if Enabled(st, e) then Apply(st, e) else st
  }

  const EMPTY := Sys(map[], map[], map[], {}, [])

  function Exec(events: seq<Event>): Sys {
    if events == [] then EMPTY
    else Step(Exec(events[..|events| - 1]), events[|events| - 1])
  }

  // ----- Invariants -----

  ghost predicate Owns(st: Sys, c: ConnId, s: string) {
    s in st.endpoints && st.endpoints[s] == c
  }

  ghost predicate Claims(k: Conn, s: string) {
    s in k.services || k.phase == Registering(s, true)
  }

  /** A claim the table must honour. */
  ghost predicate Holds(k: Conn, s: string) {
    k.connected && Claims(k, s) && k.phase != Unregistering(s, true)
  }

  ghost predicate TableInv(st: Sys) {
    && (forall s :: s in st.endpoints ==> st.endpoints[s] in st.conns && Claims(st.conns[st.endpoints[s]], s))
    && (forall c, s :: c in st.conns && Holds(st.conns[c], s) ==> Owns(st, c, s))
    && (forall c, s :: c in st.conns && st.conns[c].phase == Unregistering(s, true) ==> !Owns(st, c, s))
  }

  ghost predicate ConnInv(k: Conn) {
    && (Busy(k.phase) ==> k.running)
    && (k.cleaned ==> !k.running && k.services == {} && k.instance.None?)
  }

  ghost predicate DropInv(conns: map<ConnId, Conn>, n: ConnId, o: ConnId) {
    n != o && o in conns && (conns[o].instance.Some? || conns[o].cleaned)
  }

  ghost predicate InstanceInv(st: Sys) {
    && (forall c :: c in st.conns ==> ConnInv(st.conns[c]))
    && (forall i :: i in st.instances ==>
          st.instances[i] in st.conns && st.conns[st.instances[i]].instance == Some(i))
    && (forall d :: d in st.drops ==> DropInv(st.conns, d.0, d.1))
  }

  ghost predicate Inv(st: Sys) { TableInv(st) && InstanceInv(st) }

  lemma CleanupKeepsInv(st: Sys, c: ConnId)
    requires Inv(st) && c in st.conns && !Busy(st.conns[c].phase)
    ensures TableInv(Cleanup(st, c))
    ensures st.conns[c].instance.Some? ==> forall s :: !Owns(Cleanup(st, c), c, s)
  {
    var after := Cleanup(st, c);
    if st.conns[c].instance.Some? {
      forall d, s | d in after.conns && Holds(after.conns[d], s)
        ensures Owns(after, d, s)
      {
        assert d != c && Owns(st, d, s) && d in Live(st.conns);
      }
    }
  }

  /** Changes that touch neither the endpoint table nor any half-done update. */
  lemma QuietKeepsTable(st: Sys, after: Sys)
    requires TableInv(st) && after.endpoints == st.endpoints && st.conns.Keys <= after.conns.Keys
    requires forall c :: c in after.conns && c !in st.conns ==>
      after.conns[c].services == {} && !Busy(after.conns[c].phase)
    requires forall c :: c in st.conns ==>
      && after.conns[c].services == st.conns[c].services
      && (after.conns[c].connected ==> st.conns[c].connected)
      && (after.conns[c].phase == st.conns[c].phase || (!Busy(after.conns[c].phase) && !Busy(st.conns[c].phase)))
    ensures TableInv(after)
  {
    forall c, s | c in after.conns && Holds(after.conns[c], s) ensures Owns(after, c, s) {
      assert Holds(st.conns[c], s);
    }
  }

  lemma RegisterKeepsTable(st: Sys, c: ConnId, s: string)
    requires Inv(st) && Enabled(st, RegisterLock(c, s))
    ensures TableInv(Apply(st, RegisterLock(c, s)))
  {
    var after := Apply(st, RegisterLock(c, s));
    forall d, x | d in after.conns && Holds(after.conns[d], x) ensures Owns(after, d, x) {
      assert (d == c && x == s && s !in st.endpoints) || Holds(st.conns[d], x);
    }
  }

  lemma UnregisterKeepsTable(st: Sys, c: ConnId, s: string)
    requires Inv(st) && Enabled(st, UnregisterLock(c, s))
    ensures TableInv(Apply(st, UnregisterLock(c, s)))
  {
    var after := Apply(st, UnregisterLock(c, s));
    forall d, x | d in after.conns && Holds(after.conns[d], x) ensures Owns(after, d, x) {
      assert Holds(st.conns[d], x) && d in Live(st.conns);
    }
  }

  /** Changes that leave the table and what everybody claims as they were. */
  lemma SameClaimsKeepTable(st: Sys, after: Sys)
    requires TableInv(st) && after.endpoints == st.endpoints && after.conns.Keys == st.conns.Keys
    requires forall c :: c in st.conns ==>
      && after.conns[c].connected == st.conns[c].connected
      && (after.conns[c].phase == st.conns[c].phase
          || (!after.conns[c].phase.Unregistering? && !st.conns[c].phase.Unregistering?))
      && forall s :: Claims(after.conns[c], s) <==> Claims(st.conns[c], s)
    ensures TableInv(after)
  {
    forall c, s | c in after.conns && Holds(after.conns[c], s) ensures Owns(after, c, s) {
      assert Holds(st.conns[c], s);
    }
  }

  lemma RegisterEndKeepsTable(st: Sys, c: ConnId)
    requires Inv(st) && Enabled(st, RegisterEnd(c))
    ensures TableInv(FinishRegister(st, c))
  {
    var k, after := st.conns[c], FinishRegister(st, c).conns[c];
    assert after.connected == k.connected && after.phase == Idle;
    assert after.services == if k.phase.ok then k.services + {k.phase.service} else k.services;
    assert FinishRegister(st, c).conns == st.conns[c := after];
    SameClaimsKeepTable(st, FinishRegister(st, c));
  }

  lemma UnregisterEndKeepsTable(st: Sys, c: ConnId)
    requires Inv(st) && Enabled(st, UnregisterEnd(c))
    ensures TableInv(Apply(st, UnregisterEnd(c)))
  {
    var after := Apply(st, UnregisterEnd(c));
    forall d, x | d in after.conns && Holds(after.conns[d], x) ensures Owns(after, d, x) {
      assert Holds(st.conns[d], x);
    }
  }

  lemma DropKeepsTable(st: Sys, n: ConnId, c: ConnId)
    requires Inv(st) && Enabled(st, HandleDrop(n, c))
    ensures TableInv(Apply(st, HandleDrop(n, c)))
  {
    CleanupKeepsInv(st, c);
    QuietKeepsTable(Cleanup(st, c), Apply(st, HandleDrop(n, c)));
  }

  lemma HelloKeepsTable(st: Sys, c: ConnId, i: InstanceId)
    requires Inv(st) && Enabled(st, Hello(c, i))
    ensures TableInv(SayHello(st, c, i))
  {
    var after := SayHello(st, c, i);
    assert forall d :: d in st.conns && d != c ==> after.conns[d] == st.conns[d];
    assert after.conns[c].services == st.conns[c].services && !Busy(after.conns[c].phase);
    QuietKeepsTable(st, after);
  }

  lemma QuietStepKeepsTable(st: Sys, e: Event)
    requires Inv(st) && Enabled(st, e) && (e.Accept? || e.DropFailed? || e.StopCtx? || e.LoseLink?)
    ensures TableInv(Apply(st, e))
  {
    QuietKeepsTable(st, Apply(st, e));
  }

  lemma StepKeepsTable(st: Sys, e: Event)
    requires Inv(st) && Enabled(st, e)
    ensures TableInv(Apply(st, e))
  {
    if e.RegisterLock? {
      RegisterKeepsTable(st, e.c, e.s);
    } else if e.UnregisterLock? {
      UnregisterKeepsTable(st, e.c, e.s);
    } else if e.RegisterEnd? {
      RegisterEndKeepsTable(st, e.c);
    } else if e.UnregisterEnd? {
      UnregisterEndKeepsTable(st, e.c);
    } else if e.HandleDrop? {
      DropKeepsTable(st, e.newcomer, e.c);
    } else if e.StoppedHook? {
      CleanupKeepsInv(st, e.c);
    } else if e.Hello? {
      HelloKeepsTable(st, e.c, e.i);
    } else {
      QuietStepKeepsTable(st, e);
    }
  }

  lemma CleanupKeepsInstances(st: Sys, c: ConnId)
    requires Inv(st) && c in st.conns && !Busy(st.conns[c].phase)
    ensures InstanceInv(Stop(Cleanup(st, c), c))
    ensures !st.conns[c].running ==> InstanceInv(Cleanup(st, c))
  {
  }

  lemma HelloKeepsInstances(st: Sys, c: ConnId, i: InstanceId)
    requires Inv(st) && Enabled(st, Hello(c, i))
    ensures InstanceInv(SayHello(st, c, i))
  {
  }

  /** Steps that change one connection and neither its instance nor the instance table. */
  lemma QuietKeepsInstances(st: Sys, after: Sys, c: ConnId)
    requires Inv(st) && c in st.conns && c in after.conns && after.conns == st.conns[c := after.conns[c]]
    requires after.instances == st.instances && after.drops == st.drops
    requires after.conns[c].instance == st.conns[c].instance && after.conns[c].cleaned == st.conns[c].cleaned
    requires ConnInv(after.conns[c])
    ensures InstanceInv(after)
  {
  }

  lemma RegistrationKeepsInstances(st: Sys, e: Event)
    requires Inv(st) && Enabled(st, e)
    requires e.RegisterLock? || e.RegisterEnd? || e.UnregisterLock? || e.UnregisterEnd?
    ensures InstanceInv(Apply(st, e))
  {
    QuietKeepsInstances(st, Apply(st, e), e.c);
  }

  lemma StepKeepsInstances(st: Sys, e: Event)
    requires Inv(st) && Enabled(st, e)
    ensures InstanceInv(Apply(st, e))
  {
    if e.Hello? {
      HelloKeepsInstances(st, e.c, e.i);
    } else if e.HandleDrop? || e.StoppedHook? {
      CleanupKeepsInstances(st, e.c);
    } else if e.RegisterLock? || e.RegisterEnd? || e.UnregisterLock? || e.UnregisterEnd? {
      RegistrationKeepsInstances(st, e);
    } else if !e.Accept? {
      QuietKeepsInstances(st, Apply(st, e), e.c);
    }
  }

  lemma {:induction false} Reachable(events: seq<Event>)
    ensures Inv(Exec(events))
  {
    if events == [] {
    } else {
      var st, e := Exec(events[..|events| - 1]), events[|events| - 1];
      Reachable(events[..|events| - 1]);
      if Enabled(st, e) {
        StepKeepsTable(st, e);
        StepKeepsInstances(st, e);
      }
    }
  }

  /** In every interleaving, a connected peer's private set and the shared table agree name by name,
      except for a name whose update is half done. */
  lemma ServicesAgreeWithTable(events: seq<Event>, c: ConnId, s: string)
    requires c in Exec(events).conns && Exec(events).conns[c].connected
    requires var p := Exec(events).conns[c].phase; Busy(p) ==> p.service != s
    ensures Owns(Exec(events), c, s) <==> s in Exec(events).conns[c].services
  {
    Reachable(events);
  }

  lemma ExecOne(events: seq<Event>, e: Event)
    ensures Exec(events + [e]) == Step(Exec(events), e)
  {
    assert (events + [e])[..|events|] == events;
  }

  lemma StepKeepsOwner(st: Sys, e: Event, c: ConnId, s: string)
    requires Owns(st, c, s) && c in Live(st.conns)
    requires e != UnregisterLock(c, s) && e != StoppedHook(c) && !(e.HandleDrop? && e.c == c)
    ensures Owns(Step(st, e), c, s)
  {
    if !Enabled(st, e) {
    } else if e.HandleDrop? || e.StoppedHook? {
      assert Owns(Cleanup(st, e.c), c, s);
    } else if e.RegisterEnd? || e.Hello? {
    } else {
    }
  }

  /** Only its own unregister, or its own cleanup, takes an endpoint from a connected peer. */
  lemma OwnerKeepsEndpoint(events: seq<Event>, e: Event, c: ConnId, s: string)
    requires Owns(Exec(events), c, s)
    requires c in Exec(events).conns ==> Exec(events).conns[c].connected
    requires e != UnregisterLock(c, s) && e != StoppedHook(c) && !(e.HandleDrop? && e.c == c)
    ensures Owns(Exec(events + [e]), c, s)
  {
    Reachable(events);
    ExecOne(events, e);
    StepKeepsOwner(Exec(events), e, c, s);
  }

  // ----- The end of a connection -----

  /** README.md:70 promises that a disconnected client's services are removed. The stop hook does so exactly
      for the clients that sent a Hello (and, trivially, for those that hold nothing). */
  lemma StopFreesEndpointsExactly(events: seq<Event>, c: ConnId)
    requires Enabled(Exec(events), StoppedHook(c))
    ensures var before, after := Exec(events), Exec(events + [StoppedHook(c)]);
            (forall s :: !Owns(after, c, s)) <==> before.conns[c].instance.Some? || (forall s :: !Owns(before, c, s))
  {
    assert (events + [StoppedHook(c)])[..|events|] == events;
    Reachable(events);
    CleanupKeepsInv(Exec(events), c);
    assert Exec(events + [StoppedHook(c)]) == Cleanup(Exec(events), c);
  }

  /** The failing family, from any state: a client that holds a name and has said no Hello goes away; its
      endpoint stays behind and the name is refused to everybody. */
  lemma NoHelloLeavesEndpoint(events: seq<Event>, c: ConnId, s: string)
    requires Owns(Exec(events), c, s) && Enabled(Exec(events), StopCtx(c)) && Exec(events).conns[c].instance.None?
    ensures var st := Exec(events + [StopCtx(c), StoppedHook(c), LoseLink(c)]);
            && c in st.conns && !st.conns[c].running && !st.conns[c].connected
            && Owns(st, c, s) && forall d :: !Register(st.endpoints, s, d).1
  {
    var st := Exec(events);
    ExecOne(events, StopCtx(c));
    ExecOne(events + [StopCtx(c)], StoppedHook(c));
    ExecOne(events + [StopCtx(c)] + [StoppedHook(c)], LoseLink(c));
    assert events + [StopCtx(c), StoppedHook(c), LoseLink(c)] == events + [StopCtx(c)] + [StoppedHook(c)] + [LoseLink(c)];
    StopUngreeted(st, c);
  }

  /** The stop hook of a connection without a Hello does nothing. */
  lemma StopUngreeted(st: Sys, c: ConnId)
    requires Enabled(st, StopCtx(c)) && st.conns[c].instance.None?
    ensures var stopped := Step(Step(st, StopCtx(c)), StoppedHook(c));
            stopped == Stop(st, c) && Step(stopped, LoseLink(c)).endpoints == st.endpoints
            && Step(stopped, LoseLink(c)).conns == st.conns[c := st.conns[c].(running := false, connected := false)]
  {
    assert Step(st, StopCtx(c)) == Stop(st, c);
    assert Step(Stop(st, c), StoppedHook(c)) == Stop(st, c);
  }

  /** The name left behind is not lost for good: anybody's unregister takes it off the table. */
  lemma StaleEndpointIsReleased(events: seq<Event>, c: ConnId, d: ConnId, s: string)
    requires Owns(Exec(events), c, s) && Enabled(Exec(events), StopCtx(c)) && Exec(events).conns[c].instance.None?
    ensures var st := Exec(events + [StopCtx(c), StoppedHook(c), LoseLink(c)]);
            Unregister(st.endpoints, s, d, Live(st.conns)) == (st.endpoints - {s}, true)
  {
    NoHelloLeavesEndpoint(events, c, s);
    var st := Exec(events + [StopCtx(c), StoppedHook(c), LoseLink(c)]);
    UnregisterExactly(st.endpoints, s, d, Live(st.conns));
  }

  /** Such a state is one registration away. */
  lemma UngreetedOwner(c: ConnId, s: string)
    ensures var st := Exec([Accept(c), RegisterLock(c, s), RegisterEnd(c)]);
            Owns(st, c, s) && Enabled(st, StopCtx(c)) && st.conns[c].instance.None?
  {
    var all := [Accept(c), RegisterLock(c, s), RegisterEnd(c)];
    Unfold(all, 1);
    Unfold(all, 2);
    Unfold(all, 3);
    assert all[..0] == [] && all[..3] == all;
    var k := Conn(true, true, {}, None, None, Idle, false);
    assert Exec(all[..1]) == EMPTY.(conns := map[c := k]);
    assert Exec(all[..2]) == EMPTY.(conns := map[c := k.(phase := Registering(s, true))], endpoints := map[s := c]);
  }

  lemma Unfold(events: seq<Event>, n: nat)
    requires 0 < n <= |events|
    ensures Exec(events[..n]) == Step(Exec(events[..n - 1]), events[n - 1])
  {
    assert events[..n][..n - 1] == events[..n - 1];
  }

  // ----- Registering -----

  /** The second half of a registration, in every run: the name joins the private set; the first net address
      announces its node id, exactly that one and exactly then. */
  lemma RegistrationAnnounces(events: seq<Event>, c: ConnId)
    requires Enabled(Exec(events), RegisterEnd(c))
    ensures var before, after := Exec(events), Exec(events + [RegisterEnd(c)]);
            var k, s := before.conns[c], before.conns[c].phase.service;
            && c in after.conns && after.conns[c].phase == Idle && after.endpoints == before.endpoints
            && after.conns[c].services == (if k.phase.ok then k.services + {s} else k.services)
            && (forall head, id, tail :: IsNetAddress(s, head, id, tail) ==>
                  (k.phase.ok && k.defaultId.None? ==>
                    after.conns[c].defaultId == Some(id) && after.log == before.log + [New(id, c)]))
            && (!k.phase.ok || k.defaultId.Some? || ParseNodeId(s).None? ==>
                  after.conns[c].defaultId == k.defaultId && after.log == before.log)
  {
    ExecOne(events, RegisterEnd(c));
    var s := Exec(events).conns[c].phase.service;
    forall head, id, tail | IsNetAddress(s, head, id, tail)
      ensures ParseNodeId(s) == Some(id)
    {
      NodeIdOfNetAddress(head, id, tail);
    }
  }

  predicate IsNetAddress(s: string, head: string, id: string, tail: string) {
    '/' !in head && '/' !in id && (tail == "" || tail[0] == '/') && s == head + "/net/" + id + tail
  }

  /** Losing the link, stopping and giving up on a drop change one connection, in one respect each. */
  lemma SmallSteps(events: seq<Event>, c: ConnId)
    requires c in Exec(events).conns
    ensures var st, k := Exec(events), Exec(events).conns[c];
            && Exec(events + [LoseLink(c)]) == st.(conns := st.conns[c := k.(connected := false)])
            && (k.running && !Busy(k.phase) ==>
                  Exec(events + [StopCtx(c)]) == st.(conns := st.conns[c := k.(running := false)]))
            && (k.phase.AwaitingDrop? ==>
                  Exec(events + [DropFailed(c)]) == st.(conns := st.conns[c := k.(phase := Idle)]))
  {
    ExecOne(events, LoseLink(c));
    ExecOne(events, StopCtx(c));
    ExecOne(events, DropFailed(c));
  }

  // ----- Takeover -----

  /** A first Hello under an instance id in use, in every run: the newcomer takes the entry, the holder is sent a
      DropConnection it can handle as soon as it is not midway through an update, and the newcomer waits. */
  lemma HelloAsksForDrop(events: seq<Event>, c: ConnId, i: InstanceId)
    requires Enabled(Exec(events), Hello(c, i))
    requires Exec(events).conns[c].instance.None? && i in Exec(events).instances
    ensures var before, after := Exec(events), Exec(events + [Hello(c, i)]);
            var o := before.instances[i];
            && (c, o) in after.drops && after.instances == before.instances[i := c] && after.endpoints == before.endpoints
            && c in after.conns && after.conns[c].phase == AwaitingDrop(o) && after.conns[c].instance == Some(i)
            && o in before.conns && o in after.conns && after.conns[o] == before.conns[o]
            && (before.conns[o].running && !Busy(before.conns[o].phase) ==> Enabled(after, HandleDrop(c, o)))
  {
    ExecOne(events, Hello(c, i));
    Reachable(events);
  }

  /** A Hello under a free id takes it and waits for nobody; a second Hello stops its connection and leaves the
      tables alone. */
  lemma OtherHellos(events: seq<Event>, c: ConnId, i: InstanceId)
    requires Enabled(Exec(events), Hello(c, i))
    ensures var before, after := Exec(events), Exec(events + [Hello(c, i)]);
            && c in after.conns
            && (before.conns[c].instance.None? && i !in before.instances ==>
                  && after.instances == before.instances[i := c] && after.drops == before.drops
                  && after.conns[c] == before.conns[c].(instance := Some(i)))
            && (before.conns[c].instance.Some? ==>
                  && after.instances == before.instances && after.drops == before.drops
                  && after.conns[c] == before.conns[c].(running := false))
  {
    ExecOne(events, Hello(c, i));
  }

  /** Handling the drop, in every run: the addressee is cleaned up and stopped, gives up every endpoint, and a
      newcomer waiting for it goes on. */
  lemma DropIsCarriedOut(events: seq<Event>, n: ConnId, o: ConnId)
    requires Enabled(Exec(events), HandleDrop(n, o))
    ensures var before, after := Exec(events), Exec(events + [HandleDrop(n, o)]);
            && o in after.conns && after.conns[o].cleaned && !after.conns[o].running && (n, o) !in after.drops
            && (forall s :: !Owns(after, o, s))
            && (n in before.conns && before.conns[n].phase == AwaitingDrop(o) ==>
                  n in after.conns && after.conns[n].phase == Idle)
  {
    ExecOne(events, HandleDrop(n, o));
    var st := Exec(events);
    Reachable(events);
    assert DropInv(st.conns, n, o) && ConnInv(st.conns[o]);
    CleanupKeepsInv(st, o);
    Reachable(events + [HandleDrop(n, o)]);
  }

  /** A takeover from beginning to end. */
  lemma TakeoverHappens(i: InstanceId)
    ensures var st := Exec([Accept(0), Hello(0, i), Accept(1), Hello(1, i), HandleDrop(1, 0)]);
            && 0 in st.conns && st.conns[0].cleaned && !st.conns[0].running
            && 1 in st.conns && st.conns[1].phase == Idle && st.conns[1].instance == Some(i)
            && st.instances == map[i := 1]
  {
    var s3 := [Accept(0), Hello(0, i), Accept(1)];
    var s4 := s3 + [Hello(1, i)];
    FirstHolder(i);
    HelloAsksForDrop(s3, 1, i);
    DropIsCarriedOut(s4, 1, 0);
    InstancesAfterDrop(s4, 1, 0);
    assert s4 + [HandleDrop(1, 0)] == [Accept(0), Hello(0, i), Accept(1), Hello(1, i), HandleDrop(1, 0)];
  }

  const NEWCOMER := Conn(true, true, {}, None, None, Idle, false)

  lemma FirstAccepted()
    ensures Exec([Accept(0)]) == EMPTY.(conns := map[0 := NEWCOMER])
  {
    ExecOne([], Accept(0));
    assert [] + [Accept(0)] == [Accept(0)];
  }

  lemma FirstGreeted(i: InstanceId)
    ensures Exec([Accept(0), Hello(0, i)]) ==
            EMPTY.(conns := map[0 := NEWCOMER.(instance := Some(i))], instances := map[i := 0])
  {
    FirstAccepted();
    ExecOne([Accept(0)], Hello(0, i));
    assert [Accept(0)] + [Hello(0, i)] == [Accept(0), Hello(0, i)];
  }

  lemma FirstHolder(i: InstanceId)
    ensures Exec([Accept(0), Hello(0, i), Accept(1)]) ==
            EMPTY.(conns := map[0 := NEWCOMER.(instance := Some(i)), 1 := NEWCOMER], instances := map[i := 0])
  {
    FirstGreeted(i);
    ExecOne([Accept(0), Hello(0, i)], Accept(1));
    assert [Accept(0), Hello(0, i)] + [Accept(1)] == [Accept(0), Hello(0, i), Accept(1)];
  }

  /** The drop leaves the instance entries of all others as they are. */
  lemma InstancesAfterDrop(events: seq<Event>, n: ConnId, o: ConnId)
    requires Enabled(Exec(events), HandleDrop(n, o)) && n in Exec(events).conns
    ensures var before, after := Exec(events), Exec(events + [HandleDrop(n, o)]);
            && after.instances == (map i | i in before.instances && before.instances[i] != o :: before.instances[i])
            && n in after.conns && after.conns[n].instance == before.conns[n].instance
  {
    ExecOne(events, HandleDrop(n, o));
    Reachable(events);
    assert DropInv(Exec(events).conns, n, o);
  }

  lemma StepKeepsCleaned(st: Sys, e: Event, c: ConnId)
    requires c in st.conns && st.conns[c].cleaned
    ensures c in Step(st, e).conns && Step(st, e).conns[c].cleaned
  {
    if e.RegisterEnd? || e.HandleDrop? || e.Hello? || e.StoppedHook? {
    } else {
    }
  }

  lemma ExecSnoc(events: seq<Event>, later: seq<Event>)
    requires later != []
    ensures Exec(events + later) == Step(Exec(events + later[..|later| - 1]), later[|later| - 1])
  {
    LastOfConcat(events, later);
  }

  lemma {:induction false} CleanedForever(events: seq<Event>, later: seq<Event>, c: ConnId)
    requires c in Exec(events).conns && Exec(events).conns[c].cleaned
    ensures c in Exec(events + later).conns && Exec(events + later).conns[c].cleaned
  {
    if later == [] {
      assert events + later == events;
    } else {
      var init := later[..|later| - 1];
      CleanedForever(events, init, c);
      StepKeepsCleaned(Exec(events + init), later[|later| - 1], c);
      ExecSnoc(events, later);
    }
  }

  /** A takeover acknowledged by the old connection: from then on, whatever happens, the old one owns
      nothing, the newcomer is free to go on and keeps its instance entry, and a name it does not hold
      itself can be refused to it only because of a third connection. */
  lemma Takeover(events: seq<Event>, n: ConnId, o: ConnId, later: seq<Event>)
    requires Enabled(Exec(events), HandleDrop(n, o))
    ensures var before, after := Exec(events), Exec(events + [HandleDrop(n, o)]);
            && (forall i :: i in before.instances && before.instances[i] != o ==>
                  i in after.instances && after.instances[i] == before.instances[i])
            && (n in before.conns && before.conns[n].phase == AwaitingDrop(o) ==>
                  n in after.conns && after.conns[n].phase == Idle
                  && after.conns[n].instance == before.conns[n].instance)
    ensures var final := Exec(events + [HandleDrop(n, o)] + later);
            && (forall s :: s in final.endpoints ==> final.endpoints[s] != o)
            && (forall i :: i in final.instances ==> final.instances[i] != o)
            && (forall s :: Enabled(final, RegisterLock(n, s)) && s !in final.conns[n].services
                            && !Register(final.endpoints, s, n).1 ==>
                  final.endpoints[s] != n && final.endpoints[s] != o)
  {
    var drop := [HandleDrop(n, o)];
    assert (events + drop)[..|events + drop| - 1] == events;
    Reachable(events);
    assert n != o && Exec(events).conns[o].instance.Some?;
    CleanedForever(events + drop, later, o);
    Reachable(events + drop + later);
  }

  // ----- Node events -----

  function EventsOf(log: seq<NodeEvent>, c: ConnId): seq<NodeEvent> {
    if log == [] then []
    else
      var e := log[|log| - 1];
      EventsOf(log[..|log| - 1], c) + if e.conn == c then [e] else []
  }

  function Balance(log: seq<NodeEvent>, id: string): int {
    if log == [] then 0
    else
      var e := log[|log| - 1];
      Balance(log[..|log| - 1], id) + if e.id != id then 0 else if e.New? then 1 else -1
  }

  /** What one connection has announced. */
  ghost function Announced(st: Sys, c: ConnId): seq<NodeEvent> {
    if c !in st.conns || st.conns[c].defaultId.None? then []
    else
      var id := st.conns[c].defaultId.value;
      if st.conns[c].cleaned then [New(id, c), Lost(id, c)] else [New(id, c)]
  }

  ghost function Present(st: Sys, id: string): set<ConnId> {
    set c | c in st.conns && st.conns[c].defaultId == Some(id) && !st.conns[c].cleaned
  }

  /** A change of the log: nothing, or one event of the connection that moved. */
  ghost predicate LogStep(st: Sys, after: Sys, mover: ConnId) {
    && (forall c :: c != mover ==> Announced(after, c) == Announced(st, c))
    && ((after.log == st.log && Announced(after, mover) == Announced(st, mover))
        || exists x: NodeEvent :: x.conn == mover && after.log == st.log + [x] && Announces(st, after, x))
  }

  ghost predicate Announces(st: Sys, after: Sys, x: NodeEvent) {
    && Announced(after, x.conn) == Announced(st, x.conn) + [x]
    && Announced(st, x.conn) == if x.New? then [] else [New(x.id, x.conn)]
  }

  lemma FinishRegisterLog(st: Sys, c: ConnId)
    requires Inv(st) && c in st.conns && st.conns[c].phase.Registering?
    ensures LogStep(st, FinishRegister(st, c), c)
  {
    var after := FinishRegister(st, c);
    if after.log != st.log {
      assert Announces(st, after, New(ParseNodeId(st.conns[c].phase.service).value, c));
    }
  }

  lemma CleanupLog(st: Sys, c: ConnId)
    requires Inv(st) && c in st.conns
    ensures LogStep(st, Cleanup(st, c), c)
  {
    var after := Cleanup(st, c);
    if after.log != st.log {
      assert Announces(st, after, Lost(st.conns[c].defaultId.value, c));
    }
  }

  lemma DropLog(st: Sys, n: ConnId, c: ConnId)
    requires Inv(st) && Enabled(st, HandleDrop(n, c))
    ensures LogStep(st, Apply(st, HandleDrop(n, c)), c)
  {
    CleanupLog(st, c);
    var mid, after := Cleanup(st, c), Apply(st, HandleDrop(n, c));
    assert after.log == mid.log && forall d :: Announced(after, d) == Announced(mid, d);
    if x: NodeEvent :| x.conn == c && mid.log == st.log + [x] && Announces(st, mid, x) {
      assert Announces(st, after, x);
    }
  }

  lemma StepLog(st: Sys, e: Event)
    requires Inv(st) && Enabled(st, e)
    ensures LogStep(st, Apply(st, e), e.c)
  {
    if e.RegisterEnd? {
      FinishRegisterLog(st, e.c);
    } else if e.HandleDrop? {
      DropLog(st, e.newcomer, e.c);
    } else if e.StoppedHook? {
      CleanupLog(st, e.c);
    } else {
      var after := Apply(st, e);
      assert after.log == st.log && forall d :: Announced(after, d) == Announced(st, d);
    }
  }

  lemma PresentByAnnounced(st: Sys, id: string, c: ConnId)
    ensures c in Present(st, id) <==> Announced(st, c) == [New(id, c)]
  {
  }

  lemma PresentFrame(st: Sys, after: Sys, mover: ConnId, id: string)
    requires forall c :: c != mover ==> Announced(after, c) == Announced(st, c)
    ensures Present(after, id) - {mover} == Present(st, id) - {mover}
  {
    forall c | c != mover ensures c in Present(after, id) <==> c in Present(st, id) {
      PresentByAnnounced(st, id, c);
      PresentByAnnounced(after, id, c);
    }
  }

  lemma LogStepKeepsTraces(st: Sys, after: Sys, mover: ConnId, c: ConnId)
    requires LogStep(st, after, mover) && EventsOf(st.log, c) == Announced(st, c)
    ensures EventsOf(after.log, c) == Announced(after, c)
  {
    if after.log != st.log {
      assert after.log[..|after.log| - 1] == st.log;
    }
  }

  lemma AnnouncementKeepsBalance(st: Sys, after: Sys, x: NodeEvent, id: string)
    requires after.log == st.log + [x] && Announces(st, after, x)
    requires Present(after, id) - {x.conn} == Present(st, id) - {x.conn}
    requires Balance(st.log, id) == |Present(st, id)|
    ensures Balance(after.log, id) == |Present(after, id)|
  {
    PresentByAnnounced(st, id, x.conn);
    PresentByAnnounced(after, id, x.conn);
    WithOrWithout(Present(st, id), x.conn);
    WithOrWithout(Present(after, id), x.conn);
    assert after.log[..|after.log| - 1] == st.log && after.log[|after.log| - 1] == x;
    assert Announced(after, x.conn) == if x.New? then [x] else [New(x.id, x.conn), x];
  }

  lemma LogStepKeepsBalance(st: Sys, after: Sys, mover: ConnId, id: string)
    requires LogStep(st, after, mover) && Balance(st.log, id) == |Present(st, id)|
    ensures Balance(after.log, id) == |Present(after, id)|
  {
    PresentFrame(st, after, mover, id);
    if after.log == st.log {
      PresentByAnnounced(st, id, mover);
      PresentByAnnounced(after, id, mover);
      WithOrWithout(Present(st, id), mover);
      WithOrWithout(Present(after, id), mover);
    } else {
      var x: NodeEvent :| x.conn == mover && after.log == st.log + [x] && Announces(st, after, x);
      AnnouncementKeepsBalance(st, after, x, id);
    }
  }

  lemma WithOrWithout(s: set<ConnId>, c: ConnId)
    ensures |s| == |s - {c}| + if c in s then 1 else 0
  {
    if c !in s {
      assert s - {c} == s;
    }
  }

  /** In every run, New minus Lost for a node id counts the connections that stand for it and have not
      been cleaned up; each connection announces at most New then Lost, of its own id. */
  lemma {:induction false} NodeEventsBalance(events: seq<Event>, id: string)
    ensures Balance(Exec(events).log, id) == |Present(Exec(events), id)|
    ensures forall c :: EventsOf(Exec(events).log, c) == Announced(Exec(events), c)
  {
    if events == [] {
    } else {
      var init := events[..|events| - 1];
      NodeEventsBalance(init, id);
      Reachable(init);
      var st, e := Exec(init), events[|events| - 1];
      if Enabled(st, e) {
        StepLog(st, e);
        LogStepKeepsBalance(st, Apply(st, e), e.c, id);
        forall c ensures EventsOf(Apply(st, e).log, c) == Announced(Apply(st, e), c) {
          LogStepKeepsTraces(st, Apply(st, e), e.c, c);
        }
      }
    }
  }

  // ----- The handlers in place -----

  const REPLY_OK := 0
  const REGISTER_CONFLICT := 409
  const NOT_REGISTERED := 404

  /** The fields of the router's connection actor that take part in registration. Each method carries out
      one step of the machine above on the concrete tables. */
  class Connection {
    const id: ConnId
    const router: Router
    var services: set<string>
    var instance: Option<InstanceId>
    var defaultId: Option<string>
    var running: bool

    constructor (id: ConnId, router: Router)
      ensures this.id == id && this.router == router && running
      ensures services == {} && instance == None && defaultId == None
    {
      this.id, this.router := id, router;
      services, instance, defaultId, running := {}, None, None, true;
    }

    ghost predicate Represents(st: Sys)
      reads this, router, router.endpoints
    {
      && router.endpoints.dict == st.endpoints
      && router.instances == st.instances
      && router.drops == st.drops
      && router.log == st.log
      && id in st.conns
      && st.conns[id].running == running
      && st.conns[id].services == services
      && st.conns[id].instance == instance
      && st.conns[id].defaultId == defaultId
    }

    method RegisterLocked(ghost st: Sys, s: string) returns (ok: bool)
      requires Represents(st) && Enabled(st, RegisterLock(id, s))
      modifies router.endpoints
      ensures Represents(Apply(st, RegisterLock(id, s)))
      ensures Apply(st, RegisterLock(id, s)).conns[id].phase == Registering(s, ok)
      ensures ok <==> s !in old(router.endpoints.dict)
      ensures router.endpoints.dict == if ok then old(router.endpoints.dict)[s := id] else old(router.endpoints.dict)
    {
      ok := router.RegisterService(s, id);
    }

    method RegisterFinished(ghost st: Sys, s: string, ok: bool) returns (code: int)
      requires Represents(st) && st.conns[id].phase == Registering(s, ok)
      modifies this`services, this`defaultId, router`log
      ensures Represents(FinishRegister(st, id))
      ensures services == if ok then old(services) + {s} else old(services)
      ensures var first := ok && old(defaultId).None? && ParseNodeId(s).Some?;
              && defaultId == (if first then ParseNodeId(s) else old(defaultId))
              && router.log == old(router.log) + if first then [New(ParseNodeId(s).value, id)] else []
      ensures code == if ok then REPLY_OK else REGISTER_CONFLICT
    {
      code := REPLY_OK;
      if ok {
        services := services + {s};
        if defaultId.None? {
          var node := ParseNodeId(s);
          if node.Some? {
            defaultId := node;
            router.SendNodeEvent(New(node.value, id));
          }
        }
      } else {
        code := REGISTER_CONFLICT;
      }
    }

    method UnregisterLocked(ghost st: Sys, s: string, live: set<ConnId>) returns (ok: bool)
      requires Represents(st) && Enabled(st, UnregisterLock(id, s)) && live == Live(st.conns)
      modifies router.endpoints
      ensures Represents(Apply(st, UnregisterLock(id, s)))
      ensures Apply(st, UnregisterLock(id, s)).conns[id].phase == Unregistering(s, ok)
      ensures ok <==> s in old(router.endpoints.dict) &&
                      (old(router.endpoints.dict)[s] == id || old(router.endpoints.dict)[s] !in live)
      ensures router.endpoints.dict == if ok then old(router.endpoints.dict) - {s} else old(router.endpoints.dict)
    {
      ok := router.UnregisterService(s, id, live);
    }

    method UnregisterFinished(ghost st: Sys, s: string, ok: bool) returns (code: int)
      requires Represents(st) && st.conns[id].phase == Unregistering(s, ok)
      modifies this`services
      ensures Represents(Apply(st, UnregisterEnd(id)))
      ensures services == if ok then old(services) - {s} else old(services)
      ensures code == if ok then REPLY_OK else NOT_REGISTERED
    {
      code := REPLY_OK;
      if ok {
        services := services - {s};
      } else {
        code := NOT_REGISTERED;
      }
    }

    /** `stop` reports the duplicate hello; `replaced` is the connection sent a DropConnection. */
    method HandleHello(ghost st: Sys, i: InstanceId) returns (stop: bool, replaced: Option<ConnId>)
      requires Represents(st) && Enabled(st, Hello(id, i))
      modifies this`instance, this`running, router`instances, router`drops
      ensures Represents(SayHello(st, id, i))
      ensures stop <==> old(instance).Some?
      ensures running <==> !stop
      ensures instance == if stop then old(instance) else Some(i)
      ensures router.instances == if stop then old(router.instances) else old(router.instances)[i := id]
      ensures replaced == if old(instance).None? && i in old(router.instances)
                          then Some(old(router.instances)[i]) else None
      ensures router.drops == old(router.drops) + if replaced.Some? then {(id, replaced.value)} else {}
      ensures replaced.Some? ==> SayHello(st, id, i).conns[id].phase == AwaitingDrop(replaced.value)
    {
      replaced := None;
      if instance.Some? {
        running := false;
        return true, None;
      }
      instance := Some(i);
      replaced := router.NewConnection(i, id);
      stop := false;
    }

    /** Takes the instance id, drains the services, releases the instance entry, announces the loss. */
    method CleanUp(ghost st: Sys, live: set<ConnId>)
      requires Represents(st) && live == Live(st.conns)
      modifies this`instance, this`services, router, router.endpoints
      ensures Represents(Cleanup(st, id))
      ensures instance == None && defaultId == old(defaultId)
      ensures old(instance).None? ==>
        && services == old(services) && router.endpoints.dict == old(router.endpoints.dict)
        && router.instances == old(router.instances) && router.log == old(router.log)
      ensures old(instance).Some? ==>
        var t, i := old(router.endpoints.dict), old(instance).value;
        && services == {}
        && (forall s :: s in router.endpoints.dict <==>
              s in t && !(s in old(services) && (t[s] == id || t[s] !in live)))
        && (forall s :: s in router.endpoints.dict ==> router.endpoints.dict[s] == t[s])
        && router.instances == (if i in old(router.instances) && old(router.instances)[i] == id
                                then old(router.instances) - {i} else old(router.instances))
        && router.log == old(router.log) + if defaultId.Some? then [Lost(defaultId.value, id)] else []
    {
      if instance.None? {
        return;
      }
      var i := instance.value;
      instance := None;
      while services != {}
        invariant services <= old(services)
        invariant router.endpoints.dict == UnregisterAll(st.endpoints, old(services) - services, id, live)
        invariant router.instances == st.instances && router.log == st.log && router.drops == st.drops
        invariant instance == None && defaultId == st.conns[id].defaultId
        decreases services
      {
        var s :| s in services;
        services := services - {s};
        var _ := router.UnregisterService(s, id, live);
      }
      assert old(services) - services == old(services);
      router.RemoveConnection(i, id);
      if defaultId.Some? {
        router.SendNodeEvent(Lost(defaultId.value, id));
      }
    }

    /** The DropConnection handler: cleaned up, then stopped. */
    method HandleDropConnection(ghost st: Sys, live: set<ConnId>)
      requires Represents(st) && live == Live(st.conns)
      modifies this`instance, this`services, this`running, router, router.endpoints
      ensures Represents(Stop(Cleanup(st, id), id))
      ensures !running && instance == None
    {
      CleanUp(st, live);
      running := false;
    }
  }
}

/**
 * One client's connections at the router, one after the other: what the Hello it sends first on each of them
 * and the takeover it triggers (crates/router/src/connection.rs, crates/router/src/router.rs) mean for the
 * endpoints of the connections before.
 *
 * The router is the lifecycle machine. The client's connections say Hello with the client's instance id
 * before anything else; nobody else uses that id. Apart from this any connection may move at any time.
 */
module Takeovers {
  import opened Common
  import opened RouterTables
  import LC = Lifecycle

  datatype Side = Side(
    router: LC.Sys,
    id: InstanceId,
    used: set<ConnId>,              // the client's connections
    greeted: seq<ConnId>)           // those whose Hello the router has read, in that order

  predicate Locks(e: LC.Event) { e.RegisterLock? || e.UnregisterLock? }

  /** What the order of messages on a link and the uniqueness of instance ids allow. */
  predicate Orderly(s: Side, e: LC.Event) {
    if e.Accept? then true
    else if e.c !in s.used then e.Hello? ==> e.i != s.id
    else
      && e.c in s.router.conns
      && (e.Hello? ==> e.i == s.id && s.router.conns[e.c].instance.None?)
      && (Locks(e) ==> s.router.conns[e.c].instance.Some?)
  }

  predicate Possible(s: Side, e: LC.Event) { LC.Enabled(s.router, e) && Orderly(s, e) }

  function Move(s: Side, e: LC.Event): Side {
    if !Possible(s, e) then s
    else s.(router := LC.Apply(s.router, e),
            greeted := if e.Hello? && e.c in s.used then s.greeted + [e.c] else s.greeted)
  }

  /** The client opens one more connection. */
  function Open(s: Side, c: ConnId): Side
    requires c !in s.router.conns
  {
    s.(router := LC.Apply(s.router, LC.Accept(c)), used := s.used + {c})
  }

  // ----- Invariants -----

  /** No endpoint before the Hello, none while it waits for its predecessor. */
  ghost predicate UsedConn(k: LC.Conn, id: InstanceId) {
    && (k.instance.None? || k.phase.AwaitingDrop? ==> k.services == {} && !LC.Busy(k.phase))
    && (k.instance.Some? ==> k.instance.value == id)
  }

  ghost predicate UsedInv(s: Side) {
    && s.used <= s.router.conns.Keys
    && (forall c :: c in s.used ==> UsedConn(s.router.conns[c], s.id))
    && (forall c :: c in s.router.conns && c !in s.used ==> s.router.conns[c].instance != Some(s.id))
  }

  ghost predicate Distinct(g: seq<ConnId>) { forall i, j :: 0 <= i < j < |g| ==> g[i] != g[j] }

  ghost predicate GreetInv(s: Side) {
    && Distinct(s.greeted)
    && (forall c :: c in s.greeted ==>
          c in s.used && c in s.router.conns && (s.router.conns[c].instance.Some? || s.router.conns[c].cleaned))
    && (forall c :: c in s.used && c in s.router.conns && s.router.conns[c].instance.Some? ==> c in s.greeted)
  }

  /** The instance entry is the latest connection greeted, until that one is cleaned up. */
  ghost predicate HolderInv(s: Side) {
    if s.greeted == [] then s.id !in s.router.instances
    else
      var last := s.greeted[|s.greeted| - 1];
      && last in s.router.conns
      && if s.id in s.router.instances then s.router.instances[s.id] == last else s.router.conns[last].cleaned
  }

  ghost predicate Inv(s: Side) { LC.Inv(s.router) && UsedInv(s) && GreetInv(s) && HolderInv(s) }

  /** Whom a step changes: the mover, and a newcomer whose takeover it acknowledges. */
  lemma OthersStay(r: LC.Sys, e: LC.Event, d: ConnId)
    requires LC.Enabled(r, e) && d in r.conns && d != e.c
    ensures d in LC.Apply(r, e).conns
    ensures LC.Apply(r, e).conns[d] == r.conns[d]
            || (&& e.HandleDrop? && d == e.newcomer && r.conns[d].phase == LC.AwaitingDrop(e.c)
                && LC.Apply(r, e).conns[d] == r.conns[d].(phase := LC.Idle))
  {
    if e.HandleDrop? {
      var done := LC.Stop(LC.Cleanup(r, e.c), e.c);
      assert done.conns[d] == r.conns[d];
    } else if e.Hello? || e.StoppedHook? || e.RegisterEnd? {
    } else {
    }
  }

  lemma KeysGrow(r: LC.Sys, e: LC.Event)
    requires LC.Enabled(r, e)
    ensures LC.Apply(r, e).conns.Keys == r.conns.Keys + {e.c}
  {
    if e.HandleDrop? {
      var done := LC.Stop(LC.Cleanup(r, e.c), e.c);
      assert done.conns.Keys == r.conns.Keys;
    } else if e.Hello? || e.StoppedHook? || e.RegisterEnd? {
    } else {
    }
  }

  /** What a step makes of its mover's instance: a first Hello sets it, a cleanup clears it. */
  lemma MoverInstance(r: LC.Sys, e: LC.Event)
    requires LC.Inv(r) && LC.Enabled(r, e) && !e.Accept?
    ensures e.c in LC.Apply(r, e).conns
    ensures var k, after := r.conns[e.c], LC.Apply(r, e).conns[e.c];
            if e.Hello? && k.instance.None? then after.instance == Some(e.i) && after.cleaned == k.cleaned
            else if (e.HandleDrop? || e.StoppedHook?) && k.instance.Some? then after.instance.None? && after.cleaned
            else after.instance == k.instance && after.cleaned == k.cleaned
  {
    if e.HandleDrop? {
      assert e.newcomer != e.c;
    } else if e.Hello? || e.StoppedHook? || e.RegisterEnd? {
    } else {
    }
  }

  lemma MoverStaysUsed(r: LC.Sys, e: LC.Event, id: InstanceId)
    requires LC.Inv(r) && LC.Enabled(r, e) && !e.Accept? && UsedConn(r.conns[e.c], id)
    requires e.Hello? ==> e.i == id && r.conns[e.c].instance.None?
    requires Locks(e) ==> r.conns[e.c].instance.Some?
    ensures e.c in LC.Apply(r, e).conns && UsedConn(LC.Apply(r, e).conns[e.c], id)
  {
    MoverInstance(r, e);
    if e.HandleDrop? {
      assert e.newcomer != e.c;
    } else if e.Hello? || e.StoppedHook? || e.RegisterEnd? {
    } else {
    }
  }

  lemma MoveKeepsUsed(s: Side, e: LC.Event)
    requires Inv(s) && Possible(s, e)
    ensures UsedInv(Move(s, e))
  {
    var after := Move(s, e);
    KeysGrow(s.router, e);
    forall d | d in s.used ensures UsedConn(after.router.conns[d], s.id) {
      if d == e.c {
        MoverStaysUsed(s.router, e, s.id);
      } else {
        OthersStay(s.router, e, d);
      }
    }
    forall d | d in after.router.conns && d !in s.used ensures after.router.conns[d].instance != Some(s.id) {
      if d != e.c {
        OthersStay(s.router, e, d);
      } else if !e.Accept? {
        MoverInstance(s.router, e);
      }
    }
  }

  /** Greetings and cleanups, seen from any connection. */
  lemma InstanceChange(s: Side, e: LC.Event, d: ConnId)
    requires Inv(s) && Possible(s, e) && d in s.router.conns
    ensures d in Move(s, e).router.conns
    ensures var k, after := s.router.conns[d], Move(s, e).router.conns[d];
            && (k.cleaned ==> after.cleaned)
            && (k.instance.Some? ==> after.instance == k.instance || after.cleaned)
            && (k.instance.None? && after.instance.Some? ==> e.Hello? && d == e.c)
            && (e.Hello? && d == e.c && k.instance.None? ==> after.instance.Some?)
  {
    if d == e.c {
      MoverInstance(s.router, e);
    } else {
      OthersStay(s.router, e, d);
    }
  }

  lemma MoveKeepsGreeted(s: Side, e: LC.Event)
    requires Inv(s) && Possible(s, e)
    ensures GreetInv(Move(s, e))
  {
    var after := Move(s, e);
    forall d | d in s.router.conns ensures d in after.router.conns {
      InstanceChange(s, e, d);
    }
    if e.Hello? && e.c in s.used {
      assert s.router.conns[e.c].running && LC.ConnInv(s.router.conns[e.c]);
      assert e.c !in s.greeted;
      InstanceChange(s, e, e.c);
    }
    forall c | c in after.greeted
      ensures c in after.used && c in after.router.conns
              && (after.router.conns[c].instance.Some? || after.router.conns[c].cleaned)
    {
      InstanceChange(s, e, c);
    }
    forall c | c in after.used && after.router.conns[c].instance.Some? ensures c in after.greeted {
      InstanceChange(s, e, c);
    }
  }

  /** The instance table under this client's id: a Hello of the client sets it, its holder's cleanup clears it. */
  lemma InstancesChange(s: Side, e: LC.Event)
    requires Inv(s) && Possible(s, e)
    ensures var before, after := s.router.instances, Move(s, e).router.instances;
            if e.Hello? && e.c in s.used then s.id in after && after[s.id] == e.c
            else if s.id in after then s.id in before && after[s.id] == before[s.id]
            else s.id in before ==> before[s.id] == e.c && e.c in Move(s, e).router.conns
                                    && Move(s, e).router.conns[e.c].cleaned
  {
    if e.HandleDrop? {
      assert e.newcomer != e.c;
    } else if e.Hello? || e.StoppedHook? || e.RegisterEnd? {
    } else {
    }
  }

  lemma MoveKeepsHolder(s: Side, e: LC.Event)
    requires Inv(s) && Possible(s, e)
    ensures HolderInv(Move(s, e))
  {
    InstancesChange(s, e);
    var after := Move(s, e);
    if e.Hello? && e.c in s.used {
      InstanceChange(s, e, e.c);
      assert after.greeted == s.greeted + [e.c];
    } else {
      assert after.greeted == s.greeted;
      if s.greeted != [] {
        InstanceChange(s, e, s.greeted[|s.greeted| - 1]);
      }
    }
  }

  lemma MoveKeepsInv(s: Side, e: LC.Event)
    requires Inv(s)
    ensures Inv(Move(s, e))
  {
    if Possible(s, e) {
      LC.StepKeepsTable(s.router, e);
      LC.StepKeepsInstances(s.router, e);
      MoveKeepsUsed(s, e);
      MoveKeepsGreeted(s, e);
      MoveKeepsHolder(s, e);
    }
  }

  lemma OpenKeepsInv(s: Side, c: ConnId)
    requires Inv(s) && c !in s.router.conns
    ensures Inv(Open(s, c))
  {
    LC.StepKeepsTable(s.router, LC.Accept(c));
    LC.StepKeepsInstances(s.router, LC.Accept(c));
  }

  // ----- Takeovers that are acknowledged -----

  /** A step that ends a connection's wait for its predecessor although that one has not been cleaned up: the
      drop timed out or found the mailbox closed, or the waiting connection itself was ended. */
  predicate Unacknowledged(s: Side, e: LC.Event) {
    && Possible(s, e) && e.c in s.used && e.c in s.router.conns && (e.DropFailed? || e.HandleDrop? || e.StoppedHook?)
    && var p := s.router.conns[e.c].phase;
       p.AwaitingDrop? && p.older in s.router.conns && !s.router.conns[p.older].cleaned
  }

  /** Each connection greeted is cleaned up before its successor goes on. */
  ghost predicate Linked(s: Side, i: nat) {
    i + 1 < |s.greeted| ==>
      var u, v := s.greeted[i], s.greeted[i + 1];
      && u in s.router.conns && v in s.router.conns
      && (s.router.conns[u].cleaned || (s.router.conns[v].phase == LC.AwaitingDrop(u) && !s.router.conns[v].cleaned))
  }

  ghost predicate Chain(s: Side) { forall i: nat :: Linked(s, i) }

  lemma WaitContinues(s: Side, e: LC.Event, u: ConnId, v: ConnId)
    requires Inv(s) && Possible(s, e) && !Unacknowledged(s, e) && v in s.used
    requires u in s.router.conns && v in s.router.conns && !s.router.conns[u].cleaned
    requires s.router.conns[v].phase == LC.AwaitingDrop(u) && !s.router.conns[v].cleaned
    ensures var after := Move(s, e).router.conns;
            && u in after && v in after
            && (after[u].cleaned || (after[v].phase == LC.AwaitingDrop(u) && !after[v].cleaned))
  {
    InstanceChange(s, e, u);
    InstanceChange(s, e, v);
    if v == e.c {
      MoverInstance(s.router, e);
      if e.StopCtx? || e.LoseLink? {
      } else {
      }
    } else {
      OthersStay(s.router, e, v);
      if e.HandleDrop? && e.c == u {
        MoverInstance(s.router, e);
        assert LC.DropInv(s.router.conns, e.newcomer, u);
      }
    }
  }

  lemma MoveKeepsChain(s: Side, e: LC.Event)
    requires Inv(s) && Chain(s) && !Unacknowledged(s, e)
    ensures Chain(Move(s, e))
  {
    if Possible(s, e) {
      var after := Move(s, e);
      forall i: nat ensures Linked(after, i) {
        assert Linked(s, i);
        if i + 1 < |s.greeted| {
          var u, v := s.greeted[i], s.greeted[i + 1];
          assert u in s.greeted && v in s.greeted;
          InstanceChange(s, e, u);
          InstanceChange(s, e, v);
          if !s.router.conns[u].cleaned {
            WaitContinues(s, e, u, v);
          }
        } else if i + 1 < |after.greeted| {
          HelloLinks(s, e);
        }
      }
    }
  }

  lemma HelloLinks(s: Side, e: LC.Event)
    requires Inv(s) && Possible(s, e) && e.Hello? && e.c in s.used && s.greeted != []
    ensures Linked(Move(s, e), |s.greeted| - 1)
  {
    var u := s.greeted[|s.greeted| - 1];
    assert u in s.greeted && LC.ConnInv(s.router.conns[e.c]);
    InstanceChange(s, e, u);
    assert e.c !in s.greeted;
  }

  lemma OpenKeepsChain(s: Side, c: ConnId)
    requires Inv(s) && Chain(s) && c !in s.router.conns
    ensures Chain(Open(s, c))
  {
    forall i: nat ensures Linked(Open(s, c), i) {
      assert Linked(s, i);
    }
  }

  /** After a greeted connection that is not cleaned up, all the later ones are still waiting. */
  lemma {:induction false} LaterOnesWait(s: Side, i: nat, j: nat)
    requires Chain(s) && i < j < |s.greeted|
    requires s.greeted[i] in s.router.conns && !s.router.conns[s.greeted[i]].cleaned
    ensures s.greeted[j] in s.router.conns
    ensures s.router.conns[s.greeted[j]].phase.AwaitingDrop? && !s.router.conns[s.greeted[j]].cleaned
    decreases j
  {
    assert Linked(s, j - 1);
    if i == j - 1 {
    } else {
      LaterOnesWait(s, i, j - 1);
    }
  }

  /** With every takeover acknowledged, a connection of the client that goes about its business is the only one
      of them that owns anything. */
  lemma OnlyTheActiveOneOwns(s: Side, c: ConnId, u: ConnId, name: string)
    requires Inv(s) && Chain(s) && c in s.used && u in s.used && u != c
    requires s.router.conns[c].instance.Some? && !s.router.conns[c].phase.AwaitingDrop?
    ensures !LC.Owns(s.router, u, name)
  {
    if LC.Owns(s.router, u, name) {
      var k := s.router.conns[u];
      assert LC.Claims(k, name) && UsedConn(k, s.id) && LC.ConnInv(k);
      assert k.instance.Some? && !k.phase.AwaitingDrop?;
      assert c in s.greeted && u in s.greeted;
      var i :| 0 <= i < |s.greeted| && s.greeted[i] == c;
      var j :| 0 <= j < |s.greeted| && s.greeted[j] == u;
      assert LC.ConnInv(s.router.conns[c]);
      if i < j {
        LaterOnesWait(s, i, j);
      } else {
        LaterOnesWait(s, j, i);
      }
    }
  }
}

/**
 * From local handlers to the router's endpoints: Router (src/local_router.rs), RemoteRouter
 * (src/remote_router.rs) and the router, put together. A message the remote router takes from its mailbox is
 * the update it carries out; everything else on either side moves on its own.
 */
module Registrations {
  import opened Common
  import opened RouterTables
  import LB = LocalBindings
  import RB = RemoteBindings
  import LC = Lifecycle

  datatype Event = Local(l: LB.Event) | Remote(r: RB.Event)

  /** What the local side and the remote side have done. */
  datatype Process = Process(local: seq<LB.Event>, remote: seq<RB.Event>)

  function AsUpdate(cmd: RB.Command): RB.Event {
    match cmd
    case Bind(s) => RB.Add(s)
    case Unbind(s) => RB.Remove(s)
  }

  ghost function Advance(p: Process, e: Event): Process {
    match e
    case Local(l) =>
      var mailbox := LB.Exec(p.local).mailbox;
      Process(p.local + [l],
              if l.HandleUpdate? && mailbox != [] then p.remote + [AsUpdate(mailbox[0])] else p.remote)
    case Remote(r) => if r.Add? || r.Remove? then p else p.(remote := p.remote + [r])
  }

  ghost function Run(events: seq<Event>): Process {
    if events == [] then Process([], [])
    else Advance(Run(events[..|events| - 1]), events[|events| - 1])
  }

  ghost predicate Agree(id: InstanceId, p: Process) {
    LB.Exec(p.local).bindings == RB.Exec(id, p.remote).client.bindings
  }

  lemma LocalOne(local: seq<LB.Event>, l: LB.Event)
    ensures LB.Exec(local + [l]) == LB.Step(LB.Exec(local), l)
  {
    LastOfConcat(local, [l]);
    ConcatNothing(local);
  }

  /** One message handled changes the set as the update does. */
  lemma UpdateAgrees(st: RB.Sys, names: set<string>, mailbox: seq<RB.Command>)
    requires mailbox != [] && st.client.bindings == names
    ensures RB.Step(st, AsUpdate(mailbox[0])).client.bindings == RB.Played(names, mailbox[..1])
  {
    RB.PlayedSnoc(names, [], mailbox[0]);
    assert mailbox[..1] == [] + [mailbox[0]];
  }

  lemma OthersKeepBindings(st: RB.Sys, r: RB.Event)
    requires !r.Add? && !r.Remove?
    ensures RB.Step(st, r).client.bindings == st.client.bindings
  {
  }

  lemma LocalKeepsBindings(st: LB.Local, l: LB.Event)
    ensures LB.Step(st, l).bindings ==
            if l.HandleUpdate? && st.mailbox != [] then RB.Played(st.bindings, st.mailbox[..1]) else st.bindings
  {
  }

  lemma LocalAgrees(id: InstanceId, p: Process, l: LB.Event)
    requires Agree(id, p)
    ensures Agree(id, Advance(p, Local(l)))
  {
    var st := LB.Exec(p.local);
    LocalOne(p.local, l);
    LocalKeepsBindings(st, l);
    if l.HandleUpdate? && st.mailbox != [] {
      RB.ExecOne(id, p.remote, AsUpdate(st.mailbox[0]));
      UpdateAgrees(RB.Exec(id, p.remote), st.bindings, st.mailbox);
    }
  }

  lemma RemoteAgrees(id: InstanceId, p: Process, r: RB.Event)
    requires Agree(id, p)
    ensures Agree(id, Advance(p, Remote(r)))
  {
    if !r.Add? && !r.Remove? {
      RB.ExecOne(id, p.remote, r);
      OthersKeepBindings(RB.Exec(id, p.remote), r);
    }
  }

  lemma {:induction false} SameBindings(id: InstanceId, events: seq<Event>)
    ensures Agree(id, Run(events))
  {
    if events == [] {
    } else {
      SameBindings(id, events[..|events| - 1]);
      var p, e := Run(events[..|events| - 1]), events[|events| - 1];
      if e.Local? {
        LocalAgrees(id, p, e.l);
      } else {
        RemoteAgrees(id, p, e.r);
      }
    }
  }

  /** Nothing is under way: no unbind future, no message to the remote router, no command to the router. */
  ghost predicate Quiet(id: InstanceId, p: Process) {
    LB.Exec(p.local).unsent == [] && LB.Exec(p.local).mailbox == [] && RB.Drained(RB.Exec(id, p.remote))
  }

  /** Every takeover was acknowledged, and no other client held a name when it was bound. */
  ghost predicate Uncontested(id: InstanceId, p: Process) {
    && RB.AllAcknowledged(id, p.remote)
    && forall n :: 0 <= n < |p.remote| ==> !RB.Clashes(RB.Exec(id, p.remote[..n]), p.remote[n])
  }

  ghost predicate OwnedByClient(st: RB.Sys, s: string) {
    exists c :: c in st.side.used && LC.Owns(st.side.router, c, s)
  }

  /** Across binds, unbinds, losses, restarts and reconnects: once nothing is under way, the router gives the
      client a name if and only if there is a local handler for it that no late Remove has hit. */
  lemma EndpointsFollowHandlers(id: InstanceId, events: seq<Event>, s: string)
    requires Quiet(id, Run(events)) && Uncontested(id, Run(events))
    ensures var p := Run(events);
            OwnedByClient(RB.Exec(id, p.remote), s) <==>
            s in LB.Exec(p.local).handlers && s !in LB.Exec(p.local).lost
  {
    var p := Run(events);
    SameBindings(id, events);
    LB.BindingsAgreeExactly(p.local);
    RB.ReconnectRegainsBindings(id, p.remote, s);
  }

  /** With unbind futures run promptly, the client's endpoints are exactly the local handler keys. */
  lemma PromptHandlersAreEndpoints(id: InstanceId, events: seq<Event>, s: string)
    requires Quiet(id, Run(events)) && Uncontested(id, Run(events)) && LB.Prompt(Run(events).local)
    ensures OwnedByClient(RB.Exec(id, Run(events).remote), s) <==> s in LB.Exec(Run(events).local).handlers
  {
    var p := Run(events);
    SameBindings(id, events);
    LB.BindingsAgreeExactly(p.local);
    LB.PromptFuturesAgree(p.local);
    RB.ReconnectRegainsBindings(id, p.remote, s);
  }
}

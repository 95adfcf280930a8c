/**
 * Reply routing at the connection of a service: reply_map, ForwardCallRequest, handle_call_reply and the
 * pruning of dead entries (crates/router/src/connection.rs).
 */
module ReplyRouting {
  import opened Common
  import opened RouterTables

  /** Requests that want a reply, and replies that reached an open reply channel, in order. */
  datatype Entry<D> =
    | Asked(id: string, from: ConnId)
    | Delivered(id: string, full: bool, data: D, dst: ConnId)

  datatype Routing<D> = Routing(
    replyMap: map<string, ConnId>,
    closed: set<ConnId>,            // reply channels whose receiver is gone
    log: seq<Entry<D>>)

  datatype Event<D> =
    | Forward(id: string, noReply: bool, from: ConnId)
    | Reply(id: string, full: bool, data: D)
    | Prune
    | CloseChannel(c: ConnId)

  function HandleForward<D>(r: Routing<D>, id: string, noReply: bool, from: ConnId): Routing<D> {
    if noReply then r
    else r.(replyMap := r.replyMap[id := from], log := r.log + [Asked(id, from)])
  }

  function HandleReply<D>(r: Routing<D>, id: string, full: bool, data: D): Routing<D> {
    if id !in r.replyMap then r
    else
      var dst := r.replyMap[id];
      r.(replyMap := if full then r.replyMap - {id} else r.replyMap,
         log := if dst in r.closed then r.log else r.log + [Delivered(id, full, data, dst)])
  }

  function PruneDead<D>(r: Routing<D>): Routing<D> {
    r.(replyMap := map id | id in r.replyMap && r.replyMap[id] !in r.closed :: r.replyMap[id])
  }

  function Step<D>(r: Routing<D>, e: Event<D>): Routing<D> {
    match e
    case Forward(id, noReply, from) => HandleForward(r, id, noReply, from)
    case Reply(id, full, data) => HandleReply(r, id, full, data)
    case Prune => PruneDead(r)
    case CloseChannel(c) => r.(closed := r.closed + {c})
  }

  function Exec<D>(events: seq<Event<D>>): Routing<D> {
    if events == [] then Routing(map[], {}, [])
    else Step(Exec(events[..|events| - 1]), events[|events| - 1])
  }

  // ----- Conversations -----

  predicate Ends<D>(e: Entry<D>, id: string) { e.id == id && (e.Asked? || e.full) }

  /** The conversation on `id` opened at position q is still going on at the end of the log. */
  ghost predicate OpenAt<D>(log: seq<Entry<D>>, q: int, id: string, dst: ConnId) {
    && 0 <= q < |log| && log[q] == Asked(id, dst)
    && forall k :: q < k < |log| ==> !Ends(log[k], id)
  }

  ghost predicate HasOpen<D>(log: seq<Entry<D>>, id: string, dst: ConnId) {
    exists q :: OpenAt(log, q, id, dst)
  }

  ghost predicate AllAnswered<D>(log: seq<Entry<D>>) {
    forall p :: 0 <= p < |log| && log[p].Delivered? ==> HasOpen(log[..p], log[p].id, log[p].dst)
  }

  ghost predicate Inv<D>(r: Routing<D>) {
    && (forall id :: id in r.replyMap ==> HasOpen(r.log, id, r.replyMap[id]))
    && AllAnswered(r.log)
  }

  lemma OpenStays<D>(log: seq<Entry<D>>, e: Entry<D>, id: string, dst: ConnId)
    requires HasOpen(log, id, dst) && !Ends(e, id)
    ensures HasOpen(log + [e], id, dst)
  {
    var q :| OpenAt(log, q, id, dst);
    assert OpenAt(log + [e], q, id, dst);
  }

  lemma AppendKeepsAnswered<D>(log: seq<Entry<D>>, e: Entry<D>)
    requires AllAnswered(log) && (e.Delivered? ==> HasOpen(log, e.id, e.dst))
    ensures AllAnswered(log + [e])
  {
    var longer := log + [e];
    forall p | 0 <= p < |longer| && longer[p].Delivered? ensures HasOpen(longer[..p], longer[p].id, longer[p].dst) {
      assert longer[..p] == log[..p];
      assert p == |log| ==> log[..p] == log;
    }
  }

  lemma StepKeepsInv<D>(r: Routing<D>, e: Event<D>)
    requires Inv(r)
    ensures Inv(Step(r, e))
  {
    var after := Step(r, e);
    if after.log != r.log {
      var x := after.log[|r.log|];
      AppendKeepsAnswered(r.log, x);
      forall id | id in after.replyMap ensures HasOpen(after.log, id, after.replyMap[id]) {
        if x.Asked? && x.id == id {
          assert OpenAt(after.log, |r.log|, id, x.from);
        } else {
          OpenStays(r.log, x, id, r.replyMap[id]);
        }
      }
    }
  }

  lemma {:induction false} Reachable<D>(events: seq<Event<D>>)
    ensures Inv(Exec(events))
  {
    if events == [] {
    } else {
      Reachable(events[..|events| - 1]);
      StepKeepsInv(Exec(events[..|events| - 1]), events[|events| - 1]);
    }
  }

  /** Every delivered reply goes to the latest forwarder of its request id, and no Full reply of that
      conversation was delivered before it: between two forwards the replies read Partial* Full. */
  lemma RepliesFollowTheirRequest<D>(events: seq<Event<D>>, p: nat)
    requires p < |Exec(events).log| && Exec(events).log[p].Delivered?
    ensures var log := Exec(events).log;
            exists q :: OpenAt(log[..p], q, log[p].id, log[p].dst)
  {
    Reachable(events);
  }

  function Fulls<D>(log: seq<Entry<D>>, id: string): nat {
    if log == [] then 0
    else Fulls(log[..|log| - 1], id)
         + if log[|log| - 1].id == id && log[|log| - 1].Delivered? && log[|log| - 1].full then 1 else 0
  }

  function Asks<D>(log: seq<Entry<D>>, id: string): nat {
    if log == [] then 0
    else Asks(log[..|log| - 1], id) + if log[|log| - 1].id == id && log[|log| - 1].Asked? then 1 else 0
  }

  lemma CountSnoc<D>(log: seq<Entry<D>>, x: Entry<D>, id: string)
    ensures Fulls(log + [x], id) == Fulls(log, id) + if x.id == id && x.Delivered? && x.full then 1 else 0
    ensures Asks(log + [x], id) == Asks(log, id) + if x.id == id && x.Asked? then 1 else 0
  {
    assert (log + [x])[..|log|] == log;
  }

  ghost predicate Bounded<D>(r: Routing<D>, id: string) {
    Fulls(r.log, id) + (if id in r.replyMap then 1 else 0) <= Asks(r.log, id)
  }

  lemma StepKeepsBound<D>(r: Routing<D>, e: Event<D>, id: string)
    requires Bounded(r, id)
    ensures Bounded(Step(r, e), id)
  {
    match e
    case Forward(i, noReply, from) => CountSnoc(r.log, Asked(i, from), id);
    case Reply(i, full, data) =>
      if i in r.replyMap {
        CountSnoc(r.log, Delivered(i, full, data, r.replyMap[i]), id);
      }
    case Prune =>
    case CloseChannel(c) =>
  }

  /** Each reply-wanted forward is answered by at most one delivered Full reply. */
  lemma {:induction false} FullRepliesAreBounded<D>(events: seq<Event<D>>, id: string)
    ensures Bounded(Exec(events), id)
    ensures Fulls(Exec(events).log, id) <= Asks(Exec(events).log, id)
  {
    if events == [] {
    } else {
      FullRepliesAreBounded(events[..|events| - 1], id);
      StepKeepsBound(Exec(events[..|events| - 1]), events[|events| - 1], id);
    }
  }

  // ----- Pruning -----

  function WithoutPruning<D>(events: seq<Event<D>>): seq<Event<D>> {
    if events == [] then []
    else WithoutPruning(events[..|events| - 1])
         + if events[|events| - 1].Prune? then [] else [events[|events| - 1]]
  }

  /** `p` differs from `q` only by entries whose reply channel is closed. */
  ghost predicate PrunedFrom<D>(p: Routing<D>, q: Routing<D>) {
    && p.closed == q.closed && p.log == q.log
    && (forall id :: id in p.replyMap ==> id in q.replyMap && p.replyMap[id] == q.replyMap[id])
    && (forall id :: id in q.replyMap && id !in p.replyMap ==> q.replyMap[id] in q.closed)
  }

  lemma StepKeepsPruned<D>(p: Routing<D>, q: Routing<D>, e: Event<D>)
    requires PrunedFrom(p, q)
    ensures PrunedFrom(Step(p, e), if e.Prune? then q else Step(q, e))
  {
  }

  /** Pruning ticks are invisible: the same requests are recorded and the same replies are delivered to the
      same connections, whatever ticks a run contains. */
  lemma {:induction false} PruningIsInvisible<D>(events: seq<Event<D>>)
    ensures PrunedFrom(Exec(events), Exec(WithoutPruning(events)))
    ensures Exec(events).log == Exec(WithoutPruning(events)).log
  {
    if events == [] {
    } else {
      var init, e, w := events[..|events| - 1], events[|events| - 1], WithoutPruning(events);
      PruningIsInvisible(init);
      StepKeepsPruned(Exec(init), Exec(WithoutPruning(init)), e);
      if e.Prune? {
        assert w == WithoutPruning(init);
      } else {
        assert w[..|w| - 1] == WithoutPruning(init) && w[|w| - 1] == e;
      }
    }
  }

  // ----- The table in place -----

  class ReplyTable<D> {
    var replyMap: map<string, ConnId>
    ghost var log: seq<Entry<D>>

    constructor ()
      ensures Model({}) == Exec([])
    {
      replyMap, log := map[], [];
    }

    ghost function Model(closed: set<ConnId>): Routing<D>
      reads this
    {
      Routing(replyMap, closed, log)
    }

    method RememberCaller(id: string, noReply: bool, from: ConnId, ghost closed: set<ConnId>) returns (duplicate: bool)
      modifies this
      ensures Model(closed) == HandleForward(old(Model(closed)), id, noReply, from)
      ensures duplicate <==> !noReply && id in old(replyMap)
      ensures replyMap == if noReply then old(replyMap) else old(replyMap)[id := from]
    {
      duplicate := false;
      if !noReply {
        duplicate := id in replyMap;
        replyMap := replyMap[id := from];
        log := log + [Asked(id, from)];
      }
    }

    /** Returns where the reply goes, if it can be delivered. */
    method RouteReply(id: string, full: bool, data: D, closed: set<ConnId>) returns (dst: Option<ConnId>)
      modifies this
      ensures Model(closed) == HandleReply(old(Model(closed)), id, full, data)
      ensures dst.Some? <==> id in old(replyMap) && old(replyMap)[id] !in closed
      ensures dst.Some? ==> dst.value == old(replyMap)[id]
      ensures replyMap == if full then old(replyMap) - {id} else old(replyMap)
    {
      if id !in replyMap {
        return None;
      }
      var target := replyMap[id];
      if full {
        replyMap := replyMap - {id};
      }
      if target in closed {
        return None;
      }
      log := log + [Delivered(id, full, data, target)];
      dst := Some(target);
    }

    /** The periodic tick: collect the dead request ids, then remove them one by one. */
    method RemoveDead(closed: set<ConnId>)
      modifies this`replyMap
      ensures Model(closed) == PruneDead(old(Model(closed)))
      ensures forall id :: id in replyMap <==> id in old(replyMap) && old(replyMap)[id] !in closed
      ensures forall id :: id in replyMap ==> replyMap[id] == old(replyMap)[id]
    {
      var dead := set id | id in replyMap && replyMap[id] in closed;
      while dead != {}
        invariant dead == set id | id in replyMap && replyMap[id] in closed
        invariant forall id :: id in replyMap ==> id in old(replyMap) && replyMap[id] == old(replyMap)[id]
        invariant forall id :: id in old(replyMap) && old(replyMap)[id] !in closed ==> id in replyMap
        decreases dead
      {
        var id :| id in dead;
        replyMap := replyMap - {id};
        dead := dead - {id};
      }
      assert forall id :: id in replyMap ==> (replyMap[id] in closed <==> id in dead);
      assert replyMap == PruneDead(old(Model(closed))).replyMap;
    }
  }
}

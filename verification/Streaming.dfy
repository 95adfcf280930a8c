/**
 * A streamed call end to end: the service's client (src/connection.rs), the service's and the caller's router
 * connections (crates/router/src/connection.rs), the caller's client and the end-of-stream filter
 * (src/local_router.rs).
 */
module Streaming {
  import opened Common
  import opened RouterTables
  import opened Subsequences
  import BP = BackPressure
  import RR = ReplyRouting
  import SW = SinkWriter

  type Data = seq<nat>

  datatype Chunk = Part(data: Data) | Full(data: Data)

  /** What a service stream yields; an error is its displayed text. */
  datatype ServiceItem = Produced(chunk: Chunk) | Broken(text: Data)

  /** What reaches a router connection's output: replies to calls, and everything else. */
  datatype Msg = CallReply(id: string, code: int, partial: bool, data: Data) | OtherMsg

  /** What the caller's channel yields. */
  datatype CallerItem = Got(chunk: Chunk) | BadRequest(text: Data) | Failure(text: Data)

  // ----- The service's client -----

  function ReplyFor(id: string, x: ServiceItem): Msg {
    match x
    case Produced(Part(d)) => CallReply(id, 0, true, d)
    case Produced(Full(d)) => CallReply(id, 0, false, d)
    case Broken(text) => CallReply(id, 500, false, text)
  }

  predicate Terminal(x: ServiceItem) { x.Broken? || x.chunk.Full? }

  function Replies(id: string, items: seq<ServiceItem>): seq<Msg> { Map(x => ReplyFor(id, x), items) }

  /** The replies to one call; an end of stream is added unless the last item was one. */
  function Emit(id: string, items: seq<ServiceItem>): seq<Msg> {
    if items != [] && Terminal(items[|items| - 1]) then Replies(id, items)
    else Replies(id, items) + [CallReply(id, 0, false, [])]
  }

  /** Part chunks, optionally ended by one Full chunk or error. */
  predicate StreamShape(items: seq<ServiceItem>) {
    forall i :: 0 <= i < |items| - 1 ==> !Terminal(items[i])
  }

  /** One reply per item, with the call's id: Part chunks as partial replies, Full chunks and errors as full ones;
      and the last reply is full, an empty one being added if need be. */
  predicate EndsTheCall(id: string, items: seq<ServiceItem>, written: seq<Msg>) {
    && |items| <= |written| <= |items| + 1
    && (forall i :: 0 <= i < |items| ==>
          match items[i]
          case Produced(Part(d)) => written[i] == CallReply(id, 0, true, d)
          case Produced(Full(d)) => written[i] == CallReply(id, 0, false, d)
          case Broken(text) => written[i] == CallReply(id, 500, false, text))
    && (|written| == |items| + 1 ==> written[|items|] == CallReply(id, 0, false, []))
    && (|written| == |items| <==> items != [] && (items[|items| - 1].Broken? || items[|items| - 1].chunk.Full?))
  }

  lemma EmitMeaning(id: string, items: seq<ServiceItem>)
    ensures EndsTheCall(id, items, Emit(id, items))
  {
    var rs := Replies(id, items);
    assert forall i :: 0 <= i < |items| ==> rs[i] == ReplyFor(id, items[i]);
  }

  /** handle_call_request: the fold over the service's stream and the closing reply. */
  method AnswerCall(id: string, items: seq<ServiceItem>) returns (written: seq<Msg>)
    ensures written == Emit(id, items) && EndsTheCall(id, items, written)
  {
    EmitMeaning(id, items);
    written := [];
    var gotEos := false;
    for i := 0 to |items|
      invariant written == Replies(id, items[..i])
      invariant gotEos <==> i > 0 && Terminal(items[i - 1])
    {
      assert Replies(id, items[..i + 1]) == Replies(id, items[..i]) + [ReplyFor(id, items[i])];
      gotEos := Terminal(items[i]);
      written := written + [ReplyFor(id, items[i])];
    }
    assert items[..|items|] == items;
    if !gotEos {
      written := written + [CallReply(id, 0, false, [])];
    }
  }

  // ----- The service's router connection -----

  predicate IsAnswer(e: RR.Event<Msg>, id: string) { e.Reply? && e.id == id }

  /** The replies to `id` among the events of a router connection. */
  function AnswersIn(events: seq<RR.Event<Msg>>, id: string): seq<Msg> {
    if events == [] then []
    else
      var init, e := AnswersIn(events[..|events| - 1], id), events[|events| - 1];
      if IsAnswer(e, id) then init + [e.data] else init
  }

  /** The replies to `id` delivered to `dst` since the latest forward of `id`. */
  function Sent(log: seq<RR.Entry<Msg>>, id: string, dst: ConnId): seq<Msg> {
    if log == [] then []
    else
      var e := log[|log| - 1];
      if e.id != id then Sent(log[..|log| - 1], id, dst)
      else if e.Asked? then []
      else if e.dst == dst then Sent(log[..|log| - 1], id, dst) + [e.data]
      else Sent(log[..|log| - 1], id, dst)
  }

  /** The request id is not reused, the caller stays, and replies carry their own type. */
  ghost predicate LeavesAlone(e: RR.Event<Msg>, id: string, caller: ConnId) {
    && !(e.Forward? && e.id == id && !e.noReply) && e != RR.CloseChannel(caller)
    && (IsAnswer(e, id) ==> e.data.CallReply? && e.full == !e.data.partial)
  }

  ghost predicate Undisturbed(events: seq<RR.Event<Msg>>, id: string, caller: ConnId) {
    forall e :: e in events ==> LeavesAlone(e, id, caller)
  }

  ghost predicate OnlyLastIsFull(rs: seq<Msg>) {
    forall i :: 0 <= i < |rs| - 1 ==> rs[i].CallReply? && rs[i].partial
  }

  ghost predicate Open(rs: seq<Msg>) {
    forall i :: 0 <= i < |rs| ==> rs[i].CallReply? && rs[i].partial
  }

  /** The replies up to and including the first Full one: what a conversation delivers. */
  ghost function UpToFull(rs: seq<Msg>): seq<Msg> {
    if rs == [] then []
    else
      var init := UpToFull(rs[..|rs| - 1]);
      if Open(init) then init + [rs[|rs| - 1]] else init
  }

  lemma {:induction false} UpToFullMeaning(rs: seq<Msg>)
    ensures UpToFull(rs) <= rs && OnlyLastIsFull(UpToFull(rs))
    ensures Open(UpToFull(rs)) ==> UpToFull(rs) == rs
    ensures OnlyLastIsFull(rs) ==> UpToFull(rs) == rs
  {
    if rs == [] {
    } else {
      var init := rs[..|rs| - 1];
      UpToFullMeaning(init);
      assert rs == init + [rs[|rs| - 1]];
      if OnlyLastIsFull(rs) {
        assert forall i :: 0 <= i < |init| ==> init[i] == rs[i];
        assert Open(init) && OnlyLastIsFull(init);
      }
      if !Open(UpToFull(init)) {
        assert UpToFull(rs) == UpToFull(init);
      } else {
        assert UpToFull(rs) == rs;
        assert forall i :: 0 <= i < |init| ==> init[i] == rs[i];
      }
    }
  }

  ghost predicate Serving(r: RR.Routing<Msg>, id: string, caller: ConnId, sent: seq<Msg>) {
    && caller !in r.closed
    && Sent(r.log, id, caller) == sent
    && if Open(sent) then id in r.replyMap && r.replyMap[id] == caller else id !in r.replyMap
  }

  lemma SentSnoc(log: seq<RR.Entry<Msg>>, e: RR.Entry<Msg>, id: string, dst: ConnId)
    ensures Sent(log + [e], id, dst) ==
            if e.id != id then Sent(log, id, dst)
            else if e.Asked? then []
            else if e.dst == dst then Sent(log, id, dst) + [e.data]
            else Sent(log, id, dst)
  {
    assert (log + [e])[..|log|] == log;
  }

  lemma ServeForward(r: RR.Routing<Msg>, i: string, noReply: bool, from: ConnId, id: string, caller: ConnId, sent: seq<Msg>)
    requires Serving(r, id, caller, sent) && (noReply || i != id)
    ensures Serving(RR.HandleForward(r, i, noReply, from), id, caller, sent)
  {
    SentSnoc(r.log, RR.Asked(i, from), id, caller);
  }

  lemma ServeOther(r: RR.Routing<Msg>, i: string, full: bool, m: Msg, id: string, caller: ConnId, sent: seq<Msg>)
    requires Serving(r, id, caller, sent) && i != id
    ensures Serving(RR.HandleReply(r, i, full, m), id, caller, sent)
  {
    if i in r.replyMap {
      SentSnoc(r.log, RR.Delivered(i, full, m, r.replyMap[i]), id, caller);
    }
  }

  lemma ServeAnswer(r: RR.Routing<Msg>, full: bool, m: Msg, id: string, caller: ConnId, sent: seq<Msg>)
    requires Serving(r, id, caller, sent) && m.CallReply? && full == !m.partial
    ensures Serving(RR.HandleReply(r, id, full, m), id, caller, if Open(sent) then sent + [m] else sent)
  {
    if Open(sent) {
      SentSnoc(r.log, RR.Delivered(id, full, m, caller), id, caller);
      OpenSnoc(sent, m);
    }
  }

  lemma ServePrune(r: RR.Routing<Msg>, id: string, caller: ConnId, sent: seq<Msg>)
    requires Serving(r, id, caller, sent)
    ensures Serving(RR.PruneDead(r), id, caller, sent)
  {
  }

  lemma ServeStep(r: RR.Routing<Msg>, e: RR.Event<Msg>, id: string, caller: ConnId, sent: seq<Msg>)
    requires Serving(r, id, caller, sent) && LeavesAlone(e, id, caller)
    ensures Serving(RR.Step(r, e), id, caller, if IsAnswer(e, id) && Open(sent) then sent + [e.data] else sent)
  {
    if e.Forward? {
      ServeForward(r, e.id, e.noReply, e.from, id, caller, sent);
    } else if e.Prune? {
      ServePrune(r, id, caller, sent);
    } else if IsAnswer(e, id) {
      ServeAnswer(r, e.full, e.data, id, caller, sent);
    } else if e.Reply? {
      ServeOther(r, e.id, e.full, e.data, id, caller, sent);
    }
  }

  lemma UpToFullSnoc(rs: seq<Msg>, m: Msg)
    ensures UpToFull(rs + [m]) == if Open(UpToFull(rs)) then UpToFull(rs) + [m] else UpToFull(rs)
  {
    assert (rs + [m])[..|rs|] == rs;
  }

  lemma RoutingConcat(start: seq<RR.Event<Msg>>, after: seq<RR.Event<Msg>>)
    requires after != []
    ensures RR.Exec(start + after) == RR.Step(RR.Exec(start + after[..|after| - 1]), after[|after| - 1])
  {
    LastOfConcat(start, after);
  }

  lemma UndisturbedSnoc(after: seq<RR.Event<Msg>>, id: string, caller: ConnId)
    requires after != [] && Undisturbed(after, id, caller)
    ensures Undisturbed(after[..|after| - 1], id, caller) && LeavesAlone(after[|after| - 1], id, caller)
  {
  }

  lemma ServiceForwards(before: seq<RR.Event<Msg>>, id: string, caller: ConnId)
    requires caller !in RR.Exec(before).closed
    ensures Serving(RR.Exec(before + [RR.Forward(id, false, caller)]), id, caller, [])
  {
    RoutingConcat(before, [RR.Forward(id, false, caller)]);
    ConcatNothing(before);
    SentSnoc(RR.Exec(before).log, RR.Asked(id, caller), id, caller);
  }

  /** Whatever else passes, the replies to a forwarded request that reach its caller are those that arrived, up
      to the first Full one; later ones are dropped. */
  lemma {:induction false} ServiceRepliesAreDelivered(
    before: seq<RR.Event<Msg>>, id: string, caller: ConnId, after: seq<RR.Event<Msg>>)
    requires caller !in RR.Exec(before).closed && Undisturbed(after, id, caller)
    ensures Serving(RR.Exec(before + [RR.Forward(id, false, caller)] + after), id, caller,
                    UpToFull(AnswersIn(after, id)))
  {
    var start := before + [RR.Forward(id, false, caller)];
    if after == [] {
      ServiceForwards(before, id, caller);
      ConcatNothing(start);
    } else {
      var init, e := after[..|after| - 1], after[|after| - 1];
      var answers := AnswersIn(init, id);
      UndisturbedSnoc(after, id, caller);
      ServiceRepliesAreDelivered(before, id, caller, init);
      RoutingConcat(start, after);
      ServeStep(RR.Exec(start + init), e, id, caller, UpToFull(answers));
      if IsAnswer(e, id) {
        UpToFullSnoc(answers, e.data);
      }
    }
  }

  // ----- The caller's router connection -----

  function About(id: string): Msg -> bool { (m: Msg) => m.CallReply? && m.id == id }

  function MessageOf(offers: seq<Msg>, x: BP.Item<Msg>): Msg {
    match x
    case Direct(m) => m
    case Forwarded(i) => if i < |offers| then offers[i] else OtherMsg
  }

  function AsMessage(offers: seq<Msg>): BP.Item<Msg> -> Msg { (x: BP.Item<Msg>) => MessageOf(offers, x) }

  /** The messages that left through the sink, in order. */
  function Received(o: BP.Out<Msg>): seq<Msg> {
    Map(AsMessage(o.offers), o.writer.handed)
  }

  ghost predicate InRange(ids: seq<nat>, n: nat) { forall i :: 0 <= i < |ids| ==> ids[i] < n }

  lemma IdsSnoc(items: seq<BP.Item<Msg>>, x: BP.Item<Msg>)
    ensures BP.Ids(items + [x]) == if x.Forwarded? then BP.Ids(items) + [x.id] else BP.Ids(items)
  {
    LastOfConcat(items, [x]);
    ConcatNothing(items);
  }

  lemma ForwardedSnoc(offers: seq<Msg>, items: seq<BP.Item<Msg>>, x: BP.Item<Msg>, id: string)
    requires InRange(BP.Ids(items), |offers|) && InRange(BP.Ids(items + [x]), |offers|)
    requires x.Direct? ==> !About(id)(x.msg)
    requires Filter(About(id), Map(AsMessage(offers), items)) == Filter(About(id), Select(offers, BP.Ids(items)))
    ensures Filter(About(id), Map(AsMessage(offers), items + [x])) ==
            Filter(About(id), Select(offers, BP.Ids(items + [x])))
  {
    IdsSnoc(items, x);
    FilterMapSnoc(About(id), AsMessage(offers), items, x);
    if x.Forwarded? {
      var ids := BP.Ids(items);
      assert (ids + [x.id])[|ids|] < |offers|;
      FilterSelectSnoc(About(id), offers, ids, x.id);
    }
  }

  lemma {:induction false} ForwardedShare(offers: seq<Msg>, items: seq<BP.Item<Msg>>, id: string)
    requires forall x :: x in items && x.Direct? ==> !About(id)(x.msg)
    requires InRange(BP.Ids(items), |offers|)
    ensures Filter(About(id), Map(AsMessage(offers), items)) == Filter(About(id), Select(offers, BP.Ids(items)))
  {
    if items == [] {
    } else {
      var init, x := items[..|items| - 1], items[|items| - 1];
      assert items == init + [x];
      IdsSnoc(init, x);
      assert InRange(BP.Ids(init), |offers|) by {
        assert BP.Ids(init) <= BP.Ids(items);
      }
      ForwardedShare(offers, init, id);
      ForwardedSnoc(offers, init, x, id);
    }
  }

  /** The replies to one call that leave are a subsequence of those offered, and all of them if nothing was
      canceled and the output is drained. */
  lemma CallerOutput(mark: nat, events: seq<BP.Event<Msg>>, id: string)
    requires forall x :: x in BP.Exec(mark, events).writer.handed && x.Direct? ==> !About(id)(x.msg)
    ensures var o := BP.Exec(mark, events);
            && IsSubseq(Filter(About(id), Received(o)), Filter(About(id), o.offers))
            && (!BP.Canceled(o) && o.hold == [] && o.writer.buffer == [] ==>
                  Filter(About(id), Received(o)) == Filter(About(id), o.offers))
  {
    var o := BP.Exec(mark, events);
    var ids := BP.Ids(o.writer.handed);
    BP.OneOutcomeInOfferOrder(mark, events);
    HandedInOrder(o);
    ForwardedShare(o.offers, o.writer.handed, id);
    SelectSubseq(o.offers, ids, |o.offers|);
    assert o.offers[..|o.offers|] == o.offers;
    FilterSubseq(About(id), Select(o.offers, ids), o.offers);
    if !BP.Canceled(o) && o.hold == [] && o.writer.buffer == [] {
      BP.NothingLostNothingMissing(mark, events);
      HandedEverything(o);
    }
  }

  lemma HandedInOrder(o: BP.Out<Msg>)
    requires Increasing(BP.Written(o)) && Under(BP.Written(o), |o.offers|)
    ensures Increasing(BP.Ids(o.writer.handed)) && InRange(BP.Ids(o.writer.handed), |o.offers|)
  {
    var w, ids := BP.Written(o), BP.Ids(o.writer.handed);
    BP.IdsConcat(o.writer.handed, o.writer.buffer);
    forall i | 0 <= i < |ids| ensures w[i] == ids[i] && ids[i] < |o.offers| {
      assert w[i] in w;
    }
  }

  lemma HandedEverything(o: BP.Out<Msg>)
    requires o.hold == [] && o.writer.buffer == [] && BP.Written(o) + o.hold == seq(|o.offers|, i => i)
    ensures InRange(BP.Ids(o.writer.handed), |o.offers|) && Select(o.offers, BP.Ids(o.writer.handed)) == o.offers
  {
    var ids := BP.Ids(o.writer.handed);
    ConcatNothing(o.writer.handed);
    ConcatNothing(ids);
    assert ids == seq(|o.offers|, i => i);
  }

  // ----- The caller's client -----

  function ItemOf(m: Msg): CallerItem {
    if m.OtherMsg? then Failure([])
    else if m.code == 400 then BadRequest(m.data)
    else if m.code == 500 then Failure(m.data)
    else Got(if m.partial then Part(m.data) else Full(m.data))
  }

  /** What the channel of an open call receives from the replies to it: all up to the first Full one. */
  function Deliver(ms: seq<Msg>): seq<CallerItem> {
    if ms == [] then []
    else [ItemOf(ms[0])] + if ms[0].CallReply? && ms[0].partial then Deliver(ms[1..]) else []
  }

  predicate NotEos(x: CallerItem) { x != Got(Full([])) }

  /** The stream the caller's application sees. */
  function Heard(ms: seq<Msg>): seq<CallerItem> { Filter(NotEos, Deliver(ms)) }

  function View(x: ServiceItem): CallerItem {
    match x
    case Produced(c) => Got(c)
    case Broken(text) => Failure(text)
  }

  function Expected(items: seq<ServiceItem>): seq<CallerItem> { Filter(NotEos, Map(View, items)) }

  /** What each kind of reply is to the caller. */
  lemma ItemMeaning(m: Msg)
    requires m.CallReply?
    ensures m.code == 0 ==> ItemOf(m) == Got(if m.partial then Part(m.data) else Full(m.data))
    ensures m.code == 400 ==> ItemOf(m) == BadRequest(m.data)
    ensures m.code == 500 ==> ItemOf(m) == Failure(m.data)
  {
  }

  lemma {:induction false} FilterKeepsAll<T>(p: T -> bool, s: seq<T>)
    requires forall i :: 0 <= i < |s| ==> p(s[i])
    ensures Filter(p, s) == s
  {
    if s == [] {
    } else {
      FilterKeepsAll(p, s[..|s| - 1]);
    }
  }

  /** The stream the caller is meant to hear: every chunk and the error, in order, but for an empty Full at the
      end. */
  lemma ExpectedMeaning(items: seq<ServiceItem>)
    requires StreamShape(items)
    ensures var n := if items != [] && items[|items| - 1] == Produced(Full([])) then |items| - 1 else |items|;
            && |Expected(items)| == n
            && forall i :: 0 <= i < n ==>
                 Expected(items)[i] == if items[i].Produced? then Got(items[i].chunk) else Failure(items[i].text)
  {
    if items == [] {
    } else {
      var init, last := items[..|items| - 1], items[|items| - 1];
      assert items == init + [last];
      FilterMapSnoc(NotEos, View, init, last);
      forall i | 0 <= i < |init| ensures NotEos(Map(View, init)[i]) {
        assert !Terminal(items[i]);
      }
      FilterKeepsAll(NotEos, Map(View, init));
    }
  }

  lemma {:induction false} DeliverAll(ms: seq<Msg>)
    requires OnlyLastIsFull(ms)
    ensures Deliver(ms) == Map(ItemOf, ms)
  {
    if |ms| == 1 {
      assert ms[1..] == [];
    } else if ms != [] {
      assert ms[0].partial;
      DeliverAll(ms[1..]);
    }
  }

  lemma {:induction false} SubseqStaysOpen(a: seq<Msg>, b: seq<Msg>)
    requires IsSubseq(a, b) && Open(b)
    ensures Open(a)
    decreases |b|
  {
    if a == [] {
    } else {
      var init := b[..|b| - 1];
      if a[|a| - 1] == b[|b| - 1] && IsSubseq(a[..|a| - 1], init) {
        SubseqStaysOpen(a[..|a| - 1], init);
        assert forall i :: 0 <= i < |a| - 1 ==> a[i] == a[..|a| - 1][i];
      } else {
        SubseqStaysOpen(a, init);
      }
    }
  }

  lemma SubseqKeepsShape(a: seq<Msg>, b: seq<Msg>)
    requires IsSubseq(a, b) && OnlyLastIsFull(b)
    ensures OnlyLastIsFull(a)
  {
    if a != [] {
      var init := b[..|b| - 1];
      if a[|a| - 1] == b[|b| - 1] && IsSubseq(a[..|a| - 1], init) {
        SubseqStaysOpen(a[..|a| - 1], init);
        assert forall i :: 0 <= i < |a| - 1 ==> a[i] == a[..|a| - 1][i];
      } else {
        SubseqStaysOpen(a, init);
      }
    }
  }

  lemma EmitShape(id: string, items: seq<ServiceItem>)
    requires StreamShape(items)
    ensures OnlyLastIsFull(Emit(id, items))
    ensures Filter(NotEos, Map(ItemOf, Emit(id, items))) == Expected(items)
  {
    var rs := Replies(id, items);
    assert Map(ItemOf, rs) == Map(View, items);
    if Emit(id, items) != rs {
      var eos := CallReply(id, 0, false, []);
      assert Map(ItemOf, rs + [eos]) == Map(ItemOf, rs) + [Got(Full([]))];
      FilterSnoc(NotEos, Map(ItemOf, rs), Got(Full([])));
    }
  }

  // ----- End to end -----

  /** One call: its request id, the service's stream, the caller's connection, what happened at the service's
      connection before the call was forwarded, and the mark of the caller's connection. */
  datatype Setting = Setting(id: string, items: seq<ServiceItem>, caller: ConnId, before: seq<RR.Event<Msg>>, mark: nat)

  /** The call under way: how far the replies have come, and what the two router connections have done. */
  datatype Pipe = Pipe(
    written: nat,                       // replies written by the service's client
    read: nat,                          // of these, read by the service's router connection
    service: seq<RR.Event<Msg>>,
    taken: nat,                         // replies offered to the output of the caller's router connection
    caller: seq<BP.Event<Msg>>)

  datatype Event =
    | ServiceWrites
    | ServiceRouterReads
    | ServiceRouterMoves(r: RR.Event<Msg>)      // other traffic at the service's router connection
    | CallerTakes
    | CallerMoves(b: BP.Event<Msg>)             // other traffic and the sink at the caller's router connection

  function Routed(c: Setting, p: Pipe): RR.Routing<Msg> {
    RR.Exec(c.before + [RR.Forward(c.id, false, c.caller)] + p.service)
  }

  function Output(c: Setting, p: Pipe): BP.Out<Msg> { BP.Exec(c.mark, p.caller) }

  function InTransit(c: Setting, p: Pipe): seq<Msg> { Sent(Routed(c, p).log, c.id, c.caller) }

  /** The request id is fresh, the caller's connection stays, and the forward itself did not fail. */
  predicate Allowed(c: Setting, p: Pipe, e: Event) {
    match e
    case ServiceWrites => p.written < |Emit(c.id, c.items)|
    case ServiceRouterReads => p.read < p.written <= |Emit(c.id, c.items)|
    case ServiceRouterMoves(r) =>
      !IsAnswer(r, c.id) && !(r.Forward? && r.id == c.id && !r.noReply) && r != RR.CloseChannel(c.caller)
    case CallerTakes => p.taken < |InTransit(c, p)| && Output(c, p).running
    case CallerMoves(b) => b.Offer? || b.Reply? ==> !About(c.id)(b.msg)
  }

  function Advance(c: Setting, p: Pipe, e: Event): Pipe {
    if !Allowed(c, p, e) then p else
    match e
    case ServiceWrites => p.(written := p.written + 1)
    case ServiceRouterReads =>
      var m := Emit(c.id, c.items)[p.read];
      p.(read := p.read + 1, service := p.service + [RR.Reply(c.id, m.CallReply? && !m.partial, m)])
    case ServiceRouterMoves(r) => p.(service := p.service + [r])
    case CallerTakes => p.(taken := p.taken + 1, caller := p.caller + [BP.Offer(InTransit(c, p)[p.taken])])
    case CallerMoves(b) => p.(caller := p.caller + [b])
  }

  function Run(c: Setting, events: seq<Event>): Pipe {
    if events == [] then Pipe(0, 0, [], 0, [])
    else Advance(c, Run(c, events[..|events| - 1]), events[|events| - 1])
  }

  ghost predicate NoDirect(o: BP.Out<Msg>, id: string) {
    forall x :: x in o.writer.handed + o.writer.buffer && x.Direct? ==> !About(id)(x.msg)
  }

  ghost predicate PipeInv(c: Setting, p: Pipe) {
    var all := Emit(c.id, c.items);
    && p.taken <= p.read <= p.written <= |all|
    && Undisturbed(p.service, c.id, c.caller) && AnswersIn(p.service, c.id) == all[..p.read]
    && Filter(About(c.id), Output(c, p).offers) == all[..p.taken]
    && NoDirect(Output(c, p), c.id)
  }

  lemma OutputStep(o: BP.Out<Msg>, b: BP.Event<Msg>, id: string)
    requires NoDirect(o, id) && (b.Reply? ==> !About(id)(b.msg))
    ensures NoDirect(BP.Step(o, b), id)
    ensures BP.Step(o, b).offers == if b.Offer? && o.running then o.offers + [b.msg] else o.offers
  {
    if b.PollSink? && o.running {
      BP.PollKeepsWritten(o, b.answers);
      var w := SW.Poll(o.writer, b.answers);
      forall x | x in BP.Step(o, b).writer.handed + BP.Step(o, b).writer.buffer && x.Direct? ensures !About(id)(x.msg) {
        assert x in w.handed + w.buffer;
      }
    }
  }

  lemma EmittedShape(id: string, items: seq<ServiceItem>, n: nat)
    requires StreamShape(items) && n <= |Emit(id, items)|
    ensures OnlyLastIsFull(Emit(id, items)[..n])
    ensures forall m :: m in Emit(id, items) ==> About(id)(m)
  {
    EmitShape(id, items);
    assert forall i :: 0 <= i < n ==> Emit(id, items)[..n][i] == Emit(id, items)[i];
  }

  /** What is in transit to the caller's connection is what the service's connection has read. */
  lemma TransitIsRead(c: Setting, p: Pipe)
    requires StreamShape(c.items) && c.caller !in RR.Exec(c.before).closed && PipeInv(c, p)
    ensures InTransit(c, p) == Emit(c.id, c.items)[..p.read]
  {
    ServiceRepliesAreDelivered(c.before, c.id, c.caller, p.service);
    EmittedShape(c.id, c.items, p.read);
    UpToFullMeaning(AnswersIn(p.service, c.id));
  }

  lemma ServiceAdvance(c: Setting, p: Pipe, r: RR.Event<Msg>)
    requires Undisturbed(p.service, c.id, c.caller) && Undisturbed([r], c.id, c.caller)
    ensures Undisturbed(p.service + [r], c.id, c.caller)
    ensures AnswersIn(p.service + [r], c.id) == AnswersIn(p.service, c.id) + if IsAnswer(r, c.id) then [r.data] else []
  {
    assert (p.service + [r])[..|p.service|] == p.service;
    assert r in [r];
  }

  lemma CallerAdvance(c: Setting, p: Pipe, b: BP.Event<Msg>)
    requires NoDirect(Output(c, p), c.id) && (b.Reply? ==> !About(c.id)(b.msg))
    ensures var after := p.(caller := p.caller + [b]);
            && NoDirect(Output(c, after), c.id)
            && Filter(About(c.id), Output(c, after).offers) == Filter(About(c.id), Output(c, p).offers)
               + if b.Offer? && Output(c, p).running && About(c.id)(b.msg) then [b.msg] else []
  {
    BP.ExecOne(c.mark, p.caller, b);
    OutputStep(Output(c, p), b, c.id);
    if b.Offer? {
      FilterSnoc(About(c.id), Output(c, p).offers, b.msg);
    }
  }

  lemma PrefixSnoc<T>(s: seq<T>, n: nat)
    requires n < |s|
    ensures s[..n + 1] == s[..n] + [s[n]] && s[n] in s
  {
  }

  lemma ReadKeepsPipe(c: Setting, p: Pipe)
    requires StreamShape(c.items) && PipeInv(c, p) && Allowed(c, p, ServiceRouterReads)
    ensures PipeInv(c, Advance(c, p, ServiceRouterReads))
  {
    var all := Emit(c.id, c.items);
    EmittedShape(c.id, c.items, |all|);
    PrefixSnoc(all, p.read);
    ServiceAdvance(c, p, RR.Reply(c.id, all[p.read].CallReply? && !all[p.read].partial, all[p.read]));
  }

  lemma TakeKeepsPipe(c: Setting, p: Pipe)
    requires StreamShape(c.items) && c.caller !in RR.Exec(c.before).closed && PipeInv(c, p)
    requires Allowed(c, p, CallerTakes)
    ensures PipeInv(c, Advance(c, p, CallerTakes))
  {
    var all := Emit(c.id, c.items);
    EmittedShape(c.id, c.items, |all|);
    TransitIsRead(c, p);
    PrefixSnoc(all, p.taken);
    assert InTransit(c, p)[p.taken] == all[p.taken];
    CallerAdvance(c, p, BP.Offer(all[p.taken]));
  }

  lemma OthersKeepPipe(c: Setting, p: Pipe, e: Event)
    requires PipeInv(c, p) && Allowed(c, p, e) && (e.ServiceRouterMoves? || e.CallerMoves?)
    ensures PipeInv(c, Advance(c, p, e))
  {
    if e.ServiceRouterMoves? {
      ServiceAdvance(c, p, e.r);
    } else {
      CallerAdvance(c, p, e.b);
    }
  }

  lemma AdvanceKeepsInv(c: Setting, p: Pipe, e: Event)
    requires StreamShape(c.items) && c.caller !in RR.Exec(c.before).closed && PipeInv(c, p) && Allowed(c, p, e)
    ensures PipeInv(c, Advance(c, p, e))
  {
    if e.ServiceRouterReads? {
      ReadKeepsPipe(c, p);
    } else if e.CallerTakes? {
      TakeKeepsPipe(c, p);
    } else if e.ServiceWrites? {
    } else {
      OthersKeepPipe(c, p, e);
    }
  }

  lemma {:induction false} PipeReachable(c: Setting, events: seq<Event>)
    requires StreamShape(c.items) && c.caller !in RR.Exec(c.before).closed
    ensures PipeInv(c, Run(c, events))
  {
    if events == [] {
    } else {
      var p, e := Run(c, events[..|events| - 1]), events[|events| - 1];
      PipeReachable(c, events[..|events| - 1]);
      if Allowed(c, p, e) {
        AdvanceKeepsInv(c, p, e);
      }
    }
  }

  /** Everything the service emitted has been read, offered and sent out. */
  predicate Through(c: Setting, p: Pipe) {
    p.taken == |Emit(c.id, c.items)| && Output(c, p).hold == [] && Output(c, p).writer.buffer == []
  }

  /** For every service stream of Part chunks optionally ended by one Full chunk or error, and every run of the
      call with any other traffic at both router connections and any behaviour of the caller's socket: at any
      moment the caller has heard a subsequence of the stream; and it has heard exactly the stream once
      everything went through, if no step of the caller's output was lossy. */
  lemma StreamEndToEnd(c: Setting, events: seq<Event>)
    requires StreamShape(c.items) && c.caller !in RR.Exec(c.before).closed
    ensures var p := Run(c, events);
            var heard := Heard(Filter(About(c.id), Received(Output(c, p))));
            && IsSubseq(heard, Expected(c.items))
            && (Through(c, p) && (forall n: nat :: !BP.LosesAt(c.mark, p.caller, n)) ==> heard == Expected(c.items))
  {
    var p, all := Run(c, events), Emit(c.id, c.items);
    var o := Output(c, p);
    var out := Filter(About(c.id), Received(o));
    PipeReachable(c, events);
    EmitShape(c.id, c.items);
    assert forall x :: x in o.writer.handed ==> x in o.writer.handed + o.writer.buffer;
    CallerOutput(c.mark, p.caller, c.id);
    SubseqOfPrefix(out, all[..p.taken], all);
    HeardSubseq(out, all);
    BP.LossExactly(c.mark, p.caller);
    assert all[..|all|] == all;
  }

  /** An output with nothing on its way and nothing lost. */
  ghost predicate Calm(o: BP.Out<Msg>) {
    && o.running && o.hold == [] && o.writer.buffer == []
    && !o.writer.closing && !o.writer.closed && !o.writer.done && !BP.Canceled(o)
  }

  /** Below the mark a message goes straight out with the next poll of a willing sink. */
  lemma StraightOut(o: BP.Out<Msg>, m: Msg)
    requires Calm(o) && o.mark > 0
    ensures Calm(BP.PollOut(BP.SendMessage(o, m), BP.Willing(2)))
  {
    var sent := BP.SendMessage(o, m);
    var polled := BP.PollOut(sent, BP.Willing(2));
    assert BP.Waiting([], o.gone) == [] && |sent.writer.buffer| == 1;
    assert polled.settled == sent.settled;
  }

  /** A reply is written, read by the service's router connection, offered to the caller's and sent out. */
  function Round(c: Setting, p: Pipe): Pipe {
    var p1 := Advance(c, p, ServiceWrites);
    var p2 := Advance(c, p1, ServiceRouterReads);
    var p3 := Advance(c, p2, CallerTakes);
    Advance(c, p3, CallerMoves(BP.PollSink(BP.Willing(2))))
  }

  lemma RunOne(c: Setting, events: seq<Event>, e: Event)
    ensures Run(c, events + [e]) == Advance(c, Run(c, events), e)
  {
    assert (events + [e])[..|events|] == events;
  }

  lemma RunRound(c: Setting, events: seq<Event>) returns (longer: seq<Event>)
    ensures Run(c, longer) == Round(c, Run(c, events))
  {
    var e1 := events + [ServiceWrites];
    var e2 := e1 + [ServiceRouterReads];
    var e3 := e2 + [CallerTakes];
    longer := e3 + [CallerMoves(BP.PollSink(BP.Willing(2)))];
    RunOne(c, events, ServiceWrites);
    RunOne(c, e1, ServiceRouterReads);
    RunOne(c, e2, CallerTakes);
    RunOne(c, e3, CallerMoves(BP.PollSink(BP.Willing(2))));
  }

  /** Written and read, the next reply is in transit. */
  lemma ReplySetsOut(c: Setting, p: Pipe)
    requires StreamShape(c.items) && c.caller !in RR.Exec(c.before).closed && PipeInv(c, p)
    requires p.written == p.read == p.taken < |Emit(c.id, c.items)|
    ensures var q := Advance(c, Advance(c, p, ServiceWrites), ServiceRouterReads);
            && q.written == q.read == p.taken + 1 && q.taken == p.taken && q.caller == p.caller
            && p.taken < |InTransit(c, q)|
  {
    var p1 := Advance(c, p, ServiceWrites);
    AdvanceKeepsInv(c, p, ServiceWrites);
    assert Allowed(c, p1, ServiceRouterReads);
    ReadKeepsPipe(c, p1);
    TransitIsRead(c, Advance(c, p1, ServiceRouterReads));
  }

  lemma AdvanceTakes(c: Setting, p: Pipe)
    requires p.taken < |InTransit(c, p)| && Output(c, p).running
    ensures Advance(c, p, CallerTakes) ==
            Pipe(p.written, p.read, p.service, p.taken + 1, p.caller + [BP.Offer(InTransit(c, p)[p.taken])])
  {
  }

  lemma AdvancePolls(c: Setting, p: Pipe, a: SW.SinkAnswers)
    ensures Advance(c, p, CallerMoves(BP.PollSink(a))) ==
            Pipe(p.written, p.read, p.service, p.taken, p.caller + [BP.PollSink(a)])
  {
  }

  /** A message offered to a calm output and one poll of a willing sink. */
  lemma OfferedAndPolled(mark: nat, events: seq<BP.Event<Msg>>, m: Msg)
    requires Calm(BP.Exec(mark, events)) && BP.Exec(mark, events).mark > 0
    ensures BP.Exec(mark, events + [BP.Offer(m)]).running
    ensures Calm(BP.Exec(mark, events + [BP.Offer(m)] + [BP.PollSink(BP.Willing(2))]))
  {
    BP.ExecOne(mark, events, BP.Offer(m));
    BP.ExecOne(mark, events + [BP.Offer(m)], BP.PollSink(BP.Willing(2)));
    StillRunning(BP.Exec(mark, events), m);
    StraightOut(BP.Exec(mark, events), m);
  }

  /** In transit, it is taken and goes straight out. */
  lemma ReplyGoesOut(c: Setting, p: Pipe)
    requires p.taken < |InTransit(c, p)| && Calm(Output(c, p)) && Output(c, p).mark > 0
    ensures var q := Advance(c, Advance(c, p, CallerTakes), CallerMoves(BP.PollSink(BP.Willing(2))));
            && q.written == p.written && q.read == p.read && q.taken == p.taken + 1 && Calm(Output(c, q))
  {
    AdvanceTakes(c, p);
    AdvancePolls(c, Advance(c, p, CallerTakes), BP.Willing(2));
    OfferedAndPolled(c.mark, p.caller, InTransit(c, p)[p.taken]);
  }

  lemma StillRunning(o: BP.Out<Msg>, m: Msg)
    ensures BP.SendMessage(o, m).running == o.running
  {
  }

  /** One reply travels all the way. */
  lemma ReplyTravels(c: Setting, p: Pipe)
    requires StreamShape(c.items) && c.caller !in RR.Exec(c.before).closed && c.mark > 0 && PipeInv(c, p)
    requires p.written == p.read == p.taken < |Emit(c.id, c.items)| && Calm(Output(c, p)) && Output(c, p).mark == c.mark
    ensures var q := Round(c, p);
            q.written == q.read == q.taken == p.taken + 1 && Calm(Output(c, q))
  {
    ReplySetsOut(c, p);
    ReplyGoesOut(c, Advance(c, Advance(c, p, ServiceWrites), ServiceRouterReads));
  }

  /** For every stream and every mark above zero there is a run in which all of it is heard. */
  lemma {:induction false} RepliesArrive(c: Setting, n: nat) returns (events: seq<Event>)
    requires StreamShape(c.items) && c.caller !in RR.Exec(c.before).closed && c.mark > 0
    requires n <= |Emit(c.id, c.items)|
    ensures var p := Run(c, events); p.written == p.read == p.taken == n && Calm(Output(c, p))
  {
    if n == 0 {
      events := [];
      assert Run(c, []) == Pipe(0, 0, [], 0, []);
    } else {
      var init := RepliesArrive(c, n - 1);
      events := RunRound(c, init);
      PipeReachable(c, init);
      BP.Reachable(c.mark, Run(c, init).caller);
      ReplyTravels(c, Run(c, init));
    }
  }

  lemma StreamArrives(c: Setting) returns (events: seq<Event>)
    requires StreamShape(c.items) && c.caller !in RR.Exec(c.before).closed && c.mark > 0
    ensures Heard(Filter(About(c.id), Received(Output(c, Run(c, events))))) == Expected(c.items)
  {
    events := RepliesArrive(c, |Emit(c.id, c.items)|);
    var p := Run(c, events);
    BP.LossExactly(c.mark, p.caller);
    StreamEndToEnd(c, events);
  }

  lemma HeardSubseq(out: seq<Msg>, all: seq<Msg>)
    requires IsSubseq(out, all) && OnlyLastIsFull(all)
    ensures IsSubseq(Heard(out), Filter(NotEos, Map(ItemOf, all)))
    ensures out == all ==> Heard(out) == Filter(NotEos, Map(ItemOf, all))
  {
    SubseqKeepsShape(out, all);
    DeliverAll(out);
    MapSubseq(ItemOf, out, all);
    FilterSubseq(NotEos, Map(ItemOf, out), Map(ItemOf, all));
  }

  // ----- Calls the router answers itself -----

  /** The direct replies to one call among a stretch of output. */
  function DirectAbout(items: seq<BP.Item<Msg>>, id: string): seq<Msg> {
    if items == [] then []
    else
      var init, x := DirectAbout(items[..|items| - 1], id), items[|items| - 1];
      if x.Direct? && About(id)(x.msg) then init + [x.msg] else init
  }

  lemma {:induction false} DirectConcat(s: seq<BP.Item<Msg>>, t: seq<BP.Item<Msg>>, id: string)
    ensures DirectAbout(s + t, id) == DirectAbout(s, id) + DirectAbout(t, id)
  {
    if t == [] {
      ConcatNothing(s);
    } else {
      DirectConcat(s, t[..|t| - 1], id);
      LastOfConcat(s, t);
    }
  }

  lemma {:induction false} NoDirectItems(items: seq<BP.Item<Msg>>, id: string)
    requires forall i :: 0 <= i < |items| ==> items[i].Forwarded?
    ensures DirectAbout(items, id) == []
  {
    if items == [] {
    } else {
      NoDirectItems(items[..|items| - 1], id);
    }
  }

  /** If no offered message is a reply to the call, only direct ones can be. */
  lemma {:induction false} DirectShare(offers: seq<Msg>, items: seq<BP.Item<Msg>>, id: string)
    requires forall i :: 0 <= i < |offers| ==> !About(id)(offers[i])
    ensures Filter(About(id), Map(AsMessage(offers), items)) == DirectAbout(items, id)
  {
    if items == [] {
    } else {
      var init, x := items[..|items| - 1], items[|items| - 1];
      DirectShare(offers, init, id);
      assert items == init + [x];
      FilterMapSnoc(About(id), AsMessage(offers), init, x);
    }
  }

  /** The router's own replies to one call, in the order made. */
  function RepliesMade(mark: nat, events: seq<BP.Event<Msg>>, id: string): seq<Msg> {
    if events == [] then []
    else
      var init, e := events[..|events| - 1], events[|events| - 1];
      if e.Reply? && About(id)(e.msg) && BP.Exec(mark, init).running then RepliesMade(mark, init, id) + [e.msg]
      else RepliesMade(mark, init, id)
  }

  ghost predicate NotOffered(events: seq<BP.Event<Msg>>, id: string) {
    forall e :: e in events && e.Offer? ==> !About(id)(e.msg)
  }

  ghost predicate OnlyDirect(o: BP.Out<Msg>, id: string, made: seq<Msg>) {
    && (forall i :: 0 <= i < |o.offers| ==> !About(id)(o.offers[i]))
    && DirectAbout(o.writer.handed + o.writer.buffer, id) == made
  }

  lemma MoreOutput(o: BP.Out<Msg>, items: seq<BP.Item<Msg>>, id: string)
    ensures DirectAbout(o.writer.handed + (o.writer.buffer + items), id) ==
            DirectAbout(o.writer.handed + o.writer.buffer, id) + DirectAbout(items, id)
  {
    DirectConcat(o.writer.handed + o.writer.buffer, items, id);
    ConcatAssociates(o.writer.handed, o.writer.buffer, items);
  }

  lemma OfferKeepsDirect(o: BP.Out<Msg>, m: Msg, id: string, made: seq<Msg>)
    requires OnlyDirect(o, id, made) && !About(id)(m) && BP.Inv(o)
    ensures OnlyDirect(BP.SendMessage(o, m), id, made)
  {
    var item: seq<BP.Item<Msg>> := [BP.Forwarded(|o.offers|)];
    MoreOutput(o, item, id);
    NoDirectItems(item, id);
  }

  lemma ReplyIsDirect(o: BP.Out<Msg>, m: Msg, id: string, made: seq<Msg>)
    requires OnlyDirect(o, id, made) && BP.Inv(o)
    ensures OnlyDirect(BP.SendReply(o, m), id, if About(id)(m) then made + [m] else made)
  {
    var item: seq<BP.Item<Msg>> := [BP.Direct(m)];
    MoreOutput(o, item, id);
    assert item[..0] == [] && DirectAbout(item[..0], id) == [];
  }

  lemma PollKeepsDirect(o: BP.Out<Msg>, a: SW.SinkAnswers, id: string, made: seq<Msg>)
    requires OnlyDirect(o, id, made)
    ensures OnlyDirect(BP.PollOut(o, a), id, made)
  {
    BP.PollKeepsWritten(o, a);
    var p := o.(writer := SW.Poll(o.writer, a));
    var items: seq<BP.Item<Msg>> := BP.AsItems(BP.Taken(p));
    MoreOutput(p, items, id);
    NoDirectItems(items, id);
  }

  lemma {:induction false} DirectRun(mark: nat, events: seq<BP.Event<Msg>>, id: string)
    requires NotOffered(events, id)
    ensures OnlyDirect(BP.Exec(mark, events), id, RepliesMade(mark, events, id))
  {
    if events == [] {
    } else {
      var init, e := events[..|events| - 1], events[|events| - 1];
      var o := BP.Exec(mark, init);
      DirectRun(mark, init, id);
      BP.Reachable(mark, init);
      if !o.running {
      } else if e.Offer? {
        OfferKeepsDirect(o, e.msg, id, RepliesMade(mark, init, id));
      } else if e.Reply? {
        ReplyIsDirect(o, e.msg, id, RepliesMade(mark, init, id));
      } else if e.PollSink? {
        PollKeepsDirect(o, e.answers, id, RepliesMade(mark, init, id));
      }
    }
  }

  /** The router's own replies to a call leave in the order made, and all of them once the buffer is out; no hold
      queue and no mark comes in between. */
  lemma DirectRepliesLeaveInOrder(mark: nat, events: seq<BP.Event<Msg>>, id: string)
    requires NotOffered(events, id)
    ensures var o := BP.Exec(mark, events);
            && Filter(About(id), Received(o)) <= RepliesMade(mark, events, id)
            && (o.writer.buffer == [] ==> Filter(About(id), Received(o)) == RepliesMade(mark, events, id))
  {
    var o := BP.Exec(mark, events);
    DirectRun(mark, events, id);
    DirectShare(o.offers, o.writer.handed, id);
    DirectConcat(o.writer.handed, o.writer.buffer, id);
    if o.writer.buffer == [] {
      ConcatNothing(o.writer.handed);
    }
  }

  /** At step n the router refuses the call, and nothing else in the run is a reply to it. */
  ghost predicate RefusedAt(mark: nat, events: seq<BP.Event<Msg>>, n: nat, id: string, text: Data) {
    && n < |events| && events[n] == BP.Reply(CallReply(id, 400, false, text)) && BP.Exec(mark, events[..n]).running
    && forall k :: 0 <= k < |events| && k != n && (events[k].Offer? || events[k].Reply?) ==> !About(id)(events[k].msg)
  }

  lemma {:induction false} NothingMade(mark: nat, events: seq<BP.Event<Msg>>, id: string)
    requires forall k :: 0 <= k < |events| && events[k].Reply? ==> !About(id)(events[k].msg)
    ensures RepliesMade(mark, events, id) == []
  {
    if events == [] {
    } else {
      NothingMade(mark, events[..|events| - 1], id);
    }
  }

  lemma {:induction false} OneMade(mark: nat, events: seq<BP.Event<Msg>>, n: nat, id: string, text: Data)
    requires RefusedAt(mark, events, n, id, text)
    ensures RepliesMade(mark, events, id) == [CallReply(id, 400, false, text)]
    decreases |events|
  {
    var init := events[..|events| - 1];
    if n == |init| {
      NothingMade(mark, init, id);
    } else {
      assert init[..n] == events[..n];
      OneMade(mark, init, n, id, text);
    }
  }

  /** A call the router refuses is heard as exactly that: a bad request with the router's text, and nothing
      else; at the latest once the caller's output is out. */
  lemma BadRequestIsHeard(mark: nat, events: seq<BP.Event<Msg>>, n: nat, id: string, text: Data)
    requires RefusedAt(mark, events, n, id, text)
    ensures var o := BP.Exec(mark, events);
            var heard := Heard(Filter(About(id), Received(o)));
            (heard == [] || heard == [BadRequest(text)]) && (o.writer.buffer == [] ==> heard == [BadRequest(text)])
  {
    var reply := CallReply(id, 400, false, text);
    OneMade(mark, events, n, id, text);
    DirectRepliesLeaveInOrder(mark, events, id);
    var out := Filter(About(id), Received(BP.Exec(mark, events)));
    assert out == [] || out == [reply];
    assert Deliver([reply]) == [BadRequest(text)];
    FilterSnoc(NotEos, [], BadRequest(text));
    ConcatNothing([BadRequest(text)]);
  }

  // ----- The caller's reply channels in place -----

  lemma {:induction false} DeliverSnoc(ms: seq<Msg>, m: Msg)
    ensures Deliver(ms + [m]) == if Open(ms) then Deliver(ms) + [ItemOf(m)] else Deliver(ms)
  {
    if ms == [] {
      assert (ms + [m])[1..] == [];
    } else {
      assert (ms + [m])[1..] == ms[1..] + [m];
      DeliverSnoc(ms[1..], m);
      if ms[0].CallReply? && ms[0].partial {
        assert Open(ms) <==> Open(ms[1..]) by {
          if Open(ms[1..]) {
            assert forall i :: 1 <= i < |ms| ==> ms[i] == ms[1..][i - 1];
          }
        }
      }
    }
  }

  /** The replies to `id` among the first k messages. */
  function Seen(ms: seq<Msg>, k: nat, id: string): seq<Msg>
    requires k <= |ms|
  {
    Filter(About(id), ms[..k])
  }

  /** One more message: only a reply to `id` matters, and only while the call is open. */
  lemma HearOne(ms: seq<Msg>, k: nat, id: string)
    requires k < |ms|
    ensures var seen, now, m := Seen(ms, k, id), Seen(ms, k + 1, id), ms[k];
            if m.CallReply? && m.id == id then
              && Deliver(now) == (if Open(seen) then Deliver(seen) + [ItemOf(m)] else Deliver(seen))
              && (Open(now) <==> Open(seen) && m.partial)
            else now == seen
  {
    var seen, m := Seen(ms, k, id), ms[k];
    PrefixSnoc(ms, k);
    FilterSnoc(About(id), ms[..k], m);
    DeliverSnoc(seen, m);
    OpenSnoc(seen, m);
  }

  lemma OpenSnoc(rs: seq<Msg>, m: Msg)
    ensures Open(rs + [m]) <==> Open(rs) && m.CallReply? && m.partial
  {
    assert forall i :: 0 <= i < |rs| ==> (rs + [m])[i] == rs[i];
    assert (rs + [m])[|rs|] == m;
  }

  /** One more item, as the reply's code and type have it: a chunk, a bad request or a failure. */
  ghost predicate Appended(before: seq<CallerItem>, after: seq<CallerItem>, m: Msg)
    requires m.CallReply?
  {
    && |after| == |before| + 1 && before <= after
    && var x := after[|before|];
       && (m.code == 0 ==> x == Got(if m.partial then Part(m.data) else Full(m.data)))
       && (m.code == 400 ==> x == BadRequest(m.data))
       && (m.code == 500 ==> x == Failure(m.data))
  }

  lemma AppendedIsItem(before: seq<CallerItem>, after: seq<CallerItem>, m: Msg)
    requires m.CallReply? && m.code in {0, 400, 500} && Appended(before, after, m)
    ensures after == before + [ItemOf(m)]
  {
    ItemMeaning(m);
    assert after == before + [after[|before|]];
  }

  lemma ItemIsAppended(before: seq<CallerItem>, m: Msg)
    requires m.CallReply?
    ensures Appended(before, before + [ItemOf(m)], m)
  {
    ItemMeaning(m);
  }

  class CallReplies {
    const utf8: Data -> bool                    // String::from_utf8 accepts the bytes
    var open: set<string>                       // call_reply
    var channels: map<string, seq<CallerItem>>  // what each call's channel has been sent
    var stopped: bool

    constructor (utf8: Data -> bool)
      ensures this.utf8 == utf8 && open == {} && channels == map[] && !stopped
    {
      this.utf8 := utf8;
      open, channels, stopped := {}, map[], false;
    }

    /** A known reply code and, for an error, a readable text. */
    predicate Readable(m: Msg)
    {
      m.CallReply? && m.code in {0, 400, 500} && (m.code != 0 ==> utf8(m.data))
    }

    method StartCall(id: string)
      modifies this`open, this`channels
      ensures open == old(open) + {id} && channels == old(channels)[id := []]
    {
      open := open + {id};
      channels := channels[id := []];
    }

    /** handle_reply and its caller: an unmatched reply is ignored, one that cannot be read stops the client, a
        Full one closes its call. */
    method HandleReply(m: Msg)
      requires m.CallReply? && !stopped && forall i :: i in open ==> i in channels
      modifies this`open, this`channels, this`stopped
      ensures stopped <==> m.id in old(open) && !Readable(m)
      ensures stopped ==> open == old(open) && channels == old(channels)
      ensures !stopped ==>
        && open == (if m.partial then old(open) else old(open) - {m.id})
        && channels.Keys == old(channels).Keys
        && (forall i :: i in channels && (i != m.id || i !in old(open)) ==> channels[i] == old(channels)[i])
      ensures !stopped && m.id in old(open) ==>
        m.id in channels && Appended(old(channels)[m.id], channels[m.id], m)
    {
      if m.id in open {
        if m.code !in {0, 400, 500} || (m.code != 0 && !utf8(m.data)) {
          stopped := true;
          return;
        }
        ItemIsAppended(channels[m.id], m);
        channels := channels[m.id := channels[m.id] + [ItemOf(m)]];
      }
      if !m.partial {
        open := open - {m.id};
      }
    }

    /** Whatever else arrives in between, a call's channel receives exactly its own replies up to the first
        Full one, as long as every reply to an open call can be read; the first that cannot stops the client. */
    method HandleAll(ms: seq<Msg>, id: string) returns (k: nat)
      requires id in open && id in channels && channels[id] == [] && forall i :: i in open ==> i in channels
      requires !stopped
      modifies this`open, this`channels, this`stopped
      ensures k <= |ms| && (stopped <==> k < |ms|)
      ensures stopped ==> ms[k].CallReply? && !Readable(ms[k])
      ensures id in channels && channels[id] == Deliver(Seen(ms, k, id))
      ensures id in open <==> Open(Seen(ms, k, id))
    {
      k := 0;
      while k < |ms|
        invariant k <= |ms| && !stopped
        invariant id in channels && forall i :: i in open ==> i in channels
        invariant channels[id] == Deliver(Seen(ms, k, id))
        invariant id in open <==> Open(Seen(ms, k, id))
      {
        HearOne(ms, k, id);
        if ms[k].CallReply? {
          ghost var before, wasOpen := channels[id], id in open;
          HandleReply(ms[k]);
          if stopped {
            return;
          }
          if ms[k].id == id && wasOpen {
            AppendedIsItem(before, channels[id], ms[k]);
          }
        }
        k := k + 1;
      }
    }
  }
}

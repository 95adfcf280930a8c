/**
 * The output side of a router connection: send_message, send_reply, buffer_empty
 * (crates/router/src/connection.rs) on top of the sink writer.
 *
 * The i-th message offered to `send_message` is known by its number i; `settled` is the outcome of the
 * future it returned: true for Ok, false for Canceled, absent while still pending.
 */
module BackPressure {
  import opened Common
  import opened SinkWriter

  datatype Item<M> = Direct(msg: M) | Forwarded(id: nat)

  datatype Out<M> = Out(
    mark: nat,                      // high_buffer_mark
    offers: seq<M>,
    writer: Writer<Item<M>>,
    hold: seq<nat>,                 // hold_queue
    gone: set<nat>,                 // held messages whose waiter dropped its receiver
    settled: map<nat, bool>,
    running: bool)

  datatype Event<M> =
    | Offer(msg: M)                 // send_message
    | Reply(msg: M)                 // send_reply
    | Abandon(id: nat)              // the waiter of a held message goes away
    | PollSink(answers: SinkAnswers)
    | StopCtx                       // the actor and its hold queue are dropped

  function Start<M>(mark: nat): Out<M> { Out(mark, [], Fresh(), [], {}, map[], true) }

  function SendMessage<M>(o: Out<M>, m: M): Out<M> {
    var i := |o.offers|;
    if |o.writer.buffer| < o.mark && o.hold == [] then
      o.(offers := o.offers + [m], writer := Write(o.writer, Forwarded(i)), settled := o.settled[i := true])
    else o.(offers := o.offers + [m], hold := o.hold + [i])
  }

  function SendReply<M>(o: Out<M>, m: M): Out<M> {
    o.(writer := Write(o.writer, Direct(m)))
  }

  /** The held messages somebody still waits for. */
  function Waiting(hold: seq<nat>, gone: set<nat>): seq<nat> {
    if hold == [] then []
    else (if hold[0] in gone then [] else [hold[0]]) + Waiting(hold[1..], gone)
  }

  /** What one drain lets through. */
  function Taken<M>(o: Out<M>): seq<nat> { Take(Waiting(o.hold, o.gone), o.mark) }

  function Take(s: seq<nat>, n: nat): seq<nat> { if |s| <= n then s else s[..n] }

  function AsItems<M>(ids: seq<nat>): (r: seq<Item<M>>)
    ensures |r| == |ids| && forall k :: 0 <= k < |ids| ==> r[k] == Forwarded(ids[k])
  {
    seq(|ids|, k requires 0 <= k < |ids| => Forwarded(ids[k]))
  }

  /** The futures of a drained queue: Ok for the messages let through, Canceled for the others. */
  function Settle(settled: map<nat, bool>, queue: seq<nat>, ok: seq<nat>): map<nat, bool>
    decreases |queue|
  {
    if queue == [] then settled
    else Settle(settled[queue[0] := queue[0] in ok], queue[1..], ok)
  }

  function BufferEmpty<M>(o: Out<M>): Out<M> {
    o.(writer := o.writer.(buffer := o.writer.buffer + AsItems(Taken(o))),
       settled := Settle(o.settled, o.hold, Taken(o)),
       hold := [])
  }

  function DropAll<M>(o: Out<M>): Out<M> {
    o.(settled := Settle(o.settled, o.hold, []), hold := [], running := false)
  }

  function Release<M>(o: Out<M>, i: nat): Out<M> {
    if i in o.hold then o.(gone := o.gone + {i}) else o
  }

  function PollOut<M>(o: Out<M>, a: SinkAnswers): Out<M> {
    var p := o.(writer := Poll(o.writer, a));
    if p.writer.done then DropAll(p)
    else if Emptied(o.writer, a) then BufferEmpty(p)
    else p
  }

  function Step<M>(o: Out<M>, e: Event<M>): Out<M> {
    if !o.running then o else
    match e
    case Offer(m) => SendMessage(o, m)
    case Reply(m) => SendReply(o, m)
    case Abandon(i) => Release(o, i)
    case PollSink(a) => PollOut(o, a)
    case StopCtx => DropAll(o)
  }

  function Exec<M>(mark: nat, events: seq<Event<M>>): Out<M> {
    if events == [] then Start(mark)
    else Step(Exec(mark, events[..|events| - 1]), events[|events| - 1])
  }

  // ----- Invariant -----

  /** The forwarded messages of a stretch of output, by number. */
  function Ids<M>(s: seq<Item<M>>): seq<nat> {
    if s == [] then []
    else Ids(s[..|s| - 1]) + if s[|s| - 1].Forwarded? then [s[|s| - 1].id] else []
  }

  /** Everything forwarded so far: handed to the sink or waiting in its buffer. */
  function Written<M>(o: Out<M>): seq<nat> { Ids(o.writer.handed + o.writer.buffer) }

  /** Of `n` offered messages, `w` are written, `hold` are held, the others are dropped. */
  ghost predicate Accounted(n: nat, w: seq<nat>, hold: seq<nat>, settled: map<nat, bool>) {
    && Increasing(w) && Increasing(hold) && Below(w, hold) && Under(w, n) && Under(hold, n)
    && (forall i: nat :: i in settled <==> i < n && i !in hold)
    && (forall i: nat :: i in settled ==> (settled[i] <==> i in w))
  }

  ghost predicate Inv<M>(o: Out<M>) {
    && !o.writer.closing && !o.writer.closed && (o.running ==> !o.writer.done)
    && Accounted(|o.offers|, Written(o), o.hold, o.settled)
    && |Ids(o.writer.buffer)| <= o.mark
    && (!o.running ==> o.hold == [])
  }

  lemma {:induction false} SettleMeaning(settled: map<nat, bool>, queue: seq<nat>, ok: seq<nat>)
    ensures forall i: nat :: i in Settle(settled, queue, ok) <==> i in settled || i in queue
    ensures forall i: nat :: i in Settle(settled, queue, ok) ==>
              (Settle(settled, queue, ok)[i] <==> if i in queue then i in ok else settled[i])
    decreases |queue|
  {
    if queue == [] {
    } else {
      assert queue == [queue[0]] + queue[1..];
      SettleMeaning(settled[queue[0] := queue[0] in ok], queue[1..], ok);
    }
  }

  lemma {:induction false} WaitingMeaning(hold: seq<nat>, gone: set<nat>)
    ensures forall i :: i in Waiting(hold, gone) <==> i in hold && i !in gone
    ensures |Waiting(hold, gone)| <= |hold|
  {
    if hold == [] {
    } else {
      assert hold == [hold[0]] + hold[1..];
      WaitingMeaning(hold[1..], gone);
    }
  }

  lemma AccountWritten(n: nat, w: seq<nat>, settled: map<nat, bool>)
    requires Accounted(n, w, [], settled)
    ensures Accounted(n + 1, w + [n], [], settled[n := true])
  {
    IncreasingConcat(w, [n]);
  }

  lemma AccountHeld(n: nat, w: seq<nat>, hold: seq<nat>, settled: map<nat, bool>)
    requires Accounted(n, w, hold, settled)
    ensures Accounted(n + 1, w, hold + [n], settled)
  {
    IncreasingConcat(hold, [n]);
  }

  lemma AccountDrained(n: nat, w: seq<nat>, hold: seq<nat>, settled: map<nat, bool>, taken: seq<nat>)
    requires Accounted(n, w, hold, settled)
    requires Increasing(taken) && forall i :: i in taken ==> i in hold
    ensures Accounted(n, w + taken, [], Settle(settled, hold, taken))
  {
    IncreasingConcat(w, taken);
    SettleMeaning(settled, hold, taken);
  }

  lemma {:induction false} IdsConcat<M>(s: seq<Item<M>>, t: seq<Item<M>>)
    ensures Ids(s + t) == Ids(s) + Ids(t)
  {
    if t == [] {
      assert s + t == s;
    } else {
      IdsConcat(s, t[..|t| - 1]);
      assert (s + t)[..|s + t| - 1] == s + t[..|t| - 1];
    }
  }

  lemma {:induction false} IdsOfItems<M>(ids: seq<nat>)
    ensures Ids<M>(AsItems(ids)) == ids
  {
    if ids == [] {
    } else {
      var init := ids[..|ids| - 1];
      IdsOfItems<M>(init);
      assert AsItems<M>(ids)[..|ids| - 1] == AsItems<M>(init);
      assert ids == init + [ids[|ids| - 1]];
    }
  }

  lemma {:induction false} IdsAtMost<M>(s: seq<Item<M>>)
    ensures |Ids(s)| <= |s|
  {
    if s == [] {
    } else {
      IdsAtMost(s[..|s| - 1]);
    }
  }

  lemma {:induction false} WaitingStaysOrdered(hold: seq<nat>, gone: set<nat>)
    requires Increasing(hold)
    ensures Increasing(Waiting(hold, gone))
  {
    if hold == [] {
    } else {
      WaitingStaysOrdered(hold[1..], gone);
      WaitingMeaning(hold[1..], gone);
      IncreasingConcat(if hold[0] in gone then [] else [hold[0]], Waiting(hold[1..], gone));
    }
  }

  lemma {:induction false} WaitingKeepsAll(hold: seq<nat>, gone: set<nat>)
    requires |Waiting(hold, gone)| == |hold|
    ensures Waiting(hold, gone) == hold
  {
    if hold == [] {
    } else {
      WaitingMeaning(hold[1..], gone);
      WaitingKeepsAll(hold[1..], gone);
    }
  }

  /** Output moves from the buffer to the sink; which messages are out does not change. */
  lemma PollKeepsWritten<M>(o: Out<M>, a: SinkAnswers)
    ensures var w := Poll(o.writer, a);
            && w.handed + w.buffer == o.writer.handed + o.writer.buffer
            && |Ids(w.buffer)| <= |Ids(o.writer.buffer)|
  {
    var w := Poll(o.writer, a);
    PumpConserves(o.writer, a.ready);
    IdsConcat(o.writer.handed, o.writer.buffer);
    IdsConcat(w.handed, w.buffer);
    var moved := w.handed[|o.writer.handed|..];
    assert w.handed == o.writer.handed + moved;
    IdsConcat(o.writer.handed, moved);
  }

  /** Appending to the buffer appends to what is written. */
  lemma AppendWrites<M>(o: Out<M>, items: seq<Item<M>>)
    ensures var p := o.(writer := o.writer.(buffer := o.writer.buffer + items));
            && Written(p) == Written(o) + Ids(items)
            && Ids(p.writer.buffer) == Ids(o.writer.buffer) + Ids(items)
  {
    IdsConcat(o.writer.handed + o.writer.buffer, items);
    IdsConcat(o.writer.buffer, items);
    assert o.writer.handed + (o.writer.buffer + items) == o.writer.handed + o.writer.buffer + items;
  }

  lemma BufferEmptyKeepsInv<M>(o: Out<M>)
    requires Inv(o) && o.running && o.writer.buffer == []
    ensures Inv(BufferEmpty(o))
  {
    WaitingStaysOrdered(o.hold, o.gone);
    WaitingMeaning(o.hold, o.gone);
    AppendWrites(o, AsItems(Taken(o)));
    IdsOfItems<M>(Taken(o));
    AccountDrained(|o.offers|, Written(o), o.hold, o.settled, Taken(o));
  }

  lemma SendMessageKeepsInv<M>(o: Out<M>, m: M)
    requires Inv(o) && o.running
    ensures Inv(SendMessage(o, m))
  {
    var i := |o.offers|;
    if |o.writer.buffer| < o.mark && o.hold == [] {
      var item: seq<Item<M>> := [Forwarded(i)];
      AppendWrites(o, item);
      assert Ids(item) == [i];
      IdsAtMost(o.writer.buffer);
      AccountWritten(i, Written(o), o.settled);
    } else {
      AccountHeld(i, Written(o), o.hold, o.settled);
    }
  }

  lemma DropAllKeepsInv<M>(o: Out<M>)
    requires !o.writer.closing && !o.writer.closed && |Ids(o.writer.buffer)| <= o.mark
    requires Accounted(|o.offers|, Written(o), o.hold, o.settled)
    ensures Inv(DropAll(o))
  {
    AccountDrained(|o.offers|, Written(o), o.hold, o.settled, []);
    assert Written(o) + [] == Written(o);
  }

  lemma StepKeepsInv<M>(o: Out<M>, e: Event<M>)
    requires Inv(o)
    ensures Inv(Step(o, e))
  {
    if o.running {
      match e
      case Offer(m) => SendMessageKeepsInv(o, m);
      case Reply(m) =>
        AppendWrites(o, [Item.Direct(m)]);
      case Abandon(i) =>
      case PollSink(a) =>
        PollKeepsWritten(o, a);
        var p := o.(writer := Poll(o.writer, a));
        if p.writer.done {
          DropAllKeepsInv(p);
        } else if Emptied(o.writer, a) {
          BufferEmptyKeepsInv(p);
        }
      case StopCtx => DropAllKeepsInv(o);
    }
  }

  lemma {:induction false} Reachable<M>(mark: nat, events: seq<Event<M>>)
    ensures Inv(Exec(mark, events)) && Exec(mark, events).mark == mark
  {
    if events == [] {
    } else {
      Reachable(mark, events[..|events| - 1]);
      StepKeepsInv(Exec(mark, events[..|events| - 1]), events[|events| - 1]);
    }
  }

  // ----- What every run guarantees -----

  /** However many direct replies are interleaved, forwarded traffic never fills the buffer past the mark. */
  lemma ForwardedTrafficIsBounded<M>(mark: nat, events: seq<Event<M>>)
    ensures |Ids(Exec(mark, events).writer.buffer)| <= mark
  {
    Reachable(mark, events);
  }

  /** Every offered message is held, or written exactly once with its future Ok, or never written with its
      future Canceled; and messages are written in the order they were offered. */
  lemma OneOutcomeInOfferOrder<M>(mark: nat, events: seq<Event<M>>)
    ensures Increasing(Written(Exec(mark, events)))
    ensures Under(Written(Exec(mark, events)), |Exec(mark, events).offers|)
    ensures forall i: nat :: i < |Exec(mark, events).offers| ==>
              var o := Exec(mark, events);
              if i in o.hold then i !in o.settled && i !in Written(o)
              else i in o.settled && (o.settled[i] <==> i in Written(o))
  {
    Reachable(mark, events);
  }

  lemma StepKeepsSettled<M>(o: Out<M>, e: Event<M>, i: nat)
    requires Inv(o) && i in o.settled
    ensures i in Step(o, e).settled && Step(o, e).settled[i] == o.settled[i]
  {
    assert i !in o.hold;
    if !o.running || e.Abandon? || e.Reply? {
    } else if e.Offer? {
      assert i != |o.offers|;
    } else {
      SettleMeaning(o.settled, o.hold, Taken(o));
      SettleMeaning(o.settled, o.hold, []);
    }
  }

  lemma ExecOne<M>(mark: nat, events: seq<Event<M>>, e: Event<M>)
    ensures Exec(mark, events + [e]) == Step(Exec(mark, events), e)
  {
    assert (events + [e])[..|events|] == events;
  }

  lemma ExecConcat<M>(mark: nat, events: seq<Event<M>>, later: seq<Event<M>>)
    requires later != []
    ensures Exec(mark, events + later) == Step(Exec(mark, events + later[..|later| - 1]), later[|later| - 1])
  {
    LastOfConcat(events, later);
  }

  /** An outcome is final: no continuation of the run changes it. */
  lemma {:induction false} OutcomeIsFinal<M>(mark: nat, events: seq<Event<M>>, later: seq<Event<M>>, i: nat)
    requires i in Exec(mark, events).settled
    ensures i in Exec(mark, events + later).settled
    ensures Exec(mark, events + later).settled[i] == Exec(mark, events).settled[i]
  {
    if later == [] {
      assert events + later == events;
    } else {
      var init := later[..|later| - 1];
      OutcomeIsFinal(mark, events, init, i);
      ExecConcat(mark, events, later);
      Reachable(mark, events + init);
      StepKeepsSettled(Exec(mark, events + init), later[|later| - 1], i);
    }
  }

  // ----- Exactly when messages are lost -----

  /** A queue no drain can take whole: longer than the mark, or with a message nobody waits for any more. */
  ghost predicate Overfull<M>(o: Out<M>) {
    |o.hold| > o.mark || exists i :: i in o.hold && i in o.gone
  }

  /** A step that cancels a held message: a drain of an overfull queue, or the end of the actor. */
  ghost predicate Loses<M>(o: Out<M>, e: Event<M>) {
    && o.running && o.hold != []
    && (|| e.StopCtx?
        || (e.PollSink? && Poll(o.writer, e.answers).done)
        || (e.PollSink? && Emptied(o.writer, e.answers) && Overfull(o)))
  }

  ghost predicate Canceled<M>(o: Out<M>) { exists i :: i in o.settled && !o.settled[i] }

  lemma OverfullMeansNotAllTaken<M>(o: Out<M>)
    requires Increasing(o.hold)
    ensures Overfull(o) <==> |Taken(o)| < |o.hold|
  {
    WaitingMeaning(o.hold, o.gone);
    if forall i :: i in o.hold ==> i !in o.gone {
      AllWaiting(o.hold, o.gone);
    } else if |Waiting(o.hold, o.gone)| == |o.hold| {
      WaitingKeepsAll(o.hold, o.gone);
    }
  }

  lemma DrainCancels<M>(o: Out<M>)
    requires Inv(o) && !Canceled(o)
    ensures Canceled(BufferEmpty(o)) <==> Overfull(o)
  {
    SettleMeaning(o.settled, o.hold, Taken(o));
    WaitingMeaning(o.hold, o.gone);
    OverfullMeansNotAllTaken(o);
    if |Taken(o)| < |o.hold| {
      NotAllTaken(o);
      var i :| i in o.hold && i !in Taken(o);
      assert i in BufferEmpty(o).settled && !BufferEmpty(o).settled[i];
    } else {
      WaitingKeepsAll(o.hold, o.gone);
    }
  }

  lemma DropCancels<M>(o: Out<M>)
    requires Inv(o) && !Canceled(o)
    ensures Canceled(DropAll(o)) <==> o.hold != []
  {
    SettleMeaning(o.settled, o.hold, []);
    if o.hold != [] {
      assert o.hold[0] in DropAll(o).settled && !DropAll(o).settled[o.hold[0]];
    }
  }

  lemma StepCancels<M>(o: Out<M>, e: Event<M>)
    requires Inv(o) && !Canceled(o)
    ensures Canceled(Step(o, e)) <==> Loses(o, e)
  {
    DropCancels(o);
    DrainCancels(o);
    if o.running && e.PollSink? {
      var p := o.(writer := Poll(o.writer, e.answers));
      assert DropAll(p).settled == DropAll(o).settled && BufferEmpty(p).settled == BufferEmpty(o).settled;
    }
  }

  lemma NotAllTaken<M>(o: Out<M>)
    requires Increasing(o.hold) && |Taken(o)| < |o.hold|
    ensures exists i :: i in o.hold && i !in Taken(o)
  {
    if forall i :: i in o.hold ==> i in Taken(o) {
      Pigeonhole(o.hold, Taken(o));
    }
  }

  lemma CanceledStays<M>(o: Out<M>, e: Event<M>)
    requires Inv(o) && Canceled(o)
    ensures Canceled(Step(o, e))
  {
    var i :| i in o.settled && !o.settled[i];
    StepKeepsSettled(o, e, i);
  }

  ghost predicate LosesAt<M>(mark: nat, events: seq<Event<M>>, n: nat) {
    n < |events| && Loses(Exec(mark, events[..n]), events[n])
  }

  lemma LosesAtPrefix<M>(mark: nat, events: seq<Event<M>>, n: nat)
    requires n < |events|
    ensures LosesAt(mark, events, n) <==>
            LosesAt(mark, events[..|events| - 1], n)
            || (n == |events| - 1 && Loses(Exec(mark, events[..|events| - 1]), events[|events| - 1]))
  {
    if n < |events| - 1 {
      assert events[..|events| - 1][..n] == events[..n];
    }
  }

  /** A run cancels some message if and only if one of its steps drained more live messages than the mark,
      drained an abandoned one, or ended the actor with messages held. */
  lemma {:induction false} LossExactly<M>(mark: nat, events: seq<Event<M>>)
    ensures Canceled(Exec(mark, events)) <==> exists n: nat :: LosesAt(mark, events, n)
  {
    if events == [] {
    } else {
      var init, e := events[..|events| - 1], events[|events| - 1];
      LossExactly(mark, init);
      Reachable(mark, init);
      forall n: nat | n < |events|
        ensures LosesAt(mark, events, n) <==> LosesAt(mark, init, n) || (n == |init| && Loses(Exec(mark, init), e))
      {
        LosesAtPrefix(mark, events, n);
      }
      StepCancelsOrKeeps(Exec(mark, init), e);
      assert Loses(Exec(mark, init), e) ==> LosesAt(mark, events, |init|);
    }
  }

  lemma StepCancelsOrKeeps<M>(o: Out<M>, e: Event<M>)
    requires Inv(o)
    ensures Canceled(Step(o, e)) <==> Canceled(o) || Loses(o, e)
  {
    if Canceled(o) {
      CanceledStays(o, e);
    } else {
      StepCancels(o, e);
    }
  }

  /** An overfull queue with every waiter present: the first `mark` messages go out, every later one is
      canceled, although the connection is up. */
  lemma OverfullDrainCancelsTheRest<M>(o: Out<M>, k: nat)
    requires Inv(o) && k < |o.hold| && forall i :: i in o.hold ==> i !in o.gone
    ensures o.hold[k] in BufferEmpty(o).settled
    ensures BufferEmpty(o).settled[o.hold[k]] <==> k < o.mark
  {
    AllWaiting(o.hold, o.gone);
    SettleMeaning(o.settled, o.hold, Taken(o));
    if k >= o.mark {
      assert forall j :: 0 <= j < |Taken(o)| ==> Taken(o)[j] < o.hold[k];
    } else {
      assert Taken(o)[k] == o.hold[k];
    }
  }

  /** How many of the first k held messages somebody still waits for. */
  function StillWanted(hold: seq<nat>, gone: set<nat>, k: nat): nat
    requires k <= |hold|
  {
    if k == 0 then 0 else StillWanted(hold, gone, k - 1) + if hold[k - 1] in gone then 0 else 1
  }

  /** The messages a drain lets through: wanted themselves, with room left by the wanted ones before them. */
  predicate GoesOut(hold: seq<nat>, gone: set<nat>, mark: nat, k: nat) {
    k < |hold| && hold[k] !in gone && StillWanted(hold, gone, k) < mark
  }

  lemma {:induction false} StillWantedShift(hold: seq<nat>, gone: set<nat>, k: nat)
    requires 0 < k <= |hold|
    ensures StillWanted(hold, gone, k) == StillWanted(hold[1..], gone, k - 1) + if hold[0] in gone then 0 else 1
  {
    if k == 1 {
      assert StillWanted(hold, gone, 0) == 0 && StillWanted(hold[1..], gone, 0) == 0;
    } else {
      StillWantedShift(hold, gone, k - 1);
      assert hold[1..][k - 2] == hold[k - 1];
    }
  }

  lemma {:induction false} WaitingAt(hold: seq<nat>, gone: set<nat>, k: nat)
    requires k < |hold| && hold[k] !in gone
    ensures StillWanted(hold, gone, k) < |Waiting(hold, gone)|
    ensures Waiting(hold, gone)[StillWanted(hold, gone, k)] == hold[k]
    decreases k
  {
    if k == 0 {
    } else {
      StillWantedShift(hold, gone, k);
      assert hold[1..][k - 1] == hold[k];
      WaitingAt(hold[1..], gone, k - 1);
    }
  }

  lemma TakenExactly<M>(o: Out<M>, k: nat)
    requires Increasing(o.hold) && k < |o.hold|
    ensures o.hold[k] in Taken(o) <==> GoesOut(o.hold, o.gone, o.mark, k)
  {
    var w, j := Waiting(o.hold, o.gone), StillWanted(o.hold, o.gone, k);
    WaitingMeaning(o.hold, o.gone);
    WaitingStaysOrdered(o.hold, o.gone);
    if o.hold[k] !in o.gone {
      WaitingAt(o.hold, o.gone, k);
      if j < o.mark {
        assert Taken(o)[j] == w[j];
      } else {
        assert forall i :: 0 <= i < |Taken(o)| ==> Taken(o)[i] == w[i] && w[i] < w[j];
      }
    }
  }

  /** A drain, message by message: the k-th held one is written with its future Ok if and only if its waiter is
      still there and fewer than `mark` of those before it have theirs; every other one is canceled. */
  lemma DrainExactly<M>(o: Out<M>, k: nat)
    requires Increasing(o.hold) && k < |o.hold|
    ensures var after, i := BufferEmpty(o), o.hold[k];
            && i in after.settled && (after.settled[i] <==> GoesOut(o.hold, o.gone, o.mark, k))
            && after.hold == []
            && (o.writer.buffer == [] ==> (Forwarded(i) in after.writer.buffer <==> GoesOut(o.hold, o.gone, o.mark, k)))
  {
    TakenExactly(o, k);
    SettleMeaning(o.settled, o.hold, Taken(o));
    assert o.hold[k] in o.hold;
    if o.writer.buffer == [] {
      var items: seq<Item<M>> := AsItems(Taken(o));
      assert BufferEmpty(o).writer.buffer == items;
      assert Forwarded(o.hold[k]) in items <==> o.hold[k] in Taken(o) by {
        assert forall j :: 0 <= j < |items| ==> items[j] == Forwarded(Taken(o)[j]);
      }
    }
  }

  ghost predicate LetOut<M>(hold: seq<nat>, gone: set<nat>, mark: nat, settled: map<nat, bool>, buffer: seq<Item<M>>) {
    forall k: nat :: k < |hold| ==>
      && hold[k] in settled && (settled[hold[k]] <==> GoesOut(hold, gone, mark, k))
      && (Forwarded(hold[k]) in buffer <==> GoesOut(hold, gone, mark, k))
  }

  lemma AllLetOut<M>(o: Out<M>)
    requires Increasing(o.hold) && o.writer.buffer == []
    ensures LetOut(o.hold, o.gone, o.mark, BufferEmpty(o).settled, BufferEmpty(o).writer.buffer)
  {
    forall k: nat | k < |o.hold|
      ensures var after, i := BufferEmpty(o), o.hold[k];
              && i in after.settled && (after.settled[i] <==> GoesOut(o.hold, o.gone, o.mark, k))
              && (Forwarded(i) in after.writer.buffer <==> GoesOut(o.hold, o.gone, o.mark, k))
    {
      DrainExactly(o, k);
    }
  }

  lemma {:induction false} AllWaiting(hold: seq<nat>, gone: set<nat>)
    requires forall i :: i in hold ==> i !in gone
    ensures Waiting(hold, gone) == hold
  {
    if hold == [] {
    } else {
      assert hold[0] in hold;
      AllWaiting(hold[1..], gone);
    }
  }

  /** `n` messages offered one after the other. */
  function Offers<M>(m: M, n: nat): (r: seq<Event<M>>)
    ensures |r| == n
  {
    seq(n, i => Offer(m))
  }

  function Range(from: nat, n: nat): (r: seq<nat>)
    ensures |r| == n && forall i :: 0 <= i < n ==> r[i] == from + i
  {
    seq(n, i => from + i)
  }

  lemma OffersSnoc<M>(m: M, n: nat)
    ensures Offers(m, n + 1) == Offers(m, n) + [Offer(m)]
  {
  }

  lemma RangeSnoc(from: nat, n: nat)
    ensures Range(from, n + 1) == Range(from, n) + [from + n]
  {
  }

  /** `n` messages piled up before a silent sink: the first `mark` fill the buffer, the others are held. */
  ghost predicate Piled<M>(o: Out<M>, n: nat) {
    && o.running && o.gone == {} && |o.offers| == n && !o.writer.closing && !o.writer.closed
    && |o.writer.buffer| == (if n < o.mark then n else o.mark)
    && o.hold == if n <= o.mark then [] else Range(o.mark, n - o.mark)
  }

  lemma OneMorePiled<M>(o: Out<M>, m: M, n: nat)
    requires Piled(o, n)
    ensures Piled(SendMessage(o, m), n + 1) && SendMessage(o, m).mark == o.mark
  {
    if n < o.mark {
    } else {
      RangeSnoc(o.mark, n - o.mark);
      assert Range(o.mark, 0) == [];
    }
  }

  lemma ExecOffer<M>(mark: nat, m: M, n: nat)
    requires Exec(mark, Offers(m, n)).running
    ensures Exec(mark, Offers(m, n + 1)) == SendMessage(Exec(mark, Offers(m, n)), m)
  {
    OffersSnoc(m, n);
    ExecOne(mark, Offers(m, n), Offer(m));
  }

  lemma {:induction false} OffersPileUp<M>(mark: nat, m: M, n: nat)
    ensures Piled(Exec(mark, Offers(m, n)), n) && Exec(mark, Offers(m, n)).mark == mark
  {
    if n == 0 {
      assert Exec(mark, Offers(m, 0)) == Start(mark);
    } else {
      OffersPileUp(mark, m, n - 1);
      ExecOffer(mark, m, n - 1);
      OneMorePiled(Exec(mark, Offers(m, n - 1)), m, n - 1);
    }
  }

  /** A sink that is ready for everything. */
  function Willing(n: nat): (a: SinkAnswers)
    ensures ReadyRun(a.ready) == n && a.flushInLoop == Ready && a.flush == Ready
  {
    var ready := seq(n, i => Ready);
    assert ReadyRun(ready) >= n;
    SinkAnswers(ready, Ready, Ready, Ready, false)
  }

  /** Loss needs no fault: for every mark, a burst of 2 * mark + 1 messages and one poll of a sink that is ready
      for everything cancel the last message, on a connection that keeps running. */
  lemma BurstIsCanceled<M>(mark: nat, m: M)
    ensures var o := Exec(mark, Offers(m, 2 * mark + 1) + [PollSink(Willing(mark + 1))]);
            && o.running && 2 * mark in o.settled && !o.settled[2 * mark]
  {
    var n := 2 * mark + 1;
    var o, e := Exec(mark, Offers(m, n)), PollSink(Willing(mark + 1));
    OffersPileUp(mark, m, n);
    Reachable(mark, Offers(m, n));
    ExecOne(mark, Offers(m, n), e);
    EmptyPile(o);
  }

  /** A willing sink takes the whole buffer, and the drain that follows cancels what is beyond the mark. */
  lemma EmptyPile<M>(o: Out<M>)
    requires Inv(o) && Piled(o, 2 * o.mark + 1)
    ensures var p := PollOut(o, Willing(o.mark + 1));
            p.running && 2 * o.mark in p.settled && !p.settled[2 * o.mark]
  {
    var answers := Willing(o.mark + 1);
    var p := o.(writer := Poll(o.writer, answers));
    assert Emptied(o.writer, answers) && !p.writer.done;
    PollKeepsWritten(o, answers);
    assert Inv(p);
    assert p.hold[o.mark] == 2 * o.mark;
    OverfullDrainCancelsTheRest(p, o.mark);
  }

  /** Without a lossy step, what is written and what is held is everything offered, in order. */
  lemma NothingLostNothingMissing<M>(mark: nat, events: seq<Event<M>>)
    requires !Canceled(Exec(mark, events))
    ensures var o := Exec(mark, events); Written(o) + o.hold == seq(|o.offers|, i => i)
  {
    Reachable(mark, events);
    var o := Exec(mark, events);
    IncreasingConcat(Written(o), o.hold);
    IncreasingAndFull(Written(o) + o.hold, |o.offers|);
  }

  // ----- The connection's output in place -----

  lemma {:induction false} SettleAgrees(settled: map<nat, bool>, queue: seq<nat>, ok: seq<nat>, same: seq<nat>)
    requires forall i :: i in queue ==> (i in ok <==> i in same)
    ensures Settle(settled, queue, ok) == Settle(settled, queue, same)
    decreases |queue|
  {
    if queue == [] {
    } else {
      assert queue[0] in queue;
      SettleAgrees(settled[queue[0] := queue[0] in ok], queue[1..], ok, same);
    }
  }

  /** A drain under way: finishing it from here gives what the whole drain gives. */
  ghost predicate Draining<M>(o: Out<M>, queue: seq<nat>, room: nat, settled: map<nat, bool>, buffer: seq<Item<M>>) {
    var ok := Take(Waiting(queue, o.gone), room);
    && Increasing(queue)
    && buffer + AsItems(ok) == AsItems(Taken(o))
    && Settle(settled, queue, ok) == Settle(o.settled, o.hold, Taken(o))
  }

  lemma TakeFront(h: nat, s: seq<nat>, n: nat)
    requires n > 0
    ensures Take([h] + s, n) == [h] + Take(s, n - 1)
  {
  }

  lemma ItemsFront<M>(buffer: seq<Item<M>>, h: nat, rest: seq<nat>)
    ensures buffer + AsItems([h] + rest) == buffer + [Forwarded(h)] + AsItems(rest)
  {
    assert AsItems<M>([h] + rest) == [Forwarded(h)] + AsItems<M>(rest);
  }

  lemma DrainStep<M>(o: Out<M>, queue: seq<nat>, room: nat, settled: map<nat, bool>, buffer: seq<Item<M>>)
    requires Draining(o, queue, room, settled, buffer) && queue != [] && room > 0
    ensures var h, t := queue[0], queue[1..];
            if h in o.gone then Draining(o, t, room, settled[h := false], buffer)
            else Draining(o, t, room - 1, settled[h := true], buffer + [Forwarded(h)])
  {
    var h, t := queue[0], queue[1..];
    var ok := Take(Waiting(queue, o.gone), room);
    assert h !in t;
    WaitingMeaning(t, o.gone);
    if h in o.gone {
      assert Waiting(queue, o.gone) == Waiting(t, o.gone);
      assert h !in ok;
    } else {
      var rest := Take(Waiting(t, o.gone), room - 1);
      TakeFront(h, Waiting(t, o.gone), room);
      SettleAgrees(settled[h := true], t, ok, rest);
      ItemsFront<M>(buffer, h, rest);
    }
  }

  lemma DrainEnd<M>(o: Out<M>, queue: seq<nat>, room: nat, settled: map<nat, bool>, buffer: seq<Item<M>>)
    requires Draining(o, queue, room, settled, buffer) && (queue == [] || room == 0)
    ensures buffer == AsItems(Taken(o))
    ensures Settle(settled, queue, []) == Settle(o.settled, o.hold, Taken(o))
  {
    assert Take(Waiting(queue, o.gone), room) == [] && buffer + [] == buffer;
  }

  class Output<M> {
    const mark: nat
    const writer: SinkWrite<Item<M>>
    var offers: seq<M>
    var hold: seq<nat>
    var gone: set<nat>
    var settled: map<nat, bool>
    var running: bool

    constructor (mark: nat)
      ensures Valid() && Model() == Start(mark) && fresh(writer)
    {
      this.mark := mark;
      writer := new SinkWrite<Item<M>>();
      offers, hold, gone, settled, running := [], [], {}, map[], true;
    }

    ghost function Model(): Out<M>
      reads this, writer
    {
      Out(mark, offers, writer.Model(), hold, gone, settled, running)
    }

    ghost predicate Valid()
      reads this, writer
    {
      Inv(Model())
    }

    method Send(m: M)
      requires Valid() && running
      modifies this, writer
      ensures Valid() && Model() == SendMessage(old(Model()), m)
      ensures offers == old(offers) + [m]
      ensures if |old(writer.buffer)| < mark && old(hold) == [] then
                && writer.buffer == old(writer.buffer) + [Forwarded(|old(offers)|)] && hold == []
                && settled == old(settled)[|old(offers)| := true]
              else
                && writer.buffer == old(writer.buffer) && hold == old(hold) + [|old(offers)|]
                && settled == old(settled)
    {
      SendMessageKeepsInv(Model(), m);
      var i := |offers|;
      offers := offers + [m];
      if |writer.buffer| < mark && hold == [] {
        var _ := writer.Append(Forwarded(i));
        settled := settled[i := true];
      } else {
        hold := hold + [i];
      }
    }

    method Respond(m: M)
      requires Valid() && running
      modifies writer
      ensures Valid() && Model() == SendReply(old(Model()), m)
      ensures writer.buffer == old(writer.buffer) + [Direct(m)]
    {
      StepKeepsInv(Model(), Reply(m));
      var _ := writer.Append(Direct(m));
    }

    /** `hold_queue.drain(..).filter(..).take(mark)`: once the taking stops, the rest of the queue is
        dropped with its senders. */
    method LetThrough()
      requires Increasing(hold) && writer.buffer == [] && !writer.closing && !writer.closed
      modifies this`hold, this`settled, writer`buffer
      ensures Model() == BufferEmpty(old(Model()))
      ensures hold == [] && LetOut(old(hold), gone, mark, settled, writer.buffer)
    {
      ghost var o := Model();
      var queue, room := hold, mark;
      hold := [];
      assert [] + AsItems<M>(Taken(o)) == AsItems<M>(Taken(o));
      while queue != [] && room > 0
        invariant Draining(o, queue, room, settled, writer.buffer)
        modifies this`settled, writer`buffer
      {
        DrainStep(o, queue, room, settled, writer.buffer);
        var sent := Resolve(queue[0]);
        room := if sent then room - 1 else room;
        queue := queue[1..];
      }
      DrainEnd(o, queue, room, settled, writer.buffer);
      settled := Settle(settled, queue, []);
      AllLetOut(o);
    }

    /** One held message leaves the queue: written and notified, or dropped if nobody waits. */
    method Resolve(i: nat) returns (sent: bool)
      requires !writer.closing && !writer.closed
      modifies this`settled, writer`buffer
      ensures sent <==> i !in gone
      ensures settled == old(settled)[i := sent]
      ensures writer.buffer == old(writer.buffer) + if sent then [Forwarded(i)] else []
    {
      sent := i !in gone;
      if sent {
        var _ := writer.Append(Forwarded(i));
      }
      settled := settled[i := sent];
    }

    method DrainHoldQueue()
      requires Valid() && running && writer.buffer == []
      modifies this, writer
      ensures Valid() && Model() == BufferEmpty(old(Model()))
      ensures hold == [] && LetOut(old(hold), gone, mark, settled, writer.buffer)
    {
      BufferEmptyKeepsInv(Model());
      if hold == [] {
        return;
      }
      LetThrough();
    }

    /** One poll of the writer, with the empty-buffer callback it may trigger. */
    method Poll(a: SinkAnswers)
      requires Valid() && running
      modifies this, writer
      ensures Valid() && Model() == PollOut(old(Model()), a)
      ensures running <==> !writer.done
      ensures writer.done ==> hold == [] && forall i :: i in old(hold) ==> i in settled && !settled[i]
    {
      StepKeepsInv(Model(), PollSink(a));
      PollKeepsWritten(Model(), a);
      var emptied := writer.PollOnce(a);
      if writer.done {
        Stop();
      } else if emptied {
        DrainHoldQueue();
      }
    }

    /** The actor ends: what is held is dropped with its senders. */
    method Stop()
      modifies this`settled, this`hold, this`running
      ensures Model() == DropAll(old(Model()))
      ensures !running && hold == [] && forall i :: i in old(hold) ==> i in settled && !settled[i]
    {
      SettleMeaning(settled, hold, []);
      settled := Settle(settled, hold, []);
      hold, running := [], false;
    }

    /** The waiter of a held message drops its receiver. */
    method Forget(i: nat)
      modifies this`gone
      ensures gone == if i in hold then old(gone) + {i} else old(gone)
      ensures Model() == Release(old(Model()), i)
    {
      if i in hold {
        gone := gone + {i};
      }
    }
  }
}

/**
 * Calls and the service that goes away: the input reader of a caller's router connection composed with the
 * output of a service's router connection (crates/router/src/connection.rs).
 *
 * A forwarded call waits in the service's mailbox, is then offered to the service's output, and may be
 * replied to once it is written. A forward that has an outcome is seen before its timer.
 */
module PendingCalls {
  import opened Common
  import opened RouterTables
  import IR = InputReader
  import BP = BackPressure

  datatype Sys = Sys(
    reader: IR.Reader,              // the caller's connection
    service: BP.Out<nat>,           // the service's connection; what its messages say does not matter here
    forwarded: set<nat>,            // calls sent to the service's mailbox
    offerOf: map<nat, nat>,         // calls the service's connection has handled, by offer number
    replied: set<nat>)              // calls whose reply the service's connection has passed on

  datatype Event =
    | CallerPolls(p: IR.Poll)
    | ServiceHandles(call: nat)     // ForwardCallRequest leaves the mailbox
    | ServiceMoves(e: BP.Event<nat>)
    | ServiceReplies(call: nat)

  /** Which side of the bus is fixed: the peer's input, the service's connection and its mark. */
  datatype Setting = Setting(input: seq<IR.Input>, id: ConnId, mark: nat)

  ghost predicate Settled(st: Sys, call: nat, ok: bool) {
    call in st.offerOf && st.offerOf[call] in st.service.settled && st.service.settled[st.offerOf[call]] == ok
  }

  /** How the forward in processing can end now. */
  ghost predicate CanEnd(st: Sys, call: nat, o: IR.Outcome) {
    call in st.forwarded ==>
      match o
      case ForwardOk => Settled(st, call, true)
      case Canceled => Settled(st, call, false)
      case MailboxClosed => !st.service.running && call !in st.offerOf
      case TimedOut => !Settled(st, call, true) && !Settled(st, call, false)
  }

  ghost predicate Written(st: Sys, call: nat) {
    call in st.offerOf && st.offerOf[call] in BP.Written(st.service)
  }

  ghost predicate Enabled(st: Sys, e: Event) {
    match e
    case CallerPolls(p) =>
      st.reader.processing && p.done.Some? && st.reader.dispatched != [] ==>
        CanEnd(st, |st.reader.dispatched| - 1, p.done.value)
    case ServiceHandles(call) => st.service.running && call in st.forwarded && call !in st.offerOf
    case ServiceMoves(_) => true
    case ServiceReplies(call) => st.service.running && Written(st, call)
  }

  /** The call a poll has just sent to the service, if it did. */
  function NewlyForwarded(before: IR.Reader, after: IR.Reader, id: ConnId): set<nat> {
    var i := |before.dispatched|;
    if |after.dispatched| > i && |after.targets| > i && after.targets[i] == Some(id) then {i} else {}
  }

  ghost function Apply(c: Setting, st: Sys, e: Event): Sys {
    match e
    case CallerPolls(p) =>
      var r := IR.Step(st.reader, c.input, p);
      st.(reader := r, forwarded := st.forwarded + NewlyForwarded(st.reader, r, c.id))
    case ServiceHandles(call) =>
      st.(service := BP.SendMessage(st.service, call), offerOf := st.offerOf[call := |st.service.offers|])
    case ServiceMoves(x) => st.(service := BP.Step(st.service, x))
    case ServiceReplies(call) => st.(replied := st.replied + {call})
  }

  ghost function Step(c: Setting, st: Sys, e: Event): Sys {
    if Enabled(st, e) then Apply(c, st, e) else st
  }

  ghost function Exec(c: Setting, events: seq<Event>): Sys {
    if events == [] then Sys(IR.START, BP.Start(c.mark), {}, map[], {})
    else Step(c, Exec(c, events[..|events| - 1]), events[|events| - 1])
  }

  // ----- Invariant -----

  ghost predicate CallInv(st: Sys, call: nat) {
    && (call in st.forwarded ==>
          call < |st.reader.dispatched| && call < |st.reader.targets| && st.reader.targets[call].Some?)
    && (call in st.offerOf ==> call in st.forwarded && st.offerOf[call] < |st.service.offers|)
    && (call in st.forwarded && call < |st.reader.outcomes| && st.reader.outcomes[call] == IR.ForwardOk ==>
          Settled(st, call, true))
    && (call in st.replied ==> Written(st, call))
  }

  ghost predicate Inv(c: Setting, st: Sys) {
    && IR.Inv(st.reader, c.input) && BP.Inv(st.service)
    && forall call: nat :: CallInv(st, call)
  }

  /** An outcome at the service is true exactly for written messages. */
  lemma SettledMeansWritten(st: Sys, call: nat)
    requires BP.Inv(st.service) && CallInv(st, call)
    ensures Settled(st, call, true) <==> Written(st, call)
  {
    if Written(st, call) {
      assert st.offerOf[call] in BP.Written(st.service);
    }
  }

  lemma ServiceKeepsCalls(c: Setting, st: Sys, service: BP.Out<nat>, offerOf: map<nat, nat>)
    requires Inv(c, st) && BP.Inv(service) && |st.service.offers| <= |service.offers|
    requires forall i :: i in st.service.settled ==> i in service.settled && service.settled[i] == st.service.settled[i]
    requires forall call :: call in st.offerOf ==> call in offerOf && offerOf[call] == st.offerOf[call]
    requires forall call :: call in offerOf && call !in st.offerOf ==> call in st.forwarded && offerOf[call] < |service.offers|
    ensures Inv(c, st.(service := service, offerOf := offerOf))
  {
    var after := st.(service := service, offerOf := offerOf);
    forall call: nat ensures CallInv(after, call) {
      assert CallInv(st, call);
      SettledMeansWritten(st, call);
      if call in st.replied {
        assert service.settled[offerOf[call]];
      }
    }
  }

  lemma PollShape(r: IR.Reader, input: seq<IR.Input>, p: IR.Poll)
    requires IR.Inv(r, input)
    ensures var s := IR.Step(r, input, p);
            && r.dispatched <= s.dispatched && |s.dispatched| <= |r.dispatched| + 1
            && r.targets <= s.targets && r.outcomes <= s.outcomes
            && (s.outcomes == r.outcomes
                || (r.processing && p.done.Some? && s.outcomes == r.outcomes + [p.done.value]))
  {
  }

  lemma PollKeepsInv(c: Setting, st: Sys, p: IR.Poll)
    requires Inv(c, st) && Enabled(st, CallerPolls(p))
    ensures Inv(c, Apply(c, st, CallerPolls(p)))
  {
    var after := Apply(c, st, CallerPolls(p));
    IR.StepKeepsInv(st.reader, c.input, p);
    PollShape(st.reader, c.input, p);
    forall call: nat ensures CallInv(after, call) {
      assert CallInv(st, call);
    }
  }

  lemma HandleKeepsInv(c: Setting, st: Sys, call: nat)
    requires Inv(c, st) && Enabled(st, ServiceHandles(call))
    ensures Inv(c, Apply(c, st, ServiceHandles(call)))
  {
    BP.SendMessageKeepsInv(st.service, call);
    ServiceKeepsCalls(c, st, BP.SendMessage(st.service, call), st.offerOf[call := |st.service.offers|]);
  }

  lemma MoveKeepsInv(c: Setting, st: Sys, e: BP.Event<nat>)
    requires Inv(c, st)
    ensures Inv(c, Apply(c, st, ServiceMoves(e)))
  {
    BP.StepKeepsInv(st.service, e);
    var service := BP.Step(st.service, e);
    forall i | i in st.service.settled ensures i in service.settled && service.settled[i] == st.service.settled[i] {
      BP.StepKeepsSettled(st.service, e, i);
    }
    ServiceKeepsCalls(c, st, service, st.offerOf);
  }

  lemma {:induction false} Reachable(c: Setting, events: seq<Event>)
    ensures Inv(c, Exec(c, events))
  {
    if events == [] {
    } else {
      var st, e := Exec(c, events[..|events| - 1]), events[|events| - 1];
      Reachable(c, events[..|events| - 1]);
      if Enabled(st, e) {
        match e
        case CallerPolls(p) => PollKeepsInv(c, st, p);
        case ServiceHandles(call) => HandleKeepsInv(c, st, call);
        case ServiceMoves(x) => MoveKeepsInv(c, st, x);
        case ServiceReplies(call) =>
          forall k: nat ensures CallInv(Apply(c, st, e), k) {
            assert CallInv(st, k);
          }
      }
    }
  }

  // ----- The service's connection stops -----

  /** The caller has heard something about the call: a reply of the service or a failure made by the router. */
  ghost predicate Answered(st: Sys, call: nat) {
    call in st.replied || IR.Reported(st.reader.errors, call)
  }

  /** After the stop nothing moves at the service, and the outcome of the call is already decided. */
  ghost predicate Stopped(st: Sys, late: Sys, call: nat) {
    && !late.service.running && BP.Written(late.service) == BP.Written(st.service)
    && late.offerOf == st.offerOf && late.replied == st.replied
    && call in late.forwarded
    && (call < |late.reader.outcomes| ==> (late.reader.outcomes[call] == IR.ForwardOk <==> Written(st, call)))
  }

  lemma LateStep(c: Setting, st: Sys, late: Sys, e: Event, call: nat)
    requires Inv(c, st) && Inv(c, late) && Stopped(st, late, call)
    ensures Stopped(st, Step(c, late, e), call)
  {
    if e.CallerPolls? && Enabled(late, e) {
      PollShape(late.reader, c.input, e.p);
      assert CallInv(late, call) && CallInv(st, call);
      SettledMeansWritten(late, call);
      if call in late.offerOf {
        assert late.offerOf[call] in late.service.settled;
      }
    }
  }

  lemma {:induction false} LateRun(c: Setting, st: Sys, events: seq<Event>, later: seq<Event>, call: nat)
    requires Inv(c, st) && Stopped(st, Exec(c, events), call)
    ensures Stopped(st, Exec(c, events + later), call)
  {
    if later == [] {
      assert events + later == events;
    } else {
      var init := later[..|later| - 1];
      LateRun(c, st, events, init, call);
      Reachable(c, events + init);
      LateStep(c, st, Exec(c, events + init), later[|later| - 1], call);
      assert (events + later)[..|events + later| - 1] == events + init;
    }
  }

  /** A step of the service's connection that ends it: its own stop or a failing sink. */
  ghost predicate Ends(o: BP.Out<nat>, e: BP.Event<nat>) { o.running && !BP.Step(o, e).running }

  lemma EndKeepsWritten(o: BP.Out<nat>, e: BP.Event<nat>)
    requires Ends(o, e)
    ensures BP.Written(BP.Step(o, e)) == BP.Written(o) && BP.Step(o, e).offers == o.offers
  {
    if e.PollSink? {
      BP.PollKeepsWritten(o, e.answers);
    }
  }

  lemma JustStopped(c: Setting, events: seq<Event>, stop: BP.Event<nat>, call: nat)
    requires Ends(Exec(c, events).service, stop)
    requires call in Exec(c, events).forwarded && !Answered(Exec(c, events), call)
    requires IR.WantsReply(Exec(c, events).reader, call)
    ensures Stopped(Exec(c, events), Exec(c, events + [ServiceMoves(stop)]), call)
  {
    var st := Exec(c, events);
    assert (events + [ServiceMoves(stop)])[..|events|] == events;
    Reachable(c, events);
    EndKeepsWritten(st.service, stop);
    assert CallInv(st, call);
    SettledMeansWritten(st, call);
    if call < |st.reader.outcomes| {
      IR.RepliedExactly(st.reader, c.input, call);
      assert st.reader.outcomes[call] == IR.ForwardOk;
    }
  }

  /** README.md:71-72 promises a failure reply to every pending call of a service that disconnects. A call that
      is unanswered when the service's connection ends is answered exactly if it had not been written to the
      service: one still in the mailbox, held, or dropped from the hold queue gets its failure once its forward
      ends; one already written never gets any answer, whatever happens later. */
  lemma StopAnswersUnwrittenCalls(c: Setting, events: seq<Event>, stop: BP.Event<nat>, later: seq<Event>, call: nat)
    requires Ends(Exec(c, events).service, stop)
    requires call in Exec(c, events).forwarded && !Answered(Exec(c, events), call)
    requires IR.WantsReply(Exec(c, events).reader, call)
    ensures var end := Exec(c, events + [ServiceMoves(stop)] + later);
            && (Answered(end, call) ==> call < IR.Finished(end.reader))
            && (call < IR.Finished(end.reader) ==> (Answered(end, call) <==> !Written(Exec(c, events), call)))
  {
    var st, stopped := Exec(c, events), events + [ServiceMoves(stop)];
    var end := Exec(c, stopped + later);
    Reachable(c, events);
    Reachable(c, stopped + later);
    JustStopped(c, events, stop, call);
    LateRun(c, st, stopped, later, call);
    IR.RepliedExactly(end.reader, c.input, call);
    StillWanted(c, events, [ServiceMoves(stop)] + later, call);
    assert events + ([ServiceMoves(stop)] + later) == stopped + later;
    assert CallInv(end, call);
  }

  lemma {:induction false} StillWanted(c: Setting, events: seq<Event>, later: seq<Event>, call: nat)
    requires IR.WantsReply(Exec(c, events).reader, call)
    ensures IR.WantsReply(Exec(c, events + later).reader, call)
  {
    if later == [] {
      assert events + later == events;
    } else {
      var init := later[..|later| - 1];
      StillWanted(c, events, init, call);
      Reachable(c, events + init);
      var st, e := Exec(c, events + init), later[|later| - 1];
      if e.CallerPolls? {
        PollShape(st.reader, c.input, e.p);
      }
      assert (events + later)[..|events + later| - 1] == events + init;
    }
  }

  /** Where an unwritten call can be: in the mailbox, in the hold queue, or canceled by an earlier drain. */
  lemma UnwrittenCalls(c: Setting, events: seq<Event>, call: nat)
    requires call in Exec(c, events).forwarded
    ensures var st := Exec(c, events);
            !Written(st, call) <==>
            call !in st.offerOf || st.offerOf[call] in st.service.hold || Settled(st, call, false)
  {
    var st := Exec(c, events);
    Reachable(c, events);
    assert CallInv(st, call);
    SettledMeansWritten(st, call);
  }

  /** A reply passed on answers its call, for good. */
  lemma RepliedIsAnswered(c: Setting, st: Sys, call: nat)
    requires Enabled(st, ServiceReplies(call))
    ensures Answered(Step(c, st, ServiceReplies(call)), call)
    ensures call in st.replied ==> forall e: Event :: call in Step(c, st, e).replied
  {
  }

  // ----- The failing input -----

  /** One call, written to its service, which then stops: for every mark above zero and whatever happens
      afterwards, its caller gets nothing. */
  lemma WrittenCallIsForgotten(address: string, id: ConnId, mark: nat, later: seq<Event>)
    requires address != "" && mark > 0
    ensures var c := Setting([IR.Call(address, false)], id, mark);
            var poll := IR.Poll(None, true, map[address := id]);
            var written := [CallerPolls(poll), ServiceHandles(0)];
            && 0 in Exec(c, written).forwarded && Written(Exec(c, written), 0)
            && !Answered(Exec(c, written + [ServiceMoves(BP.StopCtx)] + later), 0)
  {
    var c := Setting([IR.Call(address, false)], id, mark);
    var poll := IR.Poll(None, true, map[address := id]);
    var written := [CallerPolls(poll), ServiceHandles(0)];
    OneCallWritten(address, id, mark);
    StopAnswersUnwrittenCalls(c, written, BP.StopCtx, later, 0);
  }

  /** The same call, if the service replies before its connection stops. */
  lemma WrittenCallIsAnswered(address: string, id: ConnId, mark: nat)
    requires address != "" && mark > 0
    ensures var c := Setting([IR.Call(address, false)], id, mark);
            var poll := IR.Poll(None, true, map[address := id]);
            Answered(Exec(c, [CallerPolls(poll), ServiceHandles(0)] + [ServiceReplies(0)]), 0)
  {
    var c := Setting([IR.Call(address, false)], id, mark);
    var written := [CallerPolls(IR.Poll(None, true, map[address := id])), ServiceHandles(0)];
    OneCallWritten(address, id, mark);
    assert (written + [ServiceReplies(0)])[..2] == written;
    RepliedIsAnswered(c, Exec(c, written), 0);
  }

  lemma OneCallWritten(address: string, id: ConnId, mark: nat)
    requires address != "" && mark > 0
    ensures var c := Setting([IR.Call(address, false)], id, mark);
            var poll := IR.Poll(None, true, map[address := id]);
            var st := Exec(c, [CallerPolls(poll), ServiceHandles(0)]);
            && st.service.running && 0 in st.forwarded && !Answered(st, 0) && Written(st, 0)
            && IR.WantsReply(st.reader, 0)
  {
    var c := Setting([IR.Call(address, false)], id, mark);
    var poll := IR.Poll(None, true, map[address := id]);
    var written := [CallerPolls(poll), ServiceHandles(0)];
    assert written[..1] == [CallerPolls(poll)] && written[..1][..0] == [];
    var s0, s1 := Exec(c, []), Exec(c, written[..1]);
    var r := IR.Reader(true, 1, c.input, [Some(id)], [], true, [], false);
    assert IR.Step(IR.START, c.input, poll) == r;
    assert s1 == s0.(reader := r, forwarded := {0});
    var st := Exec(c, written);
    BP.AppendWrites(s0.service, [BP.Forwarded(0)]);
    assert st.offerOf == map[0 := 0];
    assert BP.Ids<nat>([BP.Forwarded(0)]) == [0];
  }
}

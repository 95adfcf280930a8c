/**
 * The router's input reader, one message in processing at a time (crates/router/src/connection/reader.rs),
 * and the error replies the router itself makes for calls (handle_call_request in
 * crates/router/src/connection.rs).
 *
 * `input` is everything the peer ever sends. Whether a handler's future is ready, how a forward ended and
 * what the endpoint table holds are inputs of each poll.
 */
module InputReader {
  import opened Common
  import opened PrefixLookup
  import opened RouterTables

  datatype Input = Call(address: string, noReply: bool) | Other

  datatype Outcome = ForwardOk | Canceled | MailboxClosed | TimedOut

  datatype Poll = Poll(
    done: Option<Outcome>,          // the future in processing: pending, or ready with this outcome
    available: bool,                // the stream answers Ready
    table: Table)                   // the endpoint table, read when a call is dispatched

  datatype ErrorReply = ErrorReply(call: nat, code: int, text: string)

  datatype Reader = Reader(
    started: bool,
    hellos: nat,
    dispatched: seq<Input>,
    targets: seq<Option<ConnId>>,   // what the address of each dispatched message resolved to
    outcomes: seq<Outcome>,         // how each finished message ended
    processing: bool,
    errors: seq<ErrorReply>,
    ended: bool)

  const BAD_REQUEST := 400
  const SERVICE_FAILURE := 500
  const NOT_FOUND := "endpoint address not found"

  /** The error reply of a finished call, if it gets one. */
  function CallError(call: nat, m: Input, target: Option<ConnId>, o: Outcome): Option<ErrorReply> {
    if m.Other? || m.noReply then None
    else if target.None? then Some(ErrorReply(call, BAD_REQUEST, NOT_FOUND))
    else match o
      case ForwardOk => None
      case Canceled => Some(ErrorReply(call, SERVICE_FAILURE, "request canceled"))
      case MailboxClosed => Some(ErrorReply(call, SERVICE_FAILURE, "lost connection"))
      case TimedOut => Some(ErrorReply(call, SERVICE_FAILURE, "stalled connection"))
  }

  const START := Reader(false, 0, [], [], [], false, [], false)

  function Resolve(m: Input, table: Table): Option<ConnId> {
    if m.Call? then Lookup(table, m.address) else None
  }

  function Greet(r: Reader): Reader {
    if r.started then r else r.(started := true, hellos := r.hellos + 1)
  }

  function Complete(r: Reader, o: Outcome): Reader {
    if |r.dispatched| == 0 || |r.targets| != |r.dispatched| then r.(processing := false)
    else
      var i := |r.dispatched| - 1;
      var e := CallError(i, r.dispatched[i], r.targets[i], o);
      r.(processing := false, outcomes := r.outcomes + [o],
         errors := if e.Some? then r.errors + [e.value] else r.errors)
  }

  function Next(r: Reader, input: seq<Input>, p: Poll): Reader {
    if !p.available then r
    else if |r.dispatched| >= |input| then r.(ended := true)
    else
      var m := input[|r.dispatched|];
      r.(dispatched := r.dispatched + [m], targets := r.targets + [Resolve(m, p.table)], processing := true)
  }

  function Step(r: Reader, input: seq<Input>, p: Poll): Reader {
    if r.ended then r else
    var g := Greet(r);
    if g.processing && p.done.None? then g
    else Next(if g.processing then Complete(g, p.done.value) else g, input, p)
  }

  function Exec(input: seq<Input>, polls: seq<Poll>): Reader {
    if polls == [] then START
    else Step(Exec(input, polls[..|polls| - 1]), input, polls[|polls| - 1])
  }

  function Finished(r: Reader): nat {
    if r.processing && |r.dispatched| > 0 then |r.dispatched| - 1 else |r.dispatched|
  }

  // ----- Invariant -----

  ghost predicate WantsReply(r: Reader, i: nat) {
    i < |r.dispatched| && r.dispatched[i].Call? && !r.dispatched[i].noReply
  }

  /** The calls that get an error reply: those with no endpoint, and those whose forward did not succeed. */
  ghost predicate Fails(r: Reader, i: nat) {
    && WantsReply(r, i) && i < |r.targets| && i < |r.outcomes|
    && (r.targets[i].None? || r.outcomes[i] != ForwardOk)
  }

  /** The text of a failure reply tells how the forward ended. */
  ghost predicate TellsWhy(text: string, o: Outcome) {
    && (text == "request canceled" <==> o.Canceled?)
    && (text == "lost connection" <==> o.MailboxClosed?)
    && (text == "stalled connection" <==> o.TimedOut?)
  }

  ghost predicate Justified(r: Reader, e: ErrorReply) {
    && Fails(r, e.call)
    && (e.code == BAD_REQUEST <==> r.targets[e.call].None?)
    && (e.code == SERVICE_FAILURE <==> r.targets[e.call].Some?)
    && (e.code == SERVICE_FAILURE ==> TellsWhy(e.text, r.outcomes[e.call]))
    && (e.code == BAD_REQUEST ==> e.text == NOT_FOUND)
  }

  ghost predicate ErrorsInOrder(r: Reader) {
    forall i, j :: 0 <= i < j < |r.errors| ==> r.errors[i].call < r.errors[j].call
  }

  ghost predicate Reported(errors: seq<ErrorReply>, i: nat) {
    exists k :: 0 <= k < |errors| && errors[k].call == i
  }

  ghost predicate Inv(r: Reader, input: seq<Input>) {
    && r.dispatched <= input && |r.targets| == |r.dispatched| && |r.outcomes| == Finished(r)
    && (r.processing ==> r.dispatched != []) && (r.ended ==> !r.processing && r.dispatched == input)
    && (r.started <==> r.hellos == 1) && (!r.started ==> r.hellos == 0 && r.dispatched == [])
    && ErrorsInOrder(r)
    && (forall e :: e in r.errors ==> Justified(r, e))
    && (forall i: nat :: Fails(r, i) ==> Reported(r.errors, i))
  }

  lemma ReportedStays(errors: seq<ErrorReply>, more: seq<ErrorReply>, i: nat)
    requires Reported(errors, i)
    ensures Reported(errors + more, i)
  {
    var k :| 0 <= k < |errors| && errors[k].call == i;
    assert (errors + more)[k].call == i;
  }

  lemma CallErrorMeaning(call: nat, m: Input, target: Option<ConnId>, o: Outcome)
    requires CallError(call, m, target, o).Some?
    ensures var e := CallError(call, m, target, o).value;
            && e.call == call && m.Call? && !m.noReply
            && (e.code == BAD_REQUEST <==> target.None?) && (e.code == SERVICE_FAILURE <==> target.Some?)
            && (e.code == SERVICE_FAILURE ==> o != ForwardOk && TellsWhy(e.text, o))
            && (e.code == BAD_REQUEST ==> e.text == NOT_FOUND)
  {
    assert |"request canceled"| == 16 && |"lost connection"| == 15 && |"stalled connection"| == 18;
  }

  lemma CompleteKeepsErrors(r: Reader, input: seq<Input>, o: Outcome)
    requires Inv(r, input) && r.processing
    ensures ErrorsInOrder(Complete(r, o)) && forall e :: e in Complete(r, o).errors ==> Justified(Complete(r, o), e)
  {
    var after, last := Complete(r, o), |r.dispatched| - 1;
    forall k | 0 <= k < |r.errors| ensures r.errors[k].call < last {
      assert r.errors[k] in r.errors && Justified(r, r.errors[k]);
    }
    forall e | e in after.errors ensures Justified(after, e) {
      if e in r.errors {
        assert Justified(r, e);
      } else {
        CallErrorMeaning(last, r.dispatched[last], r.targets[last], o);
      }
    }
  }

  lemma CompleteKeepsInv(r: Reader, input: seq<Input>, o: Outcome)
    requires Inv(r, input) && r.processing
    ensures Inv(Complete(r, o), input)
  {
    var after, last := Complete(r, o), |r.dispatched| - 1;
    CompleteKeepsErrors(r, input, o);
    forall i: nat | Fails(after, i) ensures Reported(after.errors, i) {
      if i < last {
        assert Fails(r, i);
        ReportedStays(r.errors, after.errors[|r.errors|..], i);
        assert after.errors == r.errors + after.errors[|r.errors|..];
      } else {
        assert after.errors[|r.errors|].call == i;
      }
    }
  }

  lemma NextKeepsInv(r: Reader, input: seq<Input>, p: Poll)
    requires Inv(r, input) && !r.processing && r.started && !r.ended
    ensures Inv(Next(r, input, p), input)
  {
    var after := Next(r, input, p);
    forall e | e in after.errors ensures Justified(after, e) {
      assert Justified(r, e);
    }
    forall i: nat | Fails(after, i) ensures Reported(after.errors, i) {
      assert Fails(r, i);
    }
  }

  lemma StepKeepsInv(r: Reader, input: seq<Input>, p: Poll)
    requires Inv(r, input)
    ensures Inv(Step(r, input, p), input)
  {
    if !r.ended {
      var g := Greet(r);
      assert Inv(g, input) by {
        assert forall e :: Justified(g, e) <==> Justified(r, e);
        assert forall i: nat :: Fails(g, i) <==> Fails(r, i);
      }
      if g.processing && p.done.Some? {
        CompleteKeepsInv(g, input, p.done.value);
        NextKeepsInv(Complete(g, p.done.value), input, p);
      } else if !g.processing {
        NextKeepsInv(g, input, p);
      }
    }
  }

  lemma {:induction false} Reachable(input: seq<Input>, polls: seq<Poll>)
    ensures Inv(Exec(input, polls), input)
  {
    if polls == [] {
    } else {
      Reachable(input, polls[..|polls| - 1]);
      StepKeepsInv(Exec(input, polls[..|polls| - 1]), input, polls[|polls| - 1]);
    }
  }

  // ----- What every run guarantees -----

  /** Messages are dispatched in the order sent, each only after the one before it finished; the stream is
      declared over only when everything was dispatched and finished; the hello went out once, first. */
  lemma OneMessageAtATime(input: seq<Input>, polls: seq<Poll>)
    ensures var r := Exec(input, polls);
            && r.dispatched <= input
            && |r.outcomes| <= |r.dispatched| <= |r.outcomes| + 1
            && (r.processing <==> |r.dispatched| == |r.outcomes| + 1)
            && (r.ended ==> |r.outcomes| == |input|)
            && (r.dispatched != [] ==> r.hellos == 1) && r.hellos <= 1
  {
    Reachable(input, polls);
  }

  lemma ExecOne(input: seq<Input>, polls: seq<Poll>, p: Poll)
    ensures Exec(input, polls + [p]) == Step(Exec(input, polls), input, p)
  {
    assert (polls + [p])[..|polls|] == polls;
  }

  /** Progress, in every run: a poll with nothing left in processing and the stream ready takes the next message,
      or ends the reader when there is none; any other poll takes none. */
  lemma NextMessageIsTaken(input: seq<Input>, polls: seq<Poll>, p: Poll)
    requires !Exec(input, polls).ended
    ensures var r, s := Exec(input, polls), Exec(input, polls + [p]);
            && s.started
            && (r.processing && p.done.None? ==> s.dispatched == r.dispatched && s.outcomes == r.outcomes && s.processing)
            && (r.processing && p.done.Some? ==> s.outcomes == r.outcomes + [p.done.value])
            && (!r.processing || p.done.Some? ==>
                  if !p.available then s.dispatched == r.dispatched && !s.processing && !s.ended
                  else if |r.dispatched| < |input| then
                    && s.dispatched == r.dispatched + [input[|r.dispatched|]] && s.processing
                    && |s.targets| == |s.dispatched| && (input[|r.dispatched|].Other? ==> s.targets[|r.dispatched|].None?)
                  else s.dispatched == r.dispatched && s.ended)
  {
    ExecOne(input, polls, p);
    Reachable(input, polls);
  }

  ghost predicate Replied(errors: seq<ErrorReply>, i: nat, code: int) {
    exists e :: e in errors && e.call == i && e.code == code
  }

  /** Of the finished messages exactly these get an error reply, and each of them one: a reply-wanted call to
      an address that resolved to nothing gets BAD_REQUEST; one that was forwarded gets SERVICE_FAILURE if and
      only if the forward was canceled, found the mailbox closed or timed out. */
  lemma ErrorRepliesExactly(input: seq<Input>, polls: seq<Poll>)
    ensures ErrorsInOrder(Exec(input, polls))
    ensures forall e :: e in Exec(input, polls).errors ==>
              && e.call < Finished(Exec(input, polls)) && e.call < |Exec(input, polls).outcomes|
              && (e.code == SERVICE_FAILURE ==> TellsWhy(e.text, Exec(input, polls).outcomes[e.call]))
              && (e.code == BAD_REQUEST ==> e.text == "endpoint address not found")
    ensures forall i: nat :: i < Finished(Exec(input, polls)) ==>
              var r := Exec(input, polls);
              && i < |r.dispatched| && i < |r.targets| && i < |r.outcomes|
              && (Replied(r.errors, i, BAD_REQUEST) <==> WantsReply(r, i) && r.targets[i].None?)
              && (Replied(r.errors, i, SERVICE_FAILURE) <==>
                    WantsReply(r, i) && r.targets[i].Some? && r.outcomes[i] != ForwardOk)
  {
    Reachable(input, polls);
    var r := Exec(input, polls);
    forall e | e in r.errors ensures e.call < Finished(r) && e.call < |r.outcomes|
      ensures e.code == SERVICE_FAILURE ==> TellsWhy(e.text, r.outcomes[e.call])
      ensures e.code == BAD_REQUEST ==> e.text == NOT_FOUND
    {
      assert Justified(r, e);
    }
    forall i: nat | i < Finished(r)
      ensures Replied(r.errors, i, BAD_REQUEST) <==> WantsReply(r, i) && r.targets[i].None?
      ensures Replied(r.errors, i, SERVICE_FAILURE) <==>
                WantsReply(r, i) && r.targets[i].Some? && r.outcomes[i] != ForwardOk
    {
      RepliedExactly(r, input, i);
    }
  }

  lemma RepliedExactly(r: Reader, input: seq<Input>, i: nat)
    requires Inv(r, input)
    ensures Replied(r.errors, i, BAD_REQUEST) <==> Fails(r, i) && r.targets[i].None?
    ensures Replied(r.errors, i, SERVICE_FAILURE) <==> Fails(r, i) && r.targets[i].Some?
    ensures Reported(r.errors, i) <==> Fails(r, i)
  {
    if Fails(r, i) {
      assert Reported(r.errors, i);
      var k :| 0 <= k < |r.errors| && r.errors[k].call == i;
      assert r.errors[k] in r.errors && Justified(r, r.errors[k]);
    }
    forall e | e in r.errors && e.call == i ensures Justified(r, e) {
    }
  }

  /** What a dispatched call's address resolved to is the longest match in the table at its dispatch. */
  lemma TargetsAreResolved(input: seq<Input>, polls: seq<Poll>, p: Poll)
    requires |Exec(input, polls + [p]).dispatched| > |Exec(input, polls).dispatched|
    requires Exec(input, polls + [p]).dispatched[|Exec(input, polls).dispatched|].Call?
    ensures var i, r := |Exec(input, polls).dispatched|, Exec(input, polls + [p]);
            && i < |r.targets|
            && (r.targets[i].None? ==> forall k :: k in p.table ==> !Covers(k, r.dispatched[i].address))
            && (r.targets[i].Some? ==>
                  exists k :: IsLongestMatch(p.table, r.dispatched[i].address, k) && p.table[k] == r.targets[i].value)
  {
    assert (polls + [p])[..|polls|] == polls;
    Reachable(input, polls);
    var i, r := |Exec(input, polls).dispatched|, Exec(input, polls + [p]);
    LookupKeyIsLongest(p.table, r.dispatched[i].address);
  }

  // ----- The reader in place -----

  class ActorStream {
    const input: seq<Input>
    var started: bool
    var hellos: nat
    var dispatched: seq<Input>
    var targets: seq<Option<ConnId>>
    ghost var outcomes: seq<Outcome>
    var processing: bool
    var errors: seq<ErrorReply>
    var ended: bool

    constructor (input: seq<Input>)
      ensures this.input == input && Model() == START
    {
      this.input := input;
      started, hellos, dispatched, targets, outcomes := false, 0, [], [], [];
      processing, errors, ended := false, [], false;
    }

    ghost function Model(): Reader
      reads this
    {
      Reader(started, hellos, dispatched, targets, outcomes, processing, errors, ended)
    }

    method PollOnce(p: Poll)
      requires Inv(Model(), input) && !ended
      modifies this
      ensures Model() == Step(old(Model()), input, p)
    {
      if !started {
        hellos := hellos + 1;
        started := true;
      }
      if processing {
        if p.done.None? {
          return;
        }
        var i := |dispatched| - 1;
        var e := CallError(i, dispatched[i], targets[i], p.done.value);
        if e.Some? {
          errors := errors + [e.value];
        }
        outcomes := outcomes + [p.done.value];
        processing := false;
      }
      if p.available {
        if |dispatched| < |input| {
          var m := input[|dispatched|];
          dispatched, targets, processing := dispatched + [m], targets + [Resolve(m, p.table)], true;
        } else {
          ended := true;
        }
      }
    }
  }
}

/**
 * The buffered sink writer: crates/util/src/writer.rs.
 *
 * The sink's answers are an input of each poll: one answer per `poll_ready` (pending once the list
 * runs out), then the answers of the two flushes and of the close.
 */
module SinkWriter {

  datatype Answer = Ready | Failed | Pending

  datatype SinkAnswers = SinkAnswers(
    ready: seq<Answer>,
    flushInLoop: Answer,
    flush: Answer,
    close: Answer,
    stopOnError: bool)              // WriteHandler::error answers Running::Stop

  datatype Writer<I> = Writer(
    handed: seq<I>,                 // items passed to start_send, in order
    buffer: seq<I>,
    closing: bool,
    closed: bool,
    done: bool)                     // the writer future has completed

  function Fresh<I>(): Writer<I> { Writer([], [], false, false, false) }

  function Write<I>(w: Writer<I>, item: I): Writer<I> {
    if w.closing || w.closed then w else w.(buffer := w.buffer + [item])
  }

  function Close<I>(w: Writer<I>): Writer<I> { w.(closing := true) }

  /** How many items the sink is ready for before it first answers anything else. */
  function ReadyRun(ready: seq<Answer>): (n: nat)
    ensures n <= |ready|
    ensures forall i :: 0 <= i < n ==> ready[i] == Ready
    ensures n < |ready| ==> ready[n] != Ready
  {
    if ready == [] || ready[0] != Ready then 0 else 1 + ReadyRun(ready[1..])
  }

  /** The item loop: the longest possible prefix of the buffer goes to the sink. */
  function Pump<I>(w: Writer<I>, ready: seq<Answer>): Writer<I> {
    var n := ReadyRun(ready);
    if n <= |w.buffer| then w.(handed := w.handed + w.buffer[..n], buffer := w.buffer[n..])
    else w.(handed := w.handed + w.buffer, buffer := [])
  }

  /** The loop reached its flush, which succeeded: every accepted item is out. */
  predicate Emptied<I>(w: Writer<I>, a: SinkAnswers) {
    ReadyRun(a.ready) > |w.buffer| && a.flushInLoop == Ready
  }

  predicate Finishes<I>(w: Writer<I>, a: SinkAnswers) {
    if !w.closing then a.flush == Failed && a.stopOnError
    else (a.close == Failed && a.stopOnError) || (a.close == Ready && Pump(w, a.ready).buffer == [])
  }

  function Poll<I>(w: Writer<I>, a: SinkAnswers): Writer<I> {
    var p := Pump(w, a.ready);
    if Finishes(w, a) then p.(done := true, closed := w.closed || (w.closing && a.close == Ready)) else p
  }

  // ----- Runs -----

  datatype Event<I> = DoWrite(item: I) | DoClose | DoPoll(answers: SinkAnswers)

  /** The future is not polled again once it has completed. */
  function Step<I>(w: Writer<I>, e: Event<I>): Writer<I> {
    match e
    case DoWrite(item) => Write(w, item)
    case DoClose => Close(w)
    case DoPoll(a) => if w.done then w else Poll(w, a)
  }

  function Exec<I>(events: seq<Event<I>>): Writer<I> {
    if events == [] then Fresh()
    else Step(Exec(events[..|events| - 1]), events[|events| - 1])
  }

  predicate Closes<I>(events: seq<Event<I>>) {
    exists i :: 0 <= i < |events| && events[i].DoClose?
  }

  /** The writes a caller made before it first asked to close. */
  function Accepted<I>(events: seq<Event<I>>): seq<I> {
    if events == [] then []
    else
      var init, e := events[..|events| - 1], events[|events| - 1];
      Accepted(init) + if e.DoWrite? && !Closes(init) then [e.item] else []
  }

  lemma PumpConserves<I>(w: Writer<I>, ready: seq<Answer>)
    ensures Pump(w, ready).handed + Pump(w, ready).buffer == w.handed + w.buffer
    ensures w.handed <= Pump(w, ready).handed
  {
    var n := ReadyRun(ready);
    if n <= |w.buffer| {
      assert w.buffer == w.buffer[..n] + w.buffer[n..];
    }
  }

  lemma StepConserves<I>(w: Writer<I>, e: Event<I>)
    requires w.closed ==> w.closing && w.done && w.buffer == []
    ensures var v := Step(w, e);
            && v.handed + v.buffer == w.handed + w.buffer + (if e.DoWrite? && !w.closing then [e.item] else [])
            && (v.closing <==> w.closing || e.DoClose?)
            && (v.closed ==> v.closing && v.done && v.buffer == [])
  {
    if e.DoPoll? {
      PumpConserves(w, e.answers.ready);
    }
  }

  /** Whatever the sink answers: nothing accepted is lost, duplicated or reordered; nothing else gets in;
      a closed writer was asked to close and has handed everything over. */
  lemma {:induction false} Conservation<I>(events: seq<Event<I>>)
    ensures Exec(events).handed + Exec(events).buffer == Accepted(events)
    ensures Exec(events).closing <==> Closes(events)
    ensures Exec(events).closed ==> Exec(events).closing && Exec(events).done && Exec(events).buffer == []
    ensures Exec(events).closed ==> Exec(events).handed == Accepted(events)
  {
    if events == [] {
    } else {
      var init, e := events[..|events| - 1], events[|events| - 1];
      Conservation(init);
      StepConserves(Exec(init), e);
      assert forall i :: 0 <= i < |init| ==> init[i] == events[i];
    }
  }

  /** The sink only ever sees more: what was handed over stays handed over, in place. */
  lemma HandedOnlyGrows<I>(events: seq<Event<I>>, e: Event<I>)
    ensures Exec(events).handed <= Exec(events + [e]).handed
  {
    assert (events + [e])[..|events|] == events;
    if e.DoPoll? {
      PumpConserves(Exec(events), e.answers.ready);
    }
  }

  /** One poll: the longest prefix the sink is ready for goes out; the empty-buffer callback is due exactly if the
      sink wanted more and flushed; the future completes on an error its owner stops for, or once it is closed. */
  lemma PollMeaning<I>(w: Writer<I>, a: SinkAnswers)
    requires !w.closed && !w.done
    ensures var v, n := Poll(w, a), if ReadyRun(a.ready) <= |w.buffer| then ReadyRun(a.ready) else |w.buffer|;
            && v.handed == w.handed + w.buffer[..n] && v.buffer == w.buffer[n..] && v.closing == w.closing
            && (v.closed <==> w.closing && a.close == Ready && v.buffer == [])
            && (v.done <==> v.closed || (a.stopOnError && (if w.closing then a.close == Failed else a.flush == Failed)))
            && (Emptied(w, a) <==> ReadyRun(a.ready) > |w.buffer| && a.flushInLoop == Ready)
  {
  }

  // ----- The writer in place -----

  class SinkWrite<I> {
    var handed: seq<I>
    var buffer: seq<I>
    var closing: bool
    var closed: bool
    var done: bool

    constructor ()
      ensures Model() == Fresh()
    {
      handed, buffer, closing, closed, done := [], [], false, false, false;
    }

    ghost function Model(): Writer<I>
      reads this
    {
      Writer(handed, buffer, closing, closed, done)
    }

    ghost predicate Valid()
      reads this
    {
      closed ==> closing && done
    }

    /** Reports whether the item was refused. */
    method Append(item: I) returns (refused: bool)
      requires Valid()
      modifies this`buffer
      ensures Valid() && Model() == Write(old(Model()), item)
      ensures refused <==> old(closing)
      ensures buffer == if refused then old(buffer) else old(buffer) + [item]
    {
      if !closing && !closed {
        buffer := buffer + [item];
        refused := false;
      } else {
        refused := true;
      }
    }

    method Shut()
      requires Valid()
      modifies this`closing
      ensures Valid() && Model() == Close(old(Model()))
      ensures closing
    {
      closing := true;
    }

    /** One poll of the writer future; `emptied` asks the owner to run its empty-buffer handler. */
    method PollOnce(a: SinkAnswers) returns (emptied: bool)
      requires Valid() && !done
      modifies this
      ensures Valid() && Model() == Poll(old(Model()), a)
      ensures emptied <==> Emptied(old(Model()), a) && !done
      ensures emptied ==> buffer == []
      ensures var n := if ReadyRun(a.ready) <= |old(buffer)| then ReadyRun(a.ready) else |old(buffer)|;
              handed == old(handed) + old(buffer)[..n] && buffer == old(buffer)[n..]
      ensures emptied <==> !done && ReadyRun(a.ready) > |old(buffer)| && a.flushInLoop == Ready
      ensures closing == old(closing)
      ensures closed <==> closing && a.close == Ready && buffer == []
      ensures done <==> closed || (a.stopOnError && (if closing then a.close == Failed else a.flush == Failed))
    {
      PollMeaning(Model(), a);
      emptied := false;
      var i := 0;
      while i < |a.ready|
        invariant 0 <= i <= |a.ready| && i <= |old(buffer)|
        invariant i <= ReadyRun(a.ready) && !emptied
        invariant handed == old(handed) + old(buffer)[..i] && buffer == old(buffer)[i..]
        invariant closing == old(closing) && closed == old(closed) && !done
      {
        if a.ready[i] == Ready {
          RunContinues(a.ready, i);
          if buffer != [] {
            handed := handed + [buffer[0]];
            buffer := buffer[1..];
          } else {
            emptied := a.flushInLoop == Ready;
            break;
          }
        } else {
          break;
        }
        i := i + 1;
      }
      if !closing {
        if a.flush == Failed && a.stopOnError {
          done := true;
          return false;
        }
      } else {
        assert !closed;             // the writer's own assertion
        match a.close {
          case Failed =>
            if a.stopOnError {
              done := true;
              return false;
            }
          case Ready =>
            if buffer == [] {
              closed, done := true, true;
              return false;
            }
          case Pending =>
        }
      }
    }
  }

  lemma RunContinues(ready: seq<Answer>, i: nat)
    requires i < |ready| && i <= ReadyRun(ready) && ready[i] == Ready
    ensures i < ReadyRun(ready)
  {
  }
}

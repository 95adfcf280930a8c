/**
 * Commands and their replies, matched only by order: the client of src/connection.rs, two FIFO channels and
 * the command handlers of crates/router/src/connection.rs.
 *
 * Every command carries the number of the future that waits for it and the router copies that number into
 * its reply. No handler looks at these numbers: they only record whose request a reply answers.
 */
module CommandMatching {
  import opened Common
  import opened RouterTables

  datatype Kind = Binding | Unbinding | Subscribing | Unsubscribing | Broadcasting

  datatype Up = Command(kind: Kind, arg: string, ticket: nat) | OtherUp      // client to router
  datatype Down = Ack(kind: Kind, code: int, ticket: nat) | OtherDown        // router to client

  datatype Request = Request(kind: Kind, arg: string)

  datatype Result = Done | BadRequest | AlreadyRegistered

  datatype Sys = Sys(
    // client
    waiting: map<Kind, seq<nat>>,   // the five reply queues
    issued: seq<Request>,           // every command ever sent, by ticket
    answered: map<nat, Result>,     // resolved futures
    stopped: bool,
    // channels
    up: seq<Up>,
    down: seq<Down>,
    // router
    me: ConnId,                     // the connection
    table: Table,
    topics: set<string>,
    decided: seq<int>)              // the codes chosen so far, in the order the commands were read

  datatype Event =
    | Issue(kind: Kind, arg: string)            // send_cmd_async
    | ClientSends                               // calls, call replies, pongs
    | RouterReads(live: set<ConnId>)
    | RouterSends                               // pings, forwarded requests, call replies, broadcasts
    | ClientReads
    | OthersMove(table: Table)                  // other connections change the table

  function Queue(m: map<Kind, seq<nat>>, k: Kind): seq<nat> { if k in m then m[k] else [] }

  // ----- Router -----

  /** The reply code of a command, with the router's new table and topics. A repeated subscription is
      answered with the default reply all the same. */
  function Decide(kind: Kind, arg: string, table: Table, topics: set<string>, me: ConnId, live: set<ConnId>)
    : (int, Table, set<string>)
  {
    match kind
    case Binding => var (t, ok) := Register(table, arg, me); (if ok then 0 else 409, t, topics)
    case Unbinding => var (t, ok) := Unregister(table, arg, me, live); (if ok then 0 else 404, t, topics)
    case Subscribing => (0, table, topics + {arg})
    case Unsubscribing => (if arg in topics then 0 else 404, table, topics - {arg})
    case Broadcasting => (0, table, topics)
  }

  function Route(st: Sys, live: set<ConnId>): Sys {
    if st.up == [] then st
    else match st.up[0]
      case OtherUp => st.(up := st.up[1..])
      case Command(kind, arg, ticket) =>
        var (code, table, topics) := Decide(kind, arg, st.table, st.topics, st.me, live);
        st.(up := st.up[1..], table := table, topics := topics,
            decided := st.decided + [code], down := st.down + [Ack(kind, code, ticket)])
  }

  // ----- Client -----

  /** The reply-code maps and what the waiting future receives; None stops the client. */
  function Outcome(kind: Kind, code: int): Option<Result> {
    if code == 0 then Some(Done)
    else match kind
      case Binding => if code == 400 then Some(BadRequest) else if code == 409 then Some(AlreadyRegistered) else None
      case Unbinding => if code == 404 then Some(BadRequest) else None
      case Subscribing => if code == 400 then Some(BadRequest) else None
      case Unsubscribing => if code == 404 then Some(BadRequest) else None
      case Broadcasting => if code == 400 then Some(BadRequest) else None
  }

  /** The codes the client accepts in answer to each kind of command. */
  function Codes(kind: Kind): set<int> {
    match kind
    case Binding => {0, 400, 409}
    case Unbinding => {0, 404}
    case Subscribing => {0, 400}
    case Unsubscribing => {0, 404}
    case Broadcasting => {0, 400}
  }

  function SendCommand(st: Sys, kind: Kind, arg: string): Sys {
    var t := |st.issued|;
    st.(waiting := st.waiting[kind := Queue(st.waiting, kind) + [t]], issued := st.issued + [Request(kind, arg)],
        up := st.up + [Command(kind, arg, t)])
  }

  /** The front waiter of the kind takes the reply; an unknown code or an empty queue stops the client. */
  function TakeReply(st: Sys, kind: Kind, code: int): Sys {
    var q, r := Queue(st.waiting, kind), Outcome(kind, code);
    if r.None? || q == [] then st.(stopped := true)
    else st.(waiting := st.waiting[kind := q[1..]], answered := st.answered[q[0] := r.value])
  }

  function Receive(st: Sys): Sys {
    if st.down == [] then st
    else
      var rest := st.(down := st.down[1..]);
      match st.down[0]
      case OtherDown => rest
      case Ack(kind, code, _) => TakeReply(rest, kind, code)
  }

  function Step(st: Sys, e: Event): Sys {
    if st.stopped then st else
    match e
    case Issue(kind, arg) => SendCommand(st, kind, arg)
    case ClientSends => st.(up := st.up + [OtherUp])
    case RouterReads(live) => Route(st, live)
    case RouterSends => st.(down := st.down + [OtherDown])
    case ClientReads => Receive(st)
    case OthersMove(table) => st.(table := table)
  }

  function Start(me: ConnId): Sys { Sys(map[], [], map[], false, [], [], me, map[], {}, []) }

  function Exec(me: ConnId, events: seq<Event>): Sys {
    if events == [] then Start(me)
    else Step(Exec(me, events[..|events| - 1]), events[|events| - 1])
  }

  // ----- Matching -----

  function UpTickets(up: seq<Up>, k: Kind): seq<nat> {
    if up == [] then []
    else (if up[0].Command? && up[0].kind == k then [up[0].ticket] else []) + UpTickets(up[1..], k)
  }

  function DownTickets(down: seq<Down>, k: Kind): seq<nat> {
    if down == [] then []
    else (if down[0].Ack? && down[0].kind == k then [down[0].ticket] else []) + DownTickets(down[1..], k)
  }

  function Commands(up: seq<Up>): nat {
    if up == [] then 0 else (if up[0].Command? then 1 else 0) + Commands(up[1..])
  }

  lemma TailOfSnoc<T>(s: seq<T>, x: T)
    ensures (s + [x])[0] == if s == [] then x else s[0]
    ensures (s + [x])[1..] == if s == [] then [] else s[1..] + [x]
  {
  }

  lemma {:induction false} UpSnoc(up: seq<Up>, m: Up, k: Kind)
    ensures UpTickets(up + [m], k) == UpTickets(up, k) + if m.Command? && m.kind == k then [m.ticket] else []
    ensures Commands(up + [m]) == Commands(up) + if m.Command? then 1 else 0
  {
    TailOfSnoc(up, m);
    if up == [] {
      assert UpTickets([], k) == [] && Commands([]) == 0;
    } else {
      UpSnoc(up[1..], m, k);
      var h, t := if up[0].Command? && up[0].kind == k then [up[0].ticket] else [], UpTickets(up[1..], k);
      var x := if m.Command? && m.kind == k then [m.ticket] else [];
      assert h + (t + x) == h + t + x;
    }
  }

  lemma {:induction false} DownSnoc(down: seq<Down>, m: Down, k: Kind)
    ensures DownTickets(down + [m], k) == DownTickets(down, k) + if m.Ack? && m.kind == k then [m.ticket] else []
  {
    TailOfSnoc(down, m);
    if down == [] {
      assert DownTickets([], k) == [];
    } else {
      DownSnoc(down[1..], m, k);
      var h, t := if down[0].Ack? && down[0].kind == k then [down[0].ticket] else [], DownTickets(down[1..], k);
      var x := if m.Ack? && m.kind == k then [m.ticket] else [];
      assert h + (t + x) == h + t + x;
    }
  }

  /** The waiters of a kind, front first, are those of the replies in flight, then of the requests in flight. */
  ghost predicate Matched(st: Sys, k: Kind) {
    Queue(st.waiting, k) == DownTickets(st.down, k) + UpTickets(st.up, k)
  }

  /** Requests in flight carry consecutive tickets from `first` on. */
  ghost predicate Consecutive(up: seq<Up>, first: nat, issued: seq<Request>) {
    up != [] ==>
      if up[0].OtherUp? then Consecutive(up[1..], first, issued)
      else
        && up[0].ticket == first && first < |issued| && issued[first] == Request(up[0].kind, up[0].arg)
        && Consecutive(up[1..], first + 1, issued)
  }

  ghost predicate Decided(st: Sys, m: Down) {
    m.Ack? ==>
      && m.ticket < |st.decided| && m.ticket < |st.issued|
      && st.issued[m.ticket].kind == m.kind && st.decided[m.ticket] == m.code && Outcome(m.kind, m.code).Some?
  }

  ghost predicate Served(st: Sys, t: nat) {
    && t in st.answered && t < |st.decided| && t < |st.issued|
    && Outcome(st.issued[t].kind, st.decided[t]) == Some(st.answered[t])
  }

  ghost predicate Inv(st: Sys) {
    && !st.stopped
    && (forall k :: Matched(st, k))
    && Consecutive(st.up, |st.decided|, st.issued) && |st.decided| + Commands(st.up) == |st.issued|
    && (forall m :: m in st.down ==> Decided(st, m))
    && (forall t :: t in st.answered ==> Served(st, t))
    && (forall t: nat :: t < |st.issued| ==> t in st.answered || t in Queue(st.waiting, st.issued[t].kind))
  }

  lemma {:induction false} ConsecutiveSnoc(up: seq<Up>, first: nat, issued: seq<Request>, m: Up, more: seq<Request>)
    requires Consecutive(up, first, issued)
    requires m.Command? ==> m.ticket == first + Commands(up) && m.ticket == |issued| && more == [Request(m.kind, m.arg)]
    requires m.OtherUp? ==> more == []
    ensures Consecutive(up + [m], first, issued + more)
    decreases |up|
  {
    if up == [] {
      assert (up + [m])[1..] == [];
    } else {
      assert (up + [m])[1..] == up[1..] + [m];
      ConsecutiveSnoc(up[1..], if up[0].Command? then first + 1 else first, issued, m, more);
    }
  }

  lemma IssueKeepsWaiters(st: Sys, kind: Kind, arg: string)
    requires forall t: nat :: t < |st.issued| ==> t in st.answered || t in Queue(st.waiting, st.issued[t].kind)
    ensures var after := SendCommand(st, kind, arg);
            forall t: nat :: t < |after.issued| ==> t in after.answered || t in Queue(after.waiting, after.issued[t].kind)
  {
    var after, q := SendCommand(st, kind, arg), Queue(st.waiting, kind);
    assert forall t :: t in q ==> t in q + [|st.issued|];
    assert (q + [|st.issued|])[|q|] == |st.issued|;
    forall t: nat | t < |after.issued| ensures t in after.answered || t in Queue(after.waiting, after.issued[t].kind) {
      if t < |st.issued| {
        assert t in st.answered || t in Queue(st.waiting, st.issued[t].kind);
      }
    }
  }

  lemma IssueKeepsInv(st: Sys, kind: Kind, arg: string)
    requires Inv(st)
    ensures Inv(SendCommand(st, kind, arg))
  {
    var after, t := SendCommand(st, kind, arg), |st.issued|;
    ConsecutiveSnoc(st.up, |st.decided|, st.issued, Command(kind, arg, t), [Request(kind, arg)]);
    UpSnoc(st.up, Command(kind, arg, t), kind);
    IssueKeepsWaiters(st, kind, arg);
    forall k ensures Matched(after, k) {
      UpSnoc(st.up, Command(kind, arg, t), k);
      assert Matched(st, k);
    }
    forall m | m in after.down ensures Decided(after, m) {
      assert Decided(st, m);
    }
    forall u | u in after.answered ensures Served(after, u) {
      assert Served(st, u);
    }
  }

  lemma DecideIsKnown(kind: Kind, arg: string, table: Table, topics: set<string>, me: ConnId, live: set<ConnId>)
    ensures Outcome(kind, Decide(kind, arg, table, topics, me, live).0).Some?
  {
  }

  /** Answering the command in front with any code the client knows. */
  lemma AckKeepsInv(st: Sys, code: int)
    requires Inv(st) && st.up != [] && st.up[0].Command? && Outcome(st.up[0].kind, code).Some?
    ensures Inv(st.(up := st.up[1..], decided := st.decided + [code],
                    down := st.down + [Ack(st.up[0].kind, code, st.up[0].ticket)]))
  {
    var ack := Ack(st.up[0].kind, code, st.up[0].ticket);
    var after := st.(up := st.up[1..], decided := st.decided + [code], down := st.down + [ack]);
    forall k ensures Matched(after, k) {
      DownSnoc(st.down, ack, k);
      assert Matched(st, k);
    }
    forall m | m in after.down ensures Decided(after, m) {
      assert m == ack || Decided(st, m);
    }
    forall u | u in after.answered ensures Served(after, u) {
      assert Served(st, u);
    }
  }

  lemma RouteKeepsInv(st: Sys, live: set<ConnId>)
    requires Inv(st) && st.up != []
    ensures Inv(Route(st, live))
  {
    var c := st.up[0];
    if c.OtherUp? {
      DropChatterKeepsInv(st, st.up[1..], st.down);
    } else {
      DecideIsKnown(c.kind, c.arg, st.table, st.topics, st.me, live);
      var (code, table, topics) := Decide(c.kind, c.arg, st.table, st.topics, st.me, live);
      AckKeepsInv(st, code);
      var mid := st.(up := st.up[1..], decided := st.decided + [code],
                     down := st.down + [Ack(c.kind, code, c.ticket)]);
      assert Route(st, live) == mid.(table := table, topics := topics);
      SameButTables(mid, table, topics);
    }
  }

  lemma DropChatterKeepsInv(st: Sys, up: seq<Up>, down: seq<Down>)
    requires Inv(st)
    requires up == st.up || (st.up != [] && st.up[0].OtherUp? && up == st.up[1..])
    requires down == st.down || (st.down != [] && st.down[0].OtherDown? && down == st.down[1..])
    ensures Inv(st.(up := up, down := down))
  {
    var after := st.(up := up, down := down);
    forall k ensures Matched(after, k) {
      assert Matched(st, k);
    }
    forall m | m in after.down ensures Decided(after, m) {
      assert Decided(st, m);
    }
    forall u | u in after.answered ensures Served(after, u) {
      assert Served(st, u);
    }
  }

  lemma SameButTables(st: Sys, table: Table, topics: set<string>)
    requires Inv(st)
    ensures Inv(st.(table := table, topics := topics))
  {
    var after := st.(table := table, topics := topics);
    forall k ensures Matched(after, k) {
      assert Matched(st, k);
    }
    forall m | m in after.down ensures Decided(after, m) {
      assert Decided(st, m);
    }
    forall u | u in after.answered ensures Served(after, u) {
      assert Served(st, u);
    }
  }

  /** The front waiter takes the reply in front, which is its own. */
  lemma ReplyKeepsInv(st: Sys)
    requires Inv(st) && st.down != [] && st.down[0].Ack?
    ensures var m := st.down[0];
            var q, r := Queue(st.waiting, m.kind), Outcome(m.kind, m.code);
            && q != [] && q[0] == m.ticket && r.Some?
            && Inv(st.(down := st.down[1..], waiting := st.waiting[m.kind := q[1..]],
                       answered := st.answered[q[0] := r.value]))
  {
    var m := st.down[0];
    assert m in st.down && Matched(st, m.kind) && Decided(st, m);
    var q, r := Queue(st.waiting, m.kind), Outcome(m.kind, m.code);
    var after := st.(down := st.down[1..], waiting := st.waiting[m.kind := q[1..]],
                     answered := st.answered[q[0] := r.value]);
    forall k ensures Matched(after, k) {
      assert Matched(st, k);
    }
    forall x | x in after.down ensures Decided(after, x) {
      assert Decided(st, x);
    }
    forall u | u in after.answered ensures Served(after, u) {
      assert u == m.ticket || Served(st, u);
    }
    forall t: nat | t < |st.issued| ensures t in after.answered || t in Queue(after.waiting, st.issued[t].kind) {
      assert q == [q[0]] + q[1..];
    }
  }

  lemma ReceiveKeepsInv(st: Sys)
    requires Inv(st) && st.down != []
    ensures Inv(Receive(st))
  {
    if st.down[0].Ack? {
      ReplyKeepsInv(st);
    } else {
      DropChatterKeepsInv(st, st.up, st.down[1..]);
    }
  }

  lemma ClientChatterKeepsInv(st: Sys)
    requires Inv(st)
    ensures Inv(st.(up := st.up + [OtherUp]))
  {
    var after := st.(up := st.up + [OtherUp]);
    ConsecutiveSnoc(st.up, |st.decided|, st.issued, OtherUp, []);
    assert st.issued + [] == st.issued;
    forall k ensures Commands(after.up) == Commands(st.up) && Matched(after, k) {
      UpSnoc(st.up, OtherUp, k);
      assert Matched(st, k);
    }
    assert Matched(after, Binding);
    forall u | u in after.answered ensures Served(after, u) {
      assert Served(st, u);
    }
  }

  lemma RouterChatterKeepsInv(st: Sys)
    requires Inv(st)
    ensures Inv(st.(down := st.down + [OtherDown]))
  {
    var after := st.(down := st.down + [OtherDown]);
    forall k ensures Matched(after, k) {
      DownSnoc(st.down, OtherDown, k);
      assert Matched(st, k);
    }
    forall u | u in after.answered ensures Served(after, u) {
      assert Served(st, u);
    }
  }

  lemma {:induction false} Reachable(me: ConnId, events: seq<Event>)
    ensures Inv(Exec(me, events))
  {
    if events == [] {
    } else {
      var st, e := Exec(me, events[..|events| - 1]), events[|events| - 1];
      Reachable(me, events[..|events| - 1]);
      match e
      case Issue(kind, arg) => IssueKeepsInv(st, kind, arg);
      case RouterReads(live) => if st.up != [] { RouteKeepsInv(st, live); }
      case ClientReads => if st.down != [] { ReceiveKeepsInv(st); }
      case ClientSends => ClientChatterKeepsInv(st);
      case RouterSends => RouterChatterKeepsInv(st);
      case OthersMove(table) => SameButTables(st, table, st.topics);
    }
  }

  /** In every run the queues line up with the channels, so the client never sees an unmatched or unknown
      reply, and every future is resolved with the code the router chose for its own request. */
  lemma EveryCommandGetsItsOwnReply(me: ConnId, events: seq<Event>)
    ensures !Exec(me, events).stopped
    ensures forall k :: Queue(Exec(me, events).waiting, k) == DownTickets(Exec(me, events).down, k) + UpTickets(Exec(me, events).up, k)
    ensures forall t :: t in Exec(me, events).answered ==>
              var st := Exec(me, events);
              && t < |st.decided| && t < |st.issued|
              && Outcome(st.issued[t].kind, st.decided[t]) == Some(st.answered[t])
  {
    Reachable(me, events);
    var st := Exec(me, events);
    forall k ensures Queue(st.waiting, k) == DownTickets(st.down, k) + UpTickets(st.up, k) {
      assert Matched(st, k);
    }
    forall t | t in st.answered ensures Served(st, t) {
    }
  }

  // ----- What an answer means -----

  /** At its n-th step the run reads command t. */
  ghost predicate ReadAt(me: ConnId, events: seq<Event>, n: nat, t: nat) {
    && n < |events| && events[n].RouterReads?
    && var st := Exec(me, events[..n]);
       && !st.stopped && |st.decided| == t
       && st.up != [] && st.up[0].Command? && st.up[0].ticket == t
  }

  /** The decision on a request, with the table and topics found and left, seen from what the waiting future
      receives. */
  ghost predicate Means(req: Request, r: Result, e: Event, st: Sys, after: Sys) {
    && e.RouterReads?
    && match req.kind
       case Binding =>
         && (r == AlreadyRegistered <==> req.arg in st.table) && (r == Done <==> req.arg !in st.table)
         && after.table == (if r == Done then st.table[req.arg := st.me] else st.table) && after.topics == st.topics
       case Unbinding =>
         && (r == BadRequest <==> !Releases(st.table, req.arg, st.me, e.live))
         && (r == Done <==> Releases(st.table, req.arg, st.me, e.live))
         && after.table == (if r == Done then st.table - {req.arg} else st.table) && after.topics == st.topics
       case Subscribing => r == Done && after.topics == st.topics + {req.arg} && after.table == st.table
       case Unsubscribing =>
         && (r == BadRequest <==> req.arg !in st.topics) && (r == Done <==> req.arg in st.topics)
         && after.topics == st.topics - {req.arg} && after.table == st.table
       case Broadcasting => r == Done && after.topics == st.topics && after.table == st.table
  }

  /** The code recorded for command t is the one decided at step n, on the request issued under that ticket. */
  ghost predicate DecidedAt(me: ConnId, events: seq<Event>, n: nat, t: nat) {
    && ReadAt(me, events, n, t) && t < |Exec(me, events).decided| && t < |Exec(me, events).issued|
    && var st, req := Exec(me, events[..n]), Exec(me, events).issued[t];
       && req == Request(st.up[0].kind, st.up[0].arg)
       && Exec(me, events).decided[t] == Decide(req.kind, req.arg, st.table, st.topics, me, events[n].live).0
  }

  lemma StepKeepsHistory(st: Sys, e: Event)
    ensures st.decided <= Step(st, e).decided && st.issued <= Step(st, e).issued
    ensures |Step(st, e).decided| <= |st.decided| + 1 && Step(st, e).me == st.me
    ensures |Step(st, e).decided| > |st.decided| ==>
              !st.stopped && e.RouterReads? && st.up != [] && st.up[0].Command?
  {
  }

  lemma {:induction false} SameConnection(me: ConnId, events: seq<Event>)
    ensures Exec(me, events).me == me
  {
    if events == [] {
    } else {
      SameConnection(me, events[..|events| - 1]);
      StepKeepsHistory(Exec(me, events[..|events| - 1]), events[|events| - 1]);
    }
  }

  /** Reading a command records the decision on it under its own number. */
  lemma DecidesFront(st: Sys, e: Event)
    requires Inv(st) && |Step(st, e).decided| > |st.decided|
    ensures !st.stopped && e.RouterReads? && st.up != [] && st.up[0].Command?
    ensures var t, c, after := |st.decided|, st.up[0], Step(st, e);
            && c.ticket == t && t < |after.issued| && after.issued[t] == Request(c.kind, c.arg)
            && after.decided == st.decided + [Decide(c.kind, c.arg, st.table, st.topics, st.me, e.live).0]
  {
    StepKeepsHistory(st, e);
    assert Consecutive(st.up, |st.decided|, st.issued);
  }

  lemma DecidedStays(me: ConnId, events: seq<Event>, n: nat, t: nat)
    requires events != [] && DecidedAt(me, events[..|events| - 1], n, t)
    ensures DecidedAt(me, events, n, t)
  {
    var init := events[..|events| - 1];
    StepKeepsHistory(Exec(me, init), events[|events| - 1]);
    assert init[..n] == events[..n] && init[n] == events[n];
  }

  /** A decision made at the last step. */
  lemma DecidedNow(me: ConnId, events: seq<Event>, t: nat)
    requires events != [] && t < |Exec(me, events).decided| && t >= |Exec(me, events[..|events| - 1]).decided|
    ensures DecidedAt(me, events, |events| - 1, t)
  {
    var init := events[..|events| - 1];
    Reachable(me, init);
    SameConnection(me, init);
    StepKeepsHistory(Exec(me, init), events[|events| - 1]);
    DecidesFront(Exec(me, init), events[|events| - 1]);
  }

  /** Every decision was made at some step of the run, on its own request and the state of that moment. */
  lemma {:induction false} DecidedOnItsOwnRequest(me: ConnId, events: seq<Event>, t: nat) returns (n: nat)
    requires t < |Exec(me, events).decided|
    ensures DecidedAt(me, events, n, t)
  {
    assert events != [];
    if t < |Exec(me, events[..|events| - 1]).decided| {
      n := DecidedOnItsOwnRequest(me, events[..|events| - 1], t);
      DecidedStays(me, events, n, t);
    } else {
      n := |events| - 1;
      DecidedNow(me, events, t);
    }
  }

  lemma DecisionMeaning(st: Sys, e: Event)
    requires e.RouterReads? && !st.stopped && st.up != [] && st.up[0].Command?
    ensures var c := st.up[0];
            var code := Decide(c.kind, c.arg, st.table, st.topics, st.me, e.live).0;
            forall r :: Outcome(c.kind, code) == Some(r) ==> Means(Request(c.kind, c.arg), r, e, st, Step(st, e))
  {
  }

  /** In every run, what a future receives is about its own request and the router's state when that request
      was read: a bind fails exactly when the name was then taken, an unbind exactly when the entry was not
      this connection's to release, an unsubscribe exactly when there was no subscription; subscribing, even
      twice, and broadcasting always succeed. */
  lemma AnswersMeanTheirRequest(me: ConnId, events: seq<Event>, t: nat) returns (n: nat)
    requires t in Exec(me, events).answered
    ensures ReadAt(me, events, n, t) && t < |Exec(me, events).issued| && Exec(me, events[..n]).me == me
    ensures Means(Exec(me, events).issued[t], Exec(me, events).answered[t], events[n],
                  Exec(me, events[..n]), Exec(me, events[..n + 1]))
  {
    EveryCommandGetsItsOwnReply(me, events);
    n := DecidedOnItsOwnRequest(me, events, t);
    SameConnection(me, events[..n]);
    DecisionMeaning(Exec(me, events[..n]), events[n]);
    assert events[..n + 1][..n] == events[..n];
  }

  /** Once both channels are empty nobody is left waiting. */
  lemma DrainedMeansAnswered(me: ConnId, events: seq<Event>, t: nat)
    requires Exec(me, events).up == [] && Exec(me, events).down == [] && t < |Exec(me, events).issued|
    ensures t in Exec(me, events).answered
  {
    Reachable(me, events);
    var st := Exec(me, events);
    assert Matched(st, st.issued[t].kind);
  }

  /** Which reply codes are known for a kind, and what each means. */
  lemma OutcomeMeaning(kind: Kind, code: int)
    ensures Outcome(kind, code).Some? <==> code in Codes(kind)
    ensures code in Codes(kind) ==>
              Outcome(kind, code) == Some(if code == 0 then Done else if code == 409 then AlreadyRegistered else BadRequest)
  {
  }

  // ----- Draining the channels -----

  function Repeat(e: Event, n: nat): (r: seq<Event>)
    ensures |r| == n
  {
    seq(n, i => e)
  }

  lemma ExecOne(me: ConnId, events: seq<Event>, e: Event)
    ensures Exec(me, events + [e]) == Step(Exec(me, events), e)
  {
    assert (events + [e])[..|events|] == events;
  }

  lemma RepeatSnoc(events: seq<Event>, e: Event, n: nat)
    ensures events + Repeat(e, n + 1) == events + Repeat(e, n) + [e]
  {
  }

  /** Each read takes exactly the message in front, and answers or resolves exactly when it is a command or a
      reply. */
  lemma ReadsTakeTheFront(me: ConnId, events: seq<Event>, live: set<ConnId>)
    ensures var st := Exec(me, events);
            && (st.up != [] ==>
                  var after := Exec(me, events + [RouterReads(live)]);
                  && after.up == st.up[1..] && |after.down| == |st.down| + (if st.up[0].Command? then 1 else 0)
                  && st.down <= after.down && after.issued == st.issued)
            && (st.down != [] ==>
                  var after := Exec(me, events + [ClientReads]);
                  && after.down == st.down[1..] && after.up == st.up && after.issued == st.issued
                  && (st.down[0].Ack? ==> st.down[0].ticket in after.answered))
  {
    Reachable(me, events);
    ExecOne(me, events, RouterReads(live));
    ExecOne(me, events, ClientReads);
    if Exec(me, events).down != [] && Exec(me, events).down[0].Ack? {
      ReplyKeepsInv(Exec(me, events));
    }
  }

  lemma {:induction false} RouterCatchesUp(me: ConnId, events: seq<Event>, live: set<ConnId>, n: nat)
    requires n <= |Exec(me, events).up|
    ensures var st := Exec(me, events + Repeat(RouterReads(live), n));
            |st.up| == |Exec(me, events).up| - n && st.issued == Exec(me, events).issued
  {
    if n == 0 {
      assert events + Repeat(RouterReads(live), 0) == events;
    } else {
      RouterCatchesUp(me, events, live, n - 1);
      RepeatSnoc(events, RouterReads(live), n - 1);
      ReadsTakeTheFront(me, events + Repeat(RouterReads(live), n - 1), live);
    }
  }

  lemma {:induction false} ClientCatchesUp(me: ConnId, events: seq<Event>, n: nat)
    requires n <= |Exec(me, events).down|
    ensures var st := Exec(me, events + Repeat(ClientReads, n));
            && |st.down| == |Exec(me, events).down| - n
            && st.up == Exec(me, events).up && st.issued == Exec(me, events).issued
  {
    if n == 0 {
      assert events + Repeat(ClientReads, 0) == events;
    } else {
      ClientCatchesUp(me, events, n - 1);
      RepeatSnoc(events, ClientReads, n - 1);
      ReadsTakeTheFront(me, events + Repeat(ClientReads, n - 1), {});
    }
  }

  /** From any state of any run, reading both channels out answers every command ever issued. */
  lemma ReadingAnswersAll(me: ConnId, events: seq<Event>, live: set<ConnId>, t: nat)
    requires t < |Exec(me, events).issued|
    ensures var caught := events + Repeat(RouterReads(live), |Exec(me, events).up|);
            var drained := caught + Repeat(ClientReads, |Exec(me, caught).down|);
            t in Exec(me, drained).answered && Exec(me, drained).up == [] && Exec(me, drained).down == []
  {
    var caught := events + Repeat(RouterReads(live), |Exec(me, events).up|);
    RouterCatchesUp(me, events, live, |Exec(me, events).up|);
    ClientCatchesUp(me, caught, |Exec(me, caught).down|);
    DrainedMeansAnswered(me, caught + Repeat(ClientReads, |Exec(me, caught).down|), t);
  }

  // ----- The client in place -----

  class Client {
    var waiting: map<Kind, seq<nat>>
    var issued: seq<Request>
    var answered: map<nat, Result>
    var stopped: bool
    var sent: seq<Up>               // what the open writer has accepted

    constructor ()
      ensures waiting == map[] && issued == [] && answered == map[] && !stopped && sent == []
    {
      waiting, issued, answered, stopped, sent := map[], [], map[], false, [];
    }

    /** The client fields of a system state whose up channel, counting what was read, is `sent`. */
    ghost predicate Represents(st: Sys)
      reads this
    {
      && waiting == st.waiting && issued == st.issued && answered == st.answered && stopped == st.stopped
      && |st.up| <= |sent| && sent[|sent| - |st.up|..] == st.up
    }

    /** send_cmd_async: the waiter joins its queue, then the command goes to the writer. */
    method Send(ghost st: Sys, kind: Kind, arg: string) returns (ticket: nat)
      requires Represents(st)
      modifies this
      ensures Represents(SendCommand(st, kind, arg))
      ensures issued == old(issued) + [Request(kind, arg)] && sent == old(sent) + [Command(kind, arg, |old(issued)|)]
      ensures Queue(waiting, kind) == Queue(old(waiting), kind) + [|old(issued)|]
      ensures forall k :: k != kind ==> Queue(waiting, k) == Queue(old(waiting), k)
      ensures ticket == |old(issued)|
    {
      ticket := |issued|;
      waiting := waiting[kind := Queue(waiting, kind) + [ticket]];
      issued := issued + [Request(kind, arg)];
      ghost var was := sent;
      sent := sent + [Command(kind, arg, ticket)];
      assert sent[|was| - |st.up|..] == was[|was| - |st.up|..] + [Command(kind, arg, ticket)];
    }

    method HandleReply(ghost st: Sys, kind: Kind, code: int)
      requires Represents(st)
      modifies this`waiting, this`answered, this`stopped
      ensures Represents(TakeReply(st, kind, code))
      ensures stopped <==> old(stopped) || code !in Codes(kind) || Queue(old(waiting), kind) == []
      ensures code !in Codes(kind) || Queue(old(waiting), kind) == [] ==>
                waiting == old(waiting) && answered == old(answered)
      ensures code in Codes(kind) && Queue(old(waiting), kind) != [] ==>
                && Queue(waiting, kind) == Queue(old(waiting), kind)[1..]
                && (forall k :: k != kind ==> Queue(waiting, k) == Queue(old(waiting), k))
                && answered == old(answered)[Queue(old(waiting), kind)[0] :=
                     if code == 0 then Done else if code == 409 then AlreadyRegistered else BadRequest]
    {
      OutcomeMeaning(kind, code);
      var r := Outcome(kind, code);
      if r.None? {
        stopped := true;
        return;
      }
      var q := Queue(waiting, kind);
      if q != [] {
        waiting := waiting[kind := q[1..]];
        answered := answered[q[0] := r.value];
      } else {
        stopped := true;
      }
    }
  }
}

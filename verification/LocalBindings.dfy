/**
 * Local handlers and the bindings they cause: Router (src/local_router.rs) feeding the mailbox of RemoteRouter
 * (src/remote_router.rs).
 *
 * A prefix unbind removes handlers at once, but its Remove messages are sent one by one, and only when the
 * future it returns is run; until then they are `unsent`. A run interleaves operations, the progress of any
 * number of such futures and the remote router's handling of its mailbox in any way.
 */
module LocalBindings {
  import opened PrefixLookup
  import opened RemoteBindings

  type Slot = nat

  datatype Local = Local(
    handlers: map<string, Slot>,
    mailbox: seq<Command>,          // UpdateService messages not yet handled
    bindings: set<string>,          // RemoteRouter::local_bindings
    unsent: seq<string>,            // Remove messages of unbind futures not yet sent
    lost: set<string>)              // bound names whose Remove was sent after their latest bind

  datatype Event =
    | BindAt(addr: string, slot: Slot)          // bind, bind_stream, bind_actor, bind_raw, bind_raw_dual
    | TryBind(addr: string, slot: Slot)
    | UnbindExact(addr: string)
    | UnbindPrefix(addr: string, removed: seq<string>)  // the matching keys, in the order of the hash map
    | SendRemove(i: nat)                        // an unbind future sends one of its messages
    | HandleUpdate                              // the remote router handles one message

  /** What a prefix unbind matches: everything below the path, with or without its trailing slash. */
  function Pattern(addr: string): string {
    if addr != "" && addr[|addr| - 1] == '/' then addr else addr + "/"
  }

  predicate Matches(addr: string, key: string) { Pattern(addr) <= key }

  ghost predicate ListsMatches(removed: seq<string>, handlers: map<string, Slot>, addr: string) {
    forall k :: k in removed <==> k in handlers && Matches(addr, k)
  }

  function Insert(st: Local, addr: string, slot: Slot): Local {
    st.(handlers := st.handlers[addr := slot], mailbox := st.mailbox + [Bind(addr)], lost := st.lost - {addr})
  }

  function RemoveExact(st: Local, addr: string): Local {
    if addr in st.handlers then
      st.(handlers := st.handlers - {addr}, mailbox := st.mailbox + [Unbind(addr)], lost := st.lost - {addr})
    else st
  }

  function DropKeys(st: Local, removed: seq<string>): Local {
    var gone := set k | k in removed;
    st.(handlers := st.handlers - gone, unsent := st.unsent + removed, lost := st.lost - gone)
  }

  function Send(st: Local, i: nat): Local {
    if i >= |st.unsent| then st
    else
      var k := st.unsent[i];
      st.(mailbox := st.mailbox + [Unbind(k)], unsent := st.unsent[..i] + st.unsent[i + 1..],
          lost := if k in st.handlers then st.lost + {k} else st.lost)
  }

  function HandleFront(st: Local): Local {
    if st.mailbox == [] then st
    else st.(bindings := Played(st.bindings, st.mailbox[..1]), mailbox := st.mailbox[1..])
  }

  ghost function Step(st: Local, e: Event): Local {
    match e
    case BindAt(addr, slot) => Insert(st, addr, slot)
    case TryBind(addr, slot) => if addr in st.handlers then st else Insert(st, addr, slot)
    case UnbindExact(addr) => RemoveExact(st, addr)
    case UnbindPrefix(addr, removed) => if ListsMatches(removed, st.handlers, addr) then DropKeys(st, removed) else st
    case SendRemove(i) => Send(st, i)
    case HandleUpdate => HandleFront(st)
  }

  const EMPTY := Local(map[], [], {}, [], {})

  ghost function Exec(events: seq<Event>): Local {
    if events == [] then EMPTY
    else Step(Exec(events[..|events| - 1]), events[|events| - 1])
  }

  // ----- Agreement -----

  /** The bindings once the present mailbox is drained. */
  function Eventual(st: Local): set<string> { Played(st.bindings, st.mailbox) }

  ghost predicate Tracked(st: Local, k: string) {
    if k in st.handlers then k in Eventual(st) <==> k !in st.lost
    else k !in st.lost && (k in Eventual(st) ==> k in st.unsent)
  }

  ghost predicate Inv(st: Local) { forall k :: Tracked(st, k) }

  lemma {:induction false} PlayedFront(names: set<string>, cmds: seq<Command>)
    requires cmds != []
    ensures Played(Played(names, cmds[..1]), cmds[1..]) == Played(names, cmds)
  {
    if |cmds| > 1 {
      var init := cmds[..|cmds| - 1];
      PlayedFront(names, init);
      assert init[..1] == cmds[..1] && cmds[1..][..|cmds[1..]| - 1] == init[1..];
    } else {
      assert cmds[..1] == cmds && cmds[1..] == [];
    }
  }

  lemma SendKeepsInv(st: Local, i: nat)
    requires Inv(st) && i < |st.unsent|
    ensures Inv(Send(st, i))
  {
    var after := Send(st, i);
    PlayedSnoc(st.bindings, st.mailbox, Unbind(st.unsent[i]));
    assert st.unsent == st.unsent[..i] + [st.unsent[i]] + st.unsent[i + 1..];
    forall k ensures Tracked(after, k) {
      assert Tracked(st, k);
    }
  }

  lemma UpdateKeepsInv(st: Local, addr: string, slot: Slot)
    requires Inv(st)
    ensures Inv(Insert(st, addr, slot)) && Inv(RemoveExact(st, addr))
  {
    PlayedSnoc(st.bindings, st.mailbox, Bind(addr));
    PlayedSnoc(st.bindings, st.mailbox, Unbind(addr));
    forall k ensures Tracked(Insert(st, addr, slot), k) && Tracked(RemoveExact(st, addr), k) {
      assert Tracked(st, k);
    }
  }

  lemma DropKeepsInv(st: Local, removed: seq<string>)
    requires Inv(st)
    ensures Inv(DropKeys(st, removed))
  {
    forall k ensures Tracked(DropKeys(st, removed), k) {
      assert Tracked(st, k);
    }
  }

  lemma HandleKeepsInv(st: Local)
    requires Inv(st) && st.mailbox != []
    ensures Inv(HandleFront(st))
  {
    PlayedFront(st.bindings, st.mailbox);
    forall k ensures Tracked(HandleFront(st), k) {
      assert Tracked(st, k);
    }
  }

  lemma {:induction false} Reachable(events: seq<Event>)
    ensures Inv(Exec(events))
  {
    if events == [] {
    } else {
      var st, e := Exec(events[..|events| - 1]), events[|events| - 1];
      Reachable(events[..|events| - 1]);
      match e
      case BindAt(addr, slot) => UpdateKeepsInv(st, addr, slot);
      case TryBind(addr, slot) => UpdateKeepsInv(st, addr, slot);
      case UnbindExact(addr) => UpdateKeepsInv(st, addr, 0);
      case UnbindPrefix(_, removed) => DropKeepsInv(st, removed);
      case SendRemove(i) => if i < |st.unsent| { SendKeepsInv(st, i); }
      case HandleUpdate => if st.mailbox != [] { HandleKeepsInv(st); }
    }
  }

  /** In every interleaving, draining the mailbox gives the remote router every bound name that is not lost,
      and beyond that only names whose Remove is still unsent. */
  lemma BindingsFollowHandlers(events: seq<Event>)
    ensures var st := Exec(events);
            && st.lost <= st.handlers.Keys
            && st.handlers.Keys - st.lost <= Eventual(st)
            && Eventual(st) <= st.handlers.Keys - st.lost + set k | k in st.unsent
  {
    Reachable(events);
    var st := Exec(events);
    forall k ensures k in st.lost ==> k in st.handlers.Keys {
      assert Tracked(st, k);
    }
    forall k | k in Eventual(st) ensures k in st.handlers.Keys - st.lost || k in st.unsent {
      assert Tracked(st, k);
    }
    forall k | k in st.handlers.Keys - st.lost ensures k in Eventual(st) {
      assert Tracked(st, k);
    }
  }

  /** Once every unbind future is through, the drained bindings are the handler keys less the lost names; so
      they are the handler keys if and only if nothing is lost. */
  lemma BindingsAgreeExactly(events: seq<Event>)
    requires Exec(events).unsent == []
    ensures var st := Exec(events);
            && Eventual(st) == st.handlers.Keys - st.lost
            && (Eventual(st) == st.handlers.Keys <==> st.lost == {})
            && (st.mailbox == [] ==> st.bindings == Eventual(st))
  {
    BindingsFollowHandlers(events);
    var st := Exec(events);
    if st.lost != {} {
      var k :| k in st.lost;
      assert k in st.handlers.Keys && k !in Eventual(st);
    }
  }

  // ----- When a name is lost -----

  /** A late Remove, sent for a name that has been bound again. */
  ghost predicate Clobbers(st: Local, e: Event) {
    e.SendRemove? && e.i < |st.unsent| && st.unsent[e.i] in st.handlers
  }

  lemma NoClobberStep(st: Local, e: Event)
    requires st.lost == {} && !Clobbers(st, e)
    ensures Step(st, e).lost == {}
  {
  }

  /** Only late Removes lose names. */
  lemma {:induction false} NoClobberNoLoss(events: seq<Event>)
    requires forall n :: 0 <= n < |events| ==> !Clobbers(Exec(events[..n]), events[n])
    ensures Exec(events).lost == {}
  {
    if events == [] {
    } else {
      var init := events[..|events| - 1];
      forall n | 0 <= n < |init| ensures !Clobbers(Exec(init[..n]), init[n]) {
        assert init[..n] == events[..n];
      }
      NoClobberNoLoss(init);
      NoClobberStep(Exec(init), events[|init|]);
    }
  }

  /** Every operation waits until the unbind futures before it have run to completion. */
  ghost predicate Prompt(events: seq<Event>) {
    forall n :: 0 <= n < |events| && !events[n].SendRemove? && !events[n].HandleUpdate? ==>
      Exec(events[..n]).unsent == []
  }

  ghost predicate Disjoint(st: Local) { forall k :: k in st.unsent ==> k !in st.handlers }

  lemma PromptStep(st: Local, e: Event)
    requires Disjoint(st) && (e.SendRemove? || e.HandleUpdate? || st.unsent == [])
    ensures Disjoint(Step(st, e))
  {
    var after := Step(st, e);
    if e.UnbindPrefix? {
      forall k | k in after.unsent ensures k !in after.handlers {
        assert k in st.unsent || k in e.removed;
      }
    }
  }

  lemma {:induction false} PromptStaysDisjoint(events: seq<Event>)
    requires Prompt(events)
    ensures Disjoint(Exec(events))
  {
    if events == [] {
    } else {
      var n := |events| - 1;
      PromptPrefix(events, n);
      PromptStaysDisjoint(events[..n]);
      PromptStep(Exec(events[..n]), events[n]);
    }
  }

  lemma PromptPrefix(events: seq<Event>, n: nat)
    requires Prompt(events) && n <= |events|
    ensures Prompt(events[..n])
  {
    forall m | 0 <= m < n && !events[m].SendRemove? && !events[m].HandleUpdate?
      ensures Exec(events[..n][..m]).unsent == []
    {
      assert events[..n][..m] == events[..m];
    }
  }

  /** Futures run promptly: for every sequence of operations, whenever no future is under way, draining the
      mailbox gives the remote router exactly the names that have a local handler. */
  lemma PromptFuturesAgree(events: seq<Event>)
    requires Prompt(events) && Exec(events).unsent == []
    ensures Eventual(Exec(events)) == Exec(events).handlers.Keys
  {
    forall n | 0 <= n < |events| ensures !Clobbers(Exec(events[..n]), events[n]) {
      PromptPrefix(events, n);
      PromptStaysDisjoint(events[..n]);
    }
    NoClobberNoLoss(events);
    BindingsAgreeExactly(events);
  }

  /** The failing family, from any state: bind a name, unbind any path above it, bind the name again, and only
      then let the future send its message; the handler is there and the registration is going away. */
  lemma LateRemoveLosesBinding(st: Local, path: string, key: string, a: Slot, b: Slot, removed: seq<string>, i: nat)
    requires Matches(path, key) && ListsMatches(removed, Insert(st, key, a).handlers, path)
    requires i < |st.unsent| + |removed| && (st.unsent + removed)[i] == key
    ensures var late := Step(Step(Step(Step(st, BindAt(key, a)), UnbindPrefix(path, removed)), BindAt(key, b)), SendRemove(i));
            key in late.handlers && key !in Eventual(late)
  {
    var s3 := Insert(DropKeys(Insert(st, key, a), removed), key, b);
    assert s3.unsent == st.unsent + removed;
    PlayedSnoc(s3.bindings, s3.mailbox, Unbind(key));
  }

  // ----- What one operation does -----

  lemma ExecOne(events: seq<Event>, e: Event)
    ensures Exec(events + [e]) == Step(Exec(events), e)
  {
    assert (events + [e])[..|events|] == events;
  }

  /** A bind, in every run: the address has this handler, also if it had another, and its registration is on the
      way; every other address keeps its handler and its registration. */
  lemma BindStores(events: seq<Event>, addr: string, slot: Slot)
    ensures var before, after := Exec(events), Exec(events + [BindAt(addr, slot)]);
            && after.handlers == before.handlers[addr := slot]
            && Eventual(after) == Eventual(before) + {addr} && after.unsent == before.unsent
    ensures var before, after := Exec(events), Exec(events + [TryBind(addr, slot)]);
            if addr in before.handlers then after == before
            else after.handlers == before.handlers[addr := slot] && Eventual(after) == Eventual(before) + {addr}
  {
    ExecOne(events, BindAt(addr, slot));
    ExecOne(events, TryBind(addr, slot));
    PlayedSnoc(Exec(events).bindings, Exec(events).mailbox, Bind(addr));
  }

  /** An exact unbind, in every run: a bound address loses its handler and its registration, every other address
      keeps both; an unbound address changes nothing. */
  lemma ExactUnbindRemoves(events: seq<Event>, addr: string)
    ensures var before, after := Exec(events), Exec(events + [UnbindExact(addr)]);
            && addr !in after.handlers && after.handlers == before.handlers - {addr}
            && Eventual(after) == (if addr in before.handlers then Eventual(before) - {addr} else Eventual(before))
            && after.unsent == before.unsent
  {
    ExecOne(events, UnbindExact(addr));
    PlayedSnoc(Exec(events).bindings, Exec(events).mailbox, Unbind(addr));
  }

  /** A prefix unbind, in every run: no handler under the path is left, all others stay, their Removes are to be
      sent, and nothing is sent yet. */
  lemma PrefixUnbindRemoves(events: seq<Event>, addr: string, removed: seq<string>)
    requires ListsMatches(removed, Exec(events).handlers, addr)
    ensures var before, after := Exec(events), Exec(events + [UnbindPrefix(addr, removed)]);
            && (forall k :: k in after.handlers <==> k in before.handlers && !Matches(addr, k))
            && (forall k :: k in after.handlers ==> after.handlers[k] == before.handlers[k])
            && after.unsent == before.unsent + removed && after.mailbox == before.mailbox
  {
    ExecOne(events, UnbindPrefix(addr, removed));
  }

  /** A future's progress: one Remove moves from the unsent ones to the end of the mailbox. */
  lemma RemoveIsSent(events: seq<Event>, i: nat)
    requires i < |Exec(events).unsent|
    ensures var before, after := Exec(events), Exec(events + [SendRemove(i)]);
            && after.mailbox == before.mailbox + [Unbind(before.unsent[i])] && after.handlers == before.handlers
            && after.unsent == before.unsent[..i] + before.unsent[i + 1..]
            && Eventual(after) == Eventual(before) - {before.unsent[i]}
  {
    ExecOne(events, SendRemove(i));
    PlayedSnoc(Exec(events).bindings, Exec(events).mailbox, Unbind(Exec(events).unsent[i]));
  }

  function Updates(n: nat): (r: seq<Event>)
    ensures |r| == n
  {
    seq(n, i => HandleUpdate)
  }

  lemma UpdatesSnoc(events: seq<Event>, n: nat)
    ensures events + Updates(n + 1) == events + Updates(n) + [HandleUpdate]
  {
  }

  lemma RestOfRest<T>(s: seq<T>, n: nat)
    requires n < |s|
    ensures s[n..] != [] && s[n..][1..] == s[n + 1..]
  {
  }

  lemma OneUpdate(events: seq<Event>)
    requires Exec(events).mailbox != []
    ensures var before, after := Exec(events), Exec(events + [HandleUpdate]);
            && after.mailbox == before.mailbox[1..] && after.handlers == before.handlers
            && Eventual(after) == Eventual(before)
  {
    ExecOne(events, HandleUpdate);
    PlayedFront(Exec(events).bindings, Exec(events).mailbox);
  }

  /** The remote router works its mailbox off, front first, and ends up with the eventual bindings. */
  lemma {:induction false} MailboxDrains(events: seq<Event>, n: nat)
    requires n <= |Exec(events).mailbox|
    ensures var before, after := Exec(events), Exec(events + Updates(n));
            && after.mailbox == before.mailbox[n..] && after.handlers == before.handlers
            && Eventual(after) == Eventual(before)
            && (n == |before.mailbox| ==> after.mailbox == [] && after.bindings == Eventual(before))
  {
    if n == 0 {
      assert events + Updates(0) == events;
    } else {
      MailboxDrains(events, n - 1);
      UpdatesSnoc(events, n - 1);
      OneUpdate(events + Updates(n - 1));
      RestOfRest(Exec(events).mailbox, n - 1);
    }
  }

  // ----- What a prefix unbind takes -----

  /** Exactly the keys strictly below the path; a trailing slash in the argument makes no difference. */
  lemma UnbindTakesStrictlyBelow(path: string, key: string)
    requires path != "" && path[|path| - 1] != '/'
    ensures Matches(path, key) <==> Covers(path, key) && key != path
    ensures Matches(path + "/", key) <==> Matches(path, key)
  {
    var p := path + "/";
    assert Pattern(path) == p && Pattern(p) == p;
    if Matches(path, key) {
      assert key[|path|] == p[|path|] && path <= key;
    }
  }

  // ----- The local router in place -----

  class LocalRouter {
    const handlers: PrefixLookupBag<Slot>
    var mailbox: seq<Command>

    constructor ()
      ensures handlers.dict == map[] && mailbox == [] && fresh(handlers)
    {
      handlers := new PrefixLookupBag();
      mailbox := [];
    }

    ghost predicate Represents(st: Local)
      reads this, handlers
    {
      handlers.dict == st.handlers && mailbox == st.mailbox
    }

    method BindRaw(ghost st: Local, addr: string, slot: Slot)
      requires Represents(st)
      modifies this, handlers
      ensures Represents(Insert(st, addr, slot))
      ensures handlers.dict == old(handlers.dict)[addr := slot] && mailbox == old(mailbox) + [Bind(addr)]
    {
      var _ := handlers.Insert(addr, slot);
      mailbox := mailbox + [Bind(addr)];
    }

    /** The typed variants append the message id to the path. */
    method BindTyped(ghost st: Local, addr: string, id: string, slot: Slot)
      requires Represents(st)
      modifies this, handlers
      ensures Represents(Insert(st, addr + "/" + id, slot))
      ensures handlers.dict == old(handlers.dict)[addr + "/" + id := slot]
      ensures mailbox == old(mailbox) + [Bind(addr + "/" + id)]
    {
      BindRaw(st, addr + "/" + id, slot);
    }

    method TryBindRaw(ghost st: Local, addr: string, slot: Slot) returns (ok: bool)
      requires Represents(st)
      modifies this, handlers
      ensures ok <==> addr !in old(handlers.dict)
      ensures Represents(if ok then Insert(st, addr, slot) else st)
      ensures handlers.dict == if ok then old(handlers.dict)[addr := slot] else old(handlers.dict)
      ensures mailbox == if ok then old(mailbox) + [Bind(addr)] else old(mailbox)
    {
      if addr in handlers.dict {
        return false;
      }
      BindRaw(st, addr, slot);
      ok := true;
    }

    method UnbindExactly(ghost st: Local, addr: string) returns (removed: bool)
      requires Represents(st)
      modifies this, handlers
      ensures removed <==> addr in old(handlers.dict)
      ensures Represents(RemoveExact(st, addr))
      ensures handlers.dict == old(handlers.dict) - {addr}
      ensures mailbox == old(mailbox) + if removed then [Unbind(addr)] else []
    {
      var prev := handlers.Remove(addr);
      removed := prev.Some?;
      if removed {
        mailbox := mailbox + [Unbind(addr)];
      } else {
        assert handlers.dict == old(handlers.dict);
      }
    }

    /** Collects the matching keys, removes them, and leaves their Remove messages to the returned future. */
    method UnbindBelow(ghost st: Local, addr: string) returns (addrs: seq<string>, success: bool)
      requires Represents(st)
      modifies handlers
      ensures ListsMatches(addrs, old(handlers.dict), addr)
      ensures Represents(DropKeys(st, addrs))
      ensures forall i, j :: 0 <= i < j < |addrs| ==> addrs[i] != addrs[j]
      ensures forall k :: k in addrs <==>
                (k in old(handlers.dict) && if addr != "" && addr[|addr| - 1] == '/' then addr <= k else addr + "/" <= k)
      ensures forall k :: k in handlers.dict <==> k in old(handlers.dict) && k !in addrs
      ensures forall k :: k in handlers.dict ==> handlers.dict[k] == old(handlers.dict)[k]
      ensures success <==> exists k :: k in old(handlers.dict) && Matches(addr, k)
    {
      var pattern := Pattern(addr);
      addrs := [];
      var keys := handlers.dict.Keys;
      while keys != {}
        invariant keys <= handlers.dict.Keys
        invariant forall k :: k in addrs <==> k in handlers.dict.Keys - keys && Matches(addr, k)
        invariant forall i, j :: 0 <= i < j < |addrs| ==> addrs[i] != addrs[j]
        decreases keys
      {
        var k :| k in keys;
        assert k !in addrs;
        if pattern <= k {
          addrs := addrs + [k];
        }
        keys := keys - {k};
      }
      success := addrs != [];
      assert success ==> addrs[0] in addrs;
      for i := 0 to |addrs|
        invariant handlers.dict == old(handlers.dict) - (set k | k in addrs[..i])
      {
        assert addrs[..i + 1] == addrs[..i] + [addrs[i]];
        var _ := handlers.Remove(addrs[i]);
      }
      assert addrs[..|addrs|] == addrs;
    }

    /** The future of a prefix unbind, run to completion, whatever other futures have still to send. */
    method RunUnbind(ghost st: Local, addrs: seq<string>, ghost before: seq<string>, ghost after: seq<string>)
      requires Represents(st) && st.unsent == before + addrs + after
      modifies this`mailbox
      ensures Represents(SendFrom(st, |before|, |addrs|)) && SendFrom(st, |before|, |addrs|).unsent == before + after
      ensures mailbox == old(mailbox) + Removes(addrs)
    {
      ProgressBegins(st, before, addrs, after);
      for i := 0 to |addrs|
        invariant Represents(SendFrom(st, |before|, i)) && Progress(st, before, addrs, after, i)
        invariant mailbox == old(mailbox) + Removes(addrs[..i])
      {
        ProgressSends(st, before, addrs, after, i);
        RemovesSnoc(addrs, i);
        mailbox := mailbox + [Unbind(addrs[i])];
      }
      ProgressEnds(st, before, addrs, after);
      assert addrs[..|addrs|] == addrs;
    }
  }

  function Removes(addrs: seq<string>): (r: seq<Command>)
    ensures |r| == |addrs| && forall i :: 0 <= i < |r| ==> r[i] == Unbind(addrs[i])
  {
    seq(|addrs|, i requires 0 <= i < |addrs| => Unbind(addrs[i]))
  }

  lemma RemovesSnoc(addrs: seq<string>, i: nat)
    requires i < |addrs|
    ensures Removes(addrs[..i + 1]) == Removes(addrs[..i]) + [Unbind(addrs[i])]
  {
  }

  /** After `i` of its messages the future has the rest left, and the others have all of theirs. */
  ghost predicate Progress(st: Local, before: seq<string>, addrs: seq<string>, after: seq<string>, i: nat) {
    i <= |addrs| && SendFrom(st, |before|, i).unsent == before + (addrs[i..] + after)
  }

  lemma ProgressBegins(st: Local, before: seq<string>, addrs: seq<string>, after: seq<string>)
    requires st.unsent == before + addrs + after
    ensures Progress(st, before, addrs, after, 0)
  {
    assert addrs[0..] == addrs;
  }

  lemma ProgressSends(st: Local, before: seq<string>, addrs: seq<string>, after: seq<string>, i: nat)
    requires Progress(st, before, addrs, after, i) && i < |addrs|
    ensures Progress(st, before, addrs, after, i + 1)
    ensures SendFrom(st, |before|, i + 1).mailbox == SendFrom(st, |before|, i).mailbox + [Unbind(addrs[i])]
    ensures SendFrom(st, |before|, i + 1).handlers == SendFrom(st, |before|, i).handlers
  {
    Front(addrs, i, after);
    SendOne(SendFrom(st, |before|, i), before, addrs[i], addrs[i + 1..] + after);
  }

  lemma ProgressEnds(st: Local, before: seq<string>, addrs: seq<string>, after: seq<string>)
    requires Progress(st, before, addrs, after, |addrs|)
    ensures SendFrom(st, |before|, |addrs|).unsent == before + after
  {
    assert addrs[|addrs|..] + after == after;
  }

  lemma Front(addrs: seq<string>, i: nat, after: seq<string>)
    requires i < |addrs|
    ensures addrs[i..] + after == [addrs[i]] + (addrs[i + 1..] + after)
  {
  }

  lemma SendOne(st: Local, before: seq<string>, k: string, rest: seq<string>)
    requires st.unsent == before + ([k] + rest)
    ensures var sent := Send(st, |before|);
            sent.unsent == before + rest && sent.mailbox == st.mailbox + [Unbind(k)] && sent.handlers == st.handlers
  {
  }

  /** `n` messages sent one after the other, from position `at` of those unsent. */
  ghost function SendFrom(st: Local, at: nat, n: nat): Local {
    if n == 0 then st else Send(SendFrom(st, at, n - 1), at)
  }
}

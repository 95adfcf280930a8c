/** The router's shared tables and their lock-protected operations: crates/router/src/router.rs. */
module RouterTables {
  import opened Common
  import opened PrefixLookup

  type ConnId = nat
  type InstanceId = string
  type Table = map<string, ConnId>

  datatype NodeEvent = New(id: string, conn: ConnId) | Lost(id: string, conn: ConnId)

  function Register(t: Table, s: string, c: ConnId): (Table, bool) {
    if s in t then (t, false) else (t[s := c], true)
  }

  /** An entry falls to its owner, and to anybody once its owner is no longer connected. */
  predicate Releases(t: Table, s: string, c: ConnId, live: set<ConnId>) {
    s in t && (t[s] == c || t[s] !in live)
  }

  function Unregister(t: Table, s: string, c: ConnId, live: set<ConnId>): (Table, bool) {
    if Releases(t, s, c, live) then (t - {s}, true) else (t, false)
  }

  /** What draining `services` through `unregister_service` leaves, in whatever order the set is drained. */
  function UnregisterAll(t: Table, services: set<string>, c: ConnId, live: set<ConnId>): Table {
    map s | s in t && !(s in services && Releases(t, s, c, live)) :: t[s]
  }

  function RemoveInstance(m: map<InstanceId, ConnId>, i: InstanceId, c: ConnId): map<InstanceId, ConnId> {
    if i in m && m[i] == c then m - {i} else m
  }

  // ----- Resolution across register and unregister -----

  /** A new endpoint takes over exactly the addresses it covers that had no match as long as it. */
  lemma {:induction false} RegisterResolution(t: Table, s: string, c: ConnId, addr: string)
    requires s !in t
    ensures LookupKey(t[s := c], addr) ==
            if Covers(s, addr) && (LookupKey(t, addr).None? || |LookupKey(t, addr).value| < |s|)
            then Some(s) else LookupKey(t, addr)
    decreases |addr|
  {
    if addr == "" || addr in t {
    } else {
      LookupKeyIsLongest(t, addr);
      CoversParent(s, addr);
      if addr != s {
        RegisterResolution(t, s, c, Parent(addr));
      } else if LookupKey(t, addr).Some? {
        var k := LookupKey(t, addr).value;
        assert k == addr[..|k|] && addr == addr[..|addr|];
      }
    }
  }

  /** Removing an endpoint hands its addresses to the longest endpoint above it and touches no others. */
  lemma {:induction false} UnregisterResolution(t: Table, s: string, addr: string)
    requires s in t
    ensures LookupKey(t - {s}, addr) ==
            if LookupKey(t, addr) == Some(s) && s != "" then LookupKey(t, Parent(s)) else LookupKey(t, addr)
    decreases |addr|
  {
    if addr == "" {
    } else if addr == s {
      WithoutLonger(t, s, Parent(s));
    } else if addr !in t {
      UnregisterResolution(t, s, Parent(addr));
    }
  }

  /** A key longer than the address plays no part in the walk. */
  lemma {:induction false} WithoutLonger(t: Table, s: string, addr: string)
    requires |addr| < |s|
    ensures LookupKey(t - {s}, addr) == LookupKey(t, addr)
    decreases |addr|
  {
    if addr == "" || addr in t {
    } else {
      WithoutLonger(t, s, Parent(addr));
    }
  }

  /** Register then unregister by the same owner is invisible to every address; refusals always are. */
  lemma RegisterRoundTrip(t: Table, s: string, c: ConnId, live: set<ConnId>, addr: string)
    ensures var (t1, ok) := Register(t, s, c);
            && (!ok ==> Lookup(t1, addr) == Lookup(t, addr))
            && (ok ==> Unregister(t1, s, c, live).1)
            && (ok ==> Lookup(Unregister(t1, s, c, live).0, addr) == Lookup(t, addr))
    ensures var (t1, ok) := Unregister(t, s, c, live); !ok ==> Lookup(t1, addr) == Lookup(t, addr)
  {
    if s !in t {
      assert t[s := c] - {s} == t;
    }
  }

  /** A name is released to its owner, and to anybody once its owner is no longer connected; to nobody else. */
  lemma UnregisterExactly(t: Table, s: string, c: ConnId, live: set<ConnId>)
    ensures var (after, ok) := Unregister(t, s, c, live);
            && (ok <==> s in t && (t[s] == c || t[s] !in live))
            && after == if ok then t - {s} else t
    ensures s in t && t[s] !in live ==> Unregister(t, s, c, live) == (t - {s}, true)
    ensures s in t && t[s] in live && t[s] != c ==> Unregister(t, s, c, live) == (t, false)
  {
  }

  // ----- The tables in place -----

  class Router {
    const endpoints: PrefixLookupBag<ConnId>
    var instances: map<InstanceId, ConnId>
    var drops: set<(ConnId, ConnId)>    // DropConnection messages sent: (newcomer, addressee)
    var log: seq<NodeEvent>

    constructor ()
      ensures endpoints.dict == map[] && instances == map[] && drops == {} && log == []
      ensures fresh(endpoints)
    {
      endpoints := new PrefixLookupBag();
      instances := map[];
      drops := {};
      log := [];
    }

    method ResolveNode(address: string) returns (r: Option<ConnId>)
      ensures r == Lookup(endpoints.dict, address)
      ensures r.Some? ==> exists k :: IsLongestMatch(endpoints.dict, address, k) && endpoints.dict[k] == r.value
      ensures r.None? ==> forall k :: k in endpoints.dict ==> !Covers(k, address)
    {
      r := endpoints.Get(address);
    }

    /** Insert first, put the previous owner back on a conflict. */
    method RegisterService(s: string, c: ConnId) returns (ok: bool)
      modifies endpoints
      ensures (endpoints.dict, ok) == Register(old(endpoints.dict), s, c)
      ensures ok <==> s !in old(endpoints.dict)
      ensures endpoints.dict == if ok then old(endpoints.dict)[s := c] else old(endpoints.dict)
    {
      var prev := endpoints.Insert(s, c);
      if prev.Some? {
        var _ := endpoints.Insert(s, prev.value);
        assert endpoints.dict == old(endpoints.dict);
        ok := false;
      } else {
        ok := true;
      }
    }

    /** Remove first, put a connected foreign owner back. */
    method UnregisterService(s: string, c: ConnId, live: set<ConnId>) returns (ok: bool)
      modifies endpoints
      ensures (endpoints.dict, ok) == Unregister(old(endpoints.dict), s, c, live)
      ensures ok <==> s in old(endpoints.dict) && (old(endpoints.dict)[s] == c || old(endpoints.dict)[s] !in live)
      ensures endpoints.dict == if ok then old(endpoints.dict) - {s} else old(endpoints.dict)
    {
      var prev := endpoints.Remove(s);
      if prev.Some? {
        if prev.value != c && prev.value in live {
          var _ := endpoints.Insert(s, prev.value);
          assert endpoints.dict == old(endpoints.dict);
        } else {
          return true;
        }
      }
      assert endpoints.dict == old(endpoints.dict);
      ok := false;
    }

    /** The connection that held the instance id, if any, is sent a DropConnection and returned. */
    method NewConnection(i: InstanceId, c: ConnId) returns (replaced: Option<ConnId>)
      modifies this`instances, this`drops
      ensures drops == old(drops) + if i in old(instances) then {(c, old(instances)[i])} else {}
      ensures instances == old(instances)[i := c]
      ensures replaced == if i in old(instances) then Some(old(instances)[i]) else None
    {
      replaced := if i in instances then Some(instances[i]) else None;
      instances := instances[i := c];
      if replaced.Some? {
        drops := drops + {(c, replaced.value)};
      }
    }

    method RemoveConnection(i: InstanceId, c: ConnId)
      modifies this`instances
      ensures instances == RemoveInstance(old(instances), i, c)
      ensures instances ==
              if i in old(instances) && old(instances)[i] == c then old(instances) - {i} else old(instances)
    {
      if i in instances {
        var prev := instances[i];
        instances := instances - {i};
        if prev != c {
          instances := instances[i := prev];
        }
      }
    }

    method SendNodeEvent(e: NodeEvent)
      modifies this`log
      ensures log == old(log) + [e]
    {
      log := log + [e];
    }
  }
}

/** Longest-path-prefix lookup: crates/util/src/lib.rs. */
module PrefixLookup {
  import opened Common

  /** `str::rfind('/')`. */
  function LastSlash(s: string): (r: Option<nat>)
    ensures r.None? ==> '/' !in s
    ensures r.Some? ==> r.value < |s| && s[r.value] == '/'
    ensures r.Some? ==> forall j :: r.value < j < |s| ==> s[j] != '/'
  {
    if s == "" then None
    else if s[|s| - 1] == '/' then Some(|s| - 1)
    else
      assert s == s[..|s| - 1] + [s[|s| - 1]];
      LastSlash(s[..|s| - 1])
  }

  /** What the prefix iterator keeps after yielding `s`. */
  function Parent(s: string): (r: string)
    requires s != ""
    ensures |r| < |s|
  {
    match LastSlash(s)
    case None => ""
    case Some(p) => s[..p]
  }

  /** The path relation the README promises: `k` itself, or anything below `k/`. */
  predicate Covers(k: string, addr: string) {
    k != "" && k <= addr && (|k| == |addr| || addr[|k|] == '/')
  }

  ghost predicate IsLongestMatch<T>(d: map<string, T>, addr: string, k: string) {
    && k in d && Covers(k, addr)
    && forall o :: o in d && Covers(o, addr) ==> |o| <= |k|
  }

  /** One step of the iteration visits exactly one covering path. */
  lemma CoversParent(k: string, addr: string)
    requires addr != ""
    ensures Covers(k, addr) <==> k == addr || Covers(k, Parent(addr))
  {
    var p := Parent(addr);
    assert p <= addr;
    if Covers(k, addr) && k != addr {
      assert addr[|k|] == '/';
      assert k <= p;
    }
  }

  /** The stored key selected by walking the prefixes from the longest. */
  function LookupKey<T>(d: map<string, T>, addr: string): Option<string>
    decreases |addr|
  {
    if addr == "" then None
    else if addr in d then Some(addr)
    else LookupKey(d, Parent(addr))
  }

  function Lookup<T>(d: map<string, T>, addr: string): Option<T> {
    match LookupKey(d, addr)
    case None => None
    case Some(k) => if k in d then Some(d[k]) else None
  }

  /** The walk finds the longest stored covering key, or there is none. */
  lemma {:induction false} LookupKeyIsLongest<T>(d: map<string, T>, addr: string)
    ensures LookupKey(d, addr).None? ==> forall k :: k in d ==> !Covers(k, addr)
    ensures LookupKey(d, addr).Some? ==> IsLongestMatch(d, addr, LookupKey(d, addr).value)
    decreases |addr|
  {
    if addr == "" || addr in d {
    } else {
      LookupKeyIsLongest(d, Parent(addr));
      forall k | k in d
        ensures Covers(k, addr) <==> Covers(k, Parent(addr))
      {
        CoversParent(k, addr);
      }
    }
  }

  /** Covering keys of equal length coincide, so the longest match determines the walk's answer. */
  lemma LongestMatchUnique<T>(d: map<string, T>, addr: string, k: string)
    requires IsLongestMatch(d, addr, k)
    ensures LookupKey(d, addr) == Some(k)
  {
    LookupKeyIsLongest(d, addr);
    var found := LookupKey(d, addr).value;
    assert found == addr[..|found|] && k == addr[..|k|];
  }

  class RevPrefixes {
    var rest: string

    constructor (s: string)
      ensures rest == s
    {
      rest := s;
    }

    method Next() returns (r: Option<string>)
      modifies this
      ensures old(rest) == "" ==> r == None && rest == ""
      ensures old(rest) != "" ==> r == Some(old(rest)) && |rest| < |old(rest)|
      ensures old(rest) != "" ==> rest == Parent(old(rest))
      ensures old(rest) != "" ==> forall k :: Covers(k, old(rest)) <==> k == old(rest) || Covers(k, rest)
    {
      var cv := rest;
      if cv == "" {
        return None;
      }
      var sep := LastSlash(cv);
      match sep {
        case Some(pos) => rest := cv[..pos];
        case None => rest := "";
      }
      forall k ensures Covers(k, cv) <==> k == cv || Covers(k, rest) {
        CoversParent(k, cv);
      }
      return Some(cv);
    }
  }

  class PrefixLookupBag<T(!new)> {
    var dict: map<string, T>

    constructor ()
      ensures dict == map[]
    {
      dict := map[];
    }

    /** `RevPrefixes(key).find(|k| dict.contains_key(k))`. */
    method FindKey(key: string) returns (r: Option<string>)
      ensures r == LookupKey(dict, key)
      ensures r.None? ==> forall k :: k in dict ==> !Covers(k, key)
      ensures r.Some? ==> IsLongestMatch(dict, key, r.value)
    {
      LookupKeyIsLongest(dict, key);
      var it := new RevPrefixes(key);
      var c := it.Next();
      while c.Some? && c.value !in dict
        invariant fresh(it)
        invariant c.None? ==> LookupKey(dict, key).None?
        invariant c.Some? ==> c.value != "" && it.rest == Parent(c.value)
        invariant c.Some? ==> LookupKey(dict, c.value) == LookupKey(dict, key)
        decreases |it.rest|, c.Some?
      {
        c := it.Next();
      }
      r := c;
    }

    method Get(key: string) returns (r: Option<T>)
      ensures r == Lookup(dict, key)
      ensures r.None? ==> forall k :: k in dict ==> !Covers(k, key)
      ensures r.Some? ==> exists k :: IsLongestMatch(dict, key, k) && dict[k] == r.value
    {
      var k := FindKey(key);
      if k.None? {
        return None;
      }
      r := Some(dict[k.value]);
    }

    /** The mutable view: the slot `get` reads is the one replaced, every other slot stays. */
    method GetMut(key: string, f: T -> T) returns (found: bool)
      modifies this
      ensures found == old(Lookup(dict, key)).Some?
      ensures !found ==> dict == old(dict)
      ensures found ==> exists k :: old(IsLongestMatch(dict, key, k)) && dict == old(dict)[k := f(old(dict[k]))]
    {
      var k := FindKey(key);
      if k.None? {
        return false;
      }
      assert old(IsLongestMatch(dict, key, k.value));
      dict := dict[k.value := f(dict[k.value])];
      found := true;
    }

    /** The key under which `entry` opens its slot. */
    method Entry(key: string) returns (slot: string)
      ensures if exists k :: k in dict && Covers(k, key) then IsLongestMatch(dict, key, slot) else slot == key
    {
      var k := FindKey(key);
      slot := if k.Some? then k.value else key;
    }

    method Insert(key: string, v: T) returns (prev: Option<T>)
      modifies this
      ensures dict == old(dict)[key := v]
      ensures prev == if key in old(dict) then Some(old(dict)[key]) else None
    {
      prev := if key in dict then Some(dict[key]) else None;
      dict := dict[key := v];
    }

    method Remove(key: string) returns (prev: Option<T>)
      modifies this
      ensures dict == old(dict) - {key}
      ensures prev == if key in old(dict) then Some(old(dict)[key]) else None
    {
      prev := if key in dict then Some(dict[key]) else None;
      dict := dict - {key};
    }
  }
}

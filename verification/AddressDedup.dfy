/** main's loop over the address list: one socket for each distinct address, in the order of first
    appearance, found through the string-keyed hash map. */
module AddressDedup {
  import opened ChainedMaps
  import opened Optional
  import StringHash

  const HASH_MAP_SZ := 7919

  /** A list entry with what inet_pton and then inet_ntop make of its text, and its family. T is string. */
  datatype Listed<T> = Listed(raw: T, ip: T, v4: bool)

  /** A canonical text reads back as itself, and an address has one family. */
  ghost predicate Canonical<T>(list: seq<Listed<T>>) {
    && (forall i, j :: 0 <= i < |list| && 0 <= j < |list| && list[i].raw == list[j].ip ==> list[i].ip == list[j].ip)
    && forall i, j :: 0 <= i < |list| && 0 <= j < |list| && list[i].ip == list[j].ip ==> list[i].v4 == list[j].v4
  }

  // ---- the specification ----

  /** The addresses among the first n entries. */
  ghost function Known<T>(list: seq<Listed<T>>, n: nat): set<T>
    requires n <= |list|
  {
    if n == 0 then {} else Known(list, n - 1) + {list[n - 1].ip}
  }

  /** The addresses of the first n entries, each where it appears first. */
  ghost function Distinct<T>(list: seq<Listed<T>>, n: nat): seq<T>
    requires n <= |list|
  {
    if n == 0 then []
    else if list[n - 1].ip in Known(list, n - 1) then Distinct(list, n - 1)
    else Distinct(list, n - 1) + [list[n - 1].ip]
  }

  lemma {:induction false} KnownIsComplete<T>(list: seq<Listed<T>>, n: nat, ip: T)
    requires n <= |list|
    ensures ip in Known(list, n) <==> exists i :: 0 <= i < n && list[i].ip == ip
  {
    if n > 0 { KnownIsComplete(list, n - 1, ip); }
  }

  /** Nothing missing, nothing else, nothing twice. */
  lemma {:induction false} DistinctIsExact<T>(list: seq<Listed<T>>, n: nat)
    requires n <= |list|
    ensures var d := Distinct(list, n);
            && (forall ip :: ip in d <==> ip in Known(list, n))
            && forall i, j :: 0 <= i < j < |d| ==> d[i] != d[j]
  {
    if n > 0 { DistinctIsExact(list, n - 1); }
  }

  /** In the order of first appearance: more entries only append. */
  lemma {:induction false} DistinctInOrder<T>(list: seq<Listed<T>>, n: nat, m: nat)
    requires m <= n <= |list|
    ensures Distinct(list, m) <= Distinct(list, n)
  {
    if m < n { DistinctInOrder(list, n - 1, m); }
  }

  /** Which of these addresses are IPv6. */
  ghost function Families<T>(list: seq<Listed<T>>, n: nat): (v6: seq<bool>)
    requires n <= |list|
    ensures |v6| == |Distinct(list, n)|
  {
    if n == 0 then []
    else if list[n - 1].ip in Known(list, n - 1) then Families(list, n - 1)
    else Families(list, n - 1) + [!list[n - 1].v4]
  }

  /** Each address keeps the family that the list gives it. */
  lemma {:induction false} FamiliesAreListed<T>(list: seq<Listed<T>>, n: nat, k: nat, i: nat)
    requires Canonical(list) && n <= |list| && k < |Distinct(list, n)| && i < |list|
    requires list[i].ip == Distinct(list, n)[k]
    ensures Families(list, n)[k] == !list[i].v4
  {
    if n > 0 {
      if k < |Distinct(list, n - 1)| {
        FamiliesAreListed(list, n - 1, k, i);
      } else {
        assert list[n - 1].ip == list[i].ip;
      }
    }
  }

  /** The distinct IPv4 addresses among the first n entries. */
  ghost function CountV4<T>(list: seq<Listed<T>>, n: nat): nat
    requires n <= |list|
  {
    if n == 0 then 0
    else CountV4(list, n - 1) + if list[n - 1].v4 && list[n - 1].ip !in Known(list, n - 1) then 1 else 0
  }

  lemma KnownAgain<T>(list: seq<Listed<T>>, i: nat)
    requires i < |list|
    ensures list[i].ip in Known(list, i) ==> Known(list, i + 1) == Known(list, i)
  {
  }

  /** A raw text that is found in the map is the canonical text of an earlier entry. */
  lemma FoundIsRepeated<T>(list: seq<Listed<T>>, n: nat)
    requires n < |list| && Canonical(list) && list[n].raw in Known(list, n)
    ensures list[n].ip in Known(list, n)
  {
    KnownIsComplete(list, n, list[n].raw);
    KnownIsComplete(list, n, list[n].ip);
  }

  // ---- the loop ----

  class Proto<T> {
    const addr: T
    const v4: bool

    constructor (addr: T, v4: bool)
      ensures this.addr == addr && this.v4 == v4
    {
      this.addr, this.v4 := addr, v4;
    }
  }

  /** main's globals, after the first n entries. */
  class Collector<T(==, !new)> {
    const list: seq<Listed<T>>
    const sockets: array<Proto?<T>>
    const ipProtoMap: ChainedMap<T, Proto<T>>
    var uniqueCount: nat
    var ipv4Count: nat
    var ipv6Count: nat

    /** The map knows exactly the distinct addresses, and the first slots hold its sockets in order. */
    ghost predicate Holds(addrs: seq<T>, v6: seq<bool>, known: set<T>)
      reads this, sockets, ipProtoMap
    {
      && uniqueCount == |addrs| == |v6| <= sockets.Length
      && ipProtoMap.contents.Keys == known
      && forall j :: 0 <= j < |addrs| ==>
           addrs[j] in ipProtoMap.contents && sockets[j] == ipProtoMap.contents[addrs[j]]
           && sockets[j].addr == addrs[j] && sockets[j].v4 == !v6[j]
    }

    ghost predicate Separate()
      reads this, ipProtoMap, ipProtoMap.repr
    {
      ipProtoMap.Valid() && sockets !in ipProtoMap.repr && this !in ipProtoMap.repr
    }

    constructor (list: seq<Listed<T>>, hash: T -> int)
      requires forall k :: 0 <= hash(k) < HASH_MAP_SZ
      ensures Separate() && Holds([], [], {}) && ipv4Count == ipv6Count == 0
      ensures this.list == list && sockets.Length == |list|
      ensures fresh(sockets) && fresh(ipProtoMap.repr)
    {
      this.list := list;
      sockets := new Proto?<T>[|list|](_ => null);
      ipProtoMap := new ChainedMap(HASH_MAP_SZ, hash);
      uniqueCount, ipv4Count, ipv6Count := 0, 0, 0;
    }

    /** The stored socket is kept only if its canonical text is new. */
    method Keep(proto: Proto<T>, ghost addrs: seq<T>, ghost v6: seq<bool>, ghost known: set<T>)
      requires Separate() && Holds(addrs, v6, known) && uniqueCount < sockets.Length && sockets[uniqueCount] == proto
      modifies this, ipProtoMap.repr
      ensures Separate() && fresh(ipProtoMap.repr - old(ipProtoMap.repr))
      ensures if proto.addr in known then Holds(addrs, v6, known)
              else Holds(addrs + [proto.addr], v6 + [!proto.v4], known + {proto.addr})
      ensures ipv4Count == old(ipv4Count) + if proto.v4 && proto.addr !in known then 1 else 0
      ensures ipv6Count == old(ipv6Count) + if !proto.v4 && proto.addr !in known then 1 else 0
    {
      var added := ipProtoMap.Insert(proto.addr, proto);
      if added {
        if proto.v4 { ipv4Count := ipv4Count + 1; } else { ipv6Count := ipv6Count + 1; }
        uniqueCount := uniqueCount + 1;
      }
    }

    /** When the raw text is not found, the slot after the last socket is filled in any case. */
    method AddEntry(entry: Listed<T>, ghost addrs: seq<T>, ghost v6: seq<bool>,
                    ghost known: set<T>)
      requires Separate() && Holds(addrs, v6, known) && uniqueCount < sockets.Length
      requires entry.raw in known ==> entry.ip in known
      modifies this, sockets, ipProtoMap.repr
      ensures Separate() && fresh(ipProtoMap.repr - old(ipProtoMap.repr))
      ensures if entry.ip in known then Holds(addrs, v6, known)
              else Holds(addrs + [entry.ip], v6 + [!entry.v4], known + {entry.ip})
      ensures ipv4Count == old(ipv4Count) + if entry.v4 && entry.ip !in known then 1 else 0
      ensures ipv6Count == old(ipv6Count) + if !entry.v4 && entry.ip !in known then 1 else 0
    {
      var found := ipProtoMap.Find(entry.raw);
      if found == None {
        var proto := new Proto(entry.ip, entry.v4);
        sockets[uniqueCount] := proto;
        Keep(proto, addrs, v6, known);
      }
    }

    /** The state of the loop before entry i. */
    ghost predicate Collected(i: nat)
      requires i <= |list|
      reads this, sockets, ipProtoMap
    {
      && Holds(Distinct(list, i), Families(list, i), Known(list, i))
      && ipv4Count == CountV4(list, i) && ipv4Count + ipv6Count == uniqueCount <= i
    }

    method AddNext(i: nat)
      requires i < |list| == sockets.Length && Separate() && Collected(i) && Canonical(list)
      modifies this, sockets, ipProtoMap.repr
      ensures Separate() && fresh(ipProtoMap.repr - old(ipProtoMap.repr)) && Collected(i + 1)
    {
      if list[i].raw in Known(list, i) { FoundIsRepeated(list, i); }
      KnownAgain(list, i);
      AddEntry(list[i], Distinct(list, i), Families(list, i), Known(list, i));
    }

    method AddAll()
      requires Separate() && Holds([], [], {}) && ipv4Count == ipv6Count == 0
      requires Canonical(list) && |list| == sockets.Length
      modifies this, sockets, ipProtoMap.repr
      ensures Separate() && Holds(Distinct(list, |list|), Families(list, |list|), Known(list, |list|))
      ensures ipv4Count == CountV4(list, |list|) && ipv4Count + ipv6Count == uniqueCount
    {
      for i := 0 to |list|
        invariant Separate() && fresh(ipProtoMap.repr - old(ipProtoMap.repr)) && Collected(i)
      {
        AddNext(i);
      }
    }
  }

  method Dedup(list: seq<Listed<string>>) returns (c: Collector<string>)
    requires Canonical(list)
    ensures c.Holds(Distinct(list, |list|), Families(list, |list|), Known(list, |list|)) && c.sockets.Length == |list|
    ensures c.ipv4Count == CountV4(list, |list|) && c.ipv4Count + c.ipv6Count == c.uniqueCount
  {
    c := new Collector(list, k => StringHash.Exact(k) % HASH_MAP_SZ);
    c.AddAll();
  }
}

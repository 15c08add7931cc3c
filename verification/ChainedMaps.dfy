/** The chained hash map of the shell (int keys) and of the RTT scheduler (string keys): chains of nodes on
    the heap, refined to a finite map. */
module ChainedMaps {
  import opened Optional

  // ---- entries ----

  datatype Entry<+K, +V> = Entry(key: K, data: V)

  /** The first entry with the key wins. */
  function Lookup<K(==), V>(es: seq<Entry<K, V>>, k: K): Option<V> {
    if es == [] then None else if es[0].key == k then Some(es[0].data) else Lookup(es[1..], k)
  }

  function Without<K(==), V>(es: seq<Entry<K, V>>, k: K): seq<Entry<K, V>> {
    if es == [] then [] else if es[0].key == k then es[1..] else [es[0]] + Without(es[1..], k)
  }

  ghost predicate DistinctKeys<K, V>(es: seq<Entry<K, V>>) {
    forall i, j :: 0 <= i < j < |es| ==> es[i].key != es[j].key
  }

  lemma {:induction false} LookupFinds<K, V>(es: seq<Entry<K, V>>, k: K)
    ensures Lookup(es, k) == None <==> forall i :: 0 <= i < |es| ==> es[i].key != k
    ensures Lookup(es, k).Some? ==> Entry(k, Lookup(es, k).value) in es
  {
    if es != [] && es[0].key != k {
      LookupFinds(es[1..], k);
      assert forall i :: 0 < i < |es| ==> es[i] == es[1..][i - 1];
    }
  }

  lemma {:induction false} LookupIsUnique<K, V>(es: seq<Entry<K, V>>, e: Entry<K, V>)
    requires DistinctKeys(es) && e in es
    ensures Lookup(es, e.key) == Some(e.data)
  {
    if es[0] != e {
      assert e in es[1..];
      LookupIsUnique(es[1..], e);
    }
  }

  lemma TailDistinct<K, V>(es: seq<Entry<K, V>>)
    requires DistinctKeys(es) && es != []
    ensures DistinctKeys(es[1..]) && forall e :: e in es[1..] ==> e.key != es[0].key
  {
  }

  lemma ConsDistinct<K, V>(e: Entry<K, V>, es: seq<Entry<K, V>>)
    requires DistinctKeys(es) && forall x :: x in es ==> x.key != e.key
    ensures DistinctKeys([e] + es)
  {
  }

  lemma {:induction false} WithoutMembers<K, V>(es: seq<Entry<K, V>>, k: K, e: Entry<K, V>)
    requires DistinctKeys(es)
    ensures e in Without(es, k) <==> e in es && e.key != k
  {
    if es != [] {
      TailDistinct(es);
      WithoutMembers(es[1..], k, e);
      assert e in es <==> e == es[0] || e in es[1..];
    }
  }

  lemma {:induction false} WithoutDistinct<K, V>(es: seq<Entry<K, V>>, k: K)
    requires DistinctKeys(es)
    ensures DistinctKeys(Without(es, k))
  {
    if es != [] && es[0].key != k {
      TailDistinct(es);
      WithoutDistinct(es[1..], k);
      forall e | e in Without(es[1..], k) ensures e.key != es[0].key { WithoutMembers(es[1..], k, e); }
      ConsDistinct(es[0], Without(es[1..], k));
    }
  }

  lemma WithoutDrops<K, V>(es: seq<Entry<K, V>>, k: K)
    requires DistinctKeys(es)
    ensures Lookup(Without(es, k), k) == None
  {
    var r := Without(es, k);
    forall i | 0 <= i < |r| ensures r[i].key != k { WithoutMembers(es, k, r[i]); }
    LookupFinds(r, k);
  }

  lemma {:induction false} WithoutKeeps<K, V>(es: seq<Entry<K, V>>, k: K, other: K)
    requires other != k
    ensures Lookup(Without(es, k), other) == Lookup(es, other)
  {
    if es != [] && es[0].key != k {
      WithoutKeeps(es[1..], k, other);
    }
  }

  // ---- chains ----

  /** `home` is the bucket or the copied list a node hangs in: chains never share nodes. */
  class MapNode<K(==), V> {
    const key: K
    const data: V
    var next: MapNode?<K, V>
    ghost const home: object

    constructor (key: K, data: V, next: MapNode?<K, V>, ghost home: object)
      ensures this.key == key && this.data == data && this.next == next && this.home == home
    {
      this.key, this.data, this.next, this.home := key, data, next, home;
    }
  }

  ghost function NodeAt<K, V>(chain: seq<MapNode<K, V>>, i: nat): MapNode?<K, V> {
    if i < |chain| then chain[i] else null
  }

  ghost predicate Holds<K, V>(chain: seq<MapNode<K, V>>, es: seq<Entry<K, V>>) {
    && |chain| == |es|
    && forall i :: 0 <= i < |chain| ==> chain[i].key == es[i].key && chain[i].data == es[i].data
  }

  ghost predicate Linked<K, V>(first: MapNode?<K, V>, chain: seq<MapNode<K, V>>)
    reads chain
  {
    && first == NodeAt(chain, 0)
    && (chain != [] ==> chain[|chain| - 1].next == null)
    && (forall i, j :: 0 <= i < |chain| && 0 <= j < |chain| && j == i + 1 ==> chain[i].next == chain[j])
    && forall i, j :: 0 <= i < j < |chain| ==> chain[i] != chain[j]
  }

  lemma {:induction false} WithoutAt<K, V>(es: seq<Entry<K, V>>, i: nat, k: K)
    requires i < |es| && es[i].key == k && forall j :: 0 <= j < i ==> es[j].key != k
    ensures Without(es, k) == es[..i] + es[i + 1..]
    ensures Lookup(es, k) == Some(es[i].data)
  {
    if i > 0 {
      WithoutAt(es[1..], i - 1, k);
      assert es[..i] + es[i + 1..] == [es[0]] + (es[1..][..i - 1] + es[1..][i..]);
    } else {
      assert es[..0] + es[1..] == es[1..];
    }
  }

  /** capacity counts insertions: a deletion leaves it alone, so it only bounds the chain. */
  class Bucket<K(==), V> {
    var head: MapNode?<K, V>
    var capacity: int
    ghost var chain: seq<MapNode<K, V>>
    ghost var entries: seq<Entry<K, V>>
    ghost var nodes: set<MapNode<K, V>>

    ghost predicate Valid()
      reads this, nodes
    {
      && |chain| <= capacity
      && (forall i :: 0 <= i < |chain| ==> chain[i] in nodes)
      && (forall n :: n in nodes ==> n.home == this)
      && Linked(head, chain)
      && Holds(chain, entries)
    }

    constructor ()
      ensures Valid() && entries == [] && nodes == {}
    {
      head, capacity, chain, entries, nodes := null, 0, [], [], {};
    }

    method Find(k: K) returns (data: Option<V>)
      requires Valid()
      ensures data == Lookup(entries, k)
    {
      if capacity == 0 { return None; }
      var temp := head;
      ghost var i := 0;
      while temp != null
        invariant i <= |chain| && temp == NodeAt(chain, i)
        invariant Lookup(entries[i..], k) == Lookup(entries, k)
        decreases |chain| - i
      {
        if temp.key == k { return Some(temp.data); }
        assert entries[i..][1..] == entries[i + 1..];
        temp, i := temp.next, i + 1;
      }
      data := None;
    }

    method Insert(k: K, data: V)
      requires Valid()
      modifies this
      ensures Valid() && capacity == old(capacity) + 1
      ensures fresh(nodes - old(nodes)) && old(nodes) <= nodes
      ensures entries == [Entry(k, data)] + old(entries)
    {
      var node := new MapNode(k, data, head, this);
      head := node;
      capacity := capacity + 1;
      chain, entries, nodes := [node] + chain, [Entry(k, data)] + entries, nodes + {node};
    }

    /** The node with the key, and the one before it. */
    method Locate(k: K) returns (curr: MapNode?<K, V>, prev: MapNode?<K, V>, ghost i: nat)
      requires Valid()
      ensures i <= |chain| && curr == NodeAt(chain, i) && prev == (if i == 0 then null else chain[i - 1])
      ensures forall j :: 0 <= j < i ==> entries[j].key != k
      ensures curr != null ==> curr.key == k
    {
      curr, prev, i := head, null, 0;
      while curr != null && curr.key != k
        invariant i <= |chain| && curr == NodeAt(chain, i) && prev == (if i == 0 then null else chain[i - 1])
        invariant forall j :: 0 <= j < i ==> entries[j].key != k
        decreases |chain| - i
      {
        prev, curr, i := curr, curr.next, i + 1;
      }
    }

    method UnhookHead()
      requires Valid() && chain != []
      modifies this`head, this`chain, this`entries
      ensures Valid() && chain == old(chain)[1..] && entries == old(entries)[1..]
    {
      head := head.next;
      chain, entries := chain[1..], entries[1..];
    }

    method UnhookAfter(prev: MapNode<K, V>, curr: MapNode<K, V>, ghost i: nat)
      requires Valid() && 0 < i < |chain| && prev == chain[i - 1] && curr == chain[i]
      modifies prev`next, this`chain, this`entries
      ensures Valid() && chain == old(chain)[..i] + old(chain)[i + 1..]
      ensures entries == old(entries)[..i] + old(entries)[i + 1..]
    {
      prev.next := curr.next;
      chain, entries := chain[..i] + chain[i + 1..], entries[..i] + entries[i + 1..];
    }

    /** Unhooks the first node with the key; capacity stays. */
    method Delete(k: K) returns (data: Option<V>)
      requires Valid()
      modifies this`head, this`chain, this`entries, nodes
      ensures Valid()
      ensures data == Lookup(old(entries), k)
      ensures entries == Without(old(entries), k)
    {
      var curr, prev, i := Locate(k);
      if curr == null {
        AbsentStays(entries, k);
        return None;
      }
      WithoutAt(entries, i, k);
      if prev == null {
        UnhookHead();
      } else {
        UnhookAfter(prev, curr, i);
      }
      data := Some(curr.data);
    }
  }

  lemma {:induction false} AbsentStays<K, V>(es: seq<Entry<K, V>>, k: K)
    requires forall i :: 0 <= i < |es| ==> es[i].key != k
    ensures Lookup(es, k) == None && Without(es, k) == es
  {
    if es != [] { AbsentStays(es[1..], k); }
  }

  // ---- the table and the map it stands for ----

  function MapGet<K, V>(m: map<K, V>, k: K): Option<V> { if k in m then Some(m[k]) else None }

  ghost predicate Placed<K(!new), V>(table: seq<seq<Entry<K, V>>>, hash: K -> int) {
    && (forall i :: 0 <= i < |table| ==> DistinctKeys(table[i]))
    && forall i, e :: 0 <= i < |table| && e in table[i] ==> hash(e.key) == i
  }

  ghost predicate Refines<K(!new), V>(table: seq<seq<Entry<K, V>>>, hash: K -> int, m: map<K, V>) {
    && Placed(table, hash)
    && forall k :: 0 <= hash(k) < |table| && Lookup(table[hash(k)], k) == MapGet(m, k)
  }

  lemma EmptyRefines<K(!new), V>(size: nat, hash: K -> int)
    requires forall k :: 0 <= hash(k) < size
    ensures Refines<K, V>(seq(size, _ => []), hash, map[])
  {
  }

  lemma InsertRefines<K(!new), V>(table: seq<seq<Entry<K, V>>>, hash: K -> int, m: map<K, V>, k: K, d: V)
    requires Refines(table, hash, m) && k !in m
    ensures 0 <= hash(k) < |table|
    ensures Refines(table[hash(k) := [Entry(k, d)] + table[hash(k)]], hash, m[k := d])
  {
    var h := hash(k);
    var es := table[h];
    var r := table[h := [Entry(k, d)] + es];
    assert Lookup(es, k) == None;
    LookupFinds(es, k);
    ConsDistinct(Entry(k, d), es);
    assert Placed(r, hash) by {
      forall i: int, e: Entry<K, V> | 0 <= i < |r| && e in r[i] ensures hash(e.key) == i {
        if i == h && e != Entry(k, d) { assert e in es; }
      }
    }
    forall x ensures Lookup(r[hash(x)], x) == MapGet(m[k := d], x) {
      assert ([Entry(k, d)] + es)[1..] == es;
    }
  }

  lemma DeleteRefines<K(!new), V>(table: seq<seq<Entry<K, V>>>, hash: K -> int, m: map<K, V>, k: K)
    requires Refines(table, hash, m)
    ensures 0 <= hash(k) < |table|
    ensures Refines(table[hash(k) := Without(table[hash(k)], k)], hash, m - {k})
  {
    var h := hash(k);
    var es := table[h];
    var r := table[h := Without(es, k)];
    WithoutDistinct(es, k);
    WithoutDrops(es, k);
    assert Placed(r, hash) by {
      forall i: int, e: Entry<K, V> | 0 <= i < |r| && e in r[i] ensures hash(e.key) == i {
        if i == h { WithoutMembers(es, k, e); }
      }
    }
    forall x ensures Lookup(r[hash(x)], x) == MapGet(m - {k}, x) {
      if x != k { WithoutKeeps(es, k, x); }
    }
  }

  function Flat<K, V>(table: seq<seq<Entry<K, V>>>): seq<Entry<K, V>> {
    if table == [] then [] else table[0] + Flat(table[1..])
  }

  lemma {:induction false} FlatAppends<K, V>(table: seq<seq<Entry<K, V>>>, es: seq<Entry<K, V>>)
    ensures Flat(table + [es]) == Flat(table) + es
  {
    if table == [] {
      assert table + [es] == [es];
    } else {
      assert (table + [es])[1..] == table[1..] + [es];
      FlatAppends(table[1..], es);
      assert table[0] + (Flat(table[1..]) + es) == (table[0] + Flat(table[1..])) + es;
    }
  }

  lemma FlatTake<K, V>(table: seq<seq<Entry<K, V>>>, i: nat)
    requires i < |table|
    ensures Flat(table[..i + 1]) == Flat(table[..i]) + table[i]
  {
    assert table[..i + 1] == table[..i] + [table[i]];
    FlatAppends(table[..i], table[i]);
  }

  lemma {:induction false} FlatMembers<K, V>(table: seq<seq<Entry<K, V>>>, e: Entry<K, V>)
    ensures e in Flat(table) <==> exists i :: 0 <= i < |table| && e in table[i]
  {
    if table != [] {
      FlatMembers(table[1..], e);
      if e in Flat(table) && e !in table[0] {
        var i :| 0 <= i < |table[1..]| && e in table[1..][i];
        assert e in table[i + 1];
      }
      if i :| 0 <= i < |table| && e in table[i] {
        assert i > 0 ==> e in table[1..][i - 1];
      }
    }
  }

  lemma AppendDistinct<K, V>(a: seq<Entry<K, V>>, b: seq<Entry<K, V>>)
    requires DistinctKeys(a) && DistinctKeys(b)
    requires forall x, y :: x in a && y in b ==> x.key != y.key
    ensures DistinctKeys(a + b)
  {
    var c := a + b;
    forall i, j | 0 <= i < j < |c| ensures c[i].key != c[j].key {
      if i < |a| <= j { assert c[i] in a && c[j] in b; }
    }
  }

  lemma {:induction false} FlatDistinct<K(!new), V>(table: seq<seq<Entry<K, V>>>, hash: K -> int, n: nat)
    requires Placed(table, hash) && n <= |table|
    ensures DistinctKeys(Flat(table[..n]))
  {
    if n > 0 {
      FlatDistinct(table, hash, n - 1);
      FlatTake(table, n - 1);
      forall x, y | x in Flat(table[..n - 1]) && y in table[n - 1] ensures x.key != y.key {
        FlatMembers(table[..n - 1], x);
      }
      AppendDistinct(Flat(table[..n - 1]), table[n - 1]);
    }
  }

  /** The buckets together list every entry of the map exactly once. */
  lemma FlatListsOnce<K(!new), V>(table: seq<seq<Entry<K, V>>>, hash: K -> int, m: map<K, V>)
    requires Refines(table, hash, m)
    ensures DistinctKeys(Flat(table))
    ensures forall k, d :: Entry(k, d) in Flat(table) <==> k in m && m[k] == d
  {
    FlatDistinct(table, hash, |table|);
    assert table[..|table|] == table;
    forall k, d ensures Entry(k, d) in Flat(table) <==> k in m && m[k] == d {
      FlatMembers(table, Entry(k, d));
      var es := table[hash(k)];
      if Entry(k, d) in es { LookupIsUnique(es, Entry(k, d)); }
      LookupFinds(es, k);
    }
  }

  // ---- the map on the heap ----

  /** A list of copied nodes with the pointer to its last one. */
  class NodeList<K(==), V> {
    var first: MapNode?<K, V>
    var last: MapNode?<K, V>
    ghost var nodes: seq<MapNode<K, V>>
    ghost var entries: seq<Entry<K, V>>

    ghost predicate Valid()
      reads this, nodes
    {
      && Linked(first, nodes)
      && last == (if nodes == [] then null else nodes[|nodes| - 1])
      && (forall n :: n in nodes ==> n.home == this)
      && Holds(nodes, entries)
    }

    constructor ()
      ensures Valid() && entries == [] && last == null
    {
      first, last, nodes, entries := null, null, [], [];
    }

    method Append(key: K, data: V)
      requires Valid()
      modifies this, last
      ensures Valid() && last != null && fresh(last)
      ensures entries == old(entries) + [Entry(key, data)]
    {
      var copy := new MapNode(key, data, null, this);
      if last == null { first := copy; } else { last.next := copy; }
      last, nodes, entries := copy, nodes + [copy], entries + [Entry(key, data)];
    }

    method AppendNode(b: Bucket<K, V>, ghost j: nat, node: MapNode<K, V>)
      requires Valid() && b.Valid() && j < |b.chain| && node == b.chain[j]
      modifies this, last
      ensures Valid() && last != null && fresh(last) && b.Valid()
      ensures entries == old(entries) + [b.entries[j]]
      ensures node.next == NodeAt(b.chain, j + 1)
    {
      assert last !in b.nodes;
      Append(node.key, node.data);
    }

    method AppendChain(b: Bucket<K, V>)
      requires Valid() && b.Valid()
      modifies this, last
      ensures Valid() && (last == old(last) || fresh(last))
      ensures entries == old(entries) + b.entries
    {
      var head := b.head;
      ghost var done, j := entries, 0;
      while head != null
        invariant j <= |b.chain| && head == NodeAt(b.chain, j) && b.Valid()
        invariant Valid() && (last == old(last) || fresh(last))
        invariant entries == done + b.entries[..j]
        decreases |b.chain| - j
      {
        TakeOne(done, b.entries, j);
        AppendNode(b, j, head);
        head, j := head.next, j + 1;
      }
      assert b.entries[..j] == b.entries;
    }
  }

  lemma TakeOne<T>(done: seq<T>, es: seq<T>, j: nat)
    requires j < |es|
    ensures done + es[..j] + [es[j]] == done + es[..j + 1]
  {
  }

  method EmptyBuckets<K(==), V>(size: nat) returns (a: array<Bucket<K, V>>)
    requires size > 0
    ensures fresh(a) && a.Length == size
    ensures forall j :: 0 <= j < size ==> fresh(a[j]) && a[j].Valid() && a[j].entries == [] && a[j].nodes == {}
    ensures forall j, k :: 0 <= j < k < size ==> a[j] != a[k]
  {
    var first := new Bucket<K, V>();
    a := new Bucket<K, V>[size](_ => first);
    for i := 1 to size
      invariant forall j :: 0 <= j < size ==>
                  fresh(a[j]) && allocated(a[j]) && a[j].Valid() && a[j].entries == [] && a[j].nodes == {}
      invariant forall j, k :: 0 <= j < k < i ==> a[j] != a[k]
    {
      a[i] := new Bucket<K, V>();
    }
  }

  // ---- what a finite map answers ----

  datatype Op<K, V> = FindOp(k: K) | InsertOp(k: K, v: V) | DeleteOp(k: K)

  /** Exited: a failed assertion has ended the program. */
  datatype Reply<V> = Found(data: Option<V>) | Inserted | Refused | Deleted(gone: V) | Exited

  function MapStep<K(==), V>(m: map<K, V>, op: Op<K, V>): (map<K, V>, Reply<V>) {
    match op
    case FindOp(k) => (m, Found(MapGet(m, k)))
    case InsertOp(k, v) => if k in m then (m, Exited) else (m[k := v], Inserted)
    case DeleteOp(k) => if k in m then (m - {k}, Deleted(m[k])) else (m, Exited)
  }

  /** What a finite map answers to the operations, up to the first that ends the program. */
  function MapRun<K(==), V>(m: map<K, V>, ops: seq<Op<K, V>>): (map<K, V>, seq<Reply<V>>)
    decreases |ops|
  {
    if ops == [] then (m, []) else
      var (m1, reply) := MapStep(m, ops[0]);
      Resumed([reply], if reply.Exited? then (m1, []) else MapRun(m1, ops[1..]))
  }

  datatype Request<K, V> = Ask(k: K) | Add(k: K, v: V)

  function RefusingStep<K(==), V>(m: map<K, V>, op: Request<K, V>): (map<K, V>, Reply<V>) {
    match op
    case Ask(k) => (m, Found(MapGet(m, k)))
    case Add(k, v) => if k in m then (m, Refused) else (m[k := v], Inserted)
  }

  function RefusingRun<K(==), V>(m: map<K, V>, ops: seq<Request<K, V>>): (map<K, V>, seq<Reply<V>>)
    decreases |ops|
  {
    if ops == [] then (m, []) else
      var (m1, reply) := RefusingStep(m, ops[0]);
      Resumed([reply], RefusingRun(m1, ops[1..]))
  }

  function Resumed<K, V>(replies: seq<Reply<V>>, rest: (map<K, V>, seq<Reply<V>>)): (map<K, V>, seq<Reply<V>>) {
    (rest.0, replies + rest.1)
  }

  lemma Unjoined<K, V>(rest: (map<K, V>, seq<Reply<V>>))
    ensures Resumed([], rest) == rest
  {
    assert [] + rest.1 == rest.1;
  }

  lemma Rejoins<K, V>(before: seq<Reply<V>>, reply: Reply<V>, rest: (map<K, V>, seq<Reply<V>>))
    ensures Resumed(before, Resumed([reply], rest)) == Resumed(before + [reply], rest)
    ensures Resumed(before, Resumed([reply], (rest.0, []))) == (rest.0, before + [reply])
  {
    assert before + ([reply] + rest.1) == before + [reply] + rest.1;
    assert [reply] + [] == [reply];
  }

  lemma RunStep<K, V>(m: map<K, V>, ops: seq<Op<K, V>>, i: nat)
    requires i < |ops|
    ensures var (m1, reply) := MapStep(m, ops[i]);
            MapRun(m, ops[i..]) == Resumed([reply], if reply.Exited? then (m1, []) else MapRun(m1, ops[i + 1..]))
  {
    assert ops[i..][1..] == ops[i + 1..];
  }

  predicate Touches<K(==), V>(op: Op<K, V>, k: K) { !op.FindOp? && op.k == k }

  /** Whether k is in the map after the operations, from their history alone: the last insertion or deletion of k
      decides, and without one it is there if it was there at the start. */
  function Live<K(==), V>(ops: seq<Op<K, V>>, k: K, atStart: bool): bool
    decreases |ops|
  {
    if ops == [] then atStart
    else
      var last := ops[|ops| - 1];
      if Touches(last, k) then last.InsertOp? else Live(ops[..|ops| - 1], k, atStart)
  }

  /** Each insertion is of a key that the operations before it left out, each deletion of one that they left in. */
  ghost predicate Allowed<K(!new), V>(m: map<K, V>, ops: seq<Op<K, V>>) {
    forall i :: 0 <= i < |ops| && !ops[i].FindOp? ==>
      (ops[i].DeleteOp? <==> Live(ops[..i], ops[i].k, ops[i].k in m))
  }

  lemma {:induction false} LiveAfterOne<K, V>(op: Op<K, V>, ops: seq<Op<K, V>>, k: K, atStart: bool)
    ensures Live([op] + ops, k, atStart) == Live(ops, k, if Touches(op, k) then op.InsertOp? else atStart)
    decreases |ops|
  {
    if ops == [] {
      assert [op] + ops == [op] && [op][..0] == [];
    } else {
      var n := |ops| - 1;
      assert ([op] + ops)[..n + 1] == [op] + ops[..n];
      LiveAfterOne(op, ops[..n], k, atStart);
    }
  }

  /** What one operation that does not end the program leaves. */
  lemma StepLeaves<K, V>(m: map<K, V>, op: Op<K, V>, k: K)
    requires !MapStep(m, op).1.Exited?
    ensures k in MapStep(m, op).0 <==> if Touches(op, k) then op.InsertOp? else k in m
  {
  }

  lemma AllowedStep<K(!new), V>(m: map<K, V>, ops: seq<Op<K, V>>)
    requires ops != []
    ensures Allowed(m, ops) <==> !MapStep(m, ops[0]).1.Exited? && Allowed(MapStep(m, ops[0]).0, ops[1..])
  {
    var op, rest, m1 := ops[0], ops[1..], MapStep(m, ops[0]).0;
    assert ops[..0] == [];
    if !MapStep(m, op).1.Exited? {
      forall i | 0 <= i < |rest| && !rest[i].FindOp?
        ensures ops[i + 1] == rest[i]
        ensures Live(ops[..i + 1], rest[i].k, rest[i].k in m) == Live(rest[..i], rest[i].k, rest[i].k in m1)
      {
        assert ops[..i + 1] == [op] + rest[..i];
        LiveAfterOne(op, rest[..i], rest[i].k, rest[i].k in m);
        StepLeaves(m, op, rest[i].k);
      }
      if Allowed(m1, rest) {
        forall i | 0 <= i < |ops| && !ops[i].FindOp?
          ensures ops[i].DeleteOp? <==> Live(ops[..i], ops[i].k, ops[i].k in m)
        {
          if i > 0 { assert ops[i] == rest[i - 1]; }
        }
      }
    }
  }

  /** The program survives a sequence of operations, answering each of them, exactly when its history allows them. */
  lemma {:induction false} SurvivesIffAllowed<K(!new), V>(m: map<K, V>, ops: seq<Op<K, V>>)
    ensures Exited !in MapRun(m, ops).1 <==> Allowed(m, ops)
    ensures Allowed(m, ops) ==> |MapRun(m, ops).1| == |ops|
    decreases |ops|
  {
    if ops != [] {
      AllowedStep(m, ops);
      SurvivesIffAllowed(MapStep(m, ops[0]).0, ops[1..]);
    }
  }

  /** What is stored under k, from the history alone: what its last insertion stored, nothing after a deletion, and
      without either what was there at the start. */
  function Data<K(==), V>(ops: seq<Op<K, V>>, k: K, atStart: Option<V>): Option<V>
    decreases |ops|
  {
    if ops == [] then atStart
    else
      var last := ops[|ops| - 1];
      if !Touches(last, k) then Data(ops[..|ops| - 1], k, atStart)
      else if last.InsertOp? then Some(last.v) else None
  }

  lemma {:induction false} DataAfterOne<K, V>(op: Op<K, V>, ops: seq<Op<K, V>>, k: K, atStart: Option<V>)
    ensures Data([op] + ops, k, atStart) ==
            Data(ops, k, if !Touches(op, k) then atStart else if op.InsertOp? then Some(op.v) else None)
    decreases |ops|
  {
    if ops == [] {
      assert [op] + ops == [op] && [op][..0] == [];
    } else {
      var n := |ops| - 1;
      assert ([op] + ops)[..n + 1] == [op] + ops[..n];
      DataAfterOne(op, ops[..n], k, atStart);
    }
  }

  /** Every answer up to a failed assertion tells the history of its key. */
  lemma {:induction false} AnswersTellHistory<K, V>(m: map<K, V>, ops: seq<Op<K, V>>, i: nat)
    requires i < |MapRun(m, ops).1|
    ensures i < |ops|
    ensures var stored := Data(ops[..i], ops[i].k, MapGet(m, ops[i].k));
            var reply := MapRun(m, ops).1[i];
            match ops[i]
            case FindOp(_) => reply == Found(stored)
            case InsertOp(_, _) => reply == if stored == None then Inserted else Exited
            case DeleteOp(_) => reply == if stored == None then Exited else Deleted(stored.value)
    decreases |ops|
  {
    var (m1, reply) := MapStep(m, ops[0]);
    assert ops[..0] == [];
    if i > 0 {
      AnswersTellHistory(m1, ops[1..], i - 1);
      assert ops[..i] == [ops[0]] + ops[1..][..i - 1];
      DataAfterOne(ops[0], ops[1..][..i - 1], ops[i].k, MapGet(m, ops[i].k));
    }
  }

  /** The first data stored under k by the requests. */
  function FirstAdded<K(==), V>(ops: seq<Request<K, V>>, k: K): Option<V>
    decreases |ops|
  {
    if ops == [] then None
    else if ops[0].Add? && ops[0].k == k then Some(ops[0].v)
    else FirstAdded(ops[1..], k)
  }

  /** What is stored under k stays: what was there at the start, or the first that was added. */
  function Kept<K(==), V>(m: map<K, V>, ops: seq<Request<K, V>>, k: K): Option<V> {
    if k in m then Some(m[k]) else FirstAdded(ops, k)
  }

  /** Where duplicates are refused, every answer tells the first addition of its key. */
  lemma {:induction false} RefusingTellsFirst<K, V>(m: map<K, V>, ops: seq<Request<K, V>>, i: nat)
    requires i < |ops|
    ensures i < |RefusingRun(m, ops).1| == |ops|
    ensures RefusingRun(m, ops).1[i] ==
            match ops[i]
            case Ask(k) => Found(Kept(m, ops[..i], k))
            case Add(k, _) => if Kept(m, ops[..i], k) == None then Inserted else Refused
    decreases |ops|
  {
    var (m1, reply) := RefusingStep(m, ops[0]);
    assert ops[..0] == [];
    if i > 0 {
      RefusingTellsFirst(m1, ops[1..], i - 1);
      assert ops[..i] == [ops[0]] + ops[1..][..i - 1];
      assert ops[..i][1..] == ops[1..][..i - 1];
    } else if |ops| > 1 {
      RefusingTellsFirst(m1, ops[1..], 0);
    }
  }

  // ---- the table ----

  class ChainedMap<K(==, !new), V> {
    const hash: K -> int
    const buckets: array<Bucket<K, V>>
    ghost var contents: map<K, V>
    ghost var table: seq<seq<Entry<K, V>>>
    ghost var repr: set<object>

    /** The heap holds the table. */
    ghost predicate Shape()
      reads this, repr
    {
      && this in repr && buckets in repr && |table| == buckets.Length
      && (forall i :: 0 <= i < |table| ==>
            buckets[i] in repr && buckets[i].nodes <= repr
            && buckets[i].Valid() && buckets[i].entries == table[i])
      && (forall i, j :: 0 <= i < j < |table| ==> buckets[i] != buckets[j])
    }

    ghost predicate Valid()
      reads this, repr
    {
      Shape() && Refines(table, hash, contents)
    }

    constructor (size: nat, hash: K -> int)
      requires size > 0 && forall k :: 0 <= hash(k) < size
      ensures Valid() && fresh(repr) && contents == map[] && this.hash == hash && buckets.Length == size
    {
      var made := EmptyBuckets<K, V>(size);
      this.hash, buckets := hash, made;
      contents, table := map[], seq(size, _ => []);
      new;
      repr := {this, buckets} + set b | b in buckets[..];
      EmptyRefines<K, V>(size, hash);
    }

    method Find(k: K) returns (data: Option<V>)
      requires Valid()
      ensures data == MapGet(contents, k)
    {
      var h := hash(k);
      assert 0 <= h < |table|;
      data := buckets[h].Find(k);
    }

    method InsertAt(h: nat, k: K, data: V)
      requires Shape() && h < |table|
      modifies buckets[h], this`table, this`repr
      ensures Shape() && fresh(repr - old(repr))
      ensures table == old(table)[h := [Entry(k, data)] + old(table)[h]]
    {
      var b := buckets[h];
      b.Insert(k, data);
      repr := repr + b.nodes;
      table := table[h := [Entry(k, data)] + table[h]];
    }

    /** Refused, and nothing changed, when the key is there already. */
    method Insert(k: K, data: V) returns (ok: bool)
      requires Valid()
      modifies repr
      ensures Valid() && fresh(repr - old(repr))
      ensures ok <==> k !in old(contents)
      ensures contents == if ok then old(contents)[k := data] else old(contents)
    {
      var there := Find(k);
      if there.Some? { return false; }
      InsertRefines(table, hash, contents, k, data);
      InsertAt(hash(k), k, data);
      contents := contents[k := data];
      ok := true;
    }

    method DeleteAt(h: nat, k: K) returns (data: Option<V>)
      requires Shape() && h < |table|
      modifies buckets[h], buckets[h].nodes, this`table
      ensures Shape()
      ensures data == Lookup(old(table)[h], k)
      ensures table == old(table)[h := Without(old(table)[h], k)]
    {
      var b := buckets[h];
      data := b.Delete(k);
      table := table[h := Without(table[h], k)];
    }

    /** The shell's insertion: a key that is there already ends the program. */
    method InsertOrExit(k: K, data: V) returns (r: Reply<V>)
      requires Valid()
      modifies repr
      ensures Valid() && fresh(repr - old(repr))
      ensures (contents, r) == MapStep(old(contents), InsertOp(k, data))
    {
      var ok := Insert(k, data);
      r := if ok then Inserted else Exited;
    }

    /** The shell's deletion: a key that is not there ends the program. */
    method Delete(k: K) returns (r: Reply<V>)
      requires Valid()
      modifies repr
      ensures Valid() && repr == old(repr)
      ensures (contents, r) == MapStep(old(contents), DeleteOp(k))
    {
      var there := Find(k);
      if there.None? { return Exited; }
      DeleteRefines(table, hash, contents, k);
      var data := DeleteAt(hash(k), k);
      contents := contents - {k};
      r := Deleted(data.value);
    }

    method AppendBucket(i: nat, list: NodeList<K, V>)
      requires Shape() && i < |table| && list.Valid() && list !in repr && (list.last == null || list.last !in repr)
      modifies list, list.last
      ensures unchanged(repr) && list.Valid() && (list.last == old(list.last) || fresh(list.last))
      ensures list.entries == old(list.entries) + table[i]
    {
      list.AppendChain(buckets[i]);
    }

    /** A copied list of all the nodes; the map itself is only read. */
    method AllNodes() returns (list: NodeList<K, V>)
      requires Valid()
      ensures fresh(list) && list.Valid()
      ensures list.entries == Flat(table)
    {
      list := new NodeList();
      ghost var t := table;
      for i := 0 to buckets.Length
        invariant fresh(list) && list.Valid() && (list.last == null || fresh(list.last))
        invariant unchanged(repr) && list.entries == Flat(t[..i])
      {
        FlatTake(t, i);
        AppendBucket(i, list);
      }
      assert t[..buckets.Length] == t;
    }

    // ---- runs of operations ----

    method Perform(op: Op<K, V>) returns (reply: Reply<V>)
      requires Valid()
      modifies repr
      ensures Valid() && fresh(repr - old(repr))
      ensures (contents, reply) == MapStep(old(contents), op)
    {
      match op
      case FindOp(k) => var data := Find(k); reply := Found(data);
      case InsertOp(k, v) => reply := InsertOrExit(k, v);
      case DeleteOp(k) => reply := Delete(k);
    }

    /** The shell's map, up to the end of the operations or of the program. */
    method Replay(ops: seq<Op<K, V>>) returns (replies: seq<Reply<V>>)
      requires Valid()
      modifies repr
      ensures Valid() && fresh(repr - old(repr))
      ensures (contents, replies) == MapRun(old(contents), ops)
    {
      replies := [];
      assert ops[0..] == ops;
      Unjoined(MapRun(contents, ops));
      for i := 0 to |ops|
        invariant Valid() && fresh(repr - old(repr))
        invariant MapRun(old(contents), ops) == Resumed(replies, MapRun(contents, ops[i..]))
      {
        ghost var before, m := replies, contents;
        var reply := Perform(ops[i]);
        RunStep(m, ops, i);
        Rejoins(before, reply, MapRun(contents, ops[i + 1..]));
        replies := replies + [reply];
        if reply.Exited? { return; }
      }
      assert replies + [] == replies;
    }

    /** The string-keyed map of the RTT tool, which refuses duplicates and goes on, and has no deletion. */
    method ReplayRefusing(ops: seq<Request<K, V>>) returns (replies: seq<Reply<V>>)
      requires Valid()
      modifies repr
      ensures Valid() && fresh(repr - old(repr))
      ensures (contents, replies) == RefusingRun(old(contents), ops)
    {
      replies := [];
      assert ops[0..] == ops;
      Unjoined(RefusingRun(contents, ops));
      for i := 0 to |ops|
        invariant Valid() && fresh(repr - old(repr))
        invariant RefusingRun(old(contents), ops) == Resumed(replies, RefusingRun(contents, ops[i..]))
      {
        ghost var before, m := replies, contents;
        var reply := Answer(ops[i]);
        assert ops[i..][1..] == ops[i + 1..];
        Rejoins(before, reply, RefusingRun(contents, ops[i + 1..]));
        replies := replies + [reply];
      }
      assert replies + [] == replies;
    }

    method Answer(op: Request<K, V>) returns (reply: Reply<V>)
      requires Valid()
      modifies repr
      ensures Valid() && fresh(repr - old(repr))
      ensures (contents, reply) == RefusingStep(old(contents), op)
    {
      match op
      case Ask(k) => var data := Find(k); reply := Found(data);
      case Add(k, v) => var ok := Insert(k, v); reply := if ok then Inserted else Refused;
    }
  }

  /** The shell's table: command numbers, hashed by their remainder. */
  method ShellMap<V>(size: nat) returns (m: ChainedMap<nat, V>)
    requires size > 0
    ensures m.Valid() && fresh(m.repr) && m.contents == map[] && forall k: nat :: m.hash(k) == k % size
  {
    m := new ChainedMap(size, (k: nat) => k % size);
  }
}

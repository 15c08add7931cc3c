/** The parent process of the prefork server: what it keeps about each worker and how it
    reacts to one control message, first on values, then on the doubly linked list. */
module PreforkParent {

  type Pid = int

  const GOT_REQUEST := 1
  const COMPLETED_REQUEST := 2

  datatype ControlMsg = ControlMsg(kind: int, pid: Pid, reqsHandled: int)

  datatype Config = Config(minSpare: int, maxSpare: int, maxRequests: int)

  /** The list node as a value; `to_harvest` and `socket` are never read. */
  datatype Entry = Entry(pid: Pid, reqsHandled: int, isIdle: bool)

  datatype Parent = Parent(workers: seq<Entry>, numWorkers: int, numIdle: int)

  /** What a control message makes the parent do to the outside world. */
  datatype Reaction =
    | Nothing
    | Spawned
    | Acked(pid: Pid)
    | Killed(pid: Pid)
    | Recycled(pid: Pid)

  /** Crash stands for the two null dereferences of the handler: an unknown pid, and removing
      the only list element. */
  datatype Outcome = Crash | Handled(parent: Parent, reaction: Reaction)

  /** The position get_worker_by_id stops at; the list length when it returns NULL. */
  function IndexOf(ws: seq<Entry>, pid: Pid): (i: nat)
    ensures i <= |ws|
    ensures i < |ws| ==> ws[i].pid == pid
    ensures forall j :: 0 <= j < i ==> ws[j].pid != pid
  {
    if ws == [] || ws[0].pid == pid then 0 else 1 + IndexOf(ws[1..], pid)
  }

  function CountIdle(ws: seq<Entry>): nat {
    if ws == [] then 0 else (if ws[0].isIdle then 1 else 0) + CountIdle(ws[1..])
  }

  function Add(p: Parent, pid: Pid): Parent {
    Parent([Entry(pid, 0, true)] + p.workers, p.numWorkers + 1, p.numIdle + 1)
  }

  function Remove(p: Parent, i: nat): Parent
    requires i < |p.workers|
  {
    Parent(p.workers[..i] + p.workers[i + 1..], p.numWorkers - 1, p.numIdle - 1)
  }

  function OnGotRequest(cfg: Config, p: Parent, i: nat, newPid: Pid): Outcome
    requires i < |p.workers|
  {
    var p1 := Parent(p.workers[i := p.workers[i].(isIdle := false)], p.numWorkers, p.numIdle - 1);
    if p1.numIdle < cfg.minSpare then Handled(Add(p1, newPid), Spawned) else Handled(p1, Nothing)
  }

  function OnCompleted(cfg: Config, p: Parent, i: nat, reqs: int, newPid: Pid): Outcome
    requires i < |p.workers|
  {
    var pid := p.workers[i].pid;
    var p1 := Parent(p.workers[i := Entry(pid, reqs, true)], p.numWorkers, p.numIdle + 1);
    if p1.numIdle > cfg.maxSpare then
      if |p1.workers| == 1 then Crash else Handled(Remove(p1, i), Killed(pid))
    else if reqs == cfg.maxRequests then
      if |p1.workers| == 1 then Crash else Handled(Add(Remove(p1, i), newPid), Recycled(pid))
    else
      Handled(p1, Acked(pid))
  }

  /** handle_control_msg, with the pid the next fork would return. */
  function React(cfg: Config, p: Parent, msg: ControlMsg, newPid: Pid): Outcome {
    var i := IndexOf(p.workers, msg.pid);
    if msg.kind != GOT_REQUEST && msg.kind != COMPLETED_REQUEST then Handled(p, Nothing)
    else if i == |p.workers| then Crash
    else if msg.kind == GOT_REQUEST then OnGotRequest(cfg, p, i, newPid)
    else OnCompleted(cfg, p, i, msg.reqsHandled, newPid)
  }

  // ---- startup ----

  function Capped(n: nat): nat { if n > 32 then 32 else n }

  /** Idle count at which exponential_spawn(n) stops when it starts with `idle` idle workers. */
  function SpawnTotal(idle: int, n: nat, minSpare: int): int
    requires n >= 1
    decreases minSpare - idle
  {
    var total := idle + Capped(n);
    if total >= minSpare then total else SpawnTotal(total, 2 * Capped(n), minSpare)
  }

  function StartupCount(minSpare: int): int { SpawnTotal(0, 1, minSpare) }

  function Pow2(k: nat): (p: nat)
    ensures p >= 1
  {
    if k == 0 then 1 else 2 * Pow2(k - 1)
  }

  /** Workers present after k whole batches: 2^k - 1 up to 63, then 32 more each time. */
  function BatchTotal(k: nat): int {
    if k <= 6 then Pow2(k) - 1 else 63 + 32 * (k - 6)
  }

  /** Startup ends at the first whole batch whose running total reaches the minimum. */
  lemma StartupStopsAtFirstBatch(minSpare: int) returns (k: nat)
    ensures k >= 1 && StartupCount(minSpare) == BatchTotal(k) >= minSpare
    ensures forall j :: 1 <= j < k ==> BatchTotal(j) < minSpare
  {
    k := StopFrom(0, minSpare);
  }

  lemma {:induction false} StopFrom(j: nat, minSpare: int) returns (k: nat)
    requires j == 0 || BatchTotal(j) < minSpare
    requires forall i :: 1 <= i < j ==> BatchTotal(i) < minSpare
    ensures k > j
    ensures SpawnTotal(BatchTotal(j), if j <= 5 then Pow2(j) else 64, minSpare) == BatchTotal(k) >= minSpare
    ensures forall i :: 1 <= i < k ==> BatchTotal(i) < minSpare
    decreases minSpare - BatchTotal(j)
  {
    assert Pow2(0) == 1 && Pow2(1) == 2 && Pow2(2) == 4 && Pow2(3) == 8 && Pow2(4) == 16
        && Pow2(5) == 32 && Pow2(6) == 64;
    assert BatchTotal(j + 1) == BatchTotal(j) + Capped(if j <= 5 then Pow2(j) else 64);
    if BatchTotal(j + 1) >= minSpare {
      k := j + 1;
    } else {
      k := StopFrom(j + 1, minSpare);
      SpawnTotalCaps(BatchTotal(j + 1), minSpare);
    }
  }

  /** Once the batch reaches 32, every larger request spawns the same batch. */
  lemma SpawnTotalCaps(idle: int, minSpare: int)
    ensures forall n: nat, m: nat :: n >= 32 && m >= 32 ==>
              SpawnTotal(idle, n, minSpare) == SpawnTotal(idle, m, minSpare)
  {
  }

  /** The overshoot of startup: below twice the minimum and below the minimum plus one batch. */
  lemma StartupWithinBand(minSpare: int)
    ensures minSpare <= 1 ==> StartupCount(minSpare) == 1
    ensures minSpare >= 1 ==> minSpare <= StartupCount(minSpare) < minSpare + 32
    ensures minSpare >= 1 ==> StartupCount(minSpare) < 2 * minSpare
  {
    var k := StartupStopsAtFirstBatch(minSpare);
    assert Pow2(0) == 1 && Pow2(1) == 2 && Pow2(2) == 4 && Pow2(3) == 8 && Pow2(4) == 16
        && Pow2(5) == 32 && Pow2(6) == 64;
    if k >= 2 {
      assert BatchTotal(k - 1) < minSpare;
      assert BatchTotal(k) <= 2 * BatchTotal(k - 1) + 1;
    }
  }

  // ---- the linked list ----

  class Node {
    const pid: Pid
    var reqsHandled: int
    var isIdle: bool
    var next: Node?
    var prev: Node?

    constructor (pid: Pid)
      ensures this.pid == pid && reqsHandled == 0 && isIdle && next == null && prev == null
    {
      this.pid, reqsHandled, isIdle, next, prev := pid, 0, true, null, null;
    }

    function Value(): Entry reads this`reqsHandled, this`isIdle { Entry(pid, reqsHandled, isIdle) }
  }

  /** The list after the workers forked as numbers lo..hi have joined it one by one. */
  ghost function Joined(fork: nat -> Pid, lo: nat, hi: nat, before: seq<Entry>): seq<Entry>
    requires lo <= hi
    decreases hi - lo
  {
    if lo == hi then before else [Entry(fork(hi - 1), 0, true)] + Joined(fork, lo, hi - 1, before)
  }

  lemma {:induction false} JoinedTwice(fork: nat -> Pid, lo: nat, mid: nat, hi: nat, before: seq<Entry>)
    requires lo <= mid <= hi
    ensures Joined(fork, mid, hi, Joined(fork, lo, mid, before)) == Joined(fork, lo, hi, before)
  {
    if mid < hi { JoinedTwice(fork, lo, mid, hi - 1, before); }
  }

  class WorkerTable {
    var head: Node?
    var numWorkers: int
    var numIdle: int
    ghost var nodes: seq<Node>
    ghost var entries: seq<Entry>
    ghost var repr: set<Node>

    /** next and prev are mutually inverse between neighbours. */
    static ghost predicate Adjacent(nodes: seq<Node>, i: int)
      requires 0 <= i < |nodes| - 1
      reads nodes[i], nodes[i + 1]
    {
      nodes[i].next == nodes[i + 1] && nodes[i + 1].prev == nodes[i]
    }

    ghost predicate Linked()
      reads this`head, this`nodes, this`repr, repr
    {
      && (forall i :: 0 <= i < |nodes| ==> nodes[i] in repr)
      && (forall i, j :: 0 <= i < j < |nodes| ==> nodes[i] != nodes[j])
      && head == (if nodes == [] then null else nodes[0])
      && (forall i :: 0 <= i < |nodes| - 1 ==> Adjacent(nodes, i))
      && (nodes != [] ==> nodes[0].prev == null && nodes[|nodes| - 1].next == null)
    }

    ghost predicate Valid()
      reads this`head, this`nodes, this`repr, this`entries, repr
    {
      && Linked()
      && |entries| == |nodes|
      && (forall i :: 0 <= i < |nodes| ==> entries[i] == nodes[i].Value())
    }

    ghost function Abstract(): Parent
      reads this
    {
      Parent(entries, numWorkers, numIdle)
    }

    constructor ()
      ensures Valid() && Abstract() == Parent([], 0, 0) && repr == {}
    {
      head, numWorkers, numIdle, nodes, entries := null, 0, 0, [], [];
      repr := {};
    }

    method GetWorkerById(pid: Pid) returns (wk: Node?)
      requires Valid()
      ensures var i := IndexOf(entries, pid);
              wk == if i < |nodes| then nodes[i] else null
    {
      wk := head;
      ghost var k := 0;
      while wk != null && wk.pid != pid
        invariant 0 <= k <= |nodes|
        invariant wk == if k < |nodes| then nodes[k] else null
        invariant forall j :: 0 <= j < k ==> entries[j].pid != pid
        decreases |nodes| - k
      {
        assert k < |nodes| - 1 ==> Adjacent(nodes, k);
        wk := wk.next;
        k := k + 1;
      }
      assert k < |nodes| ==> entries[k].pid == pid;
    }

    method AddWorker(pid: Pid)
      requires Valid()
      modifies this, repr
      ensures Valid() && fresh(repr - old(repr))
      ensures Abstract() == Add(old(Abstract()), pid)
    {
      var wk := new Node(pid);
      numIdle, numWorkers := numIdle + 1, numWorkers + 1;
      LinkInFront(wk);
      entries := [Entry(pid, 0, true)] + entries;
      forall i | 0 <= i < |nodes| ensures entries[i] == nodes[i].Value() {
        assert i > 0 ==> old(entries)[i - 1] == old(nodes[i - 1].Value());
      }
    }

    method LinkInFront(wk: Node)
      requires Linked() && wk !in repr && wk.next == null && wk.prev == null
      modifies this`head, this`nodes, this`repr, wk`next, repr`prev
      ensures Linked() && repr == old(repr) + {wk} && nodes == [wk] + old(nodes)
    {
      if head != null {
        wk.next := head;
        head.prev := wk;
      }
      head := wk;
      nodes, repr := [wk] + nodes, repr + {wk};
      forall i | 0 <= i < |nodes| - 1 ensures Adjacent(nodes, i) {
        assert i > 0 ==> old(Adjacent(nodes, i - 1));
      }
    }

    /** The list surgery of remove_worker on the first node. With one element left, `head->prev`
        would be a null dereference, so at least two are demanded. */
    method UnlinkHead()
      requires Valid() && |nodes| >= 2
      modifies this`head, this`nodes, this`entries, repr
      ensures Valid()
      ensures entries == old(entries)[1..]
    {
      assert Adjacent(nodes, 0);
      head := head.next;
      head.prev := null;
      nodes, entries := nodes[1..], entries[1..];
      forall k | 0 <= k < |nodes| - 1 ensures Adjacent(nodes, k) {
        assert old(Adjacent(nodes, k + 1));
      }
    }

    method UnlinkInner(wk: Node, ghost i: nat)
      requires Valid() && 0 < i < |nodes| && nodes[i] == wk
      modifies this`nodes, this`entries, repr
      ensures Valid()
      ensures entries == old(entries)[..i] + old(entries)[i + 1..]
    {
      assert Adjacent(nodes, i - 1);
      assert i + 1 < |nodes| ==> Adjacent(nodes, i);
      wk.prev.next := wk.next;
      if wk.next != null {
        wk.next.prev := wk.prev;
      }
      nodes := nodes[..i] + nodes[i + 1..];
      entries := entries[..i] + entries[i + 1..];
      forall k | 0 <= k < |nodes| - 1 ensures Adjacent(nodes, k) {
        if k < i - 1 { assert old(Adjacent(nodes, k)); }
        if k >= i { assert old(Adjacent(nodes, k + 1)); }
      }
    }

    method RemoveWorker(wk: Node, ghost i: nat)
      requires Valid() && i < |nodes| && nodes[i] == wk
      requires forall j :: 0 <= j < i ==> entries[j].pid != wk.pid
      requires |nodes| >= 2
      modifies this, repr
      ensures Valid() && repr == old(repr)
      ensures Abstract() == Remove(old(Abstract()), i)
    {
      numWorkers, numIdle := numWorkers - 1, numIdle - 1;
      if wk.pid == head.pid {
        UnlinkHead();
      } else {
        UnlinkInner(wk, i);
      }
    }

    method SpawnBatch(batch: nat, fork: nat -> Pid, forks: nat)
      requires Valid()
      modifies this, repr
      ensures Valid() && fresh(repr - old(repr))
      ensures numWorkers == old(numWorkers) + batch && numIdle == old(numIdle) + batch
      ensures entries == Joined(fork, forks, forks + batch, old(entries))
    {
      var i := 0;
      while i < batch
        invariant 0 <= i <= batch
        invariant Valid() && fresh(repr - old(repr))
        invariant numWorkers == old(numWorkers) + i && numIdle == old(numIdle) + i
        invariant entries == Joined(fork, forks, forks + i, old(entries))
      {
        AddWorker(fork(forks + i));
        i := i + 1;
      }
    }

    /** exponential_spawn; `fork(k)` is the pid of the k-th fork of this start. */
    method ExponentialSpawn(n: nat, minSpare: int, fork: nat -> Pid, forks: nat) returns (total: nat)
      requires Valid() && n >= 1
      modifies this, repr
      ensures Valid() && fresh(repr - old(repr))
      ensures total >= forks && numIdle == SpawnTotal(old(numIdle), n, minSpare)
      ensures numWorkers - old(numWorkers) == numIdle - old(numIdle) == total - forks
      ensures entries == Joined(fork, forks, total, old(entries))
      decreases minSpare - numIdle
    {
      var batch := if n > 32 then 32 else n;
      SpawnBatch(batch, fork, forks);
      total := forks + batch;
      if numIdle < minSpare {
        total := ExponentialSpawn(batch * 2, minSpare, fork, total);
        JoinedTwice(fork, forks, forks + batch, total, old(entries));
      }
    }

    /** Overwrites the statistics of one worker. */
    method SetStats(wk: Node, reqs: int, idle: bool, ghost i: nat)
      requires Valid() && i < |nodes| && nodes[i] == wk
      modifies wk, this`entries
      ensures Valid()
      ensures entries == old(entries)[i := Entry(wk.pid, reqs, idle)]
    {
      wk.isIdle, wk.reqsHandled := idle, reqs;
      entries := entries[i := Entry(wk.pid, reqs, idle)];
      forall k | 0 <= k < |nodes| - 1 ensures Adjacent(nodes, k) {
        assert old(Adjacent(nodes, k));
      }
    }

    method GotRequest(cfg: Config, wk: Node, newPid: Pid, ghost i: nat) returns (reaction: Reaction)
      requires Valid() && i < |nodes| && nodes[i] == wk
      modifies this, repr
      ensures Valid() && fresh(repr - old(repr))
      ensures Handled(Abstract(), reaction) == OnGotRequest(cfg, old(Abstract()), i, newPid)
    {
      SetStats(wk, wk.reqsHandled, false, i);
      numIdle := numIdle - 1;
      reaction := Nothing;
      if numIdle < cfg.minSpare {
        AddWorker(newPid);
        reaction := Spawned;
      }
    }

    method Completed(cfg: Config, wk: Node, reqs: int, newPid: Pid, ghost i: nat) returns (reaction: Reaction)
      requires Valid() && i < |nodes| && nodes[i] == wk
      requires forall j :: 0 <= j < i ==> entries[j].pid != wk.pid
      requires OnCompleted(cfg, Abstract(), i, reqs, newPid).Handled?
      modifies this, repr
      ensures Valid() && fresh(repr - old(repr))
      ensures Handled(Abstract(), reaction) == OnCompleted(cfg, old(Abstract()), i, reqs, newPid)
    {
      SetStats(wk, reqs, true, i);
      numIdle := numIdle + 1;
      if numIdle > cfg.maxSpare {
        RemoveWorker(wk, i);
        reaction := Killed(wk.pid);
      } else if reqs == cfg.maxRequests {
        RemoveWorker(wk, i);
        AddWorker(newPid);
        reaction := Recycled(wk.pid);
      } else {
        reaction := Acked(wk.pid);
      }
    }

    /** handle_control_msg on the list refines React, whenever React does not crash. */
    method HandleControlMsg(cfg: Config, msg: ControlMsg, newPid: Pid) returns (reaction: Reaction)
      requires Valid()
      requires React(cfg, Abstract(), msg, newPid).Handled?
      modifies this, repr
      ensures Valid() && fresh(repr - old(repr))
      ensures Handled(Abstract(), reaction) == React(cfg, old(Abstract()), msg, newPid)
    {
      reaction := Nothing;
      if msg.kind == GOT_REQUEST {
        var wk := GetWorkerById(msg.pid);
        reaction := GotRequest(cfg, wk, newPid, IndexOf(entries, msg.pid));
      } else if msg.kind == COMPLETED_REQUEST {
        var wk := GetWorkerById(msg.pid);
        reaction := Completed(cfg, wk, msg.reqsHandled, newPid, IndexOf(entries, msg.pid));
      }
    }
  }
}

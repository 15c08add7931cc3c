/** The sections of the three threads, on the shared counters, arrays and job stack. */
module RttThreads {
  import opened AddressDedup
  import opened IcmpArithmetic
  import opened JobStack
  import opened Optional
  import opened RttScheduler

  class Shared {
    const hosts: Hosts
    const nsent: array<nat>
    const rtt: array<seq<int>>
    const sendQ: Queue<Addr>
    var ipv4Count: int
    var ipv6Count: int
    var totSendCnt: nat

    /** The memory holds the shared part of state s. */
    ghost predicate Holds(s: State)
      reads this, nsent, rtt, sendQ
    {
      && sendQ.Valid() && sendQ.jobs == s.stack
      && nsent[..] == s.nsent && rtt[..] == s.rtt
      && Both(ipv4Count, ipv6Count) == s.left && totSendCnt == s.totSent
    }

    /** main: every socket unsent and unanswered, and pushed in order; the counts come from the address loop. */
    constructor (hosts: Hosts, ipv4Count: int, ipv6Count: int)
      requires Both(ipv4Count, ipv6Count) == Init(hosts).left
      ensures Holds(Init(hosts)) && this.hosts == hosts
    {
      this.hosts, this.ipv4Count, this.ipv6Count, totSendCnt := hosts, ipv4Count, ipv6Count, 0;
      nsent, rtt := new nat[|hosts|](_ => 0), new seq<int>[|hosts|](_ => [-1, -1, -1]);
      sendQ := new Queue();
      new;
      PushAll();
    }

    method PushAll()
      requires sendQ.Valid() && sendQ.jobs == []
      modifies sendQ
      ensures sendQ.Valid() && sendQ.jobs == InitialStack(|hosts|)
    {
      for i := 0 to |hosts|
        invariant sendQ.Valid() && sendQ.jobs == InitialStack(i)
      {
        sendQ.Push(i);
      }
    }

    /** The sender, holding the lock: the front job goes on the wire. */
    method Send(now: int, ghost s: State) returns (packet: Packet)
      requires Holds(s) && Shaped(hosts, s) && Enabled(hosts, s, SendTop(now))
      modifies nsent
      ensures Holds(Step(hosts, s, SendTop(now)))
      ensures Step(hosts, s, SendTop(now)).flight == s.flight + [packet]
    {
      var front := sendQ.Front();
      var a := front.value;
      packet := Packet(a, now);
      nsent[a] := nsent[a] + 1;
    }

    /** Then the job is popped; the sender is done after three sends per address. */
    method PopSent(ghost s: State) returns (done: bool)
      requires Holds(s) && Shaped(hosts, s) && Enabled(hosts, s, FinishSend)
      modifies sendQ, this`totSendCnt
      ensures Holds(Step(hosts, s, FinishSend))
      ensures done <==> Step(hosts, s, FinishSend).sender == SenderDone
    {
      sendQ.Pop();
      totSendCnt := totSendCnt + 1;
      done := totSendCnt == 3 * |hosts|;
    }

    /** A receiver on one reply: fproc stores the time, then the count of sends decides. */
    method Reply(k: nat, p: Packet, received: Timeval, sent: Timeval, ghost s: State) returns (push: bool)
      requires Inv(hosts, s) && Holds(s) && received != sent && received.Normal() && sent.Normal()
      requires Enabled(hosts, s, Receive(k, received.Micros())) && s.flight[k] == p && sent.Micros() == p.sentAt
      modifies nsent, rtt, this`ipv4Count, this`ipv6Count, received
      ensures Holds(Step(hosts, s, Receive(k, old(received.Micros()))))
      ensures var s' := Step(hosts, s, Receive(k, old(received.Micros())));
              push <==> s'.receivers.Of(hosts[p.addr]) == WantsPush(p.addr)
    {
      var a := p.addr;
      ghost var now := received.Micros();
      ReplyResult(hosts, s, k, now);
      var ms := RoundTrip(received, sent);
      rtt[a] := rtt[a][nsent[a] - 1 := ms];
      push := nsent[a] < 3;
      if nsent[a] == 3 {
        nsent[a] := nsent[a] + 1;
        if hosts[a] { ipv6Count := ipv6Count - 1; } else { ipv4Count := ipv4Count - 1; }
      }
    }

    /** The receiver, holding the lock, puts the address back. */
    method PushBack(a: Addr, ghost s: State)
      requires Holds(s) && Shaped(hosts, s) && a < |hosts| && s.receivers.Of(hosts[a]) == WantsPush(a)
      requires Enabled(hosts, s, RttScheduler.Push(hosts[a]))
      modifies sendQ
      ensures Holds(Step(hosts, s, RttScheduler.Push(hosts[a])))
    {
      sendQ.Push(a);
    }
  }

  // ---- from the address list to the first state ----

  lemma {:induction false} CountFamilyJoins(hosts: Hosts, nsent: seq<nat>, h: bool, f: bool)
    requires |hosts| == |nsent|
    ensures CountFamily(hosts + [h], nsent + [0], f) == CountFamily(hosts, nsent, f) + if h == f then 1 else 0
  {
    if hosts == [] {
      assert [h][1..] == [] && [0][1..] == [];
    } else {
      assert (hosts + [h])[1..] == hosts[1..] + [h] && (nsent + [0])[1..] == nsent[1..] + [0];
      CountFamilyJoins(hosts[1..], nsent[1..], h, f);
    }
  }

  function Zeros(n: nat): seq<nat> { seq(n, _ => 0) }

  /** The counters of the address loop are the ones the receivers count down. */
  lemma {:induction false} CountsAreFamilies<T>(list: seq<Listed<T>>, n: nat)
    requires n <= |list|
    ensures var v6 := Families(list, n);
            && CountFamily(v6, Zeros(|v6|), false) == CountV4(list, n)
            && CountFamily(v6, Zeros(|v6|), true) == |Distinct(list, n)| - CountV4(list, n)
  {
    if n > 0 {
      CountsAreFamilies(list, n - 1);
      var v6, h := Families(list, n - 1), !list[n - 1].v4;
      assert Zeros(|v6| + 1) == Zeros(|v6|) + [0];
      CountFamilyJoins(v6, Zeros(|v6|), h, false);
      CountFamilyJoins(v6, Zeros(|v6|), h, true);
    }
  }

  lemma InitLeft(hosts: Hosts)
    ensures var zeros := Zeros(|hosts|);
            Init(hosts).left == Both(CountFamily(hosts, zeros, false), CountFamily(hosts, zeros, true))
  {
    assert Init(hosts).nsent == Zeros(|hosts|);
  }

  /** main from the address list on: the threads start in the first state of the model. */
  method Start(list: seq<Listed<string>>) returns (shared: Shared)
    requires Canonical(list)
    ensures shared.hosts == Families(list, |list|) && shared.Holds(Init(shared.hosts))
  {
    var c := Dedup(list);
    var hosts: Hosts := [];
    for i := 0 to c.uniqueCount
      invariant hosts == Families(list, |list|)[..i]
    {
      hosts := hosts + [!c.sockets[i].v4];
    }
    assert hosts == Families(list, |list|);
    CountsAreFamilies(list, |list|);
    InitLeft(hosts);
    shared := new Shared(hosts, c.ipv4Count, c.ipv6Count);
  }
}

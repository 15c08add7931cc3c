/** The RTT scheduler: one sender and two receivers share a job stack and per-address counters.
    The sections under the mutex are single steps, except that a packet is on the wire before the
    sender pops the job it belongs to. */
module RttScheduler {

  type Addr = nat

  /** unique_count addresses, and which of them are IPv6. */
  type Hosts = seq<bool>

  /** A request and its reply in one: sent at `sentAt` microseconds, the time it echoes back. */
  datatype Packet = Packet(addr: Addr, sentAt: int)

  /** Sent means: fsend has returned, the lock is still held, the job not yet popped. */
  datatype Sender = Unlocked | Sent | SenderDone

  datatype Receiver = Listening | WantsPush(addr: Addr) | ReceiverDone

  /** One value for the IPv4 side and one for the IPv6 side. */
  datatype Both<T> = Both(v4: T, v6: T) {
    function Of(isV6: bool): T { if isV6 then v6 else v4 }
    function With(isV6: bool, x: T): Both<T> { if isV6 then this.(v6 := x) else this.(v4 := x) }
  }

  datatype State = State(
    nsent: seq<nat>,
    rtt: seq<seq<int>>,
    stack: seq<Addr>,      // top first
    sender: Sender,
    totSent: nat,
    receivers: Both<Receiver>,
    left: Both<int>,      // ipv4_count and ipv6_count
    stopped: bool,
    flight: seq<Packet>,
    // bookkeeping that no thread reads
    sends: seq<nat>,
    replies: seq<nat>,
    lost: set<Addr>)

  datatype Event =
    | SendTop(now: int)
    | FinishSend
    | IdleSender
    | Receive(index: nat, now: int)
    | Push(v6: bool)
    | ExitReceiver(v6: bool)
    | Lose(index: nat)
    | Alarm

  function CountFamily(hosts: Hosts, nsent: seq<nat>, v6: bool): nat
    requires |hosts| == |nsent|
  {
    if hosts == [] then 0
    else (if hosts[0] == v6 && nsent[0] != 4 then 1 else 0) + CountFamily(hosts[1..], nsent[1..], v6)
  }

  /** The jobs after main has pushed sockets[0], sockets[1], ... */
  function InitialStack(n: nat): seq<Addr> { if n == 0 then [] else [n - 1] + InitialStack(n - 1) }

  function Init(hosts: Hosts): State {
    var zeros := seq(|hosts|, _ => 0);
    State(zeros, seq(|hosts|, _ => [-1, -1, -1]), InitialStack(|hosts|), Unlocked, 0,
          Both(Listening, Listening),
          Both(CountFamily(hosts, zeros, false), CountFamily(hosts, zeros, true)),
          false, [], zeros, zeros, {})
  }

  predicate Shaped(hosts: Hosts, s: State) {
    && |s.nsent| == |s.rtt| == |s.sends| == |s.replies| == |hosts|
    && (forall a :: 0 <= a < |hosts| ==> |s.rtt[a]| == 3)
    && (forall i :: 0 <= i < |s.stack| ==> s.stack[i] < |hosts|)
    && (forall i :: 0 <= i < |s.flight| ==> s.flight[i].addr < |hosts|)
    && (s.receivers.v4.WantsPush? ==> s.receivers.v4.addr < |hosts|)
    && (s.receivers.v6.WantsPush? ==> s.receivers.v6.addr < |hosts|)
    && (s.sender == Sent ==> s.stack != [])
  }

  predicate Enabled(hosts: Hosts, s: State, e: Event)
    requires Shaped(hosts, s)
  {
    match e
    case SendTop(_) => s.sender == Unlocked && s.stack != []
    case FinishSend => s.sender == Sent
    case IdleSender => s.sender == Unlocked && s.stack == []
    case Receive(k, now) =>
      && k < |s.flight| && s.flight[k].sentAt <= now
      && var f := hosts[s.flight[k].addr]; s.receivers.Of(f) == Listening && s.left.Of(f) > 0
    case Push(f) => s.receivers.Of(f).WantsPush? && s.sender != Sent
    case ExitReceiver(f) => s.receivers.Of(f) == Listening && (s.left.Of(f) <= 0 || s.stopped)
    case Lose(k) => k < |s.flight|
    case Alarm => true
  }

  function Without(flight: seq<Packet>, k: nat): seq<Packet>
    requires k < |flight|
  {
    flight[..k] + flight[k + 1..]
  }

  /** One reply handled by a receiver: the slot write of procV4/procV6, then the nsent test. A write
      outside the three slots would leave this model; OnlyThreeSlots shows that it never happens. */
  function AfterReply(hosts: Hosts, s: State, k: nat, now: int): State
    requires Shaped(hosts, s) && k < |s.flight|
  {
    var p := s.flight[k];
    var a := p.addr;
    var slot: int := s.nsent[a] as int - 1;
    var row := if 0 <= slot < 3 then s.rtt[a][slot := (now - p.sentAt) / 1000] else s.rtt[a];
    var s1 := s.(flight := Without(s.flight, k), rtt := s.rtt[a := row], replies := s.replies[a := s.replies[a] + 1]);
    if s.nsent[a] < 3 then s1.(receivers := s.receivers.With(hosts[a], WantsPush(a)))
    else if s.nsent[a] == 3 then
      s1.(nsent := s.nsent[a := 4], left := s.left.With(hosts[a], s.left.Of(hosts[a]) - 1))
    else s1
  }

  function Step(hosts: Hosts, s: State, e: Event): State
    requires Shaped(hosts, s) && Enabled(hosts, s, e)
  {
    match e
    case SendTop(now) =>
      var a := s.stack[0];
      s.(nsent := s.nsent[a := s.nsent[a] + 1], sends := s.sends[a := s.sends[a] + 1],
         flight := s.flight + [Packet(a, now)], sender := Sent)
    case FinishSend =>
      s.(stack := s.stack[1..], totSent := s.totSent + 1,
         sender := if s.totSent + 1 == 3 * |hosts| then SenderDone else Unlocked)
    case IdleSender =>
      s.(sender := if s.stopped || s.totSent == 3 * |hosts| then SenderDone else Unlocked)
    case Receive(k, now) => AfterReply(hosts, s, k, now)
    case Push(f) =>
      s.(stack := [s.receivers.Of(f).addr] + s.stack, receivers := s.receivers.With(f, Listening))
    case ExitReceiver(f) => s.(receivers := s.receivers.With(f, ReceiverDone))
    case Lose(k) => s.(flight := Without(s.flight, k), lost := s.lost + {s.flight[k].addr})
    case Alarm => s.(stopped := true)
  }

  ghost predicate Run(hosts: Hosts, ss: seq<State>, es: seq<Event>) {
    && |ss| == |es| + 1
    && ss[0] == Init(hosts)
    && forall i :: 0 <= i < |es| ==>
         Shaped(hosts, ss[i]) && Enabled(hosts, ss[i], es[i]) && ss[i + 1] == Step(hosts, ss[i], es[i])
  }

  // ---- where each address is ----

  function CountIn(xs: seq<Addr>, a: Addr): nat {
    if xs == [] then 0 else (if xs[0] == a then 1 else 0) + CountIn(xs[1..], a)
  }

  function CountFlying(ps: seq<Packet>, a: Addr): nat {
    if ps == [] then 0 else (if ps[0].addr == a then 1 else 0) + CountFlying(ps[1..], a)
  }

  /** Jobs still to be sent: the top one is already on the wire while the lock is held after a send. */
  function Waiting(s: State): seq<Addr> {
    if s.sender == Sent && s.stack != [] then s.stack[1..] else s.stack
  }

  function Returning(s: State, a: Addr): nat
  {
    (if s.receivers.v4 == WantsPush(a) then 1 else 0) + (if s.receivers.v6 == WantsPush(a) then 1 else 0)
  }

  /** In how many places address a is: on the stack, in flight, being pushed back, finished, lost. */
  function Places(s: State, a: Addr): nat
    requires a < |s.nsent|
  {
    CountIn(Waiting(s), a) + CountFlying(s.flight, a) + Returning(s, a)
    + (if s.nsent[a] == 4 then 1 else 0) + (if a in s.lost then 1 else 0)
  }

  /** Slots 0..k-1 hold measured times, the others still the initial -1. */
  predicate Recorded(row: seq<int>, k: nat) {
    && |row| == 3 && k <= 3
    && (forall i :: 0 <= i < k ==> row[i] >= 0)
    && (forall i :: k <= i < 3 ==> row[i] == -1)
  }

  /** How the counters of address a fit its place. */
  predicate InOrder(hosts: Hosts, s: State, a: Addr)
    requires Shaped(hosts, s) && a < |hosts|
  {
    var k := s.replies[a];
    && Recorded(s.rtt[a], k)
    && s.sends[a] == (if s.nsent[a] == 4 then 3 else s.nsent[a])
    && (CountIn(Waiting(s), a) > 0 ==> s.nsent[a] == k <= 2)
    && (CountFlying(s.flight, a) > 0 ==> s.nsent[a] == k + 1 <= 3)
    && (s.receivers.Of(!hosts[a]) != WantsPush(a))
    && (s.receivers.Of(hosts[a]) == WantsPush(a) ==> s.nsent[a] == k && 1 <= k <= 2)
    && (s.nsent[a] == 4 ==> k == 3)
    && (a in s.lost ==> s.nsent[a] == k + 1 <= 3)
  }

  function Total(xs: seq<nat>): nat { if xs == [] then 0 else xs[0] + Total(xs[1..]) }

  predicate Inv(hosts: Hosts, s: State) {
    && Shaped(hosts, s)
    && (forall a: nat :: a < |hosts| ==> Places(s, a) == 1)
    && (forall a: nat :: a < |hosts| ==> InOrder(hosts, s, a))
    && Total(s.sends) == s.totSent + (if s.sender == Sent then 1 else 0)
    && (forall f :: s.left.Of(f) == CountFamily(hosts, s.nsent, f))
    && (s.sender == SenderDone ==> s.stopped || s.totSent == 3 * |hosts|)
    && (forall f :: s.receivers.Of(f) == ReceiverDone ==> s.stopped || s.left.Of(f) == 0)
  }

  // ---- counting lemmas ----

  lemma {:induction false} CountFlyingConcat(xs: seq<Packet>, ys: seq<Packet>, a: Addr)
    ensures CountFlying(xs + ys, a) == CountFlying(xs, a) + CountFlying(ys, a)
  {
    if xs == [] { assert xs + ys == ys; } else {
      assert (xs + ys)[1..] == xs[1..] + ys;
      CountFlyingConcat(xs[1..], ys, a);
    }
  }

  lemma CountFlyingWithout(ps: seq<Packet>, k: nat, a: Addr)
    requires k < |ps|
    ensures CountFlying(ps, a) == CountFlying(Without(ps, k), a) + (if ps[k].addr == a then 1 else 0)
  {
    assert ps == ps[..k] + ([ps[k]] + ps[k + 1..]);
    CountFlyingConcat(ps[..k], [ps[k]] + ps[k + 1..], a);
    CountFlyingConcat([ps[k]], ps[k + 1..], a);
    CountFlyingConcat(ps[..k], ps[k + 1..], a);
  }

  lemma {:induction false} TotalUpdate(xs: seq<nat>, i: nat, x: nat)
    requires i < |xs|
    ensures Total(xs[i := x]) == Total(xs) - xs[i] + x
  {
    if i > 0 {
      assert xs[i := x][1..] == xs[1..][i - 1 := x];
      TotalUpdate(xs[1..], i - 1, x);
    } else {
      assert xs[0 := x][1..] == xs[1..];
    }
  }

  lemma {:induction false} CountFamilyUpdate(hosts: Hosts, nsent: seq<nat>, i: nat, x: nat, f: bool)
    requires i < |hosts| == |nsent|
    ensures CountFamily(hosts, nsent[i := x], f) == CountFamily(hosts, nsent, f)
              - (if hosts[i] == f && nsent[i] != 4 then 1 else 0) + (if hosts[i] == f && x != 4 then 1 else 0)
  {
    if i > 0 {
      assert nsent[i := x][1..] == nsent[1..][i - 1 := x];
      CountFamilyUpdate(hosts[1..], nsent[1..], i - 1, x, f);
    } else {
      assert nsent[0 := x][1..] == nsent[1..];
    }
  }

  lemma {:induction false} InitialOnce(n: nat, a: Addr)
    ensures CountIn(InitialStack(n), a) == (if a < n then 1 else 0)
    ensures forall i :: 0 <= i < |InitialStack(n)| ==> InitialStack(n)[i] < n
  {
    if n > 0 { InitialOnce(n - 1, a); }
  }

  lemma {:induction false} TotalZeros(n: nat)
    ensures Total(seq(n, _ => 0)) == 0
  {
    if n > 0 {
      assert seq<nat>(n, _ => 0)[1..] == seq<nat>(n - 1, _ => 0);
      TotalZeros(n - 1);
    }
  }

  // ---- every step keeps the invariant ----

  lemma InitHolds(hosts: Hosts)
    ensures Inv(hosts, Init(hosts))
  {
    TotalZeros(|hosts|);
    InitialOnce(|hosts|, 0);
    forall a: nat | a < |hosts| ensures Places(Init(hosts), a) == 1 && InOrder(hosts, Init(hosts), a) {
      InitialOnce(|hosts|, a);
    }
  }

  lemma SendTopAt(hosts: Hosts, s: State, e: Event, b: Addr)
    requires Inv(hosts, s) && Enabled(hosts, s, e) && e.SendTop? && b < |hosts|
    requires Shaped(hosts, Step(hosts, s, e))
    ensures Places(Step(hosts, s, e), b) == 1 && InOrder(hosts, Step(hosts, s, e), b)
  {
    CountFlyingConcat(s.flight, [Packet(s.stack[0], e.now)], b);
    assert InOrder(hosts, s, b) && Places(s, b) == 1;
  }

  lemma SendTopCounts(hosts: Hosts, s: State, e: Event)
    requires Inv(hosts, s) && Enabled(hosts, s, e) && e.SendTop?
    ensures var s' := Step(hosts, s, e);
            && Shaped(hosts, s') && Total(s'.sends) == s'.totSent + 1
            && (forall f :: s'.left.Of(f) == CountFamily(hosts, s'.nsent, f))
  {
    var s', a := Step(hosts, s, e), s.stack[0];
    assert CountIn(Waiting(s), a) >= 1;
    assert InOrder(hosts, s, a);
    TotalUpdate(s.sends, a, s.sends[a] + 1);
    forall f ensures s'.left.Of(f) == CountFamily(hosts, s'.nsent, f) {
      CountFamilyUpdate(hosts, s.nsent, a, s.nsent[a] + 1, f);
    }
  }

  lemma SendTopKeeps(hosts: Hosts, s: State, e: Event)
    requires Inv(hosts, s) && Enabled(hosts, s, e) && e.SendTop?
    ensures Inv(hosts, Step(hosts, s, e))
  {
    var s' := Step(hosts, s, e);
    SendTopCounts(hosts, s, e);
    forall b: nat | b < |hosts| ensures Places(s', b) == 1 && InOrder(hosts, s', b) {
      SendTopAt(hosts, s, e, b);
    }
  }

  /** A step that moves no address. */
  predicate MovesNothing(e: Event) { e.FinishSend? || e.IdleSender? || e.Alarm? || e.ExitReceiver? }

  lemma StaysAt(hosts: Hosts, s: State, e: Event, b: Addr)
    requires Inv(hosts, s) && Enabled(hosts, s, e) && MovesNothing(e) && b < |hosts|
    requires Shaped(hosts, Step(hosts, s, e)) && Waiting(Step(hosts, s, e)) == Waiting(s)
    ensures Places(Step(hosts, s, e), b) == 1 && InOrder(hosts, Step(hosts, s, e), b)
  {
    assert InOrder(hosts, s, b) && Places(s, b) == 1;
  }

  lemma FinishSendKeeps(hosts: Hosts, s: State, e: Event)
    requires Inv(hosts, s) && Enabled(hosts, s, e) && MovesNothing(e)
    ensures Inv(hosts, Step(hosts, s, e))
  {
    var s' := Step(hosts, s, e);
    assert Waiting(s') == Waiting(s);
    forall b: nat | b < |hosts| ensures Places(s', b) == 1 && InOrder(hosts, s', b) {
      StaysAt(hosts, s, e, b);
    }
  }

  lemma PushAt(hosts: Hosts, s: State, e: Event, b: Addr)
    requires Inv(hosts, s) && Enabled(hosts, s, e) && e.Push? && b < |hosts|
    requires Shaped(hosts, Step(hosts, s, e))
    ensures Places(Step(hosts, s, e), b) == 1 && InOrder(hosts, Step(hosts, s, e), b)
  {
    var a := s.receivers.Of(e.v6).addr;
    assert InOrder(hosts, s, a) && Places(s, a) == 1;
    assert Waiting(Step(hosts, s, e)) == [a] + Waiting(s);
    assert Waiting(Step(hosts, s, e))[1..] == Waiting(s);
    assert InOrder(hosts, s, b) && Places(s, b) == 1;
  }

  lemma PushKeeps(hosts: Hosts, s: State, e: Event)
    requires Inv(hosts, s) && Enabled(hosts, s, e) && e.Push?
    ensures Inv(hosts, Step(hosts, s, e))
  {
    var s' := Step(hosts, s, e);
    forall b: nat | b < |hosts| ensures Places(s', b) == 1 && InOrder(hosts, s', b) {
      PushAt(hosts, s, e, b);
    }
  }

  lemma LoseAt(hosts: Hosts, s: State, e: Event, b: Addr)
    requires Inv(hosts, s) && Enabled(hosts, s, e) && e.Lose? && b < |hosts|
    requires Shaped(hosts, Step(hosts, s, e))
    ensures Places(Step(hosts, s, e), b) == 1 && InOrder(hosts, Step(hosts, s, e), b)
  {
    CountFlyingWithout(s.flight, e.index, b);
    assert InOrder(hosts, s, b) && Places(s, b) == 1;
  }

  lemma LoseKeeps(hosts: Hosts, s: State, e: Event)
    requires Inv(hosts, s) && Enabled(hosts, s, e) && e.Lose?
    ensures Inv(hosts, Step(hosts, s, e))
  {
    var s' := Step(hosts, s, e);
    forall b: nat | b < |hosts| ensures Places(s', b) == 1 && InOrder(hosts, s', b) {
      LoseAt(hosts, s, e, b);
    }
  }

  /** What is known about the address a reply comes from. */
  lemma ReceiveFacts(hosts: Hosts, s: State, e: Event)
    requires Inv(hosts, s) && Enabled(hosts, s, e) && e.Receive?
    ensures Shaped(hosts, Step(hosts, s, e))
    ensures var a := s.flight[e.index].addr;
            && CountFlying(s.flight, a) == 1 && CountIn(Waiting(s), a) == 0 && Returning(s, a) == 0 && a !in s.lost
            && 1 <= s.nsent[a] == s.replies[a] + 1 <= 3
            && Recorded(s.rtt[a], s.replies[a]) && s.sends[a] == s.nsent[a]
  {
    var a := s.flight[e.index].addr;
    CountFlyingWithout(s.flight, e.index, a);
    assert InOrder(hosts, s, a) && Places(s, a) == 1;
  }

  /** What a reply changes of the shared memory. */
  lemma ReplyResult(hosts: Hosts, s: State, k: nat, now: int)
    requires Inv(hosts, s) && Enabled(hosts, s, Receive(k, now))
    ensures var s', p := Step(hosts, s, Receive(k, now)), s.flight[k];
            var n := s.nsent[p.addr];
            && 1 <= n <= 3
            && s'.rtt == s.rtt[p.addr := s.rtt[p.addr][n - 1 := (now - p.sentAt) / 1000]]
            && s'.nsent == (if n == 3 then s.nsent[p.addr := 4] else s.nsent)
            && s'.left == (if n == 3 then s.left.With(hosts[p.addr], s.left.Of(hosts[p.addr]) - 1) else s.left)
            && s'.stack == s.stack && s'.totSent == s.totSent
            && (s'.receivers.Of(hosts[p.addr]) == WantsPush(p.addr) <==> n < 3)
  {
    ReceiveFacts(hosts, s, Receive(k, now));
  }

  lemma RecordedNext(row: seq<int>, k: nat, ms: int)
    requires Recorded(row, k) && k < 3 && ms >= 0
    ensures Recorded(row[k := ms], k + 1)
  {
  }

  lemma ReceiveOwn(hosts: Hosts, s: State, e: Event)
    requires Inv(hosts, s) && Enabled(hosts, s, e) && e.Receive?
    ensures Shaped(hosts, Step(hosts, s, e))
    ensures var a := s.flight[e.index].addr; Places(Step(hosts, s, e), a) == 1 && InOrder(hosts, Step(hosts, s, e), a)
  {
    var p := s.flight[e.index];
    ReceiveFacts(hosts, s, e);
    CountFlyingWithout(s.flight, e.index, p.addr);
    RecordedNext(s.rtt[p.addr], s.replies[p.addr], (e.now - p.sentAt) / 1000);
  }

  lemma ReceiveOther(hosts: Hosts, s: State, e: Event, b: Addr)
    requires Inv(hosts, s) && Enabled(hosts, s, e) && e.Receive?
    requires Shaped(hosts, Step(hosts, s, e)) && b < |hosts| && b != s.flight[e.index].addr
    requires s.nsent[s.flight[e.index].addr] <= 3
    ensures Places(Step(hosts, s, e), b) == 1 && InOrder(hosts, Step(hosts, s, e), b)
  {
    CountFlyingWithout(s.flight, e.index, b);
    assert InOrder(hosts, s, b) && Places(s, b) == 1;
  }

  lemma ReceiveLeft(hosts: Hosts, s: State, e: Event)
    requires Inv(hosts, s) && Enabled(hosts, s, e) && e.Receive?
    ensures var s' := Step(hosts, s, e);
            && |s'.nsent| == |hosts|
            && (forall f :: s'.left.Of(f) == CountFamily(hosts, s'.nsent, f))
  {
    var s', a := Step(hosts, s, e), s.flight[e.index].addr;
    forall f ensures s'.left.Of(f) == CountFamily(hosts, s'.nsent, f) {
      if s.nsent[a] == 3 { CountFamilyUpdate(hosts, s.nsent, a, 4, f); }
    }
  }

  lemma ReceiveKeeps(hosts: Hosts, s: State, e: Event)
    requires Inv(hosts, s) && Enabled(hosts, s, e) && e.Receive?
    ensures Inv(hosts, Step(hosts, s, e))
  {
    var s' := Step(hosts, s, e);
    ReceiveFacts(hosts, s, e);
    ReceiveOwn(hosts, s, e);
    ReceiveLeft(hosts, s, e);
    forall b: nat | b < |hosts| ensures Places(s', b) == 1 && InOrder(hosts, s', b) {
      if b != s.flight[e.index].addr { ReceiveOther(hosts, s, e, b); }
    }
  }

  lemma StepKeeps(hosts: Hosts, s: State, e: Event)
    requires Inv(hosts, s) && Enabled(hosts, s, e)
    ensures Inv(hosts, Step(hosts, s, e))
  {
    match e
    case SendTop(_) => SendTopKeeps(hosts, s, e);
    case Push(_) => PushKeeps(hosts, s, e);
    case Lose(_) => LoseKeeps(hosts, s, e);
    case Receive(_, _) => ReceiveKeeps(hosts, s, e);
    case _ => FinishSendKeeps(hosts, s, e);
  }

  lemma {:induction false} RunKeepsInv(hosts: Hosts, ss: seq<State>, es: seq<Event>, i: nat)
    requires Run(hosts, ss, es) && i < |ss|
    ensures Inv(hosts, ss[i])
  {
    if i == 0 { InitHolds(hosts); } else {
      RunKeepsInv(hosts, ss, es, i - 1);
      assert ss[i] == Step(hosts, ss[i - 1], es[i - 1]);
      StepKeeps(hosts, ss[i - 1], es[i - 1]);
    }
  }

  // ---- what holds over every run ----

  /** Every address is in exactly one place: on the stack, in flight, being pushed back, finished
      or lost. */
  lemma OnePlace(hosts: Hosts, ss: seq<State>, es: seq<Event>, i: nat, a: Addr)
    requires Run(hosts, ss, es) && i < |ss| && a < |hosts|
    ensures Shaped(hosts, ss[i]) && Places(ss[i], a) == 1
  {
    RunKeepsInv(hosts, ss, es, i);
  }

  /** No address is sent to more than three times, and the sender's counter counts all sends. */
  lemma ThreeSendsAtMost(hosts: Hosts, ss: seq<State>, es: seq<Event>, i: nat)
    requires Run(hosts, ss, es) && i < |ss|
    ensures |ss[i].sends| == |hosts| && forall a :: 0 <= a < |hosts| ==> ss[i].sends[a] <= 3
    ensures ss[i].sender != Sent ==> ss[i].totSent == Total(ss[i].sends)
    ensures ss[i].totSent <= 3 * |hosts|
  {
    RunKeepsInv(hosts, ss, es, i);
    forall a: nat | a < |hosts| ensures ss[i].sends[a] <= 3 { SendsBounded(hosts, ss[i], a); }
    TotalAtMost(ss[i].sends);
  }

  lemma SendsBounded(hosts: Hosts, s: State, a: Addr)
    requires Inv(hosts, s) && a < |hosts|
    ensures s.sends[a] <= 3
  {
    assert InOrder(hosts, s, a) && Places(s, a) == 1;
  }

  lemma {:induction false} TotalAtMost(xs: seq<nat>)
    requires forall i :: 0 <= i < |xs| ==> xs[i] <= 3
    ensures Total(xs) <= 3 * |xs|
    ensures Total(xs) == 3 * |xs| ==> forall i :: 0 <= i < |xs| ==> xs[i] == 3
  {
    if xs != [] { TotalAtMost(xs[1..]); }
  }

  /** The k-th reply from an address fills slot k - 1, which was still empty, with the elapsed time;
      a receiver never writes outside the three slots. */
  lemma OnlyThreeSlots(hosts: Hosts, ss: seq<State>, es: seq<Event>, i: nat)
    requires Run(hosts, ss, es) && i < |es| && es[i].Receive?
    ensures var s, s' := ss[i], ss[i + 1]; var p := s.flight[es[i].index]; var a := p.addr; var k := s'.replies[a];
            && 1 <= k <= 3 && s.nsent[a] == k
            && s.rtt[a][k - 1] == -1
            && s'.rtt == s.rtt[a := s.rtt[a][k - 1 := (es[i].now - p.sentAt) / 1000]]
            && s'.rtt[a][k - 1] >= 0
  {
    RunKeepsInv(hosts, ss, es, i);
    ReceiveFacts(hosts, ss[i], es[i]);
  }

  /** Without a timeout the sender stops only after three sends to every address. */
  lemma SenderFinishesAll(hosts: Hosts, ss: seq<State>, es: seq<Event>, i: nat)
    requires Run(hosts, ss, es) && i < |ss| && ss[i].sender == SenderDone && !ss[i].stopped
    ensures |ss[i].sends| == |hosts| && forall a :: 0 <= a < |hosts| ==> ss[i].sends[a] == 3
  {
    RunKeepsInv(hosts, ss, es, i);
    ThreeSendsAtMost(hosts, ss, es, i);
    TotalAtMost(ss[i].sends);
  }

  lemma {:induction false} NoneLeft(hosts: Hosts, nsent: seq<nat>, f: bool, a: nat)
    requires |hosts| == |nsent| && CountFamily(hosts, nsent, f) == 0 && a < |hosts| && hosts[a] == f
    ensures nsent[a] == 4
  {
    if a > 0 { NoneLeft(hosts[1..], nsent[1..], f, a - 1); }
  }

  /** Without a timeout a receiver stops only when every address of its family has three recorded times. */
  lemma ReceiverFinishesAll(hosts: Hosts, ss: seq<State>, es: seq<Event>, i: nat, f: bool, a: Addr)
    requires Run(hosts, ss, es) && i < |ss| && !ss[i].stopped
    requires ss[i].receivers.Of(f) == ReceiverDone && a < |hosts| && hosts[a] == f
    ensures |ss[i].rtt| == |ss[i].replies| == |hosts| && ss[i].replies[a] == 3 && Recorded(ss[i].rtt[a], 3)
  {
    RunKeepsInv(hosts, ss, es, i);
    NoneLeft(hosts, ss[i].nsent, f, a);
    assert InOrder(hosts, ss[i], a);
  }

  /** Some thread can move the work on. */
  predicate Progress(hosts: Hosts, s: State)
    requires Shaped(hosts, s)
  {
    || Enabled(hosts, s, SendTop(0))
    || Enabled(hosts, s, FinishSend)
    || Enabled(hosts, s, Push(false)) || Enabled(hosts, s, Push(true))
    || (s.flight != [] && Enabled(hosts, s, Receive(0, s.flight[0].sentAt)))
  }

  /** While no packet is lost and the alarm has not rung, the threads never get stuck: work goes on
      until every address has its three times. */
  lemma NeverStuck(hosts: Hosts, ss: seq<State>, es: seq<Event>, i: nat)
    requires Run(hosts, ss, es) && i < |ss| && !ss[i].stopped && ss[i].lost == {}
    ensures Shaped(hosts, ss[i])
    ensures Progress(hosts, ss[i]) || forall a: nat :: a < |hosts| ==> Recorded(ss[i].rtt[a], 3)
  {
    RunKeepsInv(hosts, ss, es, i);
    var s := ss[i];
    if !Progress(hosts, s) {
      forall a: nat | a < |hosts| ensures Recorded(s.rtt[a], 3) { StuckMeansFinished(hosts, s, a); }
    }
  }

  /** A reply in flight finds its receiver listening, or busy pushing a job back. */
  lemma FlightMeansProgress(hosts: Hosts, s: State)
    requires Inv(hosts, s) && !s.stopped && s.flight != []
    ensures Progress(hosts, s)
  {
    var b := s.flight[0].addr;
    assert CountFlying(s.flight, b) >= 1;
    assert InOrder(hosts, s, b) && Places(s, b) == 1;
    StillCounted(hosts, s.nsent, b);
    var r := s.receivers.Of(hosts[b]);
    assert r == s.receivers.v4 || r == s.receivers.v6;
    if r == Listening { assert Enabled(hosts, s, Receive(0, s.flight[0].sentAt)); }
  }

  /** A job on the stack finds the sender at work. */
  lemma StackMeansProgress(hosts: Hosts, s: State)
    requires Inv(hosts, s) && !s.stopped && s.stack != []
    ensures Progress(hosts, s)
  {
    if s.sender != Sent {
      var b := s.stack[0];
      assert CountIn(Waiting(s), b) >= 1;
      assert InOrder(hosts, s, b) && Places(s, b) == 1;
      TotalBelow(hosts, s, b);
    }
  }

  lemma StuckMeansFinished(hosts: Hosts, s: State, a: Addr)
    requires Inv(hosts, s) && !s.stopped && s.lost == {} && !Progress(hosts, s) && a < |hosts|
    ensures Recorded(s.rtt[a], 3)
  {
    if s.flight != [] { FlightMeansProgress(hosts, s); }
    if s.stack != [] { StackMeansProgress(hosts, s); }
    assert CountIn(Waiting(s), a) == 0 && CountFlying(s.flight, a) == 0;
    assert InOrder(hosts, s, a) && Places(s, a) == 1;
  }

  lemma {:induction false} StillCounted(hosts: Hosts, nsent: seq<nat>, a: nat)
    requires |hosts| == |nsent| && a < |hosts| && nsent[a] != 4
    ensures CountFamily(hosts, nsent, hosts[a]) > 0
  {
    if a > 0 { StillCounted(hosts[1..], nsent[1..], a - 1); }
  }

  /** An address with fewer than three sends keeps the total below the sender's goal. */
  lemma TotalBelow(hosts: Hosts, s: State, a: Addr)
    requires Inv(hosts, s) && a < |hosts| && s.sends[a] < 3
    ensures Total(s.sends) < 3 * |hosts|
  {
    forall b: nat | b < |hosts| ensures s.sends[b] <= 3 { SendsBounded(hosts, s, b); }
    TotalAtMost(s.sends);
  }

  // ---- the printed statistics ----

  function LostIn(row: seq<int>): nat {
    if row == [] then 0 else (if row[0] == -1 then 1 else 0) + LostIn(row[1..])
  }

  function LossCount(rtt: seq<seq<int>>): nat {
    if rtt == [] then 0 else LostIn(rtt[0]) + LossCount(rtt[1..])
  }

  /** The counting done while printRtts prints three columns per address. */
  method PrintRtts(rtt: seq<seq<int>>) returns (lossCount: nat)
    requires forall a :: 0 <= a < |rtt| ==> |rtt[a]| == 3
    ensures lossCount == LossCount(rtt)
  {
    lossCount := 0;
    for i := 0 to |rtt|
      invariant lossCount + LossCount(rtt[i..]) == LossCount(rtt)
    {
      var row := rtt[i];
      assert rtt[i..][1..] == rtt[i + 1..];
      LostInThree(row);
      if row[0] == -1 { lossCount := lossCount + 1; }
      if row[1] == -1 { lossCount := lossCount + 1; }
      if row[2] == -1 { lossCount := lossCount + 1; }
    }
  }

  lemma LostInThree(row: seq<int>)
    requires |row| == 3
    ensures LostIn(row) == (if row[0] == -1 then 1 else 0) + (if row[1] == -1 then 1 else 0)
                           + (if row[2] == -1 then 1 else 0)
  {
    assert LostIn([row[2]]) == if row[2] == -1 then 1 else 0;
    assert row[1..][1..] == [row[2]];
    assert LostIn(row[1..]) == (if row[1] == -1 then 1 else 0) + LostIn([row[2]]);
  }

  lemma {:induction false} LossesComplement(rtt: seq<seq<int>>, replies: seq<nat>)
    requires |rtt| == |replies| && forall a :: 0 <= a < |rtt| ==> Recorded(rtt[a], replies[a])
    ensures LossCount(rtt) + Total(replies) == 3 * |rtt|
  {
    if rtt != [] {
      LostInThree(rtt[0]);
      LossesComplement(rtt[1..], replies[1..]);
    }
  }

  /** In every reachable state the reported successes, 3 * unique_count - loss_count, are the
      replies that were processed. */
  lemma SuccessesAreReplies(hosts: Hosts, ss: seq<State>, es: seq<Event>, i: nat)
    requires Run(hosts, ss, es) && i < |ss|
    ensures |ss[i].rtt| == |hosts| && LossCount(ss[i].rtt) + Total(ss[i].replies) == 3 * |hosts|
  {
    RunKeepsInv(hosts, ss, es, i);
    forall a: nat | a < |hosts| ensures Recorded(ss[i].rtt[a], ss[i].replies[a]) {
      assert InOrder(hosts, ss[i], a);
    }
    LossesComplement(ss[i].rtt, ss[i].replies);
  }
}

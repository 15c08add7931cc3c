/** The timeout of the RTT tool, and which times are recorded. */
module RttTimeout {
  import opened RttScheduler
  import opened RttWork

  // ---- when the threads are told to stop ----

  ghost predicate Rang(es: seq<Event>, i: nat)
    requires i <= |es|
  {
    exists j :: 0 <= j < i && es[j] == Alarm
  }

  /** The flag is set exactly from the first alarm on. */
  lemma {:induction false} StoppedIffRang(hosts: Hosts, ss: seq<State>, es: seq<Event>, i: nat)
    requires Run(hosts, ss, es) && i <= |es|
    ensures ss[i].stopped <==> Rang(es, i)
  {
    if i > 0 {
      StoppedIffRang(hosts, ss, es, i - 1);
      assert ss[i] == Step(hosts, ss[i - 1], es[i - 1]);
      if es[i - 1] == Alarm { assert Rang(es, i); }
      if Rang(es, i - 1) { assert Rang(es, i); }
    }
  }

  // ---- how they stop ----

  predicate AllDone(s: State) {
    s.sender == SenderDone && s.receivers.v4 == ReceiverDone && s.receivers.v6 == ReceiverDone
  }

  /** The steps of the three threads; the alarm and losses are not theirs. */
  predicate OfThread(e: Event) { !e.Alarm? && !e.Lose? }

  function ReceiverSteps(r: Receiver): nat { if r.WantsPush? then 4 else if r == Listening then 1 else 0 }

  function SenderSteps(t: Sender): nat { if t == Unlocked then 2 else if t == Sent then 1 else 0 }

  /** At most so many steps are left after the alarm: the sender empties the stack first. */
  function StepsToStop(s: State): nat {
    2 * |s.stack| + SenderSteps(s.sender) + ReceiverSteps(s.receivers.v4) + ReceiverSteps(s.receivers.v6)
  }

  function Stopping(s: State): Event {
    if s.sender == Sent then FinishSend
    else if s.receivers.v4.WantsPush? then Push(false)
    else if s.receivers.v6.WantsPush? then Push(true)
    else if s.receivers.v4 == Listening then ExitReceiver(false)
    else if s.receivers.v6 == Listening then ExitReceiver(true)
    else if s.stack != [] then SendTop(0)
    else IdleSender
  }

  lemma StoppingStep(hosts: Hosts, s: State)
    requires Shaped(hosts, s) && s.stopped && !AllDone(s)
    requires s.sender == SenderDone ==> s.receivers.v4 != ReceiverDone || s.receivers.v6 != ReceiverDone
    ensures Enabled(hosts, s, Stopping(s)) && OfThread(Stopping(s))
    ensures Step(hosts, s, Stopping(s)).stopped
    ensures StepsToStop(Step(hosts, s, Stopping(s))) < StepsToStop(s)
  {
  }

  /** After the alarm, from wherever the threads are, whatever was lost, they can all end by their own steps. */
  lemma {:induction false} StoppedThreadsEnd(hosts: Hosts, ss: seq<State>, es: seq<Event>)
    returns (ss': seq<State>, es': seq<Event>)
    requires Run(hosts, ss, es) && ss[|es|].stopped
    ensures Run(hosts, ss', es') && es <= es' && forall i :: |es| <= i < |es'| ==> OfThread(es'[i])
    ensures AllDone(ss'[|es'|]) && |es'| <= |es| + StepsToStop(ss[|es|])
    decreases StepsToStop(ss[|es|])
  {
    var s := ss[|es|];
    RunKeepsInv(hosts, ss, es, |es|);
    if AllDone(s) {
      ss', es' := ss, es;
    } else {
      var e := Stopping(s);
      StoppingStep(hosts, s);
      OneMore(hosts, ss, es, e);
      ss', es' := StoppedThreadsEnd(hosts, ss + [Step(hosts, s, e)], es + [e]);
      assert es'[|es|] == (es + [e])[|es|];
    }
  }

  /** The alarm can ring at any time of any run, and this can always be how it ends. */
  lemma AlarmEnds(hosts: Hosts, ss: seq<State>, es: seq<Event>) returns (ss': seq<State>, es': seq<Event>)
    requires Run(hosts, ss, es)
    ensures Run(hosts, ss', es') && es + [Alarm] <= es' && forall i :: |es| < i < |es'| ==> OfThread(es'[i])
    ensures AllDone(ss'[|es'|])
  {
    RunKeepsInv(hosts, ss, es, |es|);
    OneMore(hosts, ss, es, Alarm);
    var ss1, es1 := ss + [Step(hosts, ss[|es|], Alarm)], es + [Alarm];
    StoppedIffRang(hosts, ss1, es1, |es1|);
    assert es1[|es|] == Alarm && Rang(es1, |es1|);
    ss', es' := StoppedThreadsEnd(hosts, ss1, es1);
  }

  lemma NoneWaits(hosts: Hosts, s: State)
    requires Inv(hosts, s) && s.sender != Sent && s.totSent == 3 * |hosts|
    ensures s.stack == []
  {
    if s.stack != [] {
      var a := s.stack[0];
      assert CountIn(Waiting(s), a) > 0 && Places(s, a) == 1 && InOrder(hosts, s, a);
      forall b: nat | b < |hosts| ensures s.sends[b] <= 3 { SendsBounded(hosts, s, b); }
      TotalAtMost(s.sends);
    }
  }

  /** The sender never ends with a job on the stack, alarm or not. */
  lemma EndsOnEmptyStack(hosts: Hosts, ss: seq<State>, es: seq<Event>, i: nat)
    requires Run(hosts, ss, es) && i < |es| && ss[i].sender != SenderDone && ss[i + 1].sender == SenderDone
    ensures ss[i + 1].stack == []
  {
    assert Enabled(hosts, ss[i], es[i]) && ss[i + 1] == Step(hosts, ss[i], es[i]);
    RunKeepsInv(hosts, ss, es, i + 1);
    if es[i].FinishSend? { NoneWaits(hosts, ss[i + 1]); }
  }

  /** The sender is done as soon as the last send is counted, and before that only if it was told to stop. */
  lemma {:induction false} DoneWithLastSend(hosts: Hosts, ss: seq<State>, es: seq<Event>, i: nat)
    requires Run(hosts, ss, es) && i <= |es|
    ensures hosts != [] && ss[i].totSent == 3 * |hosts| ==> ss[i].sender == SenderDone
    ensures ss[i].sender == SenderDone ==> ss[i].totSent == 3 * |hosts| || ss[i].stopped
  {
    if i > 0 {
      DoneWithLastSend(hosts, ss, es, i - 1);
      assert ss[i] == Step(hosts, ss[i - 1], es[i - 1]);
    }
  }

  // ---- how they end without it ----

  /** A state with all times recorded, from which the threads only have to end. */
  ghost predicate Finished(hosts: Hosts, s: State) {
    && Inv(hosts, s) && !s.stopped && AllRecorded(hosts, s)
  }

  lemma FinishedAddress(hosts: Hosts, s: State, a: Addr)
    requires Finished(hosts, s) && a < |hosts|
    ensures s.nsent[a] == 4 && s.sends[a] == 3 && CountIn(Waiting(s), a) == 0
    ensures s.receivers.v4 != WantsPush(a) && s.receivers.v6 != WantsPush(a)
  {
    assert InOrder(hosts, s, a) && Places(s, a) == 1;
    OnlyOneCount(s.rtt[a], s.replies[a]);
  }

  lemma OnlyOneCount(row: seq<int>, k: nat)
    requires Recorded(row, k) && Recorded(row, 3)
    ensures k == 3
  {
    assert row[0] >= 0 && row[1] >= 0 && row[2] >= 0;
  }

  lemma {:induction false} NothingLeft(hosts: Hosts, nsent: seq<nat>, f: bool)
    requires |hosts| == |nsent| && forall a :: 0 <= a < |nsent| ==> nsent[a] == 4
    ensures CountFamily(hosts, nsent, f) == 0
  {
    if hosts != [] { NothingLeft(hosts[1..], nsent[1..], f); }
  }

  lemma {:induction false} ThreeEach(xs: seq<nat>)
    requires forall i :: 0 <= i < |xs| ==> xs[i] == 3
    ensures Total(xs) == 3 * |xs|
  {
    if xs != [] { ThreeEach(xs[1..]); }
  }

  lemma TopIsCounted(stack: seq<Addr>)
    ensures stack != [] ==> CountIn(stack, stack[0]) >= 1
  {
  }

  /** Nobody waits, nobody pushes, both families are counted down, and all sends are done. */
  lemma FinishedFacts(hosts: Hosts, s: State)
    requires Finished(hosts, s)
    ensures Waiting(s) == [] && !s.receivers.v4.WantsPush? && !s.receivers.v6.WantsPush?
    ensures s.left.v4 == s.left.v6 == 0
    ensures s.totSent + (if s.sender == Sent then 1 else 0) == 3 * |hosts|
  {
    forall a: nat | a < |hosts|
      ensures s.nsent[a] == 4 && s.sends[a] == 3 && CountIn(Waiting(s), a) == 0
      ensures s.receivers.v4 != WantsPush(a) && s.receivers.v6 != WantsPush(a)
    {
      FinishedAddress(hosts, s, a);
    }
    TopIsCounted(Waiting(s));
    NothingLeft(hosts, s.nsent, false);
    NothingLeft(hosts, s.nsent, true);
    assert s.left.Of(false) == CountFamily(hosts, s.nsent, false);
    assert s.left.Of(true) == CountFamily(hosts, s.nsent, true);
    ThreeEach(s.sends);
  }

  lemma EndingStep(hosts: Hosts, s: State)
    requires Finished(hosts, s) && !AllDone(s)
    ensures Enabled(hosts, s, Stopping(s)) && OfThread(Stopping(s))
    ensures Finished(hosts, Step(hosts, s, Stopping(s)))
    ensures StepsToStop(Step(hosts, s, Stopping(s))) < StepsToStop(s)
  {
    FinishedFacts(hosts, s);
    StepKeeps(hosts, s, Stopping(s));
  }

  lemma {:induction false} FinishedThreadsEnd(hosts: Hosts, ss: seq<State>, es: seq<Event>)
    returns (ss': seq<State>, es': seq<Event>)
    requires Run(hosts, ss, es) && Finished(hosts, ss[|es|])
    ensures Run(hosts, ss', es') && es <= es' && forall i :: |es| <= i < |es'| ==> OfThread(es'[i])
    ensures AllDone(ss'[|es'|]) && AllRecorded(hosts, ss'[|es'|])
    decreases StepsToStop(ss[|es|])
  {
    var s := ss[|es|];
    if AllDone(s) {
      ss', es' := ss, es;
    } else {
      EndingStep(hosts, s);
      OneMore(hosts, ss, es, Stopping(s));
      ss', es' := FinishedThreadsEnd(hosts, ss + [Step(hosts, s, Stopping(s))], es + [Stopping(s)]);
      assert es'[|es|] == (es + [Stopping(s)])[|es|];
    }
  }

  /** Without loss and alarm, every run goes on, by steps of the threads alone, to one in which every address has its
      three times and all three threads have ended. */
  lemma RunsEnd(hosts: Hosts, ss: seq<State>, es: seq<Event>) returns (ss': seq<State>, es': seq<Event>)
    requires Run(hosts, ss, es) && !ss[|es|].stopped && ss[|es|].lost == {}
    ensures Run(hosts, ss', es') && es <= es' && forall i :: |es| <= i < |es'| ==> OfThread(es'[i])
    ensures AllDone(ss'[|es'|]) && AllRecorded(hosts, ss'[|es'|])
  {
    var ss1, es1 := WorkCompletes(hosts, ss, es);
    StoppedIffRang(hosts, ss, es, |es|);
    StoppedIffRang(hosts, ss1, es1, |es1|);
    RunKeepsInv(hosts, ss1, es1, |es1|);
    forall j | 0 <= j < |es1| ensures es1[j] != Alarm { if j < |es| { assert es1[j] == es[j]; } }
    ss', es' := FinishedThreadsEnd(hosts, ss1, es1);
    forall i | |es| <= i < |es'| ensures OfThread(es'[i]) { if i < |es1| { assert es'[i] == es1[i]; } }
  }

  // ---- which time is recorded ----

  /** When address a was sent to, in order. */
  function SendTimes(ss: seq<State>, es: seq<Event>, i: nat, a: Addr): seq<int>
    requires i <= |es| < |ss|
  {
    if i == 0 then []
    else
      SendTimes(ss, es, i - 1, a) +
      if es[i - 1].SendTop? && ss[i - 1].stack != [] && ss[i - 1].stack[0] == a then [es[i - 1].now] else []
  }

  /** A packet in flight carries the time of the last send. */
  predicate CarriesLast(flight: seq<Packet>, a: Addr, times: seq<int>) {
    forall k :: 0 <= k < |flight| && flight[k].addr == a ==> times != [] && flight[k].sentAt == times[|times| - 1]
  }

  lemma {:induction false} NoneFlying(flight: seq<Packet>, a: Addr)
    requires CountFlying(flight, a) == 0
    ensures forall k :: 0 <= k < |flight| ==> flight[k].addr != a
  {
    if flight != [] { NoneFlying(flight[1..], a); }
  }

  lemma SendCarries(hosts: Hosts, s: State, e: Event, a: Addr, times: seq<int>)
    requires Inv(hosts, s) && Enabled(hosts, s, e) && e.SendTop? && a < |hosts|
    requires CarriesLast(s.flight, a, times) && |times| == s.sends[a]
    ensures var times' := times + if s.stack[0] == a then [e.now] else [];
            CarriesLast(s.flight + [Packet(s.stack[0], e.now)], a, times')
  {
    if s.stack[0] == a {
      assert CountIn(Waiting(s), a) >= 1 && Places(s, a) == 1;
      NoneFlying(s.flight, a);
    } else {
      assert times + [] == times;
    }
  }

  lemma WithoutCarries(flight: seq<Packet>, k: nat, a: Addr, times: seq<int>)
    requires k < |flight| && CarriesLast(flight, a, times)
    ensures CarriesLast(Without(flight, k), a, times)
  {
  }

  /** The packets after a step, and the sends of one address. */
  lemma NextFlight(hosts: Hosts, s: State, e: Event, a: Addr)
    requires Shaped(hosts, s) && Enabled(hosts, s, e) && a < |hosts|
    ensures var s' := Step(hosts, s, e);
            && s'.flight == (if e.SendTop? then s.flight + [Packet(s.stack[0], e.now)]
                             else if e.Receive? || e.Lose? then Without(s.flight, e.index)
                             else s.flight)
            && |s'.sends| == |hosts| && s'.sends[a] == s.sends[a] + if e.SendTop? && s.stack[0] == a then 1 else 0
  {
  }

  lemma NextCarries(hosts: Hosts, s: State, e: Event, a: Addr, times: seq<int>)
    requires Inv(hosts, s) && Enabled(hosts, s, e) && a < |hosts|
    requires CarriesLast(s.flight, a, times) && |times| == s.sends[a]
    ensures var times' := times + if e.SendTop? && s.stack[0] == a then [e.now] else [];
            CarriesLast(Step(hosts, s, e).flight, a, times') && |times'| == Step(hosts, s, e).sends[a]
  {
    NextFlight(hosts, s, e, a);
    assert times + [] == times;
    if e.SendTop? {
      SendCarries(hosts, s, e, a, times);
    } else if e.Receive? || e.Lose? {
      WithoutCarries(s.flight, e.index, a, times);
    }
  }

  lemma {:induction false} FlightCarriesLast(hosts: Hosts, ss: seq<State>, es: seq<Event>, i: nat, a: Addr)
    requires Run(hosts, ss, es) && i <= |es| && a < |hosts|
    ensures |ss[i].sends| == |hosts| && |SendTimes(ss, es, i, a)| == ss[i].sends[a]
    ensures CarriesLast(ss[i].flight, a, SendTimes(ss, es, i, a))
  {
    if i > 0 {
      FlightCarriesLast(hosts, ss, es, i - 1, a);
      RunKeepsInv(hosts, ss, es, i - 1);
      assert ss[i] == Step(hosts, ss[i - 1], es[i - 1]);
      NextCarries(hosts, ss[i - 1], es[i - 1], a, SendTimes(ss, es, i - 1, a));
    }
  }

  /** In every run the k-th reply of an address records the floor of the milliseconds between the k-th send to this
      address and its arrival. */
  lemma RecordedTimesAreRight(hosts: Hosts, ss: seq<State>, es: seq<Event>, i: nat)
    requires Run(hosts, ss, es) && i < |es| && es[i].Receive?
    ensures es[i].index < |ss[i].flight| && ss[i].flight[es[i].index].addr < |hosts|
    ensures var a := ss[i].flight[es[i].index].addr;
            var times := SendTimes(ss, es, i, a);
            && 1 <= |times| <= 3 && ss[i + 1].replies[a] == |times| && |ss[i + 1].rtt[a]| == 3
            && ss[i + 1].rtt[a][|times| - 1] == (es[i].now - times[|times| - 1]) / 1000
  {
    assert Enabled(hosts, ss[i], es[i]);
    var a := ss[i].flight[es[i].index].addr;
    RunKeepsInv(hosts, ss, es, i);
    FlightCarriesLast(hosts, ss, es, i, a);
    ReceiveFacts(hosts, ss[i], es[i]);
    OnlyThreeSlots(hosts, ss, es, i);
  }
}

/** How much work the RTT scheduler can do: with NeverStuck, that it finishes. */
module RttWork {
  import opened RttScheduler

  predicate IsWork(e: Event) { e.SendTop? || e.FinishSend? || e.Receive? || e.Push? || e.Lose? }

  function CountWork(es: seq<Event>): nat {
    if es == [] then 0 else CountWork(es[..|es| - 1]) + if IsWork(es[|es| - 1]) then 1 else 0
  }

  function Busy(r: Receiver): nat { if r.WantsPush? then 1 else 0 }

  /** Replies that neither wait to be pushed back nor were the third of their address. */
  function Pushes(hosts: Hosts, s: State): int {
    Total(s.replies) - Busy(s.receivers.v4) - Busy(s.receivers.v6) - (|hosts| - s.left.v4 - s.left.v6)
  }

  /** Sends, pops, replies, losses and pushes so far. */
  function Work(hosts: Hosts, s: State): int {
    Total(s.sends) + s.totSent + Total(s.replies) + |s.lost| + Pushes(hosts, s)
  }

  predicate LostKnown(hosts: Hosts, s: State) { forall a :: a in s.lost ==> a < |hosts| }

  lemma ReceiveWork(hosts: Hosts, s: State, e: Event)
    requires Inv(hosts, s) && Enabled(hosts, s, e) && e.Receive?
    ensures Work(hosts, Step(hosts, s, e)) == Work(hosts, s) + 1
  {
    var a := s.flight[e.index].addr;
    ReceiveFacts(hosts, s, e);
    TotalUpdate(s.replies, a, s.replies[a] + 1);
  }

  lemma LoseWork(hosts: Hosts, s: State, e: Event)
    requires Inv(hosts, s) && Enabled(hosts, s, e) && e.Lose?
    ensures Work(hosts, Step(hosts, s, e)) == Work(hosts, s) + 1
  {
    var a := s.flight[e.index].addr;
    CountFlyingWithout(s.flight, e.index, a);
    assert Places(s, a) == 1;
  }

  lemma StepWorks(hosts: Hosts, s: State, e: Event)
    requires Inv(hosts, s) && Enabled(hosts, s, e) && LostKnown(hosts, s)
    ensures Work(hosts, Step(hosts, s, e)) == Work(hosts, s) + (if IsWork(e) then 1 else 0)
    ensures LostKnown(hosts, Step(hosts, s, e))
  {
    match e
    case SendTop(_) => TotalUpdate(s.sends, s.stack[0], s.sends[s.stack[0]] + 1);
    case Receive(_, _) => ReceiveWork(hosts, s, e);
    case Lose(_) => LoseWork(hosts, s, e);
    case _ =>
  }

  lemma NextWorks(hosts: Hosts, ss: seq<State>, es: seq<Event>, i: nat)
    requires Run(hosts, ss, es) && i < |es| && LostKnown(hosts, ss[i])
    ensures Work(hosts, ss[i + 1]) == Work(hosts, ss[i]) + (if IsWork(es[i]) then 1 else 0)
    ensures LostKnown(hosts, ss[i + 1])
  {
    RunKeepsInv(hosts, ss, es, i);
    assert ss[i + 1] == Step(hosts, ss[i], es[i]);
    StepWorks(hosts, ss[i], es[i]);
  }

  lemma {:induction false} RunWorks(hosts: Hosts, ss: seq<State>, es: seq<Event>, i: nat)
    requires Run(hosts, ss, es) && i < |ss|
    ensures Work(hosts, ss[i]) == CountWork(es[..i]) && LostKnown(hosts, ss[i])
  {
    if i == 0 {
      TotalZeros(|hosts|);
      AllLeft(hosts, seq(|hosts|, _ => 0));
    } else {
      RunWorks(hosts, ss, es, i - 1);
      NextWorks(hosts, ss, es, i - 1);
      assert es[..i][..i - 1] == es[..i - 1];
    }
  }

  lemma {:induction false} AllLeft(hosts: Hosts, nsent: seq<nat>)
    requires |hosts| == |nsent| && forall a :: 0 <= a < |nsent| ==> nsent[a] == 0
    ensures CountFamily(hosts, nsent, false) + CountFamily(hosts, nsent, true) == |hosts|
  {
    if hosts != [] { AllLeft(hosts[1..], nsent[1..]); }
  }

  // ---- the bound ----

  lemma {:induction false} RepliesOfFinished(hosts: Hosts, nsent: seq<nat>, replies: seq<nat>)
    requires |hosts| == |nsent| == |replies|
    requires forall a :: 0 <= a < |hosts| ==> replies[a] <= 2 + if nsent[a] == 4 then 1 else 0
    ensures Total(replies) + CountFamily(hosts, nsent, false) + CountFamily(hosts, nsent, true) <= 3 * |hosts|
  {
    if hosts != [] { RepliesOfFinished(hosts[1..], nsent[1..], replies[1..]); }
  }

  lemma {:induction false} TotalLast(xs: seq<nat>)
    requires xs != []
    ensures Total(xs) == Total(xs[..|xs| - 1]) + xs[|xs| - 1]
  {
    if |xs| > 1 {
      TotalLast(xs[1..]);
      assert xs[..|xs| - 1][1..] == xs[1..][..|xs| - 2];
    }
  }

  lemma {:induction false} RepliesAndLost(replies: seq<nat>, lost: set<Addr>)
    requires forall a :: a in lost ==> a < |replies|
    requires forall a :: 0 <= a < |replies| ==> replies[a] + (if a in lost then 1 else 0) <= 3
    ensures Total(replies) + |lost| <= 3 * |replies|
  {
    if replies == [] {
      assert lost == {};
    } else {
      var n := |replies| - 1;
      TotalLast(replies);
      RepliesAndLost(replies[..n], lost - {n});
      assert n in lost ==> lost == lost - {n} + {n};
      assert n !in lost ==> lost == lost - {n};
    }
  }

  lemma OneAddress(hosts: Hosts, s: State, a: Addr)
    requires Inv(hosts, s) && a < |hosts|
    ensures s.sends[a] <= 3 && s.replies[a] + (if a in s.lost then 1 else 0) <= 3
    ensures s.replies[a] <= 2 + if s.nsent[a] == 4 then 1 else 0
  {
    assert InOrder(hosts, s, a) && Places(s, a) == 1;
  }

  /** At most 3 sends, 3 pops, 3 replies or losses and 2 pushes for each address. */
  lemma WorkIsBounded(hosts: Hosts, ss: seq<State>, es: seq<Event>)
    requires Run(hosts, ss, es)
    ensures CountWork(es) <= 11 * |hosts|
  {
    var s := ss[|es|];
    RunWorks(hosts, ss, es, |es|);
    assert es[..|es|] == es;
    RunKeepsInv(hosts, ss, es, |es|);
    ThreeSendsAtMost(hosts, ss, es, |es|);
    forall a: nat | a < |hosts|
      ensures s.sends[a] <= 3 && s.replies[a] + (if a in s.lost then 1 else 0) <= 3
      ensures s.replies[a] <= 2 + if s.nsent[a] == 4 then 1 else 0
    {
      OneAddress(hosts, s, a);
    }
    BoundedParts(hosts, s);
  }

  lemma BoundedParts(hosts: Hosts, s: State)
    requires Inv(hosts, s) && LostKnown(hosts, s) && s.totSent <= 3 * |hosts|
    requires forall a: nat :: a < |hosts| ==> s.sends[a] <= 3
    requires forall a: nat :: a < |hosts| ==> s.replies[a] + (if a in s.lost then 1 else 0) <= 3
    requires forall a: nat :: a < |hosts| ==> s.replies[a] <= 2 + if s.nsent[a] == 4 then 1 else 0
    ensures Work(hosts, s) <= 11 * |hosts|
  {
    TotalAtMost(s.sends);
    RepliesAndLost(s.replies, s.lost);
    RepliesOfFinished(hosts, s.nsent, s.replies);
    assert s.left.Of(false) == CountFamily(hosts, s.nsent, false);
    assert s.left.Of(true) == CountFamily(hosts, s.nsent, true);
  }

  // ---- completion ----

  /** A working step that Progress promises. */
  function Next(hosts: Hosts, s: State): (e: Event)
    requires Shaped(hosts, s) && Progress(hosts, s)
    ensures IsWork(e) && !e.Lose? && Enabled(hosts, s, e)
  {
    if Enabled(hosts, s, SendTop(0)) then SendTop(0)
    else if Enabled(hosts, s, FinishSend) then FinishSend
    else if Enabled(hosts, s, Push(false)) then Push(false)
    else if Enabled(hosts, s, Push(true)) then Push(true)
    else Receive(0, s.flight[0].sentAt)
  }

  predicate AllRecorded(hosts: Hosts, s: State) {
    |s.rtt| == |hosts| && forall a: nat :: a < |hosts| ==> Recorded(s.rtt[a], 3)
  }

  /** Without loss and alarm, doing any work that can be done ends, after at most 11 steps for each address from
      the start, with three recorded times for every address. */
  lemma {:induction false} WorkCompletes(hosts: Hosts, ss: seq<State>, es: seq<Event>)
    returns (ss': seq<State>, es': seq<Event>)
    requires Run(hosts, ss, es) && !ss[|es|].stopped && ss[|es|].lost == {}
    ensures Run(hosts, ss', es') && es <= es' && forall i :: |es| <= i < |es'| ==> IsWork(es'[i]) && !es'[i].Lose?
    ensures AllRecorded(hosts, ss'[|es'|])
    decreases 11 * |hosts| - CountWork(es)
  {
    var s := ss[|es|];
    NeverStuck(hosts, ss, es, |es|);
    if Progress(hosts, s) {
      var e := Next(hosts, s);
      var ss1, es1 := ss + [Step(hosts, s, e)], es + [e];
      OneMore(hosts, ss, es, e);
      assert es1[..|es|] == es;
      WorkIsBounded(hosts, ss1, es1);
      ss', es' := WorkCompletes(hosts, ss1, es1);
      OneMoreWork(es, e, es');
    } else {
      ss', es' := ss, es;
      assert AllRecorded(hosts, s);
    }
  }

  lemma OneMoreWork(es: seq<Event>, e: Event, es': seq<Event>)
    requires IsWork(e) && es + [e] <= es' && forall i :: |es| + 1 <= i < |es'| ==> IsWork(es'[i])
    ensures es <= es' && forall i :: |es| <= i < |es'| ==> IsWork(es'[i])
  {
    assert es'[|es|] == (es + [e])[|es|];
  }

  lemma OneMore(hosts: Hosts, ss: seq<State>, es: seq<Event>, e: Event)
    requires Run(hosts, ss, es) && Shaped(hosts, ss[|es|]) && Enabled(hosts, ss[|es|], e)
    ensures Run(hosts, ss + [Step(hosts, ss[|es|], e)], es + [e])
  {
    var ss1, es1 := ss + [Step(hosts, ss[|es|], e)], es + [e];
    forall i | 0 <= i < |es1|
      ensures Shaped(hosts, ss1[i]) && Enabled(hosts, ss1[i], es1[i]) && ss1[i + 1] == Step(hosts, ss1[i], es1[i])
    {
      if i < |es| { assert ss1[i] == ss[i] && ss1[i + 1] == ss[i + 1] && es1[i] == es[i]; }
    }
  }
}

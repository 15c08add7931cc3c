/** Which messages of the chat expire, and whom a group message reaches. */
module ChatDelivery {
  import opened ChatNames
  import opened ChatRouting
  import opened Optional

  // ---- expiry ----

  /** A router puts a message into its user's queue, under the type of its sender or its group, unless the message
      has a lifetime and is older than that. */
  lemma DeliverQueues(s: State, u: int, k: nat, now: int)
    requires Enabled(s, Deliver(u, k, now))
    ensures var m, s' := Hands(s, u)[k], Step(s, Deliver(u, k, now));
            && Queue(s', u) == (if m.autoDelete <= 0 || now - m.timestamp <= m.autoDelete
                                then Queue(s, u)
                                     + [m.(mtype := if m.protocol == 2 then 5000 + m.dst else 10000 + m.src)]
                                else Queue(s, u))
            && Hands(s', u) == Hands(s, u)[..k] + Hands(s, u)[k + 1..] && s'.server == s.server
  {
  }

  predicate TooLate(l: Letter, now: int) { l.autoDelete > 0 && now - l.timestamp > l.autoDelete }

  /** The client messages that the deliveries of a run found too old, by what their senders typed. */
  function DeliveredLate(s: State, events: seq<Event>): set<nat>
    decreases |events|
  {
    if events == [] || !Enabled(s, events[0]) then {}
    else LateNow(s, events[0]) + DeliveredLate(Step(s, events[0]), events[1..])
  }

  function LateNow(s: State, e: Event): set<nat>
    requires Enabled(s, e)
  {
    if !e.Deliver? then {}
    else
      var m := Hands(s, e.uid)[e.index];
      if m.id < |s.log| && s.log[m.id].Letter? && TooLate(s.log[m.id], e.now) then {m.id} else {}
  }

  lemma DeliverExpires(s: State, u: int, k: nat, now: int)
    requires Enabled(s, Deliver(u, k, now)) && InHand(s.log, u, Hands(s, u)[k])
    ensures Step(s, Deliver(u, k, now)).expired == s.expired + LateNow(s, Deliver(u, k, now))
  {
  }

  lemma StepExpires(s: State, e: Event)
    requires Enabled(s, e) && StepTyped(s, e)
    ensures Step(s, e).expired == s.expired + LateNow(s, e)
  {
    if e.Deliver? { DeliverExpires(s, e.uid, e.index, e.now); }
  }

  lemma {:induction false} RunExpires(s: State, events: seq<Event>, s': State)
    requires Run(s, events, s') && Typed(s)
    ensures s'.expired == s.expired + DeliveredLate(s, events)
    decreases |events|
  {
    if events != [] {
      var s1, now, later := Step(s, events[0]), LateNow(s, events[0]), DeliveredLate(Step(s, events[0]), events[1..]);
      StepKeepsTypes(s, events[0]);
      StepExpires(s, events[0]);
      RunExpires(s1, events[1..], s');
      assert s.expired + now + later == s.expired + (now + later);
    }
  }

  /** In every run exactly those messages expire that were delivered later than their senders allowed. */
  lemma ExpiredIffLate(events: seq<Event>, s: State)
    requires Run(Init(), events, s)
    ensures s.expired == DeliveredLate(Init(), events)
  {
    RunExpires(Init(), events, s);
  }

  lemma {:induction false} LateHadLifetime(s: State, events: seq<Event>, s': State, i: nat)
    requires Run(s, events, s') && i in DeliveredLate(s, events)
    ensures i < |s'.log| && s'.log[i].autoDelete > 0
    decreases |events|
  {
    if events != [] {
      var s1 := Step(s, events[0]);
      LogOnlyGrows(s1, events[1..], s');
      if i !in LateNow(s, events[0]) { LateHadLifetime(s1, events[1..], s', i); }
    }
  }

  /** What was sent without a lifetime never expires, in any run. */
  lemma NoLifetimeNoExpiry(events: seq<Event>, s: State, i: nat)
    requires Run(Init(), events, s) && i < |s.log| && s.log[i].autoDelete <= 0
    ensures i !in s.expired
  {
    ExpiredIffLate(events, s);
    if i in s.expired { LateHadLifetime(Init(), events, s, i); }
  }

  // ---- fan-out ----

  /** The group message as the router of user u is to take it. */
  function CopyFor(m: Msg, u: int): Msg { Msg(u + 5000, 2, m.src, m.dst, m.autoDelete, m.timestamp, m.id) }

  function CopiesFor(m: Msg, members: seq<int>): seq<Msg> {
    if members == [] then [] else [CopyFor(m, members[0])] + CopiesFor(m, members[1..])
  }

  /** The fan-out posts one copy for each member, in the order of the members, and nothing else. */
  lemma {:induction false} FanOutPosts(s: State, members: seq<int>)
    requires !s.crashed && s.groupHand.Some? && IsGroup(s, s.groupHand.value.dst)
    requires forall i :: 0 <= i < |members| ==> members[i] >= 0
    ensures FannedOut(s, members).server == s.server + CopiesFor(s.groupHand.value, members)
    decreases |members|
  {
    if members == [] {
      assert s.server + [] == s.server;
    } else {
      var m, rest := s.groupHand.value, CopiesFor(s.groupHand.value, members[1..]);
      FanOutPosts(Step(s, GroupPost(members[0])), members[1..]);
      assert s.server + ([CopyFor(m, members[0])] + rest) == s.server + [CopyFor(m, members[0])] + rest;
    }
  }

  lemma {:induction false} CopiesOfType(m: Msg, members: seq<int>, u: int)
    ensures CountType(CopiesFor(m, members), u + 5000) == multiset(members)[u]
  {
    if members != [] {
      assert members == [members[0]] + members[1..];
      CopiesOfType(m, members[1..], u);
    }
  }

  /** So there is one more message to take for the routers of each member, as often as it is listed, and none for
      anybody else. */
  lemma FanOutReachesMembers(s: State, members: seq<int>, u: int)
    requires !s.crashed && s.groupHand.Some? && IsGroup(s, s.groupHand.value.dst)
    requires forall i :: 0 <= i < |members| ==> members[i] >= 0
    ensures CountType(FannedOut(s, members).server, u + 5000)
            == CountType(s.server, u + 5000) + multiset(members)[u]
    ensures u !in members ==> multiset(members)[u] == 0
    ensures (forall i, j :: 0 <= i < j < |members| ==> members[i] != members[j]) && u in members ==>
              multiset(members)[u] == 1
  {
    FanOutPosts(s, members);
    CountTypeJoins(s.server, CopiesFor(s.groupHand.value, members), u + 5000);
    CopiesOfType(s.groupHand.value, members, u);
    ListedOnce(members, u);
  }

  lemma {:induction false} ListedOnce(members: seq<int>, u: int)
    ensures u !in members ==> multiset(members)[u] == 0
    ensures (forall i, j :: 0 <= i < j < |members| ==> members[i] != members[j]) && u in members ==>
              multiset(members)[u] == 1
  {
    if members != [] {
      assert members == [members[0]] + members[1..];
      ListedOnce(members[1..], u);
      assert u in members <==> u == members[0] || u in members[1..];
    }
  }

  // ---- a group message that arrives ----

  /** A run in which a user creates a group, writes to it, and finds the message in its queue for the group: the server
      survives, and nothing is left over. */
  lemma GroupMessageArrives() returns (events: seq<Event>, s: State)
    ensures Run(Init(), events, s) && !s.crashed && s.server == [] && s.groupHand == None && Hands(s, 0) == []
    ensures Queue(s, 0) == [Msg(5000, 2, 0, 0, 0, 0, 0)] && s.log == [ToGroup(0, 0, 0, 0)]
  {
    var m := Msg(GROUP_MESSAGE, GROUP_MESSAGE, 0, 0, 0, 0, 0);
    var e1, s1 := OwnGroup();
    var s2 := Step(s1, SendGroup(0, 0, 0, 0));
    RunExtends(Init(), e1, s1, SendGroup(0, 0, 0, 0));
    assert s2.server == [m];
    var s3 := Step(s2, GroupTake);
    var e3 := e1 + [SendGroup(0, 0, 0, 0)] + [GroupTake];
    RunExtends(Init(), e1 + [SendGroup(0, 0, 0, 0)], s2, GroupTake);
    assert s3.server == [] && s3.groupHand == Some(m);
    var s4 := Step(s3, GroupPost(0));
    RunExtends(Init(), e3, s3, GroupPost(0));
    var s5 := Step(s4, GroupDone);
    RunExtends(Init(), e3 + [GroupPost(0)], s4, GroupDone);
    assert s5.server == [m.(mtype := 5000)];
    events, s := TakesOwn(e3 + [GroupPost(0)] + [GroupDone], s5, m.(mtype := 5000));
  }

  lemma OwnGroup() returns (events: seq<Event>, s: State)
    ensures Run(Init(), events, s) && s == Init().(registered := {0}, groups := 1)
  {
    RunExtends(Init(), [], Init(), Register(0));
    events, s := [] + [Register(0)] + [CreateGroup], Step(Step(Init(), Register(0)), CreateGroup);
    RunExtends(Init(), [] + [Register(0)], Step(Init(), Register(0)), CreateGroup);
    assert {} + {0} == {0};
  }

  lemma TakesOwn(events: seq<Event>, s: State, m: Msg) returns (events': seq<Event>, s': State)
    requires Run(Init(), events, s) && s.server == [m] && m.mtype == 5000 && m.protocol == GROUP_MESSAGE
    requires m.dst == 0 && m.autoDelete == 0 && Hands(s, 0) == [] && Queue(s, 0) == []
    ensures Run(Init(), events', s') && s'.server == [] && Hands(s', 0) == [] && Queue(s', 0) == [m]
    ensures s'.crashed == s.crashed && s'.groupHand == s.groupHand && s'.log == s.log
  {
    var s1 := Step(s, Take(0));
    RunExtends(Init(), events, s, Take(0));
    assert s1.server == [] && Hands(s1, 0) == [m];
    s' := Step(s1, Deliver(0, 0, 0));
    events' := events + [Take(0)] + [Deliver(0, 0, 0)];
    RunExtends(Init(), events + [Take(0)], s1, Deliver(0, 0, 0));
    assert m.(mtype := 5000) == m;
  }
}

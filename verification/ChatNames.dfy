/** When the lookups of the chat server fail: get_cid and get_gid answer -1 for a name nobody has, their callers do not
    look, and the server's routers then use what they do not find. */
module ChatNames {
  import opened ChatRouting
  import opened Optional

  /** Every other destination is one that the server knows. */
  ghost predicate NamesKnown(s: State) {
    forall i :: 0 <= i < |s.log| && s.log[i].dst >= 0 ==>
      if s.log[i].Letter? then s.log[i].dst in s.registered else s.log[i].dst < s.groups
  }

  /** Nobody wrote to a user or a group that does not exist. */
  ghost predicate AllNamed(log: seq<Letter>) { forall i :: 0 <= i < |log| ==> log[i].dst >= 0 }

  ghost predicate HasUnknown(q: seq<Msg>) { exists i :: 0 <= i < |q| && q[i].dst == -1 }

  predicate HoldsUnknown(h: Option<Msg>) { h.Some? && h.value.dst == -1 }

  ghost predicate UnknownPending(s: State) {
    HoldsUnknown(s.serverHand) || HoldsUnknown(s.groupHand) || HasUnknown(s.server)
  }

  ghost predicate UnknownSending(sending: map<int, seq<Msg>>) {
    exists a :: a in sending && HasUnknown(sending[a])
  }

  /** Dead, or bound to die. */
  ghost predicate Doomed(s: State) { s.crashed || UnknownPending(s) || UnknownSending(s.sending) }

  /** The steps that bring in a message to nobody. */
  predicate ToNobody(e: Event) { (e.StartSend? && e.dst == -1) || (e.SendGroup? && e.gid == -1) }

  // ---- queues ----

  lemma UnknownJoins(q: seq<Msg>, m: Msg)
    ensures HasUnknown(q + [m]) <==> HasUnknown(q) || m.dst == -1
  {
    assert (q + [m])[|q|] == m;
    if i :| 0 <= i < |q| && q[i].dst == -1 { assert (q + [m])[i] == q[i]; }
  }

  lemma UnknownLeaves(q: seq<Msg>, k: nat)
    requires k < |q|
    ensures HasUnknown(q) <==> HasUnknown(RemoveAt(q, k)) || q[k].dst == -1
  {
    var q' := RemoveAt(q, k);
    if i :| 0 <= i < |q| && q[i].dst == -1 {
      assert i < k ==> q'[i] == q[i];
      assert i > k ==> q'[i - 1] == q[i];
    }
    if i :| 0 <= i < |q'| && q'[i].dst == -1 { assert q[if i < k then i else i + 1] == q'[i]; }
  }

  lemma UnknownSendingUpdate(sending: map<int, seq<Msg>>, a: int, q: seq<Msg>)
    ensures UnknownSending(sending[a := q]) <==> HasUnknown(q) || UnknownSending(sending - {a})
  {
    var sending' := sending[a := q];
    assert sending'[a] == q;
    if b :| b in sending - {a} && HasUnknown((sending - {a})[b]) { assert sending'[b] == (sending - {a})[b]; }
    if b :| b in sending' && HasUnknown(sending'[b]) { assert b == a || (sending - {a})[b] == sending'[b]; }
  }

  lemma UnknownSendingAt(sending: map<int, seq<Msg>>, a: int)
    ensures UnknownSending(sending) <==> HasUnknown(Held(sending, a)) || UnknownSending(sending - {a})
  {
    if b :| b in sending - {a} && HasUnknown((sending - {a})[b]) { assert sending[b] == (sending - {a})[b]; }
    if b :| b in sending && HasUnknown(sending[b]) { assert b == a || (sending - {a})[b] == sending[b]; }
  }

  // ---- every step keeps the doom ----

  lemma StartSendDoom(s: State, e: Event)
    requires e.StartSend? && Enabled(s, e)
    ensures Doomed(Step(s, e)) <==> Doomed(s) || e.dst == -1
  {
    var m := NewMsg(s, e.src, e.dst, e.autoDelete, e.now);
    UnknownSendingAt(s.sending, e.src);
    UnknownJoins(Sending(s, e.src), m);
    UnknownSendingUpdate(s.sending, e.src, Sending(s, e.src) + [m]);
  }

  lemma FinishSendDoom(s: State, c: int, k: nat)
    requires Enabled(s, FinishSend(c, k))
    ensures Doomed(Step(s, FinishSend(c, k))) <==> Doomed(s)
  {
    UnknownSendingAt(s.sending, c);
    UnknownLeaves(Sending(s, c), k);
    UnknownSendingUpdate(s.sending, c, RemoveAt(Sending(s, c), k));
    UnknownJoins(s.server, Sending(s, c)[k]);
  }

  lemma SendGroupDoom(s: State, e: Event)
    requires e.SendGroup? && Enabled(s, e)
    ensures Doomed(Step(s, e)) <==> Doomed(s) || e.gid == -1
  {
    UnknownJoins(s.server, Msg(GROUP_MESSAGE, GROUP_MESSAGE, e.src, e.gid, e.autoDelete, e.now, |s.log|));
  }

  /** The steps of the server's two routers. */
  predicate IsRouting(e: Event) { e.Dispatch? || e.Forward? || e.GroupTake? || e.GroupPost? || e.GroupDone? }

  lemma ForwardDoom(s: State)
    requires Enabled(s, Forward) && Typed(s) && NamesKnown(s)
    ensures var s' := Step(s, Forward); s'.crashed || UnknownPending(s') <==> UnknownPending(s)
  {
    var m := s.serverHand.value;
    assert s.log[m.id] == Letter(m.src, m.dst, m.autoDelete, m.timestamp);
    UnknownJoins(s.server, m.(mtype := m.dst + 5000));
  }

  lemma GroupDoom(s: State, e: Event)
    requires (e.GroupPost? || e.GroupDone?) && Enabled(s, e) && Typed(s) && NamesKnown(s)
    ensures Step(s, e).crashed || UnknownPending(Step(s, e)) <==> UnknownPending(s)
  {
    var m := s.groupHand.value;
    assert s.log[m.id] == ToGroup(m.src, m.dst, m.autoDelete, m.timestamp);
    if e.GroupPost? { UnknownJoins(s.server, ForMember(m, e.uid)); }
  }

  lemma RoutingDoom(s: State, e: Event)
    requires IsRouting(e) && Enabled(s, e) && Typed(s) && NamesKnown(s)
    ensures Step(s, e).crashed || UnknownPending(Step(s, e)) <==> UnknownPending(s)
    ensures !s.crashed && Step(s, e).sending == s.sending
  {
    match e
    case Dispatch => UnknownLeaves(s.server, FirstOf(s.server, CLIENT_MESSAGE));
    case Forward => ForwardDoom(s);
    case GroupTake => UnknownLeaves(s.server, FirstOf(s.server, GROUP_MESSAGE));
    case GroupPost(_) => GroupDoom(s, e);
    case GroupDone => GroupDoom(s, e);
  }

  lemma TakeDoom(s: State, u: int)
    requires Enabled(s, Take(u)) && Typed(s)
    ensures Doomed(Step(s, Take(u))) <==> Doomed(s)
  {
    var k := FirstOf(s.server, u + 5000);
    UnknownLeaves(s.server, k);
    assert OnServer(s.log, s.server[k]);
  }

  /** The steps that move no message that could be one to nobody. */
  lemma OtherDoom(s: State, e: Event)
    requires (e.Register? || e.CreateGroup? || e.Deliver? || e.Show?) && Enabled(s, e)
    ensures Doomed(Step(s, e)) <==> Doomed(s)
  {
  }

  lemma StepDoom(s: State, e: Event)
    requires Enabled(s, e) && Typed(s) && NamesKnown(s)
    ensures Doomed(Step(s, e)) <==> Doomed(s) || ToNobody(e)
  {
    if e.StartSend? {
      StartSendDoom(s, e);
    } else if e.FinishSend? {
      FinishSendDoom(s, e.src, e.index);
    } else if e.SendGroup? {
      SendGroupDoom(s, e);
    } else if e.Take? {
      TakeDoom(s, e.uid);
    } else if IsRouting(e) {
      RoutingDoom(s, e);
    } else {
      OtherDoom(s, e);
    }
  }

  lemma StepNames(s: State, e: Event)
    requires Enabled(s, e) && NamesKnown(s)
    ensures NamesKnown(Step(s, e))
    ensures AllNamed(Step(s, e).log) <==> AllNamed(s.log) && !ToNobody(e)
  {
    var log' := Step(s, e).log;
    assert s.log <= log';
    if AllNamed(log') { assert forall i :: 0 <= i < |s.log| ==> s.log[i] == log'[i]; }
    if ToNobody(e) { assert log'[|s.log|].dst == -1; }
  }

  lemma {:induction false} RunKeepsDoom(s: State, events: seq<Event>, s': State)
    requires Run(s, events, s') && Typed(s) && NamesKnown(s) && (Doomed(s) <==> !AllNamed(s.log))
    ensures Doomed(s') <==> !AllNamed(s'.log)
    decreases |events|
  {
    if events != [] {
      StepKeepsTypes(s, events[0]);
      StepDoom(s, events[0]);
      StepNames(s, events[0]);
      RunKeepsDoom(Step(s, events[0]), events[1..], s');
    }
  }

  /** In every run, whatever the interleaving: somebody wrote to a user or a group that does not exist if and only if
      the server has died of a failed lookup, or still has such a message before it. */
  lemma DoomedIffUnknownName(events: seq<Event>, s: State)
    requires Run(Init(), events, s)
    ensures s.crashed || UnknownPending(s) || UnknownSending(s.sending) <==> !AllNamed(s.log)
  {
    RunKeepsDoom(Init(), events, s);
  }

  /** So in a run in which every name was known, of users and of groups, no lookup ever kills the server. */
  lemma KnownNamesNeverCrash(s: State, events: seq<Event>, s': State)
    requires Run(s, events, s') && Typed(s) && NamesKnown(s) && !s.crashed && AllNamed(s'.log)
    ensures !s'.crashed
  {
    LogOnlyGrows(s, events, s');
    assert forall i :: 0 <= i < |s.log| ==> s.log[i] == s'.log[i];
    if Doomed(s) { DoomIsLogged(s); }
    RunKeepsDoom(s, events, s');
  }

  lemma {:induction false} LogOnlyGrows(s: State, events: seq<Event>, s': State)
    requires Run(s, events, s')
    ensures s.log <= s'.log
    decreases |events|
  {
    if events != [] { LogOnlyGrows(Step(s, events[0]), events[1..], s'); }
  }

  lemma DoomIsLogged(s: State)
    requires Typed(s) && !s.crashed && Doomed(s)
    ensures !AllNamed(s.log)
  {
    if HoldsUnknown(s.serverHand) {
      assert s.log[s.serverHand.value.id].dst == -1;
    } else if HoldsUnknown(s.groupHand) {
      assert s.log[s.groupHand.value.id].dst == -1;
    } else if i :| 0 <= i < |s.server| && s.server[i].dst == -1 {
      assert OnServer(s.log, s.server[i]) && s.log[s.server[i].id].dst == -1;
    } else {
      var a :| a in s.sending && HasUnknown(s.sending[a]);
      var i :| 0 <= i < |s.sending[a]| && s.sending[a][i].dst == -1;
      assert IsPosted(s.log, s.sending[a][i]) && s.log[s.sending[a][i].id].dst == -1;
    }
  }

  // ---- the shortest deaths ----

  /** Of a client name. */
  lemma UnknownNameKills() returns (events: seq<Event>, s: State)
    ensures Run(Init(), events, s) && s.crashed && |events| == 5
  {
    var m := Msg(CLIENT_MESSAGE, CLIENT_MESSAGE, 0, -1, 0, 0, 0);
    var s0 := Step(Init(), Register(0));
    RunExtends(Init(), [], Init(), Register(0));
    var s1 := Step(s0, StartSend(0, -1, 0, 0));
    RunExtends(Init(), [] + [Register(0)], s0, StartSend(0, -1, 0, 0));
    assert Sending(s1, 0) == [m];
    events := [] + [Register(0)] + [StartSend(0, -1, 0, 0)];
    var s2 := Step(s1, FinishSend(0, 0));
    RunExtends(Init(), events, s1, FinishSend(0, 0));
    assert s2.server == [m];
    var s3 := Step(s2, Dispatch);
    RunExtends(Init(), events + [FinishSend(0, 0)], s2, Dispatch);
    s := Step(s3, Forward);
    RunExtends(Init(), events + [FinishSend(0, 0)] + [Dispatch], s3, Forward);
    events := events + [FinishSend(0, 0)] + [Dispatch] + [Forward];
  }

  /** Of a group name, though every client name was known. */
  lemma UnknownGroupKills() returns (events: seq<Event>, s: State)
    ensures Run(Init(), events, s) && s.crashed && |events| == 4
    ensures forall i :: 0 <= i < |s.log| ==> s.log[i].ToGroup?
  {
    var s0 := Step(Init(), Register(0));
    RunExtends(Init(), [], Init(), Register(0));
    var s1 := Step(s0, SendGroup(0, -1, 0, 0));
    RunExtends(Init(), [] + [Register(0)], s0, SendGroup(0, -1, 0, 0));
    events := [] + [Register(0)] + [SendGroup(0, -1, 0, 0)];
    var s2 := Step(s1, GroupTake);
    RunExtends(Init(), events, s1, GroupTake);
    s := Step(s2, GroupDone);
    RunExtends(Init(), events + [GroupTake], s2, GroupDone);
    events := events + [GroupTake] + [GroupDone];
  }

  // ---- the routers on their own ----

  function CountType(q: seq<Msg>, t: int): nat {
    if q == [] then 0 else (if q[0].mtype == t then 1 else 0) + CountType(q[1..], t)
  }

  lemma {:induction false} CountTypeJoins(p: seq<Msg>, q: seq<Msg>, t: int)
    ensures CountType(p + q, t) == CountType(p, t) + CountType(q, t)
  {
    if p == [] {
      assert p + q == q;
    } else {
      assert (p + q)[1..] == p[1..] + q;
      CountTypeJoins(p[1..], q, t);
    }
  }

  lemma TakenCount(q: seq<Msg>, t: int)
    requires HasType(q, t)
    ensures CountType(RemoveAt(q, FirstOf(q, t)), t) == CountType(q, t) - 1
  {
    var k := FirstOf(q, t);
    assert q == q[..k] + (q[k..k + 1] + q[k + 1..]);
    CountTypeJoins(q[..k], q[k..k + 1] + q[k + 1..], t);
    CountTypeJoins(q[k..k + 1], q[k + 1..], t);
    CountTypeJoins(q[..k], q[k + 1..], t);
    assert q[k..k + 1][1..] == [];
  }

  lemma {:induction false} NoneOfType(q: seq<Msg>, t: int, i: nat)
    requires !HasType(q, t) && i < |q|
    ensures q[i].mtype != t
  {
    if i > 0 { NoneOfType(q[1..], t, i - 1); }
  }

  lemma {:induction false} RunJoins(s: State, first: seq<Event>, s1: State, rest: seq<Event>, s2: State)
    requires Run(s, first, s1) && Run(s1, rest, s2)
    ensures Run(s, first + rest, s2)
    decreases |first|
  {
    if first == [] {
      assert first + rest == rest;
    } else {
      assert (first + rest)[1..] == first[1..] + rest;
      RunJoins(Step(s, first[0]), first[1..], s1, rest, s2);
    }
  }

  lemma {:induction false} RunKeepsNames(s: State, events: seq<Event>, s': State)
    requires Run(s, events, s') && Typed(s) && NamesKnown(s)
    ensures Typed(s') && NamesKnown(s')
    decreases |events|
  {
    if events != [] {
      StepKeepsTypes(s, events[0]);
      StepNames(s, events[0]);
      RunKeepsNames(Step(s, events[0]), events[1..], s');
    }
  }

  predicate AllRouting(events: seq<Event>) { forall i :: 0 <= i < |events| ==> IsRouting(events[i]) }

  /** What the routers still have to work off. */
  function Backlog(s: State): nat {
    2 * CountType(s.server, CLIENT_MESSAGE) + 2 * CountType(s.server, GROUP_MESSAGE)
    + (if s.serverHand.Some? then 1 else 0) + (if s.groupHand.Some? then 1 else 0)
  }

  /** The members of each group, as the server finds them. */
  ghost predicate Listed(members: map<int, seq<int>>) {
    forall g :: g in members ==> forall i :: 0 <= i < |members[g]| ==> members[g][i] >= 0
  }

  function MembersOf(members: map<int, seq<int>>, g: int): seq<int> { if g in members then members[g] else [] }

  lemma OtherCount(q: seq<Msg>, k: nat, t: int)
    requires k < |q| && q[k].mtype != t
    ensures CountType(RemoveAt(q, k), t) == CountType(q, t)
  {
    assert q == q[..k] + ([q[k]] + q[k + 1..]);
    CountTypeJoins(q[..k], [q[k]] + q[k + 1..], t);
    CountTypeJoins([q[k]], q[k + 1..], t);
    CountTypeJoins(q[..k], q[k + 1..], t);
  }

  lemma TakingShrinks(s: State, e: Event)
    requires (e.Dispatch? || e.GroupTake?) && Enabled(s, e)
    ensures Backlog(Step(s, e)) < Backlog(s)
  {
    var t := if e.Dispatch? then CLIENT_MESSAGE else GROUP_MESSAGE;
    TakenCount(s.server, t);
    OtherCount(s.server, FirstOf(s.server, t), if e.Dispatch? then GROUP_MESSAGE else CLIENT_MESSAGE);
  }

  lemma CopyCounts(q: seq<Msg>, m: Msg)
    requires m.mtype >= 5000
    ensures CountType(q + [m], CLIENT_MESSAGE) == CountType(q, CLIENT_MESSAGE)
    ensures CountType(q + [m], GROUP_MESSAGE) == CountType(q, GROUP_MESSAGE)
  {
    CountTypeJoins(q, [m], CLIENT_MESSAGE);
    CountTypeJoins(q, [m], GROUP_MESSAGE);
  }

  lemma {:induction false} FanOutCounts(s: State, members: seq<int>)
    requires !s.crashed && s.groupHand.Some? && IsGroup(s, s.groupHand.value.dst)
    requires forall i :: 0 <= i < |members| ==> members[i] >= 0
    ensures Backlog(FannedOut(s, members)) == Backlog(s)
    decreases |members|
  {
    if members != [] {
      CopyCounts(s.server, ForMember(s.groupHand.value, members[0]));
      FanOutCounts(Step(s, GroupPost(members[0])), members[1..]);
    }
  }

  lemma ForwardShrinks(s: State)
    requires Enabled(s, Forward) && Typed(s)
    ensures !Step(s, Forward).crashed ==> Backlog(Step(s, Forward)) < Backlog(s)
  {
    var m := s.serverHand.value;
    if m.dst in s.registered { CopyCounts(s.server, m.(mtype := m.dst + 5000)); }
  }

  /** The group router finishes its round. */
  lemma GroupRound(s: State, us: seq<int>) returns (events: seq<Event>, s': State)
    requires Enabled(s, GroupDone) && forall i :: 0 <= i < |us| ==> us[i] >= 0
    ensures Run(s, events, s') && AllRouting(events) && (!s'.crashed ==> Backlog(s') < Backlog(s))
  {
    if IsGroup(s, s.groupHand.value.dst) {
      FanOutRuns(s, us);
      FanOutCounts(s, us);
      var s1 := FannedOut(s, us);
      s' := Step(s1, GroupDone);
      events := PostsFor(us) + [GroupDone];
      RunExtends(s, PostsFor(us), s1, GroupDone);
    } else {
      events, s' := OneStep(s, GroupDone);
    }
  }

  lemma OneStep(s: State, e: Event) returns (events: seq<Event>, s': State)
    requires Enabled(s, e)
    ensures events == [e] && s' == Step(s, e) && Run(s, events, s')
  {
    events, s' := [e], Step(s, e);
    assert events[1..] == [];
  }

  /** One of the routers takes a message, or finishes with the one it has. */
  lemma OneRound(s: State, members: map<int, seq<int>>) returns (events: seq<Event>, s': State)
    requires Typed(s) && !s.crashed && Listed(members) && Backlog(s) > 0
    ensures Run(s, events, s') && AllRouting(events) && (!s'.crashed ==> Backlog(s') < Backlog(s))
  {
    if s.serverHand.Some? {
      ForwardShrinks(s);
      events, s' := OneStep(s, Forward);
    } else if s.groupHand.Some? {
      events, s' := GroupRound(s, MembersOf(members, s.groupHand.value.dst));
    } else if CountType(s.server, CLIENT_MESSAGE) > 0 {
      CountedIsThere(s.server, CLIENT_MESSAGE);
      TakingShrinks(s, Dispatch);
      events, s' := OneStep(s, Dispatch);
    } else {
      CountedIsThere(s.server, GROUP_MESSAGE);
      TakingShrinks(s, GroupTake);
      events, s' := OneStep(s, GroupTake);
    }
  }

  lemma {:induction false} CountedIsThere(q: seq<Msg>, t: int)
    ensures CountType(q, t) > 0 <==> HasType(q, t)
  {
    if q != [] { CountedIsThere(q[1..], t); }
  }

  lemma NothingPending(s: State)
    requires Typed(s) && Backlog(s) == 0
    ensures !UnknownPending(s)
  {
    CountedIsThere(s.server, CLIENT_MESSAGE);
    CountedIsThere(s.server, GROUP_MESSAGE);
    forall i | 0 <= i < |s.server| ensures s.server[i].dst != -1 {
      NoneOfType(s.server, CLIENT_MESSAGE, i);
      NoneOfType(s.server, GROUP_MESSAGE, i);
      assert OnServer(s.log, s.server[i]);
    }
  }

  lemma {:induction false} RoutingKeepsDoom(s: State, events: seq<Event>, s': State)
    requires Run(s, events, s') && AllRouting(events) && Typed(s) && NamesKnown(s) && !s.crashed
    ensures s'.crashed || UnknownPending(s') <==> UnknownPending(s)
    decreases |events|
  {
    if events != [] {
      var s1 := Step(s, events[0]);
      RoutingDoom(s, events[0]);
      StepKeepsTypes(s, events[0]);
      StepNames(s, events[0]);
      if s1.crashed {
        CrashedStays(s1, events[1..], s');
      } else {
        RoutingKeepsDoom(s1, events[1..], s');
      }
    }
  }

  /** A dead server takes no step. */
  lemma CrashedStays(s: State, events: seq<Event>, s': State)
    requires Run(s, events, s') && AllRouting(events) && s.crashed
    ensures events == []
  {
    if events != [] { assert false; }
  }

  /** Left to themselves, the server's routers work off the posted messages, whoever the members of the groups are,
      and die on the way exactly when one of them was sent to a name nobody has. */
  lemma {:induction false} RouterDiesIffUnknown(s: State, members: map<int, seq<int>>)
    returns (events: seq<Event>, s': State)
    requires Typed(s) && NamesKnown(s) && !s.crashed && Listed(members)
    ensures Run(s, events, s') && AllRouting(events)
    ensures s'.crashed <==> UnknownPending(s)
    ensures !s'.crashed ==> Backlog(s') == 0
    decreases Backlog(s)
  {
    if Backlog(s) == 0 {
      events, s' := [], s;
      NothingPending(s);
    } else {
      events, s' := OneRound(s, members);
      RoutingKeepsDoom(s, events, s');
      if !s'.crashed {
        RunKeepsNames(s, events, s');
        var rest, s2 := RouterDiesIffUnknown(s', members);
        RunJoins(s, events, s', rest, s2);
        events, s' := events + rest, s2;
      }
    }
  }
}

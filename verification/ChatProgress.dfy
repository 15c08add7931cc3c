/** Every message between two users can be brought to its addressee. */
module ChatProgress {
  import opened ChatDelivery
  import opened ChatNames
  import opened ChatRouting
  import opened Optional

  // ---- who can do what ----

  lemma {:induction false} HasTypeIff(q: seq<Msg>, t: int)
    ensures HasType(q, t) <==> exists i :: 0 <= i < |q| && q[i].mtype == t
  {
    if HasType(q, t) { assert q[FirstOf(q, t)].mtype == t; }
    if i :| 0 <= i < |q| && q[i].mtype == t && !HasType(q, t) { NoneOfType(q, t, i); }
  }

  /** In every reachable state: every registered user can write to every registered user and to every group, a router
      can take whenever there is something for its user, and a message can be shown whenever it is in the inbox. */
  lemma WhoCanMove(events: seq<Event>, s: State, a: int, dst: int, g: int, autoDelete: int, now: int)
    requires Run(Init(), events, s)
    ensures Enabled(s, StartSend(a, dst, autoDelete, now)) <==>
            a in s.registered && (dst == -1 || dst in s.registered)
    ensures Enabled(s, SendGroup(a, g, autoDelete, now)) <==> a in s.registered && -1 <= g < s.groups
    ensures a >= 0 ==> (Enabled(s, Take(a)) <==> exists i :: 0 <= i < |s.server| && s.server[i].mtype == 5000 + a)
    ensures Enabled(s, Show(a, g)) <==> exists i :: 0 <= i < |Queue(s, a)| && Queue(s, a)[i].mtype == g
  {
    RunKeepsNames(Init(), events, s);
    HasTypeIff(s.server, a + 5000);
    HasTypeIff(Queue(s, a), g);
  }

  // ---- the senders post ----

  /** Steps that bring messages on their way, from a to b. */
  predicate Brings(e: Event, a: int, b: int, now: int) {
    e == FinishSend(a, 0) || IsRouting(e) || e == Take(b) || e == Deliver(b, 0, now)
  }

  predicate AllBring(events: seq<Event>, a: int, b: int, now: int) {
    forall i :: 0 <= i < |events| ==> Brings(events[i], a, b, now)
  }

  lemma {:induction false} SendersPost(s: State, a: int, b: int, now: int) returns (events: seq<Event>, s': State)
    ensures Run(s, events, s') && AllBring(events, a, b, now)
    ensures Sending(s', a) == [] && s'.log == s.log && s'.crashed == s.crashed && s'.expired == s.expired
    decreases |Sending(s, a)|
  {
    if Sending(s, a) == [] {
      events, s' := [], s;
    } else {
      var s1 := Step(s, FinishSend(a, 0));
      var rest, s2 := SendersPost(s1, a, b, now);
      events, s' := [FinishSend(a, 0)] + rest, s2;
      assert events[1..] == rest;
    }
  }

  // ---- the server routes ----

  lemma {:induction false} RoutingKeeps(s: State, events: seq<Event>, s': State)
    requires Run(s, events, s') && AllRouting(events)
    ensures s'.sending == s.sending && s'.log == s.log && s'.expired == s.expired
    decreases |events|
  {
    if events != [] { RoutingKeeps(Step(s, events[0]), events[1..], s'); }
  }

  /** The server has nothing of users left to route. */
  predicate Routed(s: State) { s.serverHand == None && CountType(s.server, CLIENT_MESSAGE) == 0 }

  lemma ServerRoutes(s: State, a: int, b: int, now: int) returns (events: seq<Event>, s': State)
    requires Typed(s) && NamesKnown(s) && !s.crashed && AllNamed(s.log)
    ensures Run(s, events, s') && AllBring(events, a, b, now) && Routed(s')
    ensures s'.sending == s.sending && s'.log == s.log && s'.crashed == s.crashed && s'.expired == s.expired
  {
    events, s' := RouterDiesIffUnknown(s, map[]);
    RoutingKeeps(s, events, s');
    KnownNamesNeverCrash(s, events, s');
  }

  // ---- the routers of the addressee deliver ----

  /** Nothing newly expired but what was too late at `now`. */
  ghost predicate OnlyLate(s: State, s': State, now: int) {
    forall i :: i in s'.expired && i !in s.expired ==> i < |s.log| && TooLate(s.log[i], now)
  }

  lemma DeliverFrame(s: State, b: int, now: int)
    requires Hands(s, b) != []
    ensures Enabled(s, Deliver(b, 0, now))
    ensures var s' := Step(s, Deliver(b, 0, now));
            && |Hands(s', b)| == |Hands(s, b)| - 1 && s'.server == s.server
            && s'.serverHand == s.serverHand && s'.sending == s.sending && s'.log == s.log && s'.crashed == s.crashed
  {
  }

  lemma DeliverMoves(s: State, b: int, now: int)
    requires Typed(s) && b >= 0 && Hands(s, b) != []
    ensures Enabled(s, Deliver(b, 0, now)) && OnlyLate(s, Step(s, Deliver(b, 0, now)), now)
  {
    assert InHand(s.log, b, s.hands[b][0]);
    DeliverExpires(s, b, 0, now);
  }

  lemma TakeMoves(s: State, b: int)
    requires b >= 0 && CountType(s.server, b + 5000) > 0
    ensures Enabled(s, Take(b))
    ensures var s' := Step(s, Take(b));
            && CountType(s'.server, b + 5000) == CountType(s.server, b + 5000) - 1
            && CountType(s'.server, CLIENT_MESSAGE) == CountType(s.server, CLIENT_MESSAGE)
            && |Hands(s', b)| == |Hands(s, b)| + 1 && s'.expired == s.expired
            && s'.serverHand == s.serverHand && s'.sending == s.sending && s'.log == s.log && s'.crashed == s.crashed
  {
    CountedIsThere(s.server, b + 5000);
    TakenCount(s.server, b + 5000);
    OtherCount(s.server, FirstOf(s.server, b + 5000), CLIENT_MESSAGE);
  }

  lemma {:induction false} RoutersDeliver(s: State, a: int, b: int, now: int) returns (events: seq<Event>, s': State)
    requires Typed(s) && Routed(s) && b >= 0
    ensures Run(s, events, s') && AllBring(events, a, b, now) && Routed(s') && OnlyLate(s, s', now)
    ensures CountType(s'.server, b + 5000) == 0 && Hands(s', b) == []
    ensures s'.sending == s.sending && s'.log == s.log && s'.crashed == s.crashed
    decreases 2 * CountType(s.server, b + 5000) + |Hands(s, b)|
  {
    if Hands(s, b) != [] {
      DeliverFrame(s, b, now);
      DeliverMoves(s, b, now);
      events, s' := DeliverFirst(s, Deliver(b, 0, now), a, b, now);
    } else if CountType(s.server, b + 5000) > 0 {
      TakeMoves(s, b);
      events, s' := DeliverFirst(s, Take(b), a, b, now);
    } else {
      events, s' := [], s;
    }
  }

  lemma {:induction false} DeliverFirst(s: State, e: Event, a: int, b: int, now: int)
    returns (events: seq<Event>, s': State)
    requires Typed(s) && Enabled(s, e) && Brings(e, a, b, now) && Routed(Step(s, e)) && b >= 0
    requires OnlyLate(s, Step(s, e), now)
    requires Step(s, e).sending == s.sending && Step(s, e).log == s.log && Step(s, e).crashed == s.crashed
    requires 2 * CountType(Step(s, e).server, b + 5000) + |Hands(Step(s, e), b)|
             < 2 * CountType(s.server, b + 5000) + |Hands(s, b)|
    ensures Run(s, events, s') && AllBring(events, a, b, now) && Routed(s') && OnlyLate(s, s', now)
    ensures CountType(s'.server, b + 5000) == 0 && Hands(s', b) == []
    ensures s'.sending == s.sending && s'.log == s.log && s'.crashed == s.crashed
    decreases 2 * CountType(Step(s, e).server, b + 5000) + |Hands(Step(s, e), b)| + 1, 0
  {
    StepKeepsTypes(s, e);
    var rest, s2 := RoutersDeliver(Step(s, e), a, b, now);
    events, s' := [e] + rest, s2;
    assert events[1..] == rest;
  }

  // ---- all together ----

  lemma {:induction false} NoneToRead(q: seq<Msg>, t: int, a: int, b: int)
    requires CountType(q, t) == 0
    ensures Ids(q, t, a, b) == []
  {
    if q != [] { NoneToRead(q[1..], t, a, b); }
  }

  lemma NothingOnTheWay(s: State, a: int, b: int)
    requires Sending(s, a) == [] && Routed(s) && CountType(s.server, b + 5000) == 0 && Hands(s, b) == []
    ensures Drained(WayOf(RouteOf(s, a, b), a, b))
  {
    NoneToRead(s.server, b + 5000, a, b);
    NoneToRead(s.server, CLIENT_MESSAGE, a, b);
  }

  lemma BringsJoin(s: State, e1: seq<Event>, s1: State, e2: seq<Event>, s2: State, a: int, b: int, now: int)
    requires Run(s, e1, s1) && Run(s1, e2, s2) && AllBring(e1, a, b, now) && AllBring(e2, a, b, now)
    ensures Run(s, e1 + e2, s2) && AllBring(e1 + e2, a, b, now)
  {
    RunJoins(s, e1, s1, e2, s2);
  }

  /** The senders post, then the server routes. */
  lemma PostAndRoute(s: State, a: int, b: int, now: int) returns (events: seq<Event>, s': State)
    requires Typed(s) && NamesKnown(s) && !s.crashed && AllNamed(s.log)
    ensures Run(s, events, s') && AllBring(events, a, b, now) && Typed(s')
    ensures Sending(s', a) == [] && Routed(s') && !s'.crashed && s'.log == s.log && s'.expired == s.expired
  {
    var e1, s1 := SendersPost(s, a, b, now);
    RunKeepsNames(s, e1, s1);
    var e2, s2 := ServerRoutes(s1, a, b, now);
    RunKeepsNames(s1, e2, s2);
    BringsJoin(s, e1, s1, e2, s2, a, b, now);
    events, s' := e1 + e2, s2;
  }

  /** From any living state in which every name is known. */
  lemma AllIsBrought(s: State, a: int, b: int, now: int) returns (events: seq<Event>, s': State)
    requires Typed(s) && NamesKnown(s) && !s.crashed && AllNamed(s.log) && b >= 0
    ensures Run(s, events, s') && AllBring(events, a, b, now)
    ensures Drained(WayOf(RouteOf(s', a, b), a, b))
    ensures !s'.crashed && s'.log == s.log && OnlyLate(s, s', now)
  {
    var e1, s1 := PostAndRoute(s, a, b, now);
    var e2, s2 := RoutersDeliver(s1, a, b, now);
    BringsJoin(s, e1, s1, e2, s2, a, b, now);
    NothingOnTheWay(s2, a, b);
    events, s' := e1 + e2, s2;
  }

  /** What is not on its way has arrived. */
  lemma DrainedInbox(s: State, a: int, b: int, fifo: bool)
    requires PairInv(s, a, b, fifo) && Drained(WayOf(RouteOf(s, a, b), a, b))
    ensures var inbox := WayOf(RouteOf(s, a, b), a, b).inbox;
            && multiset(inbox) == multiset(Live(Sent(s.log, a, b), s.expired))
            && (fifo ==> inbox == Live(Sent(s.log, a, b), s.expired))
  {
    var w := WayOf(RouteOf(s, a, b), a, b);
    assert Joined(w) == w.inbox;
  }

  lemma BringingIsFifo(events: seq<Event>, more: seq<Event>, a: int, b: int, now: int)
    requires AllFifo(events, a, b) && AllBring(more, a, b, now)
    ensures AllFifo(events + more, a, b)
  {
    forall e | e in events + more ensures Fifo(e, a, b) {
      if e !in events { assert Brings(e, a, b, now); }
    }
  }

  /** Every run in which nobody wrote to an unknown name goes on, by posting, routing and delivering alone, to one in
      which all that a wrote to b and that has not expired is in b's inbox for a; in the order of writing, if so far the
      hands of the two were emptied in order. Nothing expires on the way but what is too late at `now`. */
  lemma MessagesArrive(events: seq<Event>, s: State, a: int, b: int, now: int) returns (more: seq<Event>, s': State)
    requires Run(Init(), events, s) && AllNamed(s.log) && a >= 0 && b >= 0 && a != b
    ensures Run(Init(), events + more, s') && AllBring(more, a, b, now)
    ensures !s'.crashed && s'.log == s.log && OnlyLate(s, s', now)
    ensures var inbox := WayOf(RouteOf(s', a, b), a, b).inbox;
            && multiset(inbox) == multiset(Live(Sent(s.log, a, b), s'.expired))
            && (AllFifo(events, a, b) ==> inbox == Live(Sent(s.log, a, b), s'.expired))
  {
    RunKeepsNames(Init(), events, s);
    KnownNamesNeverCrash(Init(), events, s);
    more, s' := AllIsBrought(s, a, b, now);
    RunJoins(Init(), events, s, more, s');
    InitKeepsInv(a, b);
    if AllFifo(events, a, b) { BringingIsFifo(events, more, a, b, now); }
    RunKeepsInv(Init(), events + more, s', a, b, AllFifo(events, a, b));
    DrainedInbox(s', a, b, AllFifo(events, a, b));
  }
}

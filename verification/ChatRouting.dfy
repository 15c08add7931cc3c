/** Message routing of the chat over System V queues: a sender copies a message into its own queue and
    posts it to the server queue, the server relabels it for the addressee, a router of the addressee relabels
    it again into a queue per peer. Every msgsnd and every msgrcv is a step of its own. Each process that reads
    runs a router and each process that writes is a sender, so a user may have any number of both. */
module ChatRouting {
  import opened Optional

  // the protocols of message.h, which double as types on the server queue
  const CLIENT_MESSAGE := 1
  const GROUP_MESSAGE := 2
  const MAX := 1024

  /** `id` stands for the text: the position of the message in the log. */
  datatype Msg = Msg(mtype: int, protocol: int, src: int, dst: int, autoDelete: int, timestamp: int, id: nat)

  /** What a user typed: from whom, to which user or group, for how long it is to live, and when. */
  datatype Letter =
    | Letter(src: int, dst: int, autoDelete: int, timestamp: int)
    | ToGroup(src: int, dst: int, autoDelete: int, timestamp: int)

  predicate IsBetween(l: Letter, a: int, b: int) { l.Letter? && l.src == a && l.dst == b }

  /** `hands` and `sending` are what the routers and the senders of a user hold, the oldest first. `crashed`: a router
      of the server has used what a lookup did not find. */
  datatype State = State(
    registered: set<int>,
    groups: nat,
    server: seq<Msg>,
    serverHand: Option<Msg>,
    groupHand: Option<Msg>,
    crashed: bool,
    queues: map<int, seq<Msg>>,
    hands: map<int, seq<Msg>>,
    sending: map<int, seq<Msg>>,
    shown: map<int, seq<Msg>>,
    // bookkeeping
    log: seq<Letter>,
    expired: set<nat>)

  datatype Event =
    | Register(uid: int)
    | CreateGroup
    | StartSend(src: int, dst: int, autoDelete: int, now: int)
    | FinishSend(src: int, index: nat)
    | SendGroup(src: int, gid: int, autoDelete: int, now: int)
    | Dispatch
    | Forward
    | GroupTake
    | GroupPost(uid: int)
    | GroupDone
    | Take(uid: int)
    | Deliver(uid: int, index: nat, now: int)
    | Show(uid: int, mtype: int)

  function Held(boxes: map<int, seq<Msg>>, u: int): seq<Msg> { if u in boxes then boxes[u] else [] }

  function Queue(s: State, u: int): seq<Msg> { Held(s.queues, u) }

  function Shown(s: State, u: int): seq<Msg> { Held(s.shown, u) }

  function Hands(s: State, u: int): seq<Msg> { Held(s.hands, u) }

  function Sending(s: State, u: int): seq<Msg> { Held(s.sending, u) }

  function Init(): State {
    State({}, 0, [], None, None, false, map[], map[], map[], map[], [], {})
  }

  // ---- msgrcv ----

  /** msgrcv takes the first message of a type. */
  function FirstOf(q: seq<Msg>, t: int): (k: nat)
    ensures k <= |q| && (k < |q| ==> q[k].mtype == t)
  {
    if q == [] || q[0].mtype == t then 0 else 1 + FirstOf(q[1..], t)
  }

  function RemoveAt(q: seq<Msg>, k: nat): seq<Msg>
    requires k < |q|
  {
    q[..k] + q[k + 1..]
  }

  predicate HasType(q: seq<Msg>, t: int) { FirstOf(q, t) < |q| }

  // ---- steps ----

  predicate IsGroup(s: State, gid: int) { 0 <= gid < s.groups }

  predicate Enabled(s: State, e: Event) {
    match e
    case Register(u) => !s.crashed && u >= 0
    case CreateGroup => !s.crashed && s.groups < MAX
    // clients register first; get_cid and get_gid give the id of a client or a group, or -1 for a name nobody has
    case StartSend(a, dst, _, _) => a >= 0 && a in s.registered && (dst == -1 || (dst >= 0 && dst in s.registered))
    case FinishSend(a, k) => k < |Sending(s, a)|
    case SendGroup(a, gid, _, _) => a >= 0 && a in s.registered && (gid == -1 || IsGroup(s, gid))
    case Dispatch => !s.crashed && s.serverHand == None && HasType(s.server, CLIENT_MESSAGE)
    case Forward => !s.crashed && s.serverHand.Some?
    case GroupTake => !s.crashed && s.groupHand == None && HasType(s.server, GROUP_MESSAGE)
    case GroupPost(u) => !s.crashed && s.groupHand.Some? && IsGroup(s, s.groupHand.value.dst) && u >= 0
    case GroupDone => !s.crashed && s.groupHand.Some?
    case Take(u) => u >= 0 && HasType(s.server, u + 5000)
    case Deliver(u, k, _) => k < |Hands(s, u)|
    case Show(u, t) => HasType(Queue(s, u), t)
  }

  predicate IsExpired(m: Msg, now: int) { m.autoDelete > 0 && now - m.timestamp > m.autoDelete }

  /** handle_messages relabels by protocol. */
  function Relabelled(m: Msg): Msg {
    m.(mtype := if m.protocol == GROUP_MESSAGE then 5000 + m.dst else 10000 + m.src)
  }

  /** One message of the fan-out. */
  function ForMember(m: Msg, u: int): Msg { m.(mtype := u + 5000, protocol := GROUP_MESSAGE) }

  function Step(s: State, e: Event): State
    requires Enabled(s, e)
  {
    match e
    case Register(u) => s.(registered := s.registered + {u})
    case CreateGroup => s.(groups := s.groups + 1)
    case StartSend(a, dst, autoDelete, now) =>
      var m := Msg(CLIENT_MESSAGE, CLIENT_MESSAGE, a, dst, autoDelete, now, |s.log|);
      s.(queues := s.queues[a := Queue(s, a) + [m.(mtype := dst + 10000)]],
         sending := s.sending[a := Sending(s, a) + [m]], log := s.log + [Letter(a, dst, autoDelete, now)])
    case FinishSend(a, k) =>
      s.(server := s.server + [Sending(s, a)[k]], sending := s.sending[a := RemoveAt(Sending(s, a), k)])
    case SendGroup(a, gid, autoDelete, now) =>
      s.(server := s.server + [Msg(GROUP_MESSAGE, GROUP_MESSAGE, a, gid, autoDelete, now, |s.log|)],
         log := s.log + [ToGroup(a, gid, autoDelete, now)])
    case Dispatch =>
      var k := FirstOf(s.server, CLIENT_MESSAGE);
      s.(serverHand := Some(s.server[k]), server := RemoveAt(s.server, k))
    case Forward =>
      var m := s.serverHand.value;
      if m.dst !in s.registered then s.(crashed := true)
      else s.(server := s.server + [m.(mtype := m.dst + 5000, protocol := CLIENT_MESSAGE)], serverHand := None)
    case GroupTake =>
      var k := FirstOf(s.server, GROUP_MESSAGE);
      s.(groupHand := Some(s.server[k]), server := RemoveAt(s.server, k))
    case GroupPost(u) => s.(server := s.server + [ForMember(s.groupHand.value, u)])
    case GroupDone => if IsGroup(s, s.groupHand.value.dst) then s.(groupHand := None) else s.(crashed := true)
    case Take(u) =>
      var k := FirstOf(s.server, u + 5000);
      s.(hands := s.hands[u := Hands(s, u) + [s.server[k]]], server := RemoveAt(s.server, k))
    case Deliver(u, k, now) =>
      var m := Hands(s, u)[k];
      var s1 := s.(hands := s.hands[u := RemoveAt(Hands(s, u), k)]);
      if IsExpired(m, now) then
        (if m.protocol == CLIENT_MESSAGE then s1.(expired := s.expired + {m.id}) else s1)
      else s1.(queues := s.queues[u := Queue(s, u) + [Relabelled(m)]])
    case Show(u, t) =>
      var k := FirstOf(Queue(s, u), t);
      s.(shown := s.shown[u := Shown(s, u) + [Queue(s, u)[k]]], queues := s.queues[u := RemoveAt(Queue(s, u), k)])
  }

  ghost predicate Run(s: State, events: seq<Event>, s': State)
    decreases |events|
  {
    if events == [] then s' == s
    else Enabled(s, events[0]) && Run(Step(s, events[0]), events[1..], s')
  }

  /** send_group_message: one message after the other, for each member. */
  function FannedOut(s: State, members: seq<int>): (s': State)
    requires !s.crashed && s.groupHand.Some? && IsGroup(s, s.groupHand.value.dst)
    requires forall i :: 0 <= i < |members| ==> members[i] >= 0
    ensures s' == s.(server := s'.server)
    decreases |members|
  {
    if members == [] then s else FannedOut(Step(s, GroupPost(members[0])), members[1..])
  }

  function PostsFor(members: seq<int>): seq<Event> {
    seq(|members|, i requires 0 <= i < |members| => GroupPost(members[i]))
  }

  lemma {:induction false} FanOutRuns(s: State, members: seq<int>)
    requires !s.crashed && s.groupHand.Some? && IsGroup(s, s.groupHand.value.dst)
    requires forall i :: 0 <= i < |members| ==> members[i] >= 0
    ensures Run(s, PostsFor(members), FannedOut(s, members))
    decreases |members|
  {
    if members != [] {
      assert PostsFor(members)[1..] == PostsFor(members[1..]);
      FanOutRuns(Step(s, GroupPost(members[0])), members[1..]);
    }
  }

  lemma {:induction false} FansOutOneMore(s: State, members: seq<int>, u: int)
    requires !s.crashed && s.groupHand.Some? && IsGroup(s, s.groupHand.value.dst) && u >= 0
    requires forall i :: 0 <= i < |members| ==> members[i] >= 0
    ensures FannedOut(s, members + [u]) == Step(FannedOut(s, members), GroupPost(u))
    decreases |members|
  {
    if members == [] {
      assert [u][1..] == [];
    } else {
      assert (members + [u])[1..] == members[1..] + [u];
      FansOutOneMore(Step(s, GroupPost(members[0])), members[1..], u);
    }
  }

  /** The senders of a post in the order in which they copied, the routers of b deliver in the order in which they took:
      always so when a has one sender and b one router. Nobody else matters. */
  predicate Fifo(e: Event, a: int, b: int) {
    (e.FinishSend? && e.src == a) || (e.Deliver? && e.uid == b) ==> e.index == 0
  }

  predicate AllFifo(events: seq<Event>, a: int, b: int) { forall e :: e in events ==> Fifo(e, a, b) }

  // ---- where a message from a to b can be ----

  predicate Matches(m: Msg, t: int, a: int, b: int) {
    m.mtype == t && m.protocol == CLIENT_MESSAGE && m.src == a && m.dst == b
  }

  /** The messages from a to b of a type on a queue, in order. */
  function Ids(q: seq<Msg>, t: int, a: int, b: int): seq<nat> {
    if q == [] then [] else OneId(q[0], t, a, b) + Ids(q[1..], t, a, b)
  }

  function OneId(m: Msg, t: int, a: int, b: int): seq<nat> { if Matches(m, t, a, b) then [m.id] else [] }

  function HeldId(h: Option<Msg>, t: int, a: int, b: int): seq<nat> {
    if h.Some? then OneId(h.value, t, a, b) else []
  }

  /** The parts of the state that a message from a to b can be in. */
  datatype Route = Route(shownA: seq<Msg>, queueA: seq<Msg>, shownB: seq<Msg>, queueB: seq<Msg>, handsB: seq<Msg>,
                         server: seq<Msg>, serverHand: Option<Msg>, sendingA: seq<Msg>)

  function RouteOf(s: State, a: int, b: int): Route {
    Route(Shown(s, a), Queue(s, a), Shown(s, b), Queue(s, b), Hands(s, b), s.server, s.serverHand, Sending(s, a))
  }

  /** All that a ever sent to b. */
  function Sent(log: seq<Letter>, a: int, b: int): seq<nat> {
    if log == [] then [] else
      Sent(log[..|log| - 1], a, b) + if IsBetween(log[|log| - 1], a, b) then [|log| - 1] else []
  }

  function Live(ids: seq<nat>, expired: set<nat>): seq<nat> {
    if ids == [] then []
    else if ids[0] in expired then Live(ids[1..], expired)
    else [ids[0]] + Live(ids[1..], expired)
  }

  /** Where the messages from a to b are: the sender's own copies, and the way from the addressee's inbox
      back to the sender's hand. */
  datatype Way = Way(copies: seq<nat>, inbox: seq<nat>, hand: seq<nat>, addressed: seq<nat>, serverHand: seq<nat>,
                     posted: seq<nat>, sending: seq<nat>)

  function WayOf(r: Route, a: int, b: int): Way {
    Way(Ids(r.shownA, 10000 + b, a, b) + Ids(r.queueA, 10000 + b, a, b),
        Ids(r.shownB, 10000 + a, a, b) + Ids(r.queueB, 10000 + a, a, b),
        Ids(r.handsB, b + 5000, a, b),
        Ids(r.server, b + 5000, a, b),
        HeldId(r.serverHand, CLIENT_MESSAGE, a, b),
        Ids(r.server, CLIENT_MESSAGE, a, b),
        Ids(r.sendingA, CLIENT_MESSAGE, a, b))
  }

  function Joined(w: Way): seq<nat> { w.inbox + w.hand + w.addressed + w.serverHand + w.posted + w.sending }

  /** The sender's own copies are its sent messages, in order; the unexpired ones are on their way, each once, and
      in order if the steps were. */
  ghost predicate Conserved(w: Way, sent: seq<nat>, expired: set<nat>, fifo: bool) {
    && w.copies == sent && multiset(Joined(w)) == multiset(Live(sent, expired))
    && (fifo ==> Joined(w) == Live(sent, expired))
  }

  ghost predicate PairInv(s: State, a: int, b: int, fifo: bool) {
    Conserved(WayOf(RouteOf(s, a, b), a, b), Sent(s.log, a, b), s.expired, fifo)
  }

  // ---- types ----

  predicate Logged(log: seq<Letter>, m: Msg) {
    m.id < |log| && log[m.id] == Letter(m.src, m.dst, m.autoDelete, m.timestamp) && m.src >= 0 && m.dst >= -1
  }

  predicate GroupLogged(log: seq<Letter>, m: Msg) {
    && m.id < |log| && log[m.id] == ToGroup(m.src, m.dst, m.autoDelete, m.timestamp)
    && m.src >= 0 && -1 <= m.dst < MAX
  }

  predicate IsPosted(log: seq<Letter>, m: Msg) {
    m.protocol == CLIENT_MESSAGE && m.mtype == CLIENT_MESSAGE && Logged(log, m)
  }

  predicate IsGroupPosted(log: seq<Letter>, m: Msg) {
    m.protocol == GROUP_MESSAGE && m.mtype == GROUP_MESSAGE && GroupLogged(log, m)
  }

  /** Group traffic keeps its group as destination. */
  predicate GroupTyped(log: seq<Letter>, m: Msg) { m.protocol == GROUP_MESSAGE && GroupLogged(log, m) && m.dst >= 0 }

  predicate OnServer(log: seq<Letter>, m: Msg) {
    || IsPosted(log, m)
    || IsGroupPosted(log, m)
    || (m.protocol == CLIENT_MESSAGE && Logged(log, m) && m.dst >= 0 && m.mtype == m.dst + 5000)
    || (GroupTyped(log, m) && m.mtype >= 5000)
  }

  predicate InHand(log: seq<Letter>, u: int, m: Msg) {
    m.mtype == u + 5000 && u >= 0 && OnServer(log, m)
  }

  predicate OnUser(log: seq<Letter>, u: int, m: Msg) {
    || (m.protocol == CLIENT_MESSAGE && Logged(log, m) && m.src == u && m.mtype == 10000 + m.dst)
    || (m.protocol == CLIENT_MESSAGE && Logged(log, m) && m.dst == u && m.mtype == 10000 + m.src)
    || (GroupTyped(log, m) && m.mtype == 5000 + m.dst)
  }

  ghost predicate AllOnServer(log: seq<Letter>, q: seq<Msg>) {
    forall i :: 0 <= i < |q| ==> OnServer(log, q[i])
  }

  ghost predicate AllOnUser(log: seq<Letter>, u: int, q: seq<Msg>) {
    forall i :: 0 <= i < |q| ==> OnUser(log, u, q[i])
  }

  ghost predicate AllInHand(log: seq<Letter>, u: int, q: seq<Msg>) {
    forall i :: 0 <= i < |q| ==> InHand(log, u, q[i])
  }

  ghost predicate AllFrom(log: seq<Letter>, u: int, q: seq<Msg>) {
    forall i :: 0 <= i < |q| ==> IsPosted(log, q[i]) && q[i].src == u
  }

  ghost predicate InboxesTyped(log: seq<Letter>, boxes: map<int, seq<Msg>>) {
    forall u :: u in boxes ==> AllOnUser(log, u, boxes[u])
  }

  ghost predicate HandsTyped(log: seq<Letter>, hands: map<int, seq<Msg>>) {
    forall u :: u in hands ==> AllInHand(log, u, hands[u])
  }

  ghost predicate SendingTyped(log: seq<Letter>, sending: map<int, seq<Msg>>) {
    forall u :: u in sending ==> AllFrom(log, u, sending[u])
  }

  ghost predicate Typed(s: State) {
    && AllOnServer(s.log, s.server) && s.groups <= MAX
    && (s.serverHand.Some? ==> IsPosted(s.log, s.serverHand.value))
    && (s.groupHand.Some? ==> IsGroupPosted(s.log, s.groupHand.value))
    && HandsTyped(s.log, s.hands) && SendingTyped(s.log, s.sending)
    && InboxesTyped(s.log, s.queues) && InboxesTyped(s.log, s.shown)
    && (forall i :: i in s.expired ==> i < |s.log|)
    && forall u :: u in s.registered ==> u >= 0
  }

  // ---- queues ----

  lemma {:induction false} IdsJoin(p: seq<Msg>, q: seq<Msg>, t: int, a: int, b: int)
    ensures Ids(p + q, t, a, b) == Ids(p, t, a, b) + Ids(q, t, a, b)
  {
    if p == [] {
      assert p + q == q;
    } else {
      assert (p + q)[1..] == p[1..] + q;
      IdsJoin(p[1..], q, t, a, b);
    }
  }

  lemma IdsAppend(q: seq<Msg>, m: Msg, t: int, a: int, b: int)
    ensures Ids(q + [m], t, a, b) == Ids(q, t, a, b) + OneId(m, t, a, b)
  {
    IdsJoin(q, [m], t, a, b);
    assert [m][1..] == [];
  }

  /** The ids around the k-th message. */
  lemma IdsRemove(q: seq<Msg>, k: nat, t: int, a: int, b: int) returns (front: seq<nat>, back: seq<nat>)
    requires k < |q|
    ensures Ids(q, t, a, b) == front + OneId(q[k], t, a, b) + back
    ensures Ids(RemoveAt(q, k), t, a, b) == front + back
    ensures k == 0 ==> front == []
  {
    front, back := Ids(q[..k], t, a, b), Ids(q[k + 1..], t, a, b);
    assert q == q[..k] + [q[k]] + q[k + 1..];
    IdsJoin(q[..k] + [q[k]], q[k + 1..], t, a, b);
    IdsAppend(q[..k], q[k], t, a, b);
    IdsJoin(q[..k], q[k + 1..], t, a, b);
  }

  lemma FirstStep(q: seq<Msg>, t: int)
    requires HasType(q, t) && q[0].mtype != t
    ensures HasType(q[1..], t) && FirstOf(q, t) == FirstOf(q[1..], t) + 1
    ensures RemoveAt(q, FirstOf(q, t)) == [q[0]] + RemoveAt(q[1..], FirstOf(q[1..], t))
  {
  }

  lemma IdsCons(m: Msg, q: seq<Msg>, t: int, a: int, b: int)
    ensures Ids([m] + q, t, a, b) == OneId(m, t, a, b) + Ids(q, t, a, b)
  {
    assert ([m] + q)[1..] == q;
  }

  /** Taking the first of a type takes the first of its ids, and leaves the other types alone. */
  lemma {:induction false} IdsTake(q: seq<Msg>, taken: int, t: int, a: int, b: int)
    requires HasType(q, taken)
    ensures var k := FirstOf(q, taken); Ids(q, t, a, b) == OneId(q[k], t, a, b) + Ids(RemoveAt(q, k), t, a, b)
  {
    var k := FirstOf(q, taken);
    if q[0].mtype == taken {
      assert RemoveAt(q, k) == q[1..];
    } else {
      FirstStep(q, taken);
      IdsTake(q[1..], taken, t, a, b);
      IdsCons(q[0], RemoveAt(q[1..], k - 1), t, a, b);
    }
  }

  lemma Associates(x: seq<nat>, y: seq<nat>, z: seq<nat>)
    ensures x + y + z == x + (y + z)
  {
  }

  // ---- moving along the pipeline ----

  /** A step that loses nothing, and keeps the order if it is asked to. */
  ghost predicate Moves(w: Way, w': Way, fifo: bool) {
    w'.copies == w.copies && multiset(Joined(w')) == multiset(Joined(w)) && (fifo ==> Joined(w') == Joined(w))
  }

  /** The steps that carry a message along in order. */
  ghost predicate Hops(w: Way, w': Way) {
    || w' == w
    || (w.serverHand == [] && w.posted == w'.serverHand + w'.posted
        && w' == w.(posted := w'.posted, serverHand := w'.serverHand))
    || w' == w.(addressed := w.addressed + w.serverHand, serverHand := [])
  }

  lemma HopMoves(w: Way, w': Way)
    requires Hops(w, w')
    ensures Moves(w, w', true)
  {
    assert Joined(w') == Joined(w);
  }

  /** A router takes the oldest message into its hand. */
  lemma TakeMoves(w: Way, x: seq<nat>, rest: seq<nat>)
    requires w.addressed == x + rest
    ensures Moves(w, w.(hand := w.hand + x, addressed := rest), true)
  {
    var w' := w.(hand := w.hand + x, addressed := rest);
    assert Joined(w') == Joined(w);
  }

  lemma PostMoves(w: Way, front: seq<nat>, x: seq<nat>, back: seq<nat>, fifo: bool)
    requires w.sending == front + x + back && (fifo ==> front == [])
    ensures Moves(w, w.(posted := w.posted + x, sending := front + back), fifo)
  {
    var w' := w.(posted := w.posted + x, sending := front + back);
    JoinedToSending(w);
    JoinedToSending(w');
    Regroups(BeforePosted(w), w.posted, x);
    MovesLast(BeforePosted(w) + w.posted, front, x, back);
  }

  function BeforePosted(w: Way): seq<nat> { w.inbox + w.hand + w.addressed + w.serverHand }

  lemma JoinedToSending(w: Way)
    ensures Joined(w) == BeforePosted(w) + w.posted + w.sending
  {
  }

  lemma Regroups(p: seq<nat>, q: seq<nat>, x: seq<nat>)
    ensures p + (q + x) == p + q + x
  {
  }

  lemma MovesLast(before: seq<nat>, front: seq<nat>, x: seq<nat>, back: seq<nat>)
    ensures multiset(before + x + (front + back)) == multiset(before + (front + x + back))
    ensures front == [] ==> before + x + (front + back) == before + (front + x + back)
  {
  }

  lemma HandMoves(w: Way, front: seq<nat>, x: seq<nat>, back: seq<nat>, fifo: bool)
    requires w.hand == front + x + back && (fifo ==> front == [])
    ensures Moves(w, w.(inbox := w.inbox + x, hand := front + back), fifo)
  {
    var w' := w.(inbox := w.inbox + x, hand := front + back);
    JoinedAroundHand(w);
    JoinedAroundHand(w');
    MovesForward(w.inbox, front, x, back, AfterHand(w));
  }

  function AfterHand(w: Way): seq<nat> { w.addressed + w.serverHand + w.posted + w.sending }

  lemma JoinedAroundHand(w: Way)
    ensures Joined(w) == w.inbox + w.hand + AfterHand(w)
  {
  }

  lemma MovesForward(before: seq<nat>, front: seq<nat>, x: seq<nat>, back: seq<nat>, after: seq<nat>)
    ensures multiset(before + x + (front + back) + after) == multiset(before + (front + x + back) + after)
    ensures front == [] ==> before + x + (front + back) + after == before + (front + x + back) + after
  {
  }

  lemma MoveConserves(w: Way, w': Way, sent: seq<nat>, expired: set<nat>, fifo: bool)
    requires Moves(w, w', fifo) && Conserved(w, sent, expired, fifo)
    ensures Conserved(w', sent, expired, fifo)
  {
  }

  lemma SendConserves(w: Way, w': Way, sent: seq<nat>, expired: set<nat>, x: nat, fifo: bool)
    requires Conserved(w, sent, expired, fifo) && x !in expired
    requires w' == w.(copies := w.copies + [x], sending := w.sending + [x])
    ensures Conserved(w', sent + [x], expired, fifo)
  {
    LiveAppend(sent, x, expired);
    assert Joined(w') == Joined(w) + [x];
  }

  /** A message expires wherever it is in the hands. */
  lemma ExpiryConserves(w: Way, sent: seq<nat>, expired: set<nat>, front: seq<nat>, x: nat, back: seq<nat>, fifo: bool)
    requires Conserved(w, sent, expired, fifo) && Distinct(sent) && w.hand == front + [x] + back
    ensures Conserved(w.(hand := front + back), sent, expired + {x}, fifo)
  {
    var w' := w.(hand := front + back);
    var before, after := w.inbox + front, back + AfterHand(w);
    JoinedAroundHand(w);
    JoinedAroundHand(w');
    TakenOut(w.inbox, front, x, back, AfterHand(w));
    LiveDistinct(sent, expired);
    LiveDropsOne(sent, expired, x);
    DistinctOnce(Live(sent, expired), x);
    OnlyOneOut(multiset(Joined(w)), multiset(Joined(w')), x);
    if fifo { LiveDrops(sent, expired, x, before, after); }
  }

  lemma TakenOut(p: seq<nat>, front: seq<nat>, x: nat, back: seq<nat>, q: seq<nat>)
    ensures p + (front + [x] + back) + q == (p + front) + [x] + (back + q)
    ensures p + (front + back) + q == (p + front) + (back + q)
    ensures multiset(p + (front + [x] + back) + q) == multiset(p + (front + back) + q) + multiset{x}
  {
  }

  lemma OnlyOneOut(all: multiset<nat>, rest: multiset<nat>, x: nat)
    requires all == rest + multiset{x} && all[x] <= 1
    ensures rest == all[x := 0]
  {
  }

  // ---- the log ----

  lemma {:induction false} SentFacts(log: seq<Letter>, a: int, b: int, i: nat)
    ensures i in Sent(log, a, b) <==> i < |log| && IsBetween(log[i], a, b)
  {
    if log != [] { SentFacts(log[..|log| - 1], a, b, i); }
  }

  ghost predicate Distinct(ids: seq<nat>) { forall i, j :: 0 <= i < j < |ids| ==> ids[i] != ids[j] }

  lemma {:induction false} SentDistinct(log: seq<Letter>, a: int, b: int)
    ensures Distinct(Sent(log, a, b))
  {
    if log != [] {
      var n := |log| - 1;
      SentDistinct(log[..n], a, b);
      SentFacts(log[..n], a, b, n);
    }
  }

  lemma SentAppend(log: seq<Letter>, l: Letter, a: int, b: int)
    ensures Sent(log + [l], a, b) == Sent(log, a, b) + if IsBetween(l, a, b) then [|log|] else []
  {
    assert (log + [l])[..|log|] == log;
  }

  lemma {:induction false} LiveAppend(ids: seq<nat>, x: nat, expired: set<nat>)
    ensures Live(ids + [x], expired) == Live(ids, expired) + if x in expired then [] else [x]
  {
    if ids == [] {
      assert [x][1..] == [];
    } else {
      assert (ids + [x])[1..] == ids[1..] + [x];
      LiveAppend(ids[1..], x, expired);
    }
  }

  lemma {:induction false} LiveMembers(ids: seq<nat>, expired: set<nat>, x: nat)
    ensures x in Live(ids, expired) <==> x in ids && x !in expired
  {
    if ids != [] {
      LiveMembers(ids[1..], expired, x);
      assert x in ids <==> x == ids[0] || x in ids[1..];
    }
  }

  lemma {:induction false} LiveUnchanged(ids: seq<nat>, expired: set<nat>, x: nat)
    requires x !in ids
    ensures Live(ids, expired + {x}) == Live(ids, expired)
  {
    if ids != [] { LiveUnchanged(ids[1..], expired, x); }
  }

  lemma {:induction false} LiveTwice(ids: seq<nat>, expired: set<nat>, x: nat)
    ensures Live(ids, expired + {x}) == Live(Live(ids, expired), {x})
  {
    if ids != [] {
      LiveTwice(ids[1..], expired, x);
      if ids[0] !in expired {
        assert ([ids[0]] + Live(ids[1..], expired))[1..] == Live(ids[1..], expired);
      }
    }
  }

  lemma {:induction false} LiveDistinct(ids: seq<nat>, expired: set<nat>)
    requires Distinct(ids)
    ensures Distinct(Live(ids, expired))
  {
    if ids != [] {
      LiveDistinct(ids[1..], expired);
      LiveMembers(ids[1..], expired, ids[0]);
    }
  }

  lemma {:induction false} LiveAll(ids: seq<nat>, x: nat)
    requires x !in ids
    ensures Live(ids, {x}) == ids
  {
    if ids != [] { LiveAll(ids[1..], x); }
  }

  lemma {:induction false} LiveRemoves(front: seq<nat>, x: nat, back: seq<nat>)
    requires x !in front && x !in back
    ensures Live(front + [x] + back, {x}) == front + back
  {
    var all := front + [x] + back;
    if front == [] {
      assert all[1..] == back;
      LiveAll(back, x);
    } else {
      assert all[1..] == front[1..] + [x] + back;
      LiveRemoves(front[1..], x, back);
      assert front + back == [front[0]] + (front[1..] + back);
    }
  }

  lemma DistinctApart(front: seq<nat>, x: nat, back: seq<nat>)
    requires Distinct(front + [x] + back)
    ensures x !in front && x !in back
  {
    var all := front + [x] + back;
    assert all[|front|] == x;
    assert forall i :: 0 <= i < |front| ==> all[i] == front[i];
    assert forall i :: 0 <= i < |back| ==> all[|front| + 1 + i] == back[i];
  }

  /** One more expiry takes exactly that message out of the order. */
  lemma LiveDrops(ids: seq<nat>, expired: set<nat>, x: nat, front: seq<nat>, back: seq<nat>)
    requires Distinct(ids) && Live(ids, expired) == front + [x] + back
    ensures Live(ids, expired + {x}) == front + back
  {
    LiveTwice(ids, expired, x);
    LiveDistinct(ids, expired);
    DistinctApart(front, x, back);
    LiveRemoves(front, x, back);
  }

  /** Of distinct messages, an expired one was there once. */
  lemma {:induction false} DistinctOnce(ids: seq<nat>, x: nat)
    requires Distinct(ids)
    ensures multiset(ids)[x] == if x in ids then 1 else 0
  {
    if ids != [] {
      assert ids == [ids[0]] + ids[1..];
      DistinctOnce(ids[1..], x);
    }
  }

  lemma {:induction false} LiveBag(ids: seq<nat>, x: nat)
    ensures multiset(Live(ids, {x})) == multiset(ids)[x := 0]
  {
    if ids != [] {
      assert ids == [ids[0]] + ids[1..];
      LiveBag(ids[1..], x);
    }
  }

  lemma LiveDropsOne(ids: seq<nat>, expired: set<nat>, x: nat)
    ensures multiset(Live(ids, expired + {x})) == multiset(Live(ids, expired))[x := 0]
  {
    LiveTwice(ids, expired, x);
    LiveBag(Live(ids, expired), x);
  }

  // ---- one part of the route changes ----

  lemma ServerGrows(r: Route, m: Msg, a: int, b: int)
    ensures var w := WayOf(r, a, b);
            WayOf(r.(server := r.server + [m]), a, b) ==
            w.(addressed := w.addressed + OneId(m, b + 5000, a, b), posted := w.posted + OneId(m, CLIENT_MESSAGE, a, b))
  {
    IdsAppend(r.server, m, b + 5000, a, b);
    IdsAppend(r.server, m, CLIENT_MESSAGE, a, b);
  }

  lemma ServerTaken(r: Route, t: int, a: int, b: int)
    requires HasType(r.server, t)
    ensures var k := FirstOf(r.server, t);
            var w, w' := WayOf(r, a, b), WayOf(r.(server := RemoveAt(r.server, k)), a, b);
            && w' == w.(addressed := w'.addressed, posted := w'.posted)
            && w.addressed == OneId(r.server[k], b + 5000, a, b) + w'.addressed
            && w.posted == OneId(r.server[k], CLIENT_MESSAGE, a, b) + w'.posted
  {
    IdsTake(r.server, t, b + 5000, a, b);
    IdsTake(r.server, t, CLIENT_MESSAGE, a, b);
  }

  lemma QueuesGrow(r: Route, m: Msg, a: int, b: int)
    ensures var w := WayOf(r, a, b);
            && WayOf(r.(queueA := r.queueA + [m]), a, b) == w.(copies := w.copies + OneId(m, 10000 + b, a, b))
            && WayOf(r.(queueB := r.queueB + [m]), a, b) == w.(inbox := w.inbox + OneId(m, 10000 + a, a, b))
  {
    IdsAppend(r.queueA, m, 10000 + b, a, b);
    IdsAppend(r.queueB, m, 10000 + a, a, b);
    Associates(Ids(r.shownA, 10000 + b, a, b), Ids(r.queueA, 10000 + b, a, b), OneId(m, 10000 + b, a, b));
    Associates(Ids(r.shownB, 10000 + a, a, b), Ids(r.queueB, 10000 + a, a, b), OneId(m, 10000 + a, a, b));
  }

  lemma ServerHandChanges(r: Route, h: Option<Msg>, a: int, b: int)
    ensures WayOf(r.(serverHand := h), a, b) == WayOf(r, a, b).(serverHand := HeldId(h, CLIENT_MESSAGE, a, b))
  {
  }

  // ---- one step of the route ----

  /** A message reaches the server queue that is neither posted nor addressed by a to b. */
  lemma ServerStays(r: Route, m: Msg, a: int, b: int)
    requires !Matches(m, b + 5000, a, b) && !Matches(m, CLIENT_MESSAGE, a, b)
    ensures WayOf(r.(server := r.server + [m]), a, b) == WayOf(r, a, b)
  {
    ServerGrows(r, m, a, b);
    var w := WayOf(r, a, b);
    assert w.addressed + [] == w.addressed && w.posted + [] == w.posted;
  }

  lemma SenderPosts(r: Route, k: nat, a: int, b: int, fifo: bool)
    requires k < |r.sendingA| && r.sendingA[k].mtype == CLIENT_MESSAGE && b >= 0 && (fifo ==> k == 0)
    ensures var r' := r.(server := r.server + [r.sendingA[k]], sendingA := RemoveAt(r.sendingA, k));
            Moves(WayOf(r, a, b), WayOf(r', a, b), fifo)
  {
    var m, w := r.sendingA[k], WayOf(r, a, b);
    var front, back := IdsRemove(r.sendingA, k, CLIENT_MESSAGE, a, b);
    ServerGrows(r, m, a, b);
    assert w.addressed + [] == w.addressed;
    PostMoves(w, front, OneId(m, CLIENT_MESSAGE, a, b), back, fifo);
  }

  lemma DispatchHops(r: Route, a: int, b: int)
    requires HasType(r.server, CLIENT_MESSAGE) && r.serverHand == None && b >= 0
    ensures var k := FirstOf(r.server, CLIENT_MESSAGE);
            Hops(WayOf(r, a, b), WayOf(r.(server := RemoveAt(r.server, k), serverHand := Some(r.server[k])), a, b))
  {
    var k := FirstOf(r.server, CLIENT_MESSAGE);
    ServerTaken(r, CLIENT_MESSAGE, a, b);
    ServerHandChanges(r.(server := RemoveAt(r.server, k)), Some(r.server[k]), a, b);
  }

  lemma ForwardHops(r: Route, m: Msg, a: int, b: int)
    requires r.serverHand == Some(m) && m.protocol == CLIENT_MESSAGE && m.mtype == CLIENT_MESSAGE && m.dst >= 0
    ensures Hops(WayOf(r, a, b), WayOf(r.(server := r.server + [m.(mtype := m.dst + 5000)], serverHand := None), a, b))
  {
    var out := m.(mtype := m.dst + 5000);
    ServerGrows(r, out, a, b);
    ServerHandChanges(r.(server := r.server + [out]), None, a, b);
    var w := WayOf(r, a, b);
    assert w.posted + [] == w.posted;
  }

  lemma GroupTakeStays(r: Route, a: int, b: int)
    requires HasType(r.server, GROUP_MESSAGE) && b >= 0
    ensures WayOf(r.(server := RemoveAt(r.server, FirstOf(r.server, GROUP_MESSAGE))), a, b) == WayOf(r, a, b)
  {
    ServerTaken(r, GROUP_MESSAGE, a, b);
    var w := WayOf(r.(server := RemoveAt(r.server, FirstOf(r.server, GROUP_MESSAGE))), a, b);
    assert [] + w.addressed == w.addressed && [] + w.posted == w.posted;
  }

  /** A router of b takes the first message of its type. */
  lemma OwnTake(r: Route, a: int, b: int)
    requires HasType(r.server, b + 5000) && b >= 0
    ensures var k := FirstOf(r.server, b + 5000);
            var r' := r.(server := RemoveAt(r.server, k), handsB := r.handsB + [r.server[k]]);
            Moves(WayOf(r, a, b), WayOf(r', a, b), true)
  {
    var k, w := FirstOf(r.server, b + 5000), WayOf(r, a, b);
    var m, rest := r.server[k], RemoveAt(r.server, k);
    ServerTaken(r, b + 5000, a, b);
    IdsAppend(r.handsB, m, b + 5000, a, b);
    assert [] + Ids(rest, CLIENT_MESSAGE, a, b) == Ids(rest, CLIENT_MESSAGE, a, b);
    TakeMoves(w, OneId(m, b + 5000, a, b), Ids(rest, b + 5000, a, b));
  }

  lemma OthersTake(r: Route, u: int, a: int, b: int)
    requires HasType(r.server, u + 5000) && u >= 0 && b >= 0 && u != b
    ensures WayOf(r.(server := RemoveAt(r.server, FirstOf(r.server, u + 5000))), a, b) == WayOf(r, a, b)
  {
    ServerTaken(r, u + 5000, a, b);
    var w := WayOf(r.(server := RemoveAt(r.server, FirstOf(r.server, u + 5000))), a, b);
    assert [] + w.addressed == w.addressed && [] + w.posted == w.posted;
  }

  lemma HandEmptied(r: Route, k: nat, a: int, b: int) returns (front: seq<nat>, back: seq<nat>)
    requires k < |r.handsB|
    ensures WayOf(r, a, b).hand == front + OneId(r.handsB[k], b + 5000, a, b) + back
    ensures k == 0 ==> front == []
    ensures WayOf(r.(handsB := RemoveAt(r.handsB, k)), a, b) == WayOf(r, a, b).(hand := front + back)
  {
    front, back := IdsRemove(r.handsB, k, b + 5000, a, b);
  }

  /** A router of b puts an unexpired message into the inbox kept for its sender. */
  lemma RouterDelivers(r: Route, k: nat, a: int, b: int, fifo: bool)
    requires k < |r.handsB| && r.handsB[k].mtype == b + 5000 && (fifo ==> k == 0)
    requires r.handsB[k].protocol == CLIENT_MESSAGE ==> r.handsB[k].dst == b
    ensures var r' := r.(queueB := r.queueB + [Relabelled(r.handsB[k])], handsB := RemoveAt(r.handsB, k));
            Moves(WayOf(r, a, b), WayOf(r', a, b), fifo)
  {
    var m, w := r.handsB[k], WayOf(r, a, b);
    var front, back := HandEmptied(r, k, a, b);
    QueuesGrow(r.(handsB := RemoveAt(r.handsB, k)), Relabelled(m), a, b);
    assert OneId(Relabelled(m), 10000 + a, a, b) == OneId(m, b + 5000, a, b);
    HandMoves(w, front, OneId(m, b + 5000, a, b), back, fifo);
  }

  /** What a receives itself does not count as a's copy of what it sent. */
  lemma OwnInboxStays(r: Route, m: Msg, a: int, b: int)
    requires m.protocol == CLIENT_MESSAGE ==> m.dst == a
    ensures a != b ==> WayOf(r.(queueA := r.queueA + [Relabelled(m)]), a, b) == WayOf(r, a, b)
  {
    QueuesGrow(r, Relabelled(m), a, b);
    var w := WayOf(r, a, b);
    assert w.copies + [] == w.copies;
  }

  lemma CopyMade(r: Route, m: Msg, a: int, b: int)
    requires m.protocol == CLIENT_MESSAGE && m.mtype == CLIENT_MESSAGE && m.src == a
    ensures var w := WayOf(r, a, b);
            var w' := WayOf(r.(queueA := r.queueA + [m.(mtype := m.dst + 10000)], sendingA := r.sendingA + [m]), a, b);
            w' == if m.dst == b then w.(copies := w.copies + [m.id], sending := w.sending + [m.id]) else w
  {
    var copy := m.(mtype := m.dst + 10000);
    QueuesGrow(r, copy, a, b);
    IdsAppend(r.sendingA, m, CLIENT_MESSAGE, a, b);
    var w := WayOf(r, a, b);
    assert w.copies + [] == w.copies && w.sending + [] == w.sending;
  }

  lemma OtherCopyMade(r: Route, m: Msg, a: int, b: int)
    requires m.src != a
    ensures WayOf(r.(queueB := r.queueB + [m]), a, b) == WayOf(r, a, b)
  {
    QueuesGrow(r, m, a, b);
    var w := WayOf(r, a, b);
    assert w.inbox + [] == w.inbox;
  }

  /** Printing moves a message from an inbox to the screen. */
  lemma ShownStays(shown: seq<Msg>, q: seq<Msg>, taken: int, t: int, a: int, b: int)
    requires HasType(q, taken)
    ensures var k := FirstOf(q, taken);
            Ids(shown + [q[k]], t, a, b) + Ids(RemoveAt(q, k), t, a, b) == Ids(shown, t, a, b) + Ids(q, t, a, b)
  {
    var k := FirstOf(q, taken);
    IdsTake(q, taken, t, a, b);
    IdsAppend(shown, q[k], t, a, b);
    Associates(Ids(shown, t, a, b), OneId(q[k], t, a, b), Ids(RemoveAt(q, k), t, a, b));
  }

  lemma PeersShownStays(r: Route, t: int, a: int, b: int)
    requires HasType(r.queueB, t)
    ensures var k := FirstOf(r.queueB, t);
            WayOf(r.(shownB := r.shownB + [r.queueB[k]], queueB := RemoveAt(r.queueB, k)), a, b) == WayOf(r, a, b)
  {
    ShownStays(r.shownB, r.queueB, t, 10000 + a, a, b);
  }

  lemma OwnShownStays(r: Route, t: int, a: int, b: int)
    requires HasType(r.queueA, t)
    ensures var k := FirstOf(r.queueA, t);
            WayOf(r.(shownA := r.shownA + [r.queueA[k]], queueA := RemoveAt(r.queueA, k)), a, b) == WayOf(r, a, b)
  {
    ShownStays(r.shownA, r.queueA, t, 10000 + b, a, b);
  }

  // ---- one step of the system ----

  /** What conservation needs to know of the messages a step moves. */
  ghost predicate StepTyped(s: State, e: Event)
    requires Enabled(s, e)
  {
    match e
    case StartSend(_, _, _, _) => |s.log| !in s.expired
    case SendGroup(_, _, _, _) => |s.log| !in s.expired
    case FinishSend(c, k) => IsPosted(s.log, Sending(s, c)[k]) && Sending(s, c)[k].src == c
    case Forward =>
      IsPosted(s.log, s.serverHand.value) && (s.serverHand.value.dst in s.registered ==> s.serverHand.value.dst >= 0)
    case Deliver(u, k, _) => InHand(s.log, u, Hands(s, u)[k])
    case _ => true
  }

  function NewMsg(s: State, c: int, dst: int, autoDelete: int, now: int): Msg {
    Msg(CLIENT_MESSAGE, CLIENT_MESSAGE, c, dst, autoDelete, now, |s.log|)
  }

  lemma StartSendRoute(s: State, c: int, dst: int, autoDelete: int, now: int, a: int, b: int)
    requires Enabled(s, StartSend(c, dst, autoDelete, now)) && a != b
    ensures var m, r := NewMsg(s, c, dst, autoDelete, now), RouteOf(s, a, b);
            RouteOf(Step(s, StartSend(c, dst, autoDelete, now)), a, b) ==
            if c == a then r.(queueA := r.queueA + [m.(mtype := m.dst + 10000)], sendingA := r.sendingA + [m])
            else if c == b then r.(queueB := r.queueB + [m.(mtype := m.dst + 10000)])
            else r
  {
  }

  lemma StartSendWay(s: State, c: int, dst: int, autoDelete: int, now: int, a: int, b: int)
    requires Enabled(s, StartSend(c, dst, autoDelete, now)) && a != b
    ensures var w := WayOf(RouteOf(s, a, b), a, b);
            WayOf(RouteOf(Step(s, StartSend(c, dst, autoDelete, now)), a, b), a, b) ==
            if c == a && dst == b then w.(copies := w.copies + [|s.log|], sending := w.sending + [|s.log|]) else w
  {
    var r, m := RouteOf(s, a, b), NewMsg(s, c, dst, autoDelete, now);
    StartSendRoute(s, c, dst, autoDelete, now, a, b);
    if c == a { CopyMade(r, m, a, b); } else { OtherCopyMade(r, m.(mtype := m.dst + 10000), a, b); }
  }

  lemma LetterKeepsPair(s: State, s': State, l: Letter, a: int, b: int, fifo: bool)
    requires PairInv(s, a, b, fifo) && |s.log| !in s.expired && s'.log == s.log + [l] && s'.expired == s.expired
    requires var w := WayOf(RouteOf(s, a, b), a, b);
             WayOf(RouteOf(s', a, b), a, b) ==
             if IsBetween(l, a, b) then w.(copies := w.copies + [|s.log|], sending := w.sending + [|s.log|]) else w
    ensures PairInv(s', a, b, fifo)
  {
    var w, w' := WayOf(RouteOf(s, a, b), a, b), WayOf(RouteOf(s', a, b), a, b);
    SentAppend(s.log, l, a, b);
    if IsBetween(l, a, b) {
      SendConserves(w, w', Sent(s.log, a, b), s.expired, |s.log|, fifo);
    } else {
      assert Sent(s.log, a, b) + [] == Sent(s.log, a, b);
    }
  }

  lemma StartSendKeeps(s: State, c: int, dst: int, autoDelete: int, now: int, a: int, b: int, fifo: bool)
    requires Enabled(s, StartSend(c, dst, autoDelete, now)) && a != b && PairInv(s, a, b, fifo)
    requires |s.log| !in s.expired
    ensures PairInv(Step(s, StartSend(c, dst, autoDelete, now)), a, b, fifo)
  {
    StartSendWay(s, c, dst, autoDelete, now, a, b);
    LetterKeepsPair(s, Step(s, StartSend(c, dst, autoDelete, now)), Letter(c, dst, autoDelete, now), a, b, fifo);
  }

  lemma MoveKeepsPair(s: State, s': State, a: int, b: int, fifo: bool)
    requires PairInv(s, a, b, fifo) && Moves(WayOf(RouteOf(s, a, b), a, b), WayOf(RouteOf(s', a, b), a, b), fifo)
    requires s'.log == s.log && s'.expired == s.expired
    ensures PairInv(s', a, b, fifo)
  {
    MoveConserves(WayOf(RouteOf(s, a, b), a, b), WayOf(RouteOf(s', a, b), a, b), Sent(s.log, a, b), s.expired, fifo);
  }

  lemma FinishSendMoves(s: State, c: int, k: nat, a: int, b: int, fifo: bool)
    requires Enabled(s, FinishSend(c, k)) && StepTyped(s, FinishSend(c, k)) && b >= 0
    requires fifo && c == a ==> k == 0
    ensures Moves(WayOf(RouteOf(s, a, b), a, b), WayOf(RouteOf(Step(s, FinishSend(c, k)), a, b), a, b), fifo)
  {
    var s', r, m := Step(s, FinishSend(c, k)), RouteOf(s, a, b), Sending(s, c)[k];
    if c == a {
      assert RouteOf(s', a, b) == r.(server := r.server + [m], sendingA := RemoveAt(r.sendingA, k));
      SenderPosts(r, k, a, b, fifo);
    } else {
      assert RouteOf(s', a, b) == r.(server := r.server + [m]);
      ServerStays(r, m, a, b);
    }
  }

  lemma ForwardMoves(s: State, a: int, b: int)
    requires Enabled(s, Forward) && StepTyped(s, Forward)
    ensures Moves(WayOf(RouteOf(s, a, b), a, b), WayOf(RouteOf(Step(s, Forward), a, b), a, b), true)
  {
    var s', r, m := Step(s, Forward), RouteOf(s, a, b), s.serverHand.value;
    if m.dst in s.registered {
      assert RouteOf(s', a, b) == r.(server := r.server + [m.(mtype := m.dst + 5000)], serverHand := None);
      ForwardHops(r, m, a, b);
      HopMoves(WayOf(r, a, b), WayOf(RouteOf(s', a, b), a, b));
    } else {
      assert RouteOf(s', a, b) == r;
    }
  }

  lemma TakeMovesPair(s: State, u: int, a: int, b: int)
    requires Enabled(s, Take(u)) && b >= 0
    ensures Moves(WayOf(RouteOf(s, a, b), a, b), WayOf(RouteOf(Step(s, Take(u)), a, b), a, b), true)
  {
    var s', r, k := Step(s, Take(u)), RouteOf(s, a, b), FirstOf(s.server, u + 5000);
    if u == b {
      assert RouteOf(s', a, b) == r.(server := RemoveAt(r.server, k), handsB := r.handsB + [r.server[k]]);
      OwnTake(r, a, b);
    } else {
      assert RouteOf(s', a, b) == r.(server := RemoveAt(r.server, k));
      OthersTake(r, u, a, b);
    }
  }

  lemma DeliverMoves(s: State, u: int, k: nat, now: int, a: int, b: int, fifo: bool)
    requires Enabled(s, Deliver(u, k, now)) && StepTyped(s, Deliver(u, k, now)) && a != b
    requires !IsExpired(Hands(s, u)[k], now) && (fifo && u == b ==> k == 0)
    ensures Moves(WayOf(RouteOf(s, a, b), a, b), WayOf(RouteOf(Step(s, Deliver(u, k, now)), a, b), a, b), fifo)
  {
    var s', r, m := Step(s, Deliver(u, k, now)), RouteOf(s, a, b), Hands(s, u)[k];
    if u == b {
      assert RouteOf(s', a, b) == r.(queueB := r.queueB + [Relabelled(m)], handsB := RemoveAt(r.handsB, k));
      RouterDelivers(r, k, a, b, fifo);
    } else if u == a {
      assert RouteOf(s', a, b) == r.(queueA := r.queueA + [Relabelled(m)]);
      OwnInboxStays(r, m, a, b);
    } else {
      assert RouteOf(s', a, b) == r;
    }
  }

  /** What an expiry changes. */
  lemma ExpiryResult(s: State, u: int, k: nat, now: int, a: int, b: int)
    requires Enabled(s, Deliver(u, k, now)) && IsExpired(Hands(s, u)[k], now)
    ensures var s', r, m := Step(s, Deliver(u, k, now)), RouteOf(s, a, b), Hands(s, u)[k];
            && RouteOf(s', a, b) == (if u == b then r.(handsB := RemoveAt(r.handsB, k)) else r)
            && s'.log == s.log
            && s'.expired == if m.protocol == CLIENT_MESSAGE then s.expired + {m.id} else s.expired
  {
    var s' := Step(s, Deliver(u, k, now));
    assert s' == s.(hands := s'.hands, expired := s'.expired);
  }

  lemma OthersExpiry(s: State, s': State, m: Msg, a: int, b: int, fifo: bool)
    requires PairInv(s, a, b, fifo) && WayOf(RouteOf(s', a, b), a, b) == WayOf(RouteOf(s, a, b), a, b)
    requires m.id < |s.log| && !IsBetween(s.log[m.id], a, b) && s'.expired == s.expired + {m.id}
    requires s'.log == s.log
    ensures PairInv(s', a, b, fifo)
  {
    SentFacts(s.log, a, b, m.id);
    LiveUnchanged(Sent(s.log, a, b), s.expired, m.id);
  }

  lemma OwnExpiry(s: State, s': State, k: nat, a: int, b: int, fifo: bool)
    requires k < |Hands(s, b)| && Matches(Hands(s, b)[k], b + 5000, a, b) && PairInv(s, a, b, fifo)
    requires s'.log == s.log && s'.expired == s.expired + {Hands(s, b)[k].id}
    requires var r := RouteOf(s, a, b); RouteOf(s', a, b) == r.(handsB := RemoveAt(r.handsB, k))
    ensures PairInv(s', a, b, fifo)
  {
    var r := RouteOf(s, a, b);
    var front, back := HandEmptied(r, k, a, b);
    SentDistinct(s.log, a, b);
    ExpiryConserves(WayOf(r, a, b), Sent(s.log, a, b), s.expired, front, Hands(s, b)[k].id, back, fifo);
  }

  lemma OthersHand(r: Route, k: nat, a: int, b: int)
    requires k < |r.handsB| && !Matches(r.handsB[k], b + 5000, a, b)
    ensures WayOf(r.(handsB := RemoveAt(r.handsB, k)), a, b) == WayOf(r, a, b)
  {
    var front, back := HandEmptied(r, k, a, b);
    assert front + [] + back == front + back;
  }

  lemma OthersExpire(s: State, s': State, m: Msg, a: int, b: int, fifo: bool)
    requires PairInv(s, a, b, fifo) && WayOf(RouteOf(s', a, b), a, b) == WayOf(RouteOf(s, a, b), a, b)
    requires s'.expired == (if m.protocol == CLIENT_MESSAGE then s.expired + {m.id} else s.expired) && s'.log == s.log
    requires m.protocol == CLIENT_MESSAGE ==> m.id < |s.log| && !IsBetween(s.log[m.id], a, b)
    ensures PairInv(s', a, b, fifo)
  {
    if m.protocol == CLIENT_MESSAGE { OthersExpiry(s, s', m, a, b, fifo); }
  }

  lemma ExpireKeepsPair(s: State, s': State, u: int, k: nat, a: int, b: int, fifo: bool)
    requires k < |Hands(s, u)| && InHand(s.log, u, Hands(s, u)[k]) && PairInv(s, a, b, fifo) && s'.log == s.log
    requires var r, m := RouteOf(s, a, b), Hands(s, u)[k];
             && RouteOf(s', a, b) == (if u == b then r.(handsB := RemoveAt(r.handsB, k)) else r)
             && s'.expired == if m.protocol == CLIENT_MESSAGE then s.expired + {m.id} else s.expired
    ensures PairInv(s', a, b, fifo)
  {
    var m := Hands(s, u)[k];
    if u == b && Matches(m, b + 5000, a, b) {
      OwnExpiry(s, s', k, a, b, fifo);
    } else {
      if u == b { OthersHand(RouteOf(s, a, b), k, a, b); }
      OthersExpire(s, s', m, a, b, fifo);
    }
  }

  lemma ExpireKeeps(s: State, u: int, k: nat, now: int, a: int, b: int, fifo: bool)
    requires Enabled(s, Deliver(u, k, now)) && StepTyped(s, Deliver(u, k, now)) && PairInv(s, a, b, fifo)
    requires IsExpired(Hands(s, u)[k], now)
    ensures PairInv(Step(s, Deliver(u, k, now)), a, b, fifo)
  {
    ExpiryResult(s, u, k, now, a, b);
    ExpireKeepsPair(s, Step(s, Deliver(u, k, now)), u, k, a, b, fifo);
  }

  lemma ShowRoute(s: State, u: int, t: int, a: int, b: int)
    requires Enabled(s, Show(u, t)) && a != b
    ensures var r, k := RouteOf(s, a, b), FirstOf(Queue(s, u), t);
            RouteOf(Step(s, Show(u, t)), a, b) ==
            if u == a then r.(shownA := r.shownA + [r.queueA[k]], queueA := RemoveAt(r.queueA, k))
            else if u == b then r.(shownB := r.shownB + [r.queueB[k]], queueB := RemoveAt(r.queueB, k))
            else r
  {
  }

  lemma ShowMoves(s: State, u: int, t: int, a: int, b: int)
    requires Enabled(s, Show(u, t)) && a != b
    ensures WayOf(RouteOf(Step(s, Show(u, t)), a, b), a, b) == WayOf(RouteOf(s, a, b), a, b)
  {
    ShowRoute(s, u, t, a, b);
    if u == a {
      OwnShownStays(RouteOf(s, a, b), t, a, b);
    } else if u == b {
      PeersShownStays(RouteOf(s, a, b), t, a, b);
    }
  }

  lemma DispatchMoves(s: State, a: int, b: int)
    requires Enabled(s, Dispatch) && b >= 0
    ensures Moves(WayOf(RouteOf(s, a, b), a, b), WayOf(RouteOf(Step(s, Dispatch), a, b), a, b), true)
  {
    DispatchHops(RouteOf(s, a, b), a, b);
    HopMoves(WayOf(RouteOf(s, a, b), a, b), WayOf(RouteOf(Step(s, Dispatch), a, b), a, b));
  }

  lemma SendGroupKeeps(s: State, e: Event, a: int, b: int, fifo: bool)
    requires e.SendGroup? && Enabled(s, e) && PairInv(s, a, b, fifo) && b >= 0 && |s.log| !in s.expired
    ensures PairInv(Step(s, e), a, b, fifo)
  {
    var m := Msg(GROUP_MESSAGE, GROUP_MESSAGE, e.src, e.gid, e.autoDelete, e.now, |s.log|);
    assert RouteOf(Step(s, e), a, b) == RouteOf(s, a, b).(server := s.server + [m]);
    ServerStays(RouteOf(s, a, b), m, a, b);
    LetterKeepsPair(s, Step(s, e), ToGroup(e.src, e.gid, e.autoDelete, e.now), a, b, fifo);
  }

  lemma GroupStepStays(s: State, e: Event, a: int, b: int)
    requires e.Register? || e.CreateGroup? || e.GroupTake? || e.GroupPost? || e.GroupDone?
    requires Enabled(s, e) && b >= 0
    ensures WayOf(RouteOf(Step(s, e), a, b), a, b) == WayOf(RouteOf(s, a, b), a, b)
  {
    if e.GroupTake? {
      GroupTakeStays(RouteOf(s, a, b), a, b);
    } else if e.GroupPost? {
      ServerStays(RouteOf(s, a, b), ForMember(s.groupHand.value, e.uid), a, b);
    } else {
      assert RouteOf(Step(s, e), a, b) == RouteOf(s, a, b);
    }
  }

  lemma StepMoves(s: State, e: Event, a: int, b: int, fifo: bool)
    requires Enabled(s, e) && StepTyped(s, e) && a >= 0 && b >= 0 && a != b && (fifo ==> Fifo(e, a, b))
    requires !e.StartSend? && !e.SendGroup? && (e.Deliver? ==> !IsExpired(Hands(s, e.uid)[e.index], e.now))
    ensures Moves(WayOf(RouteOf(s, a, b), a, b), WayOf(RouteOf(Step(s, e), a, b), a, b), fifo)
  {
    match e
    case FinishSend(c, k) => FinishSendMoves(s, c, k, a, b, fifo);
    case Dispatch => DispatchMoves(s, a, b);
    case Forward => ForwardMoves(s, a, b);
    case Take(u) => TakeMovesPair(s, u, a, b);
    case Deliver(u, k, now) => DeliverMoves(s, u, k, now, a, b, fifo);
    case Show(u, t) => ShowMoves(s, u, t, a, b);
    case _ => GroupStepStays(s, e, a, b);
  }

  lemma MoveLeavesLog(s: State, e: Event)
    requires Enabled(s, e) && !e.StartSend? && !e.SendGroup?
    requires e.Deliver? ==> !IsExpired(Hands(s, e.uid)[e.index], e.now)
    ensures Step(s, e).log == s.log && Step(s, e).expired == s.expired
  {
  }

  lemma StepKeepsPair(s: State, e: Event, a: int, b: int, fifo: bool)
    requires Enabled(s, e) && StepTyped(s, e) && PairInv(s, a, b, fifo) && a >= 0 && b >= 0 && a != b
    requires fifo ==> Fifo(e, a, b)
    ensures PairInv(Step(s, e), a, b, fifo)
  {
    if e.StartSend? {
      StartSendKeeps(s, e.src, e.dst, e.autoDelete, e.now, a, b, fifo);
    } else if e.SendGroup? {
      SendGroupKeeps(s, e, a, b, fifo);
    } else if e.Deliver? && IsExpired(Hands(s, e.uid)[e.index], e.now) {
      ExpireKeeps(s, e.uid, e.index, e.now, a, b, fifo);
    } else {
      StepMoves(s, e, a, b, fifo);
      MoveLeavesLog(s, e);
      MoveKeepsPair(s, Step(s, e), a, b, fifo);
    }
  }

  // ---- every step keeps the types ----

  lemma TypesSurvive(log: seq<Letter>, l: Letter, u: int, q: seq<Msg>)
    ensures AllOnServer(log, q) ==> AllOnServer(log + [l], q)
    ensures AllOnUser(log, u, q) ==> AllOnUser(log + [l], u, q)
    ensures AllInHand(log, u, q) ==> AllInHand(log + [l], u, q)
    ensures AllFrom(log, u, q) ==> AllFrom(log + [l], u, q)
  {
  }

  lemma InboxesSurvive(log: seq<Letter>, l: Letter, boxes: map<int, seq<Msg>>)
    requires InboxesTyped(log, boxes)
    ensures InboxesTyped(log + [l], boxes)
  {
    forall u | u in boxes ensures AllOnUser(log + [l], u, boxes[u]) { TypesSurvive(log, l, u, boxes[u]); }
  }

  lemma HandsSurvive(log: seq<Letter>, l: Letter, hands: map<int, seq<Msg>>, sending: map<int, seq<Msg>>)
    requires HandsTyped(log, hands) && SendingTyped(log, sending)
    ensures HandsTyped(log + [l], hands) && SendingTyped(log + [l], sending)
  {
    forall u | u in hands ensures AllInHand(log + [l], u, hands[u]) { TypesSurvive(log, l, u, hands[u]); }
    forall u | u in sending ensures AllFrom(log + [l], u, sending[u]) { TypesSurvive(log, l, u, sending[u]); }
  }

  /** All but what the new letter itself puts somewhere. */
  lemma LetterKeepsTypes(s: State, l: Letter)
    requires Typed(s)
    ensures Typed(s.(log := s.log + [l]))
  {
    TypesSurvive(s.log, l, 0, s.server);
    InboxesSurvive(s.log, l, s.queues);
    InboxesSurvive(s.log, l, s.shown);
    HandsSurvive(s.log, l, s.hands, s.sending);
  }

  lemma InboxKeepsTypes(log: seq<Letter>, boxes: map<int, seq<Msg>>, u: int, m: Msg)
    requires InboxesTyped(log, boxes) && OnUser(log, u, m)
    ensures InboxesTyped(log, boxes[u := Held(boxes, u) + [m]])
  {
  }

  lemma SendingKeepsTypes(log: seq<Letter>, boxes: map<int, seq<Msg>>, u: int, m: Msg)
    requires SendingTyped(log, boxes) && IsPosted(log, m) && m.src == u
    ensures SendingTyped(log, boxes[u := Held(boxes, u) + [m]])
  {
  }

  lemma HandsKeepTypes(log: seq<Letter>, boxes: map<int, seq<Msg>>, u: int, m: Msg)
    requires HandsTyped(log, boxes) && InHand(log, u, m)
    ensures HandsTyped(log, boxes[u := Held(boxes, u) + [m]])
  {
  }

  lemma RemovalKeepsTypes(log: seq<Letter>, u: int, q: seq<Msg>, k: nat)
    requires k < |q|
    ensures AllOnServer(log, q) ==> AllOnServer(log, RemoveAt(q, k)) && OnServer(log, q[k])
    ensures AllOnUser(log, u, q) ==> AllOnUser(log, u, RemoveAt(q, k)) && OnUser(log, u, q[k])
    ensures AllInHand(log, u, q) ==> AllInHand(log, u, RemoveAt(q, k)) && InHand(log, u, q[k])
    ensures AllFrom(log, u, q) ==> AllFrom(log, u, RemoveAt(q, k)) && IsPosted(log, q[k]) && q[k].src == u
  {
  }

  lemma StartSendTyped(s: State, c: int, dst: int, autoDelete: int, now: int)
    requires Enabled(s, StartSend(c, dst, autoDelete, now)) && Typed(s)
    ensures Typed(Step(s, StartSend(c, dst, autoDelete, now)))
  {
    var l, m := Letter(c, dst, autoDelete, now), NewMsg(s, c, dst, autoDelete, now);
    LetterKeepsTypes(s, l);
    InboxKeepsTypes(s.log + [l], s.queues, c, m.(mtype := dst + 10000));
    SendingKeepsTypes(s.log + [l], s.sending, c, m);
  }

  lemma FinishSendTyped(s: State, c: int, k: nat)
    requires Enabled(s, FinishSend(c, k)) && Typed(s)
    ensures Typed(Step(s, FinishSend(c, k))) && StepTyped(s, FinishSend(c, k))
  {
    RemovalKeepsTypes(s.log, c, Sending(s, c), k);
  }

  lemma SendGroupTyped(s: State, e: Event)
    requires e.SendGroup? && Enabled(s, e) && Typed(s)
    ensures Typed(Step(s, e))
  {
    LetterKeepsTypes(s, ToGroup(e.src, e.gid, e.autoDelete, e.now));
  }

  lemma TakeTyped(s: State, u: int)
    requires Enabled(s, Take(u)) && Typed(s)
    ensures Typed(Step(s, Take(u)))
  {
    var k := FirstOf(s.server, u + 5000);
    RemovalKeepsTypes(s.log, u, s.server, k);
    HandsKeepTypes(s.log, s.hands, u, s.server[k]);
  }

  lemma EmptiedKeepsTypes(log: seq<Letter>, hands: map<int, seq<Msg>>, u: int, k: nat)
    requires HandsTyped(log, hands) && k < |Held(hands, u)|
    ensures HandsTyped(log, hands[u := RemoveAt(Held(hands, u), k)]) && InHand(log, u, Held(hands, u)[k])
  {
    RemovalKeepsTypes(log, u, Held(hands, u), k);
  }

  lemma DeliverTyped(s: State, u: int, k: nat, now: int)
    requires Enabled(s, Deliver(u, k, now)) && Typed(s)
    ensures Typed(Step(s, Deliver(u, k, now))) && StepTyped(s, Deliver(u, k, now))
  {
    EmptiedKeepsTypes(s.log, s.hands, u, k);
    InHandGoesOn(s.log, u, Hands(s, u)[k]);
    InboxKeepsTypes(s.log, s.queues, u, Relabelled(Hands(s, u)[k]));
  }

  lemma InHandGoesOn(log: seq<Letter>, u: int, m: Msg)
    requires InHand(log, u, m)
    ensures OnUser(log, u, Relabelled(m)) && m.id < |log|
  {
  }

  lemma ShowTyped(s: State, u: int, t: int)
    requires Enabled(s, Show(u, t)) && Typed(s)
    ensures Typed(Step(s, Show(u, t)))
  {
    var q := Queue(s, u);
    RemovalKeepsTypes(s.log, u, q, FirstOf(q, t));
    InboxKeepsTypes(s.log, s.shown, u, q[FirstOf(q, t)]);
  }

  lemma ServerStepTyped(s: State, e: Event)
    requires e.Dispatch? || e.Forward? || e.GroupTake? || e.GroupPost? || e.GroupDone?
    requires Enabled(s, e) && Typed(s)
    ensures Typed(Step(s, e)) && StepTyped(s, e)
  {
    match e
    case Dispatch => RemovalKeepsTypes(s.log, 0, s.server, FirstOf(s.server, CLIENT_MESSAGE));
    case GroupTake => RemovalKeepsTypes(s.log, 0, s.server, FirstOf(s.server, GROUP_MESSAGE));
    case _ =>
  }

  lemma StepKeepsTypes(s: State, e: Event)
    requires Enabled(s, e) && Typed(s)
    ensures Typed(Step(s, e)) && StepTyped(s, e)
  {
    match e
    case Register(_) =>
    case CreateGroup =>
    case StartSend(c, dst, autoDelete, now) => StartSendTyped(s, c, dst, autoDelete, now);
    case FinishSend(c, k) => FinishSendTyped(s, c, k);
    case SendGroup(_, _, _, _) => SendGroupTyped(s, e);
    case Take(u) => TakeTyped(s, u);
    case Deliver(u, k, now) => DeliverTyped(s, u, k, now);
    case Show(u, t) => ShowTyped(s, u, t);
    case _ => ServerStepTyped(s, e);
  }

  // ---- whole runs ----

  ghost predicate Inv(s: State, a: int, b: int, fifo: bool) { Typed(s) && PairInv(s, a, b, fifo) }

  /** Every run from the start conserves, for every two users, what one sent to the other, and a run in which
      hands are emptied in order keeps the order of sending. */
  lemma {:induction false} RunKeepsInv(s: State, events: seq<Event>, s': State, a: int, b: int, fifo: bool)
    requires Run(s, events, s') && Inv(s, a, b, fifo) && a >= 0 && b >= 0 && a != b
    requires fifo ==> AllFifo(events, a, b)
    ensures Inv(s', a, b, fifo)
    decreases |events|
  {
    if events != [] {
      StepKeepsTypes(s, events[0]);
      StepKeepsPair(s, events[0], a, b, fifo);
      RunKeepsInv(Step(s, events[0]), events[1..], s', a, b, fifo);
    }
  }

  lemma InitKeepsInv(a: int, b: int)
    ensures Inv(Init(), a, b, true)
  {
  }

  // ---- conservation ----

  /** In how many of the six places a message is. */
  function PlaceCount(w: Way, x: nat): nat {
    multiset(w.inbox)[x] + multiset(w.hand)[x] + multiset(w.addressed)[x] + multiset(w.serverHand)[x]
    + multiset(w.posted)[x] + multiset(w.sending)[x]
  }

  lemma PlacesAreJoined(w: Way, x: nat)
    ensures PlaceCount(w, x) == multiset(Joined(w))[x]
  {
  }

  lemma ConservedCounts(w: Way, sent: seq<nat>, expired: set<nat>, x: nat)
    requires Conserved(w, sent, expired, false) && Distinct(sent) && x in sent
    ensures PlaceCount(w, x) == (if x in expired then 0 else 1) && multiset(w.copies)[x] == 1
  {
    PlacesAreJoined(w, x);
    LiveDistinct(sent, expired);
    LiveMembers(sent, expired, x);
    DistinctOnce(Live(sent, expired), x);
    DistinctOnce(sent, x);
  }

  /** In every run a sent message has its copy with the sender, and is in exactly one place on its way, or
      expired and nowhere. */
  lemma OnePlace(events: seq<Event>, s: State, i: nat)
    requires Run(Init(), events, s) && i < |s.log| && s.log[i].Letter? && s.log[i].src >= 0 && s.log[i].dst >= 0
    requires s.log[i].src != s.log[i].dst
    ensures var l := s.log[i];
            var w := WayOf(RouteOf(s, l.src, l.dst), l.src, l.dst);
            PlaceCount(w, i) == (if i in s.expired then 0 else 1) && multiset(w.copies)[i] == 1
  {
    var l := s.log[i];
    InitKeepsInv(l.src, l.dst);
    RunKeepsInv(Init(), events, s, l.src, l.dst, false);
    SentFacts(s.log, l.src, l.dst, i);
    SentDistinct(s.log, l.src, l.dst);
    ConservedCounts(WayOf(RouteOf(s, l.src, l.dst), l.src, l.dst), Sent(s.log, l.src, l.dst), s.expired, i);
  }

  predicate NoneExpired(s: State, a: int, b: int) {
    forall i :: i in s.expired ==> i < |s.log| && !IsBetween(s.log[i], a, b)
  }

  /** Nothing from a to b is on its way. */
  predicate Drained(w: Way) {
    w.hand == [] && w.addressed == [] && w.serverHand == [] && w.posted == [] && w.sending == []
  }

  lemma {:induction false} LiveKeepsAll(ids: seq<nat>, expired: set<nat>)
    requires forall i :: i in ids ==> i !in expired
    ensures Live(ids, expired) == ids
  {
    if ids != [] { LiveKeepsAll(ids[1..], expired); }
  }

  lemma DrainedIsLive(s: State, a: int, b: int, fifo: bool)
    requires PairInv(s, a, b, fifo) && Drained(WayOf(RouteOf(s, a, b), a, b)) && NoneExpired(s, a, b)
    ensures var w := WayOf(RouteOf(s, a, b), a, b);
            && w.copies == Sent(s.log, a, b) && multiset(w.inbox) == multiset(w.copies)
            && (fifo ==> w.inbox == w.copies)
  {
    var w := WayOf(RouteOf(s, a, b), a, b);
    forall i | i in Sent(s.log, a, b) ensures i !in s.expired { SentFacts(s.log, a, b, i); }
    LiveKeepsAll(Sent(s.log, a, b), s.expired);
    assert Joined(w) == w.inbox;
  }

  /** Once drained without expiry, the addressee's inbox for the sender holds exactly the sender's copies, which are
      all that was sent; and in the order of sending, if hands were emptied in order. */
  lemma DrainedAgree(events: seq<Event>, s: State, a: int, b: int)
    requires Run(Init(), events, s) && a >= 0 && b >= 0 && a != b
    requires Drained(WayOf(RouteOf(s, a, b), a, b))
    requires NoneExpired(s, a, b)
    ensures var w := WayOf(RouteOf(s, a, b), a, b);
            && w.copies == Sent(s.log, a, b) && multiset(w.inbox) == multiset(w.copies)
            && (AllFifo(events, a, b) ==> w.inbox == w.copies)
  {
    InitKeepsInv(a, b);
    RunKeepsInv(Init(), events, s, a, b, AllFifo(events, a, b));
    DrainedIsLive(s, a, b, AllFifo(events, a, b));
  }

  // ---- the types never collide ----

  lemma {:induction false} RunKeepsTypes(s: State, events: seq<Event>, s': State)
    requires Run(s, events, s') && Typed(s)
    ensures Typed(s')
    decreases |events|
  {
    if events != [] {
      StepKeepsTypes(s, events[0]);
      RunKeepsTypes(Step(s, events[0]), events[1..], s');
    }
  }

  /** The inbox that u keeps for b holds only what the two wrote to each other, never group traffic. */
  lemma PeerInboxIsPure(events: seq<Event>, s: State, u: int, b: int, i: nat)
    requires Run(Init(), events, s) && b >= 0 && i < |Queue(s, u)| && Queue(s, u)[i].mtype == 10000 + b
    ensures var m := Queue(s, u)[i];
            && m.protocol == CLIENT_MESSAGE
            && ((m.src == u && m.dst == b) || (m.src == b && m.dst == u))
  {
    RunKeepsTypes(Init(), events, s);
    assert OnUser(s.log, u, s.queues[u][i]);
  }

  /** What a router takes for u off the server queue is addressed to u, or is group traffic. */
  lemma RouterTakesItsOwn(events: seq<Event>, s: State, u: int, i: nat)
    requires Run(Init(), events, s) && u >= 0 && i < |s.server| && s.server[i].mtype == u + 5000
    ensures s.server[i].protocol == GROUP_MESSAGE || s.server[i].dst == u
  {
    RunKeepsTypes(Init(), events, s);
    assert OnServer(s.log, s.server[i]);
  }

  /** The inbox that u keeps for a group holds only what was written to that group. */
  lemma GroupInboxIsPure(events: seq<Event>, s: State, u: int, g: int, i: nat)
    requires Run(Init(), events, s) && 0 <= g < MAX && i < |Queue(s, u)| && Queue(s, u)[i].mtype == 5000 + g
    ensures var m := Queue(s, u)[i];
            m.protocol == GROUP_MESSAGE && m.id < |s.log| && s.log[m.id] == ToGroup(m.src, g, m.autoDelete, m.timestamp)
  {
    RunKeepsTypes(Init(), events, s);
    assert OnUser(s.log, u, s.queues[u][i]);
  }

  // ---- the two ends of a chat ----

  /** All of a type on a queue, whoever wrote it. */
  function OfType(q: seq<Msg>, t: int): seq<nat> {
    if q == [] then [] else (if q[0].mtype == t then [q[0].id] else []) + OfType(q[1..], t)
  }

  /** What u has printed of its chat with b, and what it can still print. */
  function PeerLog(s: State, u: int, b: int): seq<nat> {
    OfType(Shown(s, u), 10000 + b) + OfType(Queue(s, u), 10000 + b)
  }

  lemma {:induction false} SplitsByDirection(log: seq<Letter>, q: seq<Msg>, u: int, b: int)
    requires AllOnUser(log, u, q) && u >= 0 && b >= 0 && u != b
    ensures multiset(OfType(q, 10000 + b)) == multiset(Ids(q, 10000 + b, u, b)) + multiset(Ids(q, 10000 + b, b, u))
  {
    if q != [] {
      assert OnUser(log, u, q[0]);
      assert AllOnUser(log, u, q[1..]);
      SplitsByDirection(log, q[1..], u, b);
    }
  }

  lemma BoxesSplit(log: seq<Letter>, shown: seq<Msg>, queue: seq<Msg>, u: int, b: int)
    requires AllOnUser(log, u, shown) && AllOnUser(log, u, queue) && u >= 0 && b >= 0 && u != b
    ensures var t := 10000 + b;
            multiset(OfType(shown, t) + OfType(queue, t)) ==
            multiset(Ids(shown, t, u, b) + Ids(queue, t, u, b)) + multiset(Ids(shown, t, b, u) + Ids(queue, t, b, u))
  {
    SplitsByDirection(log, shown, u, b);
    SplitsByDirection(log, queue, u, b);
  }

  lemma TypedBoxes(s: State, u: int)
    requires Typed(s)
    ensures AllOnUser(s.log, u, Shown(s, u)) && AllOnUser(s.log, u, Queue(s, u))
  {
  }

  lemma PeerLogSplits(s: State, u: int, b: int)
    requires Typed(s) && u >= 0 && b >= 0 && u != b
    ensures multiset(PeerLog(s, u, b)) ==
            multiset(WayOf(RouteOf(s, u, b), u, b).copies) + multiset(WayOf(RouteOf(s, b, u), b, u).inbox)
  {
    TypedBoxes(s, u);
    BoxesSplit(s.log, Shown(s, u), Queue(s, u), u, b);
  }

  /** Drained without expiry, the two inboxes of a chat hold the same messages. */
  lemma ChatsAgree(events: seq<Event>, s: State, a: int, b: int)
    requires Run(Init(), events, s) && a >= 0 && b >= 0 && a != b
    requires Drained(WayOf(RouteOf(s, a, b), a, b)) && Drained(WayOf(RouteOf(s, b, a), b, a))
    requires NoneExpired(s, a, b) && NoneExpired(s, b, a)
    ensures multiset(PeerLog(s, a, b)) == multiset(PeerLog(s, b, a))
  {
    DrainedAgree(events, s, a, b);
    DrainedAgree(events, s, b, a);
    RunKeepsTypes(Init(), events, s);
    PeerLogSplits(s, a, b);
    PeerLogSplits(s, b, a);
  }

  // ---- two routers can change the order ----

  lemma {:induction false} RunExtends(s: State, events: seq<Event>, s': State, e: Event)
    requires Run(s, events, s') && Enabled(s', e)
    ensures Run(s, events + [e], Step(s', e))
    decreases |events|
  {
    if events == [] {
      assert [e][1..] == [];
    } else {
      assert (events + [e])[1..] == events[1..] + [e];
      RunExtends(Step(s, events[0]), events[1..], s', e);
    }
  }

  function Hello(id: nat, mtype: int): Msg { Msg(mtype, CLIENT_MESSAGE, 0, 1, 0, 0, id) }

  /** Nothing is on its way but what the routers of user 1 hold. */
  predicate Quiet(s: State, hands: seq<Msg>, inbox: seq<Msg>) {
    && s.registered == {0, 1} && !s.crashed && s.serverHand == None && s.server == [] && s.expired == {}
    && Sending(s, 0) == [] && Hands(s, 1) == hands && Queue(s, 1) == inbox && Shown(s, 0) == [] && Shown(s, 1) == []
  }

  /** One message from user 0 to user 1, up to the server queue. */
  lemma Posts(events: seq<Event>, s: State, hands: seq<Msg>) returns (events': seq<Event>, s': State)
    requires Run(Init(), events, s) && Quiet(s, hands, [])
    ensures Run(Init(), events', s') && Quiet(s'.(server := []), hands, [])
    ensures s'.server == [Hello(|s.log|, CLIENT_MESSAGE)] && s'.log == s.log + [Letter(0, 1, 0, 0)]
    ensures Queue(s', 0) == Queue(s, 0) + [Hello(|s.log|, 10001)]
  {
    var s1 := Step(s, StartSend(0, 1, 0, 0));
    RunExtends(Init(), events, s, StartSend(0, 1, 0, 0));
    assert Sending(s1, 0) == [Hello(|s.log|, CLIENT_MESSAGE)];
    s' := Step(s1, FinishSend(0, 0));
    events' := events + [StartSend(0, 1, 0, 0)] + [FinishSend(0, 0)];
    RunExtends(Init(), events + [StartSend(0, 1, 0, 0)], s1, FinishSend(0, 0));
  }

  /** And from there into the hand of a router. */
  lemma Routes(events: seq<Event>, s: State, hands: seq<Msg>, id: nat) returns (events': seq<Event>, s': State)
    requires Run(Init(), events, s) && Quiet(s.(server := []), hands, []) && s.server == [Hello(id, CLIENT_MESSAGE)]
    ensures Run(Init(), events', s') && Quiet(s', hands + [Hello(id, 5001)], [])
    ensures s'.log == s.log && Queue(s', 0) == Queue(s, 0)
  {
    var s1 := Step(s, Dispatch);
    RunExtends(Init(), events, s, Dispatch);
    assert s1.server == [] && s1.serverHand == Some(Hello(id, CLIENT_MESSAGE));
    var s2 := Step(s1, Forward);
    RunExtends(Init(), events + [Dispatch], s1, Forward);
    assert s2.server == [Hello(id, 5001)];
    s' := Step(s2, Take(1));
    events' := events + [Dispatch] + [Forward] + [Take(1)];
    RunExtends(Init(), events + [Dispatch] + [Forward], s2, Take(1));
  }

  lemma DeliversOne(events: seq<Event>, s: State, hands: seq<Msg>, inbox: seq<Msg>, k: nat)
    returns (events': seq<Event>, s': State)
    requires Run(Init(), events, s) && Quiet(s, hands, inbox) && k < |hands| && hands[k].autoDelete == 0
    ensures Run(Init(), events', s') && Quiet(s', RemoveAt(hands, k), inbox + [Relabelled(hands[k])])
    ensures s'.log == s.log && Queue(s', 0) == Queue(s, 0)
  {
    s' := Step(s, Deliver(1, k, 0));
    events' := events + [Deliver(1, k, 0)];
    RunExtends(Init(), events, s, Deliver(1, k, 0));
  }

  lemma TwoIds(x: Msg, y: Msg, t: int, a: int, b: int)
    ensures Ids([x, y], t, a, b) == OneId(x, t, a, b) + OneId(y, t, a, b)
  {
    IdsAppend([], x, t, a, b);
    IdsAppend([x], y, t, a, b);
    assert [] + [x] == [x] && [x] + [y] == [x, y];
    assert [] + OneId(x, t, a, b) == OneId(x, t, a, b);
  }

  lemma ReorderedWay(s: State)
    requires Quiet(s, [], [Hello(1, 10000), Hello(0, 10000)]) && Queue(s, 0) == [Hello(0, 10001), Hello(1, 10001)]
    ensures var w := WayOf(RouteOf(s, 0, 1), 0, 1); Drained(w) && w.copies == [0, 1] && w.inbox == [1, 0]
  {
    TwoIds(Hello(0, 10001), Hello(1, 10001), 10001, 0, 1);
    TwoIds(Hello(1, 10000), Hello(0, 10000), 10000, 0, 1);
  }

  lemma DeliversBackwards(events: seq<Event>, s: State, x: Msg, y: Msg) returns (events': seq<Event>, s': State)
    requires Run(Init(), events, s) && Quiet(s, [x, y], []) && x.autoDelete == y.autoDelete == 0
    ensures Run(Init(), events', s') && Quiet(s', [], [Relabelled(y), Relabelled(x)]) && Queue(s', 0) == Queue(s, 0)
  {
    var e1, s1 := DeliversOne(events, s, [x, y], [], 1);
    assert RemoveAt([x, y], 1) == [x] && RemoveAt([x], 0) == [];
    events', s' := DeliversOne(e1, s1, [x], [] + [Relabelled(y)], 0);
    assert [] + [Relabelled(y)] + [Relabelled(x)] == [Relabelled(y), Relabelled(x)];
  }

  /** With two routers of one user, the drained inbox can hold the messages in another order than the sender's
      copies: the order in DrainedAgree needs its condition. */
  lemma TwoRoutersReorder() returns (events: seq<Event>, s: State)
    ensures Run(Init(), events, s) && s.expired == {}
    ensures var w := WayOf(RouteOf(s, 0, 1), 0, 1); Drained(w) && w.copies == [0, 1] && w.inbox == [1, 0]
  {
    var e0: seq<Event> := [];
    var s0 := Step(Init(), Register(0));
    RunExtends(Init(), e0, Init(), Register(0));
    RunExtends(Init(), e0 + [Register(0)], s0, Register(1));
    var e1, s1 := Posts(e0 + [Register(0)] + [Register(1)], Step(s0, Register(1)), []);
    var e2, s2 := Routes(e1, s1, [], 0);
    var e3, s3 := Posts(e2, s2, [] + [Hello(0, 5001)]);
    var e4, s4 := Routes(e3, s3, [] + [Hello(0, 5001)], 1);
    assert [] + [Hello(0, 5001)] + [Hello(1, 5001)] == [Hello(0, 5001), Hello(1, 5001)];
    events, s := DeliversBackwards(e4, s4, Hello(0, 5001), Hello(1, 5001));
    assert Queue(s, 0) == [Hello(0, 10001), Hello(1, 10001)];
    ReorderedWay(s);
  }
}

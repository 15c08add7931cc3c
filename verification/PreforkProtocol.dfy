/** The prefork server as a transition system: the parent, its workers, one first-in-first-out
    mailbox at the parent and an acknowledgement box per worker. */
module PreforkProtocol {
  import opened PreforkParent

  /** Where a worker is in its loop. Connections are numbered in the order they are accepted. */
  datatype Phase =
    | Accepting
    | Announcing(conn: nat)  // accepted, GOT_REQUEST not yet sent
    | Serving(conn: nat)     // GOT_REQUEST sent, response not yet sent
    | Replied                // response sent, COMPLETED_REQUEST not yet sent
    | AwaitingAck

  datatype Child = Child(phase: Phase, served: nat, acks: nat)

  /** Spawning(batch, left) is the parent inside exponential_spawn with `left` forks to go. */
  datatype Mode = Spawning(batch: nat, left: nat) | Running | Crashed

  datatype World = World(
    mode: Mode,
    parent: Parent,
    children: map<Pid, Child>,
    mailbox: seq<ControlMsg>,
    accepted: nat,
    answered: set<nat>)

  datatype Event =
    | Accept(pid: Pid)
    | Announce(pid: Pid)
    | Reply(pid: Pid)
    | Report(pid: Pid)
    | TakeAck(pid: Pid)
    | Spawn(pid: Pid)
    | Dispatch(pid: Pid)  // the parent handles one message; pid is what fork returns if it forks

  const NEWBORN := Child(Accepting, 0, 0)

  function Init(): World {
    World(Spawning(1, 1), Parent([], 0, 0), map[], [], 0, {})
  }

  function Got(pid: Pid, n: int): ControlMsg { ControlMsg(GOT_REQUEST, pid, n) }

  function Done(pid: Pid, n: int): ControlMsg { ControlMsg(COMPLETED_REQUEST, pid, n) }

  predicate Enabled(cfg: Config, w: World, e: Event) {
    match e
    case Accept(p) => p in w.children && w.children[p].phase == Accepting
    case Announce(p) => p in w.children && w.children[p].phase.Announcing?
    case Reply(p) => p in w.children && w.children[p].phase.Serving?
    case Report(p) => p in w.children && w.children[p].phase == Replied
    case TakeAck(p) => p in w.children && w.children[p].phase == AwaitingAck && w.children[p].acks > 0
    case Spawn(p) => w.mode.Spawning? && w.mode.left > 0 && p !in w.children
    case Dispatch(p) =>
      && w.mode == Running && w.mailbox != []
      && match React(cfg, w.parent, w.mailbox[0], p) {
           case Handled(_, Spawned) => p !in w.children
           case Handled(_, Recycled(dead)) => p == dead || p !in w.children
           case _ => true
         }
  }

  /** The mode after one more fork of exponential_spawn has been recorded. */
  function AfterFork(cfg: Config, mode: Mode, numIdle: int): Mode
    requires mode.Spawning? && mode.left > 0
  {
    if mode.left > 1 then Spawning(mode.batch, mode.left - 1)
    else if numIdle >= cfg.minSpare then Running
    else Spawning(Capped(2 * mode.batch), Capped(2 * mode.batch))
  }

  /** What the reaction does to the processes: SIGKILL, fork, or an acknowledgement datagram. */
  function Perform(children: map<Pid, Child>, r: Reaction, newPid: Pid): map<Pid, Child> {
    match r
    case Nothing => children
    case Spawned => children[newPid := NEWBORN]
    case Acked(p) =>
      if p in children then children[p := children[p].(acks := children[p].acks + 1)] else children
    case Killed(p) => children - {p}
    case Recycled(p) => (children - {p})[newPid := NEWBORN]
  }

  function Step(cfg: Config, w: World, e: Event): World
    requires Enabled(cfg, w, e)
  {
    match e
    case Accept(p) =>
      var c := w.children[p].(phase := Announcing(w.accepted));
      w.(children := w.children[p := c], accepted := w.accepted + 1)
    case Announce(p) =>
      var c := w.children[p];
      w.(children := w.children[p := c.(phase := Serving(c.phase.conn))],
         mailbox := w.mailbox + [Got(p, c.served)])
    case Reply(p) =>
      var c := w.children[p];
      w.(children := w.children[p := Child(Replied, c.served + 1, c.acks)],
         answered := w.answered + {c.phase.conn})
    case Report(p) =>
      var c := w.children[p];
      w.(children := w.children[p := c.(phase := AwaitingAck)],
         mailbox := w.mailbox + [Done(p, c.served)])
    case TakeAck(p) =>
      var c := w.children[p];
      w.(children := w.children[p := c.(phase := Accepting, acks := c.acks - 1)])
    case Spawn(p) =>
      var parent := Add(w.parent, p);
      w.(parent := parent, children := w.children[p := NEWBORN], mode := AfterFork(cfg, w.mode, parent.numIdle))
    case Dispatch(p) =>
      match React(cfg, w.parent, w.mailbox[0], p)
      case Crash => w.(mode := Crashed, mailbox := w.mailbox[1..])
      case Handled(parent, r) =>
        w.(parent := parent, children := Perform(w.children, r, p), mailbox := w.mailbox[1..])
  }

  /** ws is a run: it starts in Init and es[i] leads from ws[i] to ws[i + 1]. */
  ghost predicate Run(cfg: Config, ws: seq<World>, es: seq<Event>) {
    && |ws| == |es| + 1
    && ws[0] == Init()
    && forall i :: 0 <= i < |es| ==> Enabled(cfg, ws[i], es[i]) && ws[i + 1] == Step(cfg, ws[i], es[i])
  }

  // ---- the invariant ----

  /** The messages of one worker still in the mailbox, in order. */
  function From(box: seq<ControlMsg>, pid: Pid): seq<ControlMsg> {
    if box == [] then []
    else (if box[0].pid == pid then [box[0]] else []) + From(box[1..], pid)
  }

  lemma {:induction false} FromAppend(box: seq<ControlMsg>, m: ControlMsg, pid: Pid)
    ensures From(box + [m], pid) == From(box, pid) + (if m.pid == pid then [m] else [])
  {
    if box != [] {
      assert (box + [m])[1..] == box[1..] + [m];
      FromAppend(box[1..], m, pid);
    }
  }

  /** How the parent's entry, the worker and the worker's pending messages fit together. */
  predicate InStep(en: Entry, c: Child, pending: seq<ControlMsg>) {
    match c.phase
    case Accepting => pending == [] && en.isIdle && c.acks == 0 && en.reqsHandled == c.served
    case Announcing(_) => pending == [] && en.isIdle && c.acks == 0 && en.reqsHandled == c.served
    case Serving(_) =>
      && c.acks == 0 && en.reqsHandled == c.served
      && pending == (if en.isIdle then [Got(en.pid, c.served)] else [])
    case Replied =>
      && c.acks == 0 && c.served >= 1 && en.reqsHandled == c.served - 1
      && pending == (if en.isIdle then [Got(en.pid, c.served - 1)] else [])
    case AwaitingAck =>
      && c.served >= 1
      && if c.acks == 0 then
           && en.reqsHandled == c.served - 1
           && pending == (if en.isIdle then [Got(en.pid, c.served - 1)] else []) + [Done(en.pid, c.served)]
         else c.acks == 1 && pending == [] && en.isIdle && en.reqsHandled == c.served
  }

  /** The list and the processes name the same pids, each once. */
  predicate Roster(p: Parent, children: map<Pid, Child>) {
    && p.numWorkers == |p.workers|
    && p.numIdle == CountIdle(p.workers)
    && (forall i :: 0 <= i < |p.workers| ==> p.workers[i].pid in children)
    && (forall pid :: pid in children ==> IndexOf(p.workers, pid) < |p.workers|)
    && (forall i, j :: 0 <= i < j < |p.workers| ==> p.workers[i].pid != p.workers[j].pid)
  }

  predicate AllInStep(ws: seq<Entry>, children: map<Pid, Child>, box: seq<ControlMsg>) {
    forall i :: 0 <= i < |ws| ==>
      ws[i].pid in children && InStep(ws[i], children[ws[i].pid], From(box, ws[i].pid))
  }

  predicate HeldBy(children: map<Pid, Child>, p: Pid, conn: nat) {
    && p in children
    && (children[p].phase.Announcing? || children[p].phase.Serving?)
    && children[p].phase.conn == conn
  }

  /** No accepted connection is lost: it is answered or in the hands of exactly one live worker. */
  ghost predicate Conserved(children: map<Pid, Child>, accepted: nat, answered: set<nat>) {
    && (forall k :: k in answered ==> k < accepted)
    && (forall p, k: nat :: HeldBy(children, p, k) ==> k < accepted && k !in answered)
    && (forall p, q, k: nat :: HeldBy(children, p, k) && HeldBy(children, q, k) ==> p == q)
    && (forall k: nat :: k < accepted && k !in answered ==> exists p :: HeldBy(children, p, k))
  }

  predicate Addressed(children: map<Pid, Child>, box: seq<ControlMsg>) {
    forall i :: 0 <= i < |box| ==> box[i].pid in children
  }

  ghost predicate Good(p: Parent, children: map<Pid, Child>, box: seq<ControlMsg>, accepted: nat, answered: set<nat>) {
    && Roster(p, children)
    && AllInStep(p.workers, children, box)
    && Addressed(children, box)
    && Conserved(children, accepted, answered)
  }

  ghost predicate Inv(w: World) { Good(w.parent, w.children, w.mailbox, w.accepted, w.answered) }

  // ---- lemmas about the roster ----

  lemma {:induction false} CountIdleConcat(a: seq<Entry>, b: seq<Entry>)
    ensures CountIdle(a + b) == CountIdle(a) + CountIdle(b)
  {
    if a == [] { assert a + b == b; } else {
      assert (a + b)[1..] == a[1..] + b;
      CountIdleConcat(a[1..], b);
    }
  }

  lemma CountIdleSplit(ws: seq<Entry>, i: nat)
    requires i < |ws|
    ensures CountIdle(ws) == CountIdle(ws[..i]) + (if ws[i].isIdle then 1 else 0) + CountIdle(ws[i + 1..])
    ensures CountIdle(ws[..i] + ws[i + 1..]) == CountIdle(ws[..i]) + CountIdle(ws[i + 1..])
  {
    assert ws == ws[..i] + ws[i..];
    CountIdleConcat(ws[..i], ws[i..]);
    assert ws[i..][1..] == ws[i + 1..];
    CountIdleConcat(ws[..i], ws[i + 1..]);
  }

  lemma CountIdleUpdate(ws: seq<Entry>, i: nat, en: Entry)
    requires i < |ws|
    ensures CountIdle(ws[i := en]) == CountIdle(ws) - (if ws[i].isIdle then 1 else 0) + (if en.isIdle then 1 else 0)
  {
    CountIdleSplit(ws, i);
    var vs := ws[i := en];
    CountIdleSplit(vs, i);
    assert vs[..i] == ws[..i] && vs[i + 1..] == ws[i + 1..];
  }

  lemma {:induction false} CountIdleBound(ws: seq<Entry>)
    ensures CountIdle(ws) <= |ws|
  {
    if ws != [] { CountIdleBound(ws[1..]); }
  }

  lemma RosterAdd(p: Parent, children: map<Pid, Child>, pid: Pid, c: Child)
    requires Roster(p, children) && pid !in children
    ensures Roster(Add(p, pid), children[pid := c])
  {
    var ws := Add(p, pid).workers;
    assert ws[1..] == p.workers;
  }

  lemma RosterUpdate(p: Parent, children: map<Pid, Child>, i: nat, en: Entry)
    requires Roster(p, children) && i < |p.workers| && en.pid == p.workers[i].pid
    ensures var d := (if en.isIdle then 1 else 0) - (if p.workers[i].isIdle then 1 else 0);
            Roster(Parent(p.workers[i := en], p.numWorkers, p.numIdle + d), children)
  {
    CountIdleUpdate(p.workers, i, en);
    var ws := p.workers[i := en];
    forall pid | pid in children ensures IndexOf(ws, pid) < |ws| {
      var k := IndexOf(p.workers, pid);
      assert ws[k].pid == pid;
    }
  }

  lemma DistinctWithout(ws: seq<Entry>, i: nat)
    requires i < |ws|
    requires forall a, b :: 0 <= a < b < |ws| ==> ws[a].pid != ws[b].pid
    ensures var vs := ws[..i] + ws[i + 1..]; forall a, b :: 0 <= a < b < |vs| ==> vs[a].pid != vs[b].pid
  {
    var vs := ws[..i] + ws[i + 1..];
    forall a, b | 0 <= a < b < |vs| ensures vs[a].pid != vs[b].pid {
      assert vs[a] == ws[if a < i then a else a + 1] && vs[b] == ws[if b < i then b else b + 1];
    }
  }

  lemma MembersWithout(ws: seq<Entry>, children: map<Pid, Child>, i: nat)
    requires i < |ws|
    requires forall k :: 0 <= k < |ws| ==> ws[k].pid in children
    requires forall pid :: pid in children ==> IndexOf(ws, pid) < |ws|
    requires forall a, b :: 0 <= a < b < |ws| ==> ws[a].pid != ws[b].pid
    ensures var vs, rest := ws[..i] + ws[i + 1..], children - {ws[i].pid};
            && (forall k :: 0 <= k < |vs| ==> vs[k].pid in rest)
            && (forall pid :: pid in rest ==> IndexOf(vs, pid) < |vs|)
  {
    var vs, rest := ws[..i] + ws[i + 1..], children - {ws[i].pid};
    forall k | 0 <= k < |vs| ensures vs[k].pid in rest {
      assert vs[k] == ws[if k < i then k else k + 1];
    }
    forall pid | pid in rest ensures IndexOf(vs, pid) < |vs| {
      var k := IndexOf(ws, pid);
      assert vs[if k < i then k else k - 1] == ws[k];
    }
  }

  lemma RosterRemove(p: Parent, children: map<Pid, Child>, i: nat)
    requires Roster(p, children) && i < |p.workers| && p.workers[i].isIdle
    ensures Roster(Remove(p, i), children - {p.workers[i].pid})
  {
    CountIdleSplit(p.workers, i);
    DistinctWithout(p.workers, i);
    MembersWithout(p.workers, children, i);
  }

  // ---- every step keeps the invariant ----

  lemma {:induction false} FromNone(box: seq<ControlMsg>, pid: Pid)
    requires forall i :: 0 <= i < |box| ==> box[i].pid != pid
    ensures From(box, pid) == []
  {
    if box != [] { FromNone(box[1..], pid); }
  }

  lemma FromSent(box: seq<ControlMsg>, sent: seq<ControlMsg>, p: Pid, q: Pid)
    requires |sent| <= 1 && (sent != [] ==> sent[0].pid == p)
    ensures From(box + sent, q) == if q == p then From(box, q) + sent else From(box, q)
  {
    if sent == [] {
      assert box + sent == box && From(box, q) + sent == From(box, q);
    } else {
      assert sent == [sent[0]];
      FromAppend(box, sent[0], q);
    }
  }

  /** Worker p moves to c and perhaps sends one message; everybody else stays in step. */
  lemma ChildMoves(ws: seq<Entry>, children: map<Pid, Child>, box: seq<ControlMsg>, p: Pid, c: Child,
                   sent: seq<ControlMsg>)
    requires AllInStep(ws, children, box)
    requires |sent| <= 1 && (sent != [] ==> sent[0].pid == p)
    requires forall i :: 0 <= i < |ws| && ws[i].pid == p ==> InStep(ws[i], c, From(box, p) + sent)
    ensures AllInStep(ws, children[p := c], box + sent)
  {
    var after := children[p := c];
    forall i | 0 <= i < |ws|
      ensures ws[i].pid in after && InStep(ws[i], after[ws[i].pid], From(box + sent, ws[i].pid))
    {
      FromSent(box, sent, p, ws[i].pid);
    }
  }

  lemma SameHands(before: map<Pid, Child>, after: map<Pid, Child>, accepted: nat, answered: set<nat>)
    requires Conserved(before, accepted, answered)
    requires forall p, k: nat :: HeldBy(before, p, k) <==> HeldBy(after, p, k)
    ensures Conserved(after, accepted, answered)
  {
    forall k: nat | k < accepted && k !in answered ensures exists p :: HeldBy(after, p, k) {
      var p :| HeldBy(before, p, k);
      assert HeldBy(after, p, k);
    }
  }

  lemma AcceptConserves(before: map<Pid, Child>, p: Pid, accepted: nat, answered: set<nat>)
    requires Conserved(before, accepted, answered)
    requires p in before && before[p].phase == Accepting
    ensures Conserved(before[p := before[p].(phase := Announcing(accepted))], accepted + 1, answered)
  {
    var after := before[p := before[p].(phase := Announcing(accepted))];
    assert HeldBy(after, p, accepted);
    assert forall q, k: nat :: HeldBy(after, q, k) ==> HeldBy(before, q, k) || (q == p && k == accepted);
    forall k: nat | k < accepted && k !in answered ensures exists q :: HeldBy(after, q, k) {
      var q :| HeldBy(before, q, k);
      assert HeldBy(after, q, k);
    }
  }

  lemma ReplyConserves(before: map<Pid, Child>, p: Pid, c: Child, accepted: nat, answered: set<nat>)
    requires Conserved(before, accepted, answered)
    requires p in before && before[p].phase.Serving? && c.phase == Replied
    ensures Conserved(before[p := c], accepted, answered + {before[p].phase.conn})
  {
    var after := before[p := c];
    assert HeldBy(before, p, before[p].phase.conn);
    assert forall q, k: nat :: HeldBy(after, q, k) ==> HeldBy(before, q, k) && q != p;
    forall k: nat | k < accepted && k !in answered + {before[p].phase.conn} ensures exists q :: HeldBy(after, q, k) {
      var q :| HeldBy(before, q, k);
      assert HeldBy(after, q, k);
    }
  }

  /** What a worker event puts into the mailbox. */
  function Sent(w: World, e: Event): seq<ControlMsg>
    requires e.pid in w.children
  {
    match e
    case Announce(p) => [Got(p, w.children[p].served)]
    case Report(p) => [Done(p, w.children[p].served)]
    case _ => []
  }

  lemma WorkerStepInStep(cfg: Config, w: World, e: Event, en: Entry, pending: seq<ControlMsg>)
    requires Enabled(cfg, w, e) && !e.Spawn? && !e.Dispatch? && en.pid == e.pid
    requires InStep(en, w.children[e.pid], pending)
    ensures InStep(en, Step(cfg, w, e).children[e.pid], pending + Sent(w, e))
  {
    assert pending + [] == pending;
  }

  lemma WorkerStepConserves(cfg: Config, w: World, e: Event)
    requires Enabled(cfg, w, e) && !e.Spawn? && !e.Dispatch?
    requires Conserved(w.children, w.accepted, w.answered)
    ensures var w' := Step(cfg, w, e); Conserved(w'.children, w'.accepted, w'.answered)
  {
    var c := Step(cfg, w, e).children[e.pid];
    match e
    case Accept(p) => AcceptConserves(w.children, p, w.accepted, w.answered);
    case Reply(p) => ReplyConserves(w.children, p, c, w.accepted, w.answered);
    case _ => SameHands(w.children, w.children[e.pid := c], w.accepted, w.answered);
  }

  lemma RosterSameKeys(p: Parent, children: map<Pid, Child>, pid: Pid, c: Child)
    requires Roster(p, children) && pid in children
    ensures Roster(p, children[pid := c])
  {
  }

  lemma WorkerStepKeeps(cfg: Config, w: World, e: Event)
    requires Inv(w) && Enabled(cfg, w, e) && !e.Spawn? && !e.Dispatch?
    ensures Inv(Step(cfg, w, e))
  {
    var w' := Step(cfg, w, e);
    var c := w'.children[e.pid];
    forall i | 0 <= i < |w.parent.workers| && w.parent.workers[i].pid == e.pid
      ensures InStep(w.parent.workers[i], c, From(w.mailbox, e.pid) + Sent(w, e))
    {
      WorkerStepInStep(cfg, w, e, w.parent.workers[i], From(w.mailbox, e.pid));
    }
    ChildMoves(w.parent.workers, w.children, w.mailbox, e.pid, c, Sent(w, e));
    assert w'.mailbox == w.mailbox + Sent(w, e) && w'.children == w.children[e.pid := c];
    RosterSameKeys(w.parent, w.children, e.pid, c);
    WorkerStepConserves(cfg, w, e);
  }

  /** A newly forked worker joins: no messages pending, no connection in hand. */
  lemma JoinKeeps(p: Parent, children: map<Pid, Child>, box: seq<ControlMsg>, pid: Pid, accepted: nat,
                  answered: set<nat>)
    requires Good(p, children, box, accepted, answered) && pid !in children
    ensures Good(Add(p, pid), children[pid := NEWBORN], box, accepted, answered)
  {
    RosterAdd(p, children, pid, NEWBORN);
    FromNone(box, pid);
    SameHands(children, children[pid := NEWBORN], accepted, answered);
  }

  lemma {:induction false} FromEmpty(box: seq<ControlMsg>, pid: Pid)
    requires From(box, pid) == []
    ensures forall i :: 0 <= i < |box| ==> box[i].pid != pid
  {
    if box != [] { FromEmpty(box[1..], pid); }
  }

  /** A worker with nothing pending and nothing in hand leaves. */
  lemma LeaveKeeps(p: Parent, children: map<Pid, Child>, box: seq<ControlMsg>, i: nat, accepted: nat,
                   answered: set<nat>)
    requires Roster(p, children) && i < |p.workers| && p.workers[i].isIdle
    requires OthersOk(p.workers, children, box, i)
    requires Addressed(children, box) && From(box, p.workers[i].pid) == []
    requires Conserved(children, accepted, answered) && children[p.workers[i].pid].phase == AwaitingAck
    ensures Good(Remove(p, i), children - {p.workers[i].pid}, box, accepted, answered)
  {
    var rest := children - {p.workers[i].pid};
    RosterRemove(p, children, i);
    var ws := Remove(p, i).workers;
    forall k | 0 <= k < |ws| ensures InStep(ws[k], rest[ws[k].pid], From(box, ws[k].pid)) {
      assert ws[k] == p.workers[if k < i then k else k + 1];
    }
    FromEmpty(box, p.workers[i].pid);
    SameHands(children, rest, accepted, answered);
  }

  /** What a message at the head of a worker's pending messages says about the worker. */
  lemma HeadFacts(en: Entry, c: Child, m: ControlMsg, rest: seq<ControlMsg>)
    requires InStep(en, c, [m] + rest)
    ensures m.kind == GOT_REQUEST || m.kind == COMPLETED_REQUEST
    ensures m.kind == COMPLETED_REQUEST ==>
              c.phase == AwaitingAck && c.acks == 0 && rest == [] && m.reqsHandled == c.served >= 1 && !en.isIdle
    ensures m.kind == GOT_REQUEST ==> en.isIdle && !c.phase.Accepting? && !c.phase.Announcing?
  {
    assert m == ([m] + rest)[0];
    if m.kind == COMPLETED_REQUEST { assert |[m] + rest| == 1; }
  }

  /** The sender of the message at the head of the mailbox is listed, at position i. */
  lemma HeadSender(w: World) returns (i: nat)
    requires Inv(w) && w.mailbox != []
    ensures i == IndexOf(w.parent.workers, w.mailbox[0].pid) < |w.parent.workers|
    ensures var m, rest := w.mailbox[0], w.mailbox[1..];
            var en, c := w.parent.workers[i], w.children[m.pid];
            && en.pid == m.pid && InStep(en, c, [m] + From(rest, m.pid))
            && (m.kind == GOT_REQUEST || m.kind == COMPLETED_REQUEST)
            && (m.kind == COMPLETED_REQUEST ==>
                  && c.phase == AwaitingAck && c.acks == 0 && From(rest, m.pid) == []
                  && m.reqsHandled == c.served >= 1 && !en.isIdle)
            && (m.kind == GOT_REQUEST ==> en.isIdle && !c.phase.Accepting? && !c.phase.Announcing?)
  {
    var m, rest := w.mailbox[0], w.mailbox[1..];
    i := IndexOf(w.parent.workers, m.pid);
    assert w.mailbox[0].pid in w.children;
    var en := w.parent.workers[i];
    assert From(w.mailbox, m.pid) == [m] + From(rest, m.pid);
    HeadFacts(en, w.children[en.pid], m, From(rest, m.pid));
  }

  predicate OthersOk(ws: seq<Entry>, children: map<Pid, Child>, box: seq<ControlMsg>, i: nat) {
    forall k :: 0 <= k < |ws| && k != i ==>
      ws[k].pid in children && InStep(ws[k], children[ws[k].pid], From(box, ws[k].pid))
  }

  /** Reading the head message does not concern the other workers. */
  lemma OthersInStep(ws: seq<Entry>, children: map<Pid, Child>, box: seq<ControlMsg>, i: nat)
    requires AllInStep(ws, children, box) && box != [] && i < |ws| && ws[i].pid == box[0].pid
    requires forall a, b :: 0 <= a < b < |ws| ==> ws[a].pid != ws[b].pid
    ensures OthersOk(ws, children, box[1..], i)
  {
    forall k | 0 <= k < |ws| && k != i ensures From(box, ws[k].pid) == From(box[1..], ws[k].pid) {
      assert [] + From(box[1..], ws[k].pid) == From(box[1..], ws[k].pid);
    }
  }

  lemma GotInStep(en: Entry, c: Child, m: ControlMsg, rest: seq<ControlMsg>)
    requires InStep(en, c, [m] + rest) && m.kind == GOT_REQUEST
    ensures InStep(en.(isIdle := false), c, rest)
  {
    assert ([m] + rest)[0] == m && ([m] + rest)[1..] == rest;
  }

  /** Replacing the entry at i restores step with the shortened mailbox. */
  lemma EntryUpdated(ws: seq<Entry>, children: map<Pid, Child>, box: seq<ControlMsg>, i: nat, en: Entry, c: Child)
    requires i < |ws| && en.pid == ws[i].pid && en.pid in children
    requires forall a, b :: 0 <= a < b < |ws| ==> ws[a].pid != ws[b].pid
    requires OthersOk(ws, children, box, i)
    requires InStep(en, c, From(box, en.pid))
    ensures AllInStep(ws[i := en], children[en.pid := c], box)
  {
  }

  /** The parent after it has read GOT_REQUEST but before it may fork. */
  function Marked(p: Parent, i: nat): Parent
    requires i < |p.workers|
  {
    Parent(p.workers[i := p.workers[i].(isIdle := false)], p.numWorkers, p.numIdle - 1)
  }

  lemma GotMarks(w: World, i: nat)
    requires Inv(w) && w.mailbox != [] && w.mailbox[0].kind == GOT_REQUEST
    requires i == IndexOf(w.parent.workers, w.mailbox[0].pid) < |w.parent.workers|
    ensures Roster(Marked(w.parent, i), w.children)
    ensures AllInStep(Marked(w.parent, i).workers, w.children, w.mailbox[1..])
  {
    var j := HeadSender(w);
    var m, rest := w.mailbox[0], w.mailbox[1..];
    var en := w.parent.workers[i].(isIdle := false);
    RosterUpdate(w.parent, w.children, i, en);
    OthersInStep(w.parent.workers, w.children, w.mailbox, i);
    GotInStep(w.parent.workers[i], w.children[m.pid], m, From(rest, m.pid));
    EntryUpdated(w.parent.workers, w.children, rest, i, en, w.children[m.pid]);
    assert w.children[m.pid := w.children[m.pid]] == w.children;
  }

  lemma DispatchGotKeeps(cfg: Config, w: World, e: Event)
    requires Inv(w) && e.Dispatch? && Enabled(cfg, w, e) && w.mailbox[0].kind == GOT_REQUEST
    ensures Step(cfg, w, e).mode == Running && Inv(Step(cfg, w, e))
  {
    var i := HeadSender(w);
    var p := Marked(w.parent, i);
    GotMarks(w, i);
    assert React(cfg, w.parent, w.mailbox[0], e.pid) ==
           if p.numIdle < cfg.minSpare then Handled(Add(p, e.pid), Spawned) else Handled(p, Nothing);
    if p.numIdle < cfg.minSpare {
      JoinKeeps(p, w.children, w.mailbox[1..], e.pid, w.accepted, w.answered);
    }
  }

  /** The parent after it has recorded a completion but before it decides. */
  function Recorded(p: Parent, i: nat, reqs: int): Parent
    requires i < |p.workers|
  {
    Parent(p.workers[i := Entry(p.workers[i].pid, reqs, true)], p.numWorkers, p.numIdle + 1)
  }

  lemma DoneRecords(w: World, i: nat)
    requires Inv(w) && w.mailbox != [] && w.mailbox[0].kind == COMPLETED_REQUEST
    requires i == IndexOf(w.parent.workers, w.mailbox[0].pid) < |w.parent.workers|
    ensures var p := Recorded(w.parent, i, w.mailbox[0].reqsHandled);
            && Roster(p, w.children)
            && OthersOk(p.workers, w.children, w.mailbox[1..], i)
  {
    var j := HeadSender(w);
    RosterUpdate(w.parent, w.children, i, Entry(w.mailbox[0].pid, w.mailbox[0].reqsHandled, true));
    OthersInStep(w.parent.workers, w.children, w.mailbox, i);
  }

  predicate HeadIsDone(w: World, i: nat) {
    && w.mailbox != [] && w.mailbox[0].kind == COMPLETED_REQUEST
    && i == IndexOf(w.parent.workers, w.mailbox[0].pid) < |w.parent.workers|
  }

  function AfterAck(w: World, i: nat): World
    requires HeadIsDone(w, i) && w.mailbox[0].pid in w.children
  {
    var m := w.mailbox[0];
    w.(parent := Recorded(w.parent, i, m.reqsHandled), mailbox := w.mailbox[1..],
       children := w.children[m.pid := w.children[m.pid].(acks := w.children[m.pid].acks + 1)])
  }

  function AfterKill(w: World, i: nat): World
    requires HeadIsDone(w, i)
  {
    var m := w.mailbox[0];
    w.(parent := Remove(Recorded(w.parent, i, m.reqsHandled), i), mailbox := w.mailbox[1..],
       children := w.children - {m.pid})
  }

  function AfterRecycle(w: World, i: nat, newPid: Pid): World
    requires HeadIsDone(w, i)
  {
    var dead := AfterKill(w, i);
    dead.(parent := Add(dead.parent, newPid), children := dead.children[newPid := NEWBORN])
  }

  lemma AddressedTail(children: map<Pid, Child>, box: seq<ControlMsg>, pid: Pid, c: Child)
    requires Addressed(children, box) && box != []
    ensures Addressed(children[pid := c], box[1..])
  {
  }

  lemma AckedKeeps(w: World, i: nat)
    requires Inv(w) && HeadIsDone(w, i) && w.mailbox[0].pid in w.children
    ensures Inv(AfterAck(w, i))
  {
    var m := w.mailbox[0];
    var j := HeadSender(w);
    var c := AfterAck(w, i).children[m.pid];
    DoneRecords(w, i);
    RosterSameKeys(Recorded(w.parent, i, m.reqsHandled), w.children, m.pid, c);
    OthersInStep(w.parent.workers, w.children, w.mailbox, i);
    EntryUpdated(w.parent.workers, w.children, w.mailbox[1..], i, Entry(m.pid, m.reqsHandled, true), c);
    AddressedTail(w.children, w.mailbox, m.pid, c);
    SameHands(w.children, w.children[m.pid := c], w.accepted, w.answered);
  }

  /** The sender of a completion may be removed once the completion has been recorded. */
  lemma KilledKeeps(w: World, i: nat)
    requires Inv(w) && HeadIsDone(w, i)
    ensures Inv(AfterKill(w, i))
  {
    var j := HeadSender(w);
    DoneRecords(w, i);
    LeaveKeeps(Recorded(w.parent, i, w.mailbox[0].reqsHandled), w.children, w.mailbox[1..], i, w.accepted, w.answered);
  }

  lemma RecycledKeeps(w: World, i: nat, newPid: Pid)
    requires Inv(w) && HeadIsDone(w, i) && newPid !in AfterKill(w, i).children
    ensures Inv(AfterRecycle(w, i, newPid))
  {
    KilledKeeps(w, i);
    var dead := AfterKill(w, i);
    JoinKeeps(dead.parent, dead.children, dead.mailbox, newPid, w.accepted, w.answered);
  }

  /** The three ways a completion can be handled. */
  lemma DoneStep(cfg: Config, w: World, e: Event, i: nat)
    requires e.Dispatch? && Enabled(cfg, w, e) && HeadIsDone(w, i) && w.mailbox[0].pid in w.children
    requires Step(cfg, w, e).mode != Crashed
    ensures var w' := Step(cfg, w, e);
            || w' == AfterAck(w, i)
            || w' == AfterKill(w, i)
            || (e.pid !in AfterKill(w, i).children && w' == AfterRecycle(w, i, e.pid))
  {
  }

  lemma DispatchDoneKeeps(cfg: Config, w: World, e: Event)
    requires Inv(w) && e.Dispatch? && Enabled(cfg, w, e) && w.mailbox[0].kind == COMPLETED_REQUEST
    requires Step(cfg, w, e).mode != Crashed
    ensures Inv(Step(cfg, w, e))
  {
    var i := IndexOf(w.parent.workers, w.mailbox[0].pid);
    assert w.mailbox[0].pid in w.children;
    DoneStep(cfg, w, e, i);
    DoneCasesKeep(w, Step(cfg, w, e), i, e.pid);
  }

  lemma DoneCasesKeep(w: World, w': World, i: nat, newPid: Pid)
    requires Inv(w) && HeadIsDone(w, i) && w.mailbox[0].pid in w.children
    requires || w' == AfterAck(w, i)
             || w' == AfterKill(w, i)
             || (newPid !in AfterKill(w, i).children && w' == AfterRecycle(w, i, newPid))
    ensures Inv(w')
  {
    if w' == AfterAck(w, i) {
      AckedKeeps(w, i);
    } else if w' == AfterKill(w, i) {
      KilledKeeps(w, i);
    } else {
      RecycledKeeps(w, i, newPid);
    }
  }

  lemma StepKeeps(cfg: Config, w: World, e: Event)
    requires Inv(w) && Enabled(cfg, w, e) && Step(cfg, w, e).mode != Crashed
    ensures Inv(Step(cfg, w, e))
  {
    if e.Spawn? {
      JoinKeeps(w.parent, w.children, w.mailbox, e.pid, w.accepted, w.answered);
    } else if e.Dispatch? {
      var i := HeadSender(w);
      if w.mailbox[0].kind == GOT_REQUEST { DispatchGotKeeps(cfg, w, e); } else { DispatchDoneKeeps(cfg, w, e); }
    } else {
      WorkerStepKeeps(cfg, w, e);
    }
  }
}

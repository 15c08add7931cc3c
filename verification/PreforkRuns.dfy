/** What holds over every run of the prefork server. */
module PreforkRuns {
  import opened PreforkParent
  import opened PreforkProtocol

  // ---- invariants of whole runs ----

  /** Until a crash, every world of every run satisfies the invariant. */
  lemma {:induction false} RunKeepsInv(cfg: Config, ws: seq<World>, es: seq<Event>, i: nat)
    requires Run(cfg, ws, es) && i < |ws| && ws[i].mode != Crashed
    ensures Inv(ws[i])
    ensures forall j :: 0 <= j < i ==> ws[j].mode != Crashed
  {
    if i > 0 {
      assert Enabled(cfg, ws[i - 1], es[i - 1]) && ws[i] == Step(cfg, ws[i - 1], es[i - 1]);
      RunKeepsInv(cfg, ws, es, i - 1);
      StepKeeps(cfg, ws[i - 1], es[i - 1]);
    }
  }

  /** The spare-server band, and during startup the promise of where it will end. */
  predicate Band(cfg: Config, w: World) {
    match w.mode
    case Spawning(batch, left) =>
      && 1 <= left <= batch <= 32
      && SpawnTotal(w.parent.numIdle + left - batch, batch, cfg.minSpare) == StartupCount(cfg.minSpare)
    case Running =>
      && cfg.minSpare <= w.parent.numIdle
      && (w.parent.numIdle <= cfg.maxSpare || w.parent.numIdle <= StartupCount(cfg.minSpare))
    case Crashed => true
  }

  /** Finishing a batch below the minimum goes on with the next batch. */
  lemma NextBatch(idle: int, n: nat, minSpare: int)
    requires 1 <= n <= 32 && idle + n < minSpare
    ensures SpawnTotal(idle, n, minSpare) == SpawnTotal(idle + n, Capped(2 * n), minSpare)
  {
    SpawnTotalCaps(idle + n, minSpare);
    assert SpawnTotal(idle, n, minSpare) == SpawnTotal(idle + n, 2 * n, minSpare);
  }

  lemma StepKeepsBand(cfg: Config, w: World, e: Event)
    requires Enabled(cfg, w, e) && Band(cfg, w)
    ensures Band(cfg, Step(cfg, w, e))
  {
    if e.Spawn? && w.mode.left == 1 && w.parent.numIdle + 1 < cfg.minSpare {
      NextBatch(w.parent.numIdle + 1 - w.mode.batch, w.mode.batch, cfg.minSpare);
    }
  }

  /** After startup the idle counter stays between the minimum and the larger of the maximum and
      the startup count, in every run under every configuration. */
  lemma {:induction false} IdleStaysInBand(cfg: Config, ws: seq<World>, es: seq<Event>, i: nat)
    requires Run(cfg, ws, es) && i < |ws|
    ensures Band(cfg, ws[i])
  {
    if i > 0 {
      assert Enabled(cfg, ws[i - 1], es[i - 1]) && ws[i] == Step(cfg, ws[i - 1], es[i - 1]);
      IdleStaysInBand(cfg, ws, es, i - 1);
      StepKeepsBand(cfg, ws[i - 1], es[i - 1]);
    }
  }

  /** Startup ends with the fork that completes a batch, and exactly with the startup count. */
  lemma StartupForksExactly(cfg: Config, ws: seq<World>, es: seq<Event>, i: nat)
    requires Run(cfg, ws, es) && i < |es| && ws[i].mode.Spawning? && !ws[i + 1].mode.Spawning?
    ensures es[i].Spawn? && ws[i + 1].mode == Running
    ensures ws[i + 1].parent.numIdle == StartupCount(cfg.minSpare)
  {
    assert Enabled(cfg, ws[i], es[i]) && ws[i + 1] == Step(cfg, ws[i], es[i]);
    IdleStaysInBand(cfg, ws, es, i);
  }

  // ---- killing ----

  /** The pid a dispatch of the head message would kill. */
  function Victim(cfg: Config, w: World, newPid: Pid): (dead: set<Pid>)
    requires w.mailbox != []
  {
    match React(cfg, w.parent, w.mailbox[0], newPid)
    case Handled(_, Killed(p)) => {p}
    case Handled(_, Recycled(p)) => {p}
    case _ => {}
  }

  /** A worker is killed only while it waits for its acknowledgement: it holds no connection and
      none of its messages is left in the mailbox. */
  lemma KilledOnlyWhileBlocked(cfg: Config, ws: seq<World>, es: seq<Event>, i: nat, dead: Pid)
    requires Run(cfg, ws, es) && i < |es| && es[i].Dispatch? && ws[i].mode == Running
    requires ws[i].mailbox != [] && dead in Victim(cfg, ws[i], es[i].pid)
    ensures dead in ws[i].children
    ensures ws[i].children[dead].phase == AwaitingAck && ws[i].children[dead].acks == 0
    ensures forall k: nat :: !HeldBy(ws[i].children, dead, k)
    ensures var box := ws[i + 1].mailbox; forall j :: 0 <= j < |box| ==> box[j].pid != dead
  {
    RunKeepsInv(cfg, ws, es, i);
    assert Enabled(cfg, ws[i], es[i]) && ws[i + 1] == Step(cfg, ws[i], es[i]);
    var k := HeadSender(ws[i]);
    FromEmpty(ws[i].mailbox[1..], dead);
  }

  /** Every accepted connection is answered, or one live worker is working on it. */
  lemma NoRequestLost(cfg: Config, ws: seq<World>, es: seq<Event>, i: nat, conn: nat)
    requires Run(cfg, ws, es) && i < |ws| && ws[i].mode != Crashed && conn < ws[i].accepted
    ensures conn in ws[i].answered <==> forall p :: !HeldBy(ws[i].children, p, conn)
    ensures forall p, q :: HeldBy(ws[i].children, p, conn) && HeldBy(ws[i].children, q, conn) ==> p == q
  {
    RunKeepsInv(cfg, ws, es, i);
  }

  /** get_worker_by_id never returns NULL to the handler: every pending message is from a listed worker. */
  lemma SenderAlwaysListed(cfg: Config, ws: seq<World>, es: seq<Event>, i: nat)
    requires Run(cfg, ws, es) && i < |ws| && ws[i].mode != Crashed
    ensures forall j :: 0 <= j < |ws[i].mailbox| ==>
              IndexOf(ws[i].parent.workers, ws[i].mailbox[j].pid) < |ws[i].parent.workers|
  {
    RunKeepsInv(cfg, ws, es, i);
  }

  // ---- when the parent crashes ----

  /** Removing the only worker is the one way the parent can fail; these settings exclude it. */
  predicate SafeConfig(cfg: Config) {
    cfg.minSpare >= 1 || (cfg.maxSpare >= 1 && cfg.maxRequests <= 0)
  }

  predicate Lone(w: World) {
    match w.mode
    case Spawning(batch, left) => batch == 1 && left == 1 && w.parent.workers == []
    case Running => |w.parent.workers| == 1
    case Crashed => false
  }

  ghost predicate Healthy(cfg: Config, w: World) {
    w.mode != Crashed && Inv(w) && Band(cfg, w) && (cfg.minSpare <= 0 ==> Lone(w))
  }

  lemma HealthyDispatchOfGot(cfg: Config, w: World, e: Event)
    requires SafeConfig(cfg) && Healthy(cfg, w) && Enabled(cfg, w, e) && e.Dispatch?
    requires w.mailbox[0].kind == GOT_REQUEST
    ensures Healthy(cfg, Step(cfg, w, e))
  {
    DispatchGotKeeps(cfg, w, e);
    StepKeepsBand(cfg, w, e);
    var i := HeadSender(w);
    CountIdleSplit(w.parent.workers, i);
  }

  lemma HealthyDispatchOfDone(cfg: Config, w: World, e: Event)
    requires SafeConfig(cfg) && Healthy(cfg, w) && Enabled(cfg, w, e) && e.Dispatch?
    requires w.mailbox[0].kind == COMPLETED_REQUEST
    ensures Healthy(cfg, Step(cfg, w, e))
  {
    var i := HeadSender(w);
    CountIdleBound(w.parent.workers);
    CountIdleSplit(w.parent.workers, i);
    CountIdleBound(w.parent.workers[..i]);
    CountIdleBound(w.parent.workers[i + 1..]);
    DispatchDoneKeeps(cfg, w, e);
    StepKeepsBand(cfg, w, e);
  }

  lemma HealthyStep(cfg: Config, w: World, e: Event)
    requires SafeConfig(cfg) && Healthy(cfg, w) && Enabled(cfg, w, e)
    ensures Healthy(cfg, Step(cfg, w, e))
  {
    if e.Dispatch? {
      var i := HeadSender(w);
      if w.mailbox[0].kind == GOT_REQUEST {
        HealthyDispatchOfGot(cfg, w, e);
      } else {
        HealthyDispatchOfDone(cfg, w, e);
      }
    } else {
      StepKeeps(cfg, w, e);
      StepKeepsBand(cfg, w, e);
    }
  }

  lemma {:induction false} SafeRunsNeverCrash(cfg: Config, ws: seq<World>, es: seq<Event>, i: nat)
    requires SafeConfig(cfg) && Run(cfg, ws, es) && i < |ws|
    ensures Healthy(cfg, ws[i])
  {
    if i > 0 {
      assert Enabled(cfg, ws[i - 1], es[i - 1]) && ws[i] == Step(cfg, ws[i - 1], es[i - 1]);
      SafeRunsNeverCrash(cfg, ws, es, i - 1);
      HealthyStep(cfg, ws[i - 1], es[i - 1]);
    }
  }

  lemma Extend(cfg: Config, ws: seq<World>, es: seq<Event>, e: Event) returns (ws': seq<World>, es': seq<Event>)
    requires Run(cfg, ws, es) && Enabled(cfg, ws[|es|], e)
    ensures Run(cfg, ws', es') && es' == es + [e] && ws'[|es'|] == Step(cfg, ws[|es|], e)
  {
    ws', es' := ws + [Step(cfg, ws[|es|], e)], es + [e];
    forall i | 0 <= i < |es'| ensures Enabled(cfg, ws'[i], es'[i]) && ws'[i + 1] == Step(cfg, ws'[i], es'[i]) {
      if i < |es| { assert ws'[i] == ws[i] && ws'[i + 1] == ws[i + 1]; }
    }
  }

  function FirstN(n: nat): set<nat> { if n == 0 then {} else FirstN(n - 1) + {n - 1} }

  /** A single worker, pid 1, that has served j requests and is waiting for the next. */
  function Solo(j: nat): World {
    World(Running, Parent([Entry(1, j, true)], 1, 1), map[1 := Child(Accepting, j, 0)], [], j, FirstN(j))
  }

  /** The same worker has served one more, and its two messages are unread. */
  function SoloReported(j: nat): World {
    World(Running, Parent([Entry(1, j, true)], 1, 1), map[1 := Child(AwaitingAck, j + 1, 0)],
          [Got(1, j), Done(1, j + 1)], j + 1, FirstN(j + 1))
  }

  lemma SoloServes(cfg: Config, ws: seq<World>, es: seq<Event>, j: nat) returns (ws': seq<World>, es': seq<Event>)
    requires Run(cfg, ws, es) && ws[|es|] == Solo(j)
    ensures Run(cfg, ws', es') && ws'[|es'|] == SoloReported(j)
  {
    ws', es' := Extend(cfg, ws, es, Accept(1));
    ws', es' := Extend(cfg, ws', es', Announce(1));
    assert ws'[|es'|].mailbox == [Got(1, j)];
    ws', es' := Extend(cfg, ws', es', Reply(1));
    assert ws'[|es'|].answered == FirstN(j + 1);
    ws', es' := Extend(cfg, ws', es', Report(1));
  }

  /** The parent's view after it has read the first of the two messages. */
  lemma SoloDispatchGot(cfg: Config, ws: seq<World>, es: seq<Event>, j: nat) returns (ws': seq<World>, es': seq<Event>)
    requires Run(cfg, ws, es) && ws[|es|] == SoloReported(j) && cfg.minSpare <= 0
    ensures Run(cfg, ws', es')
    ensures ws'[|es'|] == SoloReported(j).(parent := Parent([Entry(1, j, false)], 1, 0), mailbox := [Done(1, j + 1)])
  {
    ws', es' := Extend(cfg, ws, es, Dispatch(2));
    assert SoloReported(j).mailbox[1..] == [Done(1, j + 1)];
  }

  lemma {:induction false} SoloReaches(cfg: Config, j: nat) returns (ws: seq<World>, es: seq<Event>)
    requires cfg.minSpare <= 0 && (j > 0 ==> cfg.maxSpare >= 1 && j < cfg.maxRequests)
    ensures Run(cfg, ws, es) && ws[|es|] == Solo(j)
  {
    if j == 0 {
      ws, es := Extend(cfg, [Init()], [], Spawn(1));
      assert ws[|es|].answered == FirstN(0);
    } else {
      ws, es := SoloReaches(cfg, j - 1);
      ws, es := SoloServes(cfg, ws, es, j - 1);
      ws, es := SoloDispatchGot(cfg, ws, es, j - 1);
      ws, es := Extend(cfg, ws, es, Dispatch(2));
      ws, es := Extend(cfg, ws, es, TakeAck(1));
    }
  }

  /** Outside SafeConfig the parent does crash: it removes its only worker. */
  lemma UnsafeConfigCrashes(cfg: Config) returns (ws: seq<World>, es: seq<Event>)
    requires !SafeConfig(cfg)
    ensures Run(cfg, ws, es) && ws[|es|].mode == Crashed
  {
    var j: nat := if cfg.maxSpare <= 0 then 0 else cfg.maxRequests - 1;
    ws, es := SoloReaches(cfg, j);
    ws, es := SoloServes(cfg, ws, es, j);
    ws, es := SoloDispatchGot(cfg, ws, es, j);
    ws, es := Extend(cfg, ws, es, Dispatch(2));
  }

  /** The parent survives every run exactly under SafeConfig. */
  lemma CrashFreeIffSafe(cfg: Config)
    ensures SafeConfig(cfg) <==>
            forall ws: seq<World>, es: seq<Event>, i: int :: Run(cfg, ws, es) && 0 <= i < |ws| ==> ws[i].mode != Crashed
  {
    if SafeConfig(cfg) {
      forall ws: seq<World>, es: seq<Event>, i: int | Run(cfg, ws, es) && 0 <= i < |ws| ensures ws[i].mode != Crashed {
        SafeRunsNeverCrash(cfg, ws, es, i);
      }
    } else {
      var ws, es := UnsafeConfigCrashes(cfg);
      assert Run(cfg, ws, es) && ws[|es|].mode == Crashed;
    }
  }

  // ---- the quota ----

  predicate WithinQuota(cfg: Config, w: World) {
    forall p :: p in w.children ==> w.children[p].served <= cfg.maxRequests
  }

  /** A worker about to serve again is strictly below the quota. */
  predicate BelowQuota(cfg: Config, children: map<Pid, Child>) {
    forall p :: p in children ==>
      && children[p].served <= cfg.maxRequests
      && (children[p].served == cfg.maxRequests ==>
            children[p].phase == Replied || (children[p].phase == AwaitingAck && children[p].acks == 0))
  }

  lemma WorkerKeepsQuota(cfg: Config, w: World, e: Event, en: Entry, pending: seq<ControlMsg>)
    requires Enabled(cfg, w, e) && !e.Spawn? && !e.Dispatch? && BelowQuota(cfg, w.children)
    requires InStep(en, w.children[e.pid], pending)
    ensures BelowQuota(cfg, Step(cfg, w, e).children)
  {
  }

  lemma DispatchKeepsQuota(cfg: Config, w: World, e: Event)
    requires cfg.maxRequests >= 1 && Inv(w) && e.Dispatch? && Enabled(cfg, w, e) && BelowQuota(cfg, w.children)
    ensures BelowQuota(cfg, Step(cfg, w, e).children)
  {
    var i := HeadSender(w);
    if w.mailbox[0].kind == COMPLETED_REQUEST && Step(cfg, w, e).mode != Crashed {
      DoneStep(cfg, w, e, i);
      if Step(cfg, w, e) == AfterAck(w, i) { AckedBelowQuota(cfg, w, e, i); }
    }
  }

  /** An acknowledgement is sent only below the quota. */
  lemma AckedBelowQuota(cfg: Config, w: World, e: Event, i: nat)
    requires e.Dispatch? && Enabled(cfg, w, e) && HeadIsDone(w, i) && w.mailbox[0].pid in w.children
    requires Step(cfg, w, e) == AfterAck(w, i)
    ensures w.mailbox[0].reqsHandled != cfg.maxRequests
  {
    var c := w.children[w.mailbox[0].pid];
    assert Step(cfg, w, e).children[w.mailbox[0].pid].acks == c.acks + 1;
  }

  lemma StepKeepsQuota(cfg: Config, w: World, e: Event)
    requires cfg.maxRequests >= 1 && Inv(w) && Enabled(cfg, w, e) && BelowQuota(cfg, w.children)
    ensures BelowQuota(cfg, Step(cfg, w, e).children)
  {
    if e.Dispatch? {
      DispatchKeepsQuota(cfg, w, e);
    } else if !e.Spawn? {
      var en := w.parent.workers[IndexOf(w.parent.workers, e.pid)];
      WorkerKeepsQuota(cfg, w, e, en, From(w.mailbox, e.pid));
    }
  }

  lemma {:induction false} RunKeepsQuota(cfg: Config, ws: seq<World>, es: seq<Event>, i: nat)
    requires cfg.maxRequests >= 1 && Run(cfg, ws, es) && i < |ws| && ws[i].mode != Crashed
    ensures BelowQuota(cfg, ws[i].children)
  {
    if i > 0 {
      RunKeepsInv(cfg, ws, es, i);
      RunKeepsInv(cfg, ws, es, i - 1);
      assert Enabled(cfg, ws[i - 1], es[i - 1]) && ws[i] == Step(cfg, ws[i - 1], es[i - 1]);
      RunKeepsQuota(cfg, ws, es, i - 1);
      StepKeepsQuota(cfg, ws[i - 1], es[i - 1]);
    }
  }

  /** No worker serves more than the quota, exactly when the quota is at least one. */
  lemma QuotaKeptIffPositive(cfg: Config)
    ensures cfg.maxRequests >= 1 <==>
            forall ws: seq<World>, es: seq<Event>, i: int ::
              Run(cfg, ws, es) && 0 <= i < |ws| && ws[i].mode != Crashed ==> WithinQuota(cfg, ws[i])
  {
    if cfg.maxRequests >= 1 {
      forall ws: seq<World>, es: seq<Event>, i: int | Run(cfg, ws, es) && 0 <= i < |ws| && ws[i].mode != Crashed
        ensures WithinQuota(cfg, ws[i])
      {
        RunKeepsQuota(cfg, ws, es, i);
      }
    } else {
      var ws, es := Extend(cfg, [Init()], [], Spawn(1));
      ws, es := Extend(cfg, ws, es, Accept(1));
      ws, es := Extend(cfg, ws, es, Announce(1));
      ws, es := Extend(cfg, ws, es, Reply(1));
      assert ws[|es|].children[1].served == 1;
      assert !WithinQuota(cfg, ws[|es|]);
    }
  }

  // ---- the idle counter, counted from the outside ----

  predicate Engaged(c: Child) { c.phase.Serving? || c.phase == Replied }

  function Pending(box: seq<ControlMsg>, kind: int): nat {
    if box == [] then 0 else (if box[0].kind == kind then 1 else 0) + Pending(box[1..], kind)
  }

  /** Pending messages of one kind, summed worker by worker. */
  function PendingByWorker(ws: seq<Entry>, box: seq<ControlMsg>, kind: int): nat {
    if ws == [] then 0 else Pending(From(box, ws[0].pid), kind) + PendingByWorker(ws[1..], box, kind)
  }

  lemma {:induction false} HeadCountedOnce(ws: seq<Entry>, box: seq<ControlMsg>, kind: int)
    requires box != []
    requires forall a, b :: 0 <= a < b < |ws| ==> ws[a].pid != ws[b].pid
    ensures PendingByWorker(ws, box, kind) == PendingByWorker(ws, box[1..], kind)
              + (if IndexOf(ws, box[0].pid) < |ws| && box[0].kind == kind then 1 else 0)
  {
    if ws != [] {
      HeadCountedOnce(ws[1..], box, kind);
      PendingOfHead(box, ws[0].pid, kind);
      if ws[0].pid == box[0].pid {
        NotFoundAgain(ws);
      }
    }
  }

  lemma PendingOfHead(box: seq<ControlMsg>, pid: Pid, kind: int)
    requires box != []
    ensures Pending(From(box, pid), kind)
            == Pending(From(box[1..], pid), kind) + (if box[0].pid == pid && box[0].kind == kind then 1 else 0)
  {
    var rest := From(box[1..], pid);
    assert ([box[0]] + rest)[1..] == rest && [] + rest == rest;
  }

  lemma NotFoundAgain(ws: seq<Entry>)
    requires ws != [] && forall a, b :: 0 <= a < b < |ws| ==> ws[a].pid != ws[b].pid
    ensures IndexOf(ws[1..], ws[0].pid) == |ws| - 1
  {
    if IndexOf(ws[1..], ws[0].pid) < |ws| - 1 {
      assert false;
    }
  }

  lemma {:induction false} PendingRegroups(ws: seq<Entry>, box: seq<ControlMsg>, kind: int)
    requires forall a, b :: 0 <= a < b < |ws| ==> ws[a].pid != ws[b].pid
    requires forall i :: 0 <= i < |box| ==> IndexOf(ws, box[i].pid) < |ws|
    ensures PendingByWorker(ws, box, kind) == Pending(box, kind)
  {
    if box == [] {
      NothingPending(ws, kind);
    } else {
      PendingRegroups(ws, box[1..], kind);
      HeadCountedOnce(ws, box, kind);
    }
  }

  lemma NothingPending(ws: seq<Entry>, kind: int)
    ensures PendingByWorker(ws, [], kind) == 0
  {
  }

  /** List entries whose process is not working on a request the parent may hear about. */
  function Unengaged(ws: seq<Entry>, children: map<Pid, Child>): nat {
    if ws == [] then 0
    else (if ws[0].pid in children && !Engaged(children[ws[0].pid]) then 1 else 0) + Unengaged(ws[1..], children)
  }

  lemma {:induction false} IdleByWorker(ws: seq<Entry>, children: map<Pid, Child>, box: seq<ControlMsg>)
    requires AllInStep(ws, children, box)
    ensures CountIdle(ws) == Unengaged(ws, children)
              + PendingByWorker(ws, box, GOT_REQUEST) - PendingByWorker(ws, box, COMPLETED_REQUEST)
  {
    if ws != [] {
      IdleByWorker(ws[1..], children, box);
      PendingOfOne(ws[0], children[ws[0].pid], From(box, ws[0].pid));
    }
  }

  lemma PendingOfOne(en: Entry, c: Child, pending: seq<ControlMsg>)
    requires InStep(en, c, pending)
    ensures (if en.isIdle then 1 else 0) ==
            (if Engaged(c) then 0 else 1) + Pending(pending, GOT_REQUEST) - Pending(pending, COMPLETED_REQUEST)
  {
    assert [Got(en.pid, c.served - 1)][1..] == [];
    assert ([Got(en.pid, c.served - 1)] + [Done(en.pid, c.served)])[1..] == [Done(en.pid, c.served)];
    assert [] + [Done(en.pid, c.served)] == [Done(en.pid, c.served)];
  }

  /** A list with distinct pids counts the processes it names. */
  lemma {:induction false} UnengagedIsFree(ws: seq<Entry>, children: map<Pid, Child>)
    requires forall a, b :: 0 <= a < b < |ws| ==> ws[a].pid != ws[b].pid
    requires forall k :: 0 <= k < |ws| ==> ws[k].pid in children
    requires forall pid :: pid in children ==> IndexOf(ws, pid) < |ws|
    ensures Unengaged(ws, children) == |Free(children)| && |ws| == |children|
  {
    if ws == [] {
      forall pid ensures pid !in children { assert pid in children ==> IndexOf(ws, pid) < |ws|; }
      assert children.Keys == {};
    } else {
      var rest := children - {ws[0].pid};
      forall pid | pid in rest ensures IndexOf(ws[1..], pid) < |ws[1..]| {
        assert IndexOf(ws, pid) == 1 + IndexOf(ws[1..], pid);
      }
      UnengagedIsFree(ws[1..], rest);
      UnengagedAgree(ws[1..], children, rest);
      var c := children[ws[0].pid];
      assert forall p :: p in Free(children) <==> p in Free(rest) || (p == ws[0].pid && !Engaged(c));
      assert Free(children) == Free(rest) + if Engaged(c) then {} else {ws[0].pid};
      assert children.Keys == rest.Keys + {ws[0].pid};
    }
  }

  lemma {:induction false} UnengagedAgree(ws: seq<Entry>, a: map<Pid, Child>, b: map<Pid, Child>)
    requires forall k :: 0 <= k < |ws| ==> ws[k].pid in a && ws[k].pid in b && a[ws[k].pid] == b[ws[k].pid]
    ensures Unengaged(ws, a) == Unengaged(ws, b)
  {
    if ws != [] {
      assert ws[0].pid in a;
      UnengagedAgree(ws[1..], a, b);
    }
  }

  function Free(children: map<Pid, Child>): set<Pid> {
    set p | p in children && !Engaged(children[p])
  }

  /** The parent's counters against the real processes, in every reachable world: as many list
      entries as processes, and the idle counter lags behind by exactly the unread messages. */
  lemma CountersTrackProcesses(cfg: Config, ws: seq<World>, es: seq<Event>, i: nat)
    requires Run(cfg, ws, es) && i < |ws| && ws[i].mode != Crashed
    ensures ws[i].parent.numWorkers == |ws[i].parent.workers| == |ws[i].children|
    ensures ws[i].parent.numIdle == CountIdle(ws[i].parent.workers)
    ensures ws[i].parent.numIdle ==
            |Free(ws[i].children)| + Pending(ws[i].mailbox, GOT_REQUEST) - Pending(ws[i].mailbox, COMPLETED_REQUEST)
  {
    RunKeepsInv(cfg, ws, es, i);
    var w := ws[i];
    IdleByWorker(w.parent.workers, w.children, w.mailbox);
    PendingRegroups(w.parent.workers, w.mailbox, GOT_REQUEST);
    PendingRegroups(w.parent.workers, w.mailbox, COMPLETED_REQUEST);
    UnengagedIsFree(w.parent.workers, w.children);
  }

  /** Once the mailbox is drained after startup, at least minSpareServers workers are really free. */
  lemma DrainedPoolHasSpares(cfg: Config, ws: seq<World>, es: seq<Event>, i: nat)
    requires Run(cfg, ws, es) && i < |ws| && ws[i].mode == Running && ws[i].mailbox == []
    ensures cfg.minSpare <= |Free(ws[i].children)|
    ensures |Free(ws[i].children)| <= cfg.maxSpare || |Free(ws[i].children)| <= StartupCount(cfg.minSpare)
    ensures forall p :: p in Free(ws[i].children) ==>
              var c := ws[i].children[p]; c.phase == AwaitingAck ==> c.acks == 1
  {
    CountersTrackProcesses(cfg, ws, es, i);
    IdleStaysInBand(cfg, ws, es, i);
    RunKeepsInv(cfg, ws, es, i);
    forall p | p in Free(ws[i].children) && ws[i].children[p].phase == AwaitingAck ensures ws[i].children[p].acks == 1 {
      var k := IndexOf(ws[i].parent.workers, p);
      assert InStep(ws[i].parent.workers[k], ws[i].children[p], From([], p));
    }
  }

  // ---- what the parent does with one message, in every run ----

  /** A worker that has just been forked. */
  predicate Fresh(c: Child) { c.phase == Accepting && c.served == 0 && c.acks == 0 }

  /** GOT_REQUEST: one worker more exactly when the idle counter falls below the minimum, and nobody else changes. */
  lemma GotEffect(cfg: Config, ws: seq<World>, es: seq<Event>, i: nat)
    requires Run(cfg, ws, es) && i < |es| && es[i].Dispatch? && ws[i].mailbox[0].kind == GOT_REQUEST
    ensures var w, w', pid := ws[i], ws[i + 1], es[i].pid;
            var short := w.parent.numIdle - 1 < cfg.minSpare;
            && w'.mode == Running && w'.mailbox == w.mailbox[1..]
            && w'.parent.numIdle == w.parent.numIdle - (if short then 0 else 1)
            && w'.children.Keys == w.children.Keys + (if short then {pid} else {})
            && (short ==> pid !in w.children && Fresh(w'.children[pid]))
            && (forall p :: p in w.children ==> w'.children[p] == w.children[p])
  {
    assert Enabled(cfg, ws[i], es[i]) && ws[i + 1] == Step(cfg, ws[i], es[i]);
    RunKeepsInv(cfg, ws, es, i);
    var k := HeadSender(ws[i]);
  }

  /** The sender of a COMPLETED_REQUEST has no place left once there are more idle workers than the maximum. */
  predicate TooManyIdle(cfg: Config, w: World) { w.parent.numIdle + 1 > cfg.maxSpare }

  lemma DoneEffect(cfg: Config, w: World, e: Event)
    requires Inv(w) && e.Dispatch? && Enabled(cfg, w, e) && w.mailbox[0].kind == COMPLETED_REQUEST
    requires |w.parent.workers| == |w.children|
    ensures w.mailbox[0].pid in w.children
    ensures Effect(cfg, w, Step(cfg, w, e), w.mailbox[0].pid, e.pid)
  {
    var k := HeadSender(w);
  }

  /** How the processes change from w to w' when the parent hears that `sender` has completed a request: at its
      quota is who has served maxRequests. */
  ghost predicate Effect(cfg: Config, w: World, w': World, sender: Pid, newPid: Pid)
    requires sender in w.children && w.mailbox != []
  {
    var atQuota := w.children[sender].served == cfg.maxRequests;
    && w'.mailbox == w.mailbox[1..]
    && (w'.mode == Crashed <==> |w.children| == 1 && (TooManyIdle(cfg, w) || atQuota))
    && (w'.mode != Crashed && TooManyIdle(cfg, w) ==>
          && w'.children == w.children - {sender} && w'.parent.numIdle == w.parent.numIdle)
    && (w'.mode != Crashed && !TooManyIdle(cfg, w) && atQuota ==>
          && (newPid == sender || newPid !in w.children)
          && w'.children.Keys == w.children.Keys - {sender} + {newPid} && Fresh(w'.children[newPid])
          && (forall p :: p in w.children && p != sender ==> w'.children[p] == w.children[p])
          && w'.parent.numIdle == w.parent.numIdle + 1)
    && (w'.mode != Crashed && !TooManyIdle(cfg, w) && !atQuota ==>
          && w'.children.Keys == w.children.Keys
          && w'.children[sender] == w.children[sender].(acks := 1)
          && (forall p :: p in w.children && p != sender ==> w'.children[p] == w.children[p])
          && w'.parent.numIdle == w.parent.numIdle + 1)
  }

  /** COMPLETED_REQUEST, in every run: above the maximum the sender goes without replacement; otherwise at its quota
      it is replaced by a fresh worker; otherwise nobody leaves and it alone gets an acknowledgement. Where a worker
      has to go and is the only one, the parent crashes. */
  lemma CompletionEffect(cfg: Config, ws: seq<World>, es: seq<Event>, i: nat)
    requires Run(cfg, ws, es) && i < |es| && es[i].Dispatch? && ws[i].mailbox[0].kind == COMPLETED_REQUEST
    ensures ws[i].mailbox[0].pid in ws[i].children
    ensures Effect(cfg, ws[i], ws[i + 1], ws[i].mailbox[0].pid, es[i].pid)
  {
    assert Enabled(cfg, ws[i], es[i]) && ws[i + 1] == Step(cfg, ws[i], es[i]);
    RunKeepsInv(cfg, ws, es, i);
    CountersTrackProcesses(cfg, ws, es, i);
    DoneEffect(cfg, ws[i], es[i]);
  }

  /** There are no other messages. */
  lemma MessagesAreOfTwoKinds(cfg: Config, ws: seq<World>, es: seq<Event>, i: nat, j: nat)
    requires Run(cfg, ws, es) && i < |ws| && ws[i].mode != Crashed && j < |ws[i].mailbox|
    ensures ws[i].mailbox[j].kind == GOT_REQUEST || ws[i].mailbox[j].kind == COMPLETED_REQUEST
  {
    RunKeepsInv(cfg, ws, es, i);
    var m := ws[i].mailbox[j];
    assert m.pid in ws[i].children;
    PendingKinds(ws[i].mailbox, j);
    var k := IndexOf(ws[i].parent.workers, m.pid);
    assert InStep(ws[i].parent.workers[k], ws[i].children[m.pid], From(ws[i].mailbox, m.pid));
  }

  lemma {:induction false} PendingKinds(box: seq<ControlMsg>, j: nat)
    requires j < |box|
    ensures box[j] in From(box, box[j].pid)
  {
    if j > 0 { PendingKinds(box[1..], j - 1); }
  }
}

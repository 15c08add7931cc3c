/** Accepted connections of the prefork server are answered without anybody else's help. */
module PreforkProgress {
  import opened PreforkParent
  import opened PreforkProtocol
  import opened PreforkRuns

  /** An event of worker p itself. */
  predicate Own(e: Event, p: Pid) { !e.Spawn? && !e.Dispatch? && e.pid == p }

  function OwnBetween(es: seq<Event>, p: Pid, i: nat, j: nat): nat
    requires i <= j <= |es|
    decreases j - i
  {
    if i == j then 0 else OwnBetween(es, p, i, j - 1) + if Own(es[j - 1], p) then 1 else 0
  }

  /** How many of its own events a worker is away from the response. */
  function StepsLeft(c: Child): nat {
    if c.phase.Announcing? then 2 else if c.phase.Serving? then 1 else 0
  }

  /** The parent never touches the phase of a worker that holds a connection. */
  lemma DispatchSpares(cfg: Config, w: World, e: Event, p: Pid, conn: nat)
    requires Inv(w) && e.Dispatch? && Enabled(cfg, w, e) && HeldBy(w.children, p, conn)
    ensures var w' := Step(cfg, w, e);
            p in w'.children && w'.children[p].phase == w.children[p].phase && w'.answered == w.answered
  {
    var i := HeadSender(w);
    if w.mailbox[0].kind == COMPLETED_REQUEST && Step(cfg, w, e).mode != Crashed { DoneStep(cfg, w, e, i); }
  }

  /** With `left` of p's own events to go, the connection is with p; with none, it is answered. */
  predicate Tracked(w: World, p: Pid, conn: nat, left: int) {
    if left <= 0 then conn in w.answered else HeldBy(w.children, p, conn) && StepsLeft(w.children[p]) == left
  }

  lemma StepTracks(cfg: Config, w: World, e: Event, p: Pid, conn: nat, left: int)
    requires (e.Dispatch? ==> Inv(w)) && Enabled(cfg, w, e) && Tracked(w, p, conn, left)
    ensures Tracked(Step(cfg, w, e), p, conn, left - if Own(e, p) then 1 else 0)
  {
    if e.Dispatch? && left > 0 { DispatchSpares(cfg, w, e, p, conn); }
  }

  lemma NextTracks(cfg: Config, ws: seq<World>, es: seq<Event>, j: nat, p: Pid, conn: nat, left: int)
    requires Run(cfg, ws, es) && j < |es| && Tracked(ws[j], p, conn, left)
    ensures Tracked(ws[j + 1], p, conn, left - if Own(es[j], p) then 1 else 0)
  {
    assert Enabled(cfg, ws[j], es[j]) && ws[j + 1] == Step(cfg, ws[j], es[j]);
    if es[j].Dispatch? { RunKeepsInv(cfg, ws, es, j); }
    StepTracks(cfg, ws[j], es[j], p, conn, left);
  }

  lemma HeldMeansTracked(w: World, p: Pid, conn: nat)
    requires HeldBy(w.children, p, conn)
    ensures 1 <= StepsLeft(w.children[p]) <= 2 && Tracked(w, p, conn, StepsLeft(w.children[p]))
  {
  }

  lemma {:induction false} StaysTracked(cfg: Config, ws: seq<World>, es: seq<Event>, i: nat, j: nat, p: Pid, conn: nat,
                                        left: int)
    requires Run(cfg, ws, es) && i <= j < |ws| && Tracked(ws[i], p, conn, left)
    ensures Tracked(ws[j], p, conn, left - OwnBetween(es, p, i, j))
    decreases j
  {
    if i < j {
      var before, own := left - OwnBetween(es, p, i, j - 1), if Own(es[j - 1], p) then 1 else 0;
      StaysTracked(cfg, ws, es, i, j - 1, p, conn, left);
      NextTracks(cfg, ws, es, j - 1, p, conn, before);
      assert left - OwnBetween(es, p, i, j) == before - own;
    }
  }

  /** A held connection is answered by its holder's next two events at the latest, in every run, whatever the others
      do in between and even if the parent crashes; until then the holder keeps it. */
  lemma AnsweredWithinTwo(cfg: Config, ws: seq<World>, es: seq<Event>, i: nat, j: nat, p: Pid, conn: nat)
    requires Run(cfg, ws, es) && i <= j < |ws| && HeldBy(ws[i].children, p, conn)
    ensures 1 <= StepsLeft(ws[i].children[p]) <= 2
    ensures Tracked(ws[j], p, conn, StepsLeft(ws[i].children[p]) - OwnBetween(es, p, i, j))
  {
    HeldMeansTracked(ws[i], p, conn);
    StaysTracked(cfg, ws, es, i, j, p, conn, StepsLeft(ws[i].children[p]));
  }

  /** What the holder of a connection does next. */
  function NextOf(w: World, p: Pid): (e: Event)
    requires p in w.children
    ensures Own(e, p)
  {
    if w.children[p].phase.Announcing? then Announce(p) else Reply(p)
  }

  /** And the holder is never blocked: its next event is possible, and brings it one nearer to the response. */
  lemma HolderMoves(cfg: Config, w: World, p: Pid, conn: nat)
    requires HeldBy(w.children, p, conn)
    ensures Enabled(cfg, w, NextOf(w, p))
    ensures Tracked(Step(cfg, w, NextOf(w, p)), p, conn, StepsLeft(w.children[p]) - 1)
  {
    StepTracks(cfg, w, NextOf(w, p), p, conn, StepsLeft(w.children[p]));
  }

  /** So every run in which p holds a connection goes on, by at most two events of p alone, to its response. */
  lemma {:induction false} HolderAnswers(cfg: Config, ws: seq<World>, es: seq<Event>, p: Pid, conn: nat)
    returns (ws': seq<World>, es': seq<Event>)
    requires Run(cfg, ws, es) && HeldBy(ws[|es|].children, p, conn)
    ensures Run(cfg, ws', es') && es <= es' && |es'| == |es| + StepsLeft(ws[|es|].children[p]) <= |es| + 2
    ensures forall i :: |es| <= i < |es'| ==> Own(es'[i], p)
    ensures conn in ws'[|es'|].answered
    decreases StepsLeft(ws[|es|].children[p])
  {
    var w := ws[|es|];
    HolderMoves(cfg, w, p, conn);
    ws', es' := Extend(cfg, ws, es, NextOf(w, p));
    if StepsLeft(w.children[p]) == 2 {
      var es1 := es';
      ws', es' := HolderAnswers(cfg, ws', es', p, conn);
      assert es'[|es|] == es1[|es|];
    }
  }

  // ---- nobody waits for nothing ----

  /** Worker p can take some step of its own. */
  predicate CanMove(cfg: Config, w: World, p: Pid) {
    || Enabled(cfg, w, Accept(p)) || Enabled(cfg, w, Announce(p)) || Enabled(cfg, w, Reply(p))
    || Enabled(cfg, w, Report(p)) || Enabled(cfg, w, TakeAck(p))
  }

  predicate Unread(box: seq<ControlMsg>, p: Pid, kind: int) {
    exists k :: 0 <= k < |box| && box[k].pid == p && box[k].kind == kind
  }

  lemma {:induction false} UnreadFrom(box: seq<ControlMsg>, p: Pid, kind: int)
    ensures Unread(box, p, kind) <==> exists m :: m in From(box, p) && m.kind == kind
  {
    if box != [] {
      UnreadFrom(box[1..], p, kind);
      assert box == [box[0]] + box[1..];
      if Unread(box[1..], p, kind) {
        var k :| 0 <= k < |box[1..]| && box[1..][k].pid == p && box[1..][k].kind == kind;
        assert box[k + 1].pid == p;
      }
    }
  }

  /** In every run, what keeps a worker from going on is exactly that its COMPLETED_REQUEST is still unread. */
  lemma BlockedIffUnread(cfg: Config, ws: seq<World>, es: seq<Event>, i: nat, p: Pid)
    requires Run(cfg, ws, es) && i < |ws| && ws[i].mode != Crashed && p in ws[i].children
    ensures CanMove(cfg, ws[i], p) <==> !Unread(ws[i].mailbox, p, COMPLETED_REQUEST)
  {
    RunKeepsInv(cfg, ws, es, i);
    UnreadFrom(ws[i].mailbox, p, COMPLETED_REQUEST);
    var k := IndexOf(ws[i].parent.workers, p);
    BlockedInStep(ws[i].parent.workers[k], ws[i].children[p], From(ws[i].mailbox, p));
  }

  lemma BlockedInStep(en: Entry, c: Child, pending: seq<ControlMsg>)
    requires InStep(en, c, pending)
    ensures c.phase == AwaitingAck && c.acks == 0 <==> exists m :: m in pending && m.kind == COMPLETED_REQUEST
  {
    if c.phase == AwaitingAck && c.acks == 0 { assert pending[|pending| - 1] == Done(en.pid, c.served); }
  }

  /** And the parent is never kept from forking at startup, or from handling the next message after it, whichever pid
      that no live worker has a fork returns. */
  lemma ParentMoves(cfg: Config, ws: seq<World>, es: seq<Event>, i: nat, pid: Pid)
    requires Run(cfg, ws, es) && i < |ws| && ws[i].mode != Crashed && pid !in ws[i].children
    ensures Enabled(cfg, ws[i], Spawn(pid)) <==> ws[i].mode.Spawning?
    ensures Enabled(cfg, ws[i], Dispatch(pid)) <==> ws[i].mode == Running && ws[i].mailbox != []
  {
    IdleStaysInBand(cfg, ws, es, i);
  }

  /** So no run gets stuck before a crash: the parent can go on, or every worker can. */
  lemma NobodyStuck(cfg: Config, ws: seq<World>, es: seq<Event>, i: nat, pid: Pid)
    requires Run(cfg, ws, es) && i < |ws| && ws[i].mode != Crashed && pid !in ws[i].children
    ensures || Enabled(cfg, ws[i], Spawn(pid)) || Enabled(cfg, ws[i], Dispatch(pid))
            || forall p :: p in ws[i].children ==> CanMove(cfg, ws[i], p)
  {
    ParentMoves(cfg, ws, es, i, pid);
    forall p | p in ws[i].children && ws[i].mailbox == [] ensures CanMove(cfg, ws[i], p) {
      BlockedIffUnread(cfg, ws, es, i, p);
    }
  }
}

/** The file-list flood: each copy of the message records the groups it was sent to, and a node
    that receives a copy forwards it to its own unrecorded groups, once per listed file. */
module Flood {

  type Name = string

  const MAX_GROUPS: nat := 20

  /** The payload: a fixed array of group slots, of which `groupCount` are claimed to be filled. */
  datatype Payload = Payload(slots: seq<Name>, groupCount: nat, fileCount: nat)

  type Message = m: Payload | |m.slots| == MAX_GROUPS
    witness Payload(seq(MAX_GROUPS, _ => ""), 0, 0)

  datatype Sent = Sent(group: Name, copy: Message)

  /** What reading beyond the slot array yields: unknown memory, so any answer is possible. */
  type Overread = Name -> bool

  /** The scan for a group name among the first groupCount recorded groups. */
  function Recorded(m: Message, name: Name, beyond: Overread): bool
  {
    if m.groupCount <= MAX_GROUPS then name in m.slots[..m.groupCount]
    else name in m.slots || beyond(name)
  }

  /** One pass over the joined groups. `out` is the mutable copy that is sent out; the checks and
      the slot index use the copy as received. */
  function ForwardPass(received: Message, out: Message, joined: seq<Name>, beyond: Overread): (r: (Message, seq<Sent>))
    decreases |joined|
  {
    if joined == [] then (out, [])
    else if Recorded(received, joined[0], beyond) then ForwardPass(received, out, joined[1..], beyond)
    else if received.groupCount >= MAX_GROUPS then (out, [])
    else
      var out1 := out.(slots := out.slots[received.groupCount := joined[0]], groupCount := out.groupCount + 1);
      var (out2, rest) := ForwardPass(received, out1, joined[1..], beyond);
      (out2, [Sent(joined[0], out1)] + rest)
  }

  /** The whole handler: one pass per listed file. */
  function ForwardFiles(received: Message, out: Message, files: nat, joined: seq<Name>, beyond: Overread)
    : (r: (Message, seq<Sent>))
    decreases files
  {
    if files == 0 then (out, [])
    else
      var (out1, first) := ForwardPass(received, out, joined, beyond);
      var (out2, rest) := ForwardFiles(received, out1, files - 1, joined, beyond);
      (out2, first + rest)
  }

  function Forwards(received: Message, joined: seq<Name>, beyond: Overread): seq<Sent>
  {
    ForwardFiles(received, received, received.fileCount, joined, beyond).1
  }

  /** The inner loop of the FILE_LIST_MULTICAST branch, on the copy to be sent out. */
  method ForwardOnce(received: Message, start: Message, joined: seq<Name>, beyond: Overread)
    returns (out: Message, sent: seq<Sent>)
    ensures (out, sent) == ForwardPass(received, start, joined, beyond)
  {
    out, sent := start, [];
    ghost var pass := ForwardPass(received, start, joined, beyond);
    var j := 0;
    while j < |joined|
      invariant 0 <= j <= |joined|
      invariant pass.0 == ForwardPass(received, out, joined[j..], beyond).0
      invariant pass.1 == sent + ForwardPass(received, out, joined[j..], beyond).1
    {
      assert joined[j..][1..] == joined[j + 1..];
      if !Recorded(received, joined[j], beyond) {
        if received.groupCount >= MAX_GROUPS { break; }
        out := out.(slots := out.slots[received.groupCount := joined[j]], groupCount := out.groupCount + 1);
        var copy := Sent(joined[j], out);
        Regroups(sent, [copy], ForwardPass(received, out, joined[j + 1..], beyond).1);
        sent := sent + [copy];
      }
      j := j + 1;
    }
    assert sent + [] == sent;
  }

  lemma Regroups(x: seq<Sent>, y: seq<Sent>, z: seq<Sent>)
    ensures x + (y + z) == x + y + z
  {
  }

  /** The FILE_LIST_MULTICAST branch as the loops it is made of. */
  method HandleFileList(received: Message, joined: seq<Name>, beyond: Overread) returns (sent: seq<Sent>)
    ensures sent == Forwards(received, joined, beyond)
  {
    var out: Message := received;
    sent := [];
    var i := 0;
    while i < received.fileCount
      invariant 0 <= i <= received.fileCount
      invariant Forwards(received, joined, beyond)
             == sent + ForwardFiles(received, out, received.fileCount - i, joined, beyond).1
    {
      var next, copies := ForwardOnce(received, out, joined, beyond);
      Regroups(sent, copies, ForwardFiles(received, next, received.fileCount - i - 1, joined, beyond).1);
      out, sent := next, sent + copies;
      i := i + 1;
    }
  }

  // ---- what a forwarded copy looks like ----

  /** A copy forwarded from `received` to `name`: the record so far is kept, the destination is
      the next entry, and the claimed count has grown. */
  predicate Extends(received: Message, s: Sent) {
    && received.groupCount < MAX_GROUPS
    && s.copy.fileCount == received.fileCount
    && s.copy.groupCount > received.groupCount
    && s.copy.slots[..received.groupCount] == received.slots[..received.groupCount]
    && s.copy.slots[received.groupCount] == s.group
    && s.group !in received.slots[..received.groupCount]
  }

  /** `out` differs from `received` only beyond the recorded prefix. */
  predicate Grown(received: Message, out: Message) {
    && out.fileCount == received.fileCount
    && out.groupCount >= received.groupCount
    && (received.groupCount < MAX_GROUPS ==> out.slots[..received.groupCount] == received.slots[..received.groupCount])
  }

  lemma {:induction false} PassExtends(received: Message, out: Message, joined: seq<Name>, beyond: Overread)
    requires Grown(received, out)
    ensures var (out', sent) := ForwardPass(received, out, joined, beyond);
            && Grown(received, out')
            && out'.groupCount == out.groupCount + |sent|
            && |sent| <= |joined|
            && (forall k :: 0 <= k < |sent| ==> Extends(received, sent[k]) && sent[k].group in joined)
            && (forall k :: 0 <= k < |sent| ==> sent[k].copy.groupCount == out.groupCount + k + 1)
    decreases |joined|
  {
    if joined != [] {
      if Recorded(received, joined[0], beyond) {
        PassExtends(received, out, joined[1..], beyond);
      } else if received.groupCount < MAX_GROUPS {
        var out1 := out.(slots := out.slots[received.groupCount := joined[0]], groupCount := out.groupCount + 1);
        assert out1.slots[..received.groupCount] == out.slots[..received.groupCount];
        PassExtends(received, out1, joined[1..], beyond);
      }
    }
  }

  lemma {:induction false} FilesExtend(received: Message, out: Message, files: nat, joined: seq<Name>, beyond: Overread)
    requires Grown(received, out)
    ensures var (out', sent) := ForwardFiles(received, out, files, joined, beyond);
            && |sent| <= files * |joined|
            && (forall k :: 0 <= k < |sent| ==> Extends(received, sent[k]) && sent[k].group in joined)
            && (forall k :: 0 <= k < |sent| ==> sent[k].copy.groupCount == out.groupCount + k + 1)
    decreases files
  {
    if files > 0 {
      PassExtends(received, out, joined, beyond);
      var (out1, first) := ForwardPass(received, out, joined, beyond);
      FilesExtend(received, out1, files - 1, joined, beyond);
      assert files * |joined| == |joined| + (files - 1) * |joined|;
    }
  }

  /** Every forwarded copy extends the received record by its destination, the k-th copy claims k
      more groups, and a copy that claims MAX_GROUPS or more is not forwarded at all. */
  lemma ForwardsExtend(received: Message, joined: seq<Name>, beyond: Overread)
    ensures var sent := Forwards(received, joined, beyond);
            && |sent| <= received.fileCount * |joined|
            && (forall k :: 0 <= k < |sent| ==> Extends(received, sent[k]) && sent[k].group in joined)
            && (forall k :: 0 <= k < |sent| ==> sent[k].copy.groupCount == received.groupCount + k + 1)
            && (received.groupCount >= MAX_GROUPS ==> sent == [])
  {
    FilesExtend(received, received, received.fileCount, joined, beyond);
    var sent := Forwards(received, joined, beyond);
    if sent != [] { assert Extends(received, sent[0]); }
  }

  /** The joined groups that are not in the received record. */
  function Unrecorded(received: Message, joined: seq<Name>): seq<Name>
    requires received.groupCount <= MAX_GROUPS
  {
    if joined == [] then []
    else (if joined[0] in received.slots[..received.groupCount] then [] else [joined[0]])
         + Unrecorded(received, joined[1..])
  }

  function Destinations(sent: seq<Sent>): seq<Name> {
    seq(|sent|, i requires 0 <= i < |sent| => sent[i].group)
  }

  function Repeat(xs: seq<Name>, n: nat): seq<Name> {
    if n == 0 then [] else xs + Repeat(xs, n - 1)
  }

  lemma {:induction false} PassDestinations(received: Message, out: Message, joined: seq<Name>, beyond: Overread)
    requires received.groupCount < MAX_GROUPS
    ensures Destinations(ForwardPass(received, out, joined, beyond).1) == Unrecorded(received, joined)
    decreases |joined|
  {
    if joined != [] {
      if Recorded(received, joined[0], beyond) {
        PassDestinations(received, out, joined[1..], beyond);
      } else {
        var out1 := out.(slots := out.slots[received.groupCount := joined[0]], groupCount := out.groupCount + 1);
        PassDestinations(received, out1, joined[1..], beyond);
      }
    }
  }

  lemma {:induction false} FilesDestinations(received: Message, out: Message, files: nat, joined: seq<Name>,
                                             beyond: Overread)
    requires received.groupCount < MAX_GROUPS
    ensures Destinations(ForwardFiles(received, out, files, joined, beyond).1)
            == Repeat(Unrecorded(received, joined), files)
    decreases files
  {
    if files > 0 {
      PassDestinations(received, out, joined, beyond);
      var (out1, first) := ForwardPass(received, out, joined, beyond);
      FilesDestinations(received, out1, files - 1, joined, beyond);
      var rest := ForwardFiles(received, out1, files - 1, joined, beyond).1;
      assert Destinations(first + rest) == Destinations(first) + Destinations(rest);
    }
  }

  lemma {:induction false} RepeatLength(xs: seq<Name>, n: nat)
    ensures |Repeat(xs, n)| == n * |xs|
  {
    if n > 0 {
      RepeatLength(xs, n - 1);
      assert n * |xs| == |xs| + (n - 1) * |xs|;
    }
  }

  /** Each unrecorded group is sent to once per listed file, in list order, file after file; so
      some copy claims more groups than there are slots exactly when the product overshoots. */
  lemma ForwardsOncePerFile(received: Message, joined: seq<Name>, beyond: Overread)
    requires received.groupCount < MAX_GROUPS
    ensures var sent := Forwards(received, joined, beyond); var unsent := Unrecorded(received, joined);
            && Destinations(sent) == Repeat(unsent, received.fileCount)
            && ((exists s :: s in sent && s.copy.groupCount > MAX_GROUPS) <==>
                  received.groupCount + received.fileCount * |unsent| > MAX_GROUPS)
  {
    FilesDestinations(received, received, received.fileCount, joined, beyond);
    RepeatLength(Unrecorded(received, joined), received.fileCount);
    ForwardsExtend(received, joined, beyond);
    var sent := Forwards(received, joined, beyond);
    assert |Destinations(sent)| == |sent|;
    if sent != [] { assert sent[|sent| - 1] in sent; }
  }

  // ---- exactly which copies ----

  /** The joined groups, in order, that `seen` leaves out. */
  function Missing(joined: seq<Name>, seen: set<Name>): seq<Name> {
    if joined == [] then []
    else if joined[0] in seen then Missing(joined[1..], seen)
    else [joined[0]] + Missing(joined[1..], seen)
  }

  /** The groups of a record. */
  function Seen(m: Message): set<Name>
    requires m.groupCount <= MAX_GROUPS
  {
    set i | 0 <= i < m.groupCount :: m.slots[i]
  }

  lemma {:induction false} UnrecordedIsMissing(received: Message, joined: seq<Name>)
    requires received.groupCount <= MAX_GROUPS
    ensures Unrecorded(received, joined) == Missing(joined, Seen(received))
  {
    if joined != [] {
      UnrecordedIsMissing(received, joined[1..]);
      SeenIsRecorded(received, joined[0]);
    }
  }

  lemma SeenIsRecorded(received: Message, name: Name)
    requires received.groupCount <= MAX_GROUPS
    ensures name in received.slots[..received.groupCount] <==> name in Seen(received)
  {
  }

  /** Beside slot `groupCount` of the received copy, `out` still has what was received. */
  predicate SameElsewhere(received: Message, out: Message) {
    && out.fileCount == received.fileCount
    && forall i :: 0 <= i < MAX_GROUPS && i != received.groupCount ==> out.slots[i] == received.slots[i]
  }

  lemma {:induction false} PassFrame(received: Message, out: Message, joined: seq<Name>, beyond: Overread)
    requires SameElsewhere(received, out)
    ensures var (out', sent) := ForwardPass(received, out, joined, beyond);
            && SameElsewhere(received, out')
            && forall k :: 0 <= k < |sent| ==> SameElsewhere(received, sent[k].copy)
    decreases |joined|
  {
    if joined != [] {
      if Recorded(received, joined[0], beyond) {
        PassFrame(received, out, joined[1..], beyond);
      } else if received.groupCount < MAX_GROUPS {
        var out1 := out.(slots := out.slots[received.groupCount := joined[0]], groupCount := out.groupCount + 1);
        PassFrame(received, out1, joined[1..], beyond);
      }
    }
  }

  predicate AllSameElsewhere(received: Message, sent: seq<Sent>) {
    forall k :: 0 <= k < |sent| ==> SameElsewhere(received, sent[k].copy)
  }

  lemma {:induction false} FilesFrame(received: Message, out: Message, files: nat, joined: seq<Name>, beyond: Overread)
    requires SameElsewhere(received, out)
    ensures AllSameElsewhere(received, ForwardFiles(received, out, files, joined, beyond).1)
    decreases files
  {
    if files > 0 {
      PassFrame(received, out, joined, beyond);
      var (out1, first) := ForwardPass(received, out, joined, beyond);
      var (out2, rest) := ForwardFiles(received, out1, files - 1, joined, beyond);
      FilesFrame(received, out1, files - 1, joined, beyond);
      BothSameElsewhere(received, first, rest);
    }
  }

  lemma BothSameElsewhere(received: Message, first: seq<Sent>, rest: seq<Sent>)
    requires AllSameElsewhere(received, first) && AllSameElsewhere(received, rest)
    ensures AllSameElsewhere(received, first + rest)
  {
  }

  /** What a copy forwarded to `to` as the k-th one holds: what was received, but for the destination in the slot
      behind the received record, and for a count that has grown by k + 1. */
  predicate IsForwarded(received: Message, s: Sent, to: Name, k: nat) {
    && received.groupCount < 20 && s.group == to && s.copy.fileCount == received.fileCount
    && s.copy.groupCount == received.groupCount + k + 1
    && s.copy.slots[received.groupCount] == to
    && forall i :: 0 <= i < 20 && i != received.groupCount ==> s.copy.slots[i] == received.slots[i]
  }

  lemma ForwardedOne(received: Message, s: Sent, k: nat)
    requires Extends(received, s) && SameElsewhere(received, s.copy)
    requires s.copy.groupCount == received.groupCount + k + 1
    ensures IsForwarded(received, s, s.group, k)
  {
  }

  /** Exactly which copies are forwarded: once per listed file, to each joined group that the received record leaves
      out. */
  lemma ForwardsAre(received: Message, joined: seq<Name>, beyond: Overread)
    requires received.groupCount < MAX_GROUPS
    ensures var sent := Forwards(received, joined, beyond);
            var to := Repeat(Missing(joined, Seen(received)), received.fileCount);
            |sent| == |to| && forall k :: 0 <= k < |sent| ==> IsForwarded(received, sent[k], to[k], k)
  {
    var sent := Forwards(received, joined, beyond);
    UnrecordedIsMissing(received, joined);
    FilesDestinations(received, received, received.fileCount, joined, beyond);
    ForwardsExtend(received, joined, beyond);
    FilesFrame(received, received, received.fileCount, joined, beyond);
    assert |Destinations(sent)| == |sent|;
    forall k | 0 <= k < |sent| ensures IsForwarded(received, sent[k], Destinations(sent)[k], k) {
      ForwardedOne(received, sent[k], k);
    }
  }

  /** Such a copy is reachable: the originator's one group, then two files and ten new groups. */
  lemma ClaimedCountOverflows(joined: seq<Name>, beyond: Overread, m: Message)
    requires m.groupCount == 1 && m.fileCount == 2
    requires |joined| == 10 && forall n :: n in joined ==> n != m.slots[0]
    ensures exists s :: s in Forwards(m, joined, beyond) && s.copy.groupCount > MAX_GROUPS
  {
    AllUnrecorded(m, joined);
    ForwardsOncePerFile(m, joined, beyond);
  }

  lemma {:induction false} AllUnrecorded(m: Message, joined: seq<Name>)
    requires m.groupCount <= MAX_GROUPS && forall n :: n in joined ==> n !in m.slots[..m.groupCount]
    ensures Unrecorded(m, joined) == joined
  {
    if joined != [] { AllUnrecorded(m, joined[1..]); }
  }

  // ---- no chain visits a group twice ----

  ghost predicate CanForward(m: Message, s: Sent) {
    exists joined, beyond :: s in Forwards(m, joined, beyond)
  }

  /** A forwarding chain: each copy is forwarded from the one before it, by any node. */
  ghost predicate Chain(first: Message, path: seq<Sent>)
    decreases |path|
  {
    path == [] || (CanForward(first, path[0]) && Chain(path[0].copy, path[1..]))
  }

  /** Along every chain the destinations are pairwise distinct and none is in the initial record,
      so a chain is at most as long as the number of free slots. */
  lemma {:induction false} ChainNeverRepeats(first: Message, path: seq<Sent>)
    requires first.groupCount <= MAX_GROUPS && Chain(first, path)
    ensures |path| <= MAX_GROUPS - first.groupCount
    ensures forall i :: 0 <= i < |path| ==> path[i].group !in first.slots[..first.groupCount]
    ensures forall i, j :: 0 <= i < j < |path| ==> path[i].group != path[j].group
    decreases |path|
  {
    if path != [] {
      var s := path[0];
      var joined, beyond :| s in Forwards(first, joined, beyond);
      ForwardsExtend(first, joined, beyond);
      var k :| 0 <= k < |Forwards(first, joined, beyond)| && Forwards(first, joined, beyond)[k] == s;
      assert Extends(first, Forwards(first, joined, beyond)[k]);
      if |path| > 1 {
        ChainStops(s.copy, path[1..]);
        ChainNeverRepeats(s.copy, path[1..]);
        assert forall i :: 0 < i < |path| ==> path[i] == path[1..][i - 1];
        var record := s.copy.slots[..s.copy.groupCount];
        assert record[first.groupCount] == s.group;
        assert first.slots[..first.groupCount] == record[..first.groupCount];
      }
    }
  }

  /** A copy at or beyond the limit ends its chain. */
  lemma ChainStops(m: Message, path: seq<Sent>)
    requires Chain(m, path) && path != []
    ensures m.groupCount < MAX_GROUPS
  {
    var joined, beyond :| path[0] in Forwards(m, joined, beyond);
    ForwardsExtend(m, joined, beyond);
  }

  /** What the originator sends: all its groups recorded. */
  predicate Announces(m: Message, joined: seq<Name>, files: nat) {
    m.fileCount == files && m.groupCount == |joined| <= MAX_GROUPS && m.slots[..|joined|] == joined
  }

  /** So no chain of forwards of an announced file list comes back to a group of its originator. */
  lemma NeverBackToOriginator(m: Message, joined: seq<Name>, files: nat, path: seq<Sent>)
    requires Announces(m, joined, files) && Chain(m, path)
    ensures |path| <= MAX_GROUPS - |joined|
    ensures forall i :: 0 <= i < |path| ==> path[i].group !in joined
    ensures forall i, j :: 0 <= i < j < |path| ==> path[i].group != path[j].group
  {
    ChainNeverRepeats(m, path);
  }

  datatype Origin = Aborted | Quiet | Flooded(sent: seq<Sent>)

  /** The timer handler: announce the files to every joined group, all of them recorded. */
  method Originate(memory: seq<Name>, files: nat, joined: seq<Name>) returns (r: Origin)
    requires |memory| == MAX_GROUPS
    ensures r.Aborted? <==> files > 0 && |joined| > MAX_GROUPS
    ensures r.Quiet? <==> files == 0
    ensures r.Flooded? ==>
              && |r.sent| == |joined|
              && forall k :: 0 <= k < |r.sent| ==>
                   && r.sent[k].group == joined[k] && Announces(r.sent[k].copy, joined, files)
                   && r.sent[k].copy.slots[|joined|..] == memory[|joined|..]
  {
    if files == 0 { return Quiet; }
    var slots, cnt := memory, 0;
    while cnt < |joined|
      invariant 0 <= cnt <= |joined| && cnt <= MAX_GROUPS == |slots|
      invariant slots[..cnt] == joined[..cnt] && slots[cnt..] == memory[cnt..]
    {
      if cnt == MAX_GROUPS { return Aborted; }
      slots := slots[cnt := joined[cnt]];
      cnt := cnt + 1;
    }
    var msg := Payload(slots, cnt, files);
    r := Flooded(seq(|joined|, i requires 0 <= i < |joined| => Sent(joined[i], msg)));
  }

  // ---- every flood dies out ----

  /** Node i has joined the groups net[i]. */
  type Network = seq<seq<Name>>

  datatype Packet = Packet(node: nat, msg: Message)

  datatype Event = Deliver(index: nat, beyond: Overread) | Lose(index: nat)

  /** One copy for every node that has joined the group. */
  function Multicast(net: Network, s: Sent, from: nat): seq<Packet>
    requires from <= |net|
    decreases |net| - from
  {
    if from == |net| then []
    else (if s.group in net[from] then [Packet(from, s.copy)] else []) + Multicast(net, s, from + 1)
  }

  function Fanout(net: Network, sent: seq<Sent>): seq<Packet> {
    if sent == [] then [] else Multicast(net, sent[0], 0) + Fanout(net, sent[1..])
  }

  /** No copy lists more files than maxFiles. */
  predicate Fits(flight: seq<Packet>, maxFiles: nat) {
    forall i :: 0 <= i < |flight| ==> flight[i].msg.fileCount <= maxFiles
  }

  /** The largest network and the largest file list of a run. */
  datatype Limits = Limits(nodes: nat, groups: nat, files: nat)

  predicate Within(net: Network, lim: Limits) {
    |net| <= lim.nodes && forall i :: 0 <= i < |net| ==> |net[i]| <= lim.groups
  }

  function JoinedBy(net: Network, node: nat): seq<Name> {
    if node < |net| then net[node] else []
  }

  ghost predicate Enabled(flight: seq<Packet>, e: Event) { e.index < |flight| }

  ghost function Step(net: Network, flight: seq<Packet>, e: Event): seq<Packet>
    requires Enabled(flight, e)
  {
    var rest := flight[..e.index] + flight[e.index + 1..];
    var p := flight[e.index];
    if e.Lose? then rest else rest + Fanout(net, Forwards(p.msg, JoinedBy(net, p.node), e.beyond))
  }

  /** nets[i] is the network at step i: nodes may join and leave groups at any time. */
  ghost predicate Run(nets: seq<Network>, lim: Limits, states: seq<seq<Packet>>, es: seq<Event>) {
    && |states| == |es| + 1 && |nets| == |es|
    && Fits(states[0], lim.files)
    && forall i :: 0 <= i < |es| ==>
         Within(nets[i], lim) && Enabled(states[i], es[i]) && states[i + 1] == Step(nets[i], states[i], es[i])
  }

  function Pow(b: nat, e: nat): nat { if e == 0 then 1 else b * Pow(b, e - 1) }

  lemma {:induction false} PowMonotone(b: nat, d: nat, e: nat)
    requires b >= 1 && d <= e
    ensures 1 <= Pow(b, d) <= Pow(b, e)
  {
    if e > 0 {
      if d == e { PowMonotone(b, d - 1, e - 1); MulGrows(b, Pow(b, e - 1)); } else {
        PowMonotone(b, d, e - 1);
        MulGrows(b, Pow(b, e - 1));
      }
    }
  }

  lemma MulGrows(b: nat, x: nat)
    requires b >= 1
    ensures b * x >= x
  {
  }

  /** More than all the copies that delivering this one can still cause, when one delivery causes
      at most `fan` copies. */
  function Weight(fan: nat, m: Message): nat {
    if m.groupCount >= MAX_GROUPS then 1 else Pow(fan + 1, MAX_GROUPS - m.groupCount)
  }

  function TotalWeight(fan: nat, flight: seq<Packet>): nat {
    if flight == [] then 0 else Weight(fan, flight[0].msg) + TotalWeight(fan, flight[1..])
  }

  lemma {:induction false} TotalConcat(fan: nat, a: seq<Packet>, b: seq<Packet>)
    ensures TotalWeight(fan, a + b) == TotalWeight(fan, a) + TotalWeight(fan, b)
  {
    if a == [] { assert a + b == b; } else {
      assert (a + b)[1..] == a[1..] + b;
      TotalConcat(fan, a[1..], b);
    }
  }

  lemma OneMoreTime(n: nat, w: nat)
    ensures (n + 1) * w == w + n * w
  {
  }

  lemma {:induction false} TotalBound(fan: nat, ps: seq<Packet>, w: nat)
    requires forall i :: 0 <= i < |ps| ==> Weight(fan, ps[i].msg) <= w
    ensures TotalWeight(fan, ps) <= |ps| * w
  {
    if ps != [] {
      TotalBound(fan, ps[1..], w);
      OneMoreTime(|ps[1..]|, w);
    }
  }

  /** Copies of one message for nodes from `from` on that have joined the group, in order, each node once. */
  predicate ForJoined(net: Network, s: Sent, from: nat, ps: seq<Packet>) {
    && (forall i :: 0 <= i < |ps| ==> ps[i].msg == s.copy && from <= ps[i].node < |net| && s.group in net[ps[i].node])
    && forall i, j :: 0 <= i < j < |ps| ==> ps[i].node < ps[j].node
  }

  /** A copy sent to a group goes to nodes that have joined it, to each once. */
  lemma {:induction false} MulticastGoesTo(net: Network, s: Sent, from: nat)
    requires from <= |net|
    ensures ForJoined(net, s, from, Multicast(net, s, from))
    decreases |net| - from
  {
    if from < |net| {
      MulticastGoesTo(net, s, from + 1);
      var rest := Multicast(net, s, from + 1);
      assert [] + rest == rest;
      if s.group in net[from] { OneMoreNode(net, s, from, rest); }
    }
  }

  lemma OneMoreNode(net: Network, s: Sent, from: nat, rest: seq<Packet>)
    requires from < |net| && s.group in net[from] && ForJoined(net, s, from + 1, rest)
    ensures ForJoined(net, s, from, [Packet(from, s.copy)] + rest)
  {
  }

  /** And it misses none of them. */
  lemma {:induction false} MulticastReaches(net: Network, s: Sent, from: nat, node: nat)
    requires from <= node < |net| && s.group in net[node]
    ensures Packet(node, s.copy) in Multicast(net, s, from)
    decreases |net| - from
  {
    if from < node { MulticastReaches(net, s, from + 1, node); }
  }

  /** A delivery takes its packet out and puts those in that the node's forwards cause; a loss only takes it out. */
  lemma StepPackets(net: Network, flight: seq<Packet>, e: Event)
    requires Enabled(flight, e)
    ensures var p := flight[e.index];
            var caused := if e.Lose? then [] else Fanout(net, Forwards(p.msg, JoinedBy(net, p.node), e.beyond));
            multiset(Step(net, flight, e)) + multiset{p} == multiset(flight) + multiset(caused)
  {
    assert flight == flight[..e.index] + [flight[e.index]] + flight[e.index + 1..];
  }

  lemma {:induction false} MulticastShape(net: Network, s: Sent, from: nat)
    requires from <= |net|
    ensures var ps := Multicast(net, s, from);
            && |ps| <= |net| - from
            && forall i :: 0 <= i < |ps| ==> ps[i].msg == s.copy
    decreases |net| - from
  {
    if from < |net| { MulticastShape(net, s, from + 1); }
  }

  lemma {:induction false} FanoutShape(net: Network, sent: seq<Sent>)
    ensures var ps := Fanout(net, sent);
            && |ps| <= |sent| * |net|
            && forall i :: 0 <= i < |ps| ==> exists k :: 0 <= k < |sent| && ps[i].msg == sent[k].copy
  {
    if sent != [] {
      MulticastShape(net, sent[0], 0);
      FanoutShape(net, sent[1..]);
      assert |sent| * |net| == |net| + (|sent| - 1) * |net|;
      var now: seq<Packet> := Multicast(net, sent[0], 0);
      var ps: seq<Packet> := now + Fanout(net, sent[1..]);
      forall i | 0 <= i < |ps| ensures exists k :: 0 <= k < |sent| && ps[i].msg == sent[k].copy {
        if i < |now| { assert ps[i].msg == sent[0].copy; } else {
          var k :| 0 <= k < |sent[1..]| && Fanout(net, sent[1..])[i - |now|].msg == sent[1..][k].copy;
          assert ps[i].msg == sent[k + 1].copy;
        }
      }
    }
  }

  /** The largest number of copies one delivery can cause. */
  function Fan(lim: Limits): nat { lim.files * lim.groups * lim.nodes }

  lemma MulMonotone(a: nat, b: nat, c: nat, d: nat)
    requires a <= c && b <= d
    ensures a * b <= c * d
  {
    assert a * b <= c * b;
    assert c * b <= c * d;
  }

  /** At most fan copies, each of weight at most w, weigh less than (fan + 1) * w. */
  lemma FanWeighsLess(lim: Limits, files: nat, joined: nat, nodes: nat, sends: nat, copies: nat, w: nat)
    requires w >= 1 && files <= lim.files && joined <= lim.groups && nodes <= lim.nodes
    requires sends <= files * joined && copies <= sends * nodes
    ensures copies * w < (Fan(lim) + 1) * w
  {
    MulMonotone(files, joined, lim.files, lim.groups);
    MulMonotone(sends, nodes, lim.files * lim.groups, lim.nodes);
    LessByOne(copies, Fan(lim), w);
  }

  lemma LessByOne(copies: nat, fan: nat, w: nat)
    requires w >= 1 && copies <= fan
    ensures copies * w < (fan + 1) * w
  {
    MulMonotone(copies, w, fan, w);
    assert (fan + 1) * w == fan * w + w;
  }

  /** A copy with a larger count weighs at most one fan-out step less. */
  lemma LaterWeighsLess(fan: nat, m: Message, later: Message)
    requires m.groupCount < MAX_GROUPS && later.groupCount > m.groupCount
    ensures 1 <= Weight(fan, later) <= Pow(fan + 1, MAX_GROUPS - m.groupCount - 1)
  {
    PowMonotone(fan + 1, 0, MAX_GROUPS - m.groupCount - 1);
    if later.groupCount < MAX_GROUPS {
      PowMonotone(fan + 1, MAX_GROUPS - later.groupCount, MAX_GROUPS - m.groupCount - 1);
    }
  }

  lemma FanoutWeighs(net: Network, sent: seq<Sent>, fan: nat, w: nat) returns (copies: nat)
    requires forall k :: 0 <= k < |sent| ==> Weight(fan, sent[k].copy) <= w
    ensures copies <= |sent| * |net| && TotalWeight(fan, Fanout(net, sent)) <= copies * w
  {
    var out := Fanout(net, sent);
    FanoutShape(net, sent);
    forall i | 0 <= i < |out| ensures Weight(fan, out[i].msg) <= w {
      var k :| 0 <= k < |sent| && out[i].msg == sent[k].copy;
    }
    TotalBound(fan, out, w);
    copies := |out|;
  }

  lemma ForwardsWeigh(m: Message, joined: seq<Name>, beyond: Overread, fan: nat)
    requires m.groupCount < MAX_GROUPS
    ensures var sent := Forwards(m, joined, beyond);
            && |sent| <= m.fileCount * |joined|
            && forall k :: 0 <= k < |sent| ==>
                 Weight(fan, sent[k].copy) <= Pow(fan + 1, MAX_GROUPS - m.groupCount - 1)
  {
    var sent := Forwards(m, joined, beyond);
    ForwardsExtend(m, joined, beyond);
    forall k | 0 <= k < |sent| ensures Weight(fan, sent[k].copy) <= Pow(fan + 1, MAX_GROUPS - m.groupCount - 1) {
      LaterWeighsLess(fan, m, sent[k].copy);
    }
  }

  lemma NothingForwarded(net: Network, m: Message, joined: seq<Name>, beyond: Overread, fan: nat)
    requires m.groupCount >= MAX_GROUPS
    ensures TotalWeight(fan, Fanout(net, Forwards(m, joined, beyond))) == 0
  {
    ForwardsExtend(m, joined, beyond);
  }

  /** Delivering one copy causes copies whose total weight is below its own. */
  lemma DeliveryLoses(net: Network, p: Packet, beyond: Overread, lim: Limits)
    requires Within(net, lim) && p.msg.fileCount <= lim.files
    ensures TotalWeight(Fan(lim), Fanout(net, Forwards(p.msg, JoinedBy(net, p.node), beyond))) < Weight(Fan(lim), p.msg)
  {
    var fan, joined, m := Fan(lim), JoinedBy(net, p.node), p.msg;
    if m.groupCount >= MAX_GROUPS {
      NothingForwarded(net, m, joined, beyond, fan);
    } else {
      var w := Pow(fan + 1, MAX_GROUPS - m.groupCount - 1);
      PowMonotone(fan + 1, 0, MAX_GROUPS - m.groupCount - 1);
      ForwardsWeigh(m, joined, beyond, fan);
      var sent := Forwards(m, joined, beyond);
      var copies := FanoutWeighs(net, sent, fan, w);
      FanWeighsLess(lim, m.fileCount, |joined|, |net|, |sent|, copies, w);
    }
  }

  lemma WeighsSomething(fan: nat, p: Packet)
    ensures TotalWeight(fan, [p]) == Weight(fan, p.msg) >= 1
  {
    PowMonotone(fan + 1, 0, if p.msg.groupCount < MAX_GROUPS then MAX_GROUPS - p.msg.groupCount else 0);
  }

  lemma StepLoses(net: Network, flight: seq<Packet>, e: Event, lim: Limits)
    requires Within(net, lim) && Fits(flight, lim.files) && Enabled(flight, e)
    ensures TotalWeight(Fan(lim), Step(net, flight, e)) < TotalWeight(Fan(lim), flight)
  {
    var fan := Fan(lim);
    var p, a, b := flight[e.index], flight[..e.index], flight[e.index + 1..];
    assert flight == a + ([p] + b);
    TotalConcat(fan, a, [p] + b);
    TotalConcat(fan, [p], b);
    TotalConcat(fan, a, b);
    WeighsSomething(fan, p);
    if e.Deliver? {
      DeliveryLoses(net, p, e.beyond, lim);
      TotalConcat(fan, a + b, Fanout(net, Forwards(p.msg, JoinedBy(net, p.node), e.beyond)));
    }
  }

  /** Copies stay well-formed and never gain files, so the bound survives every step. */
  lemma StepFits(net: Network, flight: seq<Packet>, e: Event, maxFiles: nat)
    requires Fits(flight, maxFiles) && Enabled(flight, e)
    ensures Fits(Step(net, flight, e), maxFiles)
  {
    if e.Deliver? {
      var p := flight[e.index];
      var sent := Forwards(p.msg, JoinedBy(net, p.node), e.beyond);
      ForwardsExtend(p.msg, JoinedBy(net, p.node), e.beyond);
      FanoutShape(net, sent);
      var out := Fanout(net, sent);
      forall i | 0 <= i < |out| ensures out[i].msg.fileCount <= maxFiles {
        var k :| 0 <= k < |sent| && out[i].msg == sent[k].copy;
        assert Extends(p.msg, sent[k]);
      }
    }
  }

  lemma {:induction false} RunFits(nets: seq<Network>, lim: Limits, states: seq<seq<Packet>>, es: seq<Event>, i: nat)
    requires Run(nets, lim, states, es) && i < |states|
    ensures Fits(states[i], lim.files)
  {
    if i > 0 {
      RunFits(nets, lim, states, es, i - 1);
      StepFits(nets[i - 1], states[i - 1], es[i - 1], lim.files);
    }
  }

  lemma RunPrefix(nets: seq<Network>, lim: Limits, states: seq<seq<Packet>>, es: seq<Event>)
    requires Run(nets, lim, states, es) && es != []
    ensures Run(nets[..|es| - 1], lim, states[..|es|], es[..|es| - 1])
  {
  }

  /** Whatever the memberships at each moment, the losses and the order of delivery: the number of deliveries of any
      run is bounded by the weight of the copies it starts with. */
  lemma {:induction false} FloodDiesOut(nets: seq<Network>, lim: Limits, states: seq<seq<Packet>>, es: seq<Event>)
    requires Run(nets, lim, states, es)
    ensures |es| + TotalWeight(Fan(lim), states[|es|]) <= TotalWeight(Fan(lim), states[0])
  {
    if es != [] {
      var n := |es| - 1;
      RunFits(nets, lim, states, es, n);
      StepLoses(nets[n], states[n], es[n], lim);
      RunPrefix(nets, lim, states, es);
      FloodDiesOut(nets[..n], lim, states[..|es|], es[..n]);
    }
  }
}

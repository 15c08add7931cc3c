/** The chat server's tables, and the loops of server and client that carry messages, on real queues. */
module ChatServer {
  import opened ChatRouting
  import opened Optional

  class Client {
    const cid: int
    var numGroups: int

    constructor (cid: int)
      ensures this.cid == cid && numGroups == 0
    {
      this.cid, numGroups := cid, 0;
    }
  }

  /** new_group leaves the count of members as malloc returned it: `memory`. */
  class Group {
    const gid: int
    const clients: array<Client?>
    var numClients: int

    constructor (gid: int, memory: int)
      ensures this.gid == gid && numClients == memory && clients.Length == MAX && fresh(clients)
    {
      this.gid, numClients := gid, memory;
      clients := new Client?[MAX](_ => null);
    }

    function Members(): seq<Client?>
      requires 0 <= numClients <= clients.Length
      reads this, clients
    {
      clients[..numClients]
    }

    /** join_group: undefined when the count is no index. */
    method Join(client: Client) returns (defined: bool)
      requires clients.Length == MAX
      modifies this`numClients, clients, client`numGroups
      ensures defined <==> 0 <= old(numClients) < MAX
      ensures defined ==> numClients == old(numClients) + 1 && client.numGroups == old(client.numGroups) + 1
      ensures defined ==> Members() == old(clients[..numClients]) + [client]
    {
      if !(0 <= numClients < MAX) { return false; }
      client.numGroups := client.numGroups + 1;
      clients[numClients] := client;
      numClients := numClients + 1;
      defined := true;
    }
  }

  /** The global arrays: MAX entries, filled from the front, never emptied. */
  class Directory {
    const clients: array<Client?>
    const groups: array<Group?>
    var totalClients: nat
    var totalGroups: nat
    var nextGroupId: nat

    ghost predicate Valid()
      reads this, clients, groups
    {
      && clients.Length == groups.Length == MAX
      && totalClients <= MAX && totalGroups <= MAX && nextGroupId == totalGroups
      && (forall i :: 0 <= i < totalClients ==> clients[i] != null)
      && (forall i, j :: 0 <= i < j < totalClients ==> clients[i].cid != clients[j].cid)
      && forall i :: 0 <= i < totalGroups ==>
           groups[i] != null && groups[i].gid == i && groups[i].clients.Length == MAX
    }

    ghost predicate Knows(id: int)
      requires Valid()
      reads this, clients, groups
    {
      exists i :: 0 <= i < totalClients && clients[i].cid == id
    }

    constructor ()
      ensures Valid() && totalClients == totalGroups == 0
    {
      clients, groups := new Client?[MAX](_ => null), new Group?[MAX](_ => null);
      totalClients, totalGroups, nextGroupId := 0, 0, 0;
    }

    /** NULL exactly for the ids that nobody registered. */
    method FindClientById(id: int) returns (c: Client?)
      requires Valid()
      ensures c != null <==> Knows(id)
      ensures c != null ==> c.cid == id
    {
      for i := 0 to totalClients
        invariant forall j :: 0 <= j < i ==> clients[j].cid != id
      {
        if clients[i].cid == id { return clients[i]; }
      }
      c := null;
    }

    /** Registering twice finds the first registration. */
    method RegisterClient(uid: int) returns (c: Client)
      requires Valid() && (totalClients < MAX || Knows(uid))
      modifies this`totalClients, clients
      ensures Valid() && c.cid == uid
      ensures forall id :: Knows(id) <==> old(Knows(id)) || id == uid
    {
      var found := FindClientById(uid);
      if found != null { return found; }
      c := new Client(uid);
      clients[totalClients] := c;
      totalClients := totalClients + 1;
      assert clients[totalClients - 1].cid == uid;
      assert forall i :: 0 <= i < totalClients - 1 ==> clients[i] == old(clients[i]);
    }

    /** Group ids are positions in the table, so they stay below MAX. The creator joins, but behind as many members
        as the memory of the new group happens to say: it is the only one exactly when that is 0. */
    method CreateGroup(creator: Client, memory: int) returns (g: Group, defined: bool)
      requires Valid() && totalGroups < MAX
      modifies this`totalGroups, this`nextGroupId, groups, creator`numGroups
      ensures Valid() && totalGroups == old(totalGroups) + 1
      ensures g.gid == old(totalGroups) && 0 <= g.gid < MAX && groups[g.gid] == g
      ensures forall i :: 0 <= i < old(totalGroups) ==> groups[i] == old(groups[i])
      ensures defined <==> 0 <= memory < MAX
      ensures defined ==> 0 < g.numClients <= g.clients.Length && g.Members()[g.numClients - 1] == creator
      ensures defined ==> (g.Members() == [creator] <==> memory == 0)
    {
      g := new Group(nextGroupId, memory);
      nextGroupId := nextGroupId + 1;
      groups[totalGroups] := g;
      totalGroups := totalGroups + 1;
      defined := g.Join(creator);
    }

    /** The shortcut finds every group there is; the scan after it never finds another. A negative id, such as
        get_gid's -1, reads before the table. */
    method FindGroupById(id: int) returns (defined: bool, g: Group?)
      requires Valid()
      ensures defined <==> id >= 0
      ensures defined ==> g == if id < totalGroups then groups[id] else null
    {
      g := null;
      if id < totalGroups {
        if id < 0 { return false, null; }
        if groups[id].gid == id { return true, groups[id]; }
      }
      defined := true;
      for i := 0 to totalGroups
        invariant id >= totalGroups
      {
        var group := groups[i];
        if group.gid == id { return true, group; }
      }
    }
  }

  // ---- the loops ----

  /** A System V message queue. Rcv gives None where msgrcv would wait. */
  class MessageQueue {
    var messages: seq<Msg>

    constructor ()
      ensures messages == []
    {
      messages := [];
    }

    method Snd(m: Msg)
      modifies this
      ensures messages == old(messages) + [m]
    {
      messages := messages + [m];
    }

    method Rcv(t: int) returns (m: Option<Msg>)
      modifies this
      ensures var k := FirstOf(old(messages), t);
              if k < |old(messages)| then m == Some(old(messages)[k]) && messages == RemoveAt(old(messages), k)
              else m == None && messages == old(messages)
    {
      var k := 0;
      while k < |messages| && messages[k].mtype != t
        invariant 0 <= k <= |messages|
        invariant FirstOf(messages, t) == k + FirstOf(messages[k..], t)
      {
        assert messages[k..][1..] == messages[k + 1..];
        k := k + 1;
      }
      if k == |messages| { return None; }
      m := Some(messages[k]);
      messages := RemoveAt(messages, k);
    }
  }

  /** The routing state of this server; what the clients hold is arbitrary. */
  ghost predicate ServerSees(s: State, dir: Directory, q: MessageQueue)
    requires dir.Valid()
    reads dir, dir.clients, dir.groups, q
  {
    && s.server == q.messages && s.serverHand == None && s.groupHand == None && !s.crashed
    && s.groups == dir.totalGroups && forall id :: id in s.registered <==> dir.Knows(id)
  }

  /** Registration is Register: the routing model and the tables know the same clients and groups afterwards. */
  method HandleRegister(dir: Directory, q: MessageQueue, uid: int, ghost s: State) returns (c: Client)
    requires dir.Valid() && ServerSees(s, dir, q) && uid >= 0 && (dir.totalClients < MAX || dir.Knows(uid))
    modifies dir`totalClients, dir.clients
    ensures dir.Valid() && ServerSees(Step(s, Register(uid)), dir, q) && c.cid == uid
  {
    c := dir.RegisterClient(uid);
  }

  /** And the creation of a group is CreateGroup. */
  method HandleCreate(dir: Directory, q: MessageQueue, creator: Client, memory: int, ghost s: State)
    returns (g: Group, defined: bool)
    requires dir.Valid() && ServerSees(s, dir, q) && dir.totalGroups < MAX
    modifies dir`totalGroups, dir`nextGroupId, dir.groups, creator`numGroups
    ensures dir.Valid() && ServerSees(Step(s, CreateGroup), dir, q) && g.gid == s.groups
  {
    g, defined := dir.CreateGroup(creator, memory);
  }

  /** One round of handle_client_send_msgs is Dispatch and Forward of the routing model; it does not survive
      an addressee that find_client_by_id does not find. */
  method HandleClientSend(dir: Directory, q: MessageQueue, ghost s: State) returns (alive: bool)
    requires dir.Valid() && ServerSees(s, dir, q) && Enabled(s, Dispatch)
    modifies q
    ensures var s' := Step(Step(s, Dispatch), Forward); alive == !s'.crashed && q.messages == s'.server
  {
    var msg := q.Rcv(CLIENT_MESSAGE);
    var clt := dir.FindClientById(msg.value.dst);
    if clt == null { return false; }
    q.Snd(msg.value.(mtype := clt.cid + 5000, protocol := CLIENT_MESSAGE));
    alive := true;
  }

  /** The loop of send_group_message meets a client in every place up to the group's count, and names as many clients
      of the server in its progress messages. */
  ghost predicate CanFanOut(dir: Directory, g: Group)
    reads dir, g, g.clients
  {
    && g.numClients <= dir.totalClients && g.numClients <= g.clients.Length
    && forall i :: 0 <= i < g.numClients ==> g.clients[i] != null
  }

  ghost predicate NoneNegative(members: seq<Client?>) {
    forall i :: 0 <= i < |members| && members[i] != null ==> members[i].cid >= 0
  }

  ghost function Uids(members: seq<Client?>): (us: seq<int>)
    requires forall i :: 0 <= i < |members| ==> members[i] != null
    ensures |us| == |members| && forall i :: 0 <= i < |us| ==> us[i] == members[i].cid
    ensures NoneNegative(members) ==> forall i :: 0 <= i < |us| ==> us[i] >= 0
  {
    seq(|members|, i requires 0 <= i < |members| => members[i].cid)
  }

  /** Whom the loop reaches. */
  ghost function Recipients(g: Group): (members: seq<Client?>)
    reads g, g.clients
    ensures NoneNegative(g.clients[..]) ==> NoneNegative(members)
  {
    if 0 <= g.numClients <= g.clients.Length then g.clients[..g.numClients] else []
  }

  /** send_group_message on a group of the table. */
  method SendGroupMessage(dir: Directory, grp: Group, msg: Msg, q: MessageQueue, ghost s: State) returns (alive: bool)
    requires dir.Valid() && grp.clients.Length == MAX && NoneNegative(grp.clients[..])
    requires s.server == q.messages && !s.crashed && s.groupHand == Some(msg) && IsGroup(s, msg.dst)
    modifies q
    ensures alive <==> CanFanOut(dir, grp)
    ensures alive ==> q.messages == FannedOut(s, Uids(Recipients(grp))).server
  {
    ghost var us: seq<int> := [];
    var i := 0;
    while i < grp.numClients
      invariant 0 <= i && (i > 0 ==> i <= grp.numClients && i <= dir.totalClients)
      invariant |us| == i && forall j :: 0 <= j < i ==> grp.clients[j] != null && us[j] == grp.clients[j].cid >= 0
      invariant q.messages == FannedOut(s, us).server
    {
      if i >= MAX || grp.clients[i] == null { return false; }
      FansOutOneMore(s, us, grp.clients[i].cid);
      us := us + [grp.clients[i].cid];
      q.Snd(msg.(mtype := grp.clients[i].cid + 5000, protocol := GROUP_MESSAGE));
      if i >= dir.totalClients { return false; }
      i := i + 1;
    }
    assert us == Uids(Recipients(grp));
    alive := true;
  }

  /** One round of handle_group_send_msgs is GroupTake, the fan-out and GroupDone of the routing model. It does not
      survive a group that find_group_by_id does not find, nor one whose members cannot be walked. */
  method HandleGroupSend(dir: Directory, q: MessageQueue, ghost s: State) returns (alive: bool)
    requires dir.Valid() && ServerSees(s, dir, q) && Enabled(s, GroupTake)
    requires forall g :: 0 <= g < dir.totalGroups ==> NoneNegative(dir.groups[g].clients[..])
    modifies q
    ensures var s1 := Step(s, GroupTake);
            var gid := s1.groupHand.value.dst;
            && (alive <==> IsGroup(s1, gid) && CanFanOut(dir, dir.groups[gid]))
            && (Step(s1, GroupDone).crashed <==> !IsGroup(s1, gid))
            && (alive ==> q.messages == FannedOut(s1, Uids(Recipients(dir.groups[gid]))).server)
  {
    ghost var s1 := Step(s, GroupTake);
    var msg := q.Rcv(GROUP_MESSAGE);
    var defined, grp := dir.FindGroupById(msg.value.dst);
    if !defined || grp == null { return false; }
    alive := SendGroupMessage(dir, grp, msg.value, q, s1);
  }

  lemma TakenProtocol(log: seq<Letter>, server: seq<Msg>, k: nat)
    requires AllOnServer(log, server) && k < |server|
    ensures server[k].protocol == GROUP_MESSAGE || server[k].protocol == CLIENT_MESSAGE
  {
    assert OnServer(log, server[k]);
  }

  /** What Take and Deliver do to the two queues. */
  lemma TakeThenDeliver(s: State, uid: int, now: int)
    requires Enabled(s, Take(uid))
    ensures var k := FirstOf(s.server, uid + 5000);
            var m := s.server[k];
            var s' := Step(Step(s, Take(uid)), Deliver(uid, |Hands(s, uid)|, now));
            && s'.server == RemoveAt(s.server, k)
            && Queue(s', uid) == Queue(s, uid) + if IsExpired(m, now) then [] else [Relabelled(m)]
  {
    var s1 := Step(s, Take(uid));
    assert Hands(s1, uid)[|Hands(s, uid)|] == s.server[FirstOf(s.server, uid + 5000)];
    assert Queue(s1, uid) == Queue(s, uid);
  }

  /** One round of handle_messages: the first message of the user's type goes on, unless it has expired. */
  method HandleOne(uid: int, now: int, serverQueue: MessageQueue, clientQueue: MessageQueue)
    requires serverQueue != clientQueue && HasType(serverQueue.messages, uid + 5000)
    requires var m := serverQueue.messages[FirstOf(serverQueue.messages, uid + 5000)];
             m.protocol == GROUP_MESSAGE || m.protocol == CLIENT_MESSAGE
    modifies serverQueue, clientQueue
    ensures var server, k := old(serverQueue.messages), old(FirstOf(serverQueue.messages, uid + 5000));
            && serverQueue.messages == RemoveAt(server, k)
            && clientQueue.messages == old(clientQueue.messages)
                                       + if IsExpired(server[k], now) then [] else [Relabelled(server[k])]
  {
    var got := serverQueue.Rcv(uid + 5000);
    var msg := got.value;
    if msg.autoDelete > 0 && now - msg.timestamp > msg.autoDelete { return; }
    if msg.protocol == GROUP_MESSAGE {
      clientQueue.Snd(msg.(mtype := 5000 + msg.dst));
    } else if msg.protocol == CLIENT_MESSAGE {
      clientQueue.Snd(msg.(mtype := 10000 + msg.src));
    }
  }

  /** One round of handle_messages is Take and Deliver, whatever the user's other routers hold. */
  method HandleMessages(uid: int, now: int, serverQueue: MessageQueue, clientQueue: MessageQueue, ghost s: State)
    requires serverQueue != clientQueue && s.server == serverQueue.messages && Queue(s, uid) == clientQueue.messages
    requires AllOnServer(s.log, s.server) && Enabled(s, Take(uid))
    modifies serverQueue, clientQueue
    ensures var s' := Step(Step(s, Take(uid)), Deliver(uid, |Hands(s, uid)|, now));
            serverQueue.messages == s'.server && clientQueue.messages == Queue(s', uid)
  {
    TakenProtocol(s.log, s.server, FirstOf(s.server, uid + 5000));
    TakeThenDeliver(s, uid, now);
    HandleOne(uid, now, serverQueue, clientQueue);
  }

  /** One message of start_message_send_loop to a user is StartSend and FinishSend, whatever the user's other senders
      hold. */
  method SendMessage(src: int, dst: int, autoDelete: int, now: int, id: nat, clientQueue: MessageQueue,
                     serverQueue: MessageQueue, ghost s: State)
    requires serverQueue != clientQueue && s.server == serverQueue.messages && Queue(s, src) == clientQueue.messages
    requires Enabled(s, StartSend(src, dst, autoDelete, now)) && id == |s.log|
    modifies serverQueue, clientQueue
    ensures var s' := Step(Step(s, StartSend(src, dst, autoDelete, now)), FinishSend(src, |Sending(s, src)|));
            serverQueue.messages == s'.server && clientQueue.messages == Queue(s', src)
  {
    var msg := Msg(CLIENT_MESSAGE, CLIENT_MESSAGE, src, dst, autoDelete, now, id);
    clientQueue.Snd(msg.(mtype := dst + 10000));
    serverQueue.Snd(msg);
  }

  /** And to a group it is SendGroup. */
  method SendToGroup(src: int, gid: int, autoDelete: int, now: int, id: nat, serverQueue: MessageQueue, ghost s: State)
    requires s.server == serverQueue.messages && Enabled(s, SendGroup(src, gid, autoDelete, now)) && id == |s.log|
    modifies serverQueue
    ensures serverQueue.messages == Step(s, SendGroup(src, gid, autoDelete, now)).server
  {
    serverQueue.Snd(Msg(GROUP_MESSAGE, GROUP_MESSAGE, src, gid, autoDelete, now, id));
  }
}

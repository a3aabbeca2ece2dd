/** What every interleaving of joining, leaving and relaying handlers keeps. */
module SignalingSafety {
  import opened Options
  import opened SignalingRooms

  predicate InGroup(st: State, id: Id, group: Group) {
    id in st.conns && st.conns[id].group == group
  }

  predicate IsMember(st: State, p: Id) {
    p in st.conns && p in RoomIn(st.rooms, st.conns[p].group)
  }

  // ----- Bounds and rooms -----

  predicate RoomsWithin(limits: Limits, rooms: Rooms) {
    forall g :: g in rooms ==> |rooms[g]| <= limits.connections
  }

  predicate CountsWithin(limits: Limits, counts: Counts) {
    forall g :: g in counts ==> counts[g] <= limits.requests
  }

  predicate WithinLimits(limits: Limits, st: State) {
    RoomsWithin(limits, st.rooms) && CountsWithin(limits, st.counts)
  }

  /** A peer is in the room of its group exactly while its handler is between
      the two sections under the lock. */
  predicate RoomsMatch(st: State) {
    && (forall g, i :: g in st.rooms && i in st.rooms[g] ==> InGroup(st, i, g))
    && (forall i :: i in st.conns ==>
          (i in RoomIn(st.rooms, st.conns[i].group) <==> st.conns[i].phase.Joining? || st.conns[i].phase.Running?))
  }

  lemma {:induction false} RoomKeysBound(room: map<Id, Info>, id: Id, info: Info)
    ensures |room[id := info]| == if id in room then |room| else |room| + 1
    ensures |room - {id}| <= |room|
  {
    assert room[id := info].Keys == room.Keys + {id};
    assert (room - {id}).Keys == room.Keys - {id};
    assert |room.Keys - {id}| <= |room.Keys|;
    assert |room.Keys + {id}| == if id in room then |room| else |room| + 1;
  }

  lemma {:induction false} RoomsStayWithin(limits: Limits, rooms: Rooms, counts: Counts, group: Group, id: Id,
                                           info: Info)
    requires RoomsWithin(limits, rooms)
    ensures RoomsWithin(limits, Joined(limits, rooms, counts, group, id, info))
    ensures RoomsWithin(limits, Renamed(rooms, group, id, info))
    ensures RoomsWithin(limits, Departed(rooms, group, id))
  {
    RoomKeysBound(RoomIn(rooms, group), id, info);
  }

  lemma {:induction false} StepWithinLimits(limits: Limits, st: State, step: Step)
    requires WithinLimits(limits, st) && Enabled(st, step)
    ensures WithinLimits(limits, Next(limits, st, step))
  {
    match step
    case Connect(id, group, info) => RoomsStayWithin(limits, st.rooms, st.counts, group, id, info);
    case Receive(id, request) =>
      if request.RequestUpdate? {
        RoomsStayWithin(limits, st.rooms, st.counts, st.conns[id].group, id, request.info);
      }
    case Leave(id) => RoomsStayWithin(limits, st.rooms, st.counts, st.conns[id].group, id, st.conns[id].info);
    case _ =>
  }

  lemma {:induction false} ConnectRoomsMatch(limits: Limits, st: State, step: Step)
    requires RoomsMatch(st) && Enabled(st, step) && step.Connect?
    ensures RoomsMatch(Next(limits, st, step))
  {
  }

  lemma {:induction false} LeaveRoomsMatch(limits: Limits, st: State, step: Step)
    requires RoomsMatch(st) && Enabled(st, step) && step.Leave?
    ensures RoomsMatch(Next(limits, st, step))
  {
  }

  predicate IsInRoom(conn: Conn) {
    conn.phase.Joining? || conn.phase.Running?
  }

  /** Same connections in the same groups, same ids in the rooms. */
  ghost predicate SameMembers(a: State, b: State) {
    && (forall i :: i in b.conns <==> i in a.conns)
    && (forall i :: i in a.conns ==>
         b.conns[i].group == a.conns[i].group && (IsInRoom(b.conns[i]) <==> IsInRoom(a.conns[i])))
    && (forall g :: RoomIn(b.rooms, g).Keys == RoomIn(a.rooms, g).Keys)
  }

  lemma {:induction false} SameMembersMatch(a: State, b: State)
    requires RoomsMatch(a) && SameMembers(a, b)
    ensures RoomsMatch(b)
  {
    forall g, i | g in b.rooms && i in b.rooms[g] ensures InGroup(b, i, g) {
      assert i in RoomIn(b.rooms, g).Keys;
      assert i in RoomIn(a.rooms, g);
    }
    forall i | i in b.conns ensures i in RoomIn(b.rooms, b.conns[i].group) <==> IsInRoom(b.conns[i]) {
      assert i in RoomIn(b.rooms, b.conns[i].group).Keys <==> i in RoomIn(a.rooms, a.conns[i].group).Keys;
    }
  }

  predicate IsQuiet(step: Step) {
    !step.Connect? && !step.Leave?
  }

  lemma {:induction false} QuietStepKeepsConn(limits: Limits, st: State, step: Step, i: Id)
    requires Enabled(st, step) && IsQuiet(step)
    ensures var next := Next(limits, st, step);
            && (i in next.conns <==> i in st.conns)
            && (i in st.conns ==>
                  next.conns[i].group == st.conns[i].group && (IsInRoom(next.conns[i]) <==> IsInRoom(st.conns[i])))
  {
  }

  lemma {:induction false} QuietStepKeepsRoom(limits: Limits, st: State, step: Step, g: Group)
    requires Enabled(st, step) && IsQuiet(step)
    ensures RoomIn(Next(limits, st, step).rooms, g).Keys == RoomIn(st.rooms, g).Keys
  {
  }

  lemma {:induction false} QuietStepsKeepMembers(limits: Limits, st: State, step: Step)
    requires Enabled(st, step) && IsQuiet(step)
    ensures SameMembers(st, Next(limits, st, step))
  {
    var next := Next(limits, st, step);
    forall i: Id
      ensures i in next.conns <==> i in st.conns
      ensures i in st.conns ==>
                next.conns[i].group == st.conns[i].group && (IsInRoom(next.conns[i]) <==> IsInRoom(st.conns[i]))
    {
      QuietStepKeepsConn(limits, st, step, i);
    }
    forall g: Group ensures RoomIn(next.rooms, g).Keys == RoomIn(st.rooms, g).Keys {
      QuietStepKeepsRoom(limits, st, step, g);
    }
  }

  lemma {:induction false} StepRoomsMatch(limits: Limits, st: State, step: Step)
    requires RoomsMatch(st) && Enabled(st, step)
    ensures RoomsMatch(Next(limits, st, step))
  {
    if step.Connect? {
      ConnectRoomsMatch(limits, st, step);
    } else if step.Leave? {
      LeaveRoomsMatch(limits, st, step);
    } else {
      QuietStepsKeepMembers(limits, st, step);
      SameMembersMatch(st, Next(limits, st, step));
    }
  }

  // ----- Who may be sent what -----

  /** `msg` is addressed to `p` by a peer of its own group, says the truth about
      that peer, and, if it is relayed, passes on a request of that peer to `p`. */
  predicate MayReach(st: State, msg: ServerMsg, p: Id) {
    && p in st.conns
    && var group := st.conns[p].group;
       match msg
       case Hello(client, peers) => client == SelfInfo(st, p) && peers == st.conns[p].snapshot
       case Join(peer) => peer.id != p && InGroup(st, peer.id, group) && peer == SelfInfo(st, peer.id)
       case Update(peer) =>
         peer.id != p && InGroup(st, peer.id, group) && RequestUpdate(peer.info) in st.conns[peer.id].requests
       case Left(id) => id != p && InGroup(st, id, group) && st.conns[id].phase.Leaving?
       case Offer(peer, sessionId, sdp) =>
         InGroup(st, peer.id, group) && peer == SelfInfo(st, peer.id)
         && RequestOffer(p, sessionId, sdp) in st.conns[peer.id].requests
       case Answer(peer, sessionId, sdp) =>
         InGroup(st, peer.id, group) && peer == SelfInfo(st, peer.id)
         && RequestAnswer(p, sessionId, sdp) in st.conns[peer.id].requests
       case Error(code) => code == TOO_MANY_REQUESTS
  }

  /** `b` is a later state than `a` as far as messages are concerned. */
  predicate Extends(a: State, b: State) {
    forall i :: i in a.conns ==>
      && i in b.conns
      && b.conns[i].group == a.conns[i].group && b.conns[i].info == a.conns[i].info
      && b.conns[i].snapshot == a.conns[i].snapshot
      && (forall r :: r in a.conns[i].requests ==> r in b.conns[i].requests)
      && (a.conns[i].phase.Leaving? ==> b.conns[i].phase.Leaving?)
  }

  lemma {:induction false} ReachStays(a: State, b: State, msg: ServerMsg, p: Id)
    requires Extends(a, b) && MayReach(a, msg, p)
    ensures MayReach(b, msg, p)
  {
  }

  /** Changing one connection, other than who it is, and then queueing a message. */
  lemma {:induction false} ChangeExtends(st: State, id: Id, conn: Conn, rooms: Rooms, counts: Counts, to: Id,
                                         msg: ServerMsg)
    requires id in st.conns
    requires var was := st.conns[id];
             && conn.group == was.group && conn.info == was.info && conn.snapshot == was.snapshot
             && was.requests <= conn.requests && (was.phase.Leaving? ==> conn.phase.Leaving?)
    ensures Extends(st, State(rooms, counts, st.conns[id := conn]))
    ensures Extends(st, State(rooms, counts, Enqueue(st.conns[id := conn], to, msg)))
  {
  }

  lemma {:induction false} StepExtends(limits: Limits, st: State, step: Step)
    requires Enabled(st, step)
    ensures Extends(st, Next(limits, st, step))
  {
    var next := Next(limits, st, step);
    match step
    case Connect(_, _, _) =>
    case ResetCounts =>
    case SendJoin(id, to) =>
      var conn := st.conns[id];
      ChangeExtends(st, id, conn.(phase := Joining(conn.phase.todo - {to})), next.rooms, next.counts, to,
                    Join(SelfInfo(st, id)));
    case SendHello(id) =>
      ChangeExtends(st, id, st.conns[id].(phase := Running), next.rooms, next.counts, id,
                    Hello(SelfInfo(st, id), st.conns[id].snapshot));
    case SendLeft(id, to) =>
      var conn := st.conns[id];
      ChangeExtends(st, id, conn.(phase := Leaving(conn.phase.todo - {to})), next.rooms, next.counts, to, Left(id));
    case SendPost(id, to) =>
      var post := st.conns[id].post.value;
      var left := if post.todo == {} then None else Some(post.(todo := post.todo - {to}));
      ChangeExtends(st, id, st.conns[id].(post := left), next.rooms, next.counts, to, post.msg);
    case Receive(id, _) => ChangeExtends(st, id, next.conns[id], next.rooms, next.counts, id, Left(id));
    case CloseQueue(id) => ChangeExtends(st, id, next.conns[id], next.rooms, next.counts, id, Left(id));
    case Leave(id) => ChangeExtends(st, id, next.conns[id], next.rooms, next.counts, id, Left(id));
  }

  predicate QueuesLegal(st: State) {
    forall p, m :: p in st.conns && m in st.conns[p].queue ==> MayReach(st, m, p)
  }

  /** The sends a handler still owes. */
  predicate Owes(st: State, c: Id, msg: ServerMsg, to: Id) {
    && c in st.conns
    && var conn := st.conns[c];
       || (conn.phase.Joining? && to in conn.phase.todo && msg == Join(SelfInfo(st, c)))
       || (conn.phase.Leaving? && to in conn.phase.todo && msg == Left(c))
       || (conn.post.Some? && to in conn.post.value.todo && msg == conn.post.value.msg)
  }

  ghost predicate SendsLegal(st: State) {
    forall c, msg, to :: Owes(st, c, msg, to) ==> MayReach(st, msg, to)
  }

  predicate SnapshotsLegal(st: State) {
    forall c, i :: c in st.conns && i in st.conns[c].snapshot ==> i != c && InGroup(st, i, st.conns[c].group)
  }

  predicate IsPair(join: ServerMsg, left: ServerMsg) {
    join.Join? && left.Left? && join.peer.id == left.peerId
  }

  /** The Join of a peer precedes its Left. */
  predicate InOrder(queue: seq<ServerMsg>) {
    forall i, j :: 0 <= i < |queue| && 0 <= j < |queue| && IsPair(queue[i], queue[j]) ==> i < j
  }

  predicate QueuesInOrder(st: State) {
    forall p :: p in st.conns ==> InOrder(st.conns[p].queue)
  }

  /** The receiving task only relays. */
  predicate PostsRelay(st: State) {
    forall c :: c in st.conns && st.conns[c].post.Some? ==>
      var msg := st.conns[c].post.value.msg; msg.Update? || msg.Offer? || msg.Answer? || msg.Error?
  }

  ghost predicate Legal(st: State) {
    RoomsMatch(st) && PostsRelay(st) && QueuesLegal(st) && SendsLegal(st) && SnapshotsLegal(st) && QueuesInOrder(st)
  }

  function QueueOf(st: State, p: Id): seq<ServerMsg> {
    if p in st.conns then st.conns[p].queue else []
  }

  /** `p`'s queue is as before, or longer by a message that may reach `p`; a
      Join comes from a handler that is joining. */
  predicate QueueGrows(st: State, next: State, p: Id) {
    var before, now := QueueOf(st, p), QueueOf(next, p);
    || now == before
    || (&& p in st.conns && |now| == |before| + 1 && now == before + [now[|before|]]
        && MayReach(st, now[|before|], p)
        && (now[|before|].Join? ==>
              now[|before|].peer.id in st.conns && st.conns[now[|before|].peer.id].phase.Joining?))
  }

  /** A changed connection, and then a message on a queue. */
  lemma {:induction false} EnqueueGrows(st: State, next: State, id: Id, conn: Conn, to: Id, msg: ServerMsg, p: Id)
    requires id in st.conns && conn.queue == st.conns[id].queue
    requires next.conns == Enqueue(st.conns[id := conn], to, msg)
    requires to in st.conns ==> MayReach(st, msg, to)
    requires msg.Join? ==> msg.peer.id in st.conns && st.conns[msg.peer.id].phase.Joining?
    ensures QueueGrows(st, next, p)
  {
  }

  lemma {:induction false} SendPostGrows(limits: Limits, st: State, id: Id, to: Id, p: Id)
    requires Legal(st) && Enabled(st, SendPost(id, to))
    ensures QueueGrows(st, Next(limits, st, SendPost(id, to)), p)
  {
    var post := st.conns[id].post.value;
    if post.todo != {} {
      assert Owes(st, id, post.msg, to);
      EnqueueGrows(st, Next(limits, st, SendPost(id, to)), id,
                   st.conns[id].(post := Some(post.(todo := post.todo - {to}))), to, post.msg, p);
    }
  }

  /** What a step puts on a queue was owed before the step. */
  lemma {:induction false} NewMessagesWereOwed(limits: Limits, st: State, step: Step, p: Id)
    requires Legal(st) && Enabled(st, step)
    ensures QueueGrows(st, Next(limits, st, step), p)
  {
    var next := Next(limits, st, step);
    match step
    case SendJoin(id, to) =>
      assert Owes(st, id, Join(SelfInfo(st, id)), to);
      EnqueueGrows(st, next, id, st.conns[id].(phase := Joining(st.conns[id].phase.todo - {to})), to,
                   Join(SelfInfo(st, id)), p);
    case SendLeft(id, to) =>
      assert Owes(st, id, Left(id), to);
      EnqueueGrows(st, next, id, st.conns[id].(phase := Leaving(st.conns[id].phase.todo - {to})), to, Left(id), p);
    case SendHello(id) =>
      EnqueueGrows(st, next, id, st.conns[id].(phase := Running), id, Hello(SelfInfo(st, id), st.conns[id].snapshot),
                   p);
    case SendPost(id, to) => SendPostGrows(limits, st, id, to, p);
    case _ =>
  }

  lemma {:induction false} InOrderOneMore(queue: seq<ServerMsg>, msg: ServerMsg)
    requires InOrder(queue) && (msg.Join? ==> Left(msg.peer.id) !in queue)
    ensures InOrder(queue + [msg])
  {
    var now := queue + [msg];
    forall i, j | 0 <= i < |now| && 0 <= j < |now| && IsPair(now[i], now[j])
      ensures i < j
    {
      if j < |queue| {
        assert now[j] in queue && now[j] == Left(now[j].peerId);
      }
    }
  }

  lemma {:induction false} StepQueues(limits: Limits, st: State, step: Step)
    requires Legal(st) && Enabled(st, step)
    ensures QueuesLegal(Next(limits, st, step)) && QueuesInOrder(Next(limits, st, step))
  {
    var next := Next(limits, st, step);
    StepExtends(limits, st, step);
    forall p | p in next.conns
      ensures InOrder(next.conns[p].queue)
      ensures forall m :: m in next.conns[p].queue ==> MayReach(next, m, p)
    {
      QueueStep(limits, st, step, p);
    }
  }

  lemma {:induction false} QueueStep(limits: Limits, st: State, step: Step, p: Id)
    requires Legal(st) && Enabled(st, step) && p in Next(limits, st, step).conns && Extends(st, Next(limits, st, step))
    ensures InOrder(Next(limits, st, step).conns[p].queue)
    ensures forall m :: m in Next(limits, st, step).conns[p].queue ==> MayReach(Next(limits, st, step), m, p)
  {
    NewMessagesWereOwed(limits, st, step, p);
    GrownQueueIsLegal(st, Next(limits, st, step), p);
  }

  lemma {:induction false} GrownQueueIsLegal(st: State, next: State, p: Id)
    requires Legal(st) && Extends(st, next) && QueueGrows(st, next, p) && p in next.conns
    ensures InOrder(next.conns[p].queue)
    ensures forall m :: m in next.conns[p].queue ==> MayReach(next, m, p)
  {
    var before, now := QueueOf(st, p), next.conns[p].queue;
    forall m | m in now ensures MayReach(next, m, p) {
      ReachStays(st, next, m, p);
    }
    if now != before {
      var msg := now[|before|];
      assert msg.Join? && Left(msg.peer.id) in before ==> MayReach(st, Left(msg.peer.id), p);
      InOrderOneMore(before, msg);
    }
  }

  lemma {:induction false} PostIsLegal(limits: Limits, st: State, id: Id, request: Request, to: Id)
    requires Legal(st) && Enabled(st, Receive(id, request)) && MayCount(limits, st.counts, st.conns[id].group)
    requires to in PostOf(st, id, request).todo
    ensures MayReach(Next(limits, st, Receive(id, request)), PostOf(st, id, request).msg, to)
  {
  }

  lemma {:induction false} ConnectOwes(limits: Limits, st: State, step: Step, c: Id, msg: ServerMsg, to: Id)
    requires Legal(st) && Enabled(st, step) && step.Connect? && Owes(Next(limits, st, step), c, msg, to)
    ensures Owes(st, c, msg, to) || MayReach(Next(limits, st, step), msg, to)
  {
  }

  lemma {:induction false} LeaveOwes(limits: Limits, st: State, step: Step, c: Id, msg: ServerMsg, to: Id)
    requires Legal(st) && Enabled(st, step) && step.Leave? && Owes(Next(limits, st, step), c, msg, to)
    ensures Owes(st, c, msg, to) || MayReach(Next(limits, st, step), msg, to)
  {
  }

  lemma {:induction false} ReceiveOwes(limits: Limits, st: State, step: Step, c: Id, msg: ServerMsg, to: Id)
    requires Legal(st) && Enabled(st, step) && step.Receive? && Owes(Next(limits, st, step), c, msg, to)
    ensures Owes(st, c, msg, to) || MayReach(Next(limits, st, step), msg, to)
  {
    if !Owes(st, c, msg, to) && MayCount(limits, st.counts, st.conns[step.id].group) {
      PostIsLegal(limits, st, step.id, step.request, to);
    }
  }

  /** Every other step only pays what was owed. */
  lemma {:induction false} OtherStepsOweNoMore(limits: Limits, st: State, step: Step, c: Id, msg: ServerMsg, to: Id)
    requires Enabled(st, step) && !step.Connect? && !step.Leave? && !step.Receive?
    requires Owes(Next(limits, st, step), c, msg, to)
    ensures Owes(st, c, msg, to)
  {
  }

  lemma {:induction false} DebtIsLegal(limits: Limits, st: State, step: Step, c: Id, msg: ServerMsg, to: Id)
    requires Legal(st) && Enabled(st, step) && Extends(st, Next(limits, st, step))
    requires Owes(Next(limits, st, step), c, msg, to)
    ensures MayReach(Next(limits, st, step), msg, to)
  {
    match step
    case Connect(_, _, _) => ConnectOwes(limits, st, step, c, msg, to);
    case Leave(_) => LeaveOwes(limits, st, step, c, msg, to);
    case Receive(_, _) => ReceiveOwes(limits, st, step, c, msg, to);
    case _ => OtherStepsOweNoMore(limits, st, step, c, msg, to);
    if Owes(st, c, msg, to) {
      ReachStays(st, Next(limits, st, step), msg, to);
    }
  }

  lemma {:induction false} StepSends(limits: Limits, st: State, step: Step)
    requires Legal(st) && Enabled(st, step)
    ensures SendsLegal(Next(limits, st, step))
  {
    StepExtends(limits, st, step);
    forall c, msg, to | Owes(Next(limits, st, step), c, msg, to) ensures MayReach(Next(limits, st, step), msg, to) {
      DebtIsLegal(limits, st, step, c, msg, to);
    }
  }

  lemma {:induction false} StepSnapshots(limits: Limits, st: State, step: Step)
    requires Legal(st) && Enabled(st, step)
    ensures SnapshotsLegal(Next(limits, st, step))
  {
    StepExtends(limits, st, step);
  }

  lemma {:induction false} StepPostsRelay(limits: Limits, st: State, step: Step)
    requires PostsRelay(st) && Enabled(st, step)
    ensures PostsRelay(Next(limits, st, step))
  {
  }

  lemma {:induction false} StepLegal(limits: Limits, st: State, step: Step)
    requires Legal(st) && Enabled(st, step)
    ensures Legal(Next(limits, st, step))
  {
    StepRoomsMatch(limits, st, step);
    StepPostsRelay(limits, st, step);
    StepQueues(limits, st, step);
    StepSends(limits, st, step);
    StepSnapshots(limits, st, step);
  }
}
